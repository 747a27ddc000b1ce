/** Stable sorting by a total preorder, merging of sorted lists, and cutting to the first k. */
module Ranking {
  ghost predicate Total<T(!new)>(le: (T, T) -> bool) {
    && (forall x, y :: le(x, y) || le(y, x))
    && (forall x, y, z :: le(x, y) && le(y, z) ==> le(x, z))
  }

  ghost predicate Ordered<T(!new)>(s: seq<T>, le: (T, T) -> bool) {
    forall i, j :: 0 <= i < j < |s| ==> le(s[i], s[j])
  }

  function Insert<T>(x: T, s: seq<T>, le: (T, T) -> bool): seq<T> {
    if s == [] || le(x, s[0]) then [x] + s else [s[0]] + Insert(x, s[1..], le)
  }

  /** Equal elements keep their order. */
  function SortBy<T>(s: seq<T>, le: (T, T) -> bool): seq<T> {
    if s == [] then [] else Insert(s[0], SortBy(s[1..], le), le)
  }

  function Merge<T>(x: seq<T>, y: seq<T>, le: (T, T) -> bool): seq<T> {
    if x == [] then y
    else if y == [] then x
    else if le(x[0], y[0]) then [x[0]] + Merge(x[1..], y, le)
    else [y[0]] + Merge(x, y[1..], le)
  }

  function Take<T>(k: nat, s: seq<T>): seq<T> {
    if |s| <= k then s else s[..k]
  }

  lemma {:induction false} InsertAdds<T(!new)>(x: T, s: seq<T>, le: (T, T) -> bool)
    ensures multiset(Insert(x, s, le)) == multiset(s) + multiset{x}
    ensures forall y :: y in Insert(x, s, le) <==> y == x || y in s
  {
    if s != [] && !le(x, s[0]) {
      InsertAdds(x, s[1..], le);
      assert s == [s[0]] + s[1..];
    }
  }

  lemma {:induction false} InsertKeeps<T(!new)>(x: T, s: seq<T>, le: (T, T) -> bool)
    requires Total(le) && Ordered(s, le)
    ensures Ordered(Insert(x, s, le), le)
  {
    if s != [] && !le(x, s[0]) {
      var rest := Insert(x, s[1..], le);
      InsertKeeps(x, s[1..], le);
      InsertAdds(x, s[1..], le);
      forall i | 0 <= i < |rest| ensures le(s[0], rest[i]) {
        assert rest[i] in rest;
      }
    }
  }

  lemma {:induction false} SortKeeps<T(!new)>(s: seq<T>, le: (T, T) -> bool)
    requires Total(le)
    ensures Ordered(SortBy(s, le), le)
    ensures multiset(SortBy(s, le)) == multiset(s)
    ensures |SortBy(s, le)| == |s|
    ensures forall x :: x in SortBy(s, le) <==> x in s
  {
    if s != [] {
      SortKeeps(s[1..], le);
      InsertKeeps(s[0], SortBy(s[1..], le), le);
      InsertAdds(s[0], SortBy(s[1..], le), le);
      assert s == [s[0]] + s[1..];
    }
    SameElements(SortBy(s, le), s);
  }

  lemma SameElements<T>(x: seq<T>, y: seq<T>)
    requires multiset(x) == multiset(y)
    ensures |x| == |y|
    ensures forall e :: e in x <==> e in y
  {
    assert |multiset(x)| == |multiset(y)|;
    forall e ensures e in x <==> e in y {
      assert e in x <==> e in multiset(x);
      assert e in y <==> e in multiset(y);
    }
  }

  lemma {:induction false} SortOfOrdered<T(!new)>(s: seq<T>, le: (T, T) -> bool)
    requires Ordered(s, le)
    ensures SortBy(s, le) == s
  {
    if s != [] {
      SortOfOrdered(s[1..], le);
    }
  }

  lemma {:induction false} InsertIntoMerge<T(!new)>(e: T, x: seq<T>, y: seq<T>, le: (T, T) -> bool)
    requires Total(le)
    ensures Insert(e, Merge(x, y, le), le) == Merge(Insert(e, x, le), y, le)
    decreases |x| + |y|
  {
    if y == [] {
    } else if x == [] {
      if !le(e, y[0]) {
        InsertIntoMerge(e, x, y[1..], le);
      }
    } else if le(x[0], y[0]) {
      if le(e, x[0]) {
        assert ([e] + x)[1..] == x;
      } else {
        InsertIntoMerge(e, x[1..], y, le);
        assert ([x[0]] + Insert(e, x[1..], le))[1..] == Insert(e, x[1..], le);
        assert ([x[0]] + Merge(x[1..], y, le))[1..] == Merge(x[1..], y, le);
      }
    } else if le(e, y[0]) {
      assert ([e] + x)[1..] == x;
    } else {
      InsertIntoMerge(e, x, y[1..], le);
      assert ([y[0]] + Merge(x, y[1..], le))[1..] == Merge(x, y[1..], le);
    }
  }

  predicate Tie<T>(x: T, y: T, le: (T, T) -> bool) {
    le(x, y) && le(y, x)
  }

  function IfTie<T>(x: T, y: T, le: (T, T) -> bool): seq<T> {
    if Tie(x, y, le) then [x] else []
  }

  /** The elements that tie with one, in their order. */
  function Ties<T>(s: seq<T>, x: T, le: (T, T) -> bool): seq<T> {
    if s == [] then [] else IfTie(s[0], x, le) + Ties(s[1..], x, le)
  }

  lemma TiesFirst<T>(e: T, s: seq<T>, x: T, le: (T, T) -> bool)
    ensures Ties([e] + s, x, le) == IfTie(e, x, le) + Ties(s, x, le)
  {
    assert ([e] + s)[1..] == s;
  }

  /** Of two elements in strict order at most one ties with a third. */
  lemma TiesApart<T(!new)>(e: T, y: T, x: T, rest: seq<T>, le: (T, T) -> bool)
    requires Total(le) && !le(e, y)
    ensures IfTie(y, x, le) + (IfTie(e, x, le) + rest) == IfTie(e, x, le) + (IfTie(y, x, le) + rest)
  {
    assert IfTie(y, x, le) == [] || IfTie(e, x, le) == [];
  }

  lemma {:induction false} InsertIsStable<T(!new)>(e: T, s: seq<T>, x: T, le: (T, T) -> bool)
    requires Total(le)
    ensures Ties(Insert(e, s, le), x, le) == IfTie(e, x, le) + Ties(s, x, le)
  {
    if s == [] || le(e, s[0]) {
      TiesFirst(e, s, x, le);
    } else {
      InsertIsStable(e, s[1..], x, le);
      TiesFirst(s[0], Insert(e, s[1..], le), x, le);
      TiesApart(e, s[0], x, Ties(s[1..], x, le), le);
    }
  }

  /** Elements that tie stay in their order. */
  lemma {:induction false} SortIsStable<T(!new)>(s: seq<T>, x: T, le: (T, T) -> bool)
    requires Total(le)
    ensures Ties(SortBy(s, le), x, le) == Ties(s, x, le)
  {
    if s != [] {
      SortIsStable(s[1..], x, le);
      InsertIsStable(s[0], SortBy(s[1..], le), x, le);
    }
  }

  /** Sorting a concatenation is merging the sorted parts. */
  lemma {:induction false} SortOfConcatenation<T(!new)>(x: seq<T>, y: seq<T>, le: (T, T) -> bool)
    requires Total(le)
    ensures SortBy(x + y, le) == Merge(SortBy(x, le), SortBy(y, le), le)
  {
    if x == [] {
      assert x + y == y;
    } else {
      SortOfConcatenation(x[1..], y, le);
      assert (x + y)[1..] == x[1..] + y;
      InsertIntoMerge(x[0], SortBy(x[1..], le), SortBy(y, le), le);
    }
  }

  /** The first k of a merge need only the first k of each side. */
  lemma {:induction false} MergeOfCuts<T(!new)>(k: nat, i: nat, j: nat, x: seq<T>, y: seq<T>, le: (T, T) -> bool)
    requires k <= i && k <= j
    ensures Take(k, Merge(Take(i, x), Take(j, y), le)) == Take(k, Merge(x, y, le))
    decreases k
  {
    if k > 0 && x != [] && y != [] {
      TakeTail(i, x);
      TakeTail(j, y);
      var x', y' := Take(i, x), Take(j, y);
      if le(x[0], y[0]) {
        MergeOfCuts(k - 1, i - 1, j, x[1..], y, le);
        TakeFirst(k, x[0], Merge(x[1..], y, le));
        TakeFirst(k, x[0], Merge(x'[1..], y', le));
      } else {
        MergeOfCuts(k - 1, i, j - 1, x, y[1..], le);
        TakeFirst(k, y[0], Merge(x, y[1..], le));
        TakeFirst(k, y[0], Merge(x', y'[1..], le));
      }
    }
  }

  lemma TakeTail<T>(i: nat, s: seq<T>)
    requires i > 0 && s != []
    ensures Take(i, s) != [] && Take(i, s)[0] == s[0] && Take(i, s)[1..] == Take(i - 1, s[1..])
  {
  }

  lemma TakeFirst<T>(k: nat, e: T, s: seq<T>)
    requires k > 0
    ensures Take(k, [e] + s) == [e] + Take(k - 1, s)
  {
  }

  /** So of two ordered lists, the first k of the sorted union need only the first k of each. */
  lemma CutsSuffice<T(!new)>(k: nat, x: seq<T>, y: seq<T>, le: (T, T) -> bool)
    requires Total(le) && Ordered(x, le) && Ordered(y, le)
    ensures Take(k, SortBy(Take(k, x) + Take(k, y), le)) == Take(k, SortBy(x + y, le))
  {
    SortOfConcatenation(x, y, le);
    SortOfConcatenation(Take(k, x), Take(k, y), le);
    SortOfOrdered(x, le);
    SortOfOrdered(y, le);
    SortOfOrdered(Take(k, x), le);
    SortOfOrdered(Take(k, y), le);
    MergeOfCuts(k, k, k, x, y, le);
  }

  /** Where only equal elements compare both ways, elements without repetition can be ordered in one way only. */
  lemma {:induction false} OrderedIsUnique<T(!new)>(x: seq<T>, y: seq<T>, le: (T, T) -> bool)
    requires Ordered(x, le) && Ordered(y, le) && multiset(x) == multiset(y)
    requires forall a, b :: a in x && b in x && le(a, b) && le(b, a) ==> a == b
    ensures x == y
  {
    SameElements(x, y);
    if x != [] {
      assert x[0] == y[0] by {
        SameHead(x, y, le);
      }
      SameTails(x, y);
      OrderedIsUnique(x[1..], y[1..], le);
    }
  }

  lemma SameHead<T(!new)>(x: seq<T>, y: seq<T>, le: (T, T) -> bool)
    requires Ordered(x, le) && Ordered(y, le) && x != [] && y != []
    requires forall e :: e in x <==> e in y
    requires forall a, b :: a in x && b in x && le(a, b) && le(b, a) ==> a == b
    ensures x[0] == y[0]
  {
    assert x[0] in y && y[0] in x;
  }

  lemma SameTails<T>(x: seq<T>, y: seq<T>)
    requires multiset(x) == multiset(y) && x != [] && y != [] && x[0] == y[0]
    ensures multiset(x[1..]) == multiset(y[1..])
    ensures x == [x[0]] + x[1..] && y == [y[0]] + y[1..]
  {
    assert x == [x[0]] + x[1..] && y == [y[0]] + y[1..];
    assert multiset(x[1..]) == multiset(x) - multiset{x[0]};
    assert multiset(y[1..]) == multiset(y) - multiset{y[0]};
  }

  lemma WithoutOne<T>(s: seq<T>, k: nat)
    requires k < |s|
    ensures multiset(s[..k] + s[k + 1..]) == multiset(s) - multiset{s[k]}
  {
    assert s == s[..k] + [s[k]] + s[k + 1..];
  }

  lemma MatchingPlace<T>(x: seq<T>, y: seq<T>) returns (k: nat)
    requires multiset(x) == multiset(y) && x != []
    ensures k < |y| && y[k] == x[0]
    ensures multiset(x[..0] + x[1..]) == multiset(y[..k] + y[k + 1..])
  {
    SameElements(x, y);
    assert x[0] in y;
    k :| 0 <= k < |y| && y[k] == x[0];
    WithoutOne(x, 0);
    WithoutOne(y, k);
  }

  /** Whoever is left out of the first k comes after each of them. */
  lemma FirstOnesLead<T(!new)>(k: nat, s: seq<T>, le: (T, T) -> bool)
    requires Total(le)
    ensures forall x, i :: x in s && x !in Take(k, SortBy(s, le)) && 0 <= i < |Take(k, SortBy(s, le))| ==>
      le(Take(k, SortBy(s, le))[i], x)
  {
    SortKeeps(s, le);
    var sorted := SortBy(s, le);
    forall x, i | x in s && x !in Take(k, sorted) && 0 <= i < |Take(k, sorted)| ensures le(sorted[i], x) {
      assert x in sorted;
      var j :| 0 <= j < |sorted| && sorted[j] == x;
      assert forall h :: 0 <= h < |Take(k, sorted)| ==> Take(k, sorted)[h] == sorted[h];
    }
  }

  // Gathering what each element of a list contributes.

  function Gather<T, U>(s: seq<T>, f: T -> seq<U>): seq<U> {
    if s == [] then [] else Gather(s[..|s| - 1], f) + f(s[|s| - 1])
  }

  lemma GatherNext<T, U>(s: seq<T>, n: nat, f: T -> seq<U>)
    requires n < |s|
    ensures Gather(s[..n + 1], f) == Gather(s[..n], f) + f(s[n])
  {
    assert s[..n + 1][..n] == s[..n];
  }

  lemma GatherAlone<T, U>(e: T, f: T -> seq<U>)
    ensures Gather([e], f) == f(e)
  {
    assert [e][..0] == [];
  }

  lemma {:induction false} GatherOfConcat<T, U>(x: seq<T>, y: seq<T>, f: T -> seq<U>)
    ensures Gather(x + y, f) == Gather(x, f) + Gather(y, f)
  {
    if y == [] {
      assert x + y == x;
    } else {
      var n := |y| - 1;
      GatherOfConcat(x, y[..n], f);
      assert (x + y)[..|x + y| - 1] == x + y[..n];
    }
  }

  lemma GatherWithout<T, U>(s: seq<T>, k: nat, f: T -> seq<U>)
    requires k < |s|
    ensures multiset(Gather(s, f)) == multiset(Gather(s[..k] + s[k + 1..], f)) + multiset(f(s[k]))
  {
    var before, after := s[..k], s[k + 1..];
    assert s == s[..k + 1] + after;
    GatherOfConcat(before, after, f);
    GatherOfConcat(s[..k + 1], after, f);
    GatherNext(s, k, f);
  }

  /** Rearranging the list only rearranges what is gathered. */
  lemma {:induction false} GatherPermutes<T, U>(x: seq<T>, y: seq<T>, f: T -> seq<U>)
    requires multiset(x) == multiset(y)
    ensures multiset(Gather(x, f)) == multiset(Gather(y, f))
    decreases |x|
  {
    if x == [] {
      assert y == [] by {
        SameElements(x, y);
      }
    } else {
      var k := MatchingPlace(x, y);
      GatherPermutes(x[..0] + x[1..], y[..k] + y[k + 1..], f);
      GatherWithout(x, 0, f);
      GatherWithout(y, k, f);
    }
  }

  lemma {:induction false} GatherMembers<T, U>(s: seq<T>, f: T -> seq<U>)
    ensures forall r :: r in Gather(s, f) <==> exists e :: e in s && r in f(e)
  {
    if s != [] {
      var n := |s| - 1;
      GatherMembers(s[..n], f);
      assert s == s[..n] + [s[n]];
    }
  }
}
