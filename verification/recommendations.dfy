/** The ranked clients of the dashboard: five at most, most urgent first, ties by name and then by id. */
module Recommendations {
  import opened Results
  import opened Numbers
  import opened Ranking
  import opened Dashboard

  datatype Recommendation = Recommendation(
    rank: nat, client: Id, name: string, score: int, days: Option<int>, conversations: nat, open: nat)

  function Counted(open: map<Id, nat>, c: Id): nat {
    if c in open then open[c] else 0
  }

  /** Days since the last contact, never negative. */
  function Silence(t: Time, now: Time): int {
    Max(0, Days(t, now))
  }

  function Urgency(contact: Option<Time>, open: nat, now: Time): int {
    if contact.None? then 50
    else if Silence(contact.value, now) < FOLLOWUP_AFTER_DAYS then Min(90, 70 + open * 5)
    else Min(100, 50 + Silence(contact.value, now) + open * 5)
  }

  predicate Recommended(c: Client, latest: Option<Action>, open: nat, now: Time) {
    var s := FollowupState(c, latest, now);
    !s.suppressed && (s.contact.None? || Silence(s.contact.value, now) >= FOLLOWUP_AFTER_DAYS || open > 0)
  }

  function RecommendationFor(c: Client, latest: Option<Action>, open: nat, now: Time): Recommendation {
    var contact := FollowupState(c, latest, now).contact;
    Recommendation(1, c.id, c.name, Urgency(contact, open, now),
                   if contact.None? then None else Some(Silence(contact.value, now)),
                   if contact.None? then 0 else |c.uploads|, open)
  }

  function CandidateOf(c: Client, latest: map<Id, Action>, open: map<Id, nat>, now: Time): seq<Recommendation> {
    if Recommended(c, LatestOf(latest, c.id), Counted(open, c.id), now)
    then [RecommendationFor(c, LatestOf(latest, c.id), Counted(open, c.id), now)]
    else []
  }

  function CandidateIn(latest: map<Id, Action>, open: map<Id, nat>, now: Time): Client -> seq<Recommendation> {
    c => CandidateOf(c, latest, open, now)
  }

  function Candidates(clients: seq<Client>, latest: map<Id, Action>, open: map<Id, nat>, now: Time): seq<Recommendation> {
    Gather(clients, CandidateIn(latest, open, now))
  }

  predicate NameLe(a: string, b: string) {
    a == [] || (b != [] && (a[0] < b[0] || (a[0] == b[0] && NameLe(a[1..], b[1..]))))
  }

  predicate MoreUrgent(a: Recommendation, b: Recommendation) {
    || a.score > b.score
    || (&& a.score == b.score
        && ((a.name != b.name && NameLe(a.name, b.name)) || (a.name == b.name && a.client <= b.client)))
  }

  function Renumbered(s: seq<Recommendation>): (r: seq<Recommendation>)
    ensures |r| == |s|
    ensures forall i :: 0 <= i < |r| ==> r[i] == s[i].(rank := i + 1)
  {
    seq(|s|, i requires 0 <= i < |s| => s[i].(rank := i + 1))
  }

  function Shown(clients: seq<Client>, latest: map<Id, Action>, open: map<Id, nat>, now: Time): seq<Recommendation> {
    Renumbered(Take(SHOWN, SortBy(Candidates(clients, latest, open, now), MoreUrgent)))
  }

  method BuildRecommendations(clients: seq<Client>, latest: map<Id, Action>, open: map<Id, nat>, now: Time)
    returns (shown: seq<Recommendation>)
    ensures shown == Shown(clients, latest, open, now)
  {
    var recommendations: seq<Recommendation> := [];
    var i := 0;
    while i < |clients|
      invariant 0 <= i <= |clients|
      invariant recommendations == Candidates(clients[..i], latest, open, now)
    {
      var c := clients[i];
      GatherNext(clients, i, CandidateIn(latest, open, now));
      var count := Counted(open, c.id);
      var s := FollowupState(c, LatestOf(latest, c.id), now);
      i := i + 1;
      if s.suppressed {
        continue;
      }
      if s.contact.None? {
        recommendations := recommendations + [Recommendation(1, c.id, c.name, 50, None, 0, count)];
        continue;
      }
      var days := Max(0, Days(s.contact.value, now));
      if days < FOLLOWUP_AFTER_DAYS && count == 0 {
        continue;
      }
      var score;
      if days < FOLLOWUP_AFTER_DAYS {
        score := Min(90, 70 + count * 5);
      } else {
        score := Min(100, 50 + days + count * 5);
      }
      recommendations := recommendations + [Recommendation(1, c.id, c.name, score, Some(days), |c.uploads|, count)];
    }
    assert clients[..i] == clients;
    shown := Renumbered(Take(SHOWN, SortBy(recommendations, MoreUrgent)));
  }

  // Who is recommended, and how urgently.

  /** Every client whose follow-up is due is a candidate; beyond those only clients with open actions. */
  lemma RecommendedExactlyWhen(c: Client, latest: Option<Action>, open: nat, now: Time)
    ensures Recommended(c, latest, open, now) <==>
      !Suppressed(c, latest, now) && (NeedsFollowup(c, latest, now) || open > 0)
  {
    DueExactlyWhen(c, latest, now);
  }

  lemma UrgencyInRange(c: Client, latest: Option<Action>, open: nat, now: Time)
    requires Recommended(c, latest, open, now)
    ensures 50 <= RecommendationFor(c, latest, open, now).score <= 100
  {
  }

  /** Whom a recommendation is about and how it scores, in terms of the contacts there were. */
  lemma RecommendationIs(c: Client, latest: Option<Action>, open: nat, now: Time)
    requires !Suppressed(c, latest, now)
    ensures var r := RecommendationFor(c, latest, open, now);
      && r.client == c.id && r.name == c.name && r.open == open
      && ((forall t :: !IsContact(c, latest, t)) ==> r.score == 50 && r.days == None && r.conversations == 0)
      && forall t :: IsLatestContact(c, latest, t) ==>
           && r.conversations == |c.uploads|
           && r.days == Some(if now < t then 0 else (now - t) / 86_400_000_000)
           && r.score ==
              if !Overdue(t, now) then (if open >= 4 then 90 else 70 + 5 * open)
              else if 50 + Days(t, now) + 5 * open >= 100 then 100 else 50 + Days(t, now) + 5 * open
  {
    ContactIsTheLatest(c, latest, now);
    forall t | IsLatestContact(c, latest, t) ensures FollowupState(c, latest, now).contact == Some(t) {
    }
    forall t ensures (Days(t, now) >= 7 <==> Overdue(t, now)) && (now < t ==> Days(t, now) < 0) {
      WholeDays(t, now);
    }
  }

  // The sort key, an order on distinct clients.

  /** Names compare like words in a dictionary: by the first character that differs, a shorter name before its extensions. */
  lemma {:induction false} NamesLikeWords(a: string, b: string)
    ensures NameLe(a, b) <==> a <= b || exists k :: FirstDifference(a, b, k) && a[k] < b[k]
  {
    if a != [] && b != [] {
      if a[0] == b[0] {
        NamesLikeWords(a[1..], b[1..]);
        assert a == [a[0]] + a[1..] && b == [b[0]] + b[1..];
        assert forall k :: FirstDifference(a[1..], b[1..], k) ==> FirstDifference(a, b, k + 1);
        assert forall k :: FirstDifference(a, b, k) ==> k > 0 && FirstDifference(a[1..], b[1..], k - 1);
      } else {
        assert FirstDifference(a, b, 0);
      }
    }
  }

  ghost predicate FirstDifference(a: string, b: string, k: int) {
    0 <= k < |a| && k < |b| && a[..k] == b[..k] && a[k] != b[k]
  }

  /** A higher score comes first; among equal scores the name decides, and among equal names the id. */
  lemma ScoreThenNameThenId(a: Recommendation, b: Recommendation)
    ensures a.score > b.score ==> MoreUrgent(a, b) && !MoreUrgent(b, a)
    ensures a.score == b.score && a.name != b.name && NameLe(a.name, b.name) ==> MoreUrgent(a, b) && !MoreUrgent(b, a)
    ensures a.score == b.score && a.name == b.name && a.client < b.client ==> MoreUrgent(a, b) && !MoreUrgent(b, a)
  {
    NamesConnected(a.name, b.name);
  }

  lemma {:induction false} NamesConnected(a: string, b: string)
    ensures NameLe(a, b) || NameLe(b, a)
    ensures NameLe(a, b) && NameLe(b, a) ==> a == b
  {
    if a != [] && b != [] {
      NamesConnected(a[1..], b[1..]);
      assert a == [a[0]] + a[1..] && b == [b[0]] + b[1..];
    }
  }

  lemma {:induction false} NamesTransitive(a: string, b: string, c: string)
    requires NameLe(a, b) && NameLe(b, c)
    ensures NameLe(a, c)
  {
    if a != [] && b != [] && c != [] && a[0] == b[0] && b[0] == c[0] {
      NamesTransitive(a[1..], b[1..], c[1..]);
    }
  }

  lemma UrgencyConnected(a: Recommendation, b: Recommendation)
    ensures MoreUrgent(a, b) || MoreUrgent(b, a)
    ensures MoreUrgent(a, b) && MoreUrgent(b, a) ==> a.client == b.client
  {
    NamesConnected(a.name, b.name);
  }

  lemma UrgencyTransitive(a: Recommendation, b: Recommendation, c: Recommendation)
    requires MoreUrgent(a, b) && MoreUrgent(b, c)
    ensures MoreUrgent(a, c)
  {
    if a.score == b.score && b.score == c.score && a.name != b.name && b.name != c.name {
      NamesTransitive(a.name, b.name, c.name);
      NamesConnected(a.name, b.name);
    }
  }

  lemma UrgencyIsPreorder()
    ensures Total(MoreUrgent)
  {
    forall a, b ensures MoreUrgent(a, b) || MoreUrgent(b, a) {
      UrgencyConnected(a, b);
    }
    forall a, b, c | MoreUrgent(a, b) && MoreUrgent(b, c) ensures MoreUrgent(a, c) {
      UrgencyTransitive(a, b, c);
    }
  }

  // The five shown do not depend on the order of the client list, and nobody left out precedes them.

  predicate DistinctIds(clients: seq<Client>) {
    forall i, j :: 0 <= i < |clients| && 0 <= j < |clients| && clients[i].id == clients[j].id ==> i == j
  }

  lemma CandidateClients(clients: seq<Client>, latest: map<Id, Action>, open: map<Id, nat>, now: Time)
    ensures forall r :: r in Candidates(clients, latest, open, now) <==>
      exists c :: c in clients && r in CandidateOf(c, latest, open, now)
    ensures forall r :: r in Candidates(clients, latest, open, now) ==> r.rank == 1
  {
    GatherMembers(clients, CandidateIn(latest, open, now));
  }

  /** The builders agree: whoever counts as due for a follow-up also is a candidate here. */
  lemma DueClientsAreCandidates(clients: seq<Client>, latest: map<Id, Action>, open: map<Id, nat>, now: Time, c: Client)
    requires c in DueClients(clients, latest, now)
    ensures exists r :: r in Candidates(clients, latest, open, now) && r.client == c.id && r.name == c.name
  {
    DueMembers(clients, latest, now);
    RecommendedExactlyWhen(c, LatestOf(latest, c.id), Counted(open, c.id), now);
    CandidateClients(clients, latest, open, now);
    var r := RecommendationFor(c, LatestOf(latest, c.id), Counted(open, c.id), now);
    assert r in CandidateOf(c, latest, open, now);
  }

  lemma OneCandidatePerClient(clients: seq<Client>, latest: map<Id, Action>, open: map<Id, nat>, now: Time,
                              a: Recommendation, b: Recommendation)
    requires DistinctIds(clients)
    requires a in Candidates(clients, latest, open, now) && b in Candidates(clients, latest, open, now)
    requires a.client == b.client
    ensures a == b
  {
    CandidateClients(clients, latest, open, now);
    var c :| c in clients && a in CandidateOf(c, latest, open, now);
    var d :| d in clients && b in CandidateOf(d, latest, open, now);
    assert c.id == d.id;
  }

  predicate Tied(a: Recommendation, b: Recommendation) {
    MoreUrgent(a, b) && MoreUrgent(b, a)
  }

  /** Over the candidates of distinct clients the sort key is a total order: no two of them tie. */
  lemma UrgencyIsTotal(clients: seq<Client>, latest: map<Id, Action>, open: map<Id, nat>, now: Time)
    requires DistinctIds(clients)
    ensures Total(MoreUrgent)
    ensures var all := Candidates(clients, latest, open, now); forall a, b :: a in all && b in all && Tied(a, b) ==> a == b
  {
    UrgencyIsPreorder();
    var all := Candidates(clients, latest, open, now);
    forall a, b | a in all && b in all && Tied(a, b) ensures a == b {
      UrgencyConnected(a, b);
      OneCandidatePerClient(clients, latest, open, now, a, b);
    }
  }

  lemma ListOrderDoesNotMatter(x: seq<Client>, y: seq<Client>, latest: map<Id, Action>, open: map<Id, nat>, now: Time)
    requires DistinctIds(x) && multiset(x) == multiset(y)
    ensures Shown(x, latest, open, now) == Shown(y, latest, open, now)
  {
    var a, b := Candidates(x, latest, open, now), Candidates(y, latest, open, now);
    GatherPermutes(x, y, CandidateIn(latest, open, now));
    UrgencyIsTotal(x, latest, open, now);
    SortKeeps(a, MoreUrgent);
    SortKeeps(b, MoreUrgent);
    var s, t := SortBy(a, MoreUrgent), SortBy(b, MoreUrgent);
    forall p, q | p in s && q in s && MoreUrgent(p, q) && MoreUrgent(q, p) ensures p == q {
      assert p in a && q in a && Tied(p, q);
    }
    OrderedIsUnique(s, t, MoreUrgent);
  }

  ghost predicate ShownAt(shown: seq<Recommendation>, r: Recommendation) {
    exists i :: 0 <= i < |shown| && shown[i] == r.(rank := i + 1)
  }

  /** The list holds the five most urgent candidates, or all when there are fewer, each ranked by its place. */
  lemma TheMostUrgentAreShown(clients: seq<Client>, latest: map<Id, Action>, open: map<Id, nat>, now: Time)
    ensures var shown, all := Shown(clients, latest, open, now), Candidates(clients, latest, open, now);
      && |shown| == (if |all| < 5 then |all| else 5)
      && (forall i :: 0 <= i < |shown| ==> shown[i].rank == i + 1 && shown[i].(rank := 1) in all)
      && (forall i, j :: 0 <= i < j < |shown| ==> MoreUrgent(shown[i], shown[j]))
      && (forall r, i :: r in all && !ShownAt(shown, r) && 0 <= i < |shown| ==>
            MoreUrgent(shown[i], r) && (DistinctIds(clients) ==> !MoreUrgent(r, shown[i])))
  {
    var all := Candidates(clients, latest, open, now);
    UrgencyIsPreorder();
    SortKeeps(all, MoreUrgent);
    FirstOnesLead(SHOWN, all, MoreUrgent);
    CandidateClients(clients, latest, open, now);
    RenumberedTop(Take(SHOWN, SortBy(all, MoreUrgent)));
    var shown := Shown(clients, latest, open, now);
    forall r, i | r in all && !ShownAt(shown, r) && 0 <= i < |shown| && DistinctIds(clients)
      ensures !MoreUrgent(r, shown[i])
    {
      LeftOutIsLater(clients, latest, open, now, shown, r, i);
    }
  }

  lemma LeftOutIsLater(clients: seq<Client>, latest: map<Id, Action>, open: map<Id, nat>, now: Time,
                       shown: seq<Recommendation>, r: Recommendation, i: nat)
    requires DistinctIds(clients) && r in Candidates(clients, latest, open, now) && i < |shown|
    requires shown[i].rank == i + 1 && shown[i].(rank := 1) in Candidates(clients, latest, open, now)
    requires MoreUrgent(shown[i], r) && !ShownAt(shown, r)
    ensures !MoreUrgent(r, shown[i])
  {
    if MoreUrgent(r, shown[i]) {
      UrgencyConnected(shown[i], r);
      OneCandidatePerClient(clients, latest, open, now, shown[i].(rank := 1), r);
      assert false;
    }
  }

  lemma RenumberedTop(s: seq<Recommendation>)
    requires forall r :: r in s ==> r.rank == 1
    requires Ordered(s, MoreUrgent)
    ensures forall i :: 0 <= i < |s| ==> Renumbered(s)[i].(rank := 1) == s[i]
    ensures forall i, j :: 0 <= i < j < |s| ==> MoreUrgent(Renumbered(s)[i], Renumbered(s)[j])
    ensures forall r :: r in s ==> ShownAt(Renumbered(s), r)
    ensures forall r, i :: 0 <= i < |s| && MoreUrgent(s[i], r) ==> MoreUrgent(Renumbered(s)[i], r)
  {
    forall r | r in s ensures ShownAt(Renumbered(s), r) {
      var i :| 0 <= i < |s| && s[i] == r;
      assert Renumbered(s)[i] == r.(rank := i + 1);
    }
  }
}
