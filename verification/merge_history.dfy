/** Client identities over whole runs of creations, merges, undos and other edits. */
module MergeHistory {
  import opened Results
  import opened Tables
  import opened Merge
  import opened Undo
  import opened MergeGuarantees

  /** The database and every client identifier ever handed out. */
  datatype World = World(db: Db, created: set<Id>)

  datatype Event =
    | Create(client: Id, row: ClientRow)
    | Merge(owner: Owner, source: Id, target: Id, audit: Id, now: Time)
    | Undo(user: Owner, audit: Id, now: Time)
    | Edit

  /** Edits touch anything except which clients exist and what the audits say. */
  ghost predicate Step(w: World, e: Event, w': World) {
    match e
    case Create(c, row) =>
      && c !in w.created
      && w'.created == w.created + {c}
      && w'.db.clients == w.db.clients[c := row]
      && w'.db.audits == w.db.audits
    case Merge(owner, source, target, a, now) =>
      && Inspectable(w.db, owner, source, target) && a !in w.db.audits
      && w' == w.(db := Merged(w.db, owner, source, target, a, now))
    case Undo(user, a, now) =>
      && Refusal(w.db, user, a).None?
      && w' == w.(db := Undone(w.db, a, now))
    case Edit =>
      && w'.created == w.created
      && w'.db.clients.Keys == w.db.clients.Keys
      && w'.db.audits == w.db.audits
  }

  ghost predicate Run(ws: seq<World>, es: seq<Event>) {
    && |ws| == |es| + 1
    && forall i :: 0 <= i < |es| ==> Step(ws[i], es[i], ws[i + 1])
  }

  predicate Pending(db: Db, a: Id) {
    a in db.audits && db.audits[a].undoneAt.None?
  }

  /** Each identifier is a living client or the source of one pending merge, never both. */
  ghost predicate Accounted(w: World) {
    && w.db.clients.Keys <= w.created
    && (forall a :: Pending(w.db, a) ==> w.db.audits[a].source in w.created - w.db.clients.Keys)
    && (forall a, b :: Pending(w.db, a) && Pending(w.db, b) && w.db.audits[a].source == w.db.audits[b].source ==> a == b)
    && (forall c :: c in w.created && c !in w.db.clients ==> exists a :: Pending(w.db, a) && w.db.audits[a].source == c)
  }

  lemma MergeKeepsAccounts(w: World, owner: Owner, source: Id, target: Id, a: Id, now: Time)
    requires Accounted(w) && Inspectable(w.db, owner, source, target) && a !in w.db.audits
    ensures Accounted(w.(db := Merged(w.db, owner, source, target, a, now)))
  {
    MergeKeepsClients(w.db, source, target, now);
    MergeLosesNoRow(w.db, source, target, now);
    var db := Merged(w.db, owner, source, target, a, now);
    assert db.clients.Keys == w.db.clients.Keys - {source};
    assert forall b :: b != a ==> (Pending(db, b) <==> Pending(w.db, b));
    assert Pending(db, a) && db.audits[a].source == source;
    forall c | c in w.created && c !in db.clients ensures exists b :: Pending(db, b) && db.audits[b].source == c {
      if c != source {
        var b :| Pending(w.db, b) && w.db.audits[b].source == c;
        assert Pending(db, b) && db.audits[b].source == c;
      }
    }
  }

  lemma UndoKeepsAccounts(w: World, user: Owner, a: Id, now: Time)
    requires Accounted(w) && Refusal(w.db, user, a).None?
    ensures Accounted(w.(db := Undone(w.db, a, now)))
  {
    var db := Undone(w.db, a, now);
    assert db.clients.Keys == w.db.clients.Keys + {w.db.audits[a].source};
    assert forall b :: b != a ==> (Pending(db, b) <==> Pending(w.db, b));
    forall c | c in w.created && c !in db.clients ensures exists b :: Pending(db, b) && db.audits[b].source == c {
      var b :| Pending(w.db, b) && w.db.audits[b].source == c;
      assert Pending(db, b) && db.audits[b].source == c;
    }
  }

  lemma StepKeepsAccounts(w: World, e: Event, w': World)
    requires Accounted(w) && Step(w, e, w')
    ensures Accounted(w')
  {
    match e
    case Create(c, row) =>
      assert forall a :: Pending(w'.db, a) <==> Pending(w.db, a);
      forall d | d in w'.created && d !in w'.db.clients ensures exists a :: Pending(w'.db, a) && w'.db.audits[a].source == d {
        var a :| Pending(w.db, a) && w.db.audits[a].source == d;
        assert Pending(w'.db, a);
      }
    case Merge(owner, source, target, a, now) => MergeKeepsAccounts(w, owner, source, target, a, now);
    case Undo(user, a, now) => UndoKeepsAccounts(w, user, a, now);
    case Edit =>
      assert forall a :: Pending(w'.db, a) <==> Pending(w.db, a);
      forall d | d in w'.created && d !in w'.db.clients ensures exists a :: Pending(w'.db, a) && w'.db.audits[a].source == d {
        var a :| Pending(w.db, a) && w.db.audits[a].source == d;
        assert Pending(w'.db, a);
      }
  }

  /** No identity is ever lost or held twice, in any run from a database without merges. */
  lemma {:induction false} IdentitiesAreConserved(ws: seq<World>, es: seq<Event>, i: nat)
    requires Run(ws, es) && i < |ws|
    requires ws[0].db.audits == map[] && ws[0].db.clients.Keys == ws[0].created
    ensures Accounted(ws[i])
  {
    if i > 0 {
      IdentitiesAreConserved(ws, es, i - 1);
      StepKeepsAccounts(ws[i - 1], es[i - 1], ws[i]);
    }
  }

  lemma StepKeepsUndone(w: World, e: Event, w': World, a: Id)
    requires Step(w, e, w') && a in w.db.audits
    ensures a in w'.db.audits
    ensures w.db.audits[a].undoneAt.Some? ==> w'.db.audits[a].undoneAt.Some?
    ensures e.Undo? && e.audit == a ==> w'.db.audits[a].undoneAt.Some?
  {
    if e.Merge? {
      MergeLosesNoRow(w.db, e.source, e.target, e.now);
    }
  }

  lemma {:induction false} UndoneStaysUndone(ws: seq<World>, es: seq<Event>, a: Id, i: nat, j: nat)
    requires Run(ws, es) && i <= j < |ws|
    requires a in ws[i].db.audits && ws[i].db.audits[a].undoneAt.Some?
    ensures a in ws[j].db.audits && ws[j].db.audits[a].undoneAt.Some?
    decreases j - i
  {
    if i < j {
      StepKeepsUndone(ws[i], es[i], ws[i + 1], a);
      UndoneStaysUndone(ws, es, a, i + 1, j);
    }
  }

  /** Each merge is undone at most once in any run, whoever asks and however often. */
  lemma EachMergeIsUndoneAtMostOnce(ws: seq<World>, es: seq<Event>, i: nat, j: nat)
    requires Run(ws, es) && i < |es| && j < |es|
    requires es[i].Undo? && es[j].Undo? && es[i].audit == es[j].audit
    ensures i == j
  {
    var first, second := if i < j then i else j, if i < j then j else i;
    if first < second {
      assert Step(ws[first], es[first], ws[first + 1]) && Step(ws[second], es[second], ws[second + 1]);
      StepKeepsUndone(ws[first], es[first], ws[first + 1], es[i].audit);
      UndoneStaysUndone(ws, es, es[i].audit, first + 1, second);
      assert false;
    }
  }
}
