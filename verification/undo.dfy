/** Conflict-checked reversal of a merge. */
module Undo {
  import opened Results
  import opened Tables
  import opened Merge

  datatype UndoError = AuditMissing | AlreadyUndone | LegacyMerge | ClientsChanged | NewerWork | CommitFailed

  /** The first guard of undo_merge that stops the reversal, if any. */
  function Refusal(db: Db, owner: Owner, a: Id): Option<UndoError> {
    if a !in db.audits || db.audits[a].owner != owner then Some(AuditMissing)
    else
      var audit := db.audits[a];
      if audit.undoneAt.Some? then Some(AlreadyUndone)
      else if audit.afterDigest.None? then Some(LegacyMerge)
      else if !Owns(db, owner, audit.target) || audit.source in db.clients then Some(ClientsChanged)
      else if MergedState(db, audit.target) != audit.afterDigest.value then Some(NewerWork)
      else None
  }

  function RestoreRow(row: Row, source: Id, manual: bool, now: Time): Row {
    if row.Conversation? then row.(client := Some(source), manual := manual, updatedAt := now)
    else row.(client := Some(source))
  }

  /** The row at `k` after the links and the manual flags of an audit are restored. */
  function RestoredRow(db: Db, audit: Audit, k: Key, now: Time): Row
    requires k in db.rows
  {
    if k in Moved(audit.snapshot.links, audit.source)
    then RestoreRow(db.rows[k], audit.source, k in audit.snapshot.manual && audit.snapshot.manual[k], now)
    else db.rows[k]
  }

  function RestoredClients(db: Db, audit: Audit, now: Time): map<Id, ClientRow>
    requires audit.target in db.clients
  {
    db.clients[audit.source := ClientRow(audit.owner, audit.snapshot.source, audit.snapshot.sourceCreatedAt, now)]
              [audit.target := db.clients[audit.target].(profile := audit.snapshot.target, updatedAt := now)]
  }

  function Undone(db: Db, a: Id, now: Time): Db
    requires a in db.audits && db.audits[a].target in db.clients
  {
    var audit := db.audits[a];
    db.(clients := RestoredClients(db, audit, now),
        rows := map k | k in db.rows :: RestoredRow(db, audit, k, now),
        audits := db.audits[a := audit.(undoneAt := Some(now))])
  }

  /** The links half of a reversal, before the flags are restored. */
  function Relinked(db: Db, audit: Audit, tables: set<Table>, now: Time): map<Key, Row> {
    map k | k in db.rows ::
      if k.table in tables && k in Moved(audit.snapshot.links, audit.source)
      then RestoreRow(db.rows[k], audit.source, db.rows[k].Conversation? && db.rows[k].manual, now)
      else db.rows[k]
  }

  /** UPDATE ... SET client_id = source WHERE id IN moved. */
  function RelinkedOnly(rows: map<Key, Row>, moved: set<Key>, source: Id, now: Time): map<Key, Row> {
    map k | k in rows ::
      if k in moved then RestoreRow(rows[k], source, rows[k].Conversation? && rows[k].manual, now) else rows[k]
  }

  class UndoService {
    const session: Session

    constructor (session: Session)
      ensures this.session == session
    {
      this.session := session;
    }

    /** One bulk update per linked table. */
    method Relink(audit: Audit, now: Time)
      modifies session`work
      ensures session.work == old(session.work).(rows := Relinked(old(session.work), audit, ALL_TABLES, now))
    {
      ghost var start := session.work;
      ghost var seen: set<Table> := {};
      assert start.rows == Relinked(start, audit, seen, now);
      var t := 0;
      while t < |LINKED|
        invariant 0 <= t <= |LINKED|
        invariant forall i :: 0 <= i < t ==> LINKED[i] in seen
        invariant forall i :: t <= i < |LINKED| ==> LINKED[i] !in seen
        invariant session.work == start.(rows := Relinked(start, audit, seen, now))
      {
        var moved := set k | k in audit.snapshot.links && k.table == LINKED[t] && audit.snapshot.links[k] == audit.source;
        RelinkTable(start, audit, seen, LINKED[t], now);
        session.work := session.work.(rows := RelinkedOnly(session.work.rows, moved, audit.source, now));
        seen := seen + {LINKED[t]};
        t := t + 1;
      }
      RelinkEvery(start, audit, seen, now);
    }

    /** One update per snapshotted flag of a moved conversation. */
    method RestoreFlags(audit: Audit, now: Time)
      requires Typed(session.work)
      modifies session`work
      ensures session.work == old(session.work).(rows := Flagged(old(session.work), audit, audit.snapshot.manual.Keys, now))
    {
      ghost var start := session.work;
      var todo := audit.snapshot.manual.Keys;
      assert start.rows == Flagged(start, audit, {}, now);
      while todo != {}
        invariant todo <= audit.snapshot.manual.Keys
        invariant session.work == start.(rows := Flagged(start, audit, audit.snapshot.manual.Keys - todo, now))
      {
        var k :| k in todo;
        var db := session.work;
        if k in audit.snapshot.links && audit.snapshot.links[k] == audit.source && k in db.rows && db.rows[k].Conversation? {
          session.work := db.(rows := db.rows[k := db.rows[k].(manual := audit.snapshot.manual[k], updatedAt := now)]);
        }
        FlagOne(start, audit, audit.snapshot.manual.Keys - todo, k, now);
        assert audit.snapshot.manual.Keys - (todo - {k}) == audit.snapshot.manual.Keys - todo + {k};
        todo := todo - {k};
      }
      assert audit.snapshot.manual.Keys - {} == audit.snapshot.manual.Keys;
    }

    method UndoMerge(owner: Owner, a: Id, now: Time, commits: bool) returns (r: Result<(Id, Id), UndoError>)
      requires session.Idle()
      modifies session
      ensures session.Idle()
      ensures r.Ok? <==> Refusal(old(session.committed), owner, a).None? && commits
      ensures r.Ok? ==> session.committed == Undone(old(session.committed), a, now)
      ensures r.Ok? ==>
        r.value == (old(session.committed).audits[a].source, old(session.committed).audits[a].target)
      ensures r.Err? ==> session.committed == old(session.committed)
      ensures Refusal(old(session.committed), owner, a).Some? ==>
        r == Err(Refusal(old(session.committed), owner, a).value)
      // The guards in their own words: only the owner of an audit can undo it, once, and only onto an own client.
      ensures r == Err(AuditMissing) <==>
        a !in old(session.committed).audits || old(session.committed).audits[a].owner != owner
      ensures r.Ok? ==>
        && var before := old(session.committed);
        && a in before.audits && before.audits[a].owner == owner && before.audits[a].undoneAt == None
        && var audit := before.audits[a];
        && audit.target in before.clients && before.clients[audit.target].owner == owner
        && audit.source !in before.clients
        && audit.afterDigest == Some(MergedState(before, audit.target))
        && session.committed.audits == before.audits[a := audit.(undoneAt := Some(now))]
        && session.committed.clients.Keys == before.clients.Keys + {audit.source}
        && session.committed.clients[audit.source].owner == owner
    {
      ghost var start := session.committed;
      if a !in session.work.audits || session.work.audits[a].owner != owner {
        session.Rollback();
        return Err(AuditMissing);
      }
      var audit := session.work.audits[a];
      if audit.undoneAt.Some? {
        session.Rollback();
        return Err(AlreadyUndone);
      }
      if audit.afterDigest.None? {
        session.Rollback();
        return Err(LegacyMerge);
      }
      if !Owns(session.work, owner, audit.target) || audit.source in session.work.clients {
        session.Rollback();
        return Err(ClientsChanged);
      }
      var state := session.ReadMergedState(audit.target);
      if state != audit.afterDigest.value {
        session.Rollback();
        return Err(NewerWork);
      }
      var source := ClientRow(owner, audit.snapshot.source, audit.snapshot.sourceCreatedAt, now);
      session.work := session.work.(clients := session.work.clients[audit.source := source]);
      Relink(audit, now);
      RelinkedStaysTyped(start, audit, now);
      RestoreFlags(audit, now);
      var target := session.work.clients[audit.target].(profile := audit.snapshot.target, updatedAt := now);
      session.work := session.work.(clients := session.work.clients[audit.target := target]);
      session.work := session.work.(audits := session.work.audits[a := audit.(undoneAt := Some(now))]);
      if !commits {
        session.Rollback();
        return Err(UndoError.CommitFailed);
      }
      UndoneRows(start, a, now);
      UndoneIsWellFormed(start, a, now);
      session.committed := session.work;
      r := Ok((audit.source, audit.target));
    }
  }

  /** The flags half of a reversal. */
  function Flagged(db: Db, audit: Audit, flags: set<Key>, now: Time): map<Key, Row> {
    map k | k in db.rows ::
      if k in flags && k in audit.snapshot.manual && k in Moved(audit.snapshot.links, audit.source) && db.rows[k].Conversation?
      then db.rows[k].(manual := audit.snapshot.manual[k], updatedAt := now) else db.rows[k]
  }

  lemma RelinkTable(db: Db, audit: Audit, seen: set<Table>, table: Table, now: Time)
    requires table !in seen
    ensures var moved := set k | k in audit.snapshot.links && k.table == table && audit.snapshot.links[k] == audit.source;
            Relinked(db, audit, seen + {table}, now) == RelinkedOnly(Relinked(db, audit, seen, now), moved, audit.source, now)
  {
  }

  lemma RelinkEvery(db: Db, audit: Audit, seen: set<Table>, now: Time)
    requires forall i :: 0 <= i < |LINKED| ==> LINKED[i] in seen
    ensures Relinked(db, audit, seen, now) == Relinked(db, audit, ALL_TABLES, now)
  {
    assert LINKED[0] in seen && LINKED[1] in seen && LINKED[2] in seen && LINKED[3] in seen;
    forall k | k in db.rows ensures k.table in seen && k.table in ALL_TABLES {
      InEvery(k.table);
    }
  }

  lemma FlagOne(db: Db, audit: Audit, flags: set<Key>, k: Key, now: Time)
    requires k in audit.snapshot.manual
    ensures var before := Flagged(db, audit, flags, now);
            Flagged(db, audit, flags + {k}, now) ==
            if k in Moved(audit.snapshot.links, audit.source) && k in before && before[k].Conversation?
            then before[k := before[k].(manual := audit.snapshot.manual[k], updatedAt := now)] else before
  {
  }

  lemma RelinkedStaysTyped(db: Db, audit: Audit, now: Time)
    requires Typed(db)
    ensures Typed(db.(rows := Relinked(db, audit, ALL_TABLES, now)))
  {
  }

  /** Links, then flags, is one restoration of each moved row. */
  lemma UndoneRows(db: Db, a: Id, now: Time)
    requires WellFormed(db) && a in db.audits && db.audits[a].target in db.clients && db.audits[a].afterDigest.Some?
    ensures var audit := db.audits[a];
            var linked := db.(rows := Relinked(db, audit, ALL_TABLES, now));
            Flagged(linked, audit, audit.snapshot.manual.Keys, now) == Undone(db, a, now).rows
  {
    forall k | k in db.rows ensures k.table in ALL_TABLES { InEvery(k.table); }
  }

  lemma UndoneIsWellFormed(db: Db, a: Id, now: Time)
    requires WellFormed(db) && a in db.audits && db.audits[a].target in db.clients
    ensures WellFormed(Undone(db, a, now))
  {
  }
}
