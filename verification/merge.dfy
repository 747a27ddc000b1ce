/** Merging one client into another: locked inspection, move, archive, delete, audit. */
module Merge {
  import opened Results
  import opened Tables

  datatype MergeError = PairNotFound | LinksNeedReview | StillProcessing | DetailsChanged | CommitFailed

  const LINKED: seq<Table> := [Conversations, People, Facts, Followups]

  predicate OwnsConversation(db: Db, owner: Owner, id: Id) {
    var k := Key(Conversations, id);
    k in db.rows && db.rows[k].Conversation? && db.rows[k].owner == owner
  }

  predicate OwnsMemory(db: Db, owner: Owner, id: Id) {
    id in db.memories && OwnsConversation(db, owner, db.memories[id].conversation)
  }

  /** A linked row whose provenance belongs to the owner. */
  predicate Reviewed(db: Db, owner: Owner, row: Row) {
    match row
    case Conversation(_, o, _, _, _, _) => o == owner
    case Person(_, memory, _) => OwnsMemory(db, owner, memory)
    case Fact(_, memory, conversation, _) => OwnsMemory(db, owner, memory) && OwnsConversation(db, owner, conversation)
    case Followup(_, _) => true
  }

  predicate Settled(row: Row) {
    row.Conversation? ==> row.status in {Completed, Failed}
  }

  predicate Touches(row: Row, source: Id, target: Id) {
    row.client == Some(source) || row.client == Some(target)
  }

  predicate Owns(db: Db, owner: Owner, client: Id) {
    client in db.clients && db.clients[client].owner == owner
  }

  predicate PairFound(db: Db, owner: Owner, source: Id, target: Id) {
    source != target && Owns(db, owner, source) && Owns(db, owner, target)
  }

  /** A linked row that does not stand in the way of a merge. */
  predicate Passes(db: Db, owner: Owner, row: Row) {
    Reviewed(db, owner, row) && Settled(row)
  }

  const ALL_TABLES: set<Table> := {Conversations, People, Facts, Followups}

  /** The rows of some tables that are linked to either client. */
  function LinkedKeys(db: Db, tables: set<Table>, source: Id, target: Id): set<Key> {
    set k | k in db.rows && k.table in tables && Touches(db.rows[k], source, target)
  }

  predicate Inspectable(db: Db, owner: Owner, source: Id, target: Id) {
    && PairFound(db, owner, source, target)
    && forall k :: k in LinkedKeys(db, ALL_TABLES, source, target) ==> Passes(db, owner, db.rows[k])
  }

  function LinksOf(db: Db, keys: set<Key>): map<Key, Id> {
    map k | k in keys && k in db.rows && db.rows[k].client.Some? :: db.rows[k].client.value
  }

  function FlagsOf(db: Db, keys: set<Key>): map<Key, bool> {
    map k | k in keys && k in db.rows && db.rows[k].Conversation? :: db.rows[k].manual
  }

  lemma AddTable(db: Db, seen: set<Table>, table: Table, source: Id, target: Id)
    ensures LinkedKeys(db, seen + {table}, source, target) ==
            LinkedKeys(db, seen, source, target) + LinkedKeys(db, {table}, source, target)
    ensures LinksOf(db, LinkedKeys(db, seen + {table}, source, target)) ==
            LinksOf(db, LinkedKeys(db, seen, source, target)) + LinksOf(db, LinkedKeys(db, {table}, source, target))
    ensures FlagsOf(db, LinkedKeys(db, seen + {table}, source, target)) ==
            FlagsOf(db, LinkedKeys(db, seen, source, target)) + FlagsOf(db, LinkedKeys(db, {table}, source, target))
  {
  }

  lemma EveryTable(db: Db, seen: set<Table>, source: Id, target: Id)
    requires forall i :: 0 <= i < |LINKED| ==> LINKED[i] in seen
    ensures LinkedKeys(db, seen, source, target) == LinkedKeys(db, ALL_TABLES, source, target)
  {
    assert LINKED[0] in seen && LINKED[1] in seen && LINKED[2] in seen && LINKED[3] in seen;
    forall k | k in db.rows ensures k.table in seen && k.table in ALL_TABLES {
      match k.table { case Conversations => case People => case Facts => case Followups => }
    }
  }

  function SnapshotOf(db: Db, source: Id, target: Id): Snapshot
    requires source in db.clients && target in db.clients
  {
    var keys := LinkedKeys(db, ALL_TABLES, source, target);
    Snapshot(db.clients[source].profile, db.clients[target].profile, db.clients[source].createdAt,
             FlagsOf(db, keys), LinksOf(db, keys))
  }

  /** The rows a snapshot shows linked to the source: the ones a merge moves and an undo moves back. */
  function Moved(links: map<Key, Id>, source: Id): set<Key> {
    set k | k in links && links[k] == source
  }

  function MovedIn(links: map<Key, Id>, source: Id, table: Table): nat {
    |set k | k in Moved(links, source) && k.table == table|
  }

  function Counts(links: map<Key, Id>, source: Id): map<Table, nat> {
    map t: Table | t in ALL_TABLES :: MovedIn(links, source, t)
  }

  function MoveRow(row: Row, target: Id, now: Time): Row {
    if row.Conversation? then row.(client := Some(target), manual := true, updatedAt := now)
    else row.(client := Some(target))
  }

  function AfterMove(row: Row, source: Id, target: Id, now: Time): Row {
    if row.client == Some(source) then MoveRow(row, target, now) else row
  }

  function AllMoved(rows: map<Key, Row>, source: Id, target: Id, now: Time): map<Key, Row> {
    map k | k in rows :: AfterMove(rows[k], source, target, now)
  }

  /** UPDATE ... SET client_id = target WHERE client_id = source, on some of the linked tables. */
  function MoveLinks(db: Db, tables: set<Table>, source: Id, target: Id, now: Time): Db {
    db.(rows := map k | k in db.rows ::
          if k.table in tables && db.rows[k].client == Some(source) then MoveRow(db.rows[k], target, now)
          else db.rows[k])
  }

  /** Clearing a review that is already empty writes nothing, so the timestamp stays. */
  function Cleared(row: ClientRow, now: Time): ClientRow {
    if row.profile.savedReview.None? then row
    else row.(profile := row.profile.(savedReview := None), updatedAt := now)
  }

  function ClearReview(db: Db, client: Id, now: Time): Db
    requires client in db.clients
  {
    db.(clients := db.clients[client := Cleared(db.clients[client], now)])
  }

  /** The statements of a merge in order, with the source's deletion cascading as the schema says. */
  function MergeStatements(db: Db, source: Id, target: Id, now: Time): Db
    requires target in db.clients
  {
    DeleteClient(ClearReview(MoveLinks(db, ALL_TABLES, source, target, now), target, now), source)
  }

  /** What they amount to, see StatementsFold. */
  function Folded(db: Db, source: Id, target: Id, now: Time): Db
    requires target in db.clients
  {
    db.(rows := AllMoved(db.rows, source, target, now),
        clients := db.clients[target := Cleared(db.clients[target], now)] - {source})
  }

  function Merged(db: Db, owner: Owner, source: Id, target: Id, audit: Id, now: Time): Db
    requires source in db.clients && target in db.clients
  {
    var after := Folded(db, source, target, now);
    after.(audits := after.audits[audit :=
      Audit(owner, source, target, SnapshotOf(db, source, target), Some(MergedState(after, target)), None)])
  }

  /** The request that merge_clients accepts: an unchanged preview and the retained client's name. */
  predicate Confirmed(db: Db, owner: Owner, source: Id, target: Id, token: Snapshot, name: string) {
    && Inspectable(db, owner, source, target)
    && token == SnapshotOf(db, source, target)
    && name == db.clients[target].profile.fullName
  }

  /** A database session: `work` is what its transaction sees, `committed` what everyone else sees. */
  class Session {
    var committed: Db
    var work: Db

    ghost predicate Idle()
      reads this
    {
      work == committed && WellFormed(committed)
    }

    constructor (db: Db)
      ensures committed == work == db
    {
      committed, work := db, db;
    }

    method Rollback()
      modifies this
      ensures work == committed == old(committed)
    {
      work := committed;
    }

    /** Why a row stops the merge, and that some linked row does. */
    ghost predicate Explains(error: MergeError, owner: Owner, source: Id, target: Id)
      reads this
    {
      exists k :: k in LinkedKeys(work, ALL_TABLES, source, target) &&
        error == if Reviewed(work, owner, work.rows[k]) then StillProcessing else LinksNeedReview
    }

    /** Checks the linked rows of one table, in no particular order, while they are locked. */
    method InspectTable(owner: Owner, source: Id, target: Id, table: Table)
      returns (error: Option<MergeError>, links: map<Key, Id>, manual: map<Key, bool>)
      ensures error.None? ==>
        forall k :: k in LinkedKeys(work, {table}, source, target) ==> Passes(work, owner, work.rows[k])
      ensures error.None? ==> links == LinksOf(work, LinkedKeys(work, {table}, source, target))
      ensures error.None? ==> manual == FlagsOf(work, LinkedKeys(work, {table}, source, target))
      ensures error.Some? ==> Explains(error.value, owner, source, target)
      ensures error.Some? ==>
        exists k :: k in LinkedKeys(work, ALL_TABLES, source, target) && !Passes(work, owner, work.rows[k])
    {
      var found := LinkedKeys(work, {table}, source, target);
      var todo := found;
      links, manual := map[], map[];
      while todo != {}
        invariant todo <= found
        invariant forall k :: k in found - todo ==> Passes(work, owner, work.rows[k])
        invariant links == LinksOf(work, found - todo)
        invariant manual == FlagsOf(work, found - todo)
      {
        var k :| k in todo;
        var row := work.rows[k];
        if !Reviewed(work, owner, row) {
          assert k in LinkedKeys(work, ALL_TABLES, source, target);
          return Some(LinksNeedReview), links, manual;
        }
        if !Settled(row) {
          assert k in LinkedKeys(work, ALL_TABLES, source, target);
          return Some(StillProcessing), links, manual;
        }
        assert found - (todo - {k}) == (found - todo) + {k};
        if row.Conversation? {
          manual := manual[k := row.manual];
        }
        links := links[k := row.client.value];
        todo := todo - {k};
      }
      assert found - todo == found;
      error := None;
    }

    method InspectMerge(owner: Owner, source: Id, target: Id) returns (r: Result<Snapshot, MergeError>)
      ensures r.Ok? <==> Inspectable(work, owner, source, target)
      ensures r.Ok? ==> r.value == SnapshotOf(work, source, target)
      ensures r == Err(PairNotFound) <==> !PairFound(work, owner, source, target)
      ensures r.Err? && r.error != PairNotFound ==> Explains(r.error, owner, source, target)
    {
      if !PairFound(work, owner, source, target) {
        return Err(PairNotFound);
      }
      var links: map<Key, Id>, manual: map<Key, bool> := map[], map[];
      ghost var seen: set<Table> := {};
      var t := 0;
      while t < |LINKED|
        invariant 0 <= t <= |LINKED|
        invariant forall i :: 0 <= i < t ==> LINKED[i] in seen
        invariant forall k :: k in LinkedKeys(work, seen, source, target) ==> Passes(work, owner, work.rows[k])
        invariant links == LinksOf(work, LinkedKeys(work, seen, source, target))
        invariant manual == FlagsOf(work, LinkedKeys(work, seen, source, target))
      {
        var error, more, flags := InspectTable(owner, source, target, LINKED[t]);
        if error.Some? {
          return Err(error.value);
        }
        AddTable(work, seen, LINKED[t], source, target);
        links, manual := links + more, manual + flags;
        seen := seen + {LINKED[t]};
        t := t + 1;
      }
      EveryTable(work, seen, source, target);
      r := Ok(Snapshot(work.clients[source].profile, work.clients[target].profile,
                       work.clients[source].createdAt, manual, links));
    }

    /** The fingerprint, one table at a time and each under its row locks. */
    method ReadMergedState(client: Id) returns (state: Digest)
      ensures state == MergedState(work, client)
    {
      var db := work;
      var row := if client in db.clients then Some(db.clients[client]) else None;
      var linked := map k | k in db.rows && db.rows[k].client == Some(client) :: db.rows[k];
      var memories :=
        map m | m in db.memories && Key(Conversations, db.memories[m].conversation) in linked :: db.memories[m];
      var actionItems := ReadItems(db.actionItems, client, memories);
      var decisions := ReadItems(db.decisions, client, memories);
      var people := map k | k in db.rows && db.rows[k].Person? && db.rows[k].memory in memories :: db.rows[k];
      assert people == CoveredPeople(db.rows, db.memories, client);
      var transcripts, drafts := ReadBelow(client, linked);
      state := Digest(row, linked, memories, actionItems, decisions, people, transcripts, drafts);
    }

    /** Rows that hang below the covered memories. */
    method ReadItems(items: map<Id, ItemRow>, client: Id, memories: map<Id, MemoryRow>) returns (r: map<Id, ItemRow>)
      requires memories == CoveredMemories(work.rows, work.memories, client)
      ensures r == CoveredItems(work.rows, work.memories, client, items)
    {
      r := map i | i in items && items[i].memory in memories :: items[i];
    }

    /** Rows that hang below the linked conversations. */
    method ReadBelow(client: Id, linked: map<Key, Row>) returns (transcripts: map<Id, TranscriptRow>, drafts: map<DraftKey, string>)
      requires linked == LinkedRows(work.rows, client)
      ensures transcripts == CoveredTranscripts(work.rows, work.transcripts, client)
      ensures drafts == CoveredDrafts(work.rows, work.drafts, client)
    {
      var db := work;
      transcripts := map t | t in db.transcripts
        && Key(Conversations, db.transcripts[t].conversation) in linked :: db.transcripts[t];
      drafts := map d | d in db.drafts && Key(Conversations, d.conversation) in linked :: db.drafts[d];
    }

    /** Re-points the four tables; only what the transaction sees changes. */
    method MoveAll(source: Id, target: Id, now: Time)
      modifies this`work
      ensures work == MoveLinks(old(work), ALL_TABLES, source, target, now)
    {
      ghost var seen: set<Table> := {};
      var t := 0;
      while t < |LINKED|
        invariant 0 <= t <= |LINKED|
        invariant forall i :: 0 <= i < t ==> LINKED[i] in seen
        invariant work == MoveLinks(old(work), seen, source, target, now)
      {
        work := work.(rows := map k | k in work.rows ::
                        if k.table == LINKED[t] && work.rows[k].client == Some(source)
                        then MoveRow(work.rows[k], target, now) else work.rows[k]);
        MoveTable(old(work), seen, LINKED[t], source, target, now);
        seen := seen + {LINKED[t]};
        t := t + 1;
      }
      MoveEvery(old(work), seen, source, target, now);
    }

    /**
      Merge under the row locks that inspection takes. `audit` is the new audit's identifier and
      `commits` whether the database accepts the final commit.
    */
    method MergeClients(owner: Owner, source: Id, target: Id, token: Snapshot, name: string,
                        audit: Id, now: Time, commits: bool)
      returns (r: Result<map<Table, nat>, MergeError>)
      requires Idle() && audit !in committed.audits
      modifies this
      ensures Idle()
      ensures r.Ok? <==> Confirmed(old(committed), owner, source, target, token, name) && commits
      ensures r.Ok? ==> committed == Merged(old(committed), owner, source, target, audit, now)
      ensures r.Ok? ==> r.value == Counts(token.links, source)
      ensures r.Err? ==> committed == old(committed)
      ensures r == Err(PairNotFound) <==> !PairFound(old(committed), owner, source, target)
      ensures r == Err(DetailsChanged) <==>
        Inspectable(old(committed), owner, source, target) &&
        !Confirmed(old(committed), owner, source, target, token, name)
      ensures r == Err(CommitFailed) ==> Confirmed(old(committed), owner, source, target, token, name) && !commits
      ensures r == Err(LinksNeedReview) || r == Err(StillProcessing) ==>
        PairFound(old(committed), owner, source, target) && Explains(r.error, owner, source, target)
      // The user confirmed exactly this pair, by the retained client's name, and both clients are the caller's.
      ensures r.Ok? ==>
        && var before := old(committed);
        && source in before.clients && before.clients[source].owner == owner
        && target in before.clients && before.clients[target].owner == owner
        && name == before.clients[target].profile.fullName
        && token == SnapshotOf(before, source, target)
        && source !in committed.clients
    {
      var inspected := InspectMerge(owner, source, target);
      if inspected.Err? {
        Rollback();
        return Err(inspected.error);
      }
      var snapshot := inspected.value;
      if snapshot != token || name != work.clients[target].profile.fullName {
        Rollback();
        return Err(DetailsChanged);
      }
      StatementsFold(work, source, target, now);
      MoveAll(source, target, now);
      if work.clients[target].profile.savedReview.Some? {
        var row := work.clients[target];
        row := row.(profile := row.profile.(savedReview := None), updatedAt := now);
        work := work.(clients := work.clients[target := row]);
      }
      assert work.clients == ClearReview(MoveLinks(old(committed), ALL_TABLES, source, target, now), target, now).clients;
      work := DeleteClient(work, source);
      var digest := ReadMergedState(target);
      work := work.(audits := work.audits[audit := Audit(owner, source, target, snapshot, Some(digest), None)]);
      if !commits {
        Rollback();
        return Err(CommitFailed);
      }
      MergedIsWellFormed(old(committed), owner, source, target, audit, now);
      committed := work;
      r := Ok(Counts(snapshot.links, source));
    }
  }

  lemma MoveTable(db: Db, seen: set<Table>, table: Table, source: Id, target: Id, now: Time)
    ensures var before := MoveLinks(db, seen, source, target, now);
            MoveLinks(db, seen + {table}, source, target, now).rows ==
            map k | k in before.rows ::
              if k.table == table && before.rows[k].client == Some(source)
              then MoveRow(before.rows[k], target, now) else before.rows[k]
  {
  }

  lemma MoveEvery(db: Db, seen: set<Table>, source: Id, target: Id, now: Time)
    requires forall i :: 0 <= i < |LINKED| ==> LINKED[i] in seen
    ensures MoveLinks(db, seen, source, target, now) == MoveLinks(db, ALL_TABLES, source, target, now)
  {
    assert LINKED[0] in seen && LINKED[1] in seen && LINKED[2] in seen && LINKED[3] in seen;
    forall k | k in db.rows ensures k.table in seen && k.table in ALL_TABLES {
      match k.table { case Conversations => case People => case Facts => case Followups => }
    }
  }

  lemma InEvery(table: Table)
    ensures table in ALL_TABLES
  {
    match table { case Conversations => case People => case Facts => case Followups => }
  }

  /** Deleting a client that nothing names removes that client and nothing else. */
  lemma DeleteUnlinked(db: Db, id: Id)
    requires forall k :: k in db.rows ==> db.rows[k].client != Some(id)
    ensures DeleteClient(db, id) == db.(clients := db.clients - {id})
  {
    assert DeleteClient(db, id).rows == db.rows;
  }

  lemma MovedRows(db: Db, source: Id, target: Id, now: Time)
    ensures MoveLinks(db, ALL_TABLES, source, target, now) == db.(rows := AllMoved(db.rows, source, target, now))
  {
    forall k | k in db.rows ensures k.table in ALL_TABLES { InEvery(k.table); }
    assert MoveLinks(db, ALL_TABLES, source, target, now).rows == AllMoved(db.rows, source, target, now);
  }

  /** The cascade finds nothing to delete or unlink: every link to the source has moved by then. */
  lemma StatementsFold(db: Db, source: Id, target: Id, now: Time)
    requires source != target && target in db.clients
    ensures MergeStatements(db, source, target, now) == Folded(db, source, target, now)
  {
    MovedRows(db, source, target, now);
    DeleteUnlinked(ClearReview(db.(rows := AllMoved(db.rows, source, target, now)), target, now), source);
  }

  lemma MergedIsWellFormed(db: Db, owner: Owner, source: Id, target: Id, audit: Id, now: Time)
    requires WellFormed(db) && PairFound(db, owner, source, target)
    ensures WellFormed(Merged(db, owner, source, target, audit, now))
  {
  }
}
