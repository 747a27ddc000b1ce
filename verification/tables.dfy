/**
  The database as a merge or an undo sees it: clients, the four tables that carry a client_id,
  and the content that hangs below a conversation. Identifiers and owners are opaque tokens, and a digest of a
  state is the state itself, so two digests agree exactly when the digested rows agree.
*/
module Tables {
  import opened Results

  type Id = nat
  type Owner = nat
  type Time = int

  datatype Profile = Profile(
    fullName: string, email: Option<string>, phone: Option<string>,
    role: Option<string>, savedReview: Option<string>)

  datatype ClientRow = ClientRow(owner: Owner, profile: Profile, createdAt: Time, updatedAt: Time)

  datatype Status = Uploaded | Queued | Processing | Completed | Failed

  /** The tables of LINKED, in the order both merge and undo visit them. */
  datatype Table = Conversations | People | Facts | Followups

  datatype Key = Key(table: Table, id: Id)

  datatype Row =
    | Conversation(client: Option<Id>, owner: Owner, manual: bool, status: Status, updatedAt: Time, content: string)
    | Person(client: Option<Id>, memory: Id, content: string)
    | Fact(client: Option<Id>, memory: Id, sourceConversation: Id, content: string)
    | Followup(client: Option<Id>, content: string)
  {
    predicate In(table: Table) {
      match table
      case Conversations => Conversation?
      case People => Person?
      case Facts => Fact? && client.Some?
      case Followups => Followup? && client.Some?
    }

    /** Everything but the timestamp that every conversation update bumps. */
    function Lasting(): Row {
      if Conversation? then this.(updatedAt := 0) else this
    }
  }

  datatype MemoryRow = MemoryRow(conversation: Id, content: string)
  datatype ItemRow = ItemRow(memory: Id, content: string)
  datatype TranscriptRow = TranscriptRow(conversation: Id, content: string)
  datatype DraftKey = DraftKey(conversation: Id, channel: string)

  datatype Digest = Digest(
    client: Option<ClientRow>,
    linked: map<Key, Row>,
    memories: map<Id, MemoryRow>,
    actionItems: map<Id, ItemRow>,
    decisions: map<Id, ItemRow>,
    people: map<Key, Row>,
    transcripts: map<Id, TranscriptRow>,
    drafts: map<DraftKey, string>)

  /** What inspect_merge records; the preview token is this value. */
  datatype Snapshot = Snapshot(
    source: Profile, target: Profile, sourceCreatedAt: Time,
    manual: map<Key, bool>, links: map<Key, Id>)

  /** `afterDigest` is present exactly when undo_version == 1. */
  datatype Audit = Audit(
    owner: Owner, source: Id, target: Id, snapshot: Snapshot,
    afterDigest: Option<Digest>, undoneAt: Option<Time>)

  datatype Db = Db(
    clients: map<Id, ClientRow>,
    rows: map<Key, Row>,
    memories: map<Id, MemoryRow>,
    actionItems: map<Id, ItemRow>,
    decisions: map<Id, ItemRow>,
    transcripts: map<Id, TranscriptRow>,
    drafts: map<DraftKey, string>,
    corrections: map<Id, string>,
    audits: map<Id, Audit>)

  /** The foreign keys on clients: no row names a client that is not there. */
  ghost predicate LinksResolve(db: Db) {
    forall k :: k in db.rows && db.rows[k].client.Some? ==> db.rows[k].client.value in db.clients
  }

  /** Rows sit in the table their key names, and facts and follow-ups always name a client. */
  ghost predicate Typed(db: Db) {
    forall k :: k in db.rows ==> db.rows[k].In(k.table)
  }

  predicate FlagsMatchLinks(snapshot: Snapshot) {
    forall k :: k in snapshot.links && k.table == Conversations ==> k in snapshot.manual
  }

  /** An undoable audit snapshots a manual flag for every conversation it snapshots a link for. */
  ghost predicate AuditsComplete(db: Db) {
    forall a :: a in db.audits && db.audits[a].afterDigest.Some? ==>
      FlagsMatchLinks(db.audits[a].snapshot)
  }

  ghost predicate WellFormed(db: Db) {
    Typed(db) && AuditsComplete(db)
  }

  /** DELETE FROM clients, with SET NULL on conversations and people and CASCADE on facts and follow-ups. */
  function DeleteClient(db: Db, id: Id): Db {
    db.(clients := db.clients - {id},
        rows := map k | k in db.rows && !(db.rows[k].client == Some(id) && k.table in {Facts, Followups}) ::
          if db.rows[k].client == Some(id) then db.rows[k].(client := None) else db.rows[k])
  }

  /** A conversation, or a memory, whose content a client's fingerprint covers. */
  predicate CoversConversation(rows: map<Key, Row>, client: Id, id: Id) {
    Key(Conversations, id) in rows && rows[Key(Conversations, id)].client == Some(client)
  }

  predicate CoversMemory(rows: map<Key, Row>, memories: map<Id, MemoryRow>, client: Id, id: Id) {
    id in memories && CoversConversation(rows, client, memories[id].conversation)
  }

  function LinkedRows(rows: map<Key, Row>, client: Id): map<Key, Row> {
    map k | k in rows && rows[k].client == Some(client) :: rows[k]
  }

  function CoveredMemories(rows: map<Key, Row>, memories: map<Id, MemoryRow>, client: Id): map<Id, MemoryRow> {
    map m | m in memories && CoversMemory(rows, memories, client, m) :: memories[m]
  }

  function CoveredItems(rows: map<Key, Row>, memories: map<Id, MemoryRow>, client: Id, items: map<Id, ItemRow>)
    : map<Id, ItemRow>
  {
    map i | i in items && CoversMemory(rows, memories, client, items[i].memory) :: items[i]
  }

  function CoveredPeople(rows: map<Key, Row>, memories: map<Id, MemoryRow>, client: Id): map<Key, Row> {
    map k | k in rows && rows[k].Person? && CoversMemory(rows, memories, client, rows[k].memory) :: rows[k]
  }

  function CoveredTranscripts(rows: map<Key, Row>, transcripts: map<Id, TranscriptRow>, client: Id)
    : map<Id, TranscriptRow>
  {
    map t | t in transcripts && CoversConversation(rows, client, transcripts[t].conversation) :: transcripts[t]
  }

  function CoveredDrafts(rows: map<Key, Row>, drafts: map<DraftKey, string>, client: Id): map<DraftKey, string> {
    map d | d in drafts && CoversConversation(rows, client, d.conversation) :: drafts[d]
  }

  /** The fingerprint of a retained client and of everything linked to it. */
  function MergedState(db: Db, client: Id): Digest {
    Digest(
      if client in db.clients then Some(db.clients[client]) else None,
      LinkedRows(db.rows, client),
      CoveredMemories(db.rows, db.memories, client),
      CoveredItems(db.rows, db.memories, client, db.actionItems),
      CoveredItems(db.rows, db.memories, client, db.decisions),
      CoveredPeople(db.rows, db.memories, client),
      CoveredTranscripts(db.rows, db.transcripts, client),
      CoveredDrafts(db.rows, db.drafts, client))
  }
}
