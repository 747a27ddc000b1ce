/** Which merges and undos are accepted and what they write, in terms of the stored rows alone. */
module MergeEffects {
  import opened Results
  import opened Tables
  import opened Merge
  import opened Undo
  import opened MergeGuarantees

  // What stands in the way of a merge.

  /** The row, and the recording and memory it came from, belong to the owner. */
  ghost predicate HasOwnOrigin(db: Db, owner: Owner, row: Row) {
    && (row.Conversation? ==> row.owner == owner)
    && (row.Person? || row.Fact? ==>
          && row.memory in db.memories
          && var k := Key(Conversations, db.memories[row.memory].conversation);
             k in db.rows && db.rows[k].Conversation? && db.rows[k].owner == owner)
    && (row.Fact? ==>
          && var k := Key(Conversations, row.sourceConversation);
             k in db.rows && db.rows[k].Conversation? && db.rows[k].owner == owner)
  }

  ghost predicate StillRuns(row: Row) {
    row.Conversation? && (row.status == Uploaded || row.status == Queued || row.status == Status.Processing)
  }

  ghost predicate LinkedToEither(row: Row, source: Id, target: Id) {
    row.client.Some? && (row.client.value == source || row.client.value == target)
  }

  lemma ReviewedExactlyWhen(db: Db, owner: Owner, row: Row)
    ensures Reviewed(db, owner, row) <==> HasOwnOrigin(db, owner, row)
  {
  }

  /** Two different clients of the owner can be merged exactly when every row linked to either is the owner's and at rest. */
  lemma InspectableExactlyWhen(db: Db, owner: Owner, source: Id, target: Id)
    ensures Inspectable(db, owner, source, target) <==>
      && source != target
      && source in db.clients && db.clients[source].owner == owner
      && target in db.clients && db.clients[target].owner == owner
      && forall k :: k in db.rows && LinkedToEither(db.rows[k], source, target) ==>
           HasOwnOrigin(db, owner, db.rows[k]) && !StillRuns(db.rows[k])
  {
    forall k | k in db.rows
      ensures k in LinkedKeys(db, ALL_TABLES, source, target) <==> LinkedToEither(db.rows[k], source, target)
      ensures Passes(db, owner, db.rows[k]) <==> HasOwnOrigin(db, owner, db.rows[k]) && !StillRuns(db.rows[k])
    {
      InEvery(k.table);
      ReviewedExactlyWhen(db, owner, db.rows[k]);
    }
  }

  /** A confirmed token fixes everything the user saw: both profiles, and every link and flag of either client. */
  lemma TokenFixesThePair(before: Db, after: Db, source: Id, target: Id)
    requires source in before.clients && target in before.clients && source in after.clients && target in after.clients
    requires SnapshotOf(before, source, target) == SnapshotOf(after, source, target)
    ensures after.clients[source].profile == before.clients[source].profile
    ensures after.clients[source].createdAt == before.clients[source].createdAt
    ensures after.clients[target].profile == before.clients[target].profile
    ensures forall k :: k in before.rows && LinkedToEither(before.rows[k], source, target) ==>
      k in after.rows && after.rows[k].client == before.rows[k].client
    ensures forall k :: k in before.rows && before.rows[k].Conversation? && LinkedToEither(before.rows[k], source, target) ==>
      k in after.rows && after.rows[k].Conversation? && after.rows[k].manual == before.rows[k].manual
  {
    var a, b := SnapshotOf(before, source, target), SnapshotOf(after, source, target);
    forall k | k in before.rows && LinkedToEither(before.rows[k], source, target)
      ensures k in after.rows && after.rows[k].client == before.rows[k].client
      ensures before.rows[k].Conversation? ==> after.rows[k].Conversation? && after.rows[k].manual == before.rows[k].manual
    {
      InEvery(k.table);
      assert k in a.links && k in b.links && a.links[k] == b.links[k];
      if before.rows[k].Conversation? {
        assert k in a.manual && k in b.manual && a.manual[k] == b.manual[k];
      }
    }
  }

  /** The counts returned for a merge are the numbers of rows of each table that it moves. */
  lemma CountsAreExact(db: Db, source: Id, target: Id, table: Table)
    requires source in db.clients && target in db.clients
    ensures table in Counts(SnapshotOf(db, source, target).links, source)
    ensures Counts(SnapshotOf(db, source, target).links, source)[table] ==
      |set k | k in db.rows && k.table == table && db.rows[k].client == Some(source)|
  {
    InEvery(table);
    MovedAre(db, source, target);
    var links := SnapshotOf(db, source, target).links;
    assert (set k | k in Moved(links, source) && k.table == table) ==
      set k | k in db.rows && k.table == table && db.rows[k].client == Some(source);
  }

  // What a merge and an undo write.

  /** One row after a merge: a moved conversation becomes a manual assignment, anything else keeps all but its link. */
  lemma RowAfterMerge(db: Db, source: Id, target: Id, now: Time, k: Key)
    requires source != target && target in db.clients && k in db.rows
    ensures var after := MergeStatements(db, source, target, now);
      && k in after.rows
      && after.rows[k] ==
         if db.rows[k].client != Some(source) then db.rows[k]
         else match db.rows[k]
           case Conversation(_, o, _, s, _, c) => Conversation(Some(target), o, true, s, now, c)
           case Person(_, m, c) => Person(Some(target), m, c)
           case Fact(_, m, v, c) => Fact(Some(target), m, v, c)
           case Followup(_, c) => Followup(Some(target), c)
  {
    StatementsFold(db, source, target, now);
  }

  /** The audit that a merge adds, and that it leaves every other audit and table alone. */
  lemma AuditOfMerge(db: Db, owner: Owner, source: Id, target: Id, a: Id, now: Time)
    requires PairFound(db, owner, source, target) && a !in db.audits
    ensures var after := Merged(db, owner, source, target, a, now);
      && after.audits.Keys == db.audits.Keys + {a}
      && (forall b :: b in db.audits ==> after.audits[b] == db.audits[b])
      && after.audits[a].owner == owner && after.audits[a].source == source && after.audits[a].target == target
      && after.audits[a].undoneAt == None
      && after.audits[a].afterDigest == Some(MergedState(after, target))
      && after.audits[a].snapshot.source == db.clients[source].profile
      && after.audits[a].snapshot.target == db.clients[target].profile
      && after == db.(clients := after.clients, rows := after.rows, audits := after.audits)
  {
    AuditIsNotCovered(db, owner, source, target, a, now);
  }

  lemma ClientsAfterMerge(db: Db, source: Id, target: Id, now: Time)
    requires source != target && source in db.clients && target in db.clients
    ensures var kept, before := MergeStatements(db, source, target, now).clients, db.clients[target];
      && source !in kept && target in kept
      && kept[target].owner == before.owner && kept[target].createdAt == before.createdAt
      && kept[target].profile.fullName == before.profile.fullName && kept[target].profile.email == before.profile.email
      && kept[target].profile.phone == before.profile.phone && kept[target].profile.role == before.profile.role
      && kept[target].profile.savedReview == None
      && kept[target].updatedAt == if before.profile.savedReview == None then before.updatedAt else now
  {
    StatementsFold(db, source, target, now);
  }

  /** One row after an undo, whatever its audit holds. */
  lemma RowAfterUndo(db: Db, a: Id, now: Time, k: Key)
    requires a in db.audits && db.audits[a].target in db.clients && k in db.rows
    ensures var back, audit := Undone(db, a, now), db.audits[a];
      && k in back.rows
      && back.rows[k] ==
         if !(k in audit.snapshot.links && audit.snapshot.links[k] == audit.source) then db.rows[k]
         else match db.rows[k]
           case Conversation(_, o, _, s, _, c) =>
             Conversation(Some(audit.source), o, k in audit.snapshot.manual && audit.snapshot.manual[k], s, now, c)
           case Person(_, m, c) => Person(Some(audit.source), m, c)
           case Fact(_, m, v, c) => Fact(Some(audit.source), m, v, c)
           case Followup(_, c) => Followup(Some(audit.source), c)
  {
  }

  lemma AuditsAfterUndo(db: Db, a: Id, now: Time)
    requires a in db.audits && db.audits[a].target in db.clients && db.audits[a].source !in db.clients
    ensures var back, audit := Undone(db, a, now), db.audits[a];
      && back.audits.Keys == db.audits.Keys
      && (forall b :: b in db.audits && b != a ==> back.audits[b] == db.audits[b])
      && back.audits[a] == Audit(audit.owner, audit.source, audit.target, audit.snapshot, audit.afterDigest, Some(now))
      && back.clients[audit.source] ==
           ClientRow(audit.owner, audit.snapshot.source, audit.snapshot.sourceCreatedAt, now)
      && back.clients[audit.target] ==
           ClientRow(db.clients[audit.target].owner, audit.snapshot.target, db.clients[audit.target].createdAt, now)
  {
  }

  // What the foreign keys and the fingerprint reach.

  /** Deleting a client takes its facts and follow-ups along and unlinks its conversations and people. */
  lemma DeletionFollowsTheSchema(db: Db, id: Id, k: Key)
    requires k in db.rows
    ensures id !in DeleteClient(db, id).clients
    ensures db.rows[k].client != Some(id) ==> k in DeleteClient(db, id).rows && DeleteClient(db, id).rows[k] == db.rows[k]
    ensures db.rows[k].client == Some(id) ==>
      (k in DeleteClient(db, id).rows <==> k.table == Conversations || k.table == People)
    ensures k in DeleteClient(db, id).rows && db.rows[k].client == Some(id) ==>
      DeleteClient(db, id).rows[k] == db.rows[k].(client := None)
  {
  }

  ghost predicate BelowClient(db: Db, client: Id, conversation: Id) {
    Key(Conversations, conversation) in db.rows && db.rows[Key(Conversations, conversation)].client == Some(client)
  }

  ghost predicate MemoryBelowClient(db: Db, client: Id, memory: Id) {
    memory in db.memories && BelowClient(db, client, db.memories[memory].conversation)
  }

  /** No row linked to the client can change without changing the fingerprint. */
  lemma FingerprintReachesTheRows(before: Db, after: Db, client: Id)
    requires MergedState(before, client) == MergedState(after, client)
    ensures client in before.clients ==> client in after.clients && after.clients[client] == before.clients[client]
    ensures forall k :: k in before.rows && before.rows[k].client == Some(client) ==>
      k in after.rows && after.rows[k] == before.rows[k]
    ensures forall m :: MemoryBelowClient(before, client, m) ==> m in after.memories && after.memories[m] == before.memories[m]
  {
    forall k | k in before.rows && before.rows[k].client == Some(client)
      ensures k in after.rows && after.rows[k] == before.rows[k]
    {
      assert k in LinkedRows(before.rows, client) && k in LinkedRows(after.rows, client);
    }
    forall m | MemoryBelowClient(before, client, m) ensures m in after.memories && after.memories[m] == before.memories[m] {
      assert m in CoveredMemories(before.rows, before.memories, client);
      assert m in CoveredMemories(after.rows, after.memories, client);
    }
  }

  lemma CoveredItemsStay(before: Db, items: map<Id, ItemRow>, after: Db, items': map<Id, ItemRow>, client: Id, i: Id)
    requires CoveredItems(before.rows, before.memories, client, items) == CoveredItems(after.rows, after.memories, client, items')
    requires i in items && MemoryBelowClient(before, client, items[i].memory)
    ensures i in items' && items'[i] == items[i]
  {
    assert i in CoveredItems(before.rows, before.memories, client, items);
    assert i in CoveredItems(after.rows, after.memories, client, items');
  }

  /** Nor can anything below its conversations. */
  lemma FingerprintReachesTheContent(before: Db, after: Db, client: Id)
    requires MergedState(before, client) == MergedState(after, client)
    ensures forall i :: i in before.actionItems && MemoryBelowClient(before, client, before.actionItems[i].memory) ==>
      i in after.actionItems && after.actionItems[i] == before.actionItems[i]
    ensures forall i :: i in before.decisions && MemoryBelowClient(before, client, before.decisions[i].memory) ==>
      i in after.decisions && after.decisions[i] == before.decisions[i]
    ensures forall k :: k in before.rows && before.rows[k].Person? && MemoryBelowClient(before, client, before.rows[k].memory) ==>
      k in after.rows && after.rows[k] == before.rows[k]
    ensures forall t :: t in before.transcripts && BelowClient(before, client, before.transcripts[t].conversation) ==>
      t in after.transcripts && after.transcripts[t] == before.transcripts[t]
    ensures forall d :: d in before.drafts && BelowClient(before, client, d.conversation) ==>
      d in after.drafts && after.drafts[d] == before.drafts[d]
  {
    forall i | i in before.actionItems && MemoryBelowClient(before, client, before.actionItems[i].memory)
      ensures i in after.actionItems && after.actionItems[i] == before.actionItems[i]
    {
      CoveredItemsStay(before, before.actionItems, after, after.actionItems, client, i);
    }
    forall i | i in before.decisions && MemoryBelowClient(before, client, before.decisions[i].memory)
      ensures i in after.decisions && after.decisions[i] == before.decisions[i]
    {
      CoveredItemsStay(before, before.decisions, after, after.decisions, client, i);
    }
    forall k | k in before.rows && before.rows[k].Person? && MemoryBelowClient(before, client, before.rows[k].memory)
      ensures k in after.rows && after.rows[k] == before.rows[k]
    {
      assert k in CoveredPeople(before.rows, before.memories, client);
      assert k in CoveredPeople(after.rows, after.memories, client);
    }
    forall t | t in before.transcripts && BelowClient(before, client, before.transcripts[t].conversation)
      ensures t in after.transcripts && after.transcripts[t] == before.transcripts[t]
    {
      assert t in CoveredTranscripts(before.rows, before.transcripts, client);
      assert t in CoveredTranscripts(after.rows, after.transcripts, client);
    }
    forall d | d in before.drafts && BelowClient(before, client, d.conversation)
      ensures d in after.drafts && after.drafts[d] == before.drafts[d]
    {
      assert d in CoveredDrafts(before.rows, before.drafts, client);
      assert d in CoveredDrafts(after.rows, after.drafts, client);
    }
  }
}
