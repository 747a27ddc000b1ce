/** What a merge keeps, what an undo gives back, and when it is refused. */
module MergeGuarantees {
  import opened Results
  import opened Tables
  import opened Merge
  import opened Undo

  /** A row without the columns that a merge may write. */
  function Unlinked(row: Row): Row {
    if row.Conversation? then row.(client := None, manual := false, updatedAt := 0) else row.(client := None)
  }

  function Lasting(row: ClientRow): ClientRow {
    row.(updatedAt := 0)
  }

  /** No row is deleted or unlinked, even though the source's deletion cascades; only links to the source change. */
  lemma MergeLosesNoRow(db: Db, source: Id, target: Id, now: Time)
    requires source != target && source in db.clients && target in db.clients
    ensures var after := Folded(db, source, target, now);
            && after.rows.Keys == db.rows.Keys
            && (forall k :: k in db.rows ==> Unlinked(after.rows[k]) == Unlinked(db.rows[k]))
            && (forall k :: k in db.rows && db.rows[k].client != Some(source) ==> after.rows[k] == db.rows[k])
            && (forall k :: k in db.rows && db.rows[k].client == Some(source) ==> after.rows[k].client == Some(target))
            && after == db.(clients := after.clients, rows := after.rows)
  {
  }

  /** One client goes, and the retained one loses only its saved review. */
  lemma MergeKeepsClients(db: Db, source: Id, target: Id, now: Time)
    requires source != target && source in db.clients && target in db.clients
    ensures var after := Folded(db, source, target, now);
            && after.clients.Keys == db.clients.Keys - {source}
            && (forall c :: c in after.clients && c != target ==> after.clients[c] == db.clients[c])
            && Lasting(after.clients[target]) ==
               Lasting(db.clients[target].(profile := db.clients[target].profile.(savedReview := None)))
  {
  }

  /**
    The statements as the database carries them out, cascades included, lose nothing: the same rows remain, each with
    everything but its link to the source, which becomes a link to the retained client, and one client goes.
  */
  lemma StatementsLoseNothing(db: Db, source: Id, target: Id, now: Time)
    requires source != target && source in db.clients && target in db.clients
    ensures var after := MergeStatements(db, source, target, now);
            && after.rows.Keys == db.rows.Keys
            && (forall k :: k in db.rows ==> Unlinked(after.rows[k]) == Unlinked(db.rows[k]))
            && (forall k :: k in db.rows ==>
                  after.rows[k].client == if db.rows[k].client == Some(source) then Some(target) else db.rows[k].client)
            && after.clients.Keys == db.clients.Keys - {source}
            && after == db.(clients := after.clients, rows := after.rows)
  {
    StatementsFold(db, source, target, now);
    MergeLosesNoRow(db, source, target, now);
    MergeKeepsClients(db, source, target, now);
  }

  lemma MergeLeavesNoDanglingLink(db: Db, source: Id, target: Id, now: Time)
    requires source != target && source in db.clients && target in db.clients && LinksResolve(db)
    ensures LinksResolve(MergeStatements(db, source, target, now))
  {
    StatementsLoseNothing(db, source, target, now);
  }

  lemma UndoLeavesNoDanglingLink(db: Db, user: Owner, a: Id, now: Time)
    requires Refusal(db, user, a).None? && LinksResolve(db)
    ensures LinksResolve(Undone(db, a, now))
  {
    var back := Undone(db, a, now);
    assert back.clients.Keys == db.clients.Keys + {db.audits[a].source};
    forall k | k in back.rows && back.rows[k].client.Some? ensures back.rows[k].client.value in back.clients {
      if k !in Moved(db.audits[a].snapshot.links, db.audits[a].source) {
        assert back.rows[k] == db.rows[k];
      }
    }
  }

  /** The rows counted for the user who confirmed a token are exactly the rows that the merge moves. */
  lemma PreviewIsExact(previewed: Db, db: Db, owner: Owner, source: Id, target: Id, name: string, now: Time)
    requires source in previewed.clients && target in previewed.clients
    requires Confirmed(db, owner, source, target, SnapshotOf(previewed, source, target), name)
    ensures var moved := Moved(SnapshotOf(previewed, source, target).links, source);
            && moved == (set k | k in previewed.rows && previewed.rows[k].client == Some(source))
            && moved == (set k | k in db.rows && db.rows[k].client == Some(source))
            && forall k :: k in db.rows && k in Folded(db, source, target, now).rows ==>
                 (k in moved <==> Folded(db, source, target, now).rows[k].client != db.rows[k].client)
  {
    MergeLosesNoRow(db, source, target, now);
    MovedAre(previewed, source, target);
    MovedAre(db, source, target);
  }

  lemma MovedAre(db: Db, source: Id, target: Id)
    requires source in db.clients && target in db.clients
    ensures Moved(SnapshotOf(db, source, target).links, source) ==
            set k | k in db.rows && db.rows[k].client == Some(source)
  {
    forall k | k in db.rows ensures k.table in ALL_TABLES { InEvery(k.table); }
  }

  /** An audit that a merge of `db` left behind and that `later` still holds as it was written. */
  ghost predicate AuditStands(db: Db, owner: Owner, source: Id, target: Id, a: Id, now: Time, later: Db) {
    && WellFormed(db)
    && Inspectable(db, owner, source, target)
    && a in later.audits
    && later.audits[a] == Merged(db, owner, source, target, a, now).audits[a]
  }

  /**
    The fingerprint protects later work: every row that an accepted undo writes still holds
    exactly what the merge left in it, whatever happened in between.
  */
  lemma UndoNeverOverwrites(db: Db, owner: Owner, source: Id, target: Id, a: Id, now: Time, later: Db, user: Owner, k: Key)
    requires AuditStands(db, owner, source, target, a, now, later) && Refusal(later, user, a).None?
    requires k in Moved(later.audits[a].snapshot.links, source)
    ensures k in db.rows && db.rows[k].client == Some(source)
    ensures k in later.rows && later.rows[k] == MoveRow(db.rows[k], target, now)
    ensures later.clients[target] == Merged(db, owner, source, target, a, now).clients[target]
    ensures source !in later.clients
  {
    MovedAre(db, source, target);
    FingerprintStands(db, owner, source, target, a, now, later, user);
    assert k in LinkedRows(AllMoved(db.rows, source, target, now), target);
    assert k in LinkedRows(later.rows, target);
  }

  lemma FingerprintStands(db: Db, owner: Owner, source: Id, target: Id, a: Id, now: Time, later: Db, user: Owner)
    requires AuditStands(db, owner, source, target, a, now, later) && Refusal(later, user, a).None?
    ensures LinkedRows(AllMoved(db.rows, source, target, now), target) == LinkedRows(later.rows, target)
    ensures target in later.clients && later.clients[target] == Cleared(db.clients[target], now)
    ensures source !in later.clients
    ensures later.audits[a].snapshot == SnapshotOf(db, source, target) && later.audits[a].source == source
  {
    var after := Folded(db, source, target, now);
    assert MergedState(after, target).linked == MergedState(later, target).linked;
    assert MergedState(after, target).client == MergedState(later, target).client;
  }

  /** Both clients come back as they were, timestamps of the last update aside. */
  lemma UndoRestoresClients(db: Db, owner: Owner, source: Id, target: Id, a: Id, now: Time, later: Db, user: Owner, then_: Time)
    requires AuditStands(db, owner, source, target, a, now, later) && Refusal(later, user, a).None?
    ensures var back := Undone(later, a, then_);
            && back.clients.Keys == later.clients.Keys + {source}
            && Lasting(back.clients[source]) == Lasting(db.clients[source])
            && Lasting(back.clients[target]) == Lasting(db.clients[target])
            && forall c :: c in later.clients && c != target ==> back.clients[c] == later.clients[c]
  {
    var after := Folded(db, source, target, now);
    assert MergedState(after, target).client == MergedState(later, target).client;
  }

  /** Every row linked to either client before the merge is linked, flagged and filled as before. */
  lemma UndoRestoresRows(db: Db, owner: Owner, source: Id, target: Id, a: Id, now: Time, later: Db, user: Owner, then_: Time)
    requires AuditStands(db, owner, source, target, a, now, later) && Refusal(later, user, a).None?
    ensures var back := Undone(later, a, then_);
            && back.rows.Keys == later.rows.Keys
            && (forall k :: k in db.rows && Touches(db.rows[k], source, target) ==>
                  k in back.rows && back.rows[k].Lasting() == db.rows[k].Lasting())
            && (forall k :: k in later.rows && !(k in db.rows && db.rows[k].client == Some(source)) ==>
                  back.rows[k] == later.rows[k])
            && back == later.(clients := back.clients, rows := back.rows, audits := back.audits)
  {
    var back := Undone(later, a, then_);
    MovedAre(db, source, target);
    forall k | k in db.rows && Touches(db.rows[k], source, target)
      ensures k in back.rows && back.rows[k].Lasting() == db.rows[k].Lasting()
    {
      RowComesBack(db, owner, source, target, a, now, later, user, then_, k);
    }
  }

  lemma MovedRowComesBack(db: Db, owner: Owner, source: Id, target: Id, a: Id, now: Time, later: Db, user: Owner, then_: Time, k: Key)
    requires AuditStands(db, owner, source, target, a, now, later) && Refusal(later, user, a).None?
    requires k in db.rows && db.rows[k].client == Some(source)
    ensures k in later.rows && RestoredRow(later, later.audits[a], k, then_).Lasting() == db.rows[k].Lasting()
  {
    InEvery(k.table);
    FingerprintStands(db, owner, source, target, a, now, later, user);
    assert k in LinkedKeys(db, ALL_TABLES, source, target);
    UndoNeverOverwrites(db, owner, source, target, a, now, later, user, k);
  }

  lemma RetainedRowStays(db: Db, owner: Owner, source: Id, target: Id, a: Id, now: Time, later: Db, user: Owner, k: Key)
    requires AuditStands(db, owner, source, target, a, now, later) && Refusal(later, user, a).None?
    requires k in db.rows && db.rows[k].client == Some(target)
    ensures k in later.rows && later.rows[k] == db.rows[k] && k !in Moved(later.audits[a].snapshot.links, source)
  {
    MovedAre(db, source, target);
    FingerprintStands(db, owner, source, target, a, now, later, user);
    assert k in LinkedRows(AllMoved(db.rows, source, target, now), target);
    assert k in LinkedRows(later.rows, target);
  }

  lemma RowComesBack(db: Db, owner: Owner, source: Id, target: Id, a: Id, now: Time, later: Db, user: Owner, then_: Time, k: Key)
    requires AuditStands(db, owner, source, target, a, now, later) && Refusal(later, user, a).None?
    requires k in db.rows && Touches(db.rows[k], source, target)
    ensures k in later.rows && RestoredRow(later, later.audits[a], k, then_).Lasting() == db.rows[k].Lasting()
  {
    if db.rows[k].client == Some(source) {
      MovedRowComesBack(db, owner, source, target, a, now, later, user, then_, k);
    } else {
      RetainedRowStays(db, owner, source, target, a, now, later, user, k);
      assert later.audits[a].source == source;
    }
  }

  ghost predicate SameEntry<K, V>(m: map<K, V>, n: map<K, V>, k: K) {
    k in m && k in n && m[k] == n[k]
  }

  ghost predicate SameItems(before: Db, items: map<Id, ItemRow>, after: Db, items': map<Id, ItemRow>, client: Id) {
    forall i | (i in items && CoversMemory(before.rows, before.memories, client, items[i].memory))
            || (i in items' && CoversMemory(after.rows, after.memories, client, items'[i].memory)) ::
      SameEntry(items, items', i)
  }

  ghost predicate SameLinks(before: Db, after: Db, client: Id) {
    forall k | (k in before.rows && before.rows[k].client == Some(client))
            || (k in after.rows && after.rows[k].client == Some(client)) ::
      SameEntry(before.rows, after.rows, k)
  }

  ghost predicate SameMemories(before: Db, after: Db, client: Id) {
    forall m | CoversMemory(before.rows, before.memories, client, m)
            || CoversMemory(after.rows, after.memories, client, m) ::
      SameEntry(before.memories, after.memories, m)
  }

  ghost predicate SamePeople(before: Db, after: Db, client: Id) {
    forall k | (k in before.rows && before.rows[k].Person?
                && CoversMemory(before.rows, before.memories, client, before.rows[k].memory))
            || (k in after.rows && after.rows[k].Person?
                && CoversMemory(after.rows, after.memories, client, after.rows[k].memory)) ::
      SameEntry(before.rows, after.rows, k)
  }

  ghost predicate SameTranscripts(before: Db, after: Db, client: Id) {
    forall t | (t in before.transcripts && CoversConversation(before.rows, client, before.transcripts[t].conversation))
            || (t in after.transcripts && CoversConversation(after.rows, client, after.transcripts[t].conversation)) ::
      SameEntry(before.transcripts, after.transcripts, t)
  }

  ghost predicate SameDrafts(before: Db, after: Db, client: Id) {
    forall d | (d in before.drafts && CoversConversation(before.rows, client, d.conversation))
            || (d in after.drafts && CoversConversation(after.rows, client, d.conversation)) ::
      SameEntry(before.drafts, after.drafts, d)
  }

  /** No row of the client, of its linked tables or of the content below them differs, has left or has joined. */
  ghost predicate Untouched(before: Db, after: Db, client: Id) {
    && (client in before.clients || client in after.clients ==> SameEntry(before.clients, after.clients, client))
    && SameLinks(before, after, client)
    && SameMemories(before, after, client)
    && SameItems(before, before.actionItems, after, after.actionItems, client)
    && SameItems(before, before.decisions, after, after.decisions, client)
    && SamePeople(before, after, client)
    && SameTranscripts(before, after, client)
    && SameDrafts(before, after, client)
  }

  lemma LinksAgree(before: Db, after: Db, client: Id)
    ensures SameLinks(before, after, client) <==> LinkedRows(before.rows, client) == LinkedRows(after.rows, client)
    ensures SameLinks(before, after, client) ==>
              forall id :: CoversConversation(before.rows, client, id) <==> CoversConversation(after.rows, client, id)
  {
    var linked, linked' := LinkedRows(before.rows, client), LinkedRows(after.rows, client);
    if linked == linked' {
      forall k | (k in before.rows && before.rows[k].client == Some(client))
              || (k in after.rows && after.rows[k].client == Some(client))
        ensures SameEntry(before.rows, after.rows, k)
      {
        assert k in linked && k in linked';
      }
    }
  }

  lemma MemoriesAgree(before: Db, after: Db, client: Id)
    requires forall id :: CoversConversation(before.rows, client, id) <==> CoversConversation(after.rows, client, id)
    ensures SameMemories(before, after, client) <==>
              CoveredMemories(before.rows, before.memories, client) == CoveredMemories(after.rows, after.memories, client)
    ensures SameMemories(before, after, client) ==>
              forall m :: CoversMemory(before.rows, before.memories, client, m)
                     <==> CoversMemory(after.rows, after.memories, client, m)
  {
    var covered := CoveredMemories(before.rows, before.memories, client);
    var covered' := CoveredMemories(after.rows, after.memories, client);
    if covered == covered' {
      forall m | CoversMemory(before.rows, before.memories, client, m) || CoversMemory(after.rows, after.memories, client, m)
        ensures SameEntry(before.memories, after.memories, m)
      {
        assert m in covered && m in covered';
      }
    }
  }

  lemma ItemsAgree(before: Db, items: map<Id, ItemRow>, after: Db, items': map<Id, ItemRow>, client: Id)
    requires forall m :: CoversMemory(before.rows, before.memories, client, m)
                    <==> CoversMemory(after.rows, after.memories, client, m)
    ensures SameItems(before, items, after, items', client) <==>
              CoveredItems(before.rows, before.memories, client, items) == CoveredItems(after.rows, after.memories, client, items')
  {
    var covered := CoveredItems(before.rows, before.memories, client, items);
    var covered' := CoveredItems(after.rows, after.memories, client, items');
    if covered == covered' {
      forall i | (i in items && CoversMemory(before.rows, before.memories, client, items[i].memory))
              || (i in items' && CoversMemory(after.rows, after.memories, client, items'[i].memory))
        ensures SameEntry(items, items', i)
      {
        assert i in covered && i in covered';
      }
    }
  }

  lemma PeopleAgree(before: Db, after: Db, client: Id)
    requires forall m :: CoversMemory(before.rows, before.memories, client, m)
                    <==> CoversMemory(after.rows, after.memories, client, m)
    ensures SamePeople(before, after, client) <==>
              CoveredPeople(before.rows, before.memories, client) == CoveredPeople(after.rows, after.memories, client)
  {
    var covered := CoveredPeople(before.rows, before.memories, client);
    var covered' := CoveredPeople(after.rows, after.memories, client);
    if covered == covered' {
      forall k | (k in before.rows && before.rows[k].Person?
                  && CoversMemory(before.rows, before.memories, client, before.rows[k].memory))
              || (k in after.rows && after.rows[k].Person?
                  && CoversMemory(after.rows, after.memories, client, after.rows[k].memory))
        ensures SameEntry(before.rows, after.rows, k)
      {
        assert k in covered && k in covered';
      }
    }
  }

  lemma TranscriptsAgree(before: Db, after: Db, client: Id)
    requires forall id :: CoversConversation(before.rows, client, id) <==> CoversConversation(after.rows, client, id)
    ensures SameTranscripts(before, after, client) <==>
              CoveredTranscripts(before.rows, before.transcripts, client) ==
              CoveredTranscripts(after.rows, after.transcripts, client)
  {
    var covered := CoveredTranscripts(before.rows, before.transcripts, client);
    var covered' := CoveredTranscripts(after.rows, after.transcripts, client);
    if covered == covered' {
      forall t | (t in before.transcripts && CoversConversation(before.rows, client, before.transcripts[t].conversation))
              || (t in after.transcripts && CoversConversation(after.rows, client, after.transcripts[t].conversation))
        ensures SameEntry(before.transcripts, after.transcripts, t)
      {
        assert t in covered && t in covered';
      }
    }
  }

  lemma DraftsAgree(before: Db, after: Db, client: Id)
    requires forall id :: CoversConversation(before.rows, client, id) <==> CoversConversation(after.rows, client, id)
    ensures SameDrafts(before, after, client) <==>
              CoveredDrafts(before.rows, before.drafts, client) == CoveredDrafts(after.rows, after.drafts, client)
  {
    var covered := CoveredDrafts(before.rows, before.drafts, client);
    var covered' := CoveredDrafts(after.rows, after.drafts, client);
    if covered == covered' {
      forall d | (d in before.drafts && CoversConversation(before.rows, client, d.conversation))
              || (d in after.drafts && CoversConversation(after.rows, client, d.conversation))
        ensures SameEntry(before.drafts, after.drafts, d)
      {
        assert d in covered && d in covered';
      }
    }
  }

  lemma FingerprintIsUntouched(before: Db, after: Db, client: Id)
    ensures MergedState(before, client) == MergedState(after, client) <==> Untouched(before, after, client)
  {
    LinksAgree(before, after, client);
    if SameLinks(before, after, client) {
      TranscriptsAgree(before, after, client);
      DraftsAgree(before, after, client);
      MemoriesAgree(before, after, client);
      if SameMemories(before, after, client) {
        ItemsAgree(before, before.actionItems, after, after.actionItems, client);
        ItemsAgree(before, before.decisions, after, after.decisions, client);
        PeopleAgree(before, after, client);
      }
    }
  }

  /**
    An undo is accepted exactly when nothing that the merge left for the retained client has been
    changed, removed or added, and the source's identifier is still free.
  */
  lemma UndoAcceptedExactlyWhenUntouched(db: Db, owner: Owner, source: Id, target: Id, a: Id, now: Time, later: Db)
    requires AuditStands(db, owner, source, target, a, now, later)
    ensures Refusal(later, owner, a).None? <==>
              source !in later.clients && Untouched(Merged(db, owner, source, target, a, now), later, target)
    ensures Refusal(later, owner, a) in {None, Some(ClientsChanged), Some(NewerWork)}
  {
    MergeKeepsClients(db, source, target, now);
    var after := Merged(db, owner, source, target, a, now);
    FingerprintIsUntouched(after, later, target);
    AuditIsNotCovered(db, owner, source, target, a, now);
    assert target in after.clients && after.clients[target].owner == owner;
  }

  lemma AuditIsNotCovered(db: Db, owner: Owner, source: Id, target: Id, a: Id, now: Time)
    requires PairFound(db, owner, source, target)
    ensures MergedState(Merged(db, owner, source, target, a, now), target) ==
            MergedState(Folded(db, source, target, now), target)
  {
  }

  /** With nothing in between, undo gives back every client and every row, timestamps aside. */
  lemma UndoInvertsMerge(db: Db, owner: Owner, source: Id, target: Id, a: Id, now: Time, then_: Time)
    requires WellFormed(db) && Inspectable(db, owner, source, target)
    ensures var after := Merged(db, owner, source, target, a, now);
            && Refusal(after, owner, a).None?
            && var back := Undone(after, a, then_);
               && back.clients.Keys == db.clients.Keys
               && (forall c :: c in db.clients ==> Lasting(back.clients[c]) == Lasting(db.clients[c]))
               && back.rows.Keys == db.rows.Keys
               && forall k :: k in db.rows ==> back.rows[k].Lasting() == db.rows[k].Lasting()
  {
    var after := Merged(db, owner, source, target, a, now);
    MergedIsWellFormed(db, owner, source, target, a, now);
    MergeKeepsClients(db, source, target, now);
    MergeLosesNoRow(db, source, target, now);
    AuditIsNotCovered(db, owner, source, target, a, now);
    assert AuditStands(db, owner, source, target, a, now, after);
    UndoRestoresClients(db, owner, source, target, a, now, after, owner, then_);
    UndoRestoresRows(db, owner, source, target, a, now, after, owner, then_);
  }

  /**
    A later undo that rewrites the retained client stamps it anew, so the earlier merge can no
    longer be undone: its fingerprint holds the old timestamp.
  */
  lemma LaterUndoBlocksEarlier(db: Db, owner: Owner, source: Id, target: Id, a: Id, now: Time,
                               later: Db, b: Id, user: Owner, then_: Time)
    requires AuditStands(db, owner, source, target, a, now, later)
    requires b != a && Refusal(later, user, b).None?
    requires target in {later.audits[b].source, later.audits[b].target}
    requires then_ != Folded(db, source, target, now).clients[target].updatedAt
    ensures Refusal(Undone(later, b, then_), owner, a) in {Some(ClientsChanged), Some(NewerWork)}
  {
    var back := Undone(later, b, then_);
    AuditIsNotCovered(db, owner, source, target, a, now);
    MergeKeepsClients(db, source, target, now);
    assert back.audits[a] == later.audits[a];
    assert back.clients[target].updatedAt == then_;
  }

  /** A correction saved after the merge is outside the fingerprint: it neither blocks the undo nor is touched by it. */
  lemma CorrectionsSurviveUndo(db: Db, corrections: map<Id, string>, owner: Owner, a: Id, now: Time)
    requires Refusal(db, owner, a).None?
    ensures Refusal(db.(corrections := corrections), owner, a).None?
    ensures Undone(db.(corrections := corrections), a, now).corrections == corrections
  {
  }
}
