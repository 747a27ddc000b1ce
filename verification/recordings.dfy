/** Recording snapshots and the backup run: what a published manifest certifies. */
module Recordings {
  import opened Results
  import opened Archive

  type ObjectKey = nat

  datatype Item = Item(key: ObjectKey, etag: string, size: nat)

  datatype Entry = Entry(etag: string, size: nat)

  /** Backup keys are derived from source keys by a digest, so distinct keys stay distinct. */
  datatype BackupKey = BackupKey(prefix: string, source: ObjectKey)

  datatype Backup = Backup(
    sourceKey: ObjectKey, etag: string, plainBytes: nat, plainHash: Digest,
    backupKey: BackupKey, cipherHash: Digest, cipherBytes: nat)

  /**
    What the two stores do for one object: the body read while its etag matched, if any, the nonce
    drawn for it, and what the backup store returns for it afterwards, if anything.
  */
  datatype Transfer = Transfer(body: Option<Bytes>, nonce: Bytes, download: Option<Bytes>)

  /** The listing of a paginated bucket; a key listed twice keeps its last entry. */
  function Listed(items: seq<Item>): map<ObjectKey, Entry> {
    if items == [] then map[]
    else
      var last := items[|items| - 1];
      Listed(items[..|items| - 1])[last.key := Entry(last.etag, last.size)]
  }

  function Flattened(pages: seq<seq<Item>>): seq<Item> {
    if pages == [] then [] else Flattened(pages[..|pages| - 1]) + pages[|pages| - 1]
  }

  /** The last item of a key gives its entry. */
  lemma {:induction false} LastItemCounts(items: seq<Item>, i: nat)
    requires i < |items| && forall j :: i < j < |items| ==> items[j].key != items[i].key
    ensures items[i].key in Listed(items)
    ensures Listed(items)[items[i].key] == Entry(items[i].etag, items[i].size)
  {
    if i < |items| - 1 {
      LastItemCounts(items[..|items| - 1], i);
    }
  }

  lemma {:induction false} OnlyItemsAreListed(items: seq<Item>, k: ObjectKey)
    requires k in Listed(items)
    ensures exists i :: 0 <= i < |items| && items[i].key == k
  {
    if items[|items| - 1].key != k {
      OnlyItemsAreListed(items[..|items| - 1], k);
    }
  }

  /** Pages are read one after the other. */
  lemma {:induction false} FlattenedInOrder(first: seq<Item>, pages: seq<seq<Item>>)
    ensures Flattened([]) == []
    ensures Flattened([first] + pages) == first + Flattened(pages)
  {
    assert [first][..0] == [];
    if pages == [] {
      assert [first] + pages == [first];
    } else {
      FlattenedInOrder(first, pages[..|pages| - 1]);
      assert ([first] + pages)[..|pages|] == [first] + pages[..|pages| - 1];
    }
  }

  lemma ListedLast(items: seq<Item>, last: Item)
    ensures Listed(items + [last]) == Listed(items)[last.key := Entry(last.etag, last.size)]
  {
    assert (items + [last])[..|items|] == items;
  }

  method AddPage(items: map<ObjectKey, Entry>, page: seq<Item>, ghost before: seq<Item>)
    returns (r: map<ObjectKey, Entry>)
    requires items == Listed(before)
    ensures r == Listed(before + page)
  {
    r := items;
    assert before + page[..0] == before;
    var i := 0;
    while i < |page|
      invariant 0 <= i <= |page|
      invariant r == Listed(before + page[..i])
    {
      ListedLast(before + page[..i], page[i]);
      assert before + page[..i + 1] == before + page[..i] + [page[i]];
      r := r[page[i].key := Entry(page[i].etag, page[i].size)];
      i := i + 1;
    }
    assert page[..i] == page;
  }

  method Inventory(pages: seq<seq<Item>>) returns (items: map<ObjectKey, Entry>)
    ensures items == Listed(Flattened(pages))
  {
    items := map[];
    var p := 0;
    while p < |pages|
      invariant 0 <= p <= |pages|
      invariant items == Listed(Flattened(pages[..p]))
    {
      assert pages[..p + 1][..p] == pages[..p];
      items := AddPage(items, pages[p], Flattened(pages[..p]));
      p := p + 1;
    }
    assert pages[..p] == pages;
  }

  lemma {:induction false} Least(keys: set<ObjectKey>) returns (least: ObjectKey)
    requires keys != {}
    ensures least in keys && forall j :: j in keys ==> least <= j
  {
    least :| least in keys;
    var rest := keys - {least};
    if rest != {} {
      var other := Least(rest);
      assert forall j :: j in keys ==> j == least || j in rest;
      least := if least < other then least else other;
    } else {
      assert keys == {least};
    }
  }

  lemma LeastExists(keys: set<ObjectKey>)
    requires keys != {}
    ensures exists k :: k in keys && forall j :: j in keys ==> k <= j
  {
    var least := Least(keys);
  }

  function Sorted(keys: set<ObjectKey>): seq<ObjectKey> {
    if keys == {} then []
    else
      LeastExists(keys);
      var k :| k in keys && forall j :: j in keys ==> k <= j;
      [k] + Sorted(keys - {k})
  }

  /** Sorting a set of keys lists each of them once, ascending. */
  lemma {:induction false} SortedLists(keys: set<ObjectKey>)
    ensures forall k :: k in Sorted(keys) <==> k in keys
    ensures forall i, j :: 0 <= i < j < |Sorted(keys)| ==> Sorted(keys)[i] < Sorted(keys)[j]
  {
    if keys != {} {
      var k := Sorted(keys)[0];
      var rest := Sorted(keys - {k});
      SortedLists(keys - {k});
      assert Sorted(keys) == [k] + rest;
      forall i | 0 <= i < |rest| ensures k < rest[i] {
        assert rest[i] in rest && rest[i] in keys - {k};
      }
    }
  }

  ghost function Sizes(inventory: map<ObjectKey, Entry>, keys: set<ObjectKey>): nat
    requires keys <= inventory.Keys
  {
    if keys == {} then 0 else
      var k :| k in keys;
      inventory[k].size + Sizes(inventory, keys - {k})
  }

  ghost function TotalSize(inventory: map<ObjectKey, Entry>): nat {
    Sizes(inventory, inventory.Keys)
  }

  /** The total does not depend on the order in which the entries are added up. */
  lemma {:induction false} SizesWithout(inventory: map<ObjectKey, Entry>, keys: set<ObjectKey>, k: ObjectKey)
    requires keys <= inventory.Keys && k in keys
    ensures Sizes(inventory, keys) == inventory[k].size + Sizes(inventory, keys - {k})
  {
    var picked :| picked in keys && Sizes(inventory, keys) == inventory[picked].size + Sizes(inventory, keys - {picked});
    if picked != k {
      SizesWithout(inventory, keys - {picked}, k);
      SizesWithout(inventory, keys - {k}, picked);
      assert keys - {picked} - {k} == keys - {k} - {picked};
    }
  }

  method AddSizes(inventory: map<ObjectKey, Entry>) returns (total: nat)
    ensures total == TotalSize(inventory)
  {
    total := 0;
    var todo := inventory.Keys;
    while todo != {}
      invariant todo <= inventory.Keys
      invariant total + Sizes(inventory, todo) == TotalSize(inventory)
    {
      var k :| k in todo;
      SizesWithout(inventory, todo, k);
      total := total + inventory[k].size;
      todo := todo - {k};
    }
  }

  /** An object that is copied whole and whose backup is downloaded exactly as it was sealed. */
  ghost predicate Copied(c: Cipher, key: Bytes, entry: Entry, t: Transfer, limit: nat) {
    && t.body.Some? && |t.body.value| == entry.size <= limit && entry.size <= 268_435_456
    && t.download == Some(Sealed(c, key, t.nonce, t.body.value))
  }

  ghost function Certificate(c: Cipher, key: Bytes, prefix: string, k: ObjectKey, entry: Entry, t: Transfer): Backup
    requires t.body.Some?
  {
    var sealed := Sealed(c, key, t.nonce, t.body.value);
    Backup(k, entry.etag, |t.body.value|, Digest(t.body.value), BackupKey(prefix, k), Digest(sealed), |sealed|)
  }

  /** Copies, seals, uploads and verifies one object. */
  method BackUp(c: Cipher, key: Bytes, prefix: string, k: ObjectKey, entry: Entry, t: Transfer, limit: nat)
    returns (r: Option<Backup>)
    ensures r.Some? <==> Copied(c, key, entry, t, limit)
    ensures r.Some? ==> r.value == Certificate(c, key, prefix, k, entry, t)
    ensures r.Some? ==>
      && r.value.sourceKey == k && r.value.etag == entry.etag && r.value.backupKey == BackupKey(prefix, k)
      && r.value.plainBytes == entry.size && Some(r.value.plainHash.of) == t.body
      && Some(r.value.cipherHash.of) == t.download && r.value.cipherBytes == |r.value.cipherHash.of|
  {
    if t.body.None? {
      return None;
    }
    var plain := CopySource(t.body.value, entry.size, limit);
    if plain.None? {
      return None;
    }
    var total, sealed := EncryptFile(c, key, t.nonce, plain.value);
    if total.None? {
      return None;
    }
    var plainHash := FileHash(plain.value);
    var cipherHash := FileHash(sealed);
    var verified := VerifyRemote(t.download, cipherHash, |sealed|);
    if !verified {
      return None;
    }
    r := Some(Backup(k, entry.etag, |plain.value|, plainHash, BackupKey(prefix, k), cipherHash, |sealed|));
  }

  ghost predicate AllCopied(c: Cipher, key: Bytes, inventory: map<ObjectKey, Entry>,
                            transfers: map<ObjectKey, Transfer>, limit: nat)
  {
    forall k :: k in inventory ==> k in transfers && Copied(c, key, inventory[k], transfers[k], limit)
  }

  /** Everything that must hold for a recording manifest to be written. */
  ghost predicate Publishable(c: Cipher, key: Bytes, before: map<ObjectKey, Entry>, after: map<ObjectKey, Entry>,
                              transfers: map<ObjectKey, Transfer>, limit: nat, distinctBuckets: bool)
  {
    distinctBuckets && TotalSize(before) <= limit && AllCopied(c, key, before, transfers, limit) && after == before
  }

  /** The first objects of a snapshot, in key order, are copied and certified. */
  ghost predicate CopiedSoFar(c: Cipher, key: Bytes, prefix: string, before: map<ObjectKey, Entry>,
                              transfers: map<ObjectKey, Transfer>, limit: nat, keys: seq<ObjectKey>, objects: seq<Backup>)
  {
    |objects| <= |keys| &&
    forall i :: 0 <= i < |objects| ==>
      && keys[i] in before && keys[i] in transfers && Copied(c, key, before[keys[i]], transfers[keys[i]], limit)
      && objects[i] == Certificate(c, key, prefix, keys[i], before[keys[i]], transfers[keys[i]])
  }

  ghost predicate Certified(c: Cipher, key: Bytes, prefix: string, before: map<ObjectKey, Entry>,
                            transfers: map<ObjectKey, Transfer>, objects: seq<Backup>)
  {
    var keys := Sorted(before.Keys);
    && |objects| == |keys|
    && forall i :: 0 <= i < |objects| ==>
         && keys[i] in before && keys[i] in transfers && transfers[keys[i]].body.Some?
         && objects[i] == Certificate(c, key, prefix, keys[i], before[keys[i]], transfers[keys[i]])
  }

  lemma OneMoreCopied(c: Cipher, key: Bytes, prefix: string, before: map<ObjectKey, Entry>, transfers: map<ObjectKey, Transfer>,
                      limit: nat, keys: seq<ObjectKey>, objects: seq<Backup>, backup: Backup)
    requires CopiedSoFar(c, key, prefix, before, transfers, limit, keys, objects) && |objects| < |keys|
    requires keys[|objects|] in before && keys[|objects|] in transfers
    requires var k := keys[|objects|];
      Copied(c, key, before[k], transfers[k], limit) && backup == Certificate(c, key, prefix, k, before[k], transfers[k])
    ensures CopiedSoFar(c, key, prefix, before, transfers, limit, keys, objects + [backup])
  {
  }

  lemma CopiedThrough(c: Cipher, key: Bytes, prefix: string, before: map<ObjectKey, Entry>,
                      transfers: map<ObjectKey, Transfer>, limit: nat, objects: seq<Backup>)
    requires CopiedSoFar(c, key, prefix, before, transfers, limit, Sorted(before.Keys), objects)
    requires |objects| == |Sorted(before.Keys)|
    ensures AllCopied(c, key, before, transfers, limit) && Certified(c, key, prefix, before, transfers, objects)
  {
    var keys := Sorted(before.Keys);
    SortedLists(before.Keys);
    forall k | k in before ensures k in transfers && Copied(c, key, before[k], transfers[k], limit) {
      var i :| 0 <= i < |keys| && keys[i] == k;
    }
  }

  /** Writing a manifest succeeds, fails, or raises although the store has kept it. */
  datatype Put = Accepted | Rejected | AcceptedUnsure

  /** The objects in key order, then the inventory again, then the manifest, which is what the store has afterwards. */
  method Snapshot(c: Cipher, key: Bytes, prefix: string, before: map<ObjectKey, Entry>, after: map<ObjectKey, Entry>,
                  transfers: map<ObjectKey, Transfer>, limit: nat, distinctBuckets: bool, put: Put)
    returns (ok: bool, manifest: Option<seq<Backup>>)
    ensures manifest.Some? <==> Publishable(c, key, before, after, transfers, limit, distinctBuckets) && put != Rejected
    ensures ok <==> manifest.Some? && put == Accepted
    ensures manifest.Some? ==> Certified(c, key, prefix, before, transfers, manifest.value)
  {
    if !distinctBuckets {
      return false, None;
    }
    var total := AddSizes(before);
    if total > limit {
      return false, None;
    }
    SortedLists(before.Keys);
    var keys := Sorted(before.Keys);
    var objects: seq<Backup> := [];
    while |objects| < |keys|
      invariant CopiedSoFar(c, key, prefix, before, transfers, limit, keys, objects)
    {
      var k := keys[|objects|];
      assert k in before;
      if k !in transfers {
        return false, None;
      }
      var backup := BackUp(c, key, prefix, k, before[k], transfers[k], limit);
      if backup.None? {
        return false, None;
      }
      OneMoreCopied(c, key, prefix, before, transfers, limit, keys, objects, backup.value);
      objects := objects + [backup.value];
    }
    CopiedThrough(c, key, prefix, before, transfers, limit, objects);
    if after != before {
      return false, None;
    }
    ok, manifest := put == Accepted, if put == Rejected then None else Some(objects);
  }

  /** A copied object that still has its recorded digest opens to the recording that was read. */
  lemma EntryRestores(c: Cipher, key: Bytes, prefix: string, k: ObjectKey, entry: Entry, t: Transfer, limit: nat, stored: Bytes)
    requires Copied(c, key, entry, t, limit) && |t.nonce| == 12
    requires Digest(stored) == Certificate(c, key, prefix, k, entry, t).cipherHash
    ensures Opened(c, key, stored) == t.body && |stored| == entry.size + 38
  {
    OpensToContent(c, key, t.nonce, t.body.value);
  }

  /** A manifest's entries are the source inventory, one for one. */
  lemma EntriesAreTheInventory(c: Cipher, key: Bytes, prefix: string, before: map<ObjectKey, Entry>,
                               transfers: map<ObjectKey, Transfer>, objects: seq<Backup>)
    requires Certified(c, key, prefix, before, transfers, objects)
    ensures forall i :: 0 <= i < |objects| ==> objects[i].sourceKey in before
    ensures forall i :: 0 <= i < |objects| ==>
      && objects[i].etag == before[objects[i].sourceKey].etag
      && objects[i].sourceKey in transfers && Some(objects[i].plainHash.of) == transfers[objects[i].sourceKey].body
      && objects[i].plainBytes == |objects[i].plainHash.of| && objects[i].cipherBytes == |objects[i].cipherHash.of|
      && objects[i].backupKey == BackupKey(prefix, objects[i].sourceKey)
    ensures forall k :: k in before ==> exists i :: 0 <= i < |objects| && objects[i].sourceKey == k
    ensures forall i, j :: 0 <= i < j < |objects| ==>
              objects[i].sourceKey < objects[j].sourceKey && objects[i].backupKey != objects[j].backupKey
  {
    var keys := Sorted(before.Keys);
    SortedLists(before.Keys);
    assert forall i :: 0 <= i < |objects| ==> objects[i].sourceKey == keys[i] && objects[i].backupKey.source == keys[i];
    forall k | k in before ensures exists i :: 0 <= i < |objects| && objects[i].sourceKey == k {
      var i :| 0 <= i < |keys| && keys[i] == k;
      assert objects[i].sourceKey == k;
    }
  }

  /**
    What a published manifest is worth. Its entries are the source inventory, one for one, under
    distinct backup keys, and any object that still has its recorded digest opens to the recording
    that was read.
  */
  lemma ManifestRestores(c: Cipher, key: Bytes, prefix: string, before: map<ObjectKey, Entry>, after: map<ObjectKey, Entry>,
                         transfers: map<ObjectKey, Transfer>, limit: nat, objects: seq<Backup>)
    requires Publishable(c, key, before, after, transfers, limit, true)
    requires Certified(c, key, prefix, before, transfers, objects)
    requires forall k :: k in transfers ==> |transfers[k].nonce| == 12
    ensures forall k :: k in before <==> exists i :: 0 <= i < |objects| && objects[i].sourceKey == k
    ensures forall i, j :: 0 <= i < j < |objects| ==>
              objects[i].sourceKey < objects[j].sourceKey && objects[i].backupKey != objects[j].backupKey
    ensures forall i, stored :: 0 <= i < |objects| && Digest(stored) == objects[i].cipherHash ==>
              Opened(c, key, stored) == transfers[objects[i].sourceKey].body &&
              |stored| == before[objects[i].sourceKey].size + 38
  {
    EntriesAreTheInventory(c, key, prefix, before, transfers, objects);
    forall i, stored | 0 <= i < |objects| && Digest(stored) == objects[i].cipherHash
      ensures Opened(c, key, stored) == transfers[objects[i].sourceKey].body
      ensures |stored| == before[objects[i].sourceKey].size + 38
    {
      var k := objects[i].sourceKey;
      EntryRestores(c, key, prefix, k, before[k], transfers[k], limit, stored);
    }
  }

  /**
    A source that answers a matching etag with that version, cut short or run on at worst, is copied
    faithfully: the size check leaves only the whole version.
  */
  lemma CopiesTheListedVersion(c: Cipher, key: Bytes, entry: Entry, t: Transfer, limit: nat, version: Bytes)
    requires Copied(c, key, entry, t, limit)
    requires |version| == entry.size
    requires t.body.value <= version || version <= t.body.value
    ensures t.body == Some(version)
  {
    assert t.body.value[..entry.size] == t.body.value && version[..entry.size] == version;
    assert t.body.value == version;
  }

  /** One run of the backup job and what it leaves behind, in order. */
  class BackupRun {
    var databaseManifest: Option<Digest>
    var recordingManifest: Option<seq<Backup>>
    var heartbeat: bool

    constructor ()
      ensures databaseManifest.None? && recordingManifest.None? && !heartbeat
    {
      databaseManifest, recordingManifest, heartbeat := None, None, false;
    }

    /** `downloaded` is what the store returns for the database archive. */
    method Run(c: Cipher, key: Bytes, prefix: string, dump: Option<Bytes>, nonce: Bytes, downloaded: Option<Bytes>,
               before: map<ObjectKey, Entry>, after: map<ObjectKey, Entry>, transfers: map<ObjectKey, Transfer>,
               distinctBuckets: bool, databasePut: Put, recordingPut: Put)
      requires databaseManifest.None? && recordingManifest.None? && !heartbeat
      modifies this
      ensures databaseManifest.Some? <==>
        && dump.Some? && |dump.value| <= 268_435_456
        && downloaded == Some(Sealed(c, key, nonce, dump.value)) && databasePut != Rejected
      ensures databaseManifest.Some? ==> databaseManifest.value == Digest(Sealed(c, key, nonce, dump.value))
      ensures recordingManifest.Some? <==>
        && databaseManifest.Some? && databasePut == Accepted
        && Publishable(c, key, before, after, transfers, MAX_BYTES, distinctBuckets) && recordingPut != Rejected
      ensures recordingManifest.Some? ==> Certified(c, key, prefix, before, transfers, recordingManifest.value)
      ensures heartbeat <==> recordingManifest.Some? && recordingPut == Accepted
    {
      if dump.None? {
        return;
      }
      var total, sealed := EncryptFile(c, key, nonce, dump.value);
      if total.None? {
        return;
      }
      var digest := FileHash(sealed);
      var verified := VerifyRemote(downloaded, digest, |sealed|);
      if !verified {
        return;
      }
      databaseManifest := if databasePut == Rejected then None else Some(digest);
      if databasePut != Accepted {
        return;
      }
      var ok, manifest := Snapshot(c, key, prefix, before, after, transfers, MAX_BYTES, distinctBuckets, recordingPut);
      recordingManifest := manifest;
      if !ok {
        return;
      }
      heartbeat := true;
    }
  }
}
