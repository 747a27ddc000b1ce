/** Pilot allowances: what is counted, what an admission checks and what it charges. */
module Quota {
  import opened Results
  import opened Tables

  type Day = int

  datatype Kind = Uploads | Ai | Retries

  datatype Refusal = StorageFull | AllowanceUsed

  datatype Daily = Daily(uploads: nat, audioSeconds: nat, ai: nat, retries: nat)

  const NO_USE := Daily(0, 0, 0, 0)

  datatype Recording = Recording(owner: Owner, size: nat, status: Status)

  datatype Ledger = Ledger(usage: map<(Owner, Day), Daily>, recordings: map<Id, Recording>)

  datatype Used = Used(recordings: nat, storageBytes: nat, daily: Daily)

  const LIMITS := Used(30, 250 * 1024 * 1024, Daily(5, 900, 5, 2))

  function DailyOf(ledger: Ledger, owner: Owner, day: Day): (daily: Daily)
    ensures (owner, day) !in ledger.usage ==> daily == Daily(0, 0, 0, 0)
    ensures (owner, day) in ledger.usage ==> daily == ledger.usage[(owner, day)]
  {
    if (owner, day) in ledger.usage then ledger.usage[(owner, day)] else NO_USE
  }

  function Owned(recordings: map<Id, Recording>, owner: Owner): set<Id> {
    set id | id in recordings && recordings[id].owner == owner
  }

  ghost function Bytes(recordings: map<Id, Recording>, ids: set<Id>): nat
    requires ids <= recordings.Keys
  {
    if ids == {} then 0 else
      var id :| id in ids;
      recordings[id].size + Bytes(recordings, ids - {id})
  }

  ghost function UsedBy(ledger: Ledger, owner: Owner, day: Day): Used {
    Used(|Owned(ledger.recordings, owner)|, Bytes(ledger.recordings, Owned(ledger.recordings, owner)),
         DailyOf(ledger, owner, day))
  }

  /** The amounts one admission adds. */
  function Charge(kind: Kind, size: nat, seconds: nat): Used {
    match kind
    case Uploads => Used(1, size, Daily(1, seconds, 0, 0))
    case Ai => Used(0, 0, Daily(0, 0, 1, 0))
    case Retries => Used(0, 0, Daily(0, 0, 0, 1))
  }

  function AddDaily(a: Daily, b: Daily): Daily {
    Daily(a.uploads + b.uploads, a.audioSeconds + b.audioSeconds, a.ai + b.ai, a.retries + b.retries)
  }

  /** Only the amounts that the admission changes are compared with their limits. */
  predicate Fits(used: Used, kind: Kind, size: nat, seconds: nat) {
    match kind
    case Uploads =>
      && used.recordings + 1 <= LIMITS.recordings
      && used.storageBytes + size <= LIMITS.storageBytes
      && used.daily.uploads + 1 <= LIMITS.daily.uploads
      && used.daily.audioSeconds + seconds <= LIMITS.daily.audioSeconds
    case Ai => used.daily.ai + 1 <= LIMITS.daily.ai
    case Retries => used.daily.retries + 1 <= LIMITS.daily.retries
  }

  /** The limits in numbers: what an admission may bring each amount to. */
  lemma FitsExactlyWhen(used: Used, kind: Kind, size: nat, seconds: nat)
    ensures Fits(used, kind, size, seconds) <==>
      && (kind == Uploads ==>
            && used.recordings < 30 && used.storageBytes + size <= 262_144_000
            && used.daily.uploads < 5 && used.daily.audioSeconds + seconds <= 900)
      && (kind == Ai ==> used.daily.ai < 5)
      && (kind == Retries ==> used.daily.retries < 2)
  {
  }

  lemma {:induction false} BytesWithout(recordings: map<Id, Recording>, ids: set<Id>, id: Id)
    requires ids <= recordings.Keys && id in ids
    ensures Bytes(recordings, ids) == recordings[id].size + Bytes(recordings, ids - {id})
  {
    var picked :| picked in ids && Bytes(recordings, ids) == recordings[picked].size + Bytes(recordings, ids - {picked});
    if picked != id {
      BytesWithout(recordings, ids - {picked}, id);
      BytesWithout(recordings, ids - {id}, picked);
      assert ids - {picked} - {id} == ids - {id} - {picked};
    }
  }

  lemma {:induction false} BytesAgree(a: map<Id, Recording>, b: map<Id, Recording>, ids: set<Id>)
    requires ids <= a.Keys && ids <= b.Keys
    requires forall id :: id in ids ==> a[id].size == b[id].size
    ensures Bytes(a, ids) == Bytes(b, ids)
  {
    if ids != {} {
      var id :| id in ids;
      BytesWithout(a, ids, id);
      BytesWithout(b, ids, id);
      BytesAgree(a, b, ids - {id});
    }
  }

  /** One request's session: `work` is what its transaction sees. */
  class Session {
    var committed: Ledger
    var work: Ledger
    const owner: Owner

    constructor (owner: Owner, ledger: Ledger)
      ensures committed == work == ledger && this.owner == owner
    {
      this.owner, committed, work := owner, ledger, ledger;
    }

    method Rollback()
      modifies this
      ensures work == committed == old(committed)
    {
      work := committed;
    }

    method Snapshot(day: Day) returns (used: Used)
      ensures used == UsedBy(work, owner, day)
    {
      var todo := Owned(work.recordings, owner);
      ghost var all := todo;
      var count, bytes := 0, 0;
      while todo != {}
        invariant todo <= all == Owned(work.recordings, owner)
        invariant count + |todo| == |all|
        invariant bytes + Bytes(work.recordings, todo) == Bytes(work.recordings, all)
      {
        var id :| id in todo;
        BytesWithout(work.recordings, todo, id);
        count, bytes := count + 1, bytes + work.recordings[id].size;
        todo := todo - {id};
      }
      used := Used(count, bytes, DailyOf(work, owner, day));
    }

    /** Compares each changed amount with its limit, in order, and names the first that is exceeded. */
    method Exceeds(used: Used, kind: Kind, size: nat, seconds: nat) returns (refused: Option<Refusal>)
      ensures refused.None? <==> Fits(used, kind, size, seconds)
      ensures refused == Some(StorageFull) <==>
        kind == Uploads && used.daily.uploads < LIMITS.daily.uploads &&
        (used.recordings >= LIMITS.recordings || used.storageBytes + size > LIMITS.storageBytes)
    {
      var u, l := used, LIMITS;
      var changes :=
        if kind.Ai? then [(u.daily.ai, 1, l.daily.ai, AllowanceUsed)]
        else if kind.Retries? then [(u.daily.retries, 1, l.daily.retries, AllowanceUsed)]
        else [(u.daily.uploads, 1, l.daily.uploads, AllowanceUsed), (u.recordings, 1, l.recordings, StorageFull),
              (u.storageBytes, size, l.storageBytes, StorageFull),
              (u.daily.audioSeconds, seconds, l.daily.audioSeconds, AllowanceUsed)];
      var i := 0;
      while i < |changes|
        invariant 0 <= i <= |changes|
        invariant forall k :: 0 <= k < i ==> changes[k].0 + changes[k].1 <= changes[k].2
      {
        if changes[i].0 + changes[i].1 > changes[i].2 {
          assert kind.Uploads? && 1 <= i ==> changes[0].0 + changes[0].1 <= changes[0].2;
          assert kind.Uploads? && 3 <= i ==> changes[1].0 + 1 <= changes[1].2 && changes[2].0 + size <= changes[2].2;
          return Some(changes[i].3);
        }
        i := i + 1;
      }
      assert changes[0].0 + changes[0].1 <= changes[0].2;
      assert kind.Uploads? ==> changes[1].0 + 1 <= changes[1].2 && changes[2].0 + size <= changes[2].2
                               && changes[3].0 + seconds <= changes[3].2;
      refused := None;
    }

    /** Admission under the owner's lock; `day` is the clock reading of this call. */
    method Admit(kind: Kind, size: nat, seconds: nat, reserve: bool, day: Day) returns (admitted: bool)
      modifies this`work
      ensures admitted <==> Fits(UsedBy(old(work), owner, day), kind, size, seconds)
      ensures !(admitted && reserve) ==> work == old(work)
      ensures admitted && reserve ==>
        work == Charged(old(work), owner, day, Charge(kind, size, seconds).daily)
      // One upload with its seconds, one call or one retry is counted, for this owner on this day alone.
      ensures admitted && reserve ==>
        && work.recordings == old(work).recordings
        && var was, now := DailyOf(old(work), owner, day), DailyOf(work, owner, day);
        && now.uploads == was.uploads + (if kind == Uploads then 1 else 0)
        && now.audioSeconds == was.audioSeconds + (if kind == Uploads then seconds else 0)
        && now.ai == was.ai + (if kind == Ai then 1 else 0)
        && now.retries == was.retries + (if kind == Retries then 1 else 0)
        && forall o, d :: o != owner || d != day ==> DailyOf(work, o, d) == DailyOf(old(work), o, d)
    {
      var used := Snapshot(day);
      var refused := Exceeds(used, kind, size, seconds);
      if refused.Some? {
        return false;
      }
      if reserve {
        if (owner, day) !in work.usage {
          work := work.(usage := work.usage[(owner, day) := NO_USE]);
        }
        var row := work.usage[(owner, day)];
        row := match kind
          case Uploads => row.(uploads := row.uploads + 1, audioSeconds := row.audioSeconds + seconds)
          case Ai => row.(ai := row.ai + 1)
          case Retries => row.(retries := row.retries + 1);
        work := work.(usage := work.usage[(owner, day) := row]);
        assert row == AddDaily(DailyOf(old(work), owner, day), Charge(kind, size, seconds).daily);
        ChargedCounts(old(work), owner, day, kind, size, seconds);
      }
      admitted := true;
    }

    /** A check before the audio is measured, a charge after it, then the row, all in one transaction. */
    method Upload(id: Id, size: nat, seconds: Option<nat>, checkDay: Day, chargeDay: Day, saved: bool, commits: bool)
      returns (stored: bool)
      requires work == committed && id !in work.recordings
      modifies this
      ensures work == committed
      ensures stored <==>
        && Fits(UsedBy(old(committed), owner, checkDay), Uploads, size, 0)
        && seconds.Some? && Fits(UsedBy(old(committed), owner, chargeDay), Uploads, size, seconds.value)
        && saved && commits
      ensures !stored ==> committed == old(committed)
      ensures stored ==>
        var charged := Charged(old(committed), owner, chargeDay, Charge(Uploads, size, seconds.value).daily);
        committed == WithRecording(charged, id, Recording(owner, size, Uploaded))
      ensures stored ==>
        && var was := DailyOf(old(committed), owner, chargeDay);
        && DailyOf(committed, owner, chargeDay) ==
             was.(uploads := was.uploads + 1, audioSeconds := was.audioSeconds + seconds.value)
        && committed.recordings == old(committed).recordings[id := Recording(owner, size, Uploaded)]
    {
      var checked := Admit(Uploads, size, 0, false, checkDay);
      if !checked || seconds.None? {
        Rollback();
        return false;
      }
      var admitted := Admit(Uploads, size, seconds.value, true, chargeDay);
      if !admitted || !saved || !commits {
        Rollback();
        return false;
      }
      work := work.(recordings := work.recordings[id := Recording(owner, size, Uploaded)]);
      committed := work;
      stored := true;
    }

    /** The charge and the status change commit together or not at all, wherever the job ended up. */
    method Retry(id: Id, day: Day, dispatched: bool, commits: bool) returns (requeued: bool)
      requires work == committed && id in work.recordings && work.recordings[id].owner == owner
      modifies this
      ensures work == committed
      ensures requeued <==>
        && old(committed).recordings[id].status == Failed
        && Fits(UsedBy(old(committed), owner, day), Retries, 0, 0) && dispatched && commits
      ensures !requeued ==> committed == old(committed)
      ensures requeued ==>
        var charged := Charged(old(committed), owner, day, Charge(Retries, 0, 0).daily);
        committed == WithRecording(charged, id, old(committed).recordings[id].(status := Queued))
      ensures requeued ==> DailyOf(old(committed), owner, day).retries < 2
      ensures requeued ==> DailyOf(committed, owner, day).retries == DailyOf(old(committed), owner, day).retries + 1
      ensures requeued ==> id in committed.recordings && committed.recordings[id].status == Queued
    {
      if work.recordings[id].status != Failed {
        Rollback();
        return false;
      }
      var admitted := Admit(Retries, 0, 0, true, day);
      if !admitted {
        Rollback();
        return false;
      }
      work := work.(recordings := work.recordings[id := work.recordings[id].(status := Queued)]);
      if !dispatched || !commits {
        Rollback();
        return false;
      }
      ChargedCounts(committed, owner, day, Retries, 0, 0);
      committed := work;
      requeued := true;
    }

    /** The charge is committed before the provider is asked, so a provider error still costs usage. */
    method ConsumeAi(day: Day) returns (admitted: bool)
      requires work == committed
      modifies this
      ensures work == committed
      ensures admitted <==> Fits(UsedBy(old(committed), owner, day), Ai, 0, 0)
      ensures committed == if admitted then Charged(old(committed), owner, day, Charge(Ai, 0, 0).daily) else old(committed)
      ensures admitted <==> DailyOf(old(committed), owner, day).ai < 5
      ensures admitted ==> DailyOf(committed, owner, day).ai == DailyOf(old(committed), owner, day).ai + 1
    {
      admitted := Admit(Ai, 0, 0, true, day);
      committed := work;
    }
  }

  function Charged(ledger: Ledger, owner: Owner, day: Day, amount: Daily): Ledger {
    ledger.(usage := ledger.usage[(owner, day) := AddDaily(DailyOf(ledger, owner, day), amount)])
  }

  /** A charge counts one upload with its seconds, one call or one retry, for this owner on this day alone. */
  lemma ChargedCounts(ledger: Ledger, owner: Owner, day: Day, kind: Kind, size: nat, seconds: nat)
    ensures var after := Charged(ledger, owner, day, Charge(kind, size, seconds).daily);
      && after.recordings == ledger.recordings
      && DailyOf(after, owner, day).uploads == DailyOf(ledger, owner, day).uploads + (if kind == Uploads then 1 else 0)
      && DailyOf(after, owner, day).audioSeconds ==
           DailyOf(ledger, owner, day).audioSeconds + (if kind == Uploads then seconds else 0)
      && DailyOf(after, owner, day).ai == DailyOf(ledger, owner, day).ai + (if kind == Ai then 1 else 0)
      && DailyOf(after, owner, day).retries == DailyOf(ledger, owner, day).retries + (if kind == Retries then 1 else 0)
    ensures var after := Charged(ledger, owner, day, Charge(kind, size, seconds).daily);
      forall o, d :: o != owner || d != day ==> DailyOf(after, o, d) == DailyOf(ledger, o, d)
  {
  }

  function WithRecording(ledger: Ledger, id: Id, recording: Recording): Ledger {
    ledger.(recordings := ledger.recordings[id := recording])
  }
}
