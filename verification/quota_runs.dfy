/**
  Admissions of many interleaved sessions. A session sees committed data only, its writes appear at
  its commit, and the owner's advisory lock is held from the first admission to the end.
*/
module QuotaRuns {
  import opened Tables
  import opened Quota
  import opened Numbers

  datatype Request = Upload(id: Id, size: nat) | AskAi | RetryOf(id: Id)

  /** Seen holds the snapshot of an admission in progress; Reserved and Staged hold pending writes. */
  datatype Phase = Begun | Holding | Seen(day: Day, used: Used) | Reserved(day: Day, seconds: nat) | Staged(day: Day, seconds: nat)

  datatype Tx = Tx(owner: Owner, request: Request, phase: Phase) {
    function Kind(): Kind {
      match request case Upload(_, _) => Uploads case AskAi => Ai case RetryOf(_) => Retries
    }

    function Size(): nat {
      if request.Upload? then request.size else 0
    }

    /** The row that a retry keeps locked from its first read. */
    predicate Locks(id: Id) {
      request == RetryOf(id)
    }
  }

  datatype State = State(ledger: Ledger, txs: map<nat, Tx>, dispatched: seq<Id>)

  datatype Event =
    | Begin(t: nat, owner: Owner, request: Request)
    | Lock(t: nat)
    | TakeSnapshot(t: nat, day: Day)
    | CheckOnly(t: nat)
    | Reserve(t: nat, seconds: nat)
    | Stage(t: nat)
    | Dispatch(t: nat)
    | Commit(t: nat)
    | Rollback(t: nat)
    | Delete(id: Id)
    | SetStatus(id: Id, status: Status)
    | MarkQueued(id: Id)

  ghost predicate Enabled(s: State, e: Event) {
    match e
    case Begin(t, owner, request) =>
      && t !in s.txs
      && (request.RetryOf? ==>
            && request.id in s.ledger.recordings
            && s.ledger.recordings[request.id].owner == owner
            && s.ledger.recordings[request.id].status == Failed
            && Unlocked(s, request.id))
    case Lock(t) =>
      && t in s.txs && s.txs[t].phase in {Begun, Holding}
      && forall u :: u in s.txs && u != t && s.txs[u].owner == s.txs[t].owner ==> s.txs[u].phase.Begun?
    case TakeSnapshot(t, _) => t in s.txs && s.txs[t].phase.Holding?
    case CheckOnly(t) => t in s.txs && s.txs[t].phase.Seen? && Fits(s.txs[t].phase.used, s.txs[t].Kind(), s.txs[t].Size(), 0)
    case Reserve(t, seconds) =>
      && t in s.txs && s.txs[t].phase.Seen?
      && Fits(s.txs[t].phase.used, s.txs[t].Kind(), s.txs[t].Size(), seconds)
    case Stage(t) => t in s.txs && s.txs[t].phase.Reserved? && !s.txs[t].request.AskAi?
    case Dispatch(t) => t in s.txs && s.txs[t].phase.Staged? && s.txs[t].request.RetryOf?
    case Commit(t) =>
      && t in s.txs
      && (if s.txs[t].request.AskAi? then s.txs[t].phase.Reserved? else s.txs[t].phase.Staged?)
      && (s.txs[t].request.Upload? ==> s.txs[t].request.id !in s.ledger.recordings)
    case Rollback(t) => t in s.txs
    case Delete(id) => id in s.ledger.recordings && Unlocked(s, id)
    case SetStatus(id, status) =>
      id in s.ledger.recordings && Unlocked(s, id) && status != Queued
    case MarkQueued(id) => id in s.ledger.recordings && Unlocked(s, id)
  }

  ghost predicate Unlocked(s: State, id: Id) {
    forall t :: t in s.txs ==> !s.txs[t].Locks(id)
  }

  function Committed(ledger: Ledger, tx: Tx): Ledger
    requires tx.phase.Reserved? || tx.phase.Staged?
    requires tx.request.RetryOf? ==> tx.request.id in ledger.recordings
  {
    var charged := Charged(ledger, tx.owner, tx.phase.day, Charge(tx.Kind(), tx.Size(), tx.phase.seconds).daily);
    match tx.request
    case Upload(id, size) => WithRecording(charged, id, Recording(tx.owner, size, Uploaded))
    case AskAi => charged
    case RetryOf(id) => WithRecording(charged, id, ledger.recordings[id].(status := Queued))
  }

  ghost function Move(s: State, t: nat, phase: Phase): State
    requires t in s.txs
  {
    s.(txs := s.txs[t := s.txs[t].(phase := phase)])
  }

  ghost predicate Step(s: State, e: Event, s': State) {
    && Enabled(s, e)
    && match e
       case Begin(t, owner, request) => s' == s.(txs := s.txs[t := Tx(owner, request, Begun)])
       case Lock(t) => s' == Move(s, t, Holding)
       case TakeSnapshot(t, day) => s' == Move(s, t, Seen(day, UsedBy(s.ledger, s.txs[t].owner, day)))
       case CheckOnly(t) => s' == Move(s, t, Holding)
       case Reserve(t, seconds) => s' == Move(s, t, Reserved(s.txs[t].phase.day, seconds))
       case Stage(t) => s' == Move(s, t, Staged(s.txs[t].phase.day, s.txs[t].phase.seconds))
       case Dispatch(t) => s' == s.(dispatched := s.dispatched + [s.txs[t].request.id])
       case Commit(t) =>
         && (s.txs[t].request.RetryOf? ==> s.txs[t].request.id in s.ledger.recordings)
         && s' == s.(ledger := Committed(s.ledger, s.txs[t]), txs := s.txs - {t})
       case Rollback(t) => s' == s.(txs := s.txs - {t})
       case Delete(id) => s' == s.(ledger := s.ledger.(recordings := s.ledger.recordings - {id}))
       case SetStatus(id, status) =>
         s' == s.(ledger := WithRecording(s.ledger, id, s.ledger.recordings[id].(status := status)))
       case MarkQueued(id) =>
         s' == s.(ledger := WithRecording(s.ledger, id, s.ledger.recordings[id].(status := Queued)))
  }

  // The promise: limits, or what was already above them when counting began.

  ghost predicate DailyWithin(d: Daily, base: Daily) {
    && d.uploads <= Max(LIMITS.daily.uploads, base.uploads)
    && d.audioSeconds <= Max(LIMITS.daily.audioSeconds, base.audioSeconds)
    && d.ai <= Max(LIMITS.daily.ai, base.ai)
    && d.retries <= Max(LIMITS.daily.retries, base.retries)
  }

  ghost predicate StorageWithin(recordings: map<Id, Recording>, base: map<Id, Recording>, owner: Owner) {
    && |Owned(recordings, owner)| <= Max(LIMITS.recordings, |Owned(base, owner)|)
    && Bytes(recordings, Owned(recordings, owner)) <= Max(LIMITS.storageBytes, Bytes(base, Owned(base, owner)))
  }

  ghost predicate Within(ledger: Ledger, base: Ledger) {
    && (forall owner, day :: DailyWithin(DailyOf(ledger, owner, day), DailyOf(base, owner, day)))
    && (forall owner :: StorageWithin(ledger.recordings, base.recordings, owner))
  }

  // The invariant.

  ghost predicate TxOk(ledger: Ledger, tx: Tx) {
    && (tx.phase.Seen? ==>
          && tx.phase.used.daily == DailyOf(ledger, tx.owner, tx.phase.day)
          && |Owned(ledger.recordings, tx.owner)| <= tx.phase.used.recordings
          && Bytes(ledger.recordings, Owned(ledger.recordings, tx.owner)) <= tx.phase.used.storageBytes)
    && (tx.phase.Reserved? || tx.phase.Staged? ==>
          Fits(UsedBy(ledger, tx.owner, tx.phase.day), tx.Kind(), tx.Size(), tx.phase.seconds))
    && (tx.request.RetryOf? ==>
          && tx.request.id in ledger.recordings
          && ledger.recordings[tx.request.id].owner == tx.owner
          && ledger.recordings[tx.request.id].status == Failed)
  }

  /** Two transactions that the owner's lock or a row lock keeps apart. */
  predicate Conflicting(a: Tx, b: Tx) {
    || (a.owner == b.owner && !a.phase.Begun? && !b.phase.Begun?)
    || (a.request.RetryOf? && a.request == b.request)
  }

  ghost predicate Invariant(s: State, base: Ledger) {
    && (forall t, u :: t in s.txs && u in s.txs && Conflicting(s.txs[t], s.txs[u]) ==> t == u)
    && (forall t :: t in s.txs ==> TxOk(s.ledger, s.txs[t]))
    && Within(s.ledger, base)
  }

  /** Another transaction's view survives a change that adds nothing to its owner's use. */
  ghost predicate NoMore(ledger: Ledger, ledger': Ledger, owner: Owner) {
    && (forall day :: DailyOf(ledger', owner, day) == DailyOf(ledger, owner, day))
    && |Owned(ledger'.recordings, owner)| <= |Owned(ledger.recordings, owner)|
    && Bytes(ledger'.recordings, Owned(ledger'.recordings, owner)) <= Bytes(ledger.recordings, Owned(ledger.recordings, owner))
  }

  lemma TxStaysOk(ledger: Ledger, ledger': Ledger, tx: Tx)
    requires TxOk(ledger, tx) && (tx.phase.Begun? || NoMore(ledger, ledger', tx.owner))
    requires tx.request.RetryOf? ==>
      tx.request.id in ledger'.recordings && ledger'.recordings[tx.request.id] == ledger.recordings[tx.request.id]
    ensures TxOk(ledger', tx)
  {
  }

  lemma Stored(recordings: map<Id, Recording>, id: Id, r: Recording, owner: Owner)
    requires id !in recordings
    ensures var after := recordings[id := r];
            && |Owned(after, owner)| == |Owned(recordings, owner)| + (if r.owner == owner then 1 else 0)
            && Bytes(after, Owned(after, owner)) ==
               Bytes(recordings, Owned(recordings, owner)) + if r.owner == owner then r.size else 0
  {
    var after := recordings[id := r];
    BytesAgree(after, recordings, Owned(recordings, owner));
    if r.owner == owner {
      assert Owned(after, owner) == Owned(recordings, owner) + {id};
      assert Owned(after, owner) - {id} == Owned(recordings, owner);
      BytesWithout(after, Owned(after, owner), id);
    } else {
      assert Owned(after, owner) == Owned(recordings, owner);
    }
  }

  lemma Relabelled(recordings: map<Id, Recording>, id: Id, status: Status, owner: Owner)
    requires id in recordings
    ensures var after := recordings[id := recordings[id].(status := status)];
            && Owned(after, owner) == Owned(recordings, owner)
            && Bytes(after, Owned(after, owner)) == Bytes(recordings, Owned(recordings, owner))
  {
    var after := recordings[id := recordings[id].(status := status)];
    assert Owned(after, owner) == Owned(recordings, owner);
    BytesAgree(after, recordings, Owned(recordings, owner));
  }

  lemma Removed(recordings: map<Id, Recording>, id: Id, owner: Owner)
    requires id in recordings
    ensures var after := recordings - {id};
            && |Owned(after, owner)| <= |Owned(recordings, owner)|
            && Bytes(after, Owned(after, owner)) <= Bytes(recordings, Owned(recordings, owner))
  {
    var after := recordings - {id};
    BytesAgree(after, recordings, Owned(after, owner));
    if recordings[id].owner == owner {
      assert Owned(after, owner) == Owned(recordings, owner) - {id};
      BytesWithout(recordings, Owned(recordings, owner), id);
    } else {
      assert Owned(after, owner) == Owned(recordings, owner);
    }
  }

  lemma CommittedUse(ledger: Ledger, tx: Tx, owner: Owner)
    requires TxOk(ledger, tx) && (tx.phase.Reserved? || tx.phase.Staged?)
    requires tx.request.Upload? ==> tx.request.id !in ledger.recordings
    ensures var after := Committed(ledger, tx);
            var charge := Charge(tx.Kind(), tx.Size(), tx.phase.seconds);
            && (forall day :: DailyOf(after, owner, day) ==
                  if owner == tx.owner && day == tx.phase.day
                  then AddDaily(DailyOf(ledger, owner, day), charge.daily) else DailyOf(ledger, owner, day))
            && |Owned(after.recordings, owner)| ==
               |Owned(ledger.recordings, owner)| + (if owner == tx.owner then charge.recordings else 0)
            && Bytes(after.recordings, Owned(after.recordings, owner)) ==
               Bytes(ledger.recordings, Owned(ledger.recordings, owner)) + if owner == tx.owner then charge.storageBytes else 0
  {
    match tx.request
    case Upload(id, size) => Stored(ledger.recordings, id, Recording(tx.owner, size, Uploaded), owner);
    case AskAi =>
    case RetryOf(id) => Relabelled(ledger.recordings, id, Queued, owner);
  }

  lemma ChargeStaysWithin(used: Used, base: Daily, kind: Kind, size: nat, seconds: nat)
    requires Fits(used, kind, size, seconds) && DailyWithin(used.daily, base)
    ensures DailyWithin(AddDaily(used.daily, Charge(kind, size, seconds).daily), base)
  {
  }

  lemma CommittedDaily(ledger: Ledger, tx: Tx, owner: Owner, day: Day)
    requires TxOk(ledger, tx) && (tx.phase.Reserved? || tx.phase.Staged?)
    requires tx.request.Upload? ==> tx.request.id !in ledger.recordings
    ensures DailyOf(Committed(ledger, tx), owner, day) ==
              if owner == tx.owner && day == tx.phase.day
              then AddDaily(DailyOf(ledger, owner, day), Charge(tx.Kind(), tx.Size(), tx.phase.seconds).daily)
              else DailyOf(ledger, owner, day)
  {
    CommittedUse(ledger, tx, owner);
  }

  lemma DailyStaysWithin(ledger: Ledger, base: Ledger, tx: Tx, owner: Owner, day: Day)
    requires TxOk(ledger, tx) && (tx.phase.Reserved? || tx.phase.Staged?)
    requires tx.request.Upload? ==> tx.request.id !in ledger.recordings
    requires DailyWithin(DailyOf(ledger, owner, day), DailyOf(base, owner, day))
    ensures DailyWithin(DailyOf(Committed(ledger, tx), owner, day), DailyOf(base, owner, day))
  {
    CommittedDaily(ledger, tx, owner, day);
    if owner == tx.owner && day == tx.phase.day {
      var used := UsedBy(ledger, owner, day);
      assert used.daily == DailyOf(ledger, owner, day);
      ChargeStaysWithin(used, DailyOf(base, owner, day), tx.Kind(), tx.Size(), tx.phase.seconds);
    }
  }

  lemma StorageStaysWithin(ledger: Ledger, base: Ledger, tx: Tx, owner: Owner)
    requires TxOk(ledger, tx) && (tx.phase.Reserved? || tx.phase.Staged?)
    requires tx.request.Upload? ==> tx.request.id !in ledger.recordings
    requires StorageWithin(ledger.recordings, base.recordings, owner)
    ensures StorageWithin(Committed(ledger, tx).recordings, base.recordings, owner)
  {
    CommittedUse(ledger, tx, owner);
  }

  lemma CommitStaysWithin(ledger: Ledger, base: Ledger, tx: Tx)
    requires TxOk(ledger, tx) && (tx.phase.Reserved? || tx.phase.Staged?) && Within(ledger, base)
    requires tx.request.Upload? ==> tx.request.id !in ledger.recordings
    ensures Within(Committed(ledger, tx), base)
  {
    var after := Committed(ledger, tx);
    forall owner, day ensures DailyWithin(DailyOf(after, owner, day), DailyOf(base, owner, day)) {
      DailyStaysWithin(ledger, base, tx, owner, day);
    }
    forall owner ensures StorageWithin(after.recordings, base.recordings, owner) {
      StorageStaysWithin(ledger, base, tx, owner);
    }
  }

  /** The others keep their views: they have another owner or have not been admitted yet. */
  lemma CommitKeepsInvariant(s: State, t: nat, s': State, base: Ledger)
    requires Invariant(s, base) && Step(s, Commit(t), s')
    ensures Invariant(s', base)
  {
    var tx := s.txs[t];
    CommitStaysWithin(s.ledger, base, tx);
    forall u | u in s'.txs ensures TxOk(s'.ledger, s'.txs[u]) {
      assert !Conflicting(s.txs[u], tx);
      CommittedUse(s.ledger, tx, s.txs[u].owner);
      TxStaysOk(s.ledger, s'.ledger, s.txs[u]);
    }
  }

  lemma LessStaysWithin(ledger: Ledger, ledger': Ledger, base: Ledger)
    requires Within(ledger, base) && forall owner :: NoMore(ledger, ledger', owner)
    ensures Within(ledger', base)
  {
    forall owner, day ensures DailyWithin(DailyOf(ledger', owner, day), DailyOf(base, owner, day)) {
      assert NoMore(ledger, ledger', owner);
      assert DailyWithin(DailyOf(ledger, owner, day), DailyOf(base, owner, day));
    }
    forall owner ensures StorageWithin(ledger'.recordings, base.recordings, owner) {
      assert NoMore(ledger, ledger', owner);
      assert StorageWithin(ledger.recordings, base.recordings, owner);
    }
  }

  lemma OutsideKeepsInvariant(s: State, e: Event, s': State, base: Ledger)
    requires Invariant(s, base) && Step(s, e, s') && (e.Delete? || e.SetStatus? || e.MarkQueued?)
    ensures Invariant(s', base)
  {
    forall owner ensures NoMore(s.ledger, s'.ledger, owner) {
      if e.Delete? {
        Removed(s.ledger.recordings, e.id, owner);
      } else {
        Relabelled(s.ledger.recordings, e.id, if e.SetStatus? then e.status else Queued, owner);
      }
    }
    LessStaysWithin(s.ledger, s'.ledger, base);
    forall u | u in s'.txs ensures TxOk(s'.ledger, s'.txs[u]) {
      assert !s.txs[u].Locks(e.id);
      TxStaysOk(s.ledger, s'.ledger, s.txs[u]);
    }
  }

  /** Starting, locking and reading touch no committed data. */
  lemma EntryKeepsInvariant(s: State, e: Event, s': State, base: Ledger)
    requires Invariant(s, base) && Step(s, e, s') && (e.Begin? || e.Lock?)
    ensures Invariant(s', base)
  {
    if e.Begin? {
      forall u | u in s.txs ensures !Conflicting(s.txs[u], s'.txs[e.t]) {
        assert e.request.RetryOf? ==> !s.txs[u].Locks(e.request.id);
      }
    }
  }

  lemma AdmissionKeepsInvariant(s: State, e: Event, s': State, base: Ledger)
    requires Invariant(s, base) && Step(s, e, s') && (e.TakeSnapshot? || e.CheckOnly? || e.Reserve? || e.Stage?)
    ensures Invariant(s', base)
  {
    assert TxOk(s.ledger, s.txs[e.t]);
    assert TxOk(s'.ledger, s'.txs[e.t]);
    forall u | u in s.txs && u != e.t ensures !Conflicting(s'.txs[u], s'.txs[e.t]) {
      assert !Conflicting(s.txs[u], s.txs[e.t]);
    }
  }

  lemma StepKeepsInvariant(s: State, e: Event, s': State, base: Ledger)
    requires Invariant(s, base) && Step(s, e, s')
    ensures Invariant(s', base)
  {
    match e
    case Commit(t) => CommitKeepsInvariant(s, t, s', base);
    case Delete(_) => OutsideKeepsInvariant(s, e, s', base);
    case SetStatus(_, _) => OutsideKeepsInvariant(s, e, s', base);
    case MarkQueued(_) => OutsideKeepsInvariant(s, e, s', base);
    case Begin(_, _, _) => EntryKeepsInvariant(s, e, s', base);
    case Lock(_) => EntryKeepsInvariant(s, e, s', base);
    case Dispatch(_) =>
    case Rollback(_) =>
    case _ => AdmissionKeepsInvariant(s, e, s', base);
  }

  ghost predicate Run(ss: seq<State>, es: seq<Event>) {
    && |ss| == |es| + 1
    && ss[0].txs == map[]
    && forall i :: 0 <= i < |es| ==> Step(ss[i], es[i], ss[i + 1])
  }

  lemma {:induction false} RunKeepsInvariant(ss: seq<State>, es: seq<Event>, i: nat)
    requires Run(ss, es) && i < |ss|
    ensures Invariant(ss[i], ss[0].ledger)
  {
    if i > 0 {
      RunKeepsInvariant(ss, es, i - 1);
      StepKeepsInvariant(ss[i - 1], es[i - 1], ss[i], ss[0].ledger);
    }
  }

  ghost predicate WithinLimits(ledger: Ledger, owner: Owner, day: Day) {
    var used := UsedBy(ledger, owner, day);
    && used.recordings <= 30 && used.storageBytes <= 262_144_000
    && used.daily.uploads <= 5 && used.daily.audioSeconds <= 900 && used.daily.ai <= 5 && used.daily.retries <= 2
  }

  /** Every committed state of every run keeps an owner that starts within the limits within them, on every day. */
  lemma LimitsHold(ss: seq<State>, es: seq<Event>, i: nat, owner: Owner, day: Day)
    requires Run(ss, es) && i < |ss|
    ensures WithinLimits(ss[0].ledger, owner, day) ==> WithinLimits(ss[i].ledger, owner, day)
  {
    RunKeepsInvariant(ss, es, i);
    assert StorageWithin(ss[i].ledger.recordings, ss[0].ledger.recordings, owner);
    assert DailyWithin(DailyOf(ss[i].ledger, owner, day), DailyOf(ss[0].ledger, owner, day));
  }

  // What the counters count: the requests that a run commits.

  datatype Admission = Admission(owner: Owner, day: Day, request: Request, seconds: nat)

  /** The requests committed in the first `n` steps, with the day of their admission and the seconds measured. */
  ghost function Admitted(ss: seq<State>, es: seq<Event>, n: nat): seq<Admission>
    requires Run(ss, es) && n <= |es|
  {
    if n == 0 then []
    else
      assert Step(ss[n - 1], es[n - 1], ss[n]);
      Admitted(ss, es, n - 1) +
      if es[n - 1].Commit? then
        var tx := ss[n - 1].txs[es[n - 1].t];
        [Admission(tx.owner, tx.phase.day, tx.request, tx.phase.seconds)]
      else []
  }

  predicate On(a: Admission, owner: Owner, day: Day) {
    a.owner == owner && a.day == day
  }

  function UploadsOn(admitted: seq<Admission>, owner: Owner, day: Day): nat {
    if admitted == [] then 0
    else
      var a := admitted[|admitted| - 1];
      UploadsOn(admitted[..|admitted| - 1], owner, day) + if On(a, owner, day) && a.request.Upload? then 1 else 0
  }

  function SecondsOn(admitted: seq<Admission>, owner: Owner, day: Day): nat {
    if admitted == [] then 0
    else
      var a := admitted[|admitted| - 1];
      SecondsOn(admitted[..|admitted| - 1], owner, day) + if On(a, owner, day) && a.request.Upload? then a.seconds else 0
  }

  function AiOn(admitted: seq<Admission>, owner: Owner, day: Day): nat {
    if admitted == [] then 0
    else
      var a := admitted[|admitted| - 1];
      AiOn(admitted[..|admitted| - 1], owner, day) + if On(a, owner, day) && a.request.AskAi? then 1 else 0
  }

  function RetriesOn(admitted: seq<Admission>, owner: Owner, day: Day): nat {
    if admitted == [] then 0
    else
      var a := admitted[|admitted| - 1];
      RetriesOn(admitted[..|admitted| - 1], owner, day) + if On(a, owner, day) && a.request.RetryOf? then 1 else 0
  }

  lemma OneMoreAdmission(admitted: seq<Admission>, a: Admission, owner: Owner, day: Day)
    ensures var more, here := admitted + [a], On(a, owner, day);
      && UploadsOn(more, owner, day) == UploadsOn(admitted, owner, day) + (if here && a.request.Upload? then 1 else 0)
      && SecondsOn(more, owner, day) == SecondsOn(admitted, owner, day) + (if here && a.request.Upload? then a.seconds else 0)
      && AiOn(more, owner, day) == AiOn(admitted, owner, day) + (if here && a.request.AskAi? then 1 else 0)
      && RetriesOn(more, owner, day) == RetriesOn(admitted, owner, day) + (if here && a.request.RetryOf? then 1 else 0)
  {
    assert (admitted + [a])[..|admitted|] == admitted;
  }

  /** A commit counts its own request on the day of its admission and touches no other counter. */
  lemma CommitCounts(s: State, t: nat, s': State, base: Ledger, owner: Owner, day: Day)
    requires Invariant(s, base) && Step(s, Commit(t), s')
    ensures var tx, before, after := s.txs[t], DailyOf(s.ledger, owner, day), DailyOf(s'.ledger, owner, day);
      if tx.owner != owner || tx.phase.day != day then after == before
      else match tx.request
        case Upload(_, _) =>
          after == before.(uploads := before.uploads + 1, audioSeconds := before.audioSeconds + tx.phase.seconds)
        case AskAi => after == before.(ai := before.ai + 1)
        case RetryOf(_) => after == before.(retries := before.retries + 1)
  {
    assert TxOk(s.ledger, s.txs[t]);
    CommittedDaily(s.ledger, s.txs[t], owner, day);
  }

  lemma OnlyCommitsCount(s: State, e: Event, s': State)
    requires Step(s, e, s') && !e.Commit?
    ensures s'.ledger.usage == s.ledger.usage
  {
  }

  /** The counters have grown by the admissions. */
  ghost predicate GrownBy(now: Daily, base: Daily, admitted: seq<Admission>, owner: Owner, day: Day) {
    && now.uploads == base.uploads + UploadsOn(admitted, owner, day)
    && now.audioSeconds == base.audioSeconds + SecondsOn(admitted, owner, day)
    && now.ai == base.ai + AiOn(admitted, owner, day)
    && now.retries == base.retries + RetriesOn(admitted, owner, day)
  }

  lemma CommitGrows(s: State, t: nat, s': State, base: Ledger, admitted: seq<Admission>, owner: Owner, day: Day)
    requires Invariant(s, base) && Step(s, Commit(t), s')
    requires GrownBy(DailyOf(s.ledger, owner, day), DailyOf(base, owner, day), admitted, owner, day)
    ensures var tx := s.txs[t];
      GrownBy(DailyOf(s'.ledger, owner, day), DailyOf(base, owner, day),
              admitted + [Admission(tx.owner, tx.phase.day, tx.request, tx.phase.seconds)], owner, day)
  {
    var tx := s.txs[t];
    CommitCounts(s, t, s', base, owner, day);
    OneMoreAdmission(admitted, Admission(tx.owner, tx.phase.day, tx.request, tx.phase.seconds), owner, day);
  }

  /** Over any run each day's counters have grown by exactly the requests committed under that day's admission. */
  lemma {:induction false} CountersAreAdmissions(ss: seq<State>, es: seq<Event>, n: nat, owner: Owner, day: Day)
    requires Run(ss, es) && n <= |es|
    ensures GrownBy(DailyOf(ss[n].ledger, owner, day), DailyOf(ss[0].ledger, owner, day), Admitted(ss, es, n), owner, day)
  {
    if n > 0 {
      var e := es[n - 1];
      CountersAreAdmissions(ss, es, n - 1, owner, day);
      assert Step(ss[n - 1], e, ss[n]);
      if e.Commit? {
        RunKeepsInvariant(ss, es, n - 1);
        CommitGrows(ss[n - 1], e.t, ss[n], ss[0].ledger, Admitted(ss, es, n - 1), owner, day);
      } else {
        OnlyCommitsCount(ss[n - 1], e, ss[n]);
        assert Admitted(ss, es, n) == Admitted(ss, es, n - 1);
      }
    }
  }

  /** So from a ledger without usage no interleaving commits more on a day than the pilot allows. */
  lemma DailyAllowancesHold(ss: seq<State>, es: seq<Event>, n: nat, owner: Owner, day: Day)
    requires Run(ss, es) && n <= |es| && ss[0].ledger.usage == map[]
    ensures var admitted := Admitted(ss, es, n);
      && UploadsOn(admitted, owner, day) <= 5 && SecondsOn(admitted, owner, day) <= 900
      && AiOn(admitted, owner, day) <= 5 && RetriesOn(admitted, owner, day) <= 2
  {
    CountersAreAdmissions(ss, es, n, owner, day);
    RunKeepsInvariant(ss, es, n);
    assert DailyWithin(DailyOf(ss[n].ledger, owner, day), DailyOf(ss[0].ledger, owner, day));
  }

  /** What a commit does to the recordings: an upload stores its own, a retry requeues its own, nothing else changes. */
  lemma CommitStores(s: State, t: nat, s': State, id: Id)
    requires Step(s, Commit(t), s')
    ensures id in s.ledger.recordings && s.txs[t].request != RetryOf(id) ==>
      id in s'.ledger.recordings && s'.ledger.recordings[id] == s.ledger.recordings[id]
    ensures s.txs[t].request.Upload? && s.txs[t].request.id == id ==>
      id in s'.ledger.recordings &&
      s'.ledger.recordings[id] == Recording(s.txs[t].owner, s.txs[t].request.size, Uploaded)
    ensures s.txs[t].request == RetryOf(id) ==>
      id in s.ledger.recordings && id in s'.ledger.recordings &&
      s'.ledger.recordings[id] == Recording(s.ledger.recordings[id].owner, s.ledger.recordings[id].size, Queued)
    ensures id in s'.ledger.recordings ==>
      id in s.ledger.recordings || (s.txs[t].request.Upload? && s.txs[t].request.id == id)
  {
  }

  predicate CommitsRetry(s: State, e: Event) {
    e.Commit? && e.t in s.txs && s.txs[e.t].request.RetryOf?
  }

  predicate Requeues(before: Ledger, after: Ledger, id: Id) {
    && id in before.recordings && before.recordings[id].status == Failed
    && id in after.recordings && after.recordings[id].status == Queued
  }

  ghost predicate SomeRequeue(before: Ledger, after: Ledger) {
    exists id :: Requeues(before, after, id)
  }

  /** The upload handler, which queues first and marks afterwards, finds that the worker has already failed. */
  predicate MarksFailed(s: State, e: Event) {
    e.MarkQueued? && e.id in s.ledger.recordings && s.ledger.recordings[e.id].status == Failed
  }

  /**
    A failed recording turns into a queued one exactly when a retry commits or the upload handler
    marks it too late; only the former is charged and recorded, and each once.
  */
  lemma RequeuesExactlyWhen(ss: seq<State>, es: seq<Event>, i: nat)
    requires Run(ss, es) && i < |es|
    ensures SomeRequeue(ss[i].ledger, ss[i + 1].ledger) <==> CommitsRetry(ss[i], es[i]) || MarksFailed(ss[i], es[i])
    ensures CommitsRetry(ss[i], es[i]) ==>
      |Admitted(ss, es, i + 1)| == |Admitted(ss, es, i)| + 1 && Admitted(ss, es, i + 1)[|Admitted(ss, es, i)|].request.RetryOf?
    ensures MarksFailed(ss[i], es[i]) ==> ss[i + 1].ledger.usage == ss[i].ledger.usage
  {
    RunKeepsInvariant(ss, es, i);
    assert Step(ss[i], es[i], ss[i + 1]);
    if CommitsRetry(ss[i], es[i]) {
      assert TxOk(ss[i].ledger, ss[i].txs[es[i].t]);
      assert Requeues(ss[i].ledger, ss[i + 1].ledger, ss[i].txs[es[i].t].request.id);
    } else if MarksFailed(ss[i], es[i]) {
      assert Requeues(ss[i].ledger, ss[i + 1].ledger, es[i].id);
    }
  }
}
