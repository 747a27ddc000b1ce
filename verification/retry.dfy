/**
  Retrying one failed conversation: the API that queues a retry, the worker that receives it, and
  redeliveries, interleaved one database or queue step at a time. Conversations do not share any of
  this state, so one conversation stands for all.
*/
module RetryProtocol {
  import opened Tables

  /** A retry job carries the number of attempts that the conversation had when it was queued. */
  datatype Job = Job(id: nat, baseline: nat)

  datatype ApiPhase = Claimed | Acknowledged | Unsure

  /** Who holds the row lock of the conversation. */
  datatype Lock = Free | Api(phase: ApiPhase) | Worker(delivery: nat)

  /**
    A worker's delivery: it has checked the row and holds its lock, has loaded the row without a lock
    (redeliveries do), runs an attempt, waits for redelivery, or is about to record the final failure.
  */
  datatype Phase = Checked | Loaded(attempts: nat, status: Status) | Attempting | Waiting | Exhausted

  datatype Delivery = Delivery(job: Job, tries: nat, phase: Phase)

  datatype Start = Start(job: Job, tries: nat)

  /** `log` records every processing attempt that was started, in order. */
  datatype State = State(
    status: Status, attempts: nat, lock: Lock, queued: set<Job>, live: map<nat, Delivery>, log: seq<Start>)

  datatype Event =
    | Claim
    | Dispatch(id: nat, acknowledged: bool)
    | Commit
    | Rollback
    | First(delivery: nat, job: Job)
    | SetupFails(delivery: nat)
    | Redeliver(delivery: nat)
    | StartAttempt(delivery: nat)
    | StartFails(delivery: nat)
    | AttemptFails(delivery: nat)
    | AttemptSucceeds(delivery: nat)
    | GiveUp(delivery: nat)
    | Abandon(delivery: nat)

  /** A job may be delivered first any number of times; writes wait for the row lock. */
  predicate Enabled(s: State, e: Event) {
    match e
    case Claim => s.lock.Free?
    case Dispatch(id, _) => s.lock == Api(Claimed) && forall j :: j in s.queued ==> j.id != id
    case Commit => s.lock == Api(Acknowledged)
    case Rollback => s.lock.Api?
    case First(d, j) => s.lock.Free? && j in s.queued && d !in s.live
    case SetupFails(d) => d in s.live && (s.live[d].phase.Checked? || (s.live[d].phase.Waiting? && s.lock.Free?))
    case Redeliver(d) => d in s.live && s.live[d].phase.Waiting?
    case StartAttempt(d) => d in s.live && (s.live[d].phase.Checked? || (s.live[d].phase.Loaded? && s.lock.Free?))
    case StartFails(d) => d in s.live && (s.live[d].phase.Checked? || s.live[d].phase.Loaded?)
    case AttemptFails(d) => d in s.live && s.live[d].phase.Attempting?
    case AttemptSucceeds(d) => d in s.live && s.live[d].phase.Attempting? && s.lock.Free?
    case GiveUp(d) => d in s.live && s.live[d].phase.Exhausted? && s.lock.Free?
    case Abandon(d) => d in s.live
  }

  /** A failed try is retried until `max` tries have been made. */
  function AfterFailure(max: nat, x: Delivery): Delivery {
    if x.tries < max then Delivery(x.job, x.tries + 1, Waiting) else x.(phase := Exhausted)
  }

  function Unlocked(s: State, d: nat): Lock {
    if s.lock == Worker(d) then Free else s.lock
  }

  function Next(max: nat, s: State, e: Event): State
    requires Enabled(s, e)
  {
    match e
    case Claim => if s.status == Failed then s.(lock := Api(Claimed)) else s
    case Dispatch(id, acknowledged) =>
      s.(queued := s.queued + {Job(id, s.attempts)}, lock := Api(if acknowledged then Acknowledged else Unsure))
    case Commit => s.(status := Queued, lock := Free)
    case Rollback => s.(lock := Free)
    case First(d, j) =>
      if s.status == Queued && s.attempts == j.baseline
      then s.(live := s.live[d := Delivery(j, 1, Checked)], lock := Worker(d))
      else s
    case SetupFails(d) => s.(status := Failed, lock := Unlocked(s, d), live := s.live - {d})
    case Redeliver(d) => s.(live := s.live[d := s.live[d].(phase := Loaded(s.attempts, s.status))])
    case StartAttempt(d) => Started(s, d)
    case StartFails(d) => s.(lock := Unlocked(s, d), live := s.live[d := AfterFailure(max, s.live[d])])
    case AttemptFails(d) => s.(live := s.live[d := AfterFailure(max, s.live[d])])
    case AttemptSucceeds(d) => s.(status := Completed, live := s.live - {d})
    case GiveUp(d) => s.(status := Failed, live := s.live - {d})
    case Abandon(d) => s.(lock := Unlocked(s, d), live := s.live - {d})
  }

  /**
    start_processing_attempt writes one more than the count it loaded. A status that was loaded as
    PROCESSING is not a change to the session and is not written again.
  */
  function Started(s: State, d: nat): State
    requires d in s.live && (s.live[d].phase.Checked? || s.live[d].phase.Loaded?)
  {
    var x := s.live[d];
    var count := if x.phase.Loaded? then x.phase.attempts else s.attempts;
    var status := if x.phase.Loaded? && x.phase.status == Processing then s.status else Processing;
    s.(status := status, attempts := count + 1, lock := Unlocked(s, d),
       live := s.live[d := x.(phase := Attempting)], log := s.log + [Start(x.job, x.tries)])
  }

  /** A failed conversation with nobody working on it; jobs whose dispatch was rolled back may linger. */
  ghost predicate Initial(s: State) {
    && s.status == Failed && s.lock.Free? && s.live == map[] && s.log == []
    && forall j :: j in s.queued ==> j.baseline <= s.attempts
  }

  // What the protocol promises of a state.

  /** At most one retry job is running or awaiting redelivery, and meanwhile a user's retry conflicts. */
  ghost predicate Exclusive(s: State) {
    && (forall d, d' :: d in s.live && d' in s.live ==> d == d')
    && (forall d :: d in s.live ==> s.status == Processing || s.lock == Worker(d))
  }

  function Starts(log: seq<Start>, job: Job): nat {
    if log == [] then 0 else Starts(log[..|log| - 1], job) + if log[|log| - 1].job == job then 1 else 0
  }

  /** First deliveries start at most one attempt from each baseline. */
  ghost predicate OncePerBaseline(log: seq<Start>) {
    forall i, j :: 0 <= i < j < |log| && log[i].tries == 1 && log[j].tries == 1 ==>
      log[i].job.baseline != log[j].job.baseline
  }

  ghost predicate Bounded(max: nat, log: seq<Start>) {
    forall job :: Starts(log, job) <= max
  }

  // Steps that can endanger a promise. A hazard may depend on the maximum number of tries.

  type Hazard = (nat, State, Event) -> bool

  predicate NoHazard(max: nat, s: State, e: Event) {
    false
  }

  /** A first delivery that passed its check cannot start its attempt. */
  predicate FirstStartFails(max: nat, s: State, e: Event) {
    e.StartFails? && e.delivery in s.live && s.live[e.delivery].phase.Checked?
  }

  /** A redelivery starts with an attempt count that is no longer the row's. */
  predicate StaleStart(max: nat, s: State, e: Event) {
    && e.StartAttempt? && e.delivery in s.live && s.live[e.delivery].phase.Loaded?
    && s.live[e.delivery].phase.attempts != s.attempts
  }

  /** A redelivery starts with an attempt count below a baseline that a first delivery has started from. */
  predicate Regresses(max: nat, s: State, e: Event) {
    && e.StartAttempt? && e.delivery in s.live && s.live[e.delivery].phase.Loaded?
    && exists k :: 0 <= k < |s.log| && s.log[k].tries == 1 && s.live[e.delivery].phase.attempts < s.log[k].job.baseline
  }

  /** A first delivery passes its check. */
  predicate Accepts(s: State, e: Event) {
    e.First? && s.status == Queued && s.attempts == e.job.baseline
  }

  /** How many attempts a delivery's job has started at most, while it has no other delivery. */
  function Spent(x: Delivery): int {
    if x.phase.Attempting? || x.phase.Exhausted? then x.tries else x.tries - 1
  }

  predicate TriesLeft(max: nat, s: State, job: Job) {
    exists d :: d in s.live && s.live[d].job == job && Spent(s.live[d]) < max
  }

  /** A first delivery passes its check although its job has started before or has another delivery with tries left. */
  predicate Overcommits(max: nat, s: State, e: Event) {
    Accepts(s, e) && (Starts(s.log, e.job) > 0 || TriesLeft(max, s, e.job))
  }

  // Runs.

  ghost predicate Path(max: nat, hazard: Hazard, ss: seq<State>, es: seq<Event>) {
    && |ss| == |es| + 1
    && forall i :: 0 <= i < |es| ==>
         Enabled(ss[i], es[i]) && !hazard(max, ss[i], es[i]) && ss[i + 1] == Next(max, ss[i], es[i])
  }

  ghost predicate Run(max: nat, ss: seq<State>, es: seq<Event>) {
    Path(max, NoHazard, ss, es) && Initial(ss[0])
  }

  ghost predicate Avoids(max: nat, hazard: Hazard, ss: seq<State>, es: seq<Event>)
    requires |es| <= |ss|
  {
    forall i :: 0 <= i < |es| ==> !hazard(max, ss[i], es[i])
  }

  /** Some steps without the hazard lead from one state to the other. */
  ghost predicate Reaches(max: nat, hazard: Hazard, s0: State, s: State) {
    exists ss, es :: Path(max, hazard, ss, es) && ss[0] == s0 && ss[|es|] == s
  }

  lemma ReachStart(max: nat, hazard: Hazard, s0: State)
    ensures Reaches(max, hazard, s0, s0)
  {
    assert Path(max, hazard, [s0], []);
  }

  lemma PathOneMore(max: nat, hazard: Hazard, ss: seq<State>, es: seq<Event>, e: Event, s': State)
    requires Path(max, hazard, ss, es)
    requires Enabled(ss[|es|], e) && !hazard(max, ss[|es|], e) && s' == Next(max, ss[|es|], e)
    ensures Path(max, hazard, ss + [s'], es + [e])
  {
    var ss', es' := ss + [s'], es + [e];
    forall i | 0 <= i < |es'|
      ensures Enabled(ss'[i], es'[i]) && !hazard(max, ss'[i], es'[i]) && ss'[i + 1] == Next(max, ss'[i], es'[i])
    {
      if i < |es| {
        assert ss[i + 1] == Next(max, ss[i], es[i]);
      }
    }
  }

  lemma ReachNext(max: nat, hazard: Hazard, s0: State, s: State, e: Event)
    requires Reaches(max, hazard, s0, s) && Enabled(s, e) && !hazard(max, s, e)
    ensures Reaches(max, hazard, s0, Next(max, s, e))
  {
    var ss, es :| Path(max, hazard, ss, es) && ss[0] == s0 && ss[|es|] == s;
    var s' := Next(max, s, e);
    PathOneMore(max, hazard, ss, es, e, s');
    assert (ss + [s'])[0] == s0 && (ss + [s'])[|es + [e]|] == s';
  }

  // The invariant of runs in which no first start fails.

  ghost predicate DeliveryOk(max: nat, s: State, d: nat)
    requires d in s.live
  {
    var x := s.live[d];
    && 1 <= x.tries <= max
    && Starts(s.log, x.job) <= Spent(x)
    && (if x.phase.Checked? then
          s.lock == Worker(d) && s.status == Queued && s.attempts == x.job.baseline && x.tries == 1
        else
          s.lock.Free? && s.status == Processing && x.job.baseline < s.attempts)
    && (x.phase.Waiting? || x.phase.Loaded? ==> 2 <= x.tries)
    && (x.phase.Loaded? ==> x.phase == Loaded(s.attempts, s.status))
  }

  ghost predicate Invariant(max: nat, a0: nat, s: State) {
    && (forall d, d' :: d in s.live && d' in s.live ==> d == d')
    && (forall d :: d in s.live ==> DeliveryOk(max, s, d))
    && (s.lock.Worker? ==> s.lock.delivery in s.live)
    && (s.lock.Api? ==> s.status == Failed)
    && (forall j :: j in s.queued ==> j.baseline <= s.attempts)
    && s.attempts == a0 + |s.log|
    && (forall i :: 0 <= i < |s.log| ==> s.log[i].job.baseline < s.attempts)
    && OncePerBaseline(s.log)
    && Bounded(max, s.log)
  }

  lemma {:induction false} NoStartsAbove(log: seq<Start>, job: Job)
    requires forall i :: 0 <= i < |log| ==> log[i].job != job
    ensures Starts(log, job) == 0
  {
    if log != [] {
      NoStartsAbove(log[..|log| - 1], job);
    }
  }

  lemma Logged(log: seq<Start>, start: Start)
    ensures forall job :: Starts(log + [start], job) == Starts(log, job) + if start.job == job then 1 else 0
  {
    assert (log + [start])[..|log|] == log;
  }

  lemma StartKeepsInvariant(max: nat, a0: nat, s: State, d: nat)
    requires Invariant(max, a0, s) && Enabled(s, StartAttempt(d))
    ensures Invariant(max, a0, Started(s, d))
  {
    var x := s.live[d];
    assert DeliveryOk(max, s, d);
    Logged(s.log, Start(x.job, x.tries));
    if x.phase.Checked? {
      NoStartsAbove(s.log, x.job);
    }
  }

  lemma FirstKeepsInvariant(max: nat, a0: nat, s: State, d: nat, j: Job)
    requires Invariant(max, a0, s) && Enabled(s, First(d, j)) && 1 <= max
    ensures Invariant(max, a0, Next(max, s, First(d, j)))
  {
    if s.status == Queued && s.attempts == j.baseline {
      NoStartsAbove(s.log, j);
    }
  }

  predicate ByApi(e: Event) {
    e.Claim? || e.Dispatch? || e.Commit? || e.Rollback?
  }

  lemma ApiKeepsInvariant(max: nat, a0: nat, s: State, e: Event)
    requires Invariant(max, a0, s) && Enabled(s, e) && ByApi(e)
    ensures Invariant(max, a0, Next(max, s, e))
  {
    assert forall d :: d in s.live && s.lock.Api? ==> !DeliveryOk(max, s, d);
  }

  lemma StepKeepsInvariant(max: nat, a0: nat, s: State, e: Event)
    requires Invariant(max, a0, s) && Enabled(s, e) && !FirstStartFails(max, s, e) && 1 <= max
    ensures Invariant(max, a0, Next(max, s, e))
  {
    match e
    case StartAttempt(d) => StartKeepsInvariant(max, a0, s, d);
    case First(d, j) => FirstKeepsInvariant(max, a0, s, d, j);
    case _ =>
      if ByApi(e) {
        ApiKeepsInvariant(max, a0, s, e);
      }
  }
}
