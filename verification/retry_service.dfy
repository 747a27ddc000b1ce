/** The service and worker code as it runs undisturbed, tied to the steps of RetryProtocol. */
module RetryService {
  import opened Results
  import opened Tables
  import opened RetryProtocol

  datatype Dispatched = NotSent | SentUnsure | SentAcknowledged
  datatype RetryError = Conflict | Unavailable

  /** How far the environment lets one delivery get. */
  datatype Outcome = SetupFailed | StartFailed | AttemptFailed | Succeeded

  datatype WorkerResult = Ignored | Failed | RetryLater | Done

  /** The given events are enabled one after the other and lead from one state to the other. */
  ghost predicate Traces(max: nat, s: State, es: seq<Event>, s': State)
    decreases |es|
  {
    if es == [] then s == s' else Enabled(s, es[0]) && Traces(max, Next(max, s, es[0]), es[1..], s')
  }

  lemma TracesAfter(max: nat, s: State, e: Event, es: seq<Event>, s': State)
    requires Enabled(s, e) && Traces(max, Next(max, s, e), es, s')
    ensures Traces(max, s, [e] + es, s')
  {
    assert ([e] + es)[1..] == es;
  }

  lemma TracesThree(max: nat, s: State, a: Event, b: Event, c: Event)
    requires Enabled(s, a) && Enabled(Next(max, s, a), b) && Enabled(Next(max, Next(max, s, a), b), c)
    ensures Traces(max, s, [a, b, c], Next(max, Next(max, Next(max, s, a), b), c))
  {
    assert [a, b, c][1..] == [b, c] && [b, c][1..] == [c];
    assert Traces(max, Next(max, Next(max, s, a), b), [c], Next(max, Next(max, Next(max, s, a), b), c));
    assert Traces(max, Next(max, s, a), [b, c], Next(max, Next(max, Next(max, s, a), b), c));
  }

  function RetryEvents(id: nat, dispatched: Dispatched, commits: bool): seq<Event> {
    match dispatched
    case NotSent => [Claim, Rollback]
    case SentUnsure => [Claim, Dispatch(id, false), Rollback]
    case SentAcknowledged => [Claim, Dispatch(id, true), if commits then Commit else Rollback]
  }

  function FailureEvents(max: nat, d: nat, tries: nat): seq<Event> {
    if tries < max then [] else [GiveUp(d)]
  }

  /** What a delivery does once it may work: try 1 after its check, later tries after loading the row. */
  function WorkEvents(max: nat, d: nat, tries: nat, outcome: Outcome): seq<Event> {
    match outcome
    case SetupFailed => [SetupFails(d)]
    case StartFailed => [StartFails(d)] + FailureEvents(max, d, tries)
    case AttemptFailed => [StartAttempt(d), AttemptFails(d)] + FailureEvents(max, d, tries)
    case Succeeded => [StartAttempt(d), AttemptSucceeds(d)]
  }

  /** A failed try leaves the delivery waiting for another, or the conversation failed for good. */
  function AfterTry(max: nat, s: State, d: nat): State
    requires d in s.live
  {
    if s.live[d].tries < max then s.(lock := Free, live := s.live[d := AfterFailure(max, s.live[d])])
    else s.(lock := Free, status := Status.Failed, live := s.live - {d})
  }

  lemma FailedStartTraces(max: nat, s: State, d: nat)
    requires Enabled(s, StartFails(d)) && (s.lock.Free? || s.lock == Worker(d))
    ensures Traces(max, s, WorkEvents(max, d, s.live[d].tries, StartFailed), AfterTry(max, s, d))
  {
    var failed := Next(max, s, StartFails(d));
    if s.live[d].tries >= max {
      assert Next(max, failed, GiveUp(d)).live == s.live - {d};
      assert Traces(max, failed, [GiveUp(d)], AfterTry(max, s, d));
      assert ([StartFails(d)] + [GiveUp(d)])[1..] == [GiveUp(d)];
    }
  }

  lemma FailedAttemptTraces(max: nat, s: State, d: nat)
    requires Enabled(s, StartAttempt(d)) && (s.lock.Free? || s.lock == Worker(d))
    ensures Traces(max, s, WorkEvents(max, d, s.live[d].tries, AttemptFailed), AfterTry(max, Started(s, d), d))
  {
    var started := Started(s, d);
    var failed := Next(max, started, AttemptFails(d));
    if s.live[d].tries >= max {
      assert Next(max, failed, GiveUp(d)).live == started.live - {d};
      TracesThree(max, s, StartAttempt(d), AttemptFails(d), GiveUp(d));
    } else {
      assert [StartAttempt(d), AttemptFails(d)][1..] == [AttemptFails(d)];
      assert Traces(max, started, [AttemptFails(d)], failed);
    }
  }

  lemma SuccessTraces(max: nat, s: State, d: nat)
    requires Enabled(s, StartAttempt(d)) && (s.lock.Free? || s.lock == Worker(d))
    ensures Traces(max, s, WorkEvents(max, d, s.live[d].tries, Succeeded),
                   Started(s, d).(status := Completed, live := s.live - {d}))
  {
    var started := Started(s, d);
    assert started.live - {d} == s.live - {d};
    assert [StartAttempt(d), AttemptSucceeds(d)][1..] == [AttemptSucceeds(d)];
    assert Traces(max, started, [AttemptSucceeds(d)], Next(max, started, AttemptSucceeds(d)));
  }

  class ConversationRecord {
    var status: Status
    var attempts: nat
    var lock: Lock
    var queued: set<Job>
    var live: map<nat, Delivery>
    ghost var log: seq<Start>

    ghost function View(): State
      reads this
    {
      State(status, attempts, lock, queued, live, log)
    }

    constructor (attempts: nat)
      ensures Initial(View()) && this.attempts == attempts
    {
      status, this.attempts, lock, queued, live, log := Status.Failed, attempts, Free, {}, map[], [];
    }

    /** The row is locked from the status check until the commit or the rollback, dispatch included. */
    method RetryConversation(max: nat, id: nat, dispatched: Dispatched, commits: bool)
      returns (r: Result<(), RetryError>)
      requires lock.Free? && forall j :: j in queued ==> j.id != id
      modifies this
      ensures old(status) != Status.Failed ==> r == Err(Conflict) && View() == old(View())
      ensures old(status) == Status.Failed ==> Traces(max, old(View()), RetryEvents(id, dispatched, commits), View())
      ensures r.Ok? <==> old(status) == Status.Failed && dispatched == SentAcknowledged && commits
      ensures r.Err? ==> r.error == if old(status) != Status.Failed then Conflict else Unavailable
      // Only an acknowledged and committed retry changes the status; the job that is sent carries the current count.
      ensures status == (if r.Ok? then Queued else old(status)) && lock.Free?
      ensures attempts == old(attempts) && live == old(live) && log == old(log)
      ensures queued == old(queued) +
        if old(status) == Status.Failed && dispatched != NotSent then {Job(id, old(attempts))} else {}
    {
      if status != Status.Failed {
        return Err(Conflict);
      }
      ghost var start := View();
      lock := Api(Claimed);
      if dispatched != NotSent {
        queued := queued + {Job(id, attempts)};
        lock := Api(if dispatched == SentAcknowledged then Acknowledged else Unsure);
      }
      if dispatched != SentAcknowledged || !commits {
        lock := Free;
        if dispatched != NotSent {
          TracesThree(max, start, Claim, Dispatch(id, dispatched == SentAcknowledged), Rollback);
        }
        return Err(Unavailable);
      }
      status, lock := Queued, Free;
      TracesThree(max, start, Claim, Dispatch(id, true), Commit);
      r := Ok(());
    }

    method StartProcessingAttempt(d: nat)
      requires Enabled(View(), StartAttempt(d))
      modifies this
      ensures View() == Started(old(View()), d)
    {
      var x := live[d];
      log := log + [Start(x.job, x.tries)];
      if x.phase.Loaded? {
        attempts := x.phase.attempts + 1;
        status := if x.phase.status == Processing then status else Processing;
      } else {
        attempts := attempts + 1;
        status := Processing;
      }
      lock := if lock == Worker(d) then Free else lock;
      live := live[d := x.(phase := Attempting)];
    }

    /** Rollback after a failed try, then redelivery or, on the last try, the terminal status. */
    method FailTry(max: nat, d: nat) returns (r: WorkerResult)
      requires d in live && (lock.Free? || lock == Worker(d))
      modifies this
      ensures r == if old(live[d].tries) < max then RetryLater else WorkerResult.Failed
      ensures View() == AfterTry(max, old(View()), d)
    {
      lock := Free;
      var x := live[d];
      if x.tries < max {
        live := live[d := Delivery(x.job, x.tries + 1, Waiting)];
        return RetryLater;
      }
      status, live := Status.Failed, live - {d};
      r := WorkerResult.Failed;
    }

    method Work(max: nat, d: nat, outcome: Outcome) returns (r: WorkerResult)
      requires d in live && (live[d].phase.Checked? || live[d].phase.Loaded?)
      requires live[d].phase.Checked? ==> lock == Worker(d)
      requires live[d].phase.Loaded? ==> lock.Free?
      requires outcome != SetupFailed
      modifies this
      ensures Traces(max, old(View()), WorkEvents(max, d, old(live[d].tries), outcome), View())
      ensures r == Done <==> outcome == Succeeded
      ensures r == RetryLater <==> outcome != Succeeded && old(live[d].tries) < max
      ensures r != Ignored && lock.Free? && queued == old(queued)
      // An attempt that started is counted and logged; how it ends decides the status and what stays alive.
      ensures outcome == StartFailed ==> attempts == old(attempts) && log == old(log)
      ensures outcome != StartFailed ==>
        && attempts == (if old(live[d].phase.Loaded?) then old(live[d].phase.attempts) else old(attempts)) + 1
        && log == old(log) + [Start(old(live[d].job), old(live[d].tries))]
      ensures r == Done ==> status == Completed
      ensures r == WorkerResult.Failed ==> status == Status.Failed
      ensures r == RetryLater && outcome == StartFailed ==> status == old(status)
      ensures r == RetryLater && outcome != StartFailed ==>
        status == if old(live[d].phase.Loaded? && live[d].phase.status == Processing) then old(status) else Processing
      ensures live == if r == RetryLater then old(live)[d := Delivery(old(live[d].job), old(live[d].tries) + 1, Waiting)]
                      else old(live) - {d}
    {
      ghost var start := View();
      if outcome == StartFailed {
        r := FailTry(max, d);
        FailedStartTraces(max, start, d);
        return;
      }
      StartProcessingAttempt(d);
      if outcome == AttemptFailed {
        r := FailTry(max, d);
        FailedAttemptTraces(max, start, d);
        return;
      }
      Finish(d);
      SuccessTraces(max, start, d);
      r := Done;
    }

    /** The completed status is written and the delivery is over. */
    method Finish(d: nat)
      modifies this`status, this`live
      ensures status == Completed && live == old(live) - {d}
    {
      status, live := Completed, live - {d};
    }

    /** The first delivery of a job: ignored unless the row still waits for exactly this baseline. */
    method ProcessFirst(max: nat, d: nat, job: Job, outcome: Outcome) returns (r: WorkerResult)
      requires lock.Free? && job in queued && d !in live
      modifies this
      ensures old(status) != Queued || old(attempts) != job.baseline ==> r == Ignored && View() == old(View())
      ensures old(status) == Queued && old(attempts) == job.baseline ==>
        Traces(max, old(View()), [First(d, job)] + WorkEvents(max, d, 1, outcome), View())
      ensures r == Ignored <==> old(status) != Queued || old(attempts) != job.baseline
      ensures r == Done ==> outcome == Succeeded && status == Completed && live == old(live)
      ensures r == WorkerResult.Failed ==> outcome != Succeeded && status == Status.Failed && live == old(live)
      ensures r == RetryLater ==>
        && 1 < max && (outcome == StartFailed || outcome == AttemptFailed)
        && live == old(live)[d := Delivery(job, 2, Waiting)]
        && status == if outcome == StartFailed then Queued else Processing
      ensures outcome == SetupFailed && r != Ignored ==> r == WorkerResult.Failed
      ensures r == Ignored || outcome == SetupFailed || outcome == StartFailed ==> attempts == old(attempts) && log == old(log)
      ensures r != Ignored && (outcome == AttemptFailed || outcome == Succeeded) ==>
        attempts == job.baseline + 1 && log == old(log) + [Start(job, 1)]
      ensures lock.Free? && queued == old(queued)
    {
      if status != Queued || attempts != job.baseline {
        return Ignored;
      }
      ghost var start := View();
      live, lock := live[d := Delivery(job, 1, Checked)], Worker(d);
      if outcome == SetupFailed {
        status, lock, live := Status.Failed, Free, live - {d};
        r := WorkerResult.Failed;
      } else {
        r := Work(max, d, outcome);
      }
      TracesAfter(max, start, First(d, job), WorkEvents(max, d, 1, outcome), View());
    }

    /** A later try: the baseline is not checked again and the row is loaded without its lock. */
    method ProcessAgain(max: nat, d: nat, outcome: Outcome) returns (r: WorkerResult)
      requires lock.Free? && d in live && live[d].phase.Waiting?
      modifies this
      ensures Traces(max, old(View()),
        (if outcome == SetupFailed then [] else [Redeliver(d)]) + WorkEvents(max, d, old(live[d].tries), outcome), View())
      ensures r == Done <==> outcome == Succeeded
      ensures r == RetryLater <==> (outcome == StartFailed || outcome == AttemptFailed) && old(live[d].tries) < max
      ensures r == Done ==> status == Completed
      ensures r == WorkerResult.Failed ==> status == Status.Failed
      ensures r == RetryLater ==> status == if outcome == StartFailed then old(status) else Processing
      ensures live == if r == RetryLater then old(live)[d := Delivery(old(live[d].job), old(live[d].tries) + 1, Waiting)]
                      else old(live) - {d}
      ensures outcome == SetupFailed || outcome == StartFailed ==> attempts == old(attempts) && log == old(log)
      ensures outcome == AttemptFailed || outcome == Succeeded ==>
        attempts == old(attempts) + 1 && log == old(log) + [Start(old(live[d].job), old(live[d].tries))]
      ensures r != Ignored && lock.Free? && queued == old(queued)
    {
      if outcome == SetupFailed {
        status, live := Status.Failed, live - {d};
        return WorkerResult.Failed;
      }
      ghost var start := View();
      live := live[d := live[d].(phase := Loaded(attempts, status))];
      r := Work(max, d, outcome);
      TracesAfter(max, start, Redeliver(d), WorkEvents(max, d, start.live[d].tries, outcome), View());
    }
  }
}
