/** Runs built step by step: what a conversation can still be driven to. */
module RetryRuns {
  import opened Tables
  import opened RetryProtocol

  /** Only starts of redeliveries can be such a hazard. */
  ghost predicate ByRedeliveries(hazard: Hazard) {
    forall max, s, e :: hazard(max, s, e) ==> e.StartAttempt? && e.delivery in s.live && s.live[e.delivery].phase.Loaded?
  }

  /** Only accepted first deliveries can be such a hazard. */
  ghost predicate ByAcceptances(hazard: Hazard) {
    forall max, s, e :: hazard(max, s, e) ==> e.First?
  }

  lemma {:induction false} AboveAll(queued: set<Job>) returns (top: nat)
    ensures forall j :: j in queued ==> j.id <= top
  {
    top := 0;
    if queued != {} {
      var j :| j in queued;
      var rest := AboveAll(queued - {j});
      assert forall x :: x in queued ==> x == j || x in queued - {j};
      top := if rest < j.id then j.id else rest;
    }
  }

  /** A retry request that reaches the queue and commits. */
  lemma RetryRequest(max: nat, hazard: Hazard, s0: State, s: State, id: nat) returns (s': State)
    requires ByRedeliveries(hazard) && Reaches(max, hazard, s0, s) && s.status == Failed && s.lock.Free?
    requires forall j :: j in s.queued ==> j.id != id
    ensures s' == s.(status := Queued, queued := s.queued + {Job(id, s.attempts)})
    ensures Reaches(max, hazard, s0, s')
  {
    ReachNext(max, hazard, s0, s, Claim);
    var claimed := Next(max, s, Claim);
    ReachNext(max, hazard, s0, claimed, Dispatch(id, true));
    var sent := Next(max, claimed, Dispatch(id, true));
    ReachNext(max, hazard, s0, sent, Commit);
    s' := Next(max, sent, Commit);
  }

  /** A first delivery that checks the row and starts its attempt. */
  lemma FirstStart(max: nat, hazard: Hazard, s0: State, s: State, d: nat, j: Job) returns (s': State)
    requires ByRedeliveries(hazard) && Reaches(max, hazard, s0, s) && s.lock.Free? && j in s.queued && d !in s.live
    requires s.status == Queued && s.attempts == j.baseline
    ensures s' == s.(status := Processing, attempts := s.attempts + 1,
                     live := s.live[d := Delivery(j, 1, Attempting)], log := s.log + [Start(j, 1)])
    ensures Reaches(max, hazard, s0, s')
  {
    ReachNext(max, hazard, s0, s, First(d, j));
    var checked := Next(max, s, First(d, j));
    ReachNext(max, hazard, s0, checked, StartAttempt(d));
    s' := Next(max, checked, StartAttempt(d));
    assert s'.live == s.live[d := Delivery(j, 1, Attempting)];
  }

  /** A running attempt fails, and on its last try or because its redelivery cannot be set up, for good. */
  lemma FailForGood(max: nat, hazard: Hazard, s0: State, s: State, d: nat, rest: map<nat, Delivery>) returns (s': State)
    requires ByRedeliveries(hazard) && Reaches(max, hazard, s0, s) && s.lock.Free?
    requires d in s.live && s.live[d].phase == Attempting && rest == s.live - {d}
    ensures s' == s.(status := Failed, live := rest)
    ensures Reaches(max, hazard, s0, s')
  {
    ReachNext(max, hazard, s0, s, AttemptFails(d));
    var failed := Next(max, s, AttemptFails(d));
    var last := if s.live[d].tries < max then SetupFails(d) else GiveUp(d);
    ReachNext(max, hazard, s0, failed, last);
    s' := Next(max, failed, last);
    assert s'.live == rest;
  }

  /** A waiting delivery is redelivered and loads the row. */
  lemma Reload(max: nat, hazard: Hazard, s0: State, s: State, d: nat) returns (s': State)
    requires ByAcceptances(hazard) && Reaches(max, hazard, s0, s) && d in s.live && s.live[d].phase.Waiting?
    ensures Reaches(max, hazard, s0, s')
    ensures s' == s.(live := s.live[d := s.live[d].(phase := Loaded(s.attempts, s.status))])
  {
    ReachNext(max, hazard, s0, s, Redeliver(d));
    s' := Next(max, s, Redeliver(d));
  }

  lemma FailOnce(max: nat, hazard: Hazard, s0: State, s: State, d: nat) returns (s': State)
    requires ByAcceptances(hazard) && Reaches(max, hazard, s0, s) && d in s.live
    requires s.live[d].phase == Attempting && s.live[d].tries < max
    ensures Reaches(max, hazard, s0, s')
    ensures s' == s.(live := s.live[d := Delivery(s.live[d].job, s.live[d].tries + 1, Waiting)])
  {
    ReachNext(max, hazard, s0, s, AttemptFails(d));
    s' := Next(max, s, AttemptFails(d));
  }

  lemma UpdateTwice(live: map<nat, Delivery>, d: nat, x: Delivery, y: Delivery)
    ensures live[d := x][d := y] == live[d := y]
  {
  }

  /** A running try fails and its redelivery loads the row. */
  lemma FailAndReload(max: nat, hazard: Hazard, s0: State, s: State, d: nat) returns (s': State)
    requires ByAcceptances(hazard) && Reaches(max, hazard, s0, s) && d in s.live
    requires s.live[d].phase == Attempting && s.live[d].tries < max
    ensures Reaches(max, hazard, s0, s')
    ensures s' == s.(live := s.live[d := Delivery(s.live[d].job, s.live[d].tries + 1, Loaded(s.attempts, s.status))])
  {
    var waiting := FailOnce(max, hazard, s0, s, d);
    s' := Reload(max, hazard, s0, waiting, d);
    UpdateTwice(s.live, d, waiting.live[d], s'.live[d]);
  }

  lemma LoadedStart(max: nat, hazard: Hazard, s0: State, s: State, d: nat) returns (s': State)
    requires ByAcceptances(hazard) && Reaches(max, hazard, s0, s) && s.lock.Free?
    requires d in s.live && s.live[d].phase.Loaded?
    ensures Reaches(max, hazard, s0, s') && s'.lock.Free?
    ensures s'.live == s.live[d := s.live[d].(phase := Attempting)]
    ensures s'.log == s.log + [Start(s.live[d].job, s.live[d].tries)]
  {
    ReachNext(max, hazard, s0, s, StartAttempt(d));
    s' := Next(max, s, StartAttempt(d));
  }

  /** A running try fails and the next one starts. */
  lemma NextTry(max: nat, hazard: Hazard, s0: State, s: State, d: nat) returns (s': State)
    requires ByAcceptances(hazard) && Reaches(max, hazard, s0, s) && s.lock.Free? && d in s.live
    requires s.live[d].phase == Attempting && s.live[d].tries < max
    ensures Reaches(max, hazard, s0, s') && s'.lock.Free?
    ensures s'.live == s.live[d := Delivery(s.live[d].job, s.live[d].tries + 1, Attempting)]
    ensures Starts(s'.log, s.live[d].job) == Starts(s.log, s.live[d].job) + 1
  {
    var loaded := FailAndReload(max, hazard, s0, s, d);
    s' := LoadedStart(max, hazard, s0, loaded, d);
    UpdateTwice(s.live, d, loaded.live[d], s'.live[d]);
    Logged(s.log, Start(s.live[d].job, s.live[d].tries + 1));
  }

  /** A delivery that keeps failing is redelivered until its tries are used up. */
  lemma {:induction false} UseUpTries(max: nat, hazard: Hazard, s0: State, s: State, d: nat) returns (s': State)
    requires ByAcceptances(hazard) && Reaches(max, hazard, s0, s) && s.lock.Free? && d in s.live
    requires s.live[d].phase == Attempting && 1 <= s.live[d].tries <= max
    ensures Reaches(max, hazard, s0, s') && s'.lock.Free?
    ensures s'.live == s.live[d := Delivery(s.live[d].job, max, Attempting)]
    ensures Starts(s'.log, s.live[d].job) == Starts(s.log, s.live[d].job) + max - s.live[d].tries
    decreases max - s.live[d].tries
  {
    var x := s.live[d];
    if x.tries < max {
      var again := NextTry(max, hazard, s0, s, d);
      s' := UseUpTries(max, hazard, s0, again, d);
    } else {
      s' := s;
      assert s.live[d := Delivery(x.job, max, Attempting)] == s.live;
    }
  }

  /** Retries count up to a baseline that a first delivery has already started from, and start from it again. */
  lemma {:induction false} CountUpAndRepeat(max: nat, hazard: Hazard, s0: State, s: State, d: nat, k: nat)
    returns (s': State)
    requires ByRedeliveries(hazard) && Reaches(max, hazard, s0, s)
    requires s.status == Failed && s.lock.Free? && d !in s.live
    requires k < |s.log| && s.log[k].tries == 1 && s.attempts <= s.log[k].job.baseline
    ensures Reaches(max, hazard, s0, s') && !OncePerBaseline(s'.log)
    decreases s.log[k].job.baseline - s.attempts
  {
    var top := AboveAll(s.queued);
    var job := Job(top + 1, s.attempts);
    var queued := RetryRequest(max, hazard, s0, s, top + 1);
    s' := FirstStart(max, hazard, s0, queued, d, job);
    assert s'.log[k] == s.log[k] && s'.log[|s.log|] == Start(job, 1);
    if s.attempts < s.log[k].job.baseline {
      assert s'.live - {d} == s.live;
      var failed := FailForGood(max, hazard, s0, s', d, s.live);
      s' := CountUpAndRepeat(max, hazard, s0, failed, d, k);
    }
  }

  /** One more attempt of another delivery that has tries left. */
  lemma OneMoreStart(max: nat, hazard: Hazard, s0: State, s: State, d: nat) returns (s': State)
    requires ByAcceptances(hazard) && Reaches(max, hazard, s0, s) && s.lock.Free?
    requires d in s.live && Spent(s.live[d]) < max && !s.live[d].phase.Checked? && !s.live[d].phase.Exhausted?
    ensures Reaches(max, hazard, s0, s')
    ensures Starts(s'.log, s.live[d].job) == Starts(s.log, s.live[d].job) + 1
  {
    if s.live[d].phase.Attempting? {
      s' := NextTry(max, hazard, s0, s, d);
    } else {
      var loaded := s;
      if s.live[d].phase.Waiting? {
        loaded := Reload(max, hazard, s0, s, d);
      }
      s' := LoadedStart(max, hazard, s0, loaded, d);
      Logged(s.log, Start(s.live[d].job, s.live[d].tries));
    }
  }

  // Runs in which the promises are broken.

  const FRESH: State := State(Failed, 0, Free, {}, map[], [])

  /** A queued retry whose first delivery fails to start, after which a second delivery of it starts. */
  lemma FailedFirstStart(max: nat) returns (s: State)
    requires 1 <= max
    ensures s == State(Queued, 0, Free, {Job(0, 0)}, map[0 := AfterFailure(max, Delivery(Job(0, 0), 1, Checked))], [])
    ensures Reaches(max, NoHazard, FRESH, s)
  {
    ReachStart(max, NoHazard, FRESH);
    var queued := RetryRequest(max, NoHazard, FRESH, FRESH, 0);
    ReachNext(max, NoHazard, FRESH, queued, First(0, Job(0, 0)));
    var checked := Next(max, queued, First(0, Job(0, 0)));
    ReachNext(max, NoHazard, FRESH, checked, StartFails(0));
    s := Next(max, checked, StartFails(0));
  }

  lemma ExclusionBreaks(max: nat) returns (s: State)
    requires 1 <= max
    ensures Reaches(max, NoHazard, FRESH, s) && !Exclusive(s)
  {
    var failed := FailedFirstStart(max);
    s := FirstStart(max, NoHazard, FRESH, failed, 1, Job(0, 0));
    assert 0 in s.live && 1 in s.live;
  }

  /** A job that is requested, started and fails for good, while others wait. */
  lemma WholeRetry(max: nat, s0: State, s: State, d: nat, job: Job) returns (s': State)
    requires Reaches(max, NoHazard, s0, s) && s.status == Queued && s.lock.Free?
    requires d !in s.live && job in s.queued && job.baseline == s.attempts
    ensures Reaches(max, NoHazard, s0, s')
    ensures s' == s.(status := Failed, attempts := s.attempts + 1, log := s.log + [Start(job, 1)])
  {
    var started := FirstStart(max, NoHazard, s0, s, d, job);
    assert started.live - {d} == s.live;
    s' := FailForGood(max, NoHazard, s0, started, d, s.live);
  }

  /**
    A redelivery that loaded the row before others moved on writes a stale count, so a baseline that
    was already used comes back.
  */
  lemma StaleRedelivery(max: nat) returns (s: State)
    requires 2 <= max
    ensures s.status == Processing && s.attempts == 1 && s.lock.Free?
    ensures s.queued == {Job(0, 0), Job(1, 1)} && s.live == map[0 := Delivery(Job(0, 0), 2, Attempting)]
    ensures s.log == [Start(Job(0, 0), 1), Start(Job(1, 1), 1), Start(Job(0, 0), 2)]
    ensures Reaches(max, NoHazard, FRESH, s)
  {
    s := FailedFirstStart(max);
    ReachNext(max, NoHazard, FRESH, s, Redeliver(0));
    s := Next(max, s, Redeliver(0));
    assert s.live == map[0 := Delivery(Job(0, 0), 2, Loaded(0, Queued))];
    s := WholeRetry(max, FRESH, s, 1, Job(0, 0));
    s := RetryRequest(max, NoHazard, FRESH, s, 1);
    s := WholeRetry(max, FRESH, s, 1, Job(1, 1));
    ReachNext(max, NoHazard, FRESH, s, StartAttempt(0));
    s := Next(max, s, StartAttempt(0));
    assert s.live == map[0 := Delivery(Job(0, 0), 2, Attempting)];
  }

  lemma BaselineBreaks(max: nat) returns (s: State)
    requires 2 <= max
    ensures Reaches(max, NoHazard, FRESH, s) && !OncePerBaseline(s.log)
  {
    s := StaleRedelivery(max);
    s := FailForGood(max, NoHazard, FRESH, s, 0, map[]);
    assert s.log[1] == Start(Job(1, 1), 1);
    s := CountUpAndRepeat(max, NoHazard, FRESH, s, 0, 1);
  }

  /** The failed delivery waits for its second try while a second delivery of the job starts its first. */
  lemma TwoDeliveries(max: nat) returns (s: State)
    requires 2 <= max
    ensures Reaches(max, NoHazard, FRESH, s) && s.lock.Free?
    ensures s.live == map[0 := Delivery(Job(0, 0), 2, Waiting), 1 := Delivery(Job(0, 0), 1, Attempting)]
    ensures Starts(s.log, Job(0, 0)) == 1
  {
    var job := Job(0, 0);
    s := FailedFirstStart(max);
    s := FirstStart(max, NoHazard, FRESH, s, 1, job);
    Logged([], Start(job, 1));
    assert s.log == [] + [Start(job, 1)];
  }

  lemma BoundBreaks(max: nat) returns (s: State)
    requires 2 <= max
    ensures Reaches(max, NoHazard, FRESH, s) && !Bounded(max, s.log)
  {
    s := TwoDeliveries(max);
    s := UseUpTries(max, NoHazard, FRESH, s, 1);
    assert s.live[0] == Delivery(Job(0, 0), 2, Waiting);
    s := OneMoreStart(max, NoHazard, FRESH, s, 0);
    assert Starts(s.log, Job(0, 0)) == max + 1;
  }
}
