/** Exactly when retries stay exclusive, start once per baseline and stay within the configured tries. */
module RetryGuarantees {
  import opened Tables
  import opened RetryProtocol
  import opened RetryRuns

  // Exclusive retries.

  lemma {:induction false} RunKeepsInvariant(max: nat, ss: seq<State>, es: seq<Event>, i: nat)
    requires 1 <= max && Run(max, ss, es) && i < |ss| && Avoids(max, FirstStartFails, ss, es)
    ensures Invariant(max, ss[0].attempts, ss[i])
  {
    if i == 0 {
      assert forall job :: Starts(ss[0].log, job) == 0;
    } else {
      RunKeepsInvariant(max, ss, es, i - 1);
      StepKeepsInvariant(max, ss[0].attempts, ss[i - 1], es[i - 1]);
    }
  }

  /**
    As long as no first delivery fails to start its attempt: one retry job at a time, one first start
    per baseline, at most `max` attempts per job, a retry request refused meanwhile, and an attempt
    count that has grown by exactly the attempts started.
  */
  lemma RetriesAreExclusive(max: nat, ss: seq<State>, es: seq<Event>, i: nat)
    requires 1 <= max && Run(max, ss, es) && i < |ss| && Avoids(max, FirstStartFails, ss, es)
    ensures var s := ss[i];
            && Exclusive(s) && OncePerBaseline(s.log) && Bounded(max, s.log)
            && s.attempts == ss[0].attempts + |s.log|
            && (s.live != map[] && Enabled(s, Claim) ==> Next(max, s, Claim) == s)
  {
    RunKeepsInvariant(max, ss, es, i);
    assert forall d :: d in ss[i].live ==> DeliveryOk(max, ss[i], d);
    if ss[i].live != map[] {
      var d :| d in ss[i].live;
    }
  }

  /** A first delivery that cannot start leaves the row unlocked and still queued while it waits. */
  lemma FailedStartIsNotExclusive(max: nat, a0: nat, s: State, e: Event)
    requires Invariant(max, a0, s) && Enabled(s, e) && FirstStartFails(max, s, e)
    ensures !Exclusive(Next(max, s, e))
  {
    assert DeliveryOk(max, s, e.delivery);
    assert e.delivery in Next(max, s, e).live;
  }

  lemma {:induction false} ExclusiveRunsStartWell(max: nat, ss: seq<State>, es: seq<Event>, n: nat)
    requires 1 <= max && Run(max, ss, es) && n <= |es|
    requires forall i :: 0 <= i < |ss| ==> Exclusive(ss[i])
    ensures Invariant(max, ss[0].attempts, ss[n])
    ensures forall i :: 0 <= i < n ==> !FirstStartFails(max, ss[i], es[i])
  {
    if n == 0 {
      assert forall job :: Starts(ss[0].log, job) == 0;
    } else {
      ExclusiveRunsStartWell(max, ss, es, n - 1);
      assert Enabled(ss[n - 1], es[n - 1]) && Exclusive(ss[n]);
      if FirstStartFails(max, ss[n - 1], es[n - 1]) {
        FailedStartIsNotExclusive(max, ss[0].attempts, ss[n - 1], es[n - 1]);
        assert false;
      }
      StepKeepsInvariant(max, ss[0].attempts, ss[n - 1], es[n - 1]);
    }
  }

  /** A run keeps its retries exclusive exactly when no first delivery that passed its check fails to start. */
  lemma ExclusiveExactlyWhenFirstStartsSucceed(max: nat, ss: seq<State>, es: seq<Event>)
    requires 1 <= max && Run(max, ss, es)
    ensures (forall i :: 0 <= i < |ss| ==> Exclusive(ss[i])) <==> Avoids(max, FirstStartFails, ss, es)
  {
    if Avoids(max, FirstStartFails, ss, es) {
      forall i | 0 <= i < |ss| ensures Exclusive(ss[i]) {
        RetriesAreExclusive(max, ss, es, i);
      }
    } else if forall i :: 0 <= i < |ss| ==> Exclusive(ss[i]) {
      ExclusiveRunsStartWell(max, ss, es, |es|);
    }
  }

  // Success.

  /** In any state of any run a successful attempt leaves COMPLETED, so a retry request right after it conflicts. */
  lemma RetryAfterSuccessConflicts(max: nat, s: State, d: nat)
    requires Enabled(s, AttemptSucceeds(d))
    ensures var done := Next(max, s, AttemptSucceeds(d));
      && done.status == Completed && d !in done.live && done.attempts == s.attempts && done.log == s.log
      && Enabled(done, Claim) && Next(max, done, Claim) == done
  {
  }

  lemma AtRestStays(max: nat, s: State, e: Event)
    requires s.status == Completed && s.lock.Free? && s.live == map[] && Enabled(s, e)
    ensures Next(max, s, e) == s
  {
  }

  /** While first starts succeed, a success is final: nothing in the rest of the run changes the conversation or starts an attempt. */
  lemma {:induction false} SuccessIsFinal(max: nat, ss: seq<State>, es: seq<Event>, i: nat, j: nat)
    requires 1 <= max && Run(max, ss, es) && Avoids(max, FirstStartFails, ss, es)
    requires i < j < |ss| && es[i].AttemptSucceeds?
    ensures ss[j] == ss[i].(status := Completed, live := map[])
    decreases j - i
  {
    assert Enabled(ss[j - 1], es[j - 1]) && ss[j] == Next(max, ss[j - 1], es[j - 1]);
    assert Enabled(ss[i], es[i]);
    if j == i + 1 {
      RunKeepsInvariant(max, ss, es, i);
      assert ss[i].live - {es[i].delivery} == map[];
    } else {
      SuccessIsFinal(max, ss, es, i, j - 1);
      AtRestStays(max, ss[j - 1], es[j - 1]);
    }
  }

  // What every run keeps, whatever fails.

  ghost predicate PhasesOk(max: nat, s: State) {
    forall d :: d in s.live ==>
      var x := s.live[d];
      && 1 <= x.tries <= max
      && (x.phase.Checked? ==> s.lock == Worker(d) && s.attempts == x.job.baseline && x.tries == 1)
      && (x.phase.Waiting? || x.phase.Loaded? ==> 2 <= x.tries)
      && (x.phase.Exhausted? ==> x.tries == max)
  }

  lemma StepKeepsPhases(max: nat, s: State, e: Event)
    requires 1 <= max && PhasesOk(max, s) && Enabled(s, e)
    ensures PhasesOk(max, Next(max, s, e))
  {
  }

  lemma {:induction false} RunKeepsPhases(max: nat, ss: seq<State>, es: seq<Event>, i: nat)
    requires 1 <= max && Run(max, ss, es) && i < |ss|
    ensures PhasesOk(max, ss[i])
  {
    if i > 0 {
      RunKeepsPhases(max, ss, es, i - 1);
      StepKeepsPhases(max, ss[i - 1], es[i - 1]);
    }
  }

  // Once per baseline.

  /** The attempt count is beyond every baseline that a first delivery has started from, and none was used twice. */
  ghost predicate Ahead(s: State) {
    && OncePerBaseline(s.log)
    && forall k :: 0 <= k < |s.log| && s.log[k].tries == 1 ==> s.log[k].job.baseline < s.attempts
  }

  lemma StepStaysAhead(max: nat, s: State, e: Event)
    requires PhasesOk(max, s) && Ahead(s) && Enabled(s, e) && !Regresses(max, s, e)
    ensures Ahead(Next(max, s, e))
  {
  }

  lemma {:induction false} PathStaysAhead(max: nat, ss: seq<State>, es: seq<Event>, i: nat)
    requires 1 <= max && Path(max, Regresses, ss, es) && i < |ss| && PhasesOk(max, ss[0]) && Ahead(ss[0])
    ensures PhasesOk(max, ss[i]) && Ahead(ss[i])
  {
    if i > 0 {
      PathStaysAhead(max, ss, es, i - 1);
      StepKeepsPhases(max, ss[i - 1], es[i - 1]);
      StepStaysAhead(max, ss[i - 1], es[i - 1]);
    }
  }

  /** After a start that goes back below a used baseline, retries alone lead to a second first start from it. */
  lemma RegressionIsFatal(max: nat, s: State, e: Event) returns (s': State)
    requires PhasesOk(max, s) && Enabled(s, e) && Regresses(max, s, e)
    ensures Reaches(max, Regresses, Next(max, s, e), s') && !OncePerBaseline(s'.log)
  {
    var k :| 0 <= k < |s.log| && s.log[k].tries == 1 && s.live[e.delivery].phase.attempts < s.log[k].job.baseline;
    var started := Next(max, s, e);
    ReachStart(max, Regresses, started);
    var failed := FailForGood(max, Regresses, started, started, e.delivery, started.live - {e.delivery});
    assert failed.log[k] == s.log[k];
    s' := CountUpAndRepeat(max, Regresses, started, failed, e.delivery, k);
  }

  ghost predicate StaysOncePerBaseline(max: nat, s: State) {
    forall s' :: Reaches(max, Regresses, s, s') ==> OncePerBaseline(s'.log)
  }

  /**
    A run avoids regressing starts exactly when, from each of its states, first deliveries start at most once
    per baseline for as long as no regressing start follows.
  */
  lemma OncePerBaselineExactlyWhen(max: nat, ss: seq<State>, es: seq<Event>)
    requires 1 <= max && Run(max, ss, es)
    ensures (forall i :: 0 <= i < |ss| ==> StaysOncePerBaseline(max, ss[i])) <==> Avoids(max, Regresses, ss, es)
  {
    if Avoids(max, Regresses, ss, es) {
      forall i, s' | 0 <= i < |ss| && Reaches(max, Regresses, ss[i], s') ensures OncePerBaseline(s'.log) {
        PathStaysAhead(max, ss, es, i);
        var ts, fs :| Path(max, Regresses, ts, fs) && ts[0] == ss[i] && ts[|fs|] == s';
        PathStaysAhead(max, ts, fs, |fs|);
      }
    } else {
      var i :| 0 <= i < |es| && Regresses(max, ss[i], es[i]);
      RunKeepsPhases(max, ss, es, i);
      var s' := RegressionIsFatal(max, ss[i], es[i]);
      assert !StaysOncePerBaseline(max, ss[i + 1]);
    }
  }

  /** It is enough that no redelivery starts with a count that is no longer the row's. */
  lemma {:induction false} FreshStartsDoNotRegress(max: nat, ss: seq<State>, es: seq<Event>, n: nat)
    requires 1 <= max && Run(max, ss, es) && n <= |es| && Avoids(max, StaleStart, ss, es)
    ensures PhasesOk(max, ss[n]) && Ahead(ss[n])
    ensures forall i :: 0 <= i < n ==> !Regresses(max, ss[i], es[i])
  {
    if n > 0 {
      FreshStartsDoNotRegress(max, ss, es, n - 1);
      assert Enabled(ss[n - 1], es[n - 1]) && !StaleStart(max, ss[n - 1], es[n - 1]);
      StepKeepsPhases(max, ss[n - 1], es[n - 1]);
      StepStaysAhead(max, ss[n - 1], es[n - 1]);
    }
  }

  // At most the configured attempts.

  predicate SharedJob(max: nat, s: State, d: nat, d': nat) {
    && d in s.live && d' in s.live && s.live[d].job == s.live[d'].job
    && Spent(s.live[d]) < max && Spent(s.live[d']) < max
  }

  /** A delivery with tries left is the only one of its job, and its job has started no more than it has spent. */
  ghost predicate Budgeted(max: nat, s: State) {
    && (forall d :: d in s.live && Spent(s.live[d]) < max ==> Starts(s.log, s.live[d].job) <= Spent(s.live[d]))
    && (forall d, d' :: SharedJob(max, s, d, d') ==> d == d')
    && Bounded(max, s.log)
  }

  lemma StartKeepsBudget(max: nat, s: State, d: nat)
    requires PhasesOk(max, s) && Budgeted(max, s) && Enabled(s, StartAttempt(d))
    ensures Budgeted(max, Started(s, d))
  {
    Logged(s.log, Start(s.live[d].job, s.live[d].tries));
    var s' := Started(s, d);
    forall x, y | SharedJob(max, s', x, y) ensures x == y {
      assert SharedJob(max, s, x, y);
    }
    forall x | x in s'.live && Spent(s'.live[x]) < max && x != d ensures s'.live[x].job != s.live[d].job {
      assert SharedJob(max, s, x, d) <==> s.live[x].job == s.live[d].job;
    }
  }

  lemma AcceptanceKeepsBudget(max: nat, s: State, e: Event)
    requires Budgeted(max, s) && Enabled(s, e) && Accepts(s, e) && !Overcommits(max, s, e)
    ensures Budgeted(max, Next(max, s, e))
  {
    var s' := Next(max, s, e);
    forall d, d' | SharedJob(max, s', d, d') ensures d == d' {
      if d != e.delivery && d' != e.delivery {
        assert SharedJob(max, s, d, d');
      }
    }
  }

  /** A step that starts nothing and accepts nothing leaves each delivery as it was, or with no more tries. */
  lemma OtherStepKeepsBudget(max: nat, s: State, e: Event)
    requires PhasesOk(max, s) && Budgeted(max, s) && Enabled(s, e) && !e.StartAttempt? && !Accepts(s, e)
    ensures Budgeted(max, Next(max, s, e))
  {
    var s' := Next(max, s, e);
    forall d | d in s'.live
      ensures d in s.live && s'.live[d].job == s.live[d].job
      ensures Spent(s.live[d]) <= Spent(s'.live[d]) || Spent(s'.live[d]) == max
    {
    }
    forall d, d' | SharedJob(max, s', d, d') ensures d == d' {
      assert SharedJob(max, s, d, d');
    }
  }

  lemma StepKeepsBudget(max: nat, s: State, e: Event)
    requires PhasesOk(max, s) && Budgeted(max, s) && Enabled(s, e) && !Overcommits(max, s, e)
    ensures Budgeted(max, Next(max, s, e))
  {
    if e.StartAttempt? {
      StartKeepsBudget(max, s, e.delivery);
    } else if Accepts(s, e) {
      AcceptanceKeepsBudget(max, s, e);
    } else {
      OtherStepKeepsBudget(max, s, e);
    }
  }

  lemma {:induction false} PathKeepsBudget(max: nat, ss: seq<State>, es: seq<Event>, i: nat)
    requires 1 <= max && Path(max, Overcommits, ss, es) && i < |ss| && PhasesOk(max, ss[0]) && Budgeted(max, ss[0])
    ensures PhasesOk(max, ss[i]) && Budgeted(max, ss[i])
  {
    if i > 0 {
      PathKeepsBudget(max, ss, es, i - 1);
      StepKeepsPhases(max, ss[i - 1], es[i - 1]);
      StepKeepsBudget(max, ss[i - 1], es[i - 1]);
    }
  }

  /** After such an acceptance, failures alone lead to one attempt too many. */
  lemma OvercommitmentIsFatal(max: nat, s: State, e: Event) returns (s': State)
    requires 1 <= max && PhasesOk(max, s) && Enabled(s, e) && Overcommits(max, s, e)
    ensures Reaches(max, Overcommits, Next(max, s, e), s') && !Bounded(max, s'.log)
  {
    s' := AcceptedUsesUpTries(max, s, e);
    if Starts(s.log, e.job) == 0 {
      var d :| d in s.live && s.live[d].job == e.job && Spent(s.live[d]) < max;
      assert s'.live[d] == s.live[d];
      s' := OneMoreStart(max, Overcommits, Next(max, s, e), s', d);
    }
    assert Starts(s'.log, e.job) > max;
  }

  lemma AcceptedUsesUpTries(max: nat, s: State, e: Event) returns (s': State)
    requires 1 <= max && Enabled(s, e) && Accepts(s, e)
    ensures Reaches(max, Overcommits, Next(max, s, e), s') && s'.lock.Free?
    ensures s'.live == s.live[e.delivery := Delivery(e.job, max, Attempting)]
    ensures Starts(s'.log, e.job) == Starts(s.log, e.job) + max
  {
    var d, j := e.delivery, e.job;
    var accepted := Next(max, s, e);
    assert accepted == s.(live := s.live[d := Delivery(j, 1, Checked)], lock := Worker(d));
    ReachStart(max, Overcommits, accepted);
    ReachNext(max, Overcommits, accepted, accepted, StartAttempt(d));
    var started := Started(accepted, d);
    assert started.live == s.live[d := Delivery(j, 1, Attempting)] && started.log == s.log + [Start(j, 1)];
    Logged(s.log, Start(j, 1));
    s' := UseUpTries(max, Overcommits, accepted, started, d);
  }

  ghost predicate StaysBounded(max: nat, s: State) {
    forall s' :: Reaches(max, Overcommits, s, s') ==> Bounded(max, s'.log)
  }

  /**
    A run avoids overcommitting acceptances exactly when, from each of its states, no job starts more than
    `max` attempts for as long as no overcommitting acceptance follows.
  */
  lemma BoundedExactlyWhen(max: nat, ss: seq<State>, es: seq<Event>)
    requires 1 <= max && Run(max, ss, es)
    ensures (forall i :: 0 <= i < |ss| ==> StaysBounded(max, ss[i])) <==> Avoids(max, Overcommits, ss, es)
  {
    assert forall job :: Starts(ss[0].log, job) == 0;
    if Avoids(max, Overcommits, ss, es) {
      forall i, s' | 0 <= i < |ss| && Reaches(max, Overcommits, ss[i], s') ensures Bounded(max, s'.log) {
        PathKeepsBudget(max, ss, es, i);
        var ts, fs :| Path(max, Overcommits, ts, fs) && ts[0] == ss[i] && ts[|fs|] == s';
        PathKeepsBudget(max, ts, fs, |fs|);
      }
    } else {
      var i :| 0 <= i < |es| && Overcommits(max, ss[i], es[i]);
      RunKeepsPhases(max, ss, es, i);
      var s' := OvercommitmentIsFatal(max, ss[i], es[i]);
      assert !StaysBounded(max, ss[i + 1]);
    }
  }

  ghost predicate AcceptedBefore(ss: seq<State>, es: seq<Event>, n: nat, job: Job)
    requires n <= |es| <= |ss|
  {
    exists i :: 0 <= i < n && Accepts(ss[i], es[i]) && es[i].job == job
  }

  ghost predicate AcceptedOnce(ss: seq<State>, es: seq<Event>)
    requires |es| <= |ss|
  {
    forall i, j :: 0 <= i < j < |es| && Accepts(ss[i], es[i]) && Accepts(ss[j], es[j]) ==> es[i].job != es[j].job
  }

  /** Only accepted jobs have deliveries and start attempts. */
  lemma {:induction false} OnlyAcceptedJobsWork(max: nat, ss: seq<State>, es: seq<Event>, n: nat)
    requires Run(max, ss, es) && n <= |es|
    ensures forall d :: d in ss[n].live ==> AcceptedBefore(ss, es, n, ss[n].live[d].job)
    ensures forall k :: 0 <= k < |ss[n].log| ==> AcceptedBefore(ss, es, n, ss[n].log[k].job)
  {
    if n > 0 {
      OnlyAcceptedJobsWork(max, ss, es, n - 1);
      var s, e := ss[n - 1], es[n - 1];
      assert Enabled(s, e) && ss[n] == Next(max, s, e);
      assert forall job :: AcceptedBefore(ss, es, n - 1, job) ==> AcceptedBefore(ss, es, n, job);
      assert Accepts(s, e) ==> AcceptedBefore(ss, es, n, e.job);
    }
  }

  /** It is enough that no job passes the check of a first delivery twice. */
  lemma AcceptedOnceIsBounded(max: nat, ss: seq<State>, es: seq<Event>)
    requires 1 <= max && Run(max, ss, es) && AcceptedOnce(ss, es)
    ensures Avoids(max, Overcommits, ss, es)
    ensures forall i :: 0 <= i < |ss| ==> Bounded(max, ss[i].log)
  {
    forall i | 0 <= i < |es| ensures !Overcommits(max, ss[i], es[i]) {
      OnlyAcceptedJobsWork(max, ss, es, i);
      if Accepts(ss[i], es[i]) {
        assert !AcceptedBefore(ss, es, i, es[i].job);
        NoStartsAbove(ss[i].log, es[i].job);
      }
    }
    BoundedExactlyWhen(max, ss, es);
    forall i | 0 <= i < |ss| ensures Bounded(max, ss[i].log) {
      ReachStart(max, Overcommits, ss[i]);
    }
  }

  // Neither hazard arises without a failing first start, nor with a single try per job.

  lemma InvariantExcludesHazards(max: nat, a0: nat, s: State, e: Event)
    requires Invariant(max, a0, s) && Enabled(s, e)
    ensures !Regresses(max, s, e) && !Overcommits(max, s, e)
  {
    if Accepts(s, e) {
      NoStartsAbove(s.log, e.job);
    } else if e.StartAttempt? {
      assert DeliveryOk(max, s, e.delivery);
    }
  }

  lemma CleanStartsExcludeHazards(max: nat, ss: seq<State>, es: seq<Event>)
    requires 1 <= max && Run(max, ss, es) && Avoids(max, FirstStartFails, ss, es)
    ensures Avoids(max, Regresses, ss, es) && Avoids(max, Overcommits, ss, es)
  {
    forall i | 0 <= i < |es| ensures !Regresses(max, ss[i], es[i]) && !Overcommits(max, ss[i], es[i]) {
      RunKeepsInvariant(max, ss, es, i);
      InvariantExcludesHazards(max, ss[0].attempts, ss[i], es[i]);
    }
  }

  ghost predicate OnlyFirstTries(s: State) {
    PhasesOk(1, s) && Ahead(s) && forall k :: 0 <= k < |s.log| ==> s.log[k].tries == 1
  }

  lemma FirstTriesExcludeHazards(s: State, e: Event)
    requires OnlyFirstTries(s) && Enabled(s, e)
    ensures !Regresses(1, s, e) && !Overcommits(1, s, e)
  {
    if Accepts(s, e) {
      NoStartsAbove(s.log, e.job);
    }
  }

  lemma {:induction false} SingleTriesExcludeHazards(ss: seq<State>, es: seq<Event>, n: nat)
    requires Run(1, ss, es) && n <= |es|
    ensures OnlyFirstTries(ss[n])
    ensures forall i :: 0 <= i < n ==> !Regresses(1, ss[i], es[i]) && !Overcommits(1, ss[i], es[i])
  {
    if n > 0 {
      SingleTriesExcludeHazards(ss, es, n - 1);
      FirstTriesExcludeHazards(ss[n - 1], es[n - 1]);
      StepKeepsPhases(1, ss[n - 1], es[n - 1]);
      StepStaysAhead(1, ss[n - 1], es[n - 1]);
    }
  }
}
