/** Transition alerts: saturating counters per signal code, and what they say about the whole history. */
module Monitoring {
  import opened Results
  import opened Numbers

  type Code = nat

  /** Some(true) is unhealthy, Some(false) healthy and None unknown. */
  type Observation = Option<bool>

  datatype Incident = Incident(bad: nat, good: nat, sent: bool)

  const QUIET := Incident(0, 0, false)

  datatype Delivery = Disabled | Failed | Accepted

  datatype Event = Event(code: Code, firing: bool, delivery: Delivery)

  /** One observation of one code and what becomes of a notification that it may cause. */
  datatype Sample = Sample(seen: Observation, delivery: Delivery)

  /** The counters and the flag after an observation; the event is the transition that is due, if any. */
  function Observe(n: nat, i: Incident, x: Sample): (Incident, Option<bool>) {
    match x.seen
    case None => (Incident(0, 0, i.sent), None)
    case Some(unhealthy) =>
      var bad := if unhealthy then Min(i.bad + 1, n) else 0;
      var good := if unhealthy then 0 else Min(i.good + 1, n);
      var firing := unhealthy && bad >= n && !i.sent;
      var recovery := !unhealthy && good >= n && i.sent;
      if firing || recovery
      then (Incident(bad, good, if x.delivery.Accepted? then firing else i.sent), Some(firing))
      else (Incident(bad, good, i.sent), None)
  }

  function After(n: nat, h: seq<Sample>): Incident {
    if h == [] then QUIET else Observe(n, After(n, h[..|h| - 1]), h[|h| - 1]).0
  }

  lemma OneMoreSample(n: nat, h: seq<Sample>, x: Sample)
    ensures After(n, h + [x]) == Observe(n, After(n, h), x).0
  {
    assert (h + [x])[..|h|] == h;
  }

  /** The accepted events of a history: after how many observations, and whether firing. */
  function AcceptedEvents(n: nat, h: seq<Sample>): seq<(nat, bool)> {
    if h == [] then []
    else
      var due := Observe(n, After(n, h[..|h| - 1]), h[|h| - 1]).1;
      AcceptedEvents(n, h[..|h| - 1]) +
      if due.Some? && h[|h| - 1].delivery.Accepted? then [(|h|, due.value)] else []
  }

  /** The last `n` of the first `k` observations all say `unhealthy`. */
  ghost predicate Window(n: nat, h: seq<Sample>, unhealthy: bool, k: nat) {
    n <= k <= |h| && forall i :: k - n <= i < k ==> h[i].seen == Some(unhealthy)
  }

  function Trailing(h: seq<Sample>, unhealthy: bool): nat {
    if h == [] || h[|h| - 1].seen != Some(unhealthy) then 0 else Trailing(h[..|h| - 1], unhealthy) + 1
  }

  lemma {:induction false} TrailingWindow(n: nat, h: seq<Sample>, unhealthy: bool)
    ensures Trailing(h, unhealthy) >= n <==> Window(n, h, unhealthy, |h|)
  {
    if h == [] || n == 0 {
    } else if h[|h| - 1].seen != Some(unhealthy) {
    } else {
      TrailingWindow(n - 1, h[..|h| - 1], unhealthy);
    }
  }

  /** The counters saturate the lengths of the two trailing runs. */
  lemma {:induction false} CountersAreTrailingRuns(n: nat, h: seq<Sample>)
    ensures After(n, h).bad == Min(n, Trailing(h, true))
    ensures After(n, h).good == Min(n, Trailing(h, false))
  {
    if h != [] {
      CountersAreTrailingRuns(n, h[..|h| - 1]);
    }
  }

  /** A transition is due exactly when a full window disagrees with what was last accepted. */
  lemma DueExactlyWhen(n: nat, h: seq<Sample>, x: Sample)
    requires 1 <= n
    ensures var due := Observe(n, After(n, h), x).1;
            && (due == Some(true) <==> Window(n, h + [x], true, |h| + 1) && !After(n, h).sent)
            && (due == Some(false) <==> Window(n, h + [x], false, |h| + 1) && After(n, h).sent)
  {
    CountersAreTrailingRuns(n, h);
    var h' := h + [x];
    assert h'[..|h|] == h;
    TrailingWindow(n, h', true);
    TrailingWindow(n, h', false);
  }

  /** The latest full window of the whole history is unhealthy. */
  ghost predicate LatestWindowUnhealthy(n: nat, h: seq<Sample>) {
    exists k :: 0 <= k <= |h| && Window(n, h, true, k) && forall j :: k < j <= |h| ==> !Window(n, h, false, j)
  }

  ghost predicate Reliable(h: seq<Sample>) {
    forall i :: 0 <= i < |h| ==> h[i].delivery.Accepted?
  }

  lemma WindowOfPrefix(n: nat, h: seq<Sample>, unhealthy: bool, k: nat)
    requires h != [] && k < |h|
    ensures Window(n, h, unhealthy, k) <==> Window(n, h[..|h| - 1], unhealthy, k)
  {
  }

  /** The new window decides; without one, the verdict of the history before it stands. */
  lemma LatestWindowStep(n: nat, h: seq<Sample>)
    requires 1 <= n && h != []
    ensures LatestWindowUnhealthy(n, h) <==>
              Window(n, h, true, |h|) || (!Window(n, h, false, |h|) && LatestWindowUnhealthy(n, h[..|h| - 1]))
  {
    var h0 := h[..|h| - 1];
    forall k: nat, v | k < |h| ensures Window(n, h, v, k) <==> Window(n, h0, v, k) {
      WindowOfPrefix(n, h, v, k);
    }
    if Window(n, h, true, |h|) {
      assert LatestWindowUnhealthy(n, h);
    } else if LatestWindowUnhealthy(n, h) {
      var k :| 0 <= k <= |h| && Window(n, h, true, k) && forall j :: k < j <= |h| ==> !Window(n, h, false, j);
      assert Window(n, h0, true, k);
    }
  }

  /** With every delivery accepted, the counters and the flag implement the definition over the whole history. */
  lemma {:induction false} SentIsLatestWindow(n: nat, h: seq<Sample>)
    requires 1 <= n && Reliable(h)
    ensures After(n, h).sent <==> LatestWindowUnhealthy(n, h)
  {
    if h == [] {
    } else {
      var h0, x := h[..|h| - 1], h[|h| - 1];
      assert h0 + [x] == h;
      SentIsLatestWindow(n, h0);
      DueExactlyWhen(n, h0, x);
      LatestWindowStep(n, h);
    }
  }

  ghost predicate Alternating(n: nat, h: seq<Sample>, events: seq<(nat, bool)>) {
    && (forall i :: 0 <= i < |events| ==> events[i].1 == (i % 2 == 0) && Window(n, h, events[i].1, events[i].0))
    && (forall i, j :: 0 <= i < j < |events| ==> events[i].0 < events[j].0)
  }

  lemma AlternatingLonger(n: nat, h: seq<Sample>, events: seq<(nat, bool)>)
    requires h != [] && Alternating(n, h[..|h| - 1], events)
    ensures Alternating(n, h, events)
    ensures forall i :: 0 <= i < |events| ==> events[i].0 < |h|
  {
    forall i | 0 <= i < |events| ensures Window(n, h, events[i].1, events[i].0) {
      assert Window(n, h[..|h| - 1], events[i].1, events[i].0);
      WindowOfPrefix(n, h, events[i].1, events[i].0);
    }
  }

  /** However deliveries fail, accepted events alternate from firing, each at the end of a full matching window. */
  lemma {:induction false} AcceptedEventsAlternate(n: nat, h: seq<Sample>)
    requires 1 <= n
    ensures Alternating(n, h, AcceptedEvents(n, h))
    ensures After(n, h).sent == (|AcceptedEvents(n, h)| % 2 == 1)
  {
    if h != [] {
      var h0, x := h[..|h| - 1], h[|h| - 1];
      assert h0 + [x] == h;
      AcceptedEventsAlternate(n, h0);
      DueExactlyWhen(n, h0, x);
      AlternatingLonger(n, h, AcceptedEvents(n, h0));
      if Observe(n, After(n, h0), x).1.Some? && x.delivery.Accepted? {
        AlternatingOnceMore(n, h, AcceptedEvents(n, h0), After(n, h).sent);
      }
    }
  }

  lemma AlternatingOnceMore(n: nat, h: seq<Sample>, events: seq<(nat, bool)>, firing: bool)
    requires Alternating(n, h, events) && forall i :: 0 <= i < |events| ==> events[i].0 < |h|
    requires firing == (|events| % 2 == 0) && Window(n, h, firing, |h|)
    ensures Alternating(n, h, events + [(|h|, firing)])
  {
  }

  function HistoryIn(history: map<Code, seq<Sample>>, code: Code): seq<Sample> {
    if code in history then history[code] else []
  }

  /** Polls append one sample to the history of every code they list. */
  function Recorded(history: map<Code, seq<Sample>>, signals: seq<(Code, Sample)>): map<Code, seq<Sample>> {
    if signals == [] then history
    else
      var before := Recorded(history, signals[..|signals| - 1]);
      var (code, x) := signals[|signals| - 1];
      before[code := HistoryIn(before, code) + [x]]
  }

  /** The notifications of one poll, in the order of its codes. */
  function EventsOf(n: nat, history: map<Code, seq<Sample>>, signals: seq<(Code, Sample)>): seq<Event> {
    if signals == [] then []
    else
      var before := signals[..|signals| - 1];
      var (code, x) := signals[|signals| - 1];
      var due := Observe(n, After(n, HistoryIn(Recorded(history, before), code)), x).1;
      EventsOf(n, history, before) + if due.Some? then [Event(code, due.value, x.delivery)] else []
  }

  lemma NextSignal(n: nat, history: map<Code, seq<Sample>>, signals: seq<(Code, Sample)>, i: nat)
    requires i < |signals|
    ensures var before, (code, x) := Recorded(history, signals[..i]), signals[i];
            && Recorded(history, signals[..i + 1]) == before[code := HistoryIn(before, code) + [x]]
            && var due := Observe(n, After(n, HistoryIn(before, code)), x).1;
               EventsOf(n, history, signals[..i + 1]) ==
               EventsOf(n, history, signals[..i]) + if due.Some? then [Event(code, due.value, x.delivery)] else []
  {
    assert signals[..i + 1][..i] == signals[..i];
  }

  predicate Lists(signals: seq<(Code, Sample)>, code: Code) {
    exists i :: 0 <= i < |signals| && signals[i].0 == code
  }

  lemma RecordedLast(history: map<Code, seq<Sample>>, signals: seq<(Code, Sample)>, code: Code)
    requires signals != []
    ensures var before, last := Recorded(history, signals[..|signals| - 1]), signals[|signals| - 1];
      HistoryIn(Recorded(history, signals), code) == HistoryIn(before, code) + if last.0 == code then [last.1] else []
  {
  }

  /** Codes do not disturb each other: each history grows by its own sample only. */
  lemma {:induction false} CodesAreIndependent(history: map<Code, seq<Sample>>, signals: seq<(Code, Sample)>, code: Code)
    requires forall i, j :: 0 <= i < j < |signals| ==> signals[i].0 != signals[j].0
    ensures !Lists(signals, code) ==> HistoryIn(Recorded(history, signals), code) == HistoryIn(history, code)
    ensures forall i :: 0 <= i < |signals| && signals[i].0 == code ==>
              HistoryIn(Recorded(history, signals), code) == HistoryIn(history, code) + [signals[i].1]
  {
    if signals != [] {
      var before, last := signals[..|signals| - 1], signals[|signals| - 1];
      CodesAreIndependent(history, before, code);
      RecordedLast(history, signals, code);
      if last.0 == code {
        assert !Lists(before, code);
        assert signals[|signals| - 1].0 == code;
      } else if Lists(before, code) {
        var i :| 0 <= i < |before| && before[i].0 == code;
        assert signals[i].0 == code;
      }
    }
  }

  lemma LastSignal(n: nat, history: map<Code, seq<Sample>>, signals: seq<(Code, Sample)>)
    requires 1 <= n && signals != [] && forall i, j :: 0 <= i < j < |signals| ==> signals[i].0 != signals[j].0
    ensures var last, before := signals[|signals| - 1], EventsOf(n, history, signals[..|signals| - 1]);
      var h := HistoryIn(history, last.0);
      EventsOf(n, history, signals) == before +
        if Window(n, h + [last.1], true, |h| + 1) && !After(n, h).sent then [Event(last.0, true, last.1.delivery)]
        else if Window(n, h + [last.1], false, |h| + 1) && After(n, h).sent then [Event(last.0, false, last.1.delivery)]
        else []
  {
    var before, last := signals[..|signals| - 1], signals[|signals| - 1];
    CodesAreIndependent(history, before, last.0);
    assert !Lists(before, last.0);
    DueExactlyWhen(n, HistoryIn(history, last.0), last.1);
  }

  lemma {:induction false} OnlyListedCodesNotify(n: nat, history: map<Code, seq<Sample>>, signals: seq<(Code, Sample)>)
    ensures forall e :: e in EventsOf(n, history, signals) ==> Lists(signals, e.code)
  {
    if signals != [] {
      OnlyListedCodesNotify(n, history, signals[..|signals| - 1]);
      assert forall c :: Lists(signals[..|signals| - 1], c) ==> Lists(signals, c);
      assert signals[|signals| - 1].0 == signals[|signals| - 1].0;
    }
  }

  /**
    In a poll over distinct codes a code notifies exactly when its latest full window disagrees with what was last
    accepted for it, and it says what that window says.
  */
  lemma {:induction false} NotifiesExactlyWhen(n: nat, history: map<Code, seq<Sample>>, signals: seq<(Code, Sample)>, i: nat, firing: bool)
    requires 1 <= n && i < |signals| && forall j, k :: 0 <= j < k < |signals| ==> signals[j].0 != signals[k].0
    ensures var (code, x) := signals[i];
      var h := HistoryIn(history, code);
      Event(code, firing, x.delivery) in EventsOf(n, history, signals) <==>
      Window(n, h + [x], firing, |h| + 1) && After(n, h).sent != firing
  {
    var before := signals[..|signals| - 1];
    LastSignal(n, history, signals);
    if i < |before| {
      NotifiesExactlyWhen(n, history, before, i, firing);
    } else {
      OnlyListedCodesNotify(n, history, before);
      assert !Lists(before, signals[i].0);
    }
  }

  /** What one observation does to one incident, and the transition that it makes due. */
  method Transition(n: nat, start: Incident, x: Sample) returns (incident: Incident, due: Option<bool>)
    ensures (incident, due) == Observe(n, start, x)
  {
    incident := start;
    if x.seen.None? {
      incident := incident.(bad := 0, good := 0);
      return incident, None;
    }
    var unhealthy := x.seen.value;
    incident := incident.(bad := if unhealthy then Min(incident.bad + 1, n) else 0,
                          good := if unhealthy then 0 else Min(incident.good + 1, n));
    var firing := unhealthy && incident.bad >= n && !incident.sent;
    var recovery := !unhealthy && incident.good >= n && incident.sent;
    if !firing && !recovery {
      return incident, None;
    }
    if x.delivery.Accepted? {
      incident := incident.(sent := firing);
    }
    due := Some(firing);
  }

  class Monitor {
    const n: nat
    var incidents: map<Code, Incident>
    ghost var history: map<Code, seq<Sample>>

    ghost predicate Valid()
      reads this
    {
      incidents.Keys == history.Keys && forall c :: c in incidents ==> incidents[c] == After(n, history[c])
    }

    constructor (n: nat)
      ensures Valid() && this.n == n && history == map[]
    {
      this.n, incidents, history := n, map[], map[];
    }

    method ProcessSignal(code: Code, x: Sample) returns (event: Option<Event>)
      requires Valid()
      modifies this
      ensures Valid()
      ensures history == old(history)[code := HistoryIn(old(history), code) + [x]]
      ensures var due := Observe(n, After(n, HistoryIn(old(history), code)), x).1;
              event == if due.Some? then Some(Event(code, due.value, x.delivery)) else None
    {
      var incident := if code in incidents then incidents[code] else QUIET;
      var due: Option<bool>;
      incident, due := Transition(n, incident, x);
      event := if due.Some? then Some(Event(code, due.value, x.delivery)) else None;
      ghost var h := HistoryIn(history, code);
      OneMoreSample(n, h, x);
      incidents, history := incidents[code := incident], history[code := h + [x]];
    }

    /** One poll: `signals` lists each code once, in order, with the fate of its notification. */
    method ProcessSignals(signals: seq<(Code, Sample)>) returns (events: seq<Event>)
      requires Valid()
      modifies this
      ensures Valid()
      ensures history == Recorded(old(history), signals)
      ensures events == EventsOf(n, old(history), signals)
    {
      events := [];
      var i := 0;
      while i < |signals|
        invariant 0 <= i <= |signals|
        invariant Valid()
        invariant history == Recorded(old(history), signals[..i])
        invariant events == EventsOf(n, old(history), signals[..i])
      {
        NextSignal(n, old(history), signals, i);
        var event := ProcessSignal(signals[i].0, signals[i].1);
        if event.Some? {
          events := events + [event.value];
        }
        i := i + 1;
      }
      assert signals[..i] == signals;
    }
  }

  // The aggregate heartbeat: one incident over all probes of a poll.

  datatype Poll = Poll(probes: map<Code, Observation>, delivered: bool)

  predicate AnyUnhealthy(p: Poll) {
    exists c :: c in p.probes && p.probes[c] == Some(true)
  }

  predicate AllHealthy(p: Poll) {
    p.probes != map[] && forall c :: c in p.probes ==> p.probes[c] == Some(false)
  }

  /** One unknown probe, or none at all, keeps a poll from being healthy; one unhealthy probe makes it unhealthy. */
  lemma HealthInProbes(p: Poll)
    ensures AllHealthy(p) <==>
      p.probes.Keys != {} && forall c :: c in p.probes ==> p.probes[c].Some? && !p.probes[c].value
    ensures AnyUnhealthy(p) <==> !forall c :: c in p.probes ==> p.probes[c].None? || !p.probes[c].value
    ensures !(AllHealthy(p) && AnyUnhealthy(p))
  {
  }

  /** The ping of one poll is a failure, a success or nothing. */
  function Beat(n: nat, i: Incident, p: Poll): (Incident, Option<bool>) {
    var bad := if AnyUnhealthy(p) then Min(i.bad + 1, n) else 0;
    var good := if AllHealthy(p) then Min(i.good + 1, n) else 0;
    var ping := if bad >= n then Some(true) else if good >= n then Some(false) else if i.sent then Some(true) else None;
    (Incident(bad, good, if ping.Some? && p.delivered then ping.value else i.sent), ping)
  }

  function AfterPolls(n: nat, h: seq<Poll>): Incident {
    if h == [] then QUIET else Beat(n, AfterPolls(n, h[..|h| - 1]), h[|h| - 1]).0
  }

  ghost predicate LastPollsUnhealthy(n: nat, h: seq<Poll>) {
    n <= |h| && forall i :: |h| - n <= i < |h| ==> AnyUnhealthy(h[i])
  }

  ghost predicate LastPollsHealthy(n: nat, h: seq<Poll>) {
    n <= |h| && forall i :: |h| - n <= i < |h| ==> AllHealthy(h[i])
  }

  /** A counter has reached `m` exactly when the last `m` polls all count. */
  lemma {:induction false} PollCounters(n: nat, h: seq<Poll>, m: nat)
    requires 1 <= m <= n
    ensures AfterPolls(n, h).bad >= m <==> LastPollsUnhealthy(m, h)
    ensures AfterPolls(n, h).good >= m <==> LastPollsHealthy(m, h)
    decreases |h|
  {
    if h != [] {
      var h0 := h[..|h| - 1];
      if m > 1 {
        PollCounters(n, h0, m - 1);
        assert LastPollsUnhealthy(m, h) <==> AnyUnhealthy(h[|h| - 1]) && LastPollsUnhealthy(m - 1, h0);
        assert LastPollsHealthy(m, h) <==> AllHealthy(h[|h| - 1]) && LastPollsHealthy(m - 1, h0);
      }
    }
  }

  /**
    A healthy ping leaves exactly when every probe of each of the last `n` polls was known to be
    healthy; a failing one when those polls all had an unhealthy probe or an accepted failure awaits
    such a recovery.
  */
  lemma PingsExactlyWhen(n: nat, h: seq<Poll>, p: Poll)
    requires 1 <= n
    ensures var ping := Beat(n, AfterPolls(n, h), p).1;
            && (ping == Some(false) <==> LastPollsHealthy(n, h + [p]))
            && (ping == Some(true) <==>
                  LastPollsUnhealthy(n, h + [p]) || (AfterPolls(n, h).sent && !LastPollsHealthy(n, h + [p])))
  {
    var h' := h + [p];
    assert h'[..|h|] == h;
    PollCounters(n, h', n);
    if LastPollsHealthy(n, h') {
      assert AllHealthy(h'[|h|]);
    }
  }

  lemma OneMorePoll(n: nat, h: seq<Poll>, p: Poll)
    requires 1 <= n
    ensures AfterPolls(n, h + [p]) == Beat(n, AfterPolls(n, h), p).0
    ensures var ping := Beat(n, AfterPolls(n, h), p).1;
            && (ping == Some(false) <==> LastPollsHealthy(n, h + [p]))
            && (ping == Some(true) <==>
                  LastPollsUnhealthy(n, h + [p]) || (AfterPolls(n, h).sent && !LastPollsHealthy(n, h + [p])))
  {
    PingsExactlyWhen(n, h, p);
    assert (h + [p])[..|h|] == h;
  }

  class HealthMonitor {
    const n: nat
    var incident: Incident
    ghost var polls: seq<Poll>

    ghost predicate Valid()
      reads this
    {
      incident == AfterPolls(n, polls)
    }

    constructor (n: nat)
      ensures Valid() && this.n == n && polls == []
    {
      this.n, incident, polls := n, QUIET, [];
    }

    method ProcessHealthHeartbeat(p: Poll) returns (ping: Option<bool>)
      requires Valid() && 1 <= n
      modifies this
      ensures Valid() && polls == old(polls) + [p]
      ensures ping == Some(false) <==> LastPollsHealthy(n, polls)
      ensures ping == Some(true) <==> LastPollsUnhealthy(n, polls) || (old(incident).sent && !LastPollsHealthy(n, polls))
      ensures incident.sent == if ping.Some? && p.delivered then ping.value else old(incident).sent
    {
      OneMorePoll(n, polls, p);
      polls := polls + [p];
      incident := incident.(bad := if AnyUnhealthy(p) then Min(incident.bad + 1, n) else 0,
                            good := if AllHealthy(p) then Min(incident.good + 1, n) else 0);
      if incident.bad >= n {
        ping := Some(true);
      } else if incident.good >= n {
        ping := Some(false);
      } else if incident.sent {
        ping := Some(true);
      } else {
        return None;
      }
      if p.delivered {
        incident := incident.(sent := ping.value);
      }
    }
  }

  datatype HeartbeatStatus = NotConfigured | Withheld | Pinged | PingFailed

  /** The process heartbeat leaves only after a poll whose notifications were all accepted. */
  method Heartbeat(configured: bool, events: seq<Event>, delivered: bool) returns (r: HeartbeatStatus)
    ensures r == NotConfigured <==> !configured
    ensures r == Withheld <==> configured && exists i :: 0 <= i < |events| && events[i].delivery != Accepted
    ensures r == Pinged <==> configured && delivered && forall i :: 0 <= i < |events| ==> events[i].delivery == Accepted
  {
    if !configured {
      return NotConfigured;
    }
    var i := 0;
    while i < |events|
      invariant 0 <= i <= |events|
      invariant forall k :: 0 <= k < i ==> events[k].delivery == Accepted
    {
      if events[i].delivery != Accepted {
        return Withheld;
      }
      i := i + 1;
    }
    r := if delivered then Pinged else PingFailed;
  }
}
