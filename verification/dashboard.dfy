/** The dashboard: follow-ups that are due, ranked clients and recent activity, at one reading of the clock. */
module Dashboard {
  import opened Results
  import opened Ranking

  type Id = nat
  type Time = int

  const DAY := 86_400_000_000
  const FOLLOWUP_AFTER_DAYS := 7
  const SHOWN := 5

  datatype Kind = Complete | Snooze | RecordContact

  datatype Action = Action(id: Id, client: Id, kind: Kind, createdAt: Time, snoozedUntil: Option<Time>)

  /** A client with the upload times of its conversations; the name is already casefolded. */
  datatype Client = Client(id: Id, name: string, uploads: seq<Time>)

  // The latest action of each client.

  /** The query's order: per client, the newest first, ties by the larger id. */
  predicate NewestFirst(a: Action, b: Action) {
    || a.client < b.client
    || (a.client == b.client && a.createdAt > b.createdAt)
    || (a.client == b.client && a.createdAt == b.createdAt && a.id >= b.id)
  }

  ghost predicate IsLatest(a: Action, rows: seq<Action>) {
    && a in rows
    && forall b :: b in rows && b.client == a.client ==> b.createdAt < a.createdAt || (b.createdAt == a.createdAt && b.id <= a.id)
  }

  /** The row is the first one of its client. */
  predicate FirstOfClient(rows: seq<Action>, k: nat) {
    k < |rows| && forall j :: 0 <= j < k ==> rows[j].client != rows[k].client
  }

  lemma QueryOrderIsTotal()
    ensures Total(NewestFirst)
  {
  }

  lemma FirstIsLatest(table: seq<Action>, rows: seq<Action>, k: nat)
    requires Ordered(rows, NewestFirst) && FirstOfClient(rows, k)
    requires forall a :: a in rows <==> a in table
    ensures IsLatest(rows[k], table)
  {
    assert rows[k] in rows;
    forall b | b in table && b.client == rows[k].client
      ensures b.createdAt < rows[k].createdAt || (b.createdAt == rows[k].createdAt && b.id <= rows[k].id)
    {
      assert b in rows;
      var j :| 0 <= j < |rows| && rows[j] == b;
      assert j == k || NewestFirst(rows[k], rows[j]);
    }
  }

  ghost predicate FirstAmong(rows: seq<Action>, a: Action) {
    exists k :: 0 <= k < |rows| && FirstOfClient(rows, k) && rows[k] == a
  }

  /** Keeps the first row of each client. */
  method KeepFirst(rows: seq<Action>) returns (latest: map<Id, Action>)
    ensures forall a :: a in rows ==> a.client in latest
    ensures forall c :: c in latest ==> latest[c].client == c && FirstAmong(rows, latest[c])
  {
    latest := map[];
    var i := 0;
    while i < |rows|
      invariant 0 <= i <= |rows|
      invariant forall k :: 0 <= k < i ==> rows[k].client in latest
      invariant forall c :: c in latest ==> latest[c].client == c && FirstAmong(rows, latest[c])
    {
      var a := rows[i];
      if a.client !in latest {
        assert FirstOfClient(rows, i);
        latest := latest[a.client := a];
      }
      i := i + 1;
    }
  }

  method ListLatest(table: seq<Action>) returns (latest: map<Id, Action>)
    ensures forall c :: c in latest <==> exists a :: a in table && a.client == c
    ensures forall c :: c in latest ==> latest[c].client == c && IsLatest(latest[c], table)
  {
    var rows := SortBy(table, NewestFirst);
    QueryOrderIsTotal();
    SortKeeps(table, NewestFirst);
    latest := KeepFirst(rows);
    forall c | c in latest ensures IsLatest(latest[c], table) {
      var k :| 0 <= k < |rows| && FirstOfClient(rows, k) && rows[k] == latest[c];
      FirstIsLatest(table, rows, k);
    }
  }

  // Whether a follow-up is due.

  function Latest(uploads: seq<Time>): (r: Option<Time>)
    ensures r.None? <==> uploads == []
    ensures r.Some? ==> r.value in uploads && forall t :: t in uploads ==> t <= r.value
  {
    if uploads == [] then None
    else
      var rest := Latest(uploads[1..]);
      assert forall t :: t in uploads ==> t == uploads[0] || t in uploads[1..];
      if rest.Some? && rest.value > uploads[0] then rest else Some(uploads[0])
  }

  datatype State = State(suppressed: bool, contact: Option<Time>)

  function FollowupState(c: Client, latest: Option<Action>, now: Time): State {
    var uploaded := Latest(c.uploads);
    if latest.None? then State(false, uploaded)
    else
      var a := latest.value;
      if a.kind.Snooze? && a.snoozedUntil.Some? && a.snoozedUntil.value > now then State(true, uploaded)
      else
        var contact :=
          if a.kind.RecordContact? && (uploaded.None? || a.createdAt > uploaded.value) then Some(a.createdAt) else uploaded;
        State(a.kind.Complete? && (contact.None? || contact.value <= a.createdAt), contact)
  }

  /** The moments that count as contact: uploads, and a recorded contact when it is the latest action. */
  ghost predicate IsContact(c: Client, latest: Option<Action>, t: Time) {
    t in c.uploads || (latest.Some? && latest.value.kind.RecordContact? && t == latest.value.createdAt)
  }

  ghost predicate Suppressed(c: Client, latest: Option<Action>, now: Time) {
    && latest.Some?
    && (|| (latest.value.kind.Snooze? && latest.value.snoozedUntil.Some? && latest.value.snoozedUntil.value > now)
        || (latest.value.kind.Complete? && forall t :: t in c.uploads ==> t <= latest.value.createdAt))
  }

  /** The whole days that have passed, rounded down. */
  function Days(t: Time, now: Time): int {
    (now - t) / DAY
  }

  predicate Overdue(t: Time, now: Time) {
    t + 7 * 86_400_000_000 <= now
  }

  /** Seven days have passed since every contact there was. */
  ghost predicate NeedsFollowup(c: Client, latest: Option<Action>, now: Time) {
    && !Suppressed(c, latest, now)
    && forall t :: IsContact(c, latest, t) ==> Overdue(t, now)
  }

  predicate Due(c: Client, latest: Option<Action>, now: Time) {
    var s := FollowupState(c, latest, now);
    !s.suppressed && (s.contact.None? || Days(s.contact.value, now) >= FOLLOWUP_AFTER_DAYS)
  }

  lemma DueExactlyWhen(c: Client, latest: Option<Action>, now: Time)
    ensures FollowupState(c, latest, now).suppressed <==> Suppressed(c, latest, now)
    ensures Due(c, latest, now) <==> NeedsFollowup(c, latest, now)
  {
    var s := FollowupState(c, latest, now);
    if !s.suppressed {
      if s.contact.Some? {
        assert IsContact(c, latest, s.contact.value);
        assert forall t :: IsContact(c, latest, t) ==> t <= s.contact.value;
        WholeDays(s.contact.value, now);
      } else {
        assert forall t :: !IsContact(c, latest, t);
      }
    }
  }

  ghost predicate IsLatestContact(c: Client, latest: Option<Action>, t: Time) {
    IsContact(c, latest, t) && forall u :: IsContact(c, latest, u) ==> u <= t
  }

  /** What the follow-up text is about: the latest contact there was, if any. */
  lemma ContactIsTheLatest(c: Client, latest: Option<Action>, now: Time)
    requires !Suppressed(c, latest, now)
    ensures var contact := FollowupState(c, latest, now).contact;
      && (contact.None? <==> forall t :: !IsContact(c, latest, t))
      && (contact.Some? ==> IsLatestContact(c, latest, contact.value))
  {
    DueExactlyWhen(c, latest, now);
    assert c.uploads != [] ==> IsContact(c, latest, Latest(c.uploads).value);
    assert latest.Some? && latest.value.kind.RecordContact? ==> IsContact(c, latest, latest.value.createdAt);
  }

  lemma WholeDays(t: Time, now: Time)
    ensures Days(t, now) >= FOLLOWUP_AFTER_DAYS <==> Overdue(t, now)
    ensures t + Days(t, now) * 86_400_000_000 <= now < t + (Days(t, now) + 1) * 86_400_000_000
  {
    assert now - t == DAY * Days(t, now) + (now - t) % DAY;
  }

  // The builders.

  function LatestOf(latest: map<Id, Action>, c: Id): (r: Option<Action>)
    ensures r.None? <==> c !in latest
    ensures r.Some? ==> r.value == latest[c]
  {
    if c in latest then Some(latest[c]) else None
  }

  /** The clients whose follow-up is due, in the order of the list. */
  function DueClients(clients: seq<Client>, latest: map<Id, Action>, now: Time): seq<Client> {
    Gather(clients, IfDue(latest, now))
  }

  function IfDue(latest: map<Id, Action>, now: Time): Client -> seq<Client> {
    (c: Client) => if Due(c, LatestOf(latest, c.id), now) then [c] else []
  }

  datatype Followup = Schedule(name: string) | FollowUp(name: string, days: int)

  function FollowupFor(c: Client, latest: map<Id, Action>, now: Time): Followup {
    var s := FollowupState(c, LatestOf(latest, c.id), now);
    if s.contact.None? then Schedule(c.name) else FollowUp(c.name, Days(s.contact.value, now))
  }

  /** The text names the client and, when there was contact, the whole days since the latest. */
  lemma FollowupTextIs(c: Client, latest: map<Id, Action>, now: Time)
    requires !Suppressed(c, LatestOf(latest, c.id), now)
    ensures (forall t :: !IsContact(c, LatestOf(latest, c.id), t)) ==> FollowupFor(c, latest, now) == Schedule(c.name)
    ensures forall t :: IsLatestContact(c, LatestOf(latest, c.id), t) ==>
      FollowupFor(c, latest, now) == FollowUp(c.name, Days(t, now))
  {
    ContactIsTheLatest(c, LatestOf(latest, c.id), now);
  }

  /** The due clients of two lists in a row are those of the first, then those of the second. */
  lemma DueInListOrder(x: seq<Client>, y: seq<Client>, latest: map<Id, Action>, now: Time)
    ensures DueClients([], latest, now) == []
    ensures DueClients(x + y, latest, now) == DueClients(x, latest, now) + DueClients(y, latest, now)
  {
    GatherOfConcat(x, y, IfDue(latest, now));
  }

  lemma DueAlone(c: Client, latest: map<Id, Action>, now: Time)
    ensures DueClients([c], latest, now) == if NeedsFollowup(c, LatestOf(latest, c.id), now) then [c] else []
  {
    GatherAlone(c, IfDue(latest, now));
    DueExactlyWhen(c, LatestOf(latest, c.id), now);
  }

  method BuildFollowups(clients: seq<Client>, latest: map<Id, Action>, now: Time) returns (followups: seq<Followup>)
    ensures |followups| == if |DueClients(clients, latest, now)| < 5 then |DueClients(clients, latest, now)| else 5
    ensures forall i :: 0 <= i < |followups| ==> followups[i] == FollowupFor(DueClients(clients, latest, now)[i], latest, now)
  {
    followups := [];
    var i := 0;
    while i < |clients|
      invariant 0 <= i <= |clients|
      invariant |followups| == |DueClients(clients[..i], latest, now)|
      invariant forall k :: 0 <= k < |followups| ==>
        followups[k] == FollowupFor(DueClients(clients[..i], latest, now)[k], latest, now)
    {
      GatherNext(clients, i, IfDue(latest, now));
      var s := FollowupState(clients[i], LatestOf(latest, clients[i].id), now);
      i := i + 1;
      if s.suppressed {
        continue;
      }
      if s.contact.None? {
        followups := followups + [Schedule(clients[i - 1].name)];
        continue;
      }
      var days := Days(s.contact.value, now);
      if days >= FOLLOWUP_AFTER_DAYS {
        followups := followups + [FollowUp(clients[i - 1].name, days)];
      }
    }
    assert clients[..i] == clients;
    followups := Take(SHOWN, followups);
  }

  method CountDueFollowups(clients: seq<Client>, latest: map<Id, Action>, now: Time) returns (due: nat)
    ensures due == |DueClients(clients, latest, now)|
  {
    due := 0;
    var i := 0;
    while i < |clients|
      invariant 0 <= i <= |clients|
      invariant due == |DueClients(clients[..i], latest, now)|
    {
      GatherNext(clients, i, IfDue(latest, now));
      var s := FollowupState(clients[i], LatestOf(latest, clients[i].id), now);
      i := i + 1;
      if s.suppressed {
        continue;
      }
      if s.contact.None? {
        due := due + 1;
        continue;
      }
      if Days(s.contact.value, now) >= FOLLOWUP_AFTER_DAYS {
        due := due + 1;
      }
    }
    assert clients[..i] == clients;
  }

  lemma DueMembers(clients: seq<Client>, latest: map<Id, Action>, now: Time)
    ensures forall c :: c in DueClients(clients, latest, now) <==>
      c in clients && NeedsFollowup(c, LatestOf(latest, c.id), now)
  {
    GatherMembers(clients, IfDue(latest, now));
    forall c: Client ensures Due(c, LatestOf(latest, c.id), now) <==> NeedsFollowup(c, LatestOf(latest, c.id), now) {
      DueExactlyWhen(c, LatestOf(latest, c.id), now);
    }
  }

  // Priorities.

  datatype Priority = Failures(count: nat) | Start(client: Id) | Overlooked(client: Id, days: int)

  datatype Scored = Scored(score: int, priority: Priority)

  predicate HigherFirst(a: Scored, b: Scored) {
    a.score >= b.score
  }

  function PriorityFor(c: Client, latest: map<Id, Action>, now: Time): Scored {
    var s := FollowupState(c, LatestOf(latest, c.id), now);
    if s.contact.None? then Scored(0, Start(c.id))
    else Scored(Days(s.contact.value, now), Overlooked(c.id, Days(s.contact.value, now)))
  }

  function Scores(due: seq<Client>, latest: map<Id, Action>, now: Time): (r: seq<Scored>)
    ensures |r| == |due|
    ensures forall i :: 0 <= i < |r| ==> r[i] == PriorityFor(due[i], latest, now)
  {
    seq(|due|, i requires 0 <= i < |due| => PriorityFor(due[i], latest, now))
  }

  /** All candidates: the failures first, then one for each due client. */
  function PriorityCandidates(failed: nat, clients: seq<Client>, latest: map<Id, Action>, now: Time): (r: seq<Scored>)
    ensures |r| == |DueClients(clients, latest, now)| + if failed > 0 then 1 else 0
  {
    (if failed > 0 then [Scored(10_000, Failures(failed))] else []) +
    Scores(DueClients(clients, latest, now), latest, now)
  }

  /** A due client without contact scores 0; any other scores the whole days since its latest contact. */
  lemma PriorityIs(c: Client, latest: map<Id, Action>, now: Time)
    requires !Suppressed(c, LatestOf(latest, c.id), now)
    ensures (forall t :: !IsContact(c, LatestOf(latest, c.id), t)) ==> PriorityFor(c, latest, now) == Scored(0, Start(c.id))
    ensures forall t :: IsLatestContact(c, LatestOf(latest, c.id), t) ==>
      PriorityFor(c, latest, now) == Scored(Days(t, now), Overlooked(c.id, Days(t, now)))
  {
    ContactIsTheLatest(c, LatestOf(latest, c.id), now);
  }

  lemma OneMoreCandidate(failed: nat, clients: seq<Client>, n: nat, latest: map<Id, Action>, now: Time)
    requires n < |clients|
    ensures PriorityCandidates(failed, clients[..n + 1], latest, now) ==
      PriorityCandidates(failed, clients[..n], latest, now) +
      if Due(clients[n], LatestOf(latest, clients[n].id), now) then [PriorityFor(clients[n], latest, now)] else []
  {
    GatherNext(clients, n, IfDue(latest, now));
  }

  method BuildPriorities(failed: nat, clients: seq<Client>, latest: map<Id, Action>, now: Time)
    returns (ordered: seq<Scored>)
    ensures ordered == Take(SHOWN, SortBy(PriorityCandidates(failed, clients, latest, now), HigherFirst))
  {
    var priorities: seq<Scored> := [];
    if failed > 0 {
      priorities := priorities + [Scored(10_000, Failures(failed))];
    }
    var i := 0;
    assert priorities == PriorityCandidates(failed, clients[..i], latest, now);
    while i < |clients|
      invariant 0 <= i <= |clients|
      invariant priorities == PriorityCandidates(failed, clients[..i], latest, now)
    {
      OneMoreCandidate(failed, clients, i, latest, now);
      var s := FollowupState(clients[i], LatestOf(latest, clients[i].id), now);
      i := i + 1;
      if s.suppressed {
        continue;
      }
      if s.contact.None? {
        priorities := priorities + [Scored(0, Start(clients[i - 1].id))];
        continue;
      }
      var days := Days(s.contact.value, now);
      if days >= FOLLOWUP_AFTER_DAYS {
        priorities := priorities + [Scored(days, Overlooked(clients[i - 1].id, days))];
      }
    }
    assert clients[..i] == clients;
    ordered := Take(SHOWN, SortBy(priorities, HigherFirst));
  }

  lemma LeadsExactlyWhen(x: Scored, rest: seq<Scored>)
    requires forall y :: y in rest ==> y.priority != x.priority
    ensures var ordered := Take(SHOWN, SortBy([x] + rest, HigherFirst));
      ordered != [] && (ordered[0].priority == x.priority <==> forall y :: y in rest ==> y.score <= x.score)
  {
    SortKeeps(rest, HigherFirst);
    var sorted := SortBy(rest, HigherFirst);
    assert ([x] + rest)[1..] == rest;
    if sorted != [] {
      assert sorted[0] in rest;
      assert forall y :: y in rest ==> y in sorted && y.score <= sorted[0].score;
    }
  }

  /** Failures lead the list exactly when no due client has been silent for more than 10,000 days. */
  lemma FailuresLeadExactlyWhen(failed: nat, clients: seq<Client>, latest: map<Id, Action>, now: Time)
    requires failed > 0
    ensures var ordered := Take(SHOWN, SortBy(PriorityCandidates(failed, clients, latest, now), HigherFirst));
      ordered != [] &&
      (ordered[0].priority == Failures(failed) <==>
       forall c :: c in DueClients(clients, latest, now) ==> PriorityFor(c, latest, now).score <= 10_000)
  {
    var due := DueClients(clients, latest, now);
    var first, rest := Scored(10_000, Failures(failed)), Scores(due, latest, now);
    LeadsExactlyWhen(first, rest);
    ScoresOf(due, latest, now);
  }

  lemma ScoresOf(due: seq<Client>, latest: map<Id, Action>, now: Time)
    ensures (forall y :: y in Scores(due, latest, now) ==> y.score <= 10_000) <==>
      (forall c :: c in due ==> PriorityFor(c, latest, now).score <= 10_000)
    ensures forall y :: y in Scores(due, latest, now) ==> !y.priority.Failures?
  {
    var scores := Scores(due, latest, now);
    forall i | 0 <= i < |due| ensures due[i] in due && scores[i] in scores {
    }
  }

  /** What is shown: at most five, by descending score, and nothing left out scores higher than anything shown. */
  lemma TheHighestAreShown(failed: nat, clients: seq<Client>, latest: map<Id, Action>, now: Time)
    ensures var all := PriorityCandidates(failed, clients, latest, now);
      var ordered := Take(SHOWN, SortBy(all, HigherFirst));
      && |ordered| == (if |all| < 5 then |all| else 5)
      && (forall i, j :: 0 <= i < j < |ordered| ==> ordered[i].score >= ordered[j].score)
      && (forall x :: x in ordered ==> x in all)
      && (forall x, i :: x in all && x !in ordered && 0 <= i < |ordered| ==> ordered[i].score >= x.score)
  {
    var all := PriorityCandidates(failed, clients, latest, now);
    SortKeeps(all, HigherFirst);
    FirstOnesLead(SHOWN, all, HigherFirst);
  }

  /** The candidates are the failures, when there are any, and the due clients. */
  lemma CandidatesAre(failed: nat, clients: seq<Client>, latest: map<Id, Action>, now: Time, x: Scored)
    ensures x in PriorityCandidates(failed, clients, latest, now) <==>
      || (failed > 0 && x == Scored(10_000, Failures(failed)))
      || exists c :: c in clients && NeedsFollowup(c, LatestOf(latest, c.id), now) && x == PriorityFor(c, latest, now)
  {
    var due := DueClients(clients, latest, now);
    DueMembers(clients, latest, now);
    var scores := Scores(due, latest, now);
    if c :| c in clients && NeedsFollowup(c, LatestOf(latest, c.id), now) && x == PriorityFor(c, latest, now) {
      var i :| 0 <= i < |due| && due[i] == c;
      assert scores[i] == x;
    }
    if x in scores {
      var i :| 0 <= i < |scores| && scores[i] == x;
      assert due[i] in due;
    }
  }

  /** One upload of more than 10,000 days ago is enough to push a failure down. */
  lemma FailuresCanBeOutranked(c: Client, now: Time)
    requires c.uploads == [0] && now == 10_001 * DAY
    ensures var ordered := Take(SHOWN, SortBy(PriorityCandidates(1, [c], map[], now), HigherFirst));
      ordered != [] && ordered[0].priority != Failures(1)
  {
    assert Latest(c.uploads) == Some(0);
    assert Days(0, now) == 10_001;
    GatherAlone(c, IfDue(map[], now));
    assert DueClients([c], map[], now) == [c];
    assert c in DueClients([c], map[], now);
    FailuresLeadExactlyWhen(1, [c], map[], now);
  }
}
