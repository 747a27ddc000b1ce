/** Processing attempts on one conversation: transcription, extraction, reconciliation. */
module Pipeline {
  import opened Results

  type Id = nat

  datatype TranscriptStatus = Pending | Processing | Completed | Failed

  datatype Transcript = Transcript(text: Option<string>, status: TranscriptStatus)

  /** Names and roles are compared in their normalised form, so that form is what is kept. */
  datatype Person = Person(name: string, role: Option<string>, isClient: bool)

  datatype Memory = Memory(people: seq<Person>, topics: seq<string>)

  datatype Client = Client(name: string, role: Option<string>)

  /** The facts that one call of record_facts commits. */
  datatype Batch = Batch(client: Id, memory: Memory)

  datatype Status = Uploaded | Queued | Running | Done | Stopped

  /** What the speech provider, the storage and the database allow during one transcription. */
  datatype Hearing = Heard(text: string) | Unheard | Interrupted

  /**
    What the environment does to one attempt. `linked` is how many of the extracted people can be dealt with, and
    `recorded` how many batches of facts commit before a failure, if there is one; `saves` is whether the completed
    status can be written, and `marks` whether a failure can be.
  */
  datatype Weather = Weather(
    hearing: Hearing, extracted: Option<Memory>, linked: nat, recorded: Option<nat>, saves: bool, marks: bool)

  /** The conversation's records after an attempt, and whether that attempt completed. */
  datatype Moment = Moment(
    transcripts: seq<Transcript>, heard: nat, memories: seq<Memory>, batches: seq<Batch>, completed: bool)

  /** What cannot be undone: a finished transcript stays and is not requested again, and so do a memory and its facts. */
  predicate Lasts(a: Moment, b: Moment) {
    && (Finished(a.transcripts) ==> b.transcripts == a.transcripts && b.heard == a.heard)
    && (a.memories != [] ==> b.memories == a.memories && b.batches == a.batches && !b.completed)
  }

  /** The characters that stripping a text removes. */
  predicate Space(c: char) {
    || c in {' ', '\t', '\n', '\r', '\U{b}', '\U{c}', '\U{1c}', '\U{1d}', '\U{1e}', '\U{1f}', '\U{85}', '\U{a0}'}
    || c in {'\U{1680}', '\U{2028}', '\U{2029}', '\U{202f}', '\U{205f}', '\U{3000}'}
    || '\U{2000}' <= c <= '\U{200a}'
  }

  predicate Blank(text: string) {
    forall i :: 0 <= i < |text| ==> Space(text[i])
  }

  /** A letter, digit or mark anywhere makes a text worth extracting; spaces and line ends alone do not. */
  lemma ContentIsNotBlank(text: string)
    ensures forall i :: 0 <= i < |text| && '!' <= text[i] <= '~' ==> !Blank(text)
    ensures (forall i :: 0 <= i < |text| ==> text[i] == ' ' || text[i] == '\t' || text[i] == '\n') ==> Blank(text)
  {
  }

  predicate Finished(transcripts: seq<Transcript>) {
    transcripts != [] && transcripts[0].status == Completed
  }

  /** The clients that received facts. */
  function Fed(batches: seq<Batch>): set<Id> {
    set b | b in batches :: b.client
  }

  lemma FedOneMore(batches: seq<Batch>, b: Batch)
    ensures Fed(batches + [b]) == Fed(batches) + {b.client}
  {
    assert b in batches + [b];
    forall c | c in Fed(batches) ensures c in Fed(batches + [b]) {
      var x :| x in batches && x.client == c;
      assert x in batches + [b];
    }
  }

  /** Every extracted client is among the first `linked` people. */
  ghost predicate LinksAll(people: seq<Person>, linked: nat) {
    forall k :: linked <= k < |people| ==> !people[k].isClient
  }

  /** What it takes to complete an attempt from a transcript: no content, or a first memory that is reconciled. */
  ghost predicate Digestible(text: string, weather: Weather, memories: seq<Memory>, manual: bool) {
    || Blank(text)
    || (&& weather.extracted.Some? && memories == []
        && (manual || (LinksAll(weather.extracted.value.people, weather.linked) && weather.recorded.None?)))
  }

  /** The text that an attempt works on: the finished transcript, or what is heard now. */
  ghost function TextFor(transcripts: seq<Transcript>, hearing: Hearing): Option<string> {
    if Finished(transcripts) then transcripts[0].text else if hearing.Heard? then Some(hearing.text) else None
  }

  /** One attempt takes the conversation from one moment to the next. */
  ghost predicate Follows(a: Moment, w: Weather, b: Moment, manual: bool) {
    var text := TextFor(a.transcripts, w.hearing);
    && b.heard == a.heard + (if Finished(a.transcripts) then 0 else 1)
    && (Finished(b.transcripts) <==> text.Some?)
    && (text.Some? ==> TextFor(b.transcripts, Unheard) == text)
    && (b.completed <==> text.Some? && Digestible(text.value, w, a.memories, manual) && w.saves)
    && b.memories == if text.Some? && !Blank(text.value) && w.extracted.Some? && a.memories == [] then [w.extracted.value]
                     else a.memories
  }

  /** One of the given clients is the record of this person. */
  ghost predicate Served(clients: map<Id, Client>, ids: set<Id>, person: Person) {
    exists id :: id in ids && id in clients && clients[id] == Client(person.name, person.role)
  }

  /** The client is the record of one of the extracted clients. */
  ghost predicate RecordOf(clients: map<Id, Client>, id: Id, people: seq<Person>) {
    exists k :: 0 <= k < |people| && people[k].isClient && id in clients && clients[id] == Client(people[k].name, people[k].role)
  }

  ghost predicate FirstClient(people: seq<Person>, k: int) {
    0 <= k < |people| && people[k].isClient && forall j :: 0 <= j < k ==> !people[j].isClient
  }

  /**
    What reconciliation leaves: every extracted client has a record among the clients with facts, only such
    records have facts, and the conversation belongs to the record of the first of them.
  */
  ghost predicate Reconciled(people: seq<Person>, clients: map<Id, Client>, fed: set<Id>, linked: Option<Id>, before: Option<Id>) {
    && (forall p :: p in people && p.isClient ==> Served(clients, fed, p))
    && (forall id :: id in fed ==> RecordOf(clients, id, people))
    && (forall k :: FirstClient(people, k) ==>
          && linked.Some? && linked.value in fed && linked.value in clients
          && clients[linked.value] == Client(people[k].name, people[k].role))
    && ((forall p :: p in people ==> !p.isClient) ==> linked == before && fed == {})
  }

  /** No client was touched that is not a record of one of the people. */
  ghost predicate OnlyRecords(people: seq<Person>, before: map<Id, Client>, clients: map<Id, Client>, matched: set<Id>) {
    && matched <= clients.Keys
    && (forall c :: c in before ==> c in clients && clients[c] == before[c])
    && (forall c :: c in clients && c !in before ==> RecordOf(clients, c, people))
    && (forall id :: id in matched ==> RecordOf(clients, id, people))
  }

  /** The first `n` people are dealt with, and the first client among them is the primary one. */
  ghost predicate MatchedSoFar(people: seq<Person>, n: nat, clients: map<Id, Client>, matched: set<Id>, primary: Option<Id>) {
    && (if primary.Some? then primary.value in matched else matched == {})
    && (forall k :: 0 <= k < n && k < |people| && people[k].isClient ==> primary.Some? && Served(clients, matched, people[k]))
    && (primary.Some? ==> exists k :: FirstClient(people, k) && k < n)
    && (forall k :: FirstClient(people, k) && k < n ==>
          primary.Some? && primary.value in clients && clients[primary.value] == Client(people[k].name, people[k].role))
  }

  lemma RecordsStay(before: map<Id, Client>, after: map<Id, Client>, people: seq<Person>)
    requires forall c :: c in before ==> c in after && after[c] == before[c]
    ensures forall id :: RecordOf(before, id, people) ==> RecordOf(after, id, people)
  {
  }

  /** One more client that is a record of a person, new or not. */
  ghost predicate Extends(clients: map<Id, Client>, more: map<Id, Client>, id: Id, person: Person) {
    && more.Keys == clients.Keys + {id} && (forall c :: c in clients ==> more[c] == clients[c])
    && more[id] == Client(person.name, person.role)
  }

  lemma OneMoreRecord(people: seq<Person>, n: nat, before: map<Id, Client>, clients: map<Id, Client>, more: map<Id, Client>,
                      matched: set<Id>, id: Id)
    requires n < |people| && people[n].isClient && OnlyRecords(people, before, clients, matched)
    requires Extends(clients, more, id, people[n])
    ensures OnlyRecords(people, before, more, matched) && OnlyRecords(people, before, more, matched + {id})
  {
    RecordsStay(clients, more, people);
    assert RecordOf(more, id, people);
  }

  lemma OneMoreMatched(people: seq<Person>, n: nat, clients: map<Id, Client>, more: map<Id, Client>,
                       matched: set<Id>, primary: Option<Id>, id: Id)
    requires n < |people| && people[n].isClient && MatchedSoFar(people, n, clients, matched, primary)
    requires Extends(clients, more, id, people[n])
    ensures MatchedSoFar(people, n + 1, more, matched + {id}, if primary.None? then Some(id) else primary)
  {
    if primary.None? {
      assert FirstClient(people, n);
    }
  }

  class Conversation {
    var status: Status
    var attempts: nat
    var manual: bool
    var client: Option<Id>
    var transcripts: seq<Transcript>
    var memories: seq<Memory>
    var clients: map<Id, Client>
    var batches: seq<Batch>
    var heard: nat
    var reconciliations: nat

    constructor (manual: bool, clients: map<Id, Client>)
      ensures Consistent() && transcripts == [] && memories == [] && heard == 0
      ensures this.manual == manual && this.clients == clients
    {
      status, attempts, this.manual, client := Uploaded, 0, manual, None;
      transcripts, memories, this.clients, batches, heard, reconciliations := [], [], clients, [], 0, 0;
    }

    /**
      At most one transcript and one memory. A memory comes from a finished transcript with content,
      was reconciled at most once, and gave each client at most one batch of facts.
    */
    ghost predicate Consistent()
      reads this
    {
      && |transcripts| <= 1 && |memories| <= 1
      && (forall t :: t in transcripts && t.status == Completed ==> t.text.Some?)
      && (memories != [] ==> Finished(transcripts) && !Blank(transcripts[0].text.value))
      && reconciliations <= |memories|
      && (batches != [] ==> reconciliations == 1)
      && (forall b :: b in batches ==> memories == [b.memory])
      && (forall i, j :: 0 <= i < j < |batches| ==> batches[i].client != batches[j].client)
    }

    /** A finished transcript is reused; otherwise the conversation's one row is reset and filled. */
    method Transcribe(hearing: Hearing) returns (text: Option<string>)
      requires Consistent()
      modifies this`transcripts, this`heard
      ensures Consistent()
      ensures old(Finished(transcripts)) ==>
        transcripts == old(transcripts) && heard == old(heard) && text == transcripts[0].text
      ensures !old(Finished(transcripts)) ==> heard == old(heard) + 1 && text.Some? == hearing.Heard?
      ensures text.Some? <==> Finished(transcripts)
      ensures text.Some? ==> text == transcripts[0].text && (old(Finished(transcripts)) || text.value == hearing.text)
      ensures !old(Finished(transcripts)) ==>
        transcripts == match hearing
                       case Heard(result) => [Transcript(Some(result), Completed)]
                       case Unheard => [Transcript(None, Failed)]
                       case Interrupted => [Transcript(None, Processing)]
    {
      if |transcripts| > 0 && transcripts[0].status == Completed {
        return transcripts[0].text;
      }
      if transcripts == [] {
        transcripts := [Transcript(None, Pending)];
      }
      transcripts := [Transcript(None, Processing)];
      heard := heard + 1;
      match hearing
      case Heard(result) =>
        transcripts := [Transcript(Some(result), Completed)];
        text := Some(result);
      case Unheard =>
        transcripts := [Transcript(None, Failed)];
        text := None;
      case Interrupted =>
        text := None;
    }

    /** The unique constraint on memories rejects a second one for the conversation. */
    method ExtractAndPersist(text: string, extracted: Option<Memory>) returns (ok: bool, memory: Option<Memory>)
      requires Consistent() && Finished(transcripts) && transcripts[0].text == Some(text)
      modifies this`memories
      ensures Consistent()
      ensures ok <==> Blank(text) || (extracted.Some? && old(memories) == [])
      ensures memory == if ok && !Blank(text) then extracted else None
      ensures memories == if memory.Some? then [memory.value] else old(memories)
    {
      if Blank(text) {
        return true, None;
      }
      if extracted.None? || memories != [] {
        return false, None;
      }
      memories := memories + [extracted.value];
      return true, extracted;
    }

    /** A role is the corroboration that a name needs: without one a new client is always made. */
    method FindOrCreate(person: Person) returns (id: Id)
      requires person.isClient
      modifies this`clients
      ensures id in clients && clients[id] == Client(person.name, person.role)
      ensures forall c :: c in old(clients) ==> c in clients && clients[c] == old(clients)[c]
      ensures id in old(clients) <==>
        person.role.Some? && exists c :: c in old(clients) && old(clients)[c] == Client(person.name, person.role)
      ensures clients.Keys == old(clients).Keys + {id}
    {
      var wanted := Client(person.name, person.role);
      if person.role.Some? && exists c :: c in clients && clients[c] == wanted {
        id :| id in clients && clients[id] == wanted;
        return;
      }
      id := Unused(clients.Keys);
      clients := clients[id := wanted];
    }

    /** Matches or creates a client for every extracted client; the first of them is the primary one. */
    method MatchPeople(people: seq<Person>, linked: nat) returns (ok: bool, matched: set<Id>, primary: Option<Id>)
      modifies this`clients
      ensures ok <==> LinksAll(people, linked)
      ensures forall c :: c in old(clients) ==> c in clients && clients[c] == old(clients)[c]
      ensures ok ==> matched <= clients.Keys && forall p :: p in people && p.isClient ==> Served(clients, matched, p)
      ensures ok ==> if primary.Some? then primary.value in matched else matched == {}
      ensures ok ==> (primary.Some? <==> exists p :: p in people && p.isClient)
      ensures ok ==> forall id :: id in matched ==> RecordOf(clients, id, people)
      ensures ok ==> forall k :: FirstClient(people, k) ==>
        primary.Some? && clients[primary.value] == Client(people[k].name, people[k].role)
      ensures forall c :: c in clients && c !in old(clients) ==> RecordOf(clients, c, people)
    {
      matched, primary := {}, None;
      var i := 0;
      while i < |people|
        invariant 0 <= i <= |people| && forall k :: 0 <= k < i && people[k].isClient ==> k < linked
        invariant OnlyRecords(people, old(clients), clients, matched)
        invariant MatchedSoFar(people, i, clients, matched, primary)
      {
        if people[i].isClient {
          ghost var before := clients;
          var id := FindOrCreate(people[i]);
          OneMoreRecord(people, i, old(clients), before, clients, matched, id);
          OneMoreMatched(people, i, before, clients, matched, primary, id);
          if linked <= i {
            return false, matched, primary;
          }
          matched := matched + {id};
          if primary.None? {
            primary := Some(id);
          }
        }
        i := i + 1;
      }
      ok := true;
    }

    /** Gives each matched client its facts, once, until a commit fails. */
    method RecordFacts(memory: Memory, matched: set<Id>, recorded: Option<nat>) returns (ok: bool)
      requires Consistent() && memories == [memory] && reconciliations == 1 && batches == []
      modifies this`batches
      ensures Consistent()
      ensures ok <==> recorded.None?
      ensures ok ==> Fed(batches) == matched
    {
      var todo := matched;
      while todo != {}
        invariant todo <= matched
        invariant Consistent()
        invariant Fed(batches) == matched - todo
        invariant forall b :: b in batches ==> b.client !in todo
      {
        if recorded == Some(|batches|) {
          return false;
        }
        var c :| c in todo;
        FedOneMore(batches, Batch(c, memory));
        batches := batches + [Batch(c, memory)];
        todo := todo - {c};
      }
      ok := recorded.None?;
    }

    /** Every extracted client is matched or created first; then each matched client gets its facts, once. */
    method Reconcile(memory: Memory, linked: nat, recorded: Option<nat>) returns (ok: bool)
      requires Consistent() && memories == [memory] && reconciliations == 0
      modifies this`clients, this`batches, this`reconciliations, this`client
      ensures Consistent()
      ensures ok <==> manual || (LinksAll(memory.people, linked) && recorded.None?)
      ensures manual ==> client == old(client) && batches == [] && clients == old(clients)
      ensures ok && !manual ==> Reconciled(memory.people, clients, Fed(batches), client, old(client))
      ensures forall c :: c in old(clients) ==> c in clients && clients[c] == old(clients)[c]
      ensures !ok ==> client == old(client)
    {
      if manual {
        return true;
      }
      reconciliations := 1;
      var matched, primary;
      ok, matched, primary := MatchPeople(memory.people, linked);
      if !ok {
        return false;
      }
      ok := RecordFacts(memory, matched, recorded);
      if ok && primary.Some? {
        client := primary;
      }
    }

    /** Extraction and reconciliation of a finished transcript. */
    method Digest(text: string, weather: Weather) returns (ok: bool)
      requires Consistent() && Finished(transcripts) && transcripts[0].text == Some(text)
      modifies this`memories, this`clients, this`batches, this`reconciliations, this`client
      ensures Consistent()
      ensures old(memories) != [] ==>
        memories == old(memories) && batches == old(batches) && clients == old(clients) && client == old(client)
      ensures ok <==> Digestible(text, weather, old(memories), manual)
      ensures manual ==> client == old(client)
      // What is stored: nothing for a blank text, else the extracted memory, and for an automatic assignment its clients.
      ensures Blank(text) ==>
        memories == old(memories) && clients == old(clients) && batches == old(batches) && client == old(client)
      ensures !Blank(text) && old(memories) == [] ==>
        memories == if weather.extracted.Some? then [weather.extracted.value] else []
      ensures ok && !Blank(text) && manual ==> clients == old(clients) && batches == []
      ensures ok && !Blank(text) && !manual ==>
        Reconciled(weather.extracted.value.people, clients, Fed(batches), client, old(client))
      ensures forall c :: c in old(clients) ==> c in clients && clients[c] == old(clients)[c]
    {
      var memory;
      ok, memory := ExtractAndPersist(text, weather.extracted);
      if ok && memory.Some? {
        ok := Reconcile(memory.value, weather.linked, weather.recorded);
      }
    }

    /** The stages of an attempt: transcription, then extraction and reconciliation. */
    method Work(weather: Weather) returns (ok: bool)
      requires Consistent()
      modifies this`transcripts, this`heard, this`memories, this`clients, this`batches, this`reconciliations, this`client
      ensures Consistent()
      ensures old(Finished(transcripts)) ==> transcripts == old(transcripts) && heard == old(heard)
      ensures !old(Finished(transcripts)) && Finished(transcripts) ==>
        weather.hearing.Heard? && transcripts[0].text == Some(weather.hearing.text)
      ensures Finished(transcripts) <==> old(Finished(transcripts)) || weather.hearing.Heard?
      ensures ok <==> Finished(transcripts) && Digestible(transcripts[0].text.value, weather, old(memories), manual)
      ensures Follows(old(Now(false)), weather.(saves := true), Now(ok), manual)
      ensures old(memories) != [] || (ok && Blank(transcripts[0].text.value)) ==>
        memories == old(memories) && batches == old(batches) && clients == old(clients) && client == old(client)
      ensures ok && !Blank(transcripts[0].text.value) ==>
        && memories == [weather.extracted.value]
        && if manual then clients == old(clients) && batches == []
           else Reconciled(weather.extracted.value.people, clients, Fed(batches), client, old(client))
      ensures manual ==> client == old(client)
      ensures forall c :: c in old(clients) ==> c in clients && clients[c] == old(clients)[c]
    {
      ok := false;
      var text := Transcribe(weather.hearing);
      if text.Some? {
        ok := Digest(text.value, weather);
      }
    }

    /** One attempt, from the start of processing to its verdict. */
    method Run(weather: Weather, terminal: bool) returns (completed: bool)
      requires Consistent()
      modifies this
      ensures Consistent() && attempts == old(attempts) + 1 && manual == old(manual)
      ensures status == if completed then Done else if terminal && weather.marks then Stopped else Running
      ensures old(Finished(transcripts)) ==> transcripts == old(transcripts) && heard == old(heard)
      ensures old(memories) != [] ==>
        memories == old(memories) && batches == old(batches) && clients == old(clients) && client == old(client)
      ensures old(memories) != [] ==> !completed
      ensures completed <==>
        && (old(Finished(transcripts)) || weather.hearing.Heard?)
        && var text := if old(Finished(transcripts)) then old(transcripts)[0].text.value else weather.hearing.text;
           Digestible(text, weather, old(memories), manual) && weather.saves
      ensures manual ==> client == old(client)
      ensures Follows(old(Now(false)), weather, Now(completed), manual)
      // What a completed attempt has stored.
      ensures completed ==> Finished(transcripts) && (old(Finished(transcripts)) || transcripts[0].text == Some(weather.hearing.text))
      ensures completed && Blank(transcripts[0].text.value) ==>
        memories == old(memories) && clients == old(clients) && batches == old(batches) && client == old(client)
      ensures completed && !Blank(transcripts[0].text.value) ==>
        && weather.extracted.Some? && memories == [weather.extracted.value]
        && if manual then clients == old(clients) && batches == [] && client == old(client)
           else Reconciled(weather.extracted.value.people, clients, Fed(batches), client, old(client))
      ensures forall c :: c in old(clients) ==> c in clients && clients[c] == old(clients)[c]
    {
      attempts, status := attempts + 1, Running;
      ghost var before := Now(false);
      var ok := Work(weather);
      completed := ok && weather.saves;
      SavingFollows(before, weather, Now(ok), manual);
      if completed {
        status := Done;
      } else if weather.marks {
        status := if terminal then Stopped else Running;
      }
    }

    ghost function Now(completed: bool): Moment
      reads this
    {
      Moment(transcripts, heard, memories, batches, completed)
    }

    /** Any sequence of attempts, with what the conversation held before the first and after each of them. */
    method RunAll(weathers: seq<Weather>, terminal: seq<bool>) returns (verdicts: seq<bool>, ghost moments: seq<Moment>)
      requires Consistent() && |terminal| == |weathers|
      modifies this
      ensures Consistent() && attempts == old(attempts) + |weathers|
      ensures |verdicts| == |weathers| && |moments| == |weathers| + 1
      ensures moments[0] == old(Now(false))
      ensures forall i :: 0 <= i < |verdicts| ==> moments[i + 1].completed == verdicts[i]
      ensures moments[|weathers|] == Now(moments[|weathers|].completed)
      ensures History(moments, weathers, manual)
    {
      verdicts, moments := [], [Now(false)];
      while |verdicts| < |weathers|
        invariant Consistent() && |verdicts| <= |weathers| && attempts == old(attempts) + |verdicts| && manual == old(manual)
        invariant |moments| == |verdicts| + 1 && moments[0] == old(Now(false))
        invariant forall i :: 0 <= i < |verdicts| ==> moments[i + 1].completed == verdicts[i]
        invariant moments[|verdicts|] == Now(moments[|verdicts|].completed)
        invariant History(moments, weathers, manual)
      {
        ghost var last := moments[|verdicts|];
        var completed := Run(weathers[|verdicts|], terminal[|verdicts|]);
        FollowsWhatever(last, weathers[|verdicts|], Now(completed), manual);
        HistoryGrows(moments, weathers, manual, Now(completed));
        verdicts, moments := verdicts + [completed], moments + [Now(completed)];
      }
    }
  }

  /** How the attempt before ended plays no part. */
  lemma FollowsWhatever(a: Moment, w: Weather, b: Moment, manual: bool)
    requires Follows(a.(completed := false), w, b, manual)
    ensures Follows(a, w, b, manual)
  {
  }

  lemma SavingFollows(a: Moment, w: Weather, b: Moment, manual: bool)
    requires Follows(a, w.(saves := true), b, manual)
    ensures Follows(a, w, b.(completed := b.completed && w.saves), manual)
  {
  }

  /** Moments of consecutive attempts: each follows from the one before, and what is final lasts. */
  ghost predicate History(moments: seq<Moment>, weathers: seq<Weather>, manual: bool) {
    && 1 <= |moments| <= |weathers| + 1
    && (forall i :: 0 <= i < |moments| ==> |moments[i].transcripts| <= 1 && |moments[i].memories| <= 1)
    && (forall i :: 0 <= i < |moments| - 1 ==> Follows(moments[i], weathers[i], moments[i + 1], manual))
    && (forall i, j :: 0 <= i < j < |moments| ==> Lasts(moments[i], moments[j]))
  }

  lemma HistoryGrows(moments: seq<Moment>, weathers: seq<Weather>, manual: bool, next: Moment)
    requires History(moments, weathers, manual) && |moments| <= |weathers|
    requires |next.transcripts| <= 1 && |next.memories| <= 1
    requires Follows(moments[|moments| - 1], weathers[|moments| - 1], next, manual) && Lasts(moments[|moments| - 1], next)
    ensures History(moments + [next], weathers, manual)
  {
    var all := moments + [next];
    forall i, j | 0 <= i < j < |all| ensures Lasts(all[i], all[j]) {
      if j == |moments| && i < |moments| - 1 {
        assert Lasts(moments[i], moments[|moments| - 1]);
      }
    }
  }

  function Unused(ids: set<Id>): (id: Id)
    ensures id !in ids
  {
    if ids == {} then 0 else
      AboveExists(ids);
      var top :| top in ids && forall i :: i in ids ==> i <= top;
      top + 1
  }

  lemma {:induction false} Above(ids: set<Id>) returns (top: Id)
    requires ids != {}
    ensures top in ids && forall i :: i in ids ==> i <= top
  {
    top :| top in ids;
    var rest := ids - {top};
    if rest != {} {
      var other := Above(rest);
      assert forall i :: i in ids ==> i == top || i in rest;
      top := if other < top then top else other;
    } else {
      assert ids == {top};
    }
  }

  lemma AboveExists(ids: set<Id>)
    requires ids != {}
    ensures exists top :: top in ids && forall i :: i in ids ==> i <= top
  {
    var top := Above(ids);
  }
}
