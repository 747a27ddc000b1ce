/**
  Versioned texts: transcript corrections with notes that are generated outside any lock, and saved
  follow-up drafts.
*/
module Corrections {
  import opened Results
  import opened Tables

  /** Generated notes remember the text that the provider was given. */
  datatype Notes = Notes(source: string, content: string)

  datatype Correction = Correction(text: string, version: nat, preview: Option<Notes>)

  /** A preview request that has read the correction and waits for the provider, holding no lock. */
  datatype Request = Request(source: string, version: nat)

  /** `saved` lists the accepted saves, with the version each one expected. */
  datatype State = State(
    status: Status, transcript: Option<string>, correction: Option<Correction>,
    pending: map<nat, Request>, saved: seq<(nat, string)>)

  datatype Event =
    | Save(expected: nat, text: string)
    | Ask(session: nat, expected: nat)
    | Store(session: nat, content: string)
    | Drop(session: nat)
    | SetStatus(status: Status)

  datatype Refusal = NotFinished | NoTranscript | Changed

  function Version(s: State): nat {
    if s.correction.Some? then s.correction.value.version else 0
  }

  function SaveRefusal(s: State, expected: nat): Option<Refusal> {
    if s.status != Completed then Some(NotFinished)
    else if s.transcript.None? || s.transcript.value == "" then Some(NoTranscript)
    else if Version(s) != expected then Some(Changed)
    else None
  }

  function StoreRefusal(s: State, session: nat): Option<Refusal>
    requires session in s.pending
  {
    if s.status != Completed then Some(NotFinished)
    else if s.correction.None? || s.correction.value.version != s.pending[session].version then Some(Changed)
    else None
  }

  function Next(s: State, e: Event): State {
    match e
    case Save(expected, text) =>
      if SaveRefusal(s, expected).Some? then s
      else s.(correction := Some(Correction(text, expected + 1, None)), saved := s.saved + [(expected, text)])
    case Ask(session, expected) =>
      if s.status != Completed || s.correction.None? || s.correction.value.version != expected || session in s.pending then s
      else s.(pending := s.pending[session := Request(s.correction.value.text, expected)])
    case Store(session, content) =>
      if session !in s.pending then s
      else if StoreRefusal(s, session).Some? then s.(pending := s.pending - {session})
      else s.(correction := Some(s.correction.value.(preview := Some(Notes(s.pending[session].source, content)))),
              pending := s.pending - {session})
    case Drop(session) => s.(pending := s.pending - {session})
    case SetStatus(status) => s.(status := status)
  }

  function After(s: State, es: seq<Event>): State {
    if es == [] then s else Next(After(s, es[..|es| - 1]), es[|es| - 1])
  }

  ghost predicate Fresh(s: State) {
    s.correction.None? && s.pending == map[] && s.saved == []
  }

  /** Each version number names one saved text, for good. */
  ghost predicate Invariant(s: State) {
    && (forall i :: 0 <= i < |s.saved| ==> s.saved[i].0 == i)
    && (s.correction.None? <==> s.saved == [])
    && (s.correction.Some? ==>
          && s.correction.value.version == |s.saved|
          && s.correction.value.text == s.saved[|s.saved| - 1].1
          && (s.correction.value.preview.Some? ==> s.correction.value.preview.value.source == s.correction.value.text))
    && (forall r :: r in s.pending ==>
          1 <= s.pending[r].version <= |s.saved| && s.pending[r].source == s.saved[s.pending[r].version - 1].1)
  }

  lemma SaveKeepsInvariant(s: State, expected: nat, text: string)
    requires Invariant(s)
    ensures Invariant(Next(s, Save(expected, text)))
  {
    if SaveRefusal(s, expected).None? {
      assert expected == |s.saved|;
    }
  }

  lemma StepKeepsInvariant(s: State, e: Event)
    requires Invariant(s)
    ensures Invariant(Next(s, e))
  {
    if e.Save? {
      SaveKeepsInvariant(s, e.expected, e.text);
    }
  }

  lemma {:induction false} RunKeepsInvariant(s: State, es: seq<Event>)
    requires Fresh(s)
    ensures Invariant(After(s, es)) && After(s, es).transcript == s.transcript
  {
    if es != [] {
      RunKeepsInvariant(s, es[..|es| - 1]);
      StepKeepsInvariant(After(s, es[..|es| - 1]), es[|es| - 1]);
    }
  }

  /**
    However saves and slow generations interleave: a stored preview was generated from the text it is
    stored with, accepted saves expected versions 0, 1, 2 and so on, the current text is the last one
    saved, and the original transcript is what it was.
  */
  lemma PreviewsMatchTheirText(s: State, es: seq<Event>)
    requires Fresh(s)
    ensures var end := After(s, es);
            && end.transcript == s.transcript
            && (forall i :: 0 <= i < |end.saved| ==> end.saved[i].0 == i)
            && (end.correction.None? <==> end.saved == [])
            && (end.correction.Some? ==> end.correction.value.text == end.saved[|end.saved| - 1].1)
            && (end.correction.Some? && end.correction.value.preview.Some? ==>
                  end.correction.value.preview.value.source == end.correction.value.text)
  {
    RunKeepsInvariant(s, es);
  }

  /** A generation that outlives another save is refused, so its notes are never shown. */
  lemma StaleGenerationIsRefused(s: State, es: seq<Event>, session: nat, text: string)
    requires Fresh(s)
    requires var now := After(s, es); session in now.pending && SaveRefusal(now, Version(now)).None?
    ensures var later := Next(After(s, es), Save(Version(After(s, es)), text));
            session in later.pending && StoreRefusal(later, session) == Some(Changed)
  {
    RunKeepsInvariant(s, es);
  }

  class CorrectionRepository {
    var status: Status
    var transcript: Option<string>
    var correction: Option<Correction>
    var pending: map<nat, Request>
    ghost var saved: seq<(nat, string)>

    ghost function View(): State
      reads this
    {
      State(status, transcript, correction, pending, saved)
    }

    constructor (status: Status, transcript: Option<string>)
      ensures Fresh(View()) && this.status == status && this.transcript == transcript
    {
      this.status, this.transcript, correction, pending, saved := status, transcript, None, map[], [];
    }

    /** The conversation row is locked from the ownership check to the commit. */
    method Save(expected: nat, text: string) returns (r: Result<Correction, Refusal>)
      modifies this`correction, this`saved
      ensures View() == Next(old(View()), Event.Save(expected, text))
      ensures r == match SaveRefusal(old(View()), expected)
                   case Some(e) => Err(e)
                   case None => Ok(Correction(text, expected + 1, None))
      ensures r.Ok? ==> correction == Some(r.value)
      // In the row's own terms: a completed recording with a transcript, and nobody else saved in between.
      ensures r == Err(NotFinished) <==> status != Completed
      ensures r == Err(NoTranscript) <==> status == Completed && (transcript == None || transcript == Some(""))
      ensures r.Ok? ==> expected == match old(correction) case Some(c) => c.version case None => 0
      ensures r == Err(Changed) ==> expected != match old(correction) case Some(c) => c.version case None => 0
      ensures r.Ok? ==> correction == Some(Correction(text, expected + 1, None)) && saved == old(saved) + [(expected, text)]
      ensures r.Err? ==> correction == old(correction) && saved == old(saved)
    {
      if status != Completed {
        return Err(NotFinished);
      }
      if transcript.None? || transcript.value == "" {
        return Err(NoTranscript);
      }
      var version := if correction.Some? then correction.value.version else 0;
      if version != expected {
        return Err(Changed);
      }
      correction, saved := Some(Correction(text, expected + 1, None)), saved + [(expected, text)];
      r := Ok(correction.value);
    }

    /** Reads the text to generate from and lets go of the row before the provider is asked. */
    method Ask(session: nat, expected: nat) returns (source: Option<string>)
      requires session !in pending
      modifies this`pending
      ensures View() == Next(old(View()), Event.Ask(session, expected))
      ensures source.Some? <==> status == Completed && correction.Some? && correction.value.version == expected
      ensures source.Some? ==>
        source.value == correction.value.text && pending == old(pending)[session := Request(correction.value.text, expected)]
      ensures source.None? ==> pending == old(pending)
    {
      if status != Completed || correction.None? || correction.value.version != expected {
        return None;
      }
      pending := pending[session := Request(correction.value.text, expected)];
      source := Some(correction.value.text);
    }

    method StorePreview(session: nat, content: string) returns (r: Result<Correction, Refusal>)
      requires session in pending
      modifies this`correction, this`pending
      ensures View() == Next(old(View()), Store(session, content))
      ensures r.Err? <==> StoreRefusal(old(View()), session).Some?
      ensures r.Err? ==> correction == old(correction) && Some(r.error) == StoreRefusal(old(View()), session)
      ensures r.Ok? ==> correction == Some(r.value)
      ensures r == Err(NotFinished) <==> status != Completed
      ensures r.Ok? <==>
        && status == Completed && old(correction).Some?
        && old(correction).value.version == old(pending)[session].version
      ensures r.Ok? ==>
        && r.value.text == old(correction).value.text && r.value.version == old(correction).value.version
        && r.value.preview == Some(Notes(old(pending)[session].source, content))
      ensures pending == old(pending) - {session}
    {
      var request := pending[session];
      pending := pending - {session};
      if status != Completed {
        return Err(NotFinished);
      }
      if correction.None? || correction.value.version != request.version {
        return Err(Changed);
      }
      correction := Some(correction.value.(preview := Some(Notes(request.source, content))));
      r := Ok(correction.value);
    }
  }

  // Saved follow-up drafts: one per conversation and channel.

  datatype Channel = Email | Text

  datatype Draft = Draft(subject: string, body: string, version: nat)

  type Drafts = map<(Id, Channel), Draft>

  datatype DraftRefusal = NotFound | DraftChanged

  function DraftVersion(drafts: Drafts, id: Id, channel: Channel): nat {
    if (id, channel) in drafts then drafts[(id, channel)].version else 0
  }

  datatype DraftSave = DraftSave(id: Id, channel: Channel, expected: nat, subject: string, body: string)

  predicate AcceptsSave(owned: set<Id>, drafts: Drafts, x: DraftSave) {
    x.id in owned && DraftVersion(drafts, x.id, x.channel) == x.expected
  }

  function Stored(x: DraftSave): Draft {
    Draft(if x.channel == Email then x.subject else "", x.body, x.expected + 1)
  }

  function AfterSave(owned: set<Id>, drafts: Drafts, x: DraftSave): Drafts {
    if AcceptsSave(owned, drafts, x) then drafts[(x.id, x.channel) := Stored(x)] else drafts
  }

  function AfterSaves(owned: set<Id>, saves: seq<DraftSave>): Drafts {
    if saves == [] then map[]
    else AfterSave(owned, AfterSaves(owned, saves[..|saves| - 1]), saves[|saves| - 1])
  }

  /** The accepted saves of one draft, whatever else is saved in between. */
  function AcceptedSaves(owned: set<Id>, saves: seq<DraftSave>, id: Id, channel: Channel): seq<DraftSave> {
    if saves == [] then []
    else
      var before, last := saves[..|saves| - 1], saves[|saves| - 1];
      AcceptedSaves(owned, before, id, channel) +
      if last.id == id && last.channel == channel && AcceptsSave(owned, AfterSaves(owned, before), last) then [last] else []
  }

  /** The accepted saves of a draft expected versions 0, 1, 2 and so on, and the last one is what is stored. */
  ghost predicate NothingLost(drafts: Drafts, accepted: seq<DraftSave>, id: Id, channel: Channel) {
    && (forall i :: 0 <= i < |accepted| ==> accepted[i].expected == i)
    && DraftVersion(drafts, id, channel) == |accepted|
    && (accepted == [] <==> (id, channel) !in drafts)
    && (accepted != [] ==>
          && drafts[(id, channel)].body == accepted[|accepted| - 1].body
          && drafts[(id, channel)].version == |accepted|
          && drafts[(id, channel)].subject == if channel == Email then accepted[|accepted| - 1].subject else "")
  }

  lemma SaveLosesNothing(owned: set<Id>, drafts: Drafts, accepted: seq<DraftSave>, x: DraftSave, id: Id, channel: Channel)
    requires NothingLost(drafts, accepted, id, channel)
    ensures NothingLost(AfterSave(owned, drafts, x),
      accepted + (if x.id == id && x.channel == channel && AcceptsSave(owned, drafts, x) then [x] else []), id, channel)
  {
  }

  lemma {:induction false} NoDraftUpdateIsLost(owned: set<Id>, saves: seq<DraftSave>, id: Id, channel: Channel)
    ensures NothingLost(AfterSaves(owned, saves), AcceptedSaves(owned, saves, id, channel), id, channel)
  {
    if saves != [] {
      var before, last := saves[..|saves| - 1], saves[|saves| - 1];
      NoDraftUpdateIsLost(owned, before, id, channel);
      SaveLosesNothing(owned, AfterSaves(owned, before), AcceptedSaves(owned, before, id, channel), last, id, channel);
    }
  }

  class DraftRepository {
    var owned: set<Id>
    var drafts: Drafts

    constructor (owned: set<Id>)
      ensures this.owned == owned && drafts == map[]
    {
      this.owned, drafts := owned, map[];
    }

    /** The parent row is locked, so a first save and an update are serialised alike. */
    method Save(id: Id, channel: Channel, expected: nat, subject: string, body: string)
      returns (r: Result<Draft, DraftRefusal>)
      modifies this`drafts
      ensures r.Ok? <==> id in owned && DraftVersion(old(drafts), id, channel) == expected
      ensures r == Err(NotFound) <==> id !in owned
      ensures r.Err? ==> drafts == old(drafts)
      ensures drafts == AfterSave(owned, old(drafts), DraftSave(id, channel, expected, subject, body))
      ensures r.Ok? ==> (id, channel) in drafts && r.value == drafts[(id, channel)]
      ensures r.Ok? ==>
        r.value.body == body && r.value.version == expected + 1 && r.value.subject == (if channel == Email then subject else "")
      ensures forall k :: k in old(drafts) && k != (id, channel) ==> k in drafts && drafts[k] == old(drafts)[k]
    {
      if id !in owned {
        return Err(NotFound);
      }
      var version := if (id, channel) in drafts then drafts[(id, channel)].version else 0;
      if version != expected {
        return Err(DraftChanged);
      }
      var draft := Draft(if channel == Email then subject else "", body, version + 1);
      drafts := drafts[(id, channel) := draft];
      r := Ok(draft);
    }
  }
}
