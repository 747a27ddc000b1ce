/** Client reviews: quotes checked against their sources, completions assessed one by one, and a saved copy. */
module Review {
  import opened Results

  type Id = nat

  datatype Detail = Detail(value: string, source: Id, quote: string)

  datatype Completion = Completion(action: Id, source: Id, quote: string)

  datatype Draft = Draft(details: seq<Detail>, completed: seq<Completion>)

  datatype Source = Source(uploadedAt: int, text: string)

  datatype Action = Action(task: string, owner: Option<string>, origin: Id)

  /** What review_context reads for one client. */
  datatype Context = Context(
    name: string, sources: map<Id, Source>, actions: map<Id, Action>, linked: map<Id, (int, string)>)

  /** The digest covers the name, the source texts and the linked conversations, but not the actions. */
  datatype Fingerprint = Fingerprint(name: string, texts: map<Id, string>, linked: map<Id, (int, string)>)

  function Texts(sources: map<Id, Source>): map<Id, string> {
    map s | s in sources :: sources[s].text
  }

  function FingerprintOf(c: Context): Fingerprint {
    Fingerprint(c.name, Texts(c.sources), c.linked)
  }

  predicate OccursAt(text: string, quote: string, i: int) {
    0 <= i <= |text| - |quote| && text[i..i + |quote|] == quote
  }

  predicate Contains(text: string, quote: string) {
    exists i :: 0 <= i <= |text| && OccursAt(text, quote, i)
  }

  /** A quote is contained in a text exactly when the text is something, the quote, and something. */
  lemma ContainsExactlyWhen(text: string, quote: string)
    ensures Contains(text, quote) <==> exists before, after :: Joins(text, before, quote, after)
  {
    if Contains(text, quote) {
      var i :| 0 <= i <= |text| && OccursAt(text, quote, i);
      assert Joins(text, text[..i], quote, text[i + |quote|..]);
    }
    if before, after :| Joins(text, before, quote, after) {
      assert OccursAt(text, quote, |before|);
    }
  }

  ghost predicate Joins(text: string, before: string, quote: string, after: string) {
    text == before + quote + after
  }

  /** Two reads share a fingerprint exactly when name, source texts and linked conversations agree. */
  lemma FingerprintExactlyWhen(a: Context, b: Context)
    ensures FingerprintOf(a) == FingerprintOf(b) <==>
      && a.name == b.name && a.linked == b.linked && a.sources.Keys == b.sources.Keys
      && forall x :: x in a.sources && x in b.sources ==> a.sources[x].text == b.sources[x].text
  {
    var s, t := Texts(a.sources), Texts(b.sources);
    assert s.Keys == a.sources.Keys && t.Keys == b.sources.Keys;
    if s == t {
      forall x | x in a.sources && x in b.sources ensures a.sources[x].text == b.sources[x].text {
        assert s[x] == t[x];
      }
    }
  }

  predicate Quoted(texts: map<Id, string>, source: Id, quote: string) {
    source in texts && Contains(texts[source], quote)
  }

  datatype Problem = UnsupportedSource | UnsupportedAction

  ghost predicate SourcesOk(d: Draft, texts: map<Id, string>) {
    && (forall i :: 0 <= i < |d.details| ==>
          d.details[i].source in texts && Contains(texts[d.details[i].source], d.details[i].quote))
    && (forall i :: 0 <= i < |d.completed| ==>
          d.completed[i].source in texts && Contains(texts[d.completed[i].source], d.completed[i].quote))
  }

  ghost predicate ActionsOk(completed: seq<Completion>, actions: set<Id>) {
    && (forall i, j :: 0 <= i < j < |completed| ==> completed[i].action != completed[j].action)
    && (forall i :: 0 <= i < |completed| ==> completed[i].action in actions)
  }

  method ValidateSources(d: Draft, texts: map<Id, string>, actions: set<Id>) returns (r: Option<Problem>)
    ensures r.None? <==> SourcesOk(d, texts) && ActionsOk(d.completed, actions)
    ensures r == Some(UnsupportedSource) <==> !SourcesOk(d, texts)
  {
    var i := 0;
    while i < |d.details|
      invariant 0 <= i <= |d.details|
      invariant forall k :: 0 <= k < i ==> Quoted(texts, d.details[k].source, d.details[k].quote)
    {
      if !Quoted(texts, d.details[i].source, d.details[i].quote) {
        return Some(UnsupportedSource);
      }
      i := i + 1;
    }
    i := 0;
    while i < |d.completed|
      invariant 0 <= i <= |d.completed|
      invariant forall k :: 0 <= k < i ==> Quoted(texts, d.completed[k].source, d.completed[k].quote)
    {
      if !Quoted(texts, d.completed[i].source, d.completed[i].quote) {
        return Some(UnsupportedSource);
      }
      i := i + 1;
    }
    var seen: set<Id> := {};
    i := 0;
    while i < |d.completed|
      invariant 0 <= i <= |d.completed|
      invariant seen == set k | 0 <= k < i :: d.completed[k].action
      invariant ActionsOk(d.completed[..i], actions)
    {
      if d.completed[i].action in seen || d.completed[i].action !in actions {
        assert !ActionsOk(d.completed, actions) by {
          if d.completed[i].action in seen {
            var k :| 0 <= k < i && d.completed[k].action == d.completed[i].action;
          }
        }
        return Some(UnsupportedAction);
      }
      seen := seen + {d.completed[i].action};
      i := i + 1;
    }
    assert d.completed[..i] == d.completed;
    r := None;
  }

  // Completion assessment.

  datatype Outcome = Completed | NotCompleted | Uncertain

  datatype Assessment = Assessment(action: Id, outcome: Outcome, source: Option<Id>, quote: Option<string>)

  /** Evidence for a completion: a non-empty quote from a recording uploaded strictly after the action's own. */
  predicate Supported(c: Context, a: Assessment)
    requires a.action in c.actions
  {
    && a.source.Some? && a.source.value in c.sources
    && c.actions[a.action].origin in c.sources
    && c.sources[a.source.value].uploadedAt > c.sources[c.actions[a.action].origin].uploadedAt
    && a.quote.Some? && a.quote.value != "" && Contains(c.sources[a.source.value].text, a.quote.value)
  }

  ghost predicate EachActionOnce(assessments: seq<Assessment>, actions: set<Id>) {
    && (forall i, j :: 0 <= i < j < |assessments| ==> assessments[i].action != assessments[j].action)
    && (forall i :: 0 <= i < |assessments| ==> assessments[i].action in actions)
    && (forall x :: x in actions ==> exists i :: 0 <= i < |assessments| && assessments[i].action == x)
  }

  ghost predicate EvidenceOk(c: Context, a: Assessment)
    requires a.action in c.actions
  {
    if !a.outcome.Completed? then a.quote.None? && a.source.None?
    else
      && a.source.Some? && a.quote.Some? && a.quote.value != ""
      && a.source.value in c.sources && c.actions[a.action].origin in c.sources
      && c.sources[c.actions[a.action].origin].uploadedAt < c.sources[a.source.value].uploadedAt
      && Contains(c.sources[a.source.value].text, a.quote.value)
  }

  ghost predicate Accepts(c: Context, assessments: seq<Assessment>) {
    && EachActionOnce(assessments, c.actions.Keys)
    && (forall i :: 0 <= i < |assessments| ==> EvidenceOk(c, assessments[i]))
  }

  /** Accepted assessments and open actions are in bijection. */
  lemma {:induction false} AsManyAsActions(assessments: seq<Assessment>, actions: set<Id>)
    requires EachActionOnce(assessments, actions)
    ensures |assessments| == |actions|
  {
    if assessments == [] {
      assert actions == {};
    } else {
      var before, last := assessments[..|assessments| - 1], assessments[|assessments| - 1].action;
      forall x | x in actions - {last} ensures exists i :: 0 <= i < |before| && before[i].action == x {
        var i :| 0 <= i < |assessments| && assessments[i].action == x;
        assert before[i].action == x;
      }
      AsManyAsActions(before, actions - {last});
    }
  }

  function Reported(a: Assessment): seq<Completion> {
    if a.outcome.Completed? && a.source.Some? && a.quote.Some?
    then [Completion(a.action, a.source.value, a.quote.value)]
    else []
  }

  /** The completions reported by a list of assessments, in its order. */
  function Completions(assessments: seq<Assessment>): seq<Completion> {
    if assessments == [] then []
    else Completions(assessments[..|assessments| - 1]) + Reported(assessments[|assessments| - 1])
  }

  method AssessesEachOnce(assessments: seq<Assessment>, actions: set<Id>) returns (ok: bool)
    ensures ok <==> EachActionOnce(assessments, actions)
  {
    var seen: set<Id> := {};
    var i := 0;
    while i < |assessments|
      invariant 0 <= i <= |assessments|
      invariant forall x :: x in seen <==> exists k :: 0 <= k < i && assessments[k].action == x
      invariant forall j, k :: 0 <= j < k < i ==> assessments[j].action != assessments[k].action
    {
      if assessments[i].action in seen {
        return false;
      }
      seen := seen + {assessments[i].action};
      i := i + 1;
    }
    assert forall k :: 0 <= k < |assessments| ==> assessments[k].action in seen;
    ok := seen == actions;
  }

  method CheckEvidence(c: Context, a: Assessment) returns (ok: bool)
    requires a.action in c.actions
    ensures ok <==> EvidenceOk(c, a)
  {
    if !a.outcome.Completed? {
      return a.quote.None? && a.source.None?;
    }
    ok := Supported(c, a);
  }

  method ValidateAssessments(c: Context, assessments: seq<Assessment>) returns (r: Option<seq<Completion>>)
    ensures r.Some? <==> Accepts(c, assessments)
    ensures r.Some? ==> r.value == Completions(assessments)
  {
    var each := AssessesEachOnce(assessments, c.actions.Keys);
    if !each {
      return None;
    }
    var completed: seq<Completion> := [];
    var i := 0;
    while i < |assessments|
      invariant 0 <= i <= |assessments|
      invariant forall k :: 0 <= k < i ==> EvidenceOk(c, assessments[k])
      invariant completed == Completions(assessments[..i])
    {
      var a := assessments[i];
      var ok := CheckEvidence(c, a);
      if !ok {
        return None;
      }
      NextCompletion(assessments, i);
      if a.outcome.Completed? {
        completed := completed + [Completion(a.action, a.source.value, a.quote.value)];
      }
      i := i + 1;
    }
    assert assessments[..i] == assessments;
    r := Some(completed);
  }

  lemma NextCompletion(assessments: seq<Assessment>, n: nat)
    requires n < |assessments|
    ensures Completions(assessments[..n + 1]) == Completions(assessments[..n]) + Reported(assessments[n])
  {
    assert assessments[..n + 1][..n] == assessments[..n];
  }

  /** A completion is backed by a later recording than the one the action came from. */
  predicate Later(c: Context, x: Completion) {
    && x.action in c.actions
    && c.actions[x.action].origin in c.sources
    && x.source in c.sources
    && x.source != c.actions[x.action].origin
    && c.sources[x.source].uploadedAt > c.sources[c.actions[x.action].origin].uploadedAt
    && x.quote != "" && Contains(c.sources[x.source].text, x.quote)
  }

  /** The completions are those of the completed assessments, each backed by a later recording. */
  lemma {:induction false} CompletionsAreLater(c: Context, assessments: seq<Assessment>)
    requires forall i :: 0 <= i < |assessments| ==> assessments[i].action in c.actions && EvidenceOk(c, assessments[i])
    ensures forall x :: x in Completions(assessments) ==> Later(c, x)
    ensures forall x :: x in Completions(assessments) <==>
      Assessment(x.action, Completed, Some(x.source), Some(x.quote)) in assessments
  {
    if assessments != [] {
      var n := |assessments| - 1;
      CompletionsAreLater(c, assessments[..n]);
      assert assessments == assessments[..n] + [assessments[n]];
    }
  }

  lemma {:induction false} CompletionsAreDistinct(assessments: seq<Assessment>)
    requires forall i, j :: 0 <= i < j < |assessments| ==> assessments[i].action != assessments[j].action
    ensures forall x :: x in Completions(assessments) ==> exists a :: a in assessments && a.action == x.action
    ensures forall i, j :: 0 <= i < j < |Completions(assessments)| ==>
      Completions(assessments)[i].action != Completions(assessments)[j].action
  {
    if assessments != [] {
      var n := |assessments| - 1;
      var before := Completions(assessments[..n]);
      CompletionsAreDistinct(assessments[..n]);
      assert assessments == assessments[..n] + [assessments[n]];
      forall i | 0 <= i < |before| ensures before[i].action != assessments[n].action {
        assert before[i] in before;
      }
    }
  }

  /** One to one and in order: reading both lists from the end, each completed assessment meets its completion. */
  ghost predicate Matches(assessments: seq<Assessment>, completed: seq<Completion>) {
    if assessments == [] then completed == []
    else
      var last := assessments[|assessments| - 1];
      if last.outcome != Completed then Matches(assessments[..|assessments| - 1], completed)
      else
        && completed != [] && last.action == completed[|completed| - 1].action
        && last.source == Some(completed[|completed| - 1].source) && last.quote == Some(completed[|completed| - 1].quote)
        && Matches(assessments[..|assessments| - 1], completed[..|completed| - 1])
  }

  lemma {:induction false} CompletionsMatch(assessments: seq<Assessment>)
    requires forall a :: a in assessments && a.outcome.Completed? ==> a.source.Some? && a.quote.Some?
    ensures Matches(assessments, Completions(assessments))
  {
    if assessments != [] {
      var before, last := assessments[..|assessments| - 1], assessments[|assessments| - 1];
      CompletionsMatch(before);
      var completed := Completions(assessments);
      if last.outcome.Completed? {
        assert completed[..|completed| - 1] == Completions(before);
      } else {
        assert completed == Completions(before);
      }
    }
  }

  /** So once details and assessments are accepted, the source and action check at the end cannot fail. */
  lemma FinalValidationCannotFail(c: Context, details: seq<Detail>, assessments: seq<Assessment>)
    requires SourcesOk(Draft(details, []), Texts(c.sources))
    requires Accepts(c, assessments)
    ensures SourcesOk(Draft(details, Completions(assessments)), Texts(c.sources))
    ensures ActionsOk(Completions(assessments), c.actions.Keys)
  {
    CompletionsAreLater(c, assessments);
    CompletionsAreDistinct(assessments);
    var completed := Completions(assessments);
    forall i | 0 <= i < |completed| ensures Quoted(Texts(c.sources), completed[i].source, completed[i].quote) {
      assert completed[i] in completed;
      assert Later(c, completed[i]);
    }
  }

  // Generating, saving and loading.

  const MAX_ITEMS := 30
  const MAX_CONVERSATIONS := 50
  const MAX_ACTIONS := 100

  /** One provider call: it may raise, answer something unreadable, or answer. */
  datatype Answer<T> = Broken | Malformed | Parsed(value: T)

  datatype Attempt = Attempt(details: Answer<seq<Detail>>, assessments: Answer<seq<Assessment>>)

  datatype Review = Review(draft: Draft, conversations: nat, actions: map<Id, string>, stale: bool)

  datatype Saved = Saved(fingerprint: Fingerprint, draft: Draft, conversations: nat)

  datatype Failure = Missing | TooLarge | Refused | Unavailable | Conflict | BadSaved | Invalid

  function Tasks(actions: map<Id, Action>): map<Id, string> {
    map a | a in actions :: actions[a].task
  }

  predicate Readable(c: Option<Context>) {
    c.Some? && |c.value.sources| <= MAX_CONVERSATIONS && |c.value.actions| <= MAX_ACTIONS
  }

  lemma ReadableExactlyWhen(c: Option<Context>)
    ensures Readable(c) <==> c != None && |c.value.sources| <= 50 && |c.value.actions| <= 100
  {
  }

  method ReviewContext(c: Option<Context>) returns (r: Result<Context, Failure>)
    ensures r.Ok? <==> Readable(c)
    ensures r.Ok? ==> Some(r.value) == c
    ensures r.Err? ==> r.error == if c.None? then Missing else TooLarge
  {
    if c.None? {
      return Err(Missing);
    }
    if |c.value.sources| > MAX_CONVERSATIONS || |c.value.actions| > MAX_ACTIONS {
      return Err(TooLarge);
    }
    r := Ok(c.value);
  }

  predicate Fits(d: Draft) {
    |d.details| <= MAX_ITEMS && |d.completed| <= MAX_ITEMS
  }

  lemma FitsExactlyWhen(d: Draft)
    ensures Fits(d) <==> |d.details| <= 30 && |d.completed| <= 30
  {
  }

  /** The draft is what the attempt's answers say, and nothing else. */
  ghost predicate Delivers(c: Context, a: Attempt, d: Draft) {
    if c.sources == map[] then d.details == [] && d.completed == []
    else
      && a.details == Parsed(d.details)
      && if c.actions == map[] then d.completed == []
         else a.assessments.Parsed? && Matches(a.assessments.value, d.completed)
  }

  /** What one attempt has to deliver for its review to be usable. */
  ghost predicate Usable(c: Context, a: Attempt, d: Draft) {
    if c.sources == map[] then d == Draft([], [])
    else
      && a.details.Parsed? && d.details == a.details.value
      && SourcesOk(Draft(d.details, []), Texts(c.sources))
      && Fits(d)
      && if c.actions == map[] then d.completed == []
         else a.assessments.Parsed? && Accepts(c, a.assessments.value) && d.completed == Completions(a.assessments.value)
  }

  /** The attempt failed in the provider itself, which is not tried again. */
  ghost predicate Fatal(c: Context, a: Attempt) {
    && c.sources != map[]
    && (a.details.Broken?
        || (&& a.details.Parsed? && |a.details.value| <= MAX_ITEMS
            && SourcesOk(Draft(a.details.value, []), Texts(c.sources))
            && c.actions != map[] && a.assessments.Broken?))
  }

  /**
    How attempts fail. An answer that is unreadable or unsupported can be tried again, a provider that raises cannot, and
    supported details with an accepted assessment of the open actions, if there are any, are usable.
  */
  lemma AttemptsFailAsTheyShould(c: Context, a: Attempt)
    ensures c.sources == map[] ==> CanUse(c, a) && !Fatal(c, a)
    ensures c.sources != map[] && a.details.Broken? ==> Fatal(c, a)
    ensures c.sources != map[] && a.details.Malformed? ==> !Fatal(c, a) && !CanUse(c, a)
    ensures c.sources != map[] && a.details.Parsed? && !SourcesOk(Draft(a.details.value, []), Texts(c.sources)) ==>
      !Fatal(c, a) && !CanUse(c, a)
    ensures c.sources != map[] && a.details.Parsed? && SourcesOk(Draft(a.details.value, []), Texts(c.sources)) ==>
      && (|a.details.value| > 30 ==> !Fatal(c, a) && !CanUse(c, a))
      && (|a.details.value| <= 30 && c.actions == map[] ==> CanUse(c, a))
      && (|a.details.value| <= 30 && c.actions != map[] ==>
            && (a.assessments.Broken? <==> Fatal(c, a))
            && (a.assessments.Malformed? ==> !CanUse(c, a))
            && (a.assessments.Parsed? ==>
                  (CanUse(c, a) <==> Accepts(c, a.assessments.value) && |Completions(a.assessments.value)| <= 30)))
  {
    if c.sources == map[] {
      assert Usable(c, a, Draft([], []));
    } else if a.details.Parsed? {
      assert Usable(c, a, Draft(a.details.value, [])) || c.actions != map[] || !CanUse(c, a);
      if a.assessments.Parsed? && c.actions != map[] && Fits(Draft(a.details.value, Completions(a.assessments.value))) {
        assert Usable(c, a, Draft(a.details.value, Completions(a.assessments.value))) || !CanUse(c, a);
      }
    }
  }

  datatype Tried = Drafted(draft: Draft) | Recoverable | Lost

  method TryOnce(c: Context, a: Attempt) returns (r: Tried)
    ensures r.Drafted? ==> Usable(c, a, r.draft)
    ensures forall d :: Usable(c, a, d) ==> r == Drafted(d)
    ensures r.Lost? <==> Fatal(c, a)
  {
    var draft := Draft([], []);
    if c.sources != map[] {
      match a.details {
        case Broken => return Lost;
        case Malformed => return Recoverable;
        case Parsed(details) =>
          if |details| > MAX_ITEMS {
            return Recoverable;
          }
          draft := Draft(details, []);
          var early := ValidateSources(draft, Texts(c.sources), c.actions.Keys);
          if early.Some? {
            return Recoverable;
          }
          if c.actions != map[] {
            match a.assessments {
              case Broken => return Lost;
              case Malformed => return Recoverable;
              case Parsed(assessments) =>
                var completed := ValidateAssessments(c, assessments);
                if completed.None? {
                  return Recoverable;
                }
                draft := Draft(details, completed.value);
                FinalValidationCannotFail(c, details, assessments);
            }
          }
      }
    }
    var final := ValidateSources(draft, Texts(c.sources), c.actions.Keys);
    assert final.None?;
    if !Fits(draft) {
      return Recoverable;
    }
    r := Drafted(draft);
  }

  ghost predicate CanUse(c: Context, a: Attempt) {
    exists d :: Usable(c, a, d)
  }

  /** One more attempt is made after a failure that is not the provider's own. */
  method TryTwice(c: Context, attempts: seq<Attempt>) returns (r: Option<Draft>)
    requires |attempts| == 2
    ensures r.Some? && CanUse(c, attempts[0]) ==> Usable(c, attempts[0], r.value)
    ensures r.Some? && !CanUse(c, attempts[0]) ==> !Fatal(c, attempts[0]) && Usable(c, attempts[1], r.value)
    ensures r.None? ==> !CanUse(c, attempts[0]) && (Fatal(c, attempts[0]) || !CanUse(c, attempts[1]))
  {
    for i := 0 to 2
      invariant i > 0 ==> !CanUse(c, attempts[0]) && !Fatal(c, attempts[0])
      invariant i > 1 ==> !CanUse(c, attempts[1])
    {
      var t := TryOnce(c, attempts[i]);
      if t.Drafted? {
        return Some(t.draft);
      }
      if t.Lost? {
        return None;
      }
    }
    r := None;
  }

  function StillOpen(completed: seq<Completion>, open: set<Id>): seq<Completion> {
    if completed == [] then []
    else
      var n := |completed| - 1;
      StillOpen(completed[..n], open) + if completed[n].action in open then [completed[n]] else []
  }

  lemma {:induction false} StillOpenItems(completed: seq<Completion>, open: set<Id>)
    ensures |StillOpen(completed, open)| <= |completed|
    ensures forall x :: x in StillOpen(completed, open) <==> x in completed && x.action in open
    ensures (forall i, j :: 0 <= i < j < |completed| ==> completed[i].action != completed[j].action) ==>
      ActionsOk(StillOpen(completed, open), open)
  {
    if completed != [] {
      var n := |completed| - 1;
      StillOpenItems(completed[..n], open);
      assert completed == completed[..n] + [completed[n]];
    }
  }

  /** Reading both lists from the end, each completion of an open action is kept, once and in order. */
  ghost predicate Keeps(completed: seq<Completion>, open: set<Id>, kept: seq<Completion>) {
    if completed == [] then kept == []
    else
      var last := completed[|completed| - 1];
      if last.action !in open then Keeps(completed[..|completed| - 1], open, kept)
      else kept != [] && kept[|kept| - 1] == last && Keeps(completed[..|completed| - 1], open, kept[..|kept| - 1])
  }

  lemma {:induction false} StillOpenKeeps(completed: seq<Completion>, open: set<Id>)
    ensures Keeps(completed, open, StillOpen(completed, open))
  {
    if completed != [] {
      var before, kept := completed[..|completed| - 1], StillOpen(completed, open);
      StillOpenKeeps(before, open);
      if completed[|completed| - 1].action in open {
        assert kept[..|kept| - 1] == StillOpen(before, open);
      } else {
        assert kept == StillOpen(before, open);
      }
    }
  }

  /** A saved review was checked against the texts that its fingerprint names. */
  ghost predicate Checked(s: Saved) {
    && Fits(s.draft)
    && SourcesOk(s.draft, s.fingerprint.texts)
    && (forall i, j :: 0 <= i < j < |s.draft.completed| ==> s.draft.completed[i].action != s.draft.completed[j].action)
  }

  lemma SavedStaysValid(s: Saved, c: Context)
    requires Checked(s) && s.fingerprint == FingerprintOf(c)
    ensures SourcesOk(Draft(s.draft.details, StillOpen(s.draft.completed, c.actions.Keys)), Texts(c.sources))
    ensures ActionsOk(StillOpen(s.draft.completed, c.actions.Keys), c.actions.Keys)
  {
    StillOpenItems(s.draft.completed, c.actions.Keys);
    var kept := StillOpen(s.draft.completed, c.actions.Keys);
    forall i | 0 <= i < |kept| ensures Quoted(Texts(c.sources), kept[i].source, kept[i].quote) {
      assert kept[i] in kept;
    }
  }

  /** What a reader of a fresh review may rely on. */
  ghost predicate Trustworthy(r: Review, c: Context) {
    && SourcesOk(r.draft, Texts(c.sources))
    && ActionsOk(r.draft.completed, c.actions.Keys)
    && r.actions.Keys == c.actions.Keys
    && (forall a :: a in c.actions ==> r.actions[a] == c.actions[a].task)
  }

  /** What a reader may rely on whenever a review is opened. */
  ghost predicate Reliable(now: Option<Context>, r: Result<Option<Review>, Failure>) {
    && (r.Err? <==> !Readable(now))
    && (r.Err? ==> r.error == Missing || r.error == TooLarge)
    && (r.Ok? && r.value.Some? ==>
          if r.value.value.stale then r.value.value.draft == Draft([], []) && r.value.value.actions == map[]
          else Trustworthy(r.value.value, now.value))
  }

  datatype Request =
    | Refresh(before: Option<Context>, allowed: bool, first: Attempt, second: Attempt, after: Option<Context>)
    | Open(now: Option<Context>)
    | Archive
    | Restore(index: nat)

  /** The reads at which a review is opened, in order. */
  function Openings(requests: seq<Request>): seq<Option<Context>> {
    if requests == [] then []
    else
      var last := requests[|requests| - 1];
      Openings(requests[..|requests| - 1]) + if last.Open? then [last.now] else []
  }

  /** The saved review of one client, and the reviews that merges have put aside. */
  class ClientReviews {
    var saved: Option<Saved>
    var archived: seq<Option<Saved>>

    ghost predicate Valid()
      reads this
    {
      && (saved.Some? ==> Checked(saved.value))
      && (forall i :: 0 <= i < |archived| && archived[i].Some? ==> Checked(archived[i].value))
    }

    constructor ()
      ensures Valid() && saved == None && archived == []
    {
      saved, archived := None, [];
    }

    /** A merge clears the review of the client that stays and keeps it in its audit. */
    method PutAside()
      requires Valid()
      modifies this
      ensures Valid() && saved == None && archived == old(archived) + [old(saved)]
    {
      saved, archived := None, archived + [saved];
    }

    /** An undo brings back what the audit holds. */
    method BringBack(index: nat)
      requires Valid() && index < |archived|
      modifies this`saved
      ensures Valid() && saved == archived[index]
    {
      saved := archived[index];
    }

    /** Whatever is refreshed, merged and undone in between, every opened review is reliable. */
    method Serve(requests: seq<Request>) returns (shown: seq<(Option<Context>, Result<Option<Review>, Failure>)>)
      requires Valid()
      modifies this
      ensures Valid()
      ensures |shown| == |Openings(requests)|
      ensures forall i :: 0 <= i < |shown| ==> shown[i].0 == Openings(requests)[i] && Reliable(shown[i].0, shown[i].1)
    {
      shown := [];
      for i := 0 to |requests|
        invariant Valid()
        invariant |shown| == |Openings(requests[..i])|
        invariant forall k :: 0 <= k < |shown| ==> shown[k].0 == Openings(requests[..i])[k] && Reliable(shown[k].0, shown[k].1)
      {
        assert requests[..i + 1][..i] == requests[..i];
        match requests[i] {
          case Refresh(before, allowed, first, second, after) =>
            var _ := Generate(before, allowed, [first, second], after);
          case Open(now) =>
            var r := Load(now);
            shown := shown + [(now, r)];
          case Archive => PutAside();
          case Restore(index) =>
            if index < |archived| {
              BringBack(index);
            }
        }
      }
      assert requests[..|requests|] == requests;
    }

    /** The client is read before the provider is asked and again before the review is stored. */
    method Generate(before: Option<Context>, allowed: bool, attempts: seq<Attempt>, after: Option<Context>)
      returns (r: Result<Review, Failure>)
      requires Valid() && |attempts| == 2
      modifies this`saved
      ensures Valid()
      ensures r.Err? ==> saved == old(saved)
      ensures r.Ok? ==>
        && before == after && before.Some?
        && saved == Some(Saved(FingerprintOf(after.value), r.value.draft, |after.value.sources|))
        && Trustworthy(r.value, after.value) && !r.value.stale
        && (forall x :: x in r.value.draft.completed ==> Later(after.value, x))
      ensures r.Ok? <==>
        && Readable(before) && (before.value.sources == map[] || allowed) && before == after
        && (CanUse(before.value, attempts[0])
            || (!Fatal(before.value, attempts[0]) && CanUse(before.value, attempts[1])))
      // What is published and saved is what an attempt delivered: the first, or the second when the first is not usable.
      ensures r.Ok? ==>
        && r.value.conversations == |before.value.sources|
        && Delivers(before.value, if CanUse(before.value, attempts[0]) then attempts[0] else attempts[1], r.value.draft)
      ensures r == Err(Refused) <==> Readable(before) && before.value.sources != map[] && !allowed
      ensures r == Err(Conflict) ==> Readable(before) && Readable(after) && before != after
      ensures Readable(before) && before == after && (before.value.sources == map[] || allowed) && r.Err? ==> r.error == Unavailable
    {
      var c :- ReviewContext(before);
      if c.sources != map[] && !allowed {
        return Err(Refused);
      }
      var tried := TryTwice(c, attempts);
      if tried.None? {
        return Err(Unavailable);
      }
      var draft := tried.value;
      UsableIsValid(c, if CanUse(c, attempts[0]) then attempts[0] else attempts[1], draft);
      var current :- ReviewContext(after);
      if FingerprintOf(current) != FingerprintOf(c) || Payload(current) != Payload(c) {
        return Err(Conflict);
      }
      saved := Some(Saved(FingerprintOf(c), draft, |c.sources|));
      r := Ok(Review(draft, |c.sources|, Tasks(c.actions), false));
    }

    /** A stale review shows nothing that was cached. */
    method Load(now: Option<Context>) returns (r: Result<Option<Review>, Failure>)
      requires Valid()
      ensures r.Err? <==> !Readable(now)
      ensures r.Err? ==> r.error == Missing || r.error == TooLarge
      ensures r.Ok? ==> (r.value.None? <==> saved.None?)
      ensures r.Ok? && saved.Some? && saved.value.fingerprint != FingerprintOf(now.value) ==>
        r.value == Some(Review(Draft([], []), |now.value.sources|, map[], true))
      ensures r.Ok? && saved.Some? && saved.value.fingerprint == FingerprintOf(now.value) ==>
        && Trustworthy(r.value.value, now.value) && !r.value.value.stale
        && r.value.value.draft.details == saved.value.draft.details
        && r.value.value.conversations == saved.value.conversations
        && Keeps(saved.value.draft.completed, now.value.actions.Keys, r.value.value.draft.completed)
    {
      var c :- ReviewContext(now);
      if saved.None? {
        return Ok(None);
      }
      if !Fits(saved.value.draft) {
        return Err(BadSaved);
      }
      if saved.value.fingerprint != FingerprintOf(c) {
        return Ok(Some(Review(Draft([], []), |c.sources|, map[], true)));
      }
      var completed := StillOpen(saved.value.draft.completed, c.actions.Keys);
      var draft := Draft(saved.value.draft.details, completed);
      StillOpenItems(saved.value.draft.completed, c.actions.Keys);
      StillOpenKeeps(saved.value.draft.completed, c.actions.Keys);
      SavedStaysValid(saved.value, c);
      var problem := ValidateSources(draft, Texts(c.sources), c.actions.Keys);
      if problem.Some? {
        return Err(Invalid);
      }
      r := Ok(Some(Review(draft, saved.value.conversations, Tasks(c.actions), false)));
    }
  }

  /** The request body of the provider calls: everything read except the linked conversations. */
  function Payload(c: Context): (string, map<Id, Source>, map<Id, Action>) {
    (c.name, c.sources, c.actions)
  }

  lemma UsableIsValid(c: Context, a: Attempt, d: Draft)
    requires Usable(c, a, d)
    ensures SourcesOk(d, Texts(c.sources)) && ActionsOk(d.completed, c.actions.Keys) && Fits(d)
    ensures forall x :: x in d.completed ==> Later(c, x)
    ensures Delivers(c, a, d)
  {
    if c.sources != map[] && c.actions != map[] {
      FinalValidationCannotFail(c, a.details.value, a.assessments.value);
      CompletionsAreLater(c, a.assessments.value);
      CompletionsMatch(a.assessments.value);
    }
  }
}
