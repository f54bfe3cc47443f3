/** The lifecycle carried by the log reader. A line is first classified on its own (size,
    decoding, identifiers, bounded fields) into an event; an event then changes the state.
    RunEvents is one pass over complete lines; Scan is that pass over a byte prefix. */
module Lifecycle {
  import opened Wrappers
  import opened ByteLines
  import opened CodexTypes
  import opened ContextDict

  datatype State = State(session: string, metaId: string, discarding: bool, contexts: Dict)

  const INITIAL := State("", "", false, [])

  /** What a turn_context line declares once its turn identifier is accepted. */
  datatype Declaration = Declared(cwd: string, model: string) | Unusable(reason: Warning) | NotUnicode

  /** What an accepted end of turn carries. */
  datatype Completion = Aborted | Incomplete(reason: Warning) | Complete(verdict: LabelVerdict, at: int)

  datatype Event =
    | Skip(noise: multiset<Warning>)
    | Poison(reason: Warning)
    | SessionStart(session: string, metaId: Option<string>)
    | TurnStart(turnId: Option<string>, declaration: Declaration)
    | TurnEnd(turn: string, completion: Completion)

  datatype Outcome = Outcome(state: State, records: seq<Record>, warnings: multiset<Warning>)

  // ---------- classification ----------

  function Component(p: Policy, value: Json): Option<string> {
    if value.JString? && p.IsComponent(value.text) then Some(value.text) else None
  }

  predicate KnownNonsemantic(fields: map<string, Json>) {
    var kind := Field(fields, "type");
    kind.JString? &&
    (kind.text in IGNORED_RECORD_TYPES ||
     (kind.text == "event_msg" &&
      var payload := Field(fields, "payload");
      payload.JObject? &&
      var event := Field(payload.fields, "type");
      event.JString? && event.text in IGNORED_EVENT_TYPES))
  }

  function LineEvent(p: Policy, line: Bytes): Event {
    if |line| > p.maxNonsemanticBytes then Poison(OversizedLine)
    else
      match p.decode(line, |line| > p.maxRecordBytes)
      case None => Poison(MalformedJson)
      case Some(value) =>
        if !value.JObject? then Poison(MalformedJson)
        else if |line| > p.maxRecordBytes || |line| > p.maxLineBytes then
          if KnownNonsemantic(value.fields) then Skip(multiset{OversizedLine}) else Poison(OversizedLine)
        else ValueEvent(p, value.fields)
  }

  function ValueEvent(p: Policy, fields: map<string, Json>): Event {
    var kind := Field(fields, "type");
    if !kind.JString? then Poison(MalformedRecord)
    else if kind.text in IGNORED_RECORD_TYPES then Skip(multiset{})
    else
      var payload := Field(fields, "payload");
      if !payload.JObject? then Poison(MalformedRecord)
      else if kind.text == "session_meta" then SessionEvent(p, payload.fields)
      else if kind.text == "turn_context" then
        TurnEvent(p, payload.fields)
      else if kind.text == "event_msg" then
        EndEvent(p, payload.fields, Field(fields, "timestamp"))
      else Poison(UnknownRecord)
  }

  function SessionEvent(p: Policy, payload: map<string, Json>): Event {
    var candidate := if "session_id" in payload then Field(payload, "session_id") else Field(payload, "id");
    match Component(p, candidate)
    case None => Poison(UnsafeIdentifier)
    case Some(session) =>
      if "id" !in payload then SessionStart(session, None)
      else
        match Component(p, Field(payload, "id"))
        case None => Poison(UnsafeIdentifier)
        case Some(id) => SessionStart(session, Some(id))
  }

  function TurnEvent(p: Policy, payload: map<string, Json>): Event {
    match Component(p, Field(payload, "turn_id"))
    case None => TurnStart(None, Unusable(UnsafeIdentifier))
    case Some(turn) => TurnStart(Some(turn), ReadDeclaration(p, payload))
  }

  function Bounded(check: string -> TextVerdict, value: Json): TextVerdict {
    if value.JString? then check(value.text) else Refused
  }

  function ReadDeclaration(p: Policy, payload: map<string, Json>): Declaration {
    var cwdValue := Field(payload, "cwd");
    var summaryValue := if "summary" in payload then Field(payload, "summary") else JString("");
    var cwd := Bounded(p.checkCwd, cwdValue);
    var summary := Bounded(p.checkSummary, summaryValue);
    if cwd == NotUtf8 then NotUnicode
    else if cwd == TooLarge then Unusable(FieldTooLarge)
    else if summary == NotUtf8 then NotUnicode
    else if summary == TooLarge then Unusable(FieldTooLarge)
    else if cwd == Refused || summary == Refused then Unusable(MalformedContext)
    else
      var model := Field(payload, "model");
      if model.JString? && p.modelSafe(model.text)
      then Declared(cwdValue.text, model.text)
      else Unusable(UnsafeIdentifier)
  }

  function EndEvent(p: Policy, payload: map<string, Json>, timestamp: Json): Event {
    var event := Field(payload, "type");
    if !event.JString? then Poison(MalformedRecord)
    else if event.text in IGNORED_EVENT_TYPES then Skip(multiset{})
    else if event.text != "turn_aborted" && event.text != "task_complete" then Poison(UnknownEvent)
    else
      match Component(p, Field(payload, "turn_id"))
      case None => Poison(UnsafeIdentifier)
      case Some(turn) =>
        TurnEnd(turn,
                if event.text == "turn_aborted" then Aborted
                else ReadCompletion(p, Field(payload, "last_agent_message"), timestamp))
  }

  function ReadCompletion(p: Policy, message: Json, timestamp: Json): Completion {
    if !message.JString? || p.isBlank(message.text) then Incomplete(IncompleteCompletion)
    else
      match p.timestamp(timestamp)
      case None => Incomplete(InvalidTimestamp)
      case Some(at) => Complete(p.readLabels(message.text), at)
  }

  // ---------- state change ----------

  function Invalidate(st: State, reasons: multiset<Warning>): (o: Outcome)
    ensures Distinct(o.state.contexts)
  {
    Outcome(State("", "", st.discarding, []), [], reasons + multiset{UnsafeLifecycle})
  }

  function Blocked(session: string): Context {
    Context(true, "", "", session)
  }

  function BlockTurn(p: Policy, st: State, turn: string, reasons: multiset<Warning>): (o: Outcome)
    requires Distinct(st.contexts)
    ensures Distinct(o.state.contexts)
  {
    var contexts := Put(st.contexts, turn, Blocked(st.session));
    if JsonSize(p, contexts) > p.maxContextBytes
    then Outcome(st.(contexts := []), [], reasons + multiset{ContextLimitExceeded})
    else Outcome(st.(contexts := contexts), [], reasons)
  }

  /** Insert a new turn, evicting the oldest entry of a full dictionary. */
  function OpenTurn(p: Policy, st: State, turn: string, context: Context): (o: Outcome)
    requires Distinct(st.contexts) && !Has(st.contexts, turn)
    ensures Distinct(o.state.contexts)
  {
    var kept := if |st.contexts| > 0 && |st.contexts| >= p.maxRecords then st.contexts[1..] else st.contexts;
    var tentative := Put(kept, turn, context);
    if JsonSize(p, tentative) > p.maxContextBytes
    then Invalidate(st, multiset{ContextLimitExceeded})
    else Outcome(st.(contexts := tentative), [], multiset{})
  }

  function StartTurn(p: Policy, st: State, turn: string, declaration: Declaration): (o: Outcome)
    requires Distinct(st.contexts)
    ensures Distinct(o.state.contexts)
  {
    match declaration
    case NotUnicode => Invalidate(st, multiset{InvalidUnicode})
    case Unusable(reason) => BlockTurn(p, st, turn, multiset{reason})
    case Declared(cwd, model) =>
      var context := Context(false, cwd, model, st.session);
      if !Has(st.contexts, turn) then OpenTurn(p, st, turn, context)
      else if Get(st.contexts, turn) == context then Outcome(st, [], multiset{})
      else BlockTurn(p, st, turn, multiset{AmbiguousTurn})
  }

  /** What the end of a turn produces, given the context found (and popped) for it. */
  function Finish(p: Policy, found: Option<Context>, turn: string, completion: Completion): (seq<Record>, multiset<Warning>) {
    if completion.Aborted? then ([], multiset{})
    else if found.None? then ([], multiset{OrphanCompletion})
    else
      var context := found.value;
      if context.blocked then ([], multiset{AmbiguousCompletion})
      else if completion.Incomplete? then ([], multiset{completion.reason})
      else if context.session == "" then ([], multiset{OrphanCompletion})
      else
        match completion.verdict
        case NoBlock => ([], multiset{NoCaptureBlock})
        case InvalidBlock => ([], multiset{InvalidCaptureBlock})
        case Parsed(labels) =>
          var id := SourceId(context.session, turn);
          if p.persistedSafe(id)
          then ([Record(context.cwd, context.model, id, labels, completion.at)], multiset{})
          else ([], multiset{UnsafeIdentifier})
  }

  function EndTurn(p: Policy, st: State, turn: string, completion: Completion): (o: Outcome)
    requires Distinct(st.contexts)
    ensures Distinct(o.state.contexts)
  {
    var found := if Has(st.contexts, turn) then Some(Get(st.contexts, turn)) else None;
    var (records, warnings) := Finish(p, found, turn, completion);
    Outcome(st.(contexts := Pop(st.contexts, turn)), records, warnings)
  }

  function StartSession(st: State, session: string, metaId: Option<string>): (o: Outcome)
    requires Distinct(st.contexts)
    ensures Distinct(o.state.contexts)
  {
    if session == st.session then
      if metaId.Some? && metaId.value != st.metaId && metaId.value != st.session
      then Invalidate(st, multiset{AmbiguousSession})
      else Outcome(st, [], multiset{})
    else
      Outcome(State(session, if metaId.Some? then metaId.value else session, st.discarding, []), [], multiset{})
  }

  function Step(p: Policy, st: State, event: Event): (o: Outcome)
    requires Distinct(st.contexts)
    ensures Distinct(o.state.contexts)
  {
    match event
    case Skip(noise) => Outcome(st, [], noise)
    case Poison(reason) => Invalidate(st, multiset{reason})
    case SessionStart(session, metaId) => StartSession(st, session, metaId)
    case TurnStart(turn, declaration) =>
      if st.session == "" then Outcome(st, [], multiset{MalformedContext})
      else if turn.None? then Invalidate(st, multiset{UnsafeIdentifier})
      else StartTurn(p, st, turn.value, declaration)
    case TurnEnd(turn, completion) => EndTurn(p, st, turn, completion)
  }

  // ---------- one pass ----------

  function Then(first: Outcome, second: Outcome): Outcome {
    Outcome(second.state, first.records + second.records, first.warnings + second.warnings)
  }

  function RunEvents(p: Policy, st: State, events: seq<Event>): (o: Outcome)
    requires Distinct(st.contexts)
    ensures Distinct(o.state.contexts)
  {
    if events == [] then Outcome(st, [], multiset{})
    else
      var before := RunEvents(p, st, events[..|events| - 1]);
      Then(before, Step(p, before.state, events[|events| - 1]))
  }

  function Events(p: Policy, lines: seq<Bytes>): (events: seq<Event>)
    ensures |events| == |lines|
    ensures forall k :: 0 <= k < |lines| ==> events[k] == LineEvent(p, lines[k])
  {
    seq(|lines|, k requires 0 <= k < |lines| => LineEvent(p, lines[k]))
  }

  /** The start of an oversized line has been seen and its rest is being discarded. */
  function Discard(o: Outcome): (r: Outcome)
    ensures Distinct(r.state.contexts)
    ensures r.records == o.records && r.state.discarding
  {
    Outcome(State("", "", true, []), o.records, o.warnings + multiset{OversizedLine, UnsafeLifecycle})
  }

  /** One pass over the complete lines of some bytes. Bytes that end inside a line stand for
      a reader that is discarding that line. */
  function ScanFrom(p: Policy, start: State, bytes: Bytes): (o: Outcome)
    requires Distinct(start.contexts)
    ensures Distinct(o.state.contexts)
  {
    var complete := RunEvents(p, start, Events(p, Lines(bytes)));
    if Tail(bytes) == [] then complete else Discard(complete)
  }

  /** One pass over a prefix of the file. */
  function Scan(p: Policy, prefix: Bytes): (o: Outcome)
    ensures Distinct(o.state.contexts)
  {
    ScanFrom(p, INITIAL, prefix)
  }

  /** Where a reader may stop: on a line boundary, or inside a line already known to be
      too long. */
  predicate CutPoint(p: Policy, prefix: Bytes) {
    Tail(prefix) == [] || |Tail(prefix)| >= p.maxNonsemanticBytes
  }

  lemma ThenAssociative(a: Outcome, b: Outcome, c: Outcome)
    ensures Then(Then(a, b), c) == Then(a, Then(b, c))
  {
  }

  lemma ThenNothing(a: Outcome)
    ensures Then(a, Outcome(a.state, [], multiset{})) == a
  {
  }

  lemma RunSnoc(p: Policy, st: State, events: seq<Event>, event: Event)
    requires Distinct(st.contexts)
    ensures RunEvents(p, st, events + [event])
         == Then(RunEvents(p, st, events), Step(p, RunEvents(p, st, events).state, event))
  {
    hide Step, Then;
    var all := events + [event];
    assert all[..|all| - 1] == events && all[|all| - 1] == event;
  }

  lemma RunNothing(p: Policy, st: State)
    requires Distinct(st.contexts)
    ensures RunEvents(p, st, []) == Outcome(st, [], multiset{})
  {
  }

  lemma ThenState(a: Outcome, b: Outcome)
    ensures Then(a, b).state == b.state
  {
  }

  lemma {:induction false} RunConcat(p: Policy, st: State, a: seq<Event>, b: seq<Event>)
    requires Distinct(st.contexts)
    ensures RunEvents(p, st, a + b)
         == Then(RunEvents(p, st, a), RunEvents(p, RunEvents(p, st, a).state, b))
    decreases |b|
  {
    hide *;
    var first := RunEvents(p, st, a);
    if b == [] {
      assert a + b == a;
      RunNothing(p, first.state);
      ThenNothing(first);
    } else {
      var front, last := b[..|b| - 1], b[|b| - 1];
      RunConcat(p, st, a, front);
      var middle := RunEvents(p, first.state, front);
      assert a + b == (a + front) + [last] && b == front + [last];
      RunSnoc(p, st, a + front, last);
      RunSnoc(p, first.state, front, last);
      ThenState(first, middle);
      ThenAssociative(first, middle, Step(p, middle.state, last));
    }
  }

  lemma EventsConcat(p: Policy, a: seq<Bytes>, b: seq<Bytes>)
    ensures Events(p, a + b) == Events(p, a) + Events(p, b)
  {
    hide LineEvent;
  }
}
