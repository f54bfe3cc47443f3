/** The reader's step-by-step code: the contexts dictionary and the warning counter are
    changed in place, the session variables are passed along. Proved against Step and
    ParseChunk. */
module CodexReader {
  import opened Wrappers
  import opened ByteLines
  import opened CodexTypes
  import opened ContextDict
  import opened Lifecycle
  import opened Chunks

  /** The contexts dictionary and the warning counter a read works on. */
  class Turns {
    var contexts: Dict
    var warnings: multiset<Warning>

    constructor (contexts: Dict)
      ensures this.contexts == contexts && this.warnings == multiset{}
    {
      this.contexts := contexts;
      this.warnings := multiset{};
    }

    /** The state a pair of session variables and this dictionary stand for. */
    ghost function View(session: string, metaId: string): State
      reads this
    {
      State(session, metaId, false, contexts)
    }

    method Warn(w: Warning)
      modifies this
      ensures contexts == old(contexts) && warnings == old(warnings) + multiset{w}
    {
      warnings := warnings + multiset{w};
    }

    method InvalidateLifecycle() returns (session: string, metaId: string)
      modifies this
      ensures contexts == [] && warnings == old(warnings) + multiset{UnsafeLifecycle}
      ensures session == "" && metaId == ""
    {
      contexts := [];
      warnings := warnings + multiset{UnsafeLifecycle};
      session, metaId := "", "";
    }

    /** A warning and an invalidation, as most refused lines cause. */
    method Refuse(w: Warning, ghost st: State) returns (session: string, metaId: string)
      requires !st.discarding
      modifies this
      ensures var o := Invalidate(st, multiset{w});
        View(session, metaId) == o.state && warnings == old(warnings) + o.warnings && o.records == []
    {
      Warn(w);
      session, metaId := InvalidateLifecycle();
    }

    /** The start of a line that is already too long. */
    method DiscardFragment(ghost st: State) returns (session: string, metaId: string)
      requires !st.discarding
      modifies this
      ensures var o := Discard(Outcome(st, [], multiset{}));
        State(session, metaId, true, contexts) == o.state && warnings == old(warnings) + o.warnings && o.records == []
    {
      session, metaId := Refuse(OversizedLine, st);
    }

    method BlockTurn(p: Policy, turn: string, session: string, metaId: string, w: Warning)
      requires Distinct(contexts)
      modifies this
      ensures var o := Lifecycle.BlockTurn(p, old(View(session, metaId)), turn, multiset{w});
        View(session, metaId) == o.state && warnings == old(warnings) + o.warnings && o.records == []
    {
      hide Put, JsonSize, Distinct;
      contexts := Put(contexts, turn, Blocked(session));
      Warn(w);
      if JsonSize(p, contexts) > p.maxContextBytes {
        contexts := [];
        Warn(ContextLimitExceeded);
      }
    }

    method StartSession(session: string, metaId: string, prepared: string, id: Option<string>)
      returns (session': string, metaId': string)
      requires Distinct(contexts)
      modifies this
      ensures var o := Lifecycle.StartSession(old(View(session, metaId)), prepared, id);
        View(session', metaId') == o.state && warnings == old(warnings) + o.warnings && o.records == []
    {
      session', metaId' := session, metaId;
      if prepared == session {
        if id != None && id != Some(metaId) && id != Some(session) {
          session', metaId' := Refuse(AmbiguousSession, View(session, metaId));
        }
      } else {
        contexts := [];
        session' := prepared;
        metaId' := if id.Some? then id.value else prepared;
      }
    }

    /** An accepted declaration: keep, block or open the turn. */
    method DeclareTurn(p: Policy, session: string, metaId: string, turn: string, cwd: string, model: string)
      returns (session': string, metaId': string)
      requires Distinct(contexts) && p.maxRecords > 0
      modifies this
      ensures var o := StartTurn(p, old(View(session, metaId)), turn, Declared(cwd, model));
        View(session', metaId') == o.state && warnings == old(warnings) + o.warnings && o.records == []
    {
      hide Put, JsonSize, Has, Get, Distinct;
      session', metaId' := session, metaId;
      var candidate := Context(false, cwd, model, session);
      if Has(contexts, turn) {
        var existing := Get(contexts, turn);
        if !existing.blocked && existing.cwd == candidate.cwd && existing.model == candidate.model
           && existing.session == candidate.session {
          return;
        }
        BlockTurn(p, turn, session, metaId, AmbiguousTurn);
        return;
      }
      if |contexts| >= p.maxRecords {
        DropOldest(contexts, turn);
        contexts := contexts[1..];
      }
      var tentative := Put(contexts, turn, candidate);
      if JsonSize(p, tentative) > p.maxContextBytes {
        session', metaId' := Refuse(ContextLimitExceeded, View(session, metaId));
        return;
      }
      contexts := tentative;
    }

    /** A turn_context line. badText reports the unicode exception, raised before any change. */
    method TurnContext(p: Policy, session: string, metaId: string, payload: map<string, Json>)
      returns (session': string, metaId': string, badText: bool)
      requires Distinct(contexts) && p.maxRecords > 0
      modifies this
      ensures var event := TurnEvent(p, payload);
              var o := Step(p, old(View(session, metaId)), event);
        if badText
        then contexts == old(contexts) && warnings == old(warnings)
             && o == Invalidate(old(View(session, metaId)), multiset{InvalidUnicode})
        else View(session', metaId') == o.state && warnings == old(warnings) + o.warnings && o.records == []
    {
      hide Distinct, Lifecycle.BlockTurn, OpenTurn, Has, Get;
      session', metaId', badText := session, metaId, false;
      if session == "" {
        Warn(MalformedContext);
        return;
      }
      var turn := Component(p, Field(payload, "turn_id"));
      if turn.None? {
        session', metaId' := Refuse(UnsafeIdentifier, View(session, metaId));
        return;
      }
      var cwdValue := Field(payload, "cwd");
      var summaryValue := if "summary" in payload then Field(payload, "summary") else JString("");
      var cwd := Bounded(p.checkCwd, cwdValue);
      if cwd == NotUtf8 {
        badText := true;
        return;
      }
      if cwd == TooLarge {
        BlockTurn(p, turn.value, session, metaId, FieldTooLarge);
        return;
      }
      var summary := Bounded(p.checkSummary, summaryValue);
      if summary == NotUtf8 {
        badText := true;
        return;
      }
      if summary == TooLarge {
        BlockTurn(p, turn.value, session, metaId, FieldTooLarge);
        return;
      }
      if cwd == Refused || summary == Refused {
        BlockTurn(p, turn.value, session, metaId, MalformedContext);
        return;
      }
      var model := Field(payload, "model");
      if !model.JString? || !p.modelSafe(model.text) {
        BlockTurn(p, turn.value, session, metaId, UnsafeIdentifier);
        return;
      }
      session', metaId' := DeclareTurn(p, session, metaId, turn.value, cwdValue.text, model.text);
    }

    /** The end of a turn: pop its context and, for a completion, try to produce a record. */
    method FinishTurn(p: Policy, turn: string, aborted: bool, message: Json, timestamp: Json)
      returns (produced: seq<Record>)
      requires Distinct(contexts)
      modifies this
      ensures forall session, metaId ::
        var o := EndTurn(p, old(View(session, metaId)), turn, if aborted then Aborted else ReadCompletion(p, message, timestamp));
        View(session, metaId) == o.state && warnings == old(warnings) + o.warnings && produced == o.records
    {
      hide Pop, Has, Get, Distinct, SourceId;
      produced := [];
      var found := if Has(contexts, turn) then Some(Get(contexts, turn)) else None;
      contexts := Pop(contexts, turn);
      if aborted {
        return;
      }
      if found.None? {
        Warn(OrphanCompletion);
        return;
      }
      var context := found.value;
      if context.blocked {
        Warn(AmbiguousCompletion);
        return;
      }
      if !message.JString? || p.isBlank(message.text) {
        Warn(IncompleteCompletion);
        return;
      }
      var verifiedAt := p.timestamp(timestamp);
      if verifiedAt.None? {
        Warn(InvalidTimestamp);
        return;
      }
      if context.session == "" {
        Warn(OrphanCompletion);
        return;
      }
      match p.readLabels(message.text)
      case NoBlock => Warn(NoCaptureBlock);
      case InvalidBlock => Warn(InvalidCaptureBlock);
      case Parsed(labels) =>
        var id := SourceId(context.session, turn);
        if !p.persistedSafe(id) {
          Warn(UnsafeIdentifier);
          return;
        }
        produced := [Record(context.cwd, context.model, id, labels, verifiedAt.value)];
    }

    /** One decoded line. */
    method ProcessRecord(p: Policy, fields: map<string, Json>, session: string, metaId: string)
      returns (session': string, metaId': string, produced: seq<Record>, badText: bool)
      requires Distinct(contexts) && p.maxRecords > 0
      modifies this
      ensures var o := Step(p, old(View(session, metaId)), ValueEvent(p, fields));
        if badText
        then contexts == old(contexts) && warnings == old(warnings)
             && o == Invalidate(old(View(session, metaId)), multiset{InvalidUnicode})
        else View(session', metaId') == o.state && warnings == old(warnings) + o.warnings && produced == o.records
    {
      hide Distinct, StartTurn, EndTurn, Component, ReadDeclaration, ReadCompletion, Lifecycle.StartSession;
      session', metaId', produced, badText := session, metaId, [], false;
      var kind := Field(fields, "type");
      if !kind.JString? {
        session', metaId' := Refuse(MalformedRecord, View(session, metaId));
        return;
      }
      if kind.text in IGNORED_RECORD_TYPES {
        return;
      }
      var payload := Field(fields, "payload");
      if !payload.JObject? {
        session', metaId' := Refuse(MalformedRecord, View(session, metaId));
        return;
      }
      if kind.text == "session_meta" {
        var candidate := if "session_id" in payload.fields then Field(payload.fields, "session_id") else Field(payload.fields, "id");
        var prepared := Component(p, candidate);
        var id := if "id" in payload.fields then Component(p, Field(payload.fields, "id")) else None;
        if prepared.None? || ("id" in payload.fields && id.None?) {
          session', metaId' := Refuse(UnsafeIdentifier, View(session, metaId));
          return;
        }
        session', metaId' := StartSession(session, metaId, prepared.value, id);
        return;
      }
      if kind.text == "turn_context" {
        session', metaId', badText := TurnContext(p, session, metaId, payload.fields);
        return;
      }
      if kind.text != "event_msg" {
        session', metaId' := Refuse(UnknownRecord, View(session, metaId));
        return;
      }
      var event := Field(payload.fields, "type");
      if !event.JString? {
        session', metaId' := Refuse(MalformedRecord, View(session, metaId));
        return;
      }
      if event.text in IGNORED_EVENT_TYPES {
        return;
      }
      if event.text != "turn_aborted" && event.text != "task_complete" {
        session', metaId' := Refuse(UnknownEvent, View(session, metaId));
        return;
      }
      var turn := Component(p, Field(payload.fields, "turn_id"));
      if turn.None? {
        session', metaId' := Refuse(UnsafeIdentifier, View(session, metaId));
        return;
      }
      produced := FinishTurn(p, turn.value, event.text == "turn_aborted",
                             Field(payload.fields, "last_agent_message"), Field(fields, "timestamp"));
    }

    /** One complete line. */
    method ProcessLine(p: Policy, line: Bytes, session: string, metaId: string)
      returns (session': string, metaId': string, produced: seq<Record>)
      requires Distinct(contexts) && p.maxRecords > 0
      modifies this
      ensures var o := Step(p, old(View(session, metaId)), LineEvent(p, line));
        View(session', metaId') == o.state && warnings == old(warnings) + o.warnings && produced == o.records
    {
      hide Distinct, ValueEvent, StartTurn, EndTurn, KnownNonsemantic;
      session', metaId', produced := session, metaId, [];
      if |line| > p.maxNonsemanticBytes {
        session', metaId' := Refuse(OversizedLine, View(session, metaId));
        return;
      }
      var decoded := p.decode(line, |line| > p.maxRecordBytes);
      if decoded.None? || !decoded.value.JObject? {
        session', metaId' := Refuse(MalformedJson, View(session, metaId));
        return;
      }
      var fields := decoded.value.fields;
      if |line| > p.maxRecordBytes || |line| > p.maxLineBytes {
        if KnownNonsemantic(fields) {
          Warn(OversizedLine);
          return;
        }
        session', metaId' := Refuse(OversizedLine, View(session, metaId));
        return;
      }
      var badText;
      session', metaId', produced, badText := ProcessRecord(p, fields, session, metaId);
      if badText {
        session', metaId' := Refuse(InvalidUnicode, View(session, metaId));
        produced := [];
      }
    }
  }

  lemma DropOldest(d: Dict, turn: string)
    requires Distinct(d) && d != []
    ensures Distinct(d[1..])
  {
  }

  /** What was read so far, followed by what reading on from here yields. */
  ghost predicate Continues(whole: Chunk, advanced: nat, records: seq<Record>, seen: multiset<Warning>, rest: Chunk) {
    && whole.consumed == advanced + rest.consumed
    && whole.outcome == Outcome(rest.outcome.state, records + rest.outcome.records, seen + rest.outcome.warnings)
  }

  lemma ContinuesFromStart(whole: Chunk)
    ensures Continues(whole, 0, [], multiset{}, whole)
  {
  }

  lemma ContinuesAfterStep(whole: Chunk, advanced: nat, records: seq<Record>, seen: multiset<Warning>, o: Outcome, n: nat, rest: Chunk)
    requires Continues(whole, advanced, records, seen, Chunk(Then(o, rest.outcome), n + rest.consumed))
    ensures Continues(whole, advanced + n, records + o.records, seen + o.warnings, rest)
  {
  }

  lemma ContinuesToEnd(whole: Chunk, advanced: nat, records: seq<Record>, seen: multiset<Warning>, rest: Chunk)
    requires Continues(whole, advanced, records, seen, rest) && rest.outcome.records == []
    ensures whole == Chunk(Outcome(rest.outcome.state, records, seen + rest.outcome.warnings), advanced + rest.consumed)
  {
  }

  /** The loop over complete lines, from a cursor at the start of a line. */
  method ReadLines(p: Policy, data: Bytes, session: string, metaId: string, turns: Turns)
    returns (records: seq<Record>, cursor: nat, session': string, metaId': string, discarding: bool)
    requires p.Valid() && Distinct(turns.contexts)
    modifies turns
    ensures var c := Consume(p, data, p.maxRecords, old(turns.View(session, metaId)));
      && records == c.outcome.records && cursor == c.consumed
      && State(session', metaId', discarding, turns.contexts) == c.outcome.state
      && turns.warnings == old(turns.warnings) + c.outcome.warnings
  {
    hide Consume, Step, LineEvent, Distinct, IndexOfLf, Continues, Then, Discard, Invalidate, Chunks.ParseChunk;
    records, cursor, session', metaId', discarding := [], 0, session, metaId, false;
    var processed := 0;
    ghost var whole := Consume(p, data, p.maxRecords, turns.View(session, metaId));
    ghost var seen: multiset<Warning> := multiset{};
    ContinuesFromStart(whole);
    while cursor < |data| && processed < p.maxRecords
      invariant cursor <= |data| && processed <= p.maxRecords && Distinct(turns.contexts)
      invariant turns.warnings == old(turns.warnings) + seen
      invariant Continues(whole, cursor, records, seen,
                          Consume(p, data[cursor..], p.maxRecords - processed, turns.View(session', metaId')))
      decreases |data| - cursor
    {
      var rest := data[cursor..];
      ghost var before := turns.View(session', metaId');
      ConsumeUnfold(p, rest, p.maxRecords - processed, before);
      var newline := IndexOfLf(rest);
      if newline == |rest| {
        ContinuesToEnd(whole, cursor, records, seen, Consume(p, rest, p.maxRecords - processed, before));
        if |rest| >= p.maxNonsemanticBytes {
          session', metaId' := turns.DiscardFragment(before);
          cursor := cursor + |rest|;
          discarding := true;
        }
        return;
      }
      var produced;
      session', metaId', produced := turns.ProcessLine(p, rest[..newline + 1], session', metaId');
      ghost var o := Step(p, before, LineEvent(p, rest[..newline + 1]));
      ContinuesAfterStep(whole, cursor, records, seen, o, newline + 1,
                         Consume(p, rest[newline + 1..], p.maxRecords - processed - 1, o.state));
      assert rest[newline + 1..] == data[cursor + newline + 1..];
      records := records + produced;
      seen := seen + o.warnings;
      cursor := cursor + newline + 1;
      processed := processed + 1;
    }
    ConsumeUnfold(p, data[cursor..], p.maxRecords - processed, turns.View(session', metaId'));
    ContinuesToEnd(whole, cursor, records, seen,
                   Consume(p, data[cursor..], p.maxRecords - processed, turns.View(session', metaId')));
  }

  /** One bounded read: skip the rest of a discarded line, then process at most maxRecords
      complete lines; a fragment already too long starts a discard. */
  method ParseChunk(p: Policy, data: Bytes, initialOffset: nat, session: string, metaId: string, discarding: bool, turns: Turns)
    returns (records: seq<Record>, offset: nat, session': string, metaId': string, discarding': bool)
    requires p.Valid() && Distinct(turns.contexts)
    modifies turns
    ensures var c := Chunks.ParseChunk(p, data, old(State(session, metaId, discarding, turns.contexts)));
      && records == c.outcome.records
      && offset == initialOffset + c.consumed
      && State(session', metaId', discarding', turns.contexts) == c.outcome.state
      && turns.warnings == old(turns.warnings) + c.outcome.warnings
  {
    hide Consume, Distinct, IndexOfLf;
    var cursor := 0;
    if discarding {
      var newline := IndexOfLf(data);
      if newline == |data| {
        return [], initialOffset + |data|, session, metaId, true;
      }
      cursor := newline + 1;
    }
    var read;
    records, read, session', metaId', discarding' := ReadLines(p, data[cursor..], session, metaId, turns);
    offset := initialOffset + cursor + read;
    assert data[0..] == data;
  }
}
