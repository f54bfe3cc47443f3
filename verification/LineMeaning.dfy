/** What one line of a log says, in terms of its decoded object alone: which keys it has, which texts
    stand under them, and which of the reader's checks accept those. */
module LineMeaning {
  import opened Wrappers
  import opened ByteLines
  import opened CodexTypes
  import opened Lifecycle
  import RuntimeModel

  type Object = map<string, Json>

  /** The object holds this value under this key. */
  predicate Holds(fields: Object, key: string, value: Json) {
    key in fields && fields[key] == value
  }

  predicate HoldsText(fields: Object, key: string, text: string) {
    Holds(fields, key, JString(text))
  }

  /** The identifier under this key, accepted. */
  predicate HoldsId(p: Policy, fields: Object, key: string, id: string) {
    HoldsText(fields, key, id) && p.IsComponent(id)
  }

  /** The line is small enough to be a record, and decodes to this object. */
  predicate IsRecord(p: Policy, line: Bytes, fields: Object) {
    && |line| <= p.maxNonsemanticBytes && |line| <= p.maxRecordBytes && |line| <= p.maxLineBytes
    && p.decode(line, false) == Some(JObject(fields))
  }

  /** A record of this type with this payload. */
  ghost predicate IsMessage(p: Policy, line: Bytes, kind: string, payload: Object) {
    exists fields :: IsRecord(p, line, fields) && IsMessageObject(fields, kind, payload)
  }

  predicate IsMessageObject(fields: Object, kind: string, payload: Object) {
    HoldsText(fields, "type", kind) && Holds(fields, "payload", JObject(payload))
  }

  /** What a check says of the value under a key; a value that is no text is refused. */
  function VerdictAt(fields: Object, key: string, check: string -> TextVerdict): TextVerdict {
    if key in fields && fields[key].JString? then check(fields[key].text) else Refused
  }

  lemma KindsDiffer()
    ensures "session_meta" != "turn_context" && "session_meta" != "event_msg" && "turn_context" != "event_msg"
    ensures "session_meta" !in IGNORED_RECORD_TYPES && "turn_context" !in IGNORED_RECORD_TYPES
    ensures "event_msg" !in IGNORED_RECORD_TYPES
  {
    assert "session_meta"[0] != "turn_context"[0] && |"event_msg"| == 9 && "event_msg"[0] != "compacted"[0];
  }

  lemma EndingsDiffer()
    ensures "task_complete" != "turn_aborted"
    ensures "task_complete" !in IGNORED_EVENT_TYPES && "turn_aborted" !in IGNORED_EVENT_TYPES
  {
    assert |"task_complete"| == 13 && |"turn_aborted"| == 12;
    assert "task_complete"[0] != "agent_message"[0];
    assert "turn_aborted"[1] != "task_started"[1] && "turn_aborted"[0] != "user_message"[0];
  }

  // ---------- sizes and decoding ----------

  predicate IsText(fields: Object, key: string) {
    key in fields && fields[key].JString?
  }

  predicate IsObject(fields: Object, key: string) {
    key in fields && fields[key].JObject?
  }

  /** A type, or an event type, that the reader knows and ignores. */
  predicate Ignorable(fields: Object) {
    || (IsText(fields, "type") && fields["type"].text in IGNORED_RECORD_TYPES)
    || (HoldsText(fields, "type", "event_msg") && IsObject(fields, "payload")
        && IsText(fields["payload"].fields, "type") && fields["payload"].fields["type"].text in IGNORED_EVENT_TYPES)
  }

  predicate Decodes(p: Policy, line: Bytes) {
    var value := p.decode(line, |line| > p.maxRecordBytes);
    value.Some? && value.value.JObject?
  }

  lemma RecordSays(p: Policy, line: Bytes, fields: Object)
    requires IsRecord(p, line, fields)
    ensures LineEvent(p, line) == ValueEvent(p, fields)
    ensures line != [] && line[|line| - 1] == LF ==> RuntimeModel.Listen(p, line) == RuntimeModel.ListenValue(p, fields)
  {
  }

  /** Lines that are no records: oversized, not decodable, or large and ignored. */
  lemma NoRecordSays(p: Policy, line: Bytes)
    requires forall fields :: !IsRecord(p, line, fields)
    ensures LineEvent(p, line) ==
            if |line| > p.maxNonsemanticBytes then Poison(OversizedLine)
            else if !Decodes(p, line) then Poison(MalformedJson)
            else if Ignorable(p.decode(line, |line| > p.maxRecordBytes).value.fields) then Skip(multiset{OversizedLine})
            else Poison(OversizedLine)
    ensures RuntimeModel.Listen(p, line) ==
            if line != [] && line[|line| - 1] == LF && |line| <= p.maxNonsemanticBytes && Decodes(p, line)
               && Ignorable(p.decode(line, |line| > p.maxRecordBytes).value.fields)
            then RuntimeModel.Nothing else RuntimeModel.Broken
  {
    if |line| <= p.maxNonsemanticBytes && Decodes(p, line) {
      var fields := p.decode(line, |line| > p.maxRecordBytes).value.fields;
      assert !IsRecord(p, line, fields);
      KnownIsIgnorable(fields);
      hide ValueEvent, RuntimeModel.ListenValue, KnownNonsemantic, Ignorable;
    }
  }

  lemma KnownIsIgnorable(fields: Object)
    ensures KnownNonsemantic(fields) <==> Ignorable(fields)
  {
  }

  // ---------- objects, as the reader takes them ----------

  predicate StartsSession(p: Policy, payload: Object, session: string, metaId: Option<string>) {
    && HoldsId(p, payload, if "session_id" in payload then "session_id" else "id", session)
    && match metaId
       case None => "id" !in payload
       case Some(id) => HoldsId(p, payload, "id", id)
  }

  function SummaryVerdict(p: Policy, payload: Object): TextVerdict {
    if "summary" in payload then VerdictAt(payload, "summary", p.checkSummary) else p.checkSummary("")
  }

  /** Every part of a usable context is there and accepted. */
  predicate DeclaresTurn(p: Policy, payload: Object, turn: string, cwd: string, model: string) {
    && HoldsId(p, payload, "turn_id", turn)
    && HoldsText(payload, "cwd", cwd) && p.checkCwd(cwd) == Accepted
    && SummaryVerdict(p, payload) == Accepted
    && HoldsText(payload, "model", model) && p.modelSafe(model)
  }

  /** A final message that is not blank, at a time. */
  predicate CompletesTurn(p: Policy, fields: Object, payload: Object, turn: string, verdict: LabelVerdict, at: int) {
    && HoldsText(payload, "type", "task_complete") && HoldsId(p, payload, "turn_id", turn)
    && IsText(payload, "last_agent_message") && !p.isBlank(payload["last_agent_message"].text)
    && verdict == p.readLabels(payload["last_agent_message"].text)
    && p.timestamp(if "timestamp" in fields then fields["timestamp"] else JNull) == Some(at)
  }

  lemma SessionObject(p: Policy, fields: Object, payload: Object, session: string, metaId: Option<string>)
    requires IsMessageObject(fields, "session_meta", payload)
    ensures ValueEvent(p, fields) == SessionStart(session, metaId) <==> StartsSession(p, payload, session, metaId)
    ensures ValueEvent(p, fields).SessionStart? || ValueEvent(p, fields) == Poison(UnsafeIdentifier)
  {
    KindsDiffer();
    hide IGNORED_RECORD_TYPES, Policy.IsComponent;
  }

  lemma ContextObject(p: Policy, fields: Object, payload: Object, turn: string, cwd: string, model: string)
    requires IsMessageObject(fields, "turn_context", payload)
    ensures ValueEvent(p, fields).TurnStart?
    ensures ValueEvent(p, fields) == TurnStart(Some(turn), Declared(cwd, model)) <==> DeclaresTurn(p, payload, turn, cwd, model)
    ensures ValueEvent(p, fields).turnId == Some(turn) <==> HoldsId(p, payload, "turn_id", turn)
    ensures
      var c, s := VerdictAt(payload, "cwd", p.checkCwd), SummaryVerdict(p, payload);
      var declaration := ValueEvent(p, fields).declaration;
      HoldsId(p, payload, "turn_id", turn) ==>
        && (declaration == NotUnicode <==> c == NotUtf8 || (c != TooLarge && s == NotUtf8))
        && (declaration == Unusable(FieldTooLarge) <==> c == TooLarge || (c != NotUtf8 && s == TooLarge))
        && (declaration == Unusable(MalformedContext) <==>
              c in {Accepted, Refused} && s in {Accepted, Refused} && (c == Refused || s == Refused))
        && (declaration == Unusable(UnsafeIdentifier) <==>
              c == s == Accepted && !(IsText(payload, "model") && p.modelSafe(payload["model"].text)))
  {
    KindsDiffer();
    hide IGNORED_RECORD_TYPES, Policy.IsComponent;
  }

  lemma EndObject(p: Policy, fields: Object, payload: Object, turn: string, verdict: LabelVerdict, at: int)
    requires IsMessageObject(fields, "event_msg", payload)
    ensures ValueEvent(p, fields) == TurnEnd(turn, Complete(verdict, at)) <==>
            CompletesTurn(p, fields, payload, turn, verdict, at)
    ensures ValueEvent(p, fields) == TurnEnd(turn, Aborted) <==>
            HoldsText(payload, "type", "turn_aborted") && HoldsId(p, payload, "turn_id", turn)
    ensures ValueEvent(p, fields) == TurnEnd(turn, Incomplete(IncompleteCompletion)) <==>
            HoldsText(payload, "type", "task_complete") && HoldsId(p, payload, "turn_id", turn)
            && !(IsText(payload, "last_agent_message") && !p.isBlank(payload["last_agent_message"].text))
    ensures ValueEvent(p, fields) == TurnEnd(turn, Incomplete(InvalidTimestamp)) <==>
            HoldsText(payload, "type", "task_complete") && HoldsId(p, payload, "turn_id", turn)
            && IsText(payload, "last_agent_message") && !p.isBlank(payload["last_agent_message"].text)
            && p.timestamp(if "timestamp" in fields then fields["timestamp"] else JNull).None?
    ensures ValueEvent(p, fields) == Skip(multiset{}) <==>
            IsText(payload, "type") && payload["type"].text in IGNORED_EVENT_TYPES
    ensures ValueEvent(p, fields) == Poison(MalformedRecord) <==> !IsText(payload, "type")
    ensures ValueEvent(p, fields) == Poison(UnknownEvent) <==>
            IsText(payload, "type") && payload["type"].text !in IGNORED_EVENT_TYPES
            && payload["type"].text != "task_complete" && payload["type"].text != "turn_aborted"
    ensures ValueEvent(p, fields) == Poison(UnsafeIdentifier) <==>
            (HoldsText(payload, "type", "task_complete") || HoldsText(payload, "type", "turn_aborted"))
            && !(IsText(payload, "turn_id") && p.IsComponent(payload["turn_id"].text))
  {
    KindsDiffer();
    EndingsDiffer();
    hide IGNORED_RECORD_TYPES, IGNORED_EVENT_TYPES, Policy.IsComponent;
  }

  /** Everything that is no message of the three known types. */
  lemma OtherObject(p: Policy, fields: Object)
    requires !(IsObject(fields, "payload") && HoldsText(fields, "type", "session_meta"))
    requires !(IsObject(fields, "payload") && HoldsText(fields, "type", "turn_context"))
    requires !(IsObject(fields, "payload") && HoldsText(fields, "type", "event_msg"))
    ensures ValueEvent(p, fields) ==
            if !IsText(fields, "type") then Poison(MalformedRecord)
            else if fields["type"].text in IGNORED_RECORD_TYPES then Skip(multiset{})
            else if !IsObject(fields, "payload") then Poison(MalformedRecord)
            else Poison(UnknownRecord)
    ensures RuntimeModel.ListenValue(p, fields) ==
            if IsText(fields, "type") && fields["type"].text in IGNORED_RECORD_TYPES then RuntimeModel.Nothing
            else RuntimeModel.Broken
  {
    hide IGNORED_RECORD_TYPES;
  }

  // ---------- objects, as the resolver takes them ----------

  predicate NamesThread(p: Policy, payload: Object, id: Option<string>, session: Option<string>) {
    && (match id case None => "id" !in payload case Some(x) => HoldsId(p, payload, "id", x))
    && (match session case None => "session_id" !in payload case Some(x) => HoldsId(p, payload, "session_id", x))
  }

  /** The turn, its working directory and its model, each under its own key. */
  predicate DeclaresPair(p: Policy, payload: Object, turn: string, cwd: string, model: string) {
    && HoldsId(p, payload, "turn_id", turn)
    && HoldsText(payload, "cwd", cwd) && p.checkCwd(cwd) == Accepted
    && HoldsText(payload, "model", model) && p.modelSafe(model)
  }

  predicate EndsTurn(p: Policy, payload: Object, turn: string) {
    && (HoldsText(payload, "type", "task_complete") || HoldsText(payload, "type", "turn_aborted"))
    && HoldsId(p, payload, "turn_id", turn)
  }

  lemma MetaHeard(p: Policy, fields: Object, payload: Object, id: Option<string>, session: Option<string>)
    requires IsMessageObject(fields, "session_meta", payload)
    ensures RuntimeModel.ListenValue(p, fields) == RuntimeModel.Meta(id, session) <==> NamesThread(p, payload, id, session)
    ensures RuntimeModel.ListenValue(p, fields).Meta? || RuntimeModel.ListenValue(p, fields).Broken?
  {
    KindsDiffer();
    hide IGNORED_RECORD_TYPES, Policy.IsComponent;
  }

  lemma ContextHeard(p: Policy, fields: Object, payload: Object, turn: string, cwd: string, model: string)
    requires IsMessageObject(fields, "turn_context", payload)
    ensures RuntimeModel.ListenValue(p, fields) == RuntimeModel.Later(RuntimeModel.Declares(turn, cwd, model)) <==>
            DeclaresPair(p, payload, turn, cwd, model)
    ensures RuntimeModel.ListenValue(p, fields).Later?
    ensures RuntimeModel.ListenValue(p, fields).late.Declares? || RuntimeModel.ListenValue(p, fields).late.Unacceptable?
  {
    KindsDiffer();
    hide IGNORED_RECORD_TYPES, Policy.IsComponent;
  }

  lemma EndHeard(p: Policy, fields: Object, payload: Object, turn: string)
    requires IsMessageObject(fields, "event_msg", payload)
    ensures RuntimeModel.ListenValue(p, fields).Later?
    ensures RuntimeModel.ListenValue(p, fields).late == RuntimeModel.Finishes(turn) <==> EndsTurn(p, payload, turn)
    ensures RuntimeModel.ListenValue(p, fields).late == RuntimeModel.Quiet <==>
            IsText(payload, "type") && payload["type"].text in IGNORED_EVENT_TYPES
    ensures !RuntimeModel.ListenValue(p, fields).late.Declares?
  {
    KindsDiffer();
    EndingsDiffer();
    hide IGNORED_RECORD_TYPES, IGNORED_EVENT_TYPES, Policy.IsComponent;
  }

  // ---------- whole lines ----------

  predicate IsKind(fields: Object, kind: string) {
    IsObject(fields, "payload") && HoldsText(fields, "type", kind)
  }

  lemma KindIsMessage(fields: Object, kind: string)
    requires IsKind(fields, kind)
    ensures IsMessageObject(fields, kind, fields["payload"].fields)
  {
  }

  /** Which events and which findings the three types can give. */
  lemma KindDecides(p: Policy, fields: Object)
    ensures !IsKind(fields, "session_meta") ==> !ValueEvent(p, fields).SessionStart? && !RuntimeModel.ListenValue(p, fields).Meta?
    ensures !IsKind(fields, "turn_context") ==>
              !ValueEvent(p, fields).TurnStart?
              && (RuntimeModel.ListenValue(p, fields).Later? ==> !RuntimeModel.ListenValue(p, fields).late.Declares?)
    ensures !IsKind(fields, "event_msg") ==>
              !ValueEvent(p, fields).TurnEnd?
              && (RuntimeModel.ListenValue(p, fields).Later? ==>
                    !RuntimeModel.ListenValue(p, fields).late.Finishes? && !RuntimeModel.ListenValue(p, fields).late.Quiet?)
  {
    hide ValueEvent, RuntimeModel.ListenValue, IsMessageObject, StartsSession, NamesThread, DeclaresTurn, DeclaresPair,
         CompletesTurn, EndsTurn;
    if IsKind(fields, "session_meta") {
      KindIsMessage(fields, "session_meta");
      SessionObject(p, fields, fields["payload"].fields, "", None);
      MetaHeard(p, fields, fields["payload"].fields, None, None);
    } else if IsKind(fields, "turn_context") {
      KindIsMessage(fields, "turn_context");
      ContextObject(p, fields, fields["payload"].fields, "", "", "");
      ContextHeard(p, fields, fields["payload"].fields, "", "", "");
    } else if IsKind(fields, "event_msg") {
      KindIsMessage(fields, "event_msg");
      EndObject(p, fields, fields["payload"].fields, "", NoBlock, 0);
      EndHeard(p, fields, fields["payload"].fields, "");
      EndIsEnd(p, fields);
    } else {
      OtherObject(p, fields);
    }
  }

  lemma EndIsEnd(p: Policy, fields: Object)
    requires IsKind(fields, "event_msg")
    ensures !ValueEvent(p, fields).SessionStart? && !ValueEvent(p, fields).TurnStart?
  {
    KindsDiffer();
    hide IGNORED_RECORD_TYPES, IGNORED_EVENT_TYPES, Policy.IsComponent;
  }

  /** The message of this type that the line is, if it is one. */
  lemma TheMessage(p: Policy, line: Bytes, kind: string) returns (found: bool, fields: Object, payload: Object)
    ensures found ==> IsRecord(p, line, fields) && IsMessageObject(fields, kind, payload)
    ensures forall other :: IsMessage(p, line, kind, other) <==> found && other == payload
    ensures !found ==> forall f: Object :: IsRecord(p, line, f) ==> !IsKind(f, kind)
  {
    found, fields, payload := false, map[], map[];
    if f: Object :| IsRecord(p, line, f) {
      fields := f;
      found := IsKind(f, kind);
      if found {
        payload := f["payload"].fields;
      }
    }
  }

  lemma NoRecord(p: Policy, line: Bytes)
    requires forall fields :: !IsRecord(p, line, fields)
    ensures LineEvent(p, line).Poison? || LineEvent(p, line).Skip?
    ensures RuntimeModel.Listen(p, line).Nothing? || RuntimeModel.Listen(p, line).Broken?
  {
    hide Decodes, Ignorable, LineEvent, RuntimeModel.Listen;
    NoRecordSays(p, line);
  }

  /** A line that is no message of a type says nothing of that type. */
  lemma NotThatMessage(p: Policy, line: Bytes)
    ensures (forall f: Object :: IsRecord(p, line, f) ==> !IsKind(f, "session_meta")) ==> !LineEvent(p, line).SessionStart?
    ensures (forall f: Object :: IsRecord(p, line, f) ==> !IsKind(f, "turn_context")) ==> !LineEvent(p, line).TurnStart?
    ensures (forall f: Object :: IsRecord(p, line, f) ==> !IsKind(f, "event_msg")) ==> !LineEvent(p, line).TurnEnd?
  {
    hide LineEvent, ValueEvent, RuntimeModel.Listen, RuntimeModel.ListenValue, IsKind, IsRecord;
    if f: Object :| IsRecord(p, line, f) {
      RecordSays(p, line, f);
      KindDecides(p, f);
    } else {
      NoRecord(p, line);
    }
  }

  /** A line starts a session exactly when it is a session record with these identifiers. */
  lemma ReadsSession(p: Policy, line: Bytes, session: string, metaId: Option<string>)
    ensures LineEvent(p, line) == SessionStart(session, metaId) <==>
            exists payload :: IsMessage(p, line, "session_meta", payload) && StartsSession(p, payload, session, metaId)
  {
    hide LineEvent, ValueEvent, RuntimeModel.Listen, RuntimeModel.ListenValue, IsRecord, IsMessage, IsMessageObject, IsKind, StartsSession;
    var found, fields, payload := TheMessage(p, line, "session_meta");
    if found {
      RecordSays(p, line, fields);
      SessionObject(p, fields, payload, session, metaId);
    } else {
      NotThatMessage(p, line);
    }
  }

  /** A line declares a turn exactly when it is a context record that holds these three texts, each
      under its own key and each accepted. */
  lemma ReadsDeclaration(p: Policy, line: Bytes, turn: string, cwd: string, model: string)
    ensures LineEvent(p, line) == TurnStart(Some(turn), Declared(cwd, model)) <==>
            exists payload :: IsMessage(p, line, "turn_context", payload) && DeclaresTurn(p, payload, turn, cwd, model)
  {
    hide LineEvent, ValueEvent, RuntimeModel.Listen, RuntimeModel.ListenValue, IsRecord, IsMessage, IsMessageObject, IsKind, DeclaresTurn,
         VerdictAt, SummaryVerdict, HoldsId, IsText;
    var found, fields, payload := TheMessage(p, line, "turn_context");
    if found {
      RecordSays(p, line, fields);
      ContextObject(p, fields, payload, turn, cwd, model);
    } else {
      NotThatMessage(p, line);
    }
  }

  ghost predicate IsCompletion(p: Policy, line: Bytes, turn: string, verdict: LabelVerdict, at: int) {
    exists fields, payload ::
      IsRecord(p, line, fields) && IsMessageObject(fields, "event_msg", payload)
      && CompletesTurn(p, fields, payload, turn, verdict, at)
  }

  /** A line completes a turn exactly when it is a completion record of the turn, with a final message
      that reads to this verdict, at this time. */
  lemma ReadsCompletion(p: Policy, line: Bytes, turn: string, verdict: LabelVerdict, at: int)
    ensures LineEvent(p, line) == TurnEnd(turn, Complete(verdict, at)) <==> IsCompletion(p, line, turn, verdict, at)
  {
    hide LineEvent, ValueEvent, RuntimeModel.Listen, RuntimeModel.ListenValue, IsMessageObject, IsKind, CompletesTurn;
    var found, fields, payload := TheMessage(p, line, "event_msg");
    if found {
      RecordSays(p, line, fields);
      EndObject(p, fields, payload, turn, verdict, at);
    } else {
      NotThatMessage(p, line);
    }
    forall f: Object, other: Object
      ensures IsRecord(p, line, f) && IsMessageObject(f, "event_msg", other) ==> IsMessage(p, line, "event_msg", other)
    {
    }
  }

  // ---------- lines, as the resolver takes them ----------

  ghost predicate IsWholeMessage(p: Policy, line: Bytes, kind: string, payload: Object) {
    line != [] && line[|line| - 1] == LF && IsMessage(p, line, kind, payload)
  }

  lemma NotHeard(p: Policy, line: Bytes)
    ensures (forall f: Object :: IsRecord(p, line, f) ==> !IsKind(f, "session_meta")) ==> !RuntimeModel.Listen(p, line).Meta?
    ensures (forall f: Object :: IsRecord(p, line, f) ==> !IsKind(f, "turn_context")) && RuntimeModel.Listen(p, line).Later? ==>
              !RuntimeModel.Listen(p, line).late.Declares?
    ensures (forall f: Object :: IsRecord(p, line, f) ==> !IsKind(f, "event_msg")) && RuntimeModel.Listen(p, line).Later? ==>
              !RuntimeModel.Listen(p, line).late.Finishes?
    ensures line == [] || line[|line| - 1] != LF ==> RuntimeModel.Listen(p, line).Broken?
  {
    Unfinished(p, line);
    hide LineEvent, ValueEvent, RuntimeModel.Listen, RuntimeModel.ListenValue, IsKind, IsRecord;
    if f: Object :| IsRecord(p, line, f) {
      RecordSays(p, line, f);
      KindDecides(p, f);
    } else {
      NoRecord(p, line);
    }
  }

  lemma Unfinished(p: Policy, line: Bytes)
    ensures line == [] || line[|line| - 1] != LF ==> RuntimeModel.Listen(p, line).Broken?
  {
  }

  /** The resolver hears a declaration exactly when the line is a context record that holds this turn,
      this working directory and this model, each under its own key and each accepted. */
  lemma HearsDeclaration(p: Policy, line: Bytes, turn: string, cwd: string, model: string)
    ensures RuntimeModel.Listen(p, line) == RuntimeModel.Later(RuntimeModel.Declares(turn, cwd, model)) <==>
            exists payload :: IsWholeMessage(p, line, "turn_context", payload) && DeclaresPair(p, payload, turn, cwd, model)
  {
    hide LineEvent, ValueEvent, RuntimeModel.Listen, RuntimeModel.ListenValue, IsRecord, IsMessage, IsMessageObject, IsKind, DeclaresPair;
    var found, fields, payload := TheMessage(p, line, "turn_context");
    NotHeard(p, line);
    if found {
      RecordSays(p, line, fields);
      ContextHeard(p, fields, payload, turn, cwd, model);
    }
  }

  lemma HearsEnding(p: Policy, line: Bytes, turn: string)
    ensures RuntimeModel.Listen(p, line) == RuntimeModel.Later(RuntimeModel.Finishes(turn)) <==>
            exists payload :: IsWholeMessage(p, line, "event_msg", payload) && EndsTurn(p, payload, turn)
  {
    hide LineEvent, ValueEvent, RuntimeModel.Listen, RuntimeModel.ListenValue, IsRecord, IsMessage, IsMessageObject, IsKind, EndsTurn,
         IsText;
    var found, fields, payload := TheMessage(p, line, "event_msg");
    NotHeard(p, line);
    if found {
      RecordSays(p, line, fields);
      EndHeard(p, fields, payload, turn);
    }
  }

  lemma HearsSession(p: Policy, line: Bytes, id: Option<string>, session: Option<string>)
    ensures RuntimeModel.Listen(p, line) == RuntimeModel.Meta(id, session) <==>
            exists payload :: IsWholeMessage(p, line, "session_meta", payload) && NamesThread(p, payload, id, session)
  {
    hide LineEvent, ValueEvent, RuntimeModel.Listen, RuntimeModel.ListenValue, IsRecord, IsMessage, IsMessageObject, IsKind, NamesThread;
    var found, fields, payload := TheMessage(p, line, "session_meta");
    NotHeard(p, line);
    if found {
      RecordSays(p, line, fields);
      MetaHeard(p, fields, payload, id, session);
    }
  }
}
