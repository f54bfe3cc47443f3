/** Data of the Codex log reader: decoded values, the reader's limits and checks, open
    turn contexts, produced records and warning categories. */
module CodexTypes {
  import opened Wrappers
  import opened ByteLines

  /** A decoded JSON value as far as the reader looks at it. */
  datatype Json =
    | JNull
    | JString(text: string)
    | JObject(fields: map<string, Json>)
    | JOther

  /** dict.get: a missing key reads as None. */
  function Field(fields: map<string, Json>, key: string): Json {
    if key in fields then fields[key] else JNull
  }

  /** Outcome of a bounded text check: accepted, refused (None), or one of the two
      exceptions it can raise. */
  datatype TextVerdict = Accepted | Refused | TooLarge | NotUtf8

  type Labels = map<string, seq<string>>

  /** Outcome of reading the capture block of a final message. */
  datatype LabelVerdict = NoBlock | InvalidBlock | Parsed(labels: Labels)

  /** One entry of the contexts dictionary. */
  datatype Context = Context(blocked: bool, cwd: string, model: string, session: string)

  datatype Record = Record(cwd: string, model: string, sourceId: string, labels: Labels, verifiedAt: int)

  datatype Warning =
    | OversizedLine | MalformedJson | MalformedRecord | UnsafeIdentifier | AmbiguousSession
    | MalformedContext | FieldTooLarge | AmbiguousTurn | ContextLimitExceeded | UnknownRecord
    | UnknownEvent | OrphanCompletion | AmbiguousCompletion | IncompleteCompletion
    | InvalidTimestamp | NoCaptureBlock | InvalidCaptureBlock | InvalidUnicode
    | UnsafeLifecycle | SourceRestarted

  /** The limits of one reader and the checks it calls but does not define. Every check is
      a total deterministic function; an accepted text is returned unchanged, so accepting
      is a property of the text. entrySize is the size of one serialised dictionary entry. */
  datatype Policy = Policy(
    maxLineBytes: nat,
    maxRecordBytes: nat,
    maxNonsemanticBytes: nat,
    maxRecords: nat,
    maxReadBytes: nat,
    maxContextBytes: nat,
    maxScanBytes: nat,
    maxScanRecords: nat,
    decode: (Bytes, bool) -> Option<Json>,
    componentSafe: string -> bool,
    persistedSafe: string -> bool,
    modelSafe: string -> bool,
    checkCwd: string -> TextVerdict,
    checkSummary: string -> TextVerdict,
    isBlank: string -> bool,
    timestamp: Json -> Option<int>,
    readLabels: string -> LabelVerdict,
    entrySize: (string, Context) -> nat)
  {
    /** What the constructor checks. */
    ghost predicate Valid() {
      && 0 < maxLineBytes <= maxRecordBytes <= maxNonsemanticBytes < maxReadBytes
      && 0 < maxRecords && 0 < maxContextBytes && 0 < maxScanRecords
      && maxNonsemanticBytes <= maxScanBytes
    }

    /** One unambiguous session or turn identifier. */
    predicate IsComponent(s: string) {
      && 1 <= |s| <= 256
      && (forall k :: 0 <= k < |s| ==> IsComponentChar(s[k]))
      && componentSafe(s)
    }
  }

  predicate IsComponentChar(c: char) {
    'A' <= c <= 'Z' || 'a' <= c <= 'z' || '0' <= c <= '9' || c == '.' || c == '_' || c == '-'
  }

  /** The composite identifier of a record. */
  function SourceId(session: string, turn: string): string {
    session + ":" + turn
  }

  /** A composite identifier names one session and one turn. */
  lemma SourceIdUnambiguous(p: Policy, s1: string, t1: string, s2: string, t2: string)
    requires p.IsComponent(s1) && p.IsComponent(s2)
    requires SourceId(s1, t1) == SourceId(s2, t2)
    ensures s1 == s2 && t1 == t2
  {
    var id := SourceId(s1, t1);
    assert forall k :: 0 <= k < |s1| ==> id[k] == s1[k] && id[k] != ':';
    assert forall k :: 0 <= k < |s2| ==> id[k] == s2[k] && id[k] != ':';
    assert id[|s1|] == ':' && id[|s2|] == ':';
    assert |s1| == |s2|;
    assert s1 == id[..|s1|] && s2 == id[..|s2|];
    assert t1 == id[|s1| + 1..] && t2 == id[|s2| + 1..];
  }

  const IGNORED_RECORD_TYPES: set<string> := {
    "response_item", "tool_stdout", "tool_stderr", "base_instructions", "world_state",
    "compacted_history", "compacted", "inter_agent_communication_metadata"
  }

  const IGNORED_EVENT_TYPES: set<string> := {
    "agent_message", "agent_reasoning", "context_compacted", "image_generation_end",
    "mcp_tool_call_end", "patch_apply_end", "sub_agent_activity", "task_started",
    "thread_settings_applied", "token_count", "user_message", "web_search_end"
  }
}
