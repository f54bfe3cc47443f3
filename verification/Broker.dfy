/** The line-framed JSON-RPC broker: bounded reading, one answer per line, and the lifecycle that
    tools wait for. */
module Broker {
  import opened Wrappers
  import opened ByteLines

  const MAX_LINE_BYTES: nat := 1024 * 1024
  const CR: byte := 13

  // ---------- framing ----------

  /** The first line of a stream, with its line feed if it has one. */
  function Head(s: Bytes): (line: Bytes)
    ensures line <= s && (s != [] ==> line != [])
  {
    var i := IndexOfLf(s);
    if i == |s| then s else s[..i + 1]
  }

  /** All lines of a stream; the last one may lack its line feed. */
  function LinesOf(s: Bytes): seq<Bytes>
    decreases |s|
  {
    if s == [] then [] else [Head(s)] + LinesOf(s[|Head(s)|..])
  }

  /** The newline split loses nothing: it is the complete lines and then the tail, if there is one. */
  lemma {:induction false} LinesOfIsSplit(s: Bytes)
    ensures LinesOf(s) == Lines(s) + (if Tail(s) == [] then [] else [Tail(s)])
    ensures Flatten(LinesOf(s)) == s
    decreases |s|
  {
    var i := IndexOfLf(s);
    if s != [] {
      var line := Head(s);
      var rest := s[|line|..];
      LinesOfIsSplit(rest);
      assert s == line + rest;
      if i == |s| {
        assert rest == [] && Lines(rest) == [] && Tail(rest) == [];
      }
    }
  }

  /** The content of a line: without its line feed, and without one carriage return before it. */
  function Content(line: Bytes): Bytes {
    if line != [] && line[|line| - 1] == LF then
      var stripped := line[..|line| - 1];
      if stripped != [] && stripped[|stripped| - 1] == CR then stripped[..|stripped| - 1] else stripped
    else line
  }

  /** A line feed is taken off, one carriage return before it too, and nothing else. */
  lemma ContentMeans(text: Bytes)
    ensures text == [] || text[|text| - 1] != LF ==> Content(text) == text
    ensures text == [] || text[|text| - 1] != CR ==> Content(text + [LF]) == text
    ensures Content(text + [CR, LF]) == text
  {
    assert (text + [LF])[..|text|] == text;
    assert (text + [CR, LF])[..|text| + 1] == text + [CR] && (text + [CR])[..|text|] == text;
  }

  class Stream {
    var rest: Bytes

    constructor (rest: Bytes)
      ensures this.rest == rest
    {
      this.rest := rest;
    }

    /** Up to and with the next line feed, but no more than the limit. */
    method ReadLine(limit: nat) returns (chunk: Bytes)
      modifies this
      ensures old(rest) == chunk + rest
      ensures |chunk| == if |Head(old(rest))| < limit then |Head(old(rest))| else limit
    {
      var n := |Head(rest)|;
      if n > limit {
        n := limit;
      }
      chunk := rest[..n];
      rest := rest[n..];
    }
  }

  /** Reading a part of the first line leaves the rest of that line. */
  lemma HeadRest(s: Bytes, n: nat)
    requires n < |Head(s)|
    ensures Head(s[n..]) == Head(s)[n..] && NoLf(s[..n])
  {
    var i := IndexOfLf(s);
    var t := s[n..];
    var j := IndexOfLf(t);
    assert forall k :: 0 <= k < |t| ==> t[k] == s[n + k];
    if i < |s| {
      assert t[i - n] == LF;
      assert j <= i - n;
      assert j < |t| && s[n + j] == LF;
      assert j == i - n;
    } else {
      assert NoLf(s);
      assert j == |t|;
    }
  }

  /** A chunk read from a line ends with a line feed only at the end of the line; a line whose end
      was read without one is the last of the stream. */
  lemma ChunkEnd(s: Bytes, chunk: Bytes)
    requires s != [] && chunk <= s && 0 < |chunk| <= |Head(s)|
    ensures chunk[|chunk| - 1] == LF ==> |chunk| == |Head(s)|
    ensures chunk[|chunk| - 1] != LF && |chunk| == |Head(s)| ==> chunk == s
  {
    assert chunk[|chunk| - 1] == s[|chunk| - 1];
  }

  method DrainLine(source: Stream)
    modifies source
    ensures source.rest == old(source.rest)[|Head(old(source.rest))|..]
  {
    ghost var start := source.rest;
    ghost var taken: nat := 0;
    while true
      invariant taken <= |Head(start)| && source.rest == start[taken..]
      invariant taken == |Head(start)| ==> source.rest == []
      decreases |source.rest|
    {
      ghost var current := source.rest;
      if current != [] {
        HeadRest(start, taken);
      }
      var chunk := source.ReadLine(MAX_LINE_BYTES + 2);
      if chunk != [] {
        ChunkEnd(current, chunk);
      }
      if chunk == [] || chunk[|chunk| - 1] == LF {
        return;
      }
      taken := taken + |chunk|;
    }
  }

  /** One line of the stream: its content, or only that it is too long. Nothing is left over of
      the line, and nothing is taken of the next. */
  method ReadLine(source: Stream) returns (line: Option<Bytes>, oversized: bool)
    modifies source
    ensures source.rest == old(source.rest)[|Head(old(source.rest))|..]
    ensures line.None? <==> old(source.rest) == []
    ensures old(source.rest) != [] ==>
              && (oversized <==> |Content(Head(old(source.rest)))| > MAX_LINE_BYTES)
              && (!oversized ==> line == Some(Content(Head(old(source.rest)))))
  {
    ghost var start := source.rest;
    var chunk := source.ReadLine(MAX_LINE_BYTES + 2);
    if chunk == [] {
      return None, false;
    }
    ChunkEnd(start, chunk);
    if |chunk| == MAX_LINE_BYTES + 2 && chunk[|chunk| - 1] != LF {
      if |chunk| < |Head(start)| {
        HeadRest(start, |chunk|);
      }
      assert source.rest == start[|chunk|..];
      DrainLine(source);
      return Some([]), true;
    }
    assert chunk == Head(start);
    if chunk[|chunk| - 1] == LF {
      chunk := chunk[..|chunk| - 1];
      if chunk != [] && chunk[|chunk| - 1] == CR {
        chunk := chunk[..|chunk| - 1];
      }
    }
    if |chunk| > MAX_LINE_BYTES {
      return Some([]), true;
    }
    return Some(chunk), false;
  }

  // ---------- messages ----------

  datatype RequestId = Null | Text(text: string) | Number(number: int)

  datatype IdField = Absent | BadId | GoodId(id: RequestId)

  datatype Params = Params(json: string)

  datatype Value =
    | NotAnObject
    | Object(version2: bool, name: Option<string>, id: IdField, extraKeys: bool, params: Params)

  datatype Call = Call(name: string, arguments: Params)

  datatype Body = Pong | ToolList | ServerInfo | ToolResult(text: string) | ToolError(name: string)

  datatype Response = Error(id: RequestId, code: int, name: string) | Result(id: RequestId, body: Body)

  /** Decoding, the shape checks of parameters, and what a tool does when it runs. */
  datatype Rules = Rules(
    decode: Bytes -> Option<Value>,
    metaOk: Params -> bool, listOk: Params -> bool, initializeOk: Params -> bool,
    toolCall: Params -> Option<Call>, argumentsOk: Call -> bool, run: (nat, Call) -> Body)

  /** What one line came to. */
  datatype Step = Step(line: Bytes, response: Option<Response>, ran: Option<Call>)

  const TOOLS := {"capture_pending_v1", "reconcile_if_due_v1"}

  /** What a line says, unless it is too long or no JSON. */
  function Said(r: Rules, line: Bytes): Option<Value> {
    if |Content(line)| > MAX_LINE_BYTES then None else r.decode(Content(line))
  }

  /** A JSON-RPC 2.0 message with a method and nothing unexpected in it. */
  predicate WellFormed(v: Value) {
    v.Object? && v.version2 && v.name.Some? && v.name.value != "" && !v.id.BadId? && !v.extraKeys
  }

  predicate IsNotification(r: Rules, line: Bytes) {
    var v := Said(r, line);
    v.Some? && WellFormed(v.value) && v.value.id.Absent?
  }

  predicate IsRequest(r: Rules, line: Bytes) {
    var v := Said(r, line);
    v.Some? && WellFormed(v.value) && v.value.id.GoodId?
  }

  // ---------- the lifecycle, from the transcript alone ----------

  /** An initialize request that was answered with a result. */
  ghost predicate Initializes(r: Rules, s: Step) {
    && IsRequest(r, s.line) && Said(r, s.line).value.name == Some("initialize")
    && s.response.Some? && s.response.value.Result?
  }

  /** A well-formed initialized notification. */
  ghost predicate Confirms(r: Rules, s: Step) {
    && IsNotification(r, s.line) && Said(r, s.line).value.name == Some("notifications/initialized")
    && r.metaOk(Said(r, s.line).value.params)
  }

  ghost predicate Seen(r: Rules, before: seq<Step>) {
    exists i :: 0 <= i < |before| && Initializes(r, before[i])
  }

  ghost predicate Ready(r: Rules, before: seq<Step>) {
    exists i, j :: 0 <= i < j < |before| && Initializes(r, before[i]) && Confirms(r, before[j])
  }

  /** The answer to a line, from what was said and answered before it. */
  ghost function Answer(r: Rules, before: seq<Step>, line: Bytes): (Option<Response>, Option<Call>) {
    if |Content(line)| > MAX_LINE_BYTES then (Some(Error(Null, -32600, "request_too_large")), None)
    else
      var v := r.decode(Content(line));
      if v.None? then (Some(Error(Null, -32700, "invalid_json")), None)
      else if !WellFormed(v.value) then
        var known := v.value.Object? && v.value.version2 && v.value.name.Some? && v.value.name.value != ""
                     && v.value.id.GoodId?;
        (Some(Error(if known then v.value.id.id else Null, -32600, "invalid_request")), None)
      else if v.value.id.Absent? then (None, None)
      else Reply(r, before, v.value)
  }

  ghost function Reply(r: Rules, before: seq<Step>, v: Value): (Option<Response>, Option<Call>)
    requires WellFormed(v) && v.id.GoodId?
  {
    var id, name := v.id.id, v.name.value;
    if name == "initialize" then
      if Seen(r, before) then (Some(Error(id, -32600, "already_initialized")), None)
      else if !r.initializeOk(v.params) then (Some(Error(id, -32602, "invalid_params")), None)
      else (Some(Result(id, ServerInfo)), None)
    else if name !in {"ping", "tools/list", "tools/call"} then (Some(Error(id, -32601, "method_not_found")), None)
    else if !Ready(r, before) then (Some(Error(id, -32002, "not_initialized")), None)
    else if name == "ping" then
      (Some(if r.metaOk(v.params) then Result(id, Pong) else Error(id, -32602, "invalid_params")), None)
    else if name == "tools/list" then
      (Some(if r.listOk(v.params) then Result(id, ToolList) else Error(id, -32602, "invalid_params")), None)
    else
      var call := r.toolCall(v.params);
      if call.None? then (Some(Result(id, ToolError("invalid_arguments"))), None)
      else if call.value.name !in TOOLS then (Some(Error(id, -32602, "unknown_tool")), None)
      else if !r.argumentsOk(call.value) then (Some(Result(id, ToolError("invalid_arguments"))), None)
      else (Some(Result(id, r.run(|before|, call.value))), call)
  }

  /** Every step is the answer to its line after the steps before it. */
  ghost predicate Answered(r: Rules, transcript: seq<Step>) {
    forall k :: 0 <= k < |transcript| ==>
      (transcript[k].response, transcript[k].ran) == Answer(r, transcript[..k], transcript[k].line)
  }

  function Responses(transcript: seq<Step>): seq<Response>
    decreases |transcript|
  {
    if transcript == [] then []
    else
      var last := transcript[|transcript| - 1];
      Responses(transcript[..|transcript| - 1]) + (if last.response.Some? then [last.response.value] else [])
  }

  lemma SeenGrows(r: Rules, before: seq<Step>, s: Step)
    ensures Seen(r, before + [s]) <==> Seen(r, before) || Initializes(r, s)
    ensures Ready(r, before + [s]) <==> Ready(r, before) || (Seen(r, before) && Confirms(r, s))
  {
    hide Initializes, Confirms;
    var after := before + [s];
    assert after[|before|] == s && forall i :: 0 <= i < |before| ==> after[i] == before[i];
    if Seen(r, before) {
      var i :| 0 <= i < |before| && Initializes(r, before[i]);
      assert Initializes(r, after[i]);
    }
    if Ready(r, before) {
      var i, j :| 0 <= i < j < |before| && Initializes(r, before[i]) && Confirms(r, before[j]);
      assert Initializes(r, after[i]) && Confirms(r, after[j]);
    }
  }

  lemma AnsweredGrows(r: Rules, transcript: seq<Step>, s: Step)
    requires Answered(r, transcript) && (s.response, s.ran) == Answer(r, transcript, s.line)
    ensures Answered(r, transcript + [s])
    ensures Responses(transcript + [s]) == Responses(transcript) + (if s.response.Some? then [s.response.value] else [])
  {
    hide Answer;
    var after := transcript + [s];
    assert after[..|transcript|] == transcript;
    forall k | 0 <= k < |after|
      ensures (after[k].response, after[k].ran) == Answer(r, after[..k], after[k].line)
    {
      assert k < |transcript| ==> after[..k] == transcript[..k] && after[k] == transcript[k];
    }
  }

  // ---------- the broker ----------

  class McpBroker {
    const rules: Rules
    var initializeSeen: bool
    var initialized: bool
    var handled: nat
    ghost var transcript: seq<Step>

    constructor (rules: Rules)
      ensures Valid() && this.rules == rules && transcript == []
    {
      this.rules, initializeSeen, initialized, handled, transcript := rules, false, false, 0, [];
    }

    /** The two flags say what the transcript says. */
    ghost predicate Valid()
      reads this
    {
      && handled == |transcript|
      && initializeSeen == Seen(rules, transcript) && initialized == Ready(rules, transcript)
    }

    method HandleNotification(name: string, params: Params)
      modifies this`initialized
      ensures initialized == (old(initialized) || (initializeSeen && name == "notifications/initialized" && rules.metaOk(params)))
    {
      if name != "notifications/initialized" {
        return;
      }
      if !initializeSeen || initialized {
        return;
      }
      if !rules.metaOk(params) {
        return;
      }
      initialized := true;
    }

    method Initialize(id: RequestId, params: Params) returns (response: Response)
      modifies this`initializeSeen
      ensures old(initializeSeen) ==> response == Error(id, -32600, "already_initialized")
      ensures !old(initializeSeen) && !rules.initializeOk(params) ==> response == Error(id, -32602, "invalid_params")
      ensures !old(initializeSeen) && rules.initializeOk(params) ==> response == Result(id, ServerInfo)
      ensures initializeSeen == (old(initializeSeen) || response.Result?)
    {
      if initializeSeen {
        return Error(id, -32600, "already_initialized");
      }
      if !rules.initializeOk(params) {
        return Error(id, -32602, "invalid_params");
      }
      initializeSeen := true;
      response := Result(id, ServerInfo);
    }

    method HandleRequest(v: Value) returns (response: Response, ran: Option<Call>)
      requires Valid() && WellFormed(v) && v.id.GoodId?
      modifies this`initializeSeen
      ensures (Some(response), ran) == Reply(rules, transcript, v)
      ensures initializeSeen == (old(initializeSeen) || (v.name.value == "initialize" && response.Result?))
    {
      var id, name := v.id.id, v.name.value;
      ran := None;
      if name == "initialize" {
        response := Initialize(id, v.params);
        return;
      }
      if name !in {"ping", "tools/list", "tools/call"} {
        return Error(id, -32601, "method_not_found"), None;
      }
      if !initialized {
        return Error(id, -32002, "not_initialized"), None;
      }
      if name == "ping" {
        response := if rules.metaOk(v.params) then Result(id, Pong) else Error(id, -32602, "invalid_params");
        return;
      }
      if name == "tools/list" {
        response := if rules.listOk(v.params) then Result(id, ToolList) else Error(id, -32602, "invalid_params");
        return;
      }
      var call := rules.toolCall(v.params);
      if call.None? {
        return Result(id, ToolError("invalid_arguments")), None;
      }
      if call.value.name !in TOOLS {
        return Error(id, -32602, "unknown_tool"), None;
      }
      if !rules.argumentsOk(call.value) {
        return Result(id, ToolError("invalid_arguments")), None;
      }
      response, ran := Result(id, rules.run(handled, call.value)), call;
    }

    /** Handle one decoded message. */
    method Handle(v: Value, ghost line: Bytes) returns (response: Option<Response>, ran: Option<Call>)
      requires Valid() && Said(rules, line) == Some(v)
      modifies this`initializeSeen, this`initialized
      ensures (response, ran) == Answer(rules, transcript, line)
      ensures
        var s := Step(line, response, ran);
        initializeSeen == Seen(rules, transcript + [s]) && initialized == Ready(rules, transcript + [s])
    {
      response, ran := None, None;
      if v.NotAnObject? || !v.version2 || v.name.None? || v.name.value == "" || v.id.BadId? {
        response := Some(Error(Null, -32600, "invalid_request"));
      } else if v.extraKeys {
        response := Some(Error(if v.id.GoodId? then v.id.id else Null, -32600, "invalid_request"));
      } else if v.id.Absent? {
        HandleNotification(v.name.value, v.params);
      } else {
        var reply;
        reply, ran := HandleRequest(v);
        response := Some(reply);
      }
      SeenGrows(rules, transcript, Step(line, response, ran));
    }

    /** Answer one line, of which only the content is known, or that it is too long. */
    method AnswerLine(content: Bytes, oversized: bool, ghost head: Bytes) returns (response: Option<Response>, ghost s: Step)
      requires Valid() && Answered(rules, transcript)
      requires (oversized <==> |Content(head)| > MAX_LINE_BYTES) && (!oversized ==> content == Content(head))
      modifies this
      ensures Valid() && Answered(rules, transcript) && transcript == old(transcript) + [s]
      ensures s.line == head && s.response == response
      ensures Responses(transcript) == Responses(old(transcript)) + (if response.Some? then [response.value] else [])
    {
      hide Seen, Ready, Answered, Responses, Reply;
      var ran: Option<Call> := None;
      var value := if oversized then None else rules.decode(content);
      if oversized {
        response := Some(Error(Null, -32600, "request_too_large"));
      } else if value.None? {
        response := Some(Error(Null, -32700, "invalid_json"));
      } else {
        response, ran := Handle(value.value, head);
      }
      s := Step(head, response, ran);
      SeenGrows(rules, transcript, s);
      AnsweredGrows(rules, transcript, s);
      transcript := transcript + [s];
      handled := handled + 1;
    }

    /** Answer every line of the stream in order. */
    method Serve(source: Stream) returns (sink: seq<Response>)
      requires Valid() && Answered(rules, transcript)
      modifies this, source
      ensures Valid() && Answered(rules, transcript) && source.rest == []
      ensures old(transcript) <= transcript
      ensures LinesHandled(transcript[|old(transcript)|..]) == LinesOf(old(source.rest))
      ensures Responses(transcript) == Responses(old(transcript)) + sink
    {
      sink := [];
      ghost var before := transcript;
      ghost var steps: seq<Step> := [];
      ServeStart(source.rest, transcript);
      hide *;
      while true
        invariant Valid() && Answered(rules, transcript)
        invariant Progress(old(source.rest), source.rest, before, transcript, steps, sink)
        decreases |source.rest|
      {
        ghost var rest, now := source.rest, transcript;
        HeadNotEmpty(rest);
        var line, oversized := ReadLine(source);
        if line.None? {
          break;
        }
        var response;
        ghost var s;
        response, s := AnswerLine(line.value, oversized, Head(rest));
        ServeStep(old(source.rest), rest, before, now, steps, sink, s);
        if response.Some? {
          sink := sink + [response.value];
        }
        steps := steps + [s];
      }
      ServeEnd(old(source.rest), before, transcript, steps, sink);
    }
  }

  /** How far serving has come: the lines of these steps and those still to come are all lines. */
  ghost predicate Progress(all: Bytes, rest: Bytes, before: seq<Step>, now: seq<Step>, steps: seq<Step>, sink: seq<Response>) {
    && now == before + steps
    && LinesHandled(steps) + LinesOf(rest) == LinesOf(all)
    && Responses(now) == Responses(before) + sink
  }

  lemma HeadNotEmpty(s: Bytes)
    ensures s != [] ==> 0 < |Head(s)| <= |s|
  {
  }

  lemma ServeStart(all: Bytes, before: seq<Step>)
    ensures Progress(all, all, before, before, [], [])
  {
    assert LinesHandled([]) + LinesOf(all) == LinesOf(all);
    assert Responses(before) + [] == Responses(before);
  }

  lemma ServeStep(all: Bytes, rest: Bytes, before: seq<Step>, now: seq<Step>, steps: seq<Step>, sink: seq<Response>, s: Step)
    requires Progress(all, rest, before, now, steps, sink) && rest != [] && s.line == Head(rest)
    requires |Head(rest)| <= |rest|
    requires Responses(now + [s]) == Responses(now) + (if s.response.Some? then [s.response.value] else [])
    ensures Progress(all, rest[|Head(rest)|..], before, now + [s], steps + [s],
                     sink + (if s.response.Some? then [s.response.value] else []))
    ensures s.response.None? ==> Progress(all, rest[|Head(rest)|..], before, now + [s], steps + [s], sink)
  {
    ProgressIs(all, rest, before, now, steps, sink);
    hide *;
    var added := if s.response.Some? then [s.response.value] else [];
    LinesMove(all, rest, steps, s);
    assert now + [s] == before + (steps + [s]);
    assert Responses(before) + sink + added == Responses(before) + (sink + added) && sink + [] == sink;
    ProgressIs(all, rest[|Head(rest)|..], before, now + [s], steps + [s], sink + added);
  }

  lemma ProgressIs(all: Bytes, rest: Bytes, before: seq<Step>, now: seq<Step>, steps: seq<Step>, sink: seq<Response>)
    ensures Progress(all, rest, before, now, steps, sink) <==>
              (&& now == before + steps && LinesHandled(steps) + LinesOf(rest) == LinesOf(all)
               && Responses(now) == Responses(before) + sink)
  {
  }

  lemma LinesMove(all: Bytes, rest: Bytes, steps: seq<Step>, s: Step)
    requires LinesHandled(steps) + LinesOf(rest) == LinesOf(all) && rest != [] && s.line == Head(rest)
    ensures |Head(rest)| <= |rest|
    ensures LinesHandled(steps + [s]) + LinesOf(rest[|Head(rest)|..]) == LinesOf(all)
  {
    assert (steps + [s])[..|steps|] == steps;
    var later := LinesOf(rest[|Head(rest)|..]);
    assert LinesOf(rest) == [s.line] + later;
    assert LinesHandled(steps) + [s.line] + later == LinesHandled(steps) + ([s.line] + later);
  }

  lemma ServeEnd(all: Bytes, before: seq<Step>, now: seq<Step>, steps: seq<Step>, sink: seq<Response>)
    requires Progress(all, [], before, now, steps, sink)
    ensures before <= now && LinesHandled(now[|before|..]) == LinesOf(all) && Responses(now) == Responses(before) + sink
  {
    hide Responses;
    assert now[|before|..] == steps;
    assert LinesHandled(steps) + [] == LinesHandled(steps);
  }

  function LinesHandled(steps: seq<Step>): seq<Bytes>
    decreases |steps|
  {
    if steps == [] then [] else LinesHandled(steps[..|steps| - 1]) + [steps[|steps| - 1].line]
  }

  // ---------- what every transcript satisfies ----------

  /** One answer: whether there is one, whose id it carries, and what it takes to run a tool. */
  lemma AnswerMeans(r: Rules, before: seq<Step>, line: Bytes)
    ensures Answer(r, before, line).0.None? <==> IsNotification(r, line)
    ensures IsRequest(r, line) ==> Answer(r, before, line).0.value.id == Said(r, line).value.id.id
    ensures Answer(r, before, line).1.Some? ==>
              var call := Answer(r, before, line).1.value;
              && Ready(r, before) && call.name in TOOLS && IsRequest(r, line)
              && Answer(r, before, line).0 == Some(Result(Said(r, line).value.id.id, r.run(|before|, call)))
  {
    hide Ready, Seen, Content;
  }

  lemma RefusalMeans(r: Rules, before: seq<Step>, line: Bytes)
    requires IsRequest(r, line) && Said(r, line).value.name.value in {"ping", "tools/list", "tools/call"}
    ensures Answer(r, before, line).0 == Some(Error(Said(r, line).value.id.id, -32002, "not_initialized")) <==>
              !Ready(r, before)
  {
    hide Ready, Seen, Content;
  }

  lemma SecondInitialize(r: Rules, before: seq<Step>, s: Step)
    requires s.response == Answer(r, before, s.line).0 && Seen(r, before)
    ensures !Initializes(r, s)
  {
    hide Ready, Seen, Content;
  }

  /** Readiness before a step, in terms of the whole transcript. */
  lemma ReadyBefore(r: Rules, t: seq<Step>, k: nat)
    requires k <= |t|
    ensures Ready(r, t[..k]) <==> exists i, j :: 0 <= i < j < k && Initializes(r, t[i]) && Confirms(r, t[j])
  {
    hide Initializes, Confirms;
    var before := t[..k];
    assert forall i :: 0 <= i < k ==> before[i] == t[i];
    if Ready(r, before) {
      var i, j :| 0 <= i < j < k && Initializes(r, before[i]) && Confirms(r, before[j]);
      assert Initializes(r, t[i]) && Confirms(r, t[j]);
    }
    if i, j :| 0 <= i < j < k && Initializes(r, t[i]) && Confirms(r, t[j]) {
      assert Initializes(r, before[i]) && Confirms(r, before[j]);
    }
  }

  lemma PrefixAnswered(r: Rules, t: seq<Step>, n: nat)
    requires Answered(r, t) && n <= |t|
    ensures Answered(r, t[..n])
  {
    hide Answer;
    forall k | 0 <= k < n
      ensures (t[k].response, t[k].ran) == Answer(r, t[..n][..k], t[k].line)
    {
      assert t[..n][..k] == t[..k];
    }
  }

  lemma StepIs(r: Rules, t: seq<Step>, k: nat)
    requires Answered(r, t) && k < |t|
    ensures (t[k].response, t[k].ran) == Answer(r, t[..k], t[k].line)
  {
  }

  /** How many of these lines are not well-formed notifications. */
  ghost function Expecting(r: Rules, t: seq<Step>): nat
    decreases |t|
  {
    if t == [] then 0
    else Expecting(r, t[..|t| - 1]) + (if IsNotification(r, t[|t| - 1].line) then 0 else 1)
  }

  /** Every line gets one answer, except a well-formed notification, which gets none. */
  lemma {:induction false} OneAnswerEach(r: Rules, t: seq<Step>)
    requires Answered(r, t)
    ensures forall k :: 0 <= k < |t| ==> (t[k].response.None? <==> IsNotification(r, t[k].line))
    ensures |Responses(t)| == Expecting(r, t)
    decreases |t|
  {
    hide Answered, Answer, IsNotification;
    if t != [] {
      var last := |t| - 1;
      StepIs(r, t, last);
      AnswerMeans(r, t[..last], t[last].line);
      PrefixAnswered(r, t, last);
      OneAnswerEach(r, t[..last]);
      forall k | 0 <= k < |t|
        ensures t[k].response.None? <==> IsNotification(r, t[k].line)
      {
        assert k < last ==> t[..last][k] == t[k];
      }
    }
  }

  /** A tool runs only after an initialize request was accepted and, after that, an initialized
      notification. */
  lemma ToolsWaitForLifecycle(r: Rules, t: seq<Step>, k: nat)
    requires Answered(r, t) && k < |t| && t[k].ran.Some?
    ensures exists i, j :: 0 <= i < j < k && Initializes(r, t[i]) && Confirms(r, t[j])
    ensures t[k].ran.value.name in TOOLS && IsRequest(r, t[k].line) && t[k].response.Some?
    ensures t[k].response.value == Result(Said(r, t[k].line).value.id.id, r.run(k, t[k].ran.value))
  {
    hide *;
    StepIs(r, t, k);
    AnswerMeans(r, t[..k], t[k].line);
    ReadyBefore(r, t, k);
  }

  /** At most one initialize request is ever accepted. */
  lemma InitializedOnce(r: Rules, t: seq<Step>, i: nat, j: nat)
    requires Answered(r, t) && i < j < |t| && Initializes(r, t[i])
    ensures !Initializes(r, t[j])
  {
    hide Initializes, Answered, Answer;
    StepIs(r, t, j);
    assert t[..j][i] == t[i];
    SecondInitialize(r, t[..j], t[j]);
  }

  /** A request for a tool or a ping is told "not initialized" exactly until the lifecycle is done. */
  lemma RefusedUntilReady(r: Rules, t: seq<Step>, k: nat)
    requires Answered(r, t) && k < |t| && IsRequest(r, t[k].line)
    requires Said(r, t[k].line).value.name.value in {"ping", "tools/list", "tools/call"}
    ensures t[k].response == Some(Error(Said(r, t[k].line).value.id.id, -32002, "not_initialized")) <==>
              !exists i, j :: 0 <= i < j < k && Initializes(r, t[i]) && Confirms(r, t[j])
  {
    hide *;
    StepIs(r, t, k);
    RefusalMeans(r, t[..k], t[k].line);
    ReadyBefore(r, t, k);
  }

  /** The answer to a well-formed request carries its id. */
  lemma AnswersCarryTheId(r: Rules, t: seq<Step>, k: nat)
    requires Answered(r, t) && k < |t| && IsRequest(r, t[k].line)
    ensures t[k].response.Some? && t[k].response.value.id == Said(r, t[k].line).value.id.id
  {
    hide Answered, Answer;
    StepIs(r, t, k);
    AnswerMeans(r, t[..k], t[k].line);
  }

  // ---------- what a request is answered once the lifecycle is done ----------

  ghost predicate LifecycleDone(r: Rules, t: seq<Step>, k: nat)
    requires k <= |t|
  {
    exists i, j :: 0 <= i < j < k && Initializes(r, t[i]) && Confirms(r, t[j])
  }

  predicate Asks(r: Rules, line: Bytes, name: string) {
    IsRequest(r, line) && Said(r, line).value.name == Some(name)
  }

  function ParamsOf(r: Rules, line: Bytes): Params
    requires IsRequest(r, line)
  {
    Said(r, line).value.params
  }

  function IdOf(r: Rules, line: Bytes): RequestId
    requires IsRequest(r, line)
  {
    Said(r, line).value.id.id
  }

  lemma CallMeans(r: Rules, before: seq<Step>, line: Bytes, call: Call)
    ensures Answer(r, before, line).1 == Some(call) <==>
              && Asks(r, line, "tools/call") && Ready(r, before)
              && r.toolCall(ParamsOf(r, line)) == Some(call) && call.name in TOOLS && r.argumentsOk(call)
  {
    hide Ready, Seen, Content;
    NamesDiffer();
  }

  lemma NamesDiffer()
    ensures "ping" != "tools/list" && "tools/list" != "tools/call" && "tools/call" != "ping"
    ensures "initialize" !in {"ping", "tools/list", "tools/call"}
  {
    assert |"ping"| == 4 && |"tools/list"| == 10 && |"initialize"| == 10;
    assert "tools/list"[6] == 'l' && "tools/call"[6] == 'c' && "initialize"[0] == 'i' && "tools/list"[0] == 't';
  }

  /** A tool runs exactly when a request calls it after the lifecycle is done, it is one of the tools
      and its arguments are accepted; its result is then the answer. */
  lemma ToolRunsExactlyWhen(r: Rules, t: seq<Step>, k: nat, call: Call)
    requires Answered(r, t) && k < |t|
    ensures t[k].ran == Some(call) <==>
              && Asks(r, t[k].line, "tools/call") && LifecycleDone(r, t, k)
              && r.toolCall(ParamsOf(r, t[k].line)) == Some(call) && call.name in TOOLS && r.argumentsOk(call)
  {
    hide Answered, Answer, Ready, Asks;
    StepIs(r, t, k);
    CallMeans(r, t[..k], t[k].line, call);
    ReadyBefore(r, t, k);
  }

  lemma PlainMeans(r: Rules, before: seq<Step>, line: Bytes)
    ensures Asks(r, line, "ping") && Ready(r, before) ==>
              Answer(r, before, line).0 == Some(if r.metaOk(ParamsOf(r, line)) then Result(IdOf(r, line), Pong)
                                                else Error(IdOf(r, line), -32602, "invalid_params"))
    ensures Asks(r, line, "tools/list") && Ready(r, before) ==>
              Answer(r, before, line).0 == Some(if r.listOk(ParamsOf(r, line)) then Result(IdOf(r, line), ToolList)
                                                else Error(IdOf(r, line), -32602, "invalid_params"))
    ensures Asks(r, line, "initialize") ==>
              Answer(r, before, line).0 == Some(if Seen(r, before) then Error(IdOf(r, line), -32600, "already_initialized")
                                                else if r.initializeOk(ParamsOf(r, line)) then Result(IdOf(r, line), ServerInfo)
                                                else Error(IdOf(r, line), -32602, "invalid_params"))
  {
    hide Ready, Seen, Content;
    NamesDiffer();
  }

  /** After the lifecycle, a ping is a ping and a list is the list, if their parameters are accepted. */
  lemma PlainRequestsAnswered(r: Rules, t: seq<Step>, k: nat)
    requires Answered(r, t) && k < |t| && LifecycleDone(r, t, k)
    ensures Asks(r, t[k].line, "ping") ==>
              t[k].response == Some(if r.metaOk(ParamsOf(r, t[k].line)) then Result(IdOf(r, t[k].line), Pong)
                                    else Error(IdOf(r, t[k].line), -32602, "invalid_params"))
    ensures Asks(r, t[k].line, "tools/list") ==>
              t[k].response == Some(if r.listOk(ParamsOf(r, t[k].line)) then Result(IdOf(r, t[k].line), ToolList)
                                    else Error(IdOf(r, t[k].line), -32602, "invalid_params"))
  {
    hide Answered, Answer, Ready, Asks;
    StepIs(r, t, k);
    PlainMeans(r, t[..k], t[k].line);
    ReadyBefore(r, t, k);
  }

  /** An initialize request is accepted exactly when its parameters are and none was accepted before. */
  lemma InitializesExactlyWhen(r: Rules, t: seq<Step>, k: nat)
    requires Answered(r, t) && k < |t| && Asks(r, t[k].line, "initialize")
    ensures t[k].response == Some(Result(IdOf(r, t[k].line), ServerInfo)) <==>
              r.initializeOk(ParamsOf(r, t[k].line)) && forall i :: 0 <= i < k ==> !Initializes(r, t[i])
  {
    hide Answered, Answer, Asks, Initializes;
    StepIs(r, t, k);
    PlainMeans(r, t[..k], t[k].line);
    assert forall i :: 0 <= i < k ==> t[..k][i] == t[i];
  }
}
