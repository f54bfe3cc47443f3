/** The saved checkpoint: what is written after a read, which checks a later read makes
    before it resumes, and why a checkpoint the reader wrote always passes them. The digest
    of a prefix stands for the prefix itself; the policy digest for the limits it covers. */
module Checkpoints {
  import opened Wrappers
  import opened ByteLines
  import opened CodexTypes
  import opened ContextDict
  import opened Lifecycle
  import opened Chunks
  import opened DictOrder

  datatype Source = Source(device: nat, inode: nat, bytes: Bytes)

  datatype Agent = Codex | ChatGpt

  /** The limits hashed into parser_policy_sha256; the read limit is not among them. */
  datatype PolicyDigest = PolicyDigest(
    maxContextBytes: nat, maxLineBytes: nat, maxNonsemanticBytes: nat, maxRecordBytes: nat, maxRecords: nat)

  /** contexts is None when the stored text is not a valid contexts object. */
  datatype Checkpoint = Checkpoint(
    agent: Agent, scope: string, parserVersion: string, relativePath: string,
    device: int, inode: int, offset: int, observedSize: int, prefixLength: int,
    prefix: Bytes, nonsemanticPolicy: int, policy: PolicyDigest,
    contexts: Option<Dict>, session: string, metaId: string, discarding: int)

  const PARSER_VERSION := "codex-v3"
  const NONSEMANTIC_POLICY_VERSION := 1

  function DigestOf(p: Policy): PolicyDigest {
    PolicyDigest(p.maxContextBytes, p.maxLineBytes, p.maxNonsemanticBytes, p.maxRecordBytes, p.maxRecords)
  }

  /** A decoded JSON object has unique keys. */
  ghost predicate Decoded(cp: Checkpoint) {
    cp.contexts.Some? ==> Distinct(cp.contexts.value)
  }

  // ---------- resuming ----------

  datatype Resumption = Resumption(offset: nat, state: State, warnings: multiset<Warning>)

  const FROM_START := Resumption(0, INITIAL, multiset{})
  const RESTARTED := Resumption(0, INITIAL, multiset{SourceRestarted})

  predicate Compatible(p: Policy, scope: string, src: Source, cp: Checkpoint) {
    && cp.agent == Codex
    && cp.scope == scope
    && cp.parserVersion == PARSER_VERSION
    && cp.relativePath == scope
    && cp.device == src.device
    && cp.inode == src.inode
    && 0 <= cp.offset <= cp.observedSize <= |src.bytes|
    && cp.prefixLength == cp.offset
    && cp.nonsemanticPolicy == NONSEMANTIC_POLICY_VERSION
    && cp.policy == DigestOf(p)
  }

  predicate ValidEntry(p: Policy, session: string, e: Entry) {
    && p.IsComponent(e.turn)
    && e.context.session == session
    && (if e.context.blocked then e.context.cwd == "" && e.context.model == ""
        else p.checkCwd(e.context.cwd) == Accepted && p.modelSafe(e.context.model))
  }

  predicate ValidLifecycle(p: Policy, session: string, metaId: string, contexts: Dict) {
    if session == "" then metaId == "" && contexts == []
    else
      && p.IsComponent(session) && p.IsComponent(metaId)
      && forall k :: 0 <= k < |contexts| ==> ValidEntry(p, session, contexts[k])
  }

  function ResumeState(p: Policy, scope: string, src: Source, checkpoint: Option<Checkpoint>): (r: Resumption)
    ensures r.offset <= |src.bytes|
  {
    if checkpoint.None? then FROM_START
    else
      var cp := checkpoint.value;
      if !Compatible(p, scope, src, cp) then RESTARTED
      else if src.bytes[..cp.prefixLength] != cp.prefix then RESTARTED
      else if cp.contexts.None? || JsonSize(p, cp.contexts.value) > p.maxContextBytes then RESTARTED
      else if cp.discarding != 0 && cp.discarding != 1 then RESTARTED
      else if !ValidLifecycle(p, cp.session, cp.metaId, cp.contexts.value) then RESTARTED
      else if cp.discarding == 1 && (cp.session != "" || cp.metaId != "" || cp.contexts.value != []) then RESTARTED
      else Resumption(cp.offset, State(cp.session, cp.metaId, cp.discarding == 1, cp.contexts.value), multiset{})
  }

  lemma ResumedStateDistinct(p: Policy, scope: string, src: Source, checkpoint: Option<Checkpoint>)
    requires checkpoint.Some? ==> Decoded(checkpoint.value)
    ensures Distinct(ResumeState(p, scope, src, checkpoint).state.contexts)
  {
  }

  // ---------- reading ----------

  function Save(p: Policy, scope: string, src: Source, offset: nat, st: State): (cp: Checkpoint)
    requires offset <= |src.bytes|
  {
    Checkpoint(
      Codex, scope, PARSER_VERSION, scope, src.device, src.inode, offset, |src.bytes|, offset,
      src.bytes[..offset], NONSEMANTIC_POLICY_VERSION, DigestOf(p),
      Some(Canonical(st.contexts)), st.session, st.metaId, if st.discarding then 1 else 0)
  }

  datatype Batch = Batch(records: seq<Record>, next: Checkpoint, warnings: multiset<Warning>)

  function Min(a: nat, b: nat): nat {
    if a <= b then a else b
  }

  /** The bytes one read takes: from the offset on, at most the read limit. */
  function Slice(p: Policy, src: Source, offset: nat): Bytes
    requires offset <= |src.bytes|
  {
    src.bytes[offset..offset + Min(|src.bytes| - offset, p.maxReadBytes)]
  }

  /** One bounded read of a file that does not change while it is read. */
  function ReadIncremental(p: Policy, scope: string, src: Source, checkpoint: Option<Checkpoint>): (b: Batch)
    requires checkpoint.Some? ==> Decoded(checkpoint.value)
    ensures Decoded(b.next)
  {
    ResumedStateDistinct(p, scope, src, checkpoint);
    var from := ResumeState(p, scope, src, checkpoint);
    var c := ParseChunk(p, Slice(p, src, from.offset), from.state);
    CanonicalDistinct(c.outcome.state.contexts);
    Batch(c.outcome.records,
          Save(p, scope, src, from.offset + c.consumed, c.outcome.state),
          from.warnings + c.outcome.warnings)
  }

  // ---------- the invariant of every reachable state ----------

  ghost predicate Sound(p: Policy, st: State) {
    && Distinct(st.contexts)
    && (st.discarding ==> st.session == "")
    && ValidLifecycle(p, st.session, st.metaId, st.contexts)
    && JsonSize(p, st.contexts) <= p.maxContextBytes
  }

  /** What classification guarantees about the identifiers and fields in an event. */
  ghost predicate Checked(p: Policy, event: Event) {
    match event
    case SessionStart(session, metaId) =>
      p.IsComponent(session) && (metaId.Some? ==> p.IsComponent(metaId.value))
    case TurnStart(turnId, declaration) =>
      && (turnId.Some? ==> p.IsComponent(turnId.value))
      && (declaration.Declared? ==>
            p.checkCwd(declaration.cwd) == Accepted && p.modelSafe(declaration.model))
    case TurnEnd(turn, _) => p.IsComponent(turn)
    case _ => true
  }

  lemma LineEventChecked(p: Policy, line: Bytes)
    ensures Checked(p, LineEvent(p, line))
  {
  }

  lemma EmptySound(p: Policy, discarding: bool)
    requires p.maxContextBytes >= 2
    ensures Sound(p, State("", "", discarding, []))
  {
  }

  lemma PutValid(p: Policy, session: string, d: Dict, turn: string, context: Context)
    requires Distinct(d) && forall k :: 0 <= k < |d| ==> ValidEntry(p, session, d[k])
    requires ValidEntry(p, session, Entry(turn, context))
    ensures forall k :: 0 <= k < |Put(d, turn, context)| ==> ValidEntry(p, session, Put(d, turn, context)[k])
  {
    hide ValidEntry;
    var r := Put(d, turn, context);
    forall k | 0 <= k < |r|
      ensures ValidEntry(p, session, r[k])
    {
      assert r[k] in r;
    }
  }

  lemma PopValid(p: Policy, session: string, d: Dict, turn: string)
    requires Distinct(d) && forall k :: 0 <= k < |d| ==> ValidEntry(p, session, d[k])
    ensures forall k :: 0 <= k < |Pop(d, turn)| ==> ValidEntry(p, session, Pop(d, turn)[k])
  {
    hide ValidEntry;
    var r := Pop(d, turn);
    forall k | 0 <= k < |r|
      ensures ValidEntry(p, session, r[k])
    {
      assert r[k] in r;
    }
  }

  lemma BlockTurnSound(p: Policy, st: State, turn: string, reasons: multiset<Warning>)
    requires p.maxContextBytes >= 2 && Sound(p, st) && st.session != "" && p.IsComponent(turn)
    ensures Sound(p, BlockTurn(p, st, turn, reasons).state)
  {
    hide Put, Distinct;
    PutValid(p, st.session, st.contexts, turn, Blocked(st.session));
  }

  lemma OpenTurnSound(p: Policy, st: State, turn: string, context: Context)
    requires p.maxContextBytes >= 2 && Sound(p, st) && st.session != ""
    requires !Has(st.contexts, turn) && ValidEntry(p, st.session, Entry(turn, context))
    ensures Sound(p, OpenTurn(p, st, turn, context).state)
  {
    hide Put, ValidEntry, JsonSize;
    var kept := if |st.contexts| > 0 && |st.contexts| >= p.maxRecords then st.contexts[1..] else st.contexts;
    PutValid(p, st.session, kept, turn, context);
    EmptySound(p, st.discarding);
  }

  lemma EndTurnSound(p: Policy, st: State, turn: string, completion: Completion)
    requires Sound(p, st)
    ensures Sound(p, EndTurn(p, st, turn, completion).state)
  {
    hide Finish, ValidEntry, JsonSize;
    PopShrinks(p, st.contexts, turn);
    if st.session != "" {
      PopValid(p, st.session, st.contexts, turn);
    }
  }

  lemma StartTurnSound(p: Policy, st: State, turn: string, declaration: Declaration)
    requires p.maxContextBytes >= 2 && Sound(p, st) && st.session != ""
    requires Checked(p, TurnStart(Some(turn), declaration))
    ensures Sound(p, StartTurn(p, st, turn, declaration).state)
  {
    hide BlockTurn, OpenTurn, Sound, Has, Get;
    match declaration
    case NotUnicode =>
      EmptySound(p, st.discarding);
    case Unusable(reason) =>
      BlockTurnSound(p, st, turn, multiset{reason});
    case Declared(cwd, model) =>
      if Has(st.contexts, turn) {
        BlockTurnSound(p, st, turn, multiset{AmbiguousTurn});
      } else {
        OpenTurnSound(p, st, turn, Context(false, cwd, model, st.session));
      }
  }

  lemma StepSound(p: Policy, st: State, event: Event)
    requires p.maxContextBytes >= 2 && Sound(p, st) && !st.discarding && Checked(p, event)
    ensures Sound(p, Step(p, st, event).state)
  {
    hide StartTurn, EndTurn;
    EmptySound(p, st.discarding);
    if event.TurnStart? && st.session != "" && event.turnId.Some? {
      StartTurnSound(p, st, event.turnId.value, event.declaration);
    } else if event.TurnEnd? {
      EndTurnSound(p, st, event.turn, event.completion);
    }
  }

  lemma {:induction false} RunSound(p: Policy, st: State, lines: seq<Bytes>)
    requires p.maxContextBytes >= 2 && Sound(p, st) && Distinct(st.contexts) && !st.discarding
    ensures Sound(p, RunEvents(p, st, Events(p, lines)).state)
    decreases |lines|
  {
    hide Step, LineEvent, Sound, Checked;
    if lines != [] {
      var front, last := lines[..|lines| - 1], lines[|lines| - 1];
      RunSound(p, st, front);
      EventsConcat(p, front, [last]);
      assert lines == front + [last];
      assert Events(p, [last]) == [LineEvent(p, last)];
      RunSnoc(p, st, Events(p, front), LineEvent(p, last));
      ThenState(RunEvents(p, st, Events(p, front)), Step(p, RunEvents(p, st, Events(p, front)).state, LineEvent(p, last)));
      LineEventChecked(p, last);
      NeverDiscards(p, st, Events(p, front));
      StepSound(p, RunEvents(p, st, Events(p, front)).state, LineEvent(p, last));
    }
  }

  lemma ScanFromSound(p: Policy, st: State, bytes: Bytes)
    requires p.maxContextBytes >= 2 && Sound(p, st) && !st.discarding
    ensures Sound(p, ScanFrom(p, st, bytes).state)
  {
    assert Distinct(st.contexts);
    hide RunEvents, Sound;
    RunSound(p, st, Lines(bytes));
    EmptySound(p, true);
  }

  lemma ConsumeSound(p: Policy, st: State, data: Bytes)
    requires p.Valid() && p.maxContextBytes >= 2 && Sound(p, st) && !st.discarding && Distinct(st.contexts)
    ensures Sound(p, Consume(p, data, p.maxRecords, st).outcome.state)
  {
    hide *;
    ConsumeIsScan(p, st, data);
    ScanFromSound(p, st, data[..Consume(p, data, p.maxRecords, st).consumed]);
  }

  lemma DiscardingIsEmpty(p: Policy, st: State)
    requires Sound(p, st) && st.discarding
    ensures st == State("", "", true, [])
  {
  }

  /** Every read keeps the invariant. */
  lemma ParseChunkSound(p: Policy, st: State, data: Bytes)
    requires p.Valid() && p.maxContextBytes >= 2 && Sound(p, st) && Distinct(st.contexts)
    ensures Sound(p, ParseChunk(p, data, st).outcome.state)
  {
    hide Consume, Sound, Distinct;
    if !st.discarding {
      ConsumeSound(p, st, data);
    } else {
      DiscardingIsEmpty(p, st);
      EmptySound(p, false);
      var i := IndexOfLf(data);
      if i < |data| {
        ConsumeSound(p, State("", "", false, []), data[i + 1..]);
      }
    }
  }

  /** A read is a one-pass scan of what it consumed, from the state it started in. */
  lemma ParseChunkIsScan(p: Policy, st: State, data: Bytes)
    requires p.Valid() && Distinct(st.contexts)
    ensures !st.discarding ==>
      var c := ParseChunk(p, data, st);
      c.outcome == ScanFrom(p, st, data[..c.consumed]) && CutPoint(p, data[..c.consumed])
    ensures st.discarding && IndexOfLf(data) < |data| ==>
      var rest := data[IndexOfLf(data) + 1..];
      var c := Consume(p, rest, p.maxRecords, st.(discarding := false));
      c.outcome == ScanFrom(p, st.(discarding := false), rest[..c.consumed])
  {
    hide Consume, ScanFrom, Distinct, IndexOfLf;
    if !st.discarding {
      ConsumeIsScan(p, st, data);
    } else if IndexOfLf(data) < |data| {
      ConsumeIsScan(p, st.(discarding := false), data[IndexOfLf(data) + 1..]);
    }
  }

  lemma ConsumeIsScan(p: Policy, st: State, data: Bytes)
    requires p.Valid() && Distinct(st.contexts) && !st.discarding
    ensures var c := Consume(p, data, p.maxRecords, st);
      c.outcome == ScanFrom(p, st, data[..c.consumed]) && CutPoint(p, data[..c.consumed])
  {
    hide Consume;
    assert Lines([]) == [] && Tail([]) == [];
    assert Events(p, []) == [];
    assert ScanFrom(p, st, []) == Outcome(st, [], multiset{});
    ConsumeExtendsScan(p, st, [], data, p.maxRecords);
    var c := Consume(p, data, p.maxRecords, st);
    assert [] + data[..c.consumed] == data[..c.consumed];
    assert Then(Outcome(st, [], multiset{}), c.outcome) == c.outcome;
  }

  // ---------- a saved checkpoint is accepted back ----------

  ghost predicate Grown(older: Source, newer: Source) {
    older.device == newer.device && older.inode == newer.inode && older.bytes <= newer.bytes
  }

  lemma CanonicalValid(p: Policy, session: string, d: Dict)
    requires forall k :: 0 <= k < |d| ==> ValidEntry(p, session, d[k])
    ensures forall k :: 0 <= k < |Canonical(d)| ==> ValidEntry(p, session, Canonical(d)[k])
  {
    hide ValidEntry;
    PermutationMembers(Canonical(d), d);
    forall k | 0 <= k < |Canonical(d)|
      ensures ValidEntry(p, session, Canonical(d)[k])
    {
      assert Canonical(d)[k] in d;
    }
  }

  lemma CanonicalSound(p: Policy, st: State)
    requires Sound(p, st)
    ensures Sound(p, st.(contexts := Canonical(st.contexts)))
    ensures Similar(st, st.(contexts := Canonical(st.contexts)))
  {
    hide ValidEntry, JsonSize;
    CanonicalDistinct(st.contexts);
    PermutationSize(p, Canonical(st.contexts), st.contexts);
    if st.session != "" {
      CanonicalValid(p, st.session, st.contexts);
    }
  }

  /** A checkpoint of a sound state is taken up again on any later version of the file: same
      offset, no warning, and the same state up to the order of its contexts. */
  lemma SavedCheckpointAccepted(p: Policy, scope: string, src: Source, later: Source, offset: nat, st: State)
    requires offset <= |src.bytes| && Grown(src, later) && Sound(p, st)
    ensures ResumeState(p, scope, later, Some(Save(p, scope, src, offset, st)))
         == Resumption(offset, st.(contexts := Canonical(st.contexts)), multiset{})
    ensures Similar(st, st.(contexts := Canonical(st.contexts)))
    ensures Sound(p, st.(contexts := Canonical(st.contexts)))
  {
    hide ValidEntry, JsonSize, Canonical, Distinct, Permutation;
    CanonicalSound(p, st);
    assert st.discarding ==> st.metaId == "" && Canonical(st.contexts) == [];
    assert later.bytes[..offset] == src.bytes[..offset];
  }

  /** With a context limit below the size of "{}", nothing is ever taken up again. */
  lemma TinyContextLimitRestarts(p: Policy, scope: string, src: Source, cp: Checkpoint)
    requires p.maxContextBytes < 2
    ensures ResumeState(p, scope, src, Some(cp)) == RESTARTED
  {
  }

  /** Exactly when the reader accepts its own checkpoints: for every state it can reach from
      an empty one by reading, the saved checkpoint resumes if and only if the context limit
      admits the empty object. */
  lemma OwnCheckpointAcceptedIff(p: Policy, scope: string, src: Source, later: Source, prefix: Bytes)
    requires p.Valid() && Grown(src, later) && prefix <= src.bytes
    ensures ResumeState(p, scope, later, Some(Save(p, scope, src, |prefix|, Scan(p, prefix).state))).warnings == multiset{}
       <==> p.maxContextBytes >= 2
  {
    hide ScanFrom, ResumeState, JsonSize;
    if p.maxContextBytes >= 2 {
      EmptySound(p, false);
      ScanFromSound(p, INITIAL, prefix);
      SavedCheckpointAccepted(p, scope, src, later, |prefix|, Scan(p, prefix).state);
    } else {
      TinyContextLimitRestarts(p, scope, later, Save(p, scope, src, |prefix|, Scan(p, prefix).state));
    }
  }
}
