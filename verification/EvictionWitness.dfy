/** A log on which saving the checkpoint changes what is produced: a saved dictionary comes back
    sorted, so the next eviction hits another turn than it hits in one pass. */
module EvictionWitness {
  import opened Wrappers
  import opened ByteLines
  import opened CodexTypes
  import opened ContextDict
  import opened Lifecycle
  import opened Chunks
  import opened DictOrder
  import opened Checkpoints

  /** Six lines: a session, the turns "b", "a", "d" and "c", and the end of "b". */
  function Log(): Bytes {
    Line(115) + Line(98) + Line(97) + Line(100) + Line(99) + Line(101)
  }

  function Line(mark: byte): (line: Bytes) {
    [mark, LF]
  }

  function Decode(line: Bytes): Option<Json> {
    if |line| != 2 then None
    else if line[0] == 115 then Some(Message("session_meta", map["id" := JString("s")]))
    else if line[0] == 101 then
      Some(Message("event_msg", map["type" := JString("task_complete"), "turn_id" := JString("b"),
                                    "last_agent_message" := JString("done")]))
    else if 97 <= line[0] <= 100 then
      Some(Message("turn_context", map["turn_id" := JString([line[0] as char]), "cwd" := JString("/work"),
                                       "model" := JString("model")]))
    else None
  }

  function Message(kind: string, payload: map<string, Json>): Json {
    JObject(map["type" := JString(kind), "payload" := JObject(payload)])
  }

  /** A reader that keeps at most three open turns and takes at most three lines in one read; it
      accepts every identifier and text. */
  function ThreeTurnPolicy(): (p: Policy)
    ensures p.Valid()
  {
    Policy(10, 10, 10, 3, 100, 100, 10, 10,
           (line, strict) => Decode(line), s => true, s => true, s => true, s => Accepted, s => Accepted, s => false,
           value => Some(0), s => Parsed(map[]), (turn, context) => 1)
  }

  function Opening(turn: string): Event {
    TurnStart(Some(turn), Declared("/work", "model"))
  }

  function Open(turn: string): Entry {
    Entry(turn, Context(false, "/work", "model", "s"))
  }

  const ENDING: Event := TurnEnd("b", Complete(Parsed(map[]), 0))

  function Reading(d: Dict): State {
    State("s", "s", false, d)
  }

  // ---------- the lines ----------

  lemma MessageFields(kind: string, payload: map<string, Json>)
    ensures Field(Message(kind, payload).fields, "type") == JString(kind)
    ensures Field(Message(kind, payload).fields, "payload") == JObject(payload)
  {
    assert "type" != "payload" by {
      assert |"type"| != |"payload"|;
    }
  }

  lemma SessionLine(p: Policy)
    requires p == ThreeTurnPolicy()
    ensures LineEvent(p, Line(115)) == SessionStart("s", Some("s"))
  {
    var payload: map<string, Json> := map["id" := JString("s")];
    MessageFields("session_meta", payload);
    assert "session_id" !in payload;
  }

  lemma TurnLine(p: Policy, mark: byte)
    requires p == ThreeTurnPolicy() && 97 <= mark <= 100
    ensures LineEvent(p, Line(mark)) == Opening([mark as char])
  {
    var payload: map<string, Json> :=
      map["turn_id" := JString([mark as char]), "cwd" := JString("/work"), "model" := JString("model")];
    MessageFields("turn_context", payload);
    assert |"turn_id"| == 7 && |"cwd"| == 3 && |"model"| == 5 && |"summary"| == 7 && "summary"[0] != "turn_id"[0];
    assert |"turn_context"| == |"session_meta"| && "turn_context"[0] != "session_meta"[0];
  }

  lemma EndLine(p: Policy)
    requires p == ThreeTurnPolicy()
    ensures LineEvent(p, Line(101)) == ENDING
  {
    var payload: map<string, Json> :=
      map["type" := JString("task_complete"), "turn_id" := JString("b"), "last_agent_message" := JString("done")];
    MessageFields("event_msg", payload);
    assert |"turn_id"| == 7 && |"type"| == 4 && |"last_agent_message"| == 18;
    assert |"event_msg"| != |"session_meta"| == |"turn_context"|;
  }

  // ---------- the steps ----------

  lemma {:induction false} SizeOf(p: Policy, d: Dict)
    requires p == ThreeTurnPolicy()
    ensures EntriesSize(p, d) == |d|
  {
    if d != [] {
      SizeOf(p, d[1..]);
    }
  }

  ghost predicate Fresh(d: Dict, turn: string) {
    Distinct(d) && forall e :: e in d ==> e.turn != turn
  }

  function After(d: Dict, turn: string): Dict {
    (if |d| == 3 then d[1..] else d) + [Open(turn)]
  }

  /** A turn opens; the oldest of three makes room. */
  lemma Opens(p: Policy, d: Dict, turn: string)
    requires p == ThreeTurnPolicy() && Fresh(d, turn) && |d| <= 3
    ensures Distinct(After(d, turn))
    ensures Step(p, Reading(d), Opening(turn)) == Outcome(Reading(After(d, turn)), [], multiset{})
  {
    assert !Has(d, turn);
    hide EntriesSize, Find, Put, JsonSize;
    PutsLast(p, if |d| == 3 then d[1..] else d, turn);
  }

  lemma PutsLast(p: Policy, kept: Dict, turn: string)
    requires p == ThreeTurnPolicy() && Fresh(kept, turn) && |kept| <= 2
    ensures Put(kept, turn, Open(turn).context) == kept + [Open(turn)] && Distinct(kept + [Open(turn)])
    ensures JsonSize(p, kept + [Open(turn)]) <= p.maxContextBytes
  {
    SizeOf(p, kept + [Open(turn)]);
    hide EntriesSize;
    assert Find(kept, turn) == |kept|;
  }

  lemma Starts(p: Policy)
    ensures Step(p, INITIAL, SessionStart("s", Some("s"))) == Outcome(Reading([]), [], multiset{})
  {
  }

  /** The end of a turn that is not open produces nothing. */
  lemma EndsNothing(p: Policy, d: Dict)
    requires p == ThreeTurnPolicy() && Fresh(d, "b")
    ensures Step(p, Reading(d), ENDING).records == []
  {
    assert !Has(d, "b");
  }

  /** The end of the oldest open turn produces its record. */
  lemma EndsFirst(p: Policy, d: Dict)
    requires p == ThreeTurnPolicy() && Distinct(d) && d != [] && d[0] == Open("b")
    ensures Step(p, Reading(d), ENDING)
         == Outcome(Reading(d[1..]), [Record("/work", "model", SourceId("s", "b"), map[], 0)], multiset{})
  {
    assert Find(d, "b") == 0;
    assert d[..0] + d[1..] == d[1..];
  }

  // ---------- one pass ----------

  lemma IsOneLine(mark: byte)
    requires mark != LF
    ensures IsLine(Line(mark))
  {
    assert Line(mark)[..1] == [mark];
  }

  ghost predicate At(p: Policy, prefix: Bytes, d: Dict) {
    Tail(prefix) == [] && Scan(p, prefix) == Outcome(Reading(d), [], multiset{})
  }

  lemma ScanNext(p: Policy, prefix: Bytes, mark: byte)
    requires mark != LF && Tail(prefix) == []
    ensures Tail(prefix + Line(mark)) == []
    ensures Scan(p, prefix + Line(mark))
         == Then(Scan(p, prefix), Step(p, Scan(p, prefix).state, LineEvent(p, Line(mark))))
  {
    hide Step, LineEvent, ScanFrom, Tail, Lines;
    IsOneLine(mark);
    ScanLine(p, INITIAL, prefix, Line(mark));
  }

  lemma PassStarts(p: Policy)
    requires p == ThreeTurnPolicy()
    ensures At(p, Line(115), [])
  {
    hide Step, LineEvent, ScanFrom, Tail, Lines;
    ScanNothing(p);
    NoLfSplit([]);
    ScanNext(p, [], 115);
    SessionLine(p);
    Starts(p);
    assert [] + Line(115) == Line(115);
  }

  lemma PassOpens(p: Policy, prefix: Bytes, d: Dict, mark: byte)
    requires p == ThreeTurnPolicy() && At(p, prefix, d)
    requires 97 <= mark <= 100 && Fresh(d, [mark as char]) && |d| <= 3
    ensures At(p, prefix + Line(mark), After(d, [mark as char]))
  {
    hide Step, LineEvent, ScanFrom, Tail, Lines, Fresh;
    ScanNext(p, prefix, mark);
    TurnLine(p, mark);
    Opens(p, d, [mark as char]);
  }

  lemma OnePass(p: Policy)
    requires p == ThreeTurnPolicy()
    ensures Scan(p, Log()).records == []
  {
    hide Step, LineEvent, ScanFrom, Tail, Lines, ThreeTurnPolicy, At, Distinct;
    var d1, d2, d3, d4 := [Open("b")], [Open("b"), Open("a")], [Open("b"), Open("a"), Open("d")], [Open("a"), Open("d"), Open("c")];
    Freshness();
    var l0 := Line(115);
    PassStarts(p);
    PassOpens(p, l0, [], 98);
    PassOpens(p, l0 + Line(98), d1, 97);
    PassOpens(p, l0 + Line(98) + Line(97), d2, 100);
    PassOpens(p, l0 + Line(98) + Line(97) + Line(100), d3, 99);
    PassEnds(p, l0 + Line(98) + Line(97) + Line(100) + Line(99), d4);
  }

  lemma PassEnds(p: Policy, prefix: Bytes, d: Dict)
    requires p == ThreeTurnPolicy() && At(p, prefix, d) && Fresh(d, "b")
    ensures Scan(p, prefix + Line(101)).records == []
  {
    hide Step, LineEvent, ScanFrom, Tail, Lines, Fresh;
    ScanNext(p, prefix, 101);
    EndLine(p);
    EndsNothing(p, d);
  }

  lemma TurnsDiffer()
    ensures "a" != "b" && "a" != "c" && "a" != "d" && "b" != "c" && "b" != "d" && "c" != "d"
  {
    assert "a"[0] != "b"[0] && "a"[0] != "c"[0] && "a"[0] != "d"[0] && "b"[0] != "c"[0] && "b"[0] != "d"[0] && "c"[0] != "d"[0];
  }

  /** The dictionaries that come up in one pass. */
  lemma Freshness()
    ensures Fresh([], "b") && Fresh([Open("b")], "a") && Fresh([Open("b"), Open("a")], "d")
    ensures Fresh([Open("b"), Open("a"), Open("d")], "c") && Fresh([Open("a"), Open("d"), Open("c")], "b")
    ensures After([], "b") == [Open("b")] && After([Open("b")], "a") == [Open("b"), Open("a")]
    ensures After([Open("b"), Open("a")], "d") == [Open("b"), Open("a"), Open("d")]
    ensures After([Open("b"), Open("a"), Open("d")], "c") == [Open("a"), Open("d"), Open("c")]
  {
    TurnsDiffer();
    assert [Open("b"), Open("a"), Open("d")][1..] == [Open("a"), Open("d")];
  }

  /** Those that come up after the saved one was sorted. */
  lemma SortedFreshness()
    ensures Fresh([Open("a"), Open("b")], "d") && Fresh([Open("a"), Open("b"), Open("d")], "c")
    ensures After([Open("a"), Open("b")], "d") == [Open("a"), Open("b"), Open("d")]
    ensures After([Open("a"), Open("b"), Open("d")], "c") == [Open("b"), Open("d"), Open("c")]
  {
    TurnsDiffer();
    assert [Open("a"), Open("b"), Open("d")][1..] == [Open("b"), Open("d")];
  }

  // ---------- two reads ----------

  lemma ConsumeLine(p: Policy, mark: byte, rest: Bytes, budget: nat, st: State)
    requires mark != LF && Distinct(st.contexts) && budget > 0
    ensures var first := Step(p, st, LineEvent(p, Line(mark)));
            var more := Consume(p, rest, budget - 1, first.state);
            Consume(p, Line(mark) + rest, budget, st) == Chunk(Then(first, more.outcome), 2 + more.consumed)
  {
    hide Step, LineEvent;
    var data := Line(mark) + rest;
    assert data[0] == mark && data[1] == LF;
    SplitFirst(data, 1);
    assert data[..2] == Line(mark) && data[2..] == rest;
    ConsumeUnfold(p, data, budget, st);
  }

  lemma ConsumeOpens(p: Policy, mark: byte, rest: Bytes, budget: nat, d: Dict)
    requires p == ThreeTurnPolicy() && budget > 0
    requires 97 <= mark <= 100 && Fresh(d, [mark as char]) && |d| <= 3
    ensures Distinct(After(d, [mark as char]))
    ensures var more := Consume(p, rest, budget - 1, Reading(After(d, [mark as char])));
            Consume(p, Line(mark) + rest, budget, Reading(d)) == Chunk(more.outcome, 2 + more.consumed)
  {
    Opens(p, d, [mark as char]);
    hide Step, LineEvent, Consume;
    TurnLine(p, mark);
    ConsumeLine(p, mark, rest, budget, Reading(d));
    ThenFirst(Reading(After(d, [mark as char])), Consume(p, rest, budget - 1, Reading(After(d, [mark as char]))).outcome);
  }

  lemma ThenFirst(st: State, o: Outcome)
    ensures Then(Outcome(st, [], multiset{}), o) == o
  {
  }

  function Late(): Bytes {
    Line(100) + Line(99) + Line(101)
  }

  lemma ConsumeNone(p: Policy, data: Bytes, st: State)
    requires Distinct(st.contexts)
    ensures Consume(p, data, 0, st) == Chunk(Outcome(st, [], multiset{}), 0)
  {
    ConsumeUnfold(p, data, 0, st);
  }

  /** The first read takes the first three lines. */
  lemma FirstChunk(p: Policy)
    requires p == ThreeTurnPolicy()
    ensures Distinct([Open("b"), Open("a")])
    ensures ParseChunk(p, Log(), INITIAL) == Chunk(Outcome(Reading([Open("b"), Open("a")]), [], multiset{}), 6)
  {
    hide Step, LineEvent, Consume, Distinct, Fresh;
    Freshness();
    var l1, l2 := Line(98) + (Line(97) + Late()), Line(97) + Late();
    assert Log() == Line(115) + l1;
    SessionLine(p);
    Starts(p);
    ConsumeLine(p, 115, l1, 3, INITIAL);
    ConsumeOpens(p, 98, l2, 2, []);
    ConsumeOpens(p, 97, Late(), 1, [Open("b")]);
    ConsumeNone(p, Late(), Reading([Open("b"), Open("a")]));
    ThenFirst(Reading([]), Consume(p, l1, 2, Reading([])).outcome);
  }

  /** The second read starts with the sorted dictionary and ends the turn that one pass evicts. */
  lemma SecondChunk(p: Policy)
    requires p == ThreeTurnPolicy()
    ensures Distinct([Open("a"), Open("b")])
    ensures ParseChunk(p, Late(), Reading([Open("a"), Open("b")]))
         == Chunk(Outcome(Reading([Open("d"), Open("c")]),
                          [Record("/work", "model", SourceId("s", "b"), map[], 0)], multiset{}), 6)
  {
    hide Step, LineEvent, Consume, Fresh;
    SortedFreshness();
    var l1 := Line(99) + Line(101);
    var last := [Open("b"), Open("d"), Open("c")];
    assert Late() == Line(100) + l1;
    ConsumeOpens(p, 100, l1, 3, [Open("a"), Open("b")]);
    ConsumeOpens(p, 99, Line(101), 2, [Open("a"), Open("b"), Open("d")]);
    EndLine(p);
    EndsFirst(p, last);
    assert Line(101) + [] == Line(101) && last[1..] == [Open("d"), Open("c")];
    ConsumeLine(p, 101, [], 1, Reading(last));
    ConsumeNone(p, [], Reading([Open("d"), Open("c")]));
  }

  lemma EarlyState(p: Policy)
    requires p == ThreeTurnPolicy()
    ensures Sound(p, Reading([Open("b"), Open("a")]))
    ensures Canonical([Open("b"), Open("a")]) == [Open("a"), Open("b")]
  {
    TurnsDiffer();
    SizeOf(p, [Open("b"), Open("a")]);
    TwoSorted(Open("a"), Open("b"));
  }

  lemma TwoSorted(a: Entry, b: Entry)
    requires a.turn == "a" && b.turn == "b"
    ensures Canonical([b, a]) == [a, b]
  {
    assert AtMost("a", "b") && !AtMost("b", "a");
    assert Canonical([a]) == [a];
    assert [b, a][1..] == [a] && [a][1..] == [];
    assert Insert(b, []) == [b];
  }

  lemma FirstRead(p: Policy, src: Source)
    requires p == ThreeTurnPolicy() && src.bytes == Log()
    ensures |src.bytes| == 12
    ensures ReadIncremental(p, "log", src, None)
         == Batch([], Save(p, "log", src, 6, Reading([Open("b"), Open("a")])), multiset{})
  {
    hide ParseChunk, Canonical;
    FirstChunk(p);
    assert Slice(p, src, 0) == Log();
  }

  lemma SecondRead(p: Policy, src: Source, cp: Checkpoint)
    requires p == ThreeTurnPolicy() && src.bytes == Log() && |src.bytes| == 12
    requires cp == Save(p, "log", src, 6, Reading([Open("b"), Open("a")])) && Decoded(cp)
    ensures var batch := ReadIncremental(p, "log", src, Some(cp));
      && batch.records == [Record("/work", "model", SourceId("s", "b"), map[], 0)]
      && batch.warnings == multiset{} && batch.next.offset == 12
  {
    hide ParseChunk, ResumeState, Sound, Similar, Canonical, Distinct;
    EarlyState(p);
    SavedCheckpointAccepted(p, "log", src, src, 6, Reading([Open("b"), Open("a")]));
    SecondChunk(p);
    assert Slice(p, src, 6) == Late();
  }

  /** Six lines, read in two parts. The first read ends with the turns "b" and "a" open, in this
      order, and saves them sorted. In one pass over the file the turn "c" evicts "b", whose end
      then produces nothing. The second read, resumed from the saved checkpoint without any
      warning, evicts "a" instead, and the end of "b" produces a record. */
  lemma EvictionDependsOnSaving()
    ensures
      var p := ThreeTurnPolicy();
      var src := Source(0, 0, Log());
      var first := ReadIncremental(p, "log", src, None);
      var second := ReadIncremental(p, "log", src, Some(first.next));
      && p.Valid()
      && second.next.offset == |src.bytes| && first.warnings == second.warnings == multiset{}
      && Scan(p, src.bytes).records == []
      && first.records + second.records == [Record("/work", "model", "s:b", map[], 0)]
  {
    hide ReadIncremental, Save, ScanFrom;
    var p := ThreeTurnPolicy();
    var src := Source(0, 0, Log());
    OnePass(p);
    FirstRead(p, src);
    SecondRead(p, src, ReadIncremental(p, "log", src, None).next);
    assert SourceId("s", "b") == "s:b";
  }
}
