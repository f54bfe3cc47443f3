/** One bounded read of the log, and what it means: whatever slices the file is read in,
    records, warnings and state are those of one pass over the bytes consumed. */
module Chunks {
  import opened ByteLines
  import opened CodexTypes
  import opened ContextDict
  import opened Lifecycle

  datatype Chunk = Chunk(outcome: Outcome, consumed: nat)

  /** Lines of data, at most budget of them, for a reader that is not discarding. */
  function Consume(p: Policy, data: Bytes, budget: nat, st: State): (c: Chunk)
    requires Distinct(st.contexts)
    ensures c.consumed <= |data|
    ensures Distinct(c.outcome.state.contexts)
    decreases |data|
  {
    var i := IndexOfLf(data);
    if data == [] || budget == 0 then Chunk(Outcome(st, [], multiset{}), 0)
    else if i == |data| then
      if |data| >= p.maxNonsemanticBytes
      then Chunk(Discard(Outcome(st, [], multiset{})), |data|)
      else Chunk(Outcome(st, [], multiset{}), 0)
    else
      var first := Step(p, st, LineEvent(p, data[..i + 1]));
      var rest := Consume(p, data[i + 1..], budget - 1, first.state);
      Chunk(Then(first, rest.outcome), i + 1 + rest.consumed)
  }

  function ParseChunk(p: Policy, data: Bytes, st: State): (c: Chunk)
    requires Distinct(st.contexts)
    ensures c.consumed <= |data|
    ensures Distinct(c.outcome.state.contexts)
  {
    if !st.discarding then Consume(p, data, p.maxRecords, st)
    else
      var i := IndexOfLf(data);
      if i == |data| then Chunk(Outcome(st, [], multiset{}), |data|)
      else
        var rest := Consume(p, data[i + 1..], p.maxRecords, st.(discarding := false));
        Chunk(rest.outcome, i + 1 + rest.consumed)
  }

  /** Completing a line: the one-pass result gains the step of that line. */
  lemma ScanCompletedLine(p: Policy, start: State, prefix: Bytes, rest: Bytes)
    requires Distinct(start.contexts) && !start.discarding
    requires IsLine(rest)
    ensures Tail(prefix + rest) == []
    ensures var before := RunEvents(p, start, Events(p, Lines(prefix)));
            ScanFrom(p, start, prefix + rest) == Then(before, Step(p, before.state, LineEvent(p, Tail(prefix) + rest)))
  {
    hide Step, LineEvent, Lines, Tail;
    var whole := Tail(prefix) + rest;
    LineCompleted(prefix, rest);
    EventsConcat(p, Lines(prefix), [whole]);
    assert Events(p, [whole]) == [LineEvent(p, whole)];
    RunSnoc(p, start, Events(p, Lines(prefix)), LineEvent(p, whole));
  }

  lemma ScanLine(p: Policy, start: State, prefix: Bytes, line: Bytes)
    requires Distinct(start.contexts) && !start.discarding
    requires Tail(prefix) == [] && IsLine(line)
    ensures Tail(prefix + line) == []
    ensures var o := ScanFrom(p, start, prefix);
            ScanFrom(p, start, prefix + line) == Then(o, Step(p, o.state, LineEvent(p, line)))
  {
    hide Step, LineEvent, Lines, Tail;
    ScanCompletedLine(p, start, prefix, line);
    assert Tail(prefix) + line == line;
  }

  lemma ScanFragment(p: Policy, start: State, prefix: Bytes, fragment: Bytes)
    requires Distinct(start.contexts) && !start.discarding
    requires Tail(prefix) == [] && IndexOfLf(fragment) == |fragment| != 0
    ensures Tail(prefix + fragment) == fragment
    ensures ScanFrom(p, start, prefix + fragment) == Discard(ScanFrom(p, start, prefix))
  {
    SplitAtBoundary(prefix, fragment);
    NoLfSplit(fragment);
    assert Lines(prefix) + [] == Lines(prefix);
  }

  /** The chunk carries the one-pass result of the prefix to that of the bytes consumed,
      and stops where a reader may stop. */
  ghost predicate Extends(p: Policy, start: State, prefix: Bytes, data: Bytes, c: Chunk)
    requires Distinct(start.contexts)
  {
    && c.consumed <= |data|
    && ScanFrom(p, start, prefix + data[..c.consumed]) == Then(ScanFrom(p, start, prefix), c.outcome)
    && CutPoint(p, prefix + data[..c.consumed])
  }

  lemma ConsumedNothing(p: Policy, start: State, prefix: Bytes, data: Bytes)
    requires Distinct(start.contexts) && !start.discarding
    requires Tail(prefix) == []
    ensures Extends(p, start, prefix, data, Chunk(Outcome(ScanFrom(p, start, prefix).state, [], multiset{}), 0))
  {
    assert prefix + data[..0] == prefix;
    ThenNothing(ScanFrom(p, start, prefix));
  }

  lemma ConsumedFragment(p: Policy, start: State, prefix: Bytes, data: Bytes)
    requires Distinct(start.contexts) && !start.discarding
    requires Tail(prefix) == [] && IndexOfLf(data) == |data| != 0 && |data| >= p.maxNonsemanticBytes
    ensures Extends(p, start, prefix, data, Chunk(Discard(Outcome(ScanFrom(p, start, prefix).state, [], multiset{})), |data|))
  {
    hide ScanFrom, Discard, Tail, Lines, IndexOfLf;
    assert data[..|data|] == data;
    ScanFragment(p, start, prefix, data);
    DiscardLater(ScanFrom(p, start, prefix));
  }

  lemma DiscardLater(o: Outcome)
    ensures Then(o, Discard(Outcome(o.state, [], multiset{}))) == Discard(o)
  {
  }

  lemma ExtendsThen(p: Policy, start: State, prefix: Bytes, data: Bytes, i: nat, rest: Chunk, outcome: Outcome)
    requires Distinct(start.contexts) && !start.discarding
    requires i <= |data| && Extends(p, start, prefix + data[..i], data[i..], rest)
    requires Then(ScanFrom(p, start, prefix + data[..i]), rest.outcome) == Then(ScanFrom(p, start, prefix), outcome)
    ensures Extends(p, start, prefix, data, Chunk(outcome, i + rest.consumed))
  {
    hide ScanFrom, CutPoint;
    JoinSlices(prefix, data, i, rest.consumed);
  }

  /** After a boundary, a read extends the one-pass result by what it consumed. */
  lemma {:induction false} ConsumeExtendsScan(p: Policy, start: State, prefix: Bytes, data: Bytes, budget: nat)
    requires Distinct(start.contexts) && !start.discarding
    requires p.Valid() && Tail(prefix) == [] && !ScanFrom(p, start, prefix).state.discarding
    ensures Extends(p, start, prefix, data, Consume(p, data, budget, ScanFrom(p, start, prefix).state))
    decreases |data|
  {
    hide *;
    var before := ScanFrom(p, start, prefix);
    var i := IndexOfLf(data);
    ConsumeUnfold(p, data, budget, before.state);
    if data == [] || budget == 0 || (i == |data| && |data| < p.maxNonsemanticBytes) {
      ConsumedNothing(p, start, prefix, data);
    } else if i == |data| {
      ConsumedFragment(p, start, prefix, data);
    } else {
      var line, rest := data[..i + 1], data[i + 1..];
      FirstLine(data);
      ScanLine(p, start, prefix, line);
      StillReading(p, start, prefix + line);
      ConsumeExtendsScan(p, start, prefix + line, rest, budget - 1);
      var first := Step(p, before.state, LineEvent(p, line));
      var tail := Consume(p, rest, budget - 1, first.state);
      ThenAssociative(before, first, tail.outcome);
      ThenState(before, first);
      ExtendsThen(p, start, prefix, data, i + 1, tail, Then(first, tail.outcome));
    }
  }

  lemma ConsumeUnfold(p: Policy, data: Bytes, budget: nat, st: State)
    requires Distinct(st.contexts)
    ensures var i := IndexOfLf(data);
            Consume(p, data, budget, st) ==
            if data == [] || budget == 0 || (i == |data| && |data| < p.maxNonsemanticBytes)
            then Chunk(Outcome(st, [], multiset{}), 0)
            else if i == |data| then Chunk(Discard(Outcome(st, [], multiset{})), |data|)
            else
              var first := Step(p, st, LineEvent(p, data[..i + 1]));
              var rest := Consume(p, data[i + 1..], budget - 1, first.state);
              Chunk(Then(first, rest.outcome), i + 1 + rest.consumed)
  {
    hide Step, LineEvent, Discard;
  }

  /** The discarding flag says exactly whether the prefix stops inside a line. */
  lemma StillReading(p: Policy, start: State, prefix: Bytes)
    requires Distinct(start.contexts) && !start.discarding
    ensures ScanFrom(p, start, prefix).state.discarding <==> Tail(prefix) != []
  {
    NeverDiscards(p, start, Events(p, Lines(prefix)));
  }

  lemma StepKeepsDiscarding(p: Policy, st: State, event: Event)
    requires Distinct(st.contexts)
    ensures Step(p, st, event).state.discarding == st.discarding
  {
    hide Put, Pop, JsonSize;
  }

  lemma {:induction false} NeverDiscards(p: Policy, start: State, events: seq<Event>)
    requires Distinct(start.contexts) && !start.discarding
    ensures !RunEvents(p, start, events).state.discarding
    decreases |events|
  {
    if events != [] {
      var front := events[..|events| - 1];
      NeverDiscards(p, start, front);
      StepKeepsDiscarding(p, RunEvents(p, start, front).state, events[|events| - 1]);
    }
  }

  lemma OversizedLinePoisons(p: Policy, st: State, line: Bytes)
    requires Distinct(st.contexts) && |line| > p.maxNonsemanticBytes
    ensures Step(p, st, LineEvent(p, line))
         == Outcome(State("", "", st.discarding, []), [], multiset{OversizedLine, UnsafeLifecycle})
  {
  }

  /** Whether an oversized line arrives whole or in pieces makes no difference. */
  lemma DiscardedLineEqualsWholeLine(p: Policy, start: State, prefix: Bytes, rest: Bytes)
    requires Distinct(start.contexts) && !start.discarding
    requires p.Valid() && CutPoint(p, prefix) && Tail(prefix) != [] && IsLine(rest)
    ensures Tail(prefix + rest) == []
    ensures ScanFrom(p, start, prefix + rest) == Resume(ScanFrom(p, start, prefix))
  {
    hide Step, LineEvent, Lines, Tail;
    var complete := RunEvents(p, start, Events(p, Lines(prefix)));
    NeverDiscards(p, start, Events(p, Lines(prefix)));
    ScanCompletedLine(p, start, prefix, rest);
    OversizedLinePoisons(p, complete.state, Tail(prefix) + rest);
    assert complete.records + [] == complete.records;
  }

  /** The line feed that ends a discarded line has been seen. */
  function Resume(o: Outcome): (r: Outcome)
    requires Distinct(o.state.contexts)
    ensures Distinct(r.state.contexts)
  {
    o.(state := o.state.(discarding := false))
  }

  /** Split independence, one read at a time: a read that starts where the one-pass result
      of a prefix stands ends where the one-pass result of the longer prefix stands. */
  lemma ParseChunkExtendsScan(p: Policy, start: State, prefix: Bytes, data: Bytes)
    requires Distinct(start.contexts) && !start.discarding
    requires p.Valid() && CutPoint(p, prefix)
    ensures Extends(p, start, prefix, data, ParseChunk(p, data, ScanFrom(p, start, prefix).state))
  {
    hide Step, LineEvent, ScanFrom;
    StillReading(p, start, prefix);
    if Tail(prefix) == [] {
      ConsumeExtendsScan(p, start, prefix, data, p.maxRecords);
    } else if IndexOfLf(data) == |data| {
      DiscardContinues(p, start, prefix, data);
      ThenNothing(ScanFrom(p, start, prefix));
      assert data[..|data|] == data;
    } else {
      DiscardEnds(p, start, prefix, data);
    }
  }

  lemma DiscardEnds(p: Policy, start: State, prefix: Bytes, data: Bytes)
    requires Distinct(start.contexts) && !start.discarding
    requires p.Valid() && CutPoint(p, prefix) && Tail(prefix) != [] && IndexOfLf(data) < |data|
    requires ScanFrom(p, start, prefix).state.discarding
    ensures Extends(p, start, prefix, data, ParseChunk(p, data, ScanFrom(p, start, prefix).state))
  {
    hide *;
    var before := ScanFrom(p, start, prefix);
    var i := IndexOfLf(data);
    FirstLine(data);
    DiscardedLineEqualsWholeLine(p, start, prefix, data[..i + 1]);
    StillReading(p, start, prefix + data[..i + 1]);
    ConsumeExtendsScan(p, start, prefix + data[..i + 1], data[i + 1..], p.maxRecords);
    var tail := Consume(p, data[i + 1..], p.maxRecords, Resume(before).state);
    ResumeThen(before, tail.outcome);
    ExtendsThen(p, start, prefix, data, i + 1, tail, tail.outcome);
    ParseChunkResumes(p, data, before);
  }

  lemma ResumeThen(o: Outcome, rest: Outcome)
    requires Distinct(o.state.contexts)
    ensures Then(Resume(o), rest) == Then(o, rest)
  {
  }

  lemma ParseChunkResumes(p: Policy, data: Bytes, o: Outcome)
    requires Distinct(o.state.contexts) && o.state.discarding && IndexOfLf(data) < |data|
    ensures var i := IndexOfLf(data);
            var rest := Consume(p, data[i + 1..], p.maxRecords, Resume(o).state);
            ParseChunk(p, data, o.state) == Chunk(rest.outcome, i + 1 + rest.consumed)
  {
    hide Consume;
  }

  lemma DiscardContinues(p: Policy, start: State, prefix: Bytes, data: Bytes)
    requires Distinct(start.contexts) && !start.discarding
    requires Tail(prefix) != [] && NoLf(data)
    ensures ScanFrom(p, start, prefix + data) == ScanFrom(p, start, prefix)
    ensures Tail(prefix + data) == Tail(prefix) + data
  {
    SplitIsPartition(prefix);
    SplitConcat(prefix, data);
    NoLfSplit(Tail(prefix) + data);
    assert Lines(prefix) + [] == Lines(prefix);
  }

  // ---------- whole runs of reads ----------

  /** Reading the slices of an append-only file one after another, each from where the
      previous one stopped. Slice k ends at byte ends[k] of the file as it then is. */
  ghost predicate ValidCut(p: Policy, file: Bytes, ends: seq<nat>) {
    forall k :: 0 <= k < |ends| ==> ends[k] <= |file|
  }

  function ReadSlices(p: Policy, file: Bytes, ends: seq<nat>): (r: Chunk)
    requires forall k :: 0 <= k < |ends| ==> ends[k] <= |file|
    ensures r.consumed <= |file|
    ensures Distinct(r.outcome.state.contexts)
    decreases |ends|
  {
    if ends == [] then Chunk(Outcome(INITIAL, [], multiset{}), 0)
    else
      var before := ReadSlices(p, file, ends[..|ends| - 1]);
      var end := ends[|ends| - 1];
      if end < before.consumed then before
      else
        var c := ParseChunk(p, file[before.consumed..end], before.outcome.state);
        Chunk(Then(before.outcome, c.outcome), before.consumed + c.consumed)
  }

  /** Split independence for every way of cutting the file into reads. */
  lemma {:induction false} SplitIndependence(p: Policy, file: Bytes, ends: seq<nat>)
    requires p.Valid() && ValidCut(p, file, ends)
    ensures var r := ReadSlices(p, file, ends);
            r.outcome == Scan(p, file[..r.consumed]) && CutPoint(p, file[..r.consumed])
    decreases |ends|
  {
    hide Step, LineEvent, ScanFrom, ParseChunk;
    if ends == [] {
      ScanNothing(p);
      assert file[..0] == [];
    } else {
      var front, end := ends[..|ends| - 1], ends[|ends| - 1];
      SplitIndependence(p, file, front);
      var before := ReadSlices(p, file, front);
      if before.consumed <= end {
        var prefix, data := file[..before.consumed], file[before.consumed..end];
        ParseChunkExtendsScan(p, INITIAL, prefix, data);
        var c := ParseChunk(p, data, before.outcome.state);
        SliceOfSlice(file, before.consumed, end, c.consumed);
      }
    }
  }

  lemma ScanNothing(p: Policy)
    ensures Scan(p, []) == Outcome(INITIAL, [], multiset{}) && CutPoint(p, [])
  {
    assert Lines([]) == [] && Tail([]) == [];
    assert Events(p, []) == [];
  }

  lemma SliceOfSlice(file: Bytes, start: nat, end: nat, k: nat)
    requires start <= end <= |file| && k <= end - start
    ensures file[..start] + file[start..end][..k] == file[..start + k]
  {
  }

  /** Two different cuts that consumed the same bytes saw exactly the same. */
  lemma AnyTwoCutsAgree(p: Policy, file: Bytes, ends1: seq<nat>, ends2: seq<nat>)
    requires p.Valid() && ValidCut(p, file, ends1) && ValidCut(p, file, ends2)
    requires ReadSlices(p, file, ends1).consumed == ReadSlices(p, file, ends2).consumed
    ensures ReadSlices(p, file, ends1) == ReadSlices(p, file, ends2)
  {
    SplitIndependence(p, file, ends1);
    SplitIndependence(p, file, ends2);
  }
}
