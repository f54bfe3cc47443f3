/** Incremental reads of a growing file, each resumed from the checkpoint of the one before:
    never restarted, and, as long as no context is evicted, the same as one pass. */
module LiveRuns {
  import opened Wrappers
  import opened ByteLines
  import opened CodexTypes
  import opened ContextDict
  import opened Lifecycle
  import opened Chunks
  import opened DictOrder
  import opened Checkpoints

  // ---------- one read from a similar state ----------

  lemma {:induction false} ConsumedSame(p: Policy, data: Bytes, budget: nat, a: State, b: State)
    requires Distinct(a.contexts) && Distinct(b.contexts)
    ensures Consume(p, data, budget, a).consumed == Consume(p, data, budget, b).consumed
    decreases |data|
  {
    hide *;
    var i := IndexOfLf(data);
    ConsumeUnfold(p, data, budget, a);
    ConsumeUnfold(p, data, budget, b);
    if data != [] && budget != 0 && i < |data| {
      var event := LineEvent(p, data[..i + 1]);
      ConsumedSame(p, data[i + 1..], budget - 1, Step(p, a, event).state, Step(p, b, event).state);
    }
  }

  lemma ParseChunkAlike(p: Policy, data: Bytes, a: State, b: State)
    requires p.Valid() && Similar(a, b)
    requires a.discarding ==> a == b
    requires !a.discarding ==>
      NoEviction(p, a, Events(p, Lines(data[..ParseChunk(p, data, a).consumed])))
    ensures ParseChunk(p, data, a).consumed == ParseChunk(p, data, b).consumed
    ensures Alike(ParseChunk(p, data, a).outcome, ParseChunk(p, data, b).outcome)
  {
    if a == b {
      SamePermutation(ParseChunk(p, data, a).outcome.state.contexts);
    } else {
      hide Consume, ScanFrom, NoEviction, Permutation, Distinct;
      ConsumedSame(p, data, p.maxRecords, a, b);
      ParseChunkIsScan(p, a, data);
      ParseChunkIsScan(p, b, data);
      ScanFromAlike(p, a, b, data[..ParseChunk(p, data, a).consumed]);
    }
  }

  // ---------- checkpoints the reader wrote ----------

  function StateOf(cp: Checkpoint): State
    requires cp.contexts.Some?
  {
    State(cp.session, cp.metaId, cp.discarding == 1, cp.contexts.value)
  }

  /** A checkpoint this reader wrote on some earlier version of the file. */
  ghost predicate Own(p: Policy, scope: string, src: Source, cp: Checkpoint) {
    && cp.contexts.Some?
    && Sound(p, StateOf(cp))
    && 0 <= cp.offset <= cp.observedSize <= |src.bytes|
    && cp == Save(p, scope, src.(bytes := src.bytes[..cp.observedSize]), cp.offset, StateOf(cp))
  }

  lemma SavedIsOwn(p: Policy, scope: string, src: Source, offset: nat, st: State)
    requires offset <= |src.bytes| && Sound(p, st)
    ensures Own(p, scope, src, Save(p, scope, src, offset, st))
    ensures Similar(st, StateOf(Save(p, scope, src, offset, st)))
  {
    hide Sound, Canonical;
    CanonicalSound(p, st);
    CanonicalIffSorted(st.contexts);
    CanonicalIffSorted(Canonical(st.contexts));
    assert src.bytes[..|src.bytes|] == src.bytes;
  }

  lemma OwnSurvivesAppend(p: Policy, scope: string, src: Source, later: Source, cp: Checkpoint)
    requires Own(p, scope, src, cp) && Grown(src, later)
    ensures Own(p, scope, later, cp)
  {
    hide Sound, Canonical;
    assert later.bytes[..cp.observedSize] == src.bytes[..cp.observedSize];
  }

  lemma OwnResumes(p: Policy, scope: string, src: Source, cp: Checkpoint)
    requires Own(p, scope, src, cp)
    ensures ResumeState(p, scope, src, Some(cp)) == Resumption(cp.offset, StateOf(cp), multiset{})
    ensures Decoded(cp)
  {
    assert Distinct(StateOf(cp).contexts);
    hide Sound, ResumeState, Canonical;
    var older := src.(bytes := src.bytes[..cp.observedSize]);
    SavedCheckpointAccepted(p, scope, older, src, cp.offset, StateOf(cp));
  }

  /** Where the next read starts. */
  function OffsetOf(checkpoint: Option<Checkpoint>): int {
    if checkpoint.None? then 0 else checkpoint.value.offset
  }

  ghost predicate OwnOrNone(p: Policy, scope: string, src: Source, checkpoint: Option<Checkpoint>) {
    checkpoint.Some? ==> Own(p, scope, src, checkpoint.value)
  }

  lemma Resumes(p: Policy, scope: string, src: Source, checkpoint: Option<Checkpoint>)
    requires p.maxContextBytes >= 2 && OwnOrNone(p, scope, src, checkpoint)
    ensures checkpoint.Some? ==> Decoded(checkpoint.value)
    ensures var from := ResumeState(p, scope, src, checkpoint);
      && from.offset == OffsetOf(checkpoint) && from.warnings == multiset{} && Sound(p, from.state)
      && from.state == if checkpoint.Some? then StateOf(checkpoint.value) else INITIAL
  {
    hide Sound, ResumeState, Own;
    if checkpoint.Some? {
      assert Sound(p, StateOf(checkpoint.value)) by { OwnIsSound(p, scope, src, checkpoint.value); }
      OwnResumes(p, scope, src, checkpoint.value);
    } else {
      NoCheckpoint(p, scope, src);
      EmptySound(p, false);
    }
  }

  lemma OwnIsSound(p: Policy, scope: string, src: Source, cp: Checkpoint)
    requires Own(p, scope, src, cp)
    ensures cp.contexts.Some? && Sound(p, StateOf(cp))
  {
  }

  lemma NoCheckpoint(p: Policy, scope: string, src: Source)
    ensures ResumeState(p, scope, src, None) == FROM_START
  {
  }

  /** A read from one of the reader's own checkpoints resumes, never restarts, and writes
      another checkpoint of the reader's own. */
  lemma ReadKeepsOwn(p: Policy, scope: string, src: Source, checkpoint: Option<Checkpoint>)
    requires p.Valid() && p.maxContextBytes >= 2 && OwnOrNone(p, scope, src, checkpoint)
    ensures checkpoint.Some? ==> Decoded(checkpoint.value)
    ensures var b := ReadIncremental(p, scope, src, checkpoint);
            Own(p, scope, src, b.next) && b.next.offset >= OffsetOf(checkpoint)
  {
    hide Sound, ResumeState, Own, ParseChunk, Save;
    Resumes(p, scope, src, checkpoint);
    var from := ResumeState(p, scope, src, checkpoint);
    assert Distinct(from.state.contexts) by { ResumedStateDistinct(p, scope, src, checkpoint); }
    var data := Slice(p, src, from.offset);
    var c := ParseChunk(p, data, from.state);
    ParseChunkSound(p, from.state, data);
    SavedIsOwn(p, scope, src, from.offset + c.consumed, c.outcome.state);
    SaveOffset(p, scope, src, from.offset + c.consumed, c.outcome.state);
  }

  lemma SaveOffset(p: Policy, scope: string, src: Source, offset: nat, st: State)
    requires offset <= |src.bytes|
    ensures Save(p, scope, src, offset, st).offset == offset
  {
  }

  // ---------- agreement with one pass ----------

  /** No context of this file is ever evicted in one pass over it. */
  ghost predicate NeverEvicts(p: Policy, file: Bytes) {
    NoEviction(p, INITIAL, Events(p, Lines(file)))
  }

  /** The checkpoint stands for one pass over the file up to its offset. */
  ghost predicate Tracks(p: Policy, scope: string, src: Source, checkpoint: Option<Checkpoint>) {
    && OwnOrNone(p, scope, src, checkpoint)
    && 0 <= OffsetOf(checkpoint) <= |src.bytes|
    && CutPoint(p, src.bytes[..OffsetOf(checkpoint)])
    && (checkpoint.Some? ==>
          && checkpoint.value.contexts.Some?
          && Similar(Scan(p, src.bytes[..OffsetOf(checkpoint)]).state, StateOf(checkpoint.value)))
  }

  lemma TracksNothing(p: Policy, scope: string, src: Source)
    ensures Tracks(p, scope, src, None)
  {
    assert src.bytes[..0] == [];
    ScanNothing(p);
  }

  lemma TracksSurvivesAppend(p: Policy, scope: string, src: Source, later: Source, checkpoint: Option<Checkpoint>)
    requires Tracks(p, scope, src, checkpoint) && Grown(src, later)
    ensures Tracks(p, scope, later, checkpoint)
  {
    hide Own, Similar, Scan, CutPoint;
    if checkpoint.Some? {
      OwnSurvivesAppend(p, scope, src, later, checkpoint.value);
    }
    assert later.bytes[..OffsetOf(checkpoint)] == src.bytes[..OffsetOf(checkpoint)];
  }

  /** Evictions happen only while lines are read: a part of an eviction-free file is
      eviction-free from where the one pass stands. */
  lemma NeverEvictsMiddle(p: Policy, file: Bytes, start: nat, end: nat)
    requires start <= end <= |file| && NeverEvicts(p, file) && Tail(file[..start]) == []
    ensures Distinct(Scan(p, file[..start]).state.contexts)
    ensures NoEviction(p, Scan(p, file[..start]).state, Events(p, Lines(file[start..end])))
  {
    hide NoEviction, RunEvents, Lines, Tail, LineEvent;
    var prefix, middle := file[..start], file[start..end];
    LinesOfPrefix(file, end);
    assert file[..end] == prefix + middle;
    SplitAtBoundary(prefix, middle);
    var rest := Lines(file)[|Lines(file[..end])|..];
    assert Lines(file) == Lines(prefix) + (Lines(middle) + rest);
    EventsConcat(p, Lines(prefix), Lines(middle) + rest);
    EventsConcat(p, Lines(middle), rest);
    NoEvictionRest(p, INITIAL, Events(p, Lines(prefix)), Events(p, Lines(middle) + rest));
    NoEvictionRest(p, Scan(p, prefix).state, Events(p, Lines(middle)), Events(p, rest));
  }

  /** A state similar to a discarding one is that state: nothing but the flag is left. */
  lemma DiscardingStatesEqual(p: Policy, prefix: Bytes, st: State)
    requires Similar(Scan(p, prefix).state, st) && Tail(prefix) != []
    ensures st == Scan(p, prefix).state
  {
    assert Scan(p, prefix).state == State("", "", true, []);
    PermutationMembers(Scan(p, prefix).state.contexts, st.contexts);
  }

  /** Records and warnings that one pass gains between two byte offsets. */
  ghost predicate Adds(p: Policy, file: Bytes, from: nat, to: nat, records: seq<Record>, warnings: multiset<Warning>) {
    && from <= to <= |file|
    && Scan(p, file[..to]).records == Scan(p, file[..from]).records + records
    && Scan(p, file[..to]).warnings == Scan(p, file[..from]).warnings + warnings
  }

  /** A chunk read at an offset leads to where one pass over the consumed bytes leads. */
  ghost predicate Follows(p: Policy, file: Bytes, offset: nat, c: Chunk) {
    && offset + c.consumed <= |file|
    && CutPoint(p, file[..offset + c.consumed])
    && Similar(Scan(p, file[..offset + c.consumed]).state, c.outcome.state)
    && Adds(p, file, offset, offset + c.consumed, c.outcome.records, c.outcome.warnings)
  }

  /** A slice parsed from a state similar to the one-pass state adds to the one-pass result
      exactly what one pass over the consumed bytes adds. */
  lemma ChunkFromSimilar(p: Policy, file: Bytes, offset: nat, end: nat, st: State)
    requires p.Valid() && offset <= end <= |file| && NeverEvicts(p, file)
    requires CutPoint(p, file[..offset]) && Similar(Scan(p, file[..offset]).state, st) && Distinct(st.contexts)
    ensures Follows(p, file, offset, ParseChunk(p, file[offset..end], st))
  {
    hide *;
    var prefix, data := file[..offset], file[offset..end];
    var reference := Scan(p, prefix).state;
    ReferenceChunk(p, file, offset, end);
    var c := ParseChunk(p, data, reference);
    ScanDiscards(p, prefix);
    if Tail(prefix) == [] {
      ConsumedWithoutEviction(p, file, offset, end, c.consumed);
    } else {
      DiscardingStatesEqual(p, prefix, st);
    }
    ParseChunkAlike(p, data, reference, st);
    AlikeFollows(p, file, offset, c, ParseChunk(p, data, st));
  }

  lemma ScanDiscards(p: Policy, prefix: Bytes)
    ensures Scan(p, prefix).state.discarding <==> Tail(prefix) != []
  {
    hide ScanFrom, Tail;
    StillReading(p, INITIAL, prefix);
  }

  lemma AlikeFollows(p: Policy, file: Bytes, offset: nat, reference: Chunk, live: Chunk)
    requires Alike(reference.outcome, live.outcome) && reference.consumed == live.consumed
    requires offset + live.consumed <= |file| && CutPoint(p, file[..offset + live.consumed])
    requires Scan(p, file[..offset + live.consumed]) == Then(Scan(p, file[..offset]), reference.outcome)
    ensures Follows(p, file, offset, live)
  {
    hide Scan, Similar, CutPoint;
  }

  lemma ConsumedWithoutEviction(p: Policy, file: Bytes, offset: nat, end: nat, consumed: nat)
    requires offset <= end <= |file| && consumed <= end - offset
    requires NeverEvicts(p, file) && Tail(file[..offset]) == []
    ensures Distinct(Scan(p, file[..offset]).state.contexts)
    ensures NoEviction(p, Scan(p, file[..offset]).state, Events(p, Lines(file[offset..end][..consumed])))
  {
    hide NoEviction, NeverEvicts, ScanFrom, Lines, Tail;
    NeverEvictsMiddle(p, file, offset, offset + consumed);
    assert file[offset..end][..consumed] == file[offset..offset + consumed];
  }

  lemma ReferenceChunk(p: Policy, file: Bytes, offset: nat, end: nat)
    requires p.Valid() && offset <= end <= |file| && CutPoint(p, file[..offset])
    ensures Distinct(Scan(p, file[..offset]).state.contexts)
    ensures var c := ParseChunk(p, file[offset..end], Scan(p, file[..offset]).state);
      && CutPoint(p, file[..offset + c.consumed])
      && Scan(p, file[..offset + c.consumed]) == Then(Scan(p, file[..offset]), c.outcome)
  {
    hide ParseChunk, ScanFrom, CutPoint, Then;
    ParseChunkExtendsScan(p, INITIAL, file[..offset], file[offset..end]);
    SliceOfSlice(file, offset, end, ParseChunk(p, file[offset..end], Scan(p, file[..offset]).state).consumed);
  }

  /** The batch of one read, against the read's starting point. */
  ghost predicate BatchTracks(p: Policy, scope: string, src: Source, checkpoint: Option<Checkpoint>, b: Batch) {
    && Tracks(p, scope, src, Some(b.next))
    && 0 <= OffsetOf(checkpoint) <= b.next.offset
    && Adds(p, src.bytes, OffsetOf(checkpoint), b.next.offset, b.records, b.warnings)
  }

  /** One incremental read of a growing file adds to the one-pass result exactly what one
      pass over the bytes it consumed adds. */
  lemma ReadTracks(p: Policy, scope: string, src: Source, checkpoint: Option<Checkpoint>)
    requires p.Valid() && p.maxContextBytes >= 2
    requires Tracks(p, scope, src, checkpoint) && NeverEvicts(p, src.bytes)
    ensures checkpoint.Some? ==> Decoded(checkpoint.value)
    ensures BatchTracks(p, scope, src, checkpoint, ReadIncremental(p, scope, src, checkpoint))
  {
    ReadStart(p, scope, src, checkpoint);
    hide *;
    ReadKeepsOwn(p, scope, src, checkpoint);
    var from := ResumeState(p, scope, src, checkpoint);
    var c := ParseChunk(p, Slice(p, src, from.offset), from.state);
    ReadSaves(p, scope, src, checkpoint, from, c);
    BatchFollows(p, scope, src, checkpoint, from.offset, c, ReadIncremental(p, scope, src, checkpoint));
  }

  lemma ReadStart(p: Policy, scope: string, src: Source, checkpoint: Option<Checkpoint>)
    requires p.Valid() && p.maxContextBytes >= 2
    requires Tracks(p, scope, src, checkpoint) && NeverEvicts(p, src.bytes)
    ensures OwnOrNone(p, scope, src, checkpoint)
    ensures checkpoint.Some? ==> Decoded(checkpoint.value)
    ensures var from := ResumeState(p, scope, src, checkpoint);
      && from.offset == OffsetOf(checkpoint) && from.warnings == multiset{} && Distinct(from.state.contexts)
      && Follows(p, src.bytes, from.offset, ParseChunk(p, Slice(p, src, from.offset), from.state))
  {
    hide Own, Scan, ParseChunk, Follows, ResumeState, NeverEvicts, CutPoint;
    Resumes(p, scope, src, checkpoint);
    var from := ResumeState(p, scope, src, checkpoint);
    var end := from.offset + Min(|src.bytes| - from.offset, p.maxReadBytes);
    ScanSimilar(p, scope, src, checkpoint, from.state);
    ChunkFromSimilar(p, src.bytes, from.offset, end, from.state);
  }

  lemma BatchFollows(p: Policy, scope: string, src: Source, checkpoint: Option<Checkpoint>, offset: nat, c: Chunk, b: Batch)
    requires Own(p, scope, src, b.next) && Follows(p, src.bytes, offset, c)
    requires offset == OffsetOf(checkpoint) && b.next.offset == offset + c.consumed
    requires b.next.contexts.Some? && Similar(c.outcome.state, StateOf(b.next))
    requires b.records == c.outcome.records && b.warnings == c.outcome.warnings
    ensures BatchTracks(p, scope, src, checkpoint, b)
  {
    hide Own, Scan, CutPoint, Adds, Similar;
    SimilarTransitive(Scan(p, src.bytes[..b.next.offset]).state, c.outcome.state, StateOf(b.next));
  }

  lemma SimilarTransitive(a: State, b: State, c: State)
    requires Similar(a, b) && Similar(b, c)
    ensures Similar(a, c)
  {
  }

  lemma ReadSaves(p: Policy, scope: string, src: Source, checkpoint: Option<Checkpoint>, from: Resumption, c: Chunk)
    requires checkpoint.Some? ==> Decoded(checkpoint.value)
    requires ResumeState(p, scope, src, checkpoint) == from && from.warnings == multiset{}
    requires from.offset <= |src.bytes| && Distinct(from.state.contexts)
    requires c == ParseChunk(p, Slice(p, src, from.offset), from.state)
    ensures var b := ReadIncremental(p, scope, src, checkpoint);
      && b.records == c.outcome.records && b.warnings == c.outcome.warnings
      && b.next.offset == from.offset + c.consumed && b.next.contexts.Some?
      && Similar(c.outcome.state, StateOf(b.next))
  {
    hide ResumeState, ParseChunk, Canonical;
    CanonicalDistinct(c.outcome.state.contexts);
  }

  lemma ScanSimilar(p: Policy, scope: string, src: Source, checkpoint: Option<Checkpoint>, st: State)
    requires Tracks(p, scope, src, checkpoint)
    requires st == (if checkpoint.Some? then StateOf(checkpoint.value) else INITIAL)
    ensures Similar(Scan(p, src.bytes[..OffsetOf(checkpoint)]).state, st)
  {
    if checkpoint.None? {
      assert src.bytes[..0] == [];
      ScanNothing(p);
    }
  }
}
