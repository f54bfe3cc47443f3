/** Resolving the model of the active thread from a whole session file: the chunked newline
    splitter, the fold over lines, and what its answer means. */
module RuntimeModel {
  import opened Wrappers
  import opened ByteLines
  import opened CodexTypes
  import opened Lifecycle

  // ---------- the splitter ----------

  ghost predicate AllBounded(lines: seq<Bytes>, limit: nat) {
    forall k :: 0 <= k < |lines| ==> |lines[k]| <= limit
  }

  lemma LongFragment(file: Bytes, n: nat, limit: nat)
    requires n <= |file| && |Tail(file[..n])| > limit
    ensures Tail(file) != [] || !AllBounded(Lines(file), limit)
  {
    var fragment, rest := Tail(file[..n]), file[n..];
    assert file == file[..n] + rest;
    SplitConcat(file[..n], rest);
    SplitIsPartition(file[..n]);
    var joined := fragment + rest;
    if IndexOfLf(joined) < |joined| {
      assert forall k :: 0 <= k < |fragment| ==> joined[k] == fragment[k];
      assert |Lines(joined)[0]| > limit;
      assert Lines(file)[|Lines(file[..n])|] == Lines(joined)[0];
    }
  }

  lemma NextLine(buffer: Bytes, cursor: nat, newline: nat)
    requires cursor + newline < |buffer| && newline == IndexOfLf(buffer[cursor..])
    ensures Lines(buffer[cursor..]) == [buffer[cursor..cursor + newline + 1]] + Lines(buffer[cursor + newline + 1..])
    ensures Tail(buffer[cursor..]) == Tail(buffer[cursor + newline + 1..])
  {
    hide Lines, Tail, IndexOfLf;
    SplitFirst(buffer[cursor..], newline);
    assert buffer[cursor..][..newline + 1] == buffer[cursor..cursor + newline + 1];
    assert buffer[cursor..][newline + 1..] == buffer[cursor + newline + 1..];
  }

  /** Reads of any positive size yield exactly the newline split of the file, or fail exactly
      when a line is too long or the last line is unfinished. */
  method SplitFile(file: Bytes, readSize: nat, limit: nat) returns (ok: bool, lines: seq<Bytes>)
    requires readSize > 0
    ensures ok <==> Tail(file) == [] && AllBounded(Lines(file), limit)
    ensures ok ==> lines == Lines(file)
  {
    hide Lines, Tail, IndexOfLf, AllBounded;
    lines := [];
    var buffer: Bytes := [];
    var offset := 0;
    EmptySplit(file, limit);
    while offset < |file|
      invariant offset <= |file|
      invariant lines == Lines(file[..offset]) && buffer == Tail(file[..offset])
      invariant AllBounded(lines, limit) && |buffer| <= limit
      decreases |file| - offset
    {
      var expected := if readSize <= |file| - offset then readSize else |file| - offset;
      var chunk := file[offset..offset + expected];
      assert file[..offset + expected] == file[..offset] + chunk;
      SplitConcat(file[..offset], chunk);
      offset := offset + expected;
      buffer := buffer + chunk;
      var cursor := 0;
      assert buffer[0..] == buffer;
      while cursor < |buffer|
        invariant cursor <= |buffer|
        invariant Lines(file[..offset]) == lines + Lines(buffer[cursor..])
        invariant Tail(file[..offset]) == Tail(buffer[cursor..])
        invariant AllBounded(lines, limit)
        decreases |buffer| - cursor
      {
        var newline := IndexOfLf(buffer[cursor..]);
        if cursor + newline == |buffer| {
          NoLfSplit(buffer[cursor..]);
          break;
        }
        NextLine(buffer, cursor, newline);
        var line := buffer[cursor..cursor + newline + 1];
        if |line| > limit {
          UnboundedLine(file, offset, lines, line, Lines(buffer[cursor + newline + 1..]), limit);
          return false, lines;
        }
        AddBounded(lines, line, limit);
        assert lines + ([line] + Lines(buffer[cursor + newline + 1..])) == lines + [line] + Lines(buffer[cursor + newline + 1..]);
        lines := lines + [line];
        cursor := cursor + newline + 1;
      }
      NoMoreLines(buffer, cursor);
      assert lines + [] == lines;
      buffer := buffer[cursor..];
      if |buffer| > limit {
        LongFragment(file, offset, limit);
        return false, lines;
      }
    }
    assert file[..offset] == file;
    ok := buffer == [];
  }

  lemma EmptySplit(file: Bytes, limit: nat)
    ensures Lines(file[..0]) == [] && Tail(file[..0]) == [] && AllBounded([], limit)
  {
    assert file[..0] == [];
  }

  lemma NoMoreLines(buffer: Bytes, cursor: nat)
    requires cursor <= |buffer|
    requires cursor == |buffer| || IndexOfLf(buffer[cursor..]) == |buffer| - cursor
    ensures Lines(buffer[cursor..]) == [] && Tail(buffer[cursor..]) == buffer[cursor..]
  {
  }

  lemma AddBounded(lines: seq<Bytes>, line: Bytes, limit: nat)
    requires AllBounded(lines, limit) && |line| <= limit
    ensures AllBounded(lines + [line], limit)
  {
  }

  lemma UnboundedLine(file: Bytes, n: nat, before: seq<Bytes>, line: Bytes, after: seq<Bytes>, limit: nat)
    requires n <= |file| && Lines(file[..n]) == before + ([line] + after) && |line| > limit
    ensures !AllBounded(Lines(file), limit)
  {
    LinesOfPrefix(file, n);
    assert Lines(file)[|before|] == Lines(file[..n])[|before|] == line;
  }

  // ---------- what one line says to the resolver ----------

  datatype Late = Unacceptable | Quiet | Declares(turn: string, cwd: string, model: string) | Finishes(turn: string)

  /** Broken lines end the resolution wherever they stand; late content counts only once the
      thread's own session has started. */
  datatype Said = Broken | Nothing | Meta(id: Option<string>, session: Option<string>) | Later(late: Late)

  function Listen(p: Policy, line: Bytes): Said {
    if line == [] || line[|line| - 1] != LF || |line| > p.maxNonsemanticBytes then Broken
    else
      match p.decode(line, |line| > p.maxRecordBytes)
      case None => Broken
      case Some(value) =>
        if !value.JObject? then Broken
        else if |line| > p.maxRecordBytes || |line| > p.maxLineBytes then
          if KnownNonsemantic(value.fields) then Nothing else Broken
        else ListenValue(p, value.fields)
  }

  function ListenValue(p: Policy, fields: map<string, Json>): Said {
    var kind := Field(fields, "type");
    if !kind.JString? then Broken
    else if kind.text in IGNORED_RECORD_TYPES then Nothing
    else
      var payload := Field(fields, "payload");
      if kind.text != "session_meta" && kind.text != "turn_context" && kind.text != "event_msg" then Broken
      else if !payload.JObject? then Broken
      else if kind.text == "session_meta" then ListenMeta(p, payload.fields)
      else if kind.text == "turn_context" then Later(ListenContext(p, payload.fields))
      else Later(ListenEvent(p, payload.fields))
  }

  function ListenMeta(p: Policy, payload: map<string, Json>): Said {
    var id := Component(p, Field(payload, "id"));
    var session := Component(p, Field(payload, "session_id"));
    if ("id" in payload && id.None?) || ("session_id" in payload && session.None?) then Broken
    else Meta(if "id" in payload then id else None, if "session_id" in payload then session else None)
  }

  function ListenContext(p: Policy, payload: map<string, Json>): Late {
    var turn := Component(p, Field(payload, "turn_id"));
    var cwd := Field(payload, "cwd");
    var model := Field(payload, "model");
    if turn.None? || Bounded(p.checkCwd, cwd) != Accepted || !model.JString? || !p.modelSafe(model.text) then Unacceptable
    else Declares(turn.value, cwd.text, model.text)
  }

  function ListenEvent(p: Policy, payload: map<string, Json>): Late {
    var event := Field(payload, "type");
    if !event.JString? then Unacceptable
    else if event.text in IGNORED_EVENT_TYPES then Quiet
    else if event.text != "task_complete" && event.text != "turn_aborted" then Unacceptable
    else
      match Component(p, Field(payload, "turn_id"))
      case None => Unacceptable
      case Some(turn) => Finishes(turn)
  }

  function Hear(p: Policy, lines: seq<Bytes>): (said: seq<Said>)
    ensures |said| == |lines|
    ensures forall k :: 0 <= k < |lines| ==> said[k] == Listen(p, lines[k])
  {
    seq(|lines|, k requires 0 <= k < |lines| => Listen(p, lines[k]))
  }

  // ---------- what the answer means ----------

  /** The first session_meta line; it must name the thread. */
  function FirstMeta(said: seq<Said>): (f: nat)
    ensures f <= |said|
    ensures f < |said| ==> said[f].Meta?
    ensures forall k :: 0 <= k < f ==> !said[k].Meta?
  {
    if said == [] || said[0].Meta? then 0 else 1 + FirstMeta(said[1..])
  }

  function Alias(meta: Said): string
    requires meta.Meta?
  {
    if meta.session.Some? then meta.session.value else if meta.id.Some? then meta.id.value else ""
  }

  /** A session_meta line after the first one repeats the thread or its alias. */
  predicate Consistent(meta: Said, thread: string, alias: string)
    requires meta.Meta?
  {
    && (meta.id.Some? || meta.session.Some?)
    && (meta.id.Some? ==> meta.id.value == thread || meta.id.value == alias)
    && (meta.session.Some? ==> meta.session.value == alias)
  }

  /** Line k is acceptable where it stands. */
  predicate ValidAt(said: seq<Said>, thread: string, k: nat)
    requires k < |said|
  {
    var f := FirstMeta(said);
    match said[k]
    case Broken => false
    case Nothing => true
    case Later(late) => k < f || !late.Unacceptable?
    case Meta(id, _) =>
      if k == f then id == Some(thread) else Consistent(said[k], thread, Alias(said[f]))
  }

  type Pair = (string, string)

  /** Line i declares this pair for the turn and no later line before n ends the turn. */
  ghost predicate DeclaredSinceEnd(said: seq<Said>, n: nat, turn: string, pair: Pair, i: nat) {
    && n <= |said| && FirstMeta(said) < i < n
    && said[i] == Later(Declares(turn, pair.0, pair.1))
    && forall k :: i < k < n ==> said[k] != Later(Finishes(turn))
  }

  /** The turn is open with this pair of working directory and model. */
  ghost predicate OpenWith(said: seq<Said>, n: nat, turn: string, pair: Pair) {
    exists i: nat :: DeclaredSinceEnd(said, n, turn, pair, i)
  }

  /** Every open turn declared one pair only. */
  ghost predicate Unambiguous(said: seq<Said>) {
    forall turn, x, y :: OpenWith(said, |said|, turn, x) && OpenWith(said, |said|, turn, y) ==> x == y
  }

  ghost predicate OpenModel(said: seq<Said>, cwd: string, model: string) {
    exists turn :: OpenWith(said, |said|, turn, (cwd, model))
  }

  /** The meaning of the answer: every line valid, the thread's session seen, every open turn
      unambiguous, and one model among the turns open at the working directory. */
  ghost predicate Resolves(said: seq<Said>, maxRecords: nat, thread: string, cwd: string, model: string) {
    && |said| <= maxRecords
    && FirstMeta(said) < |said|
    && (forall k :: 0 <= k < |said| ==> ValidAt(said, thread, k))
    && Unambiguous(said)
    && OpenModel(said, cwd, model)
    && forall other :: OpenModel(said, cwd, other) ==> other == model
  }

  // ---------- the fold ----------

  /** The dictionary update of a turn_context line. */
  function Declare(contexts: map<string, Pair>, ambiguous: set<string>, turn: string, pair: Pair): (map<string, Pair>, set<string>) {
    if turn in ambiguous then (contexts, ambiguous)
    else if turn !in contexts then (contexts[turn := pair], ambiguous)
    else if contexts[turn] != pair then (contexts - {turn}, ambiguous + {turn})
    else (contexts, ambiguous)
  }

  function ModelsAt(contexts: map<string, Pair>, cwd: string): set<string> {
    set t | t in contexts && contexts[t].0 == cwd :: contexts[t].1
  }

  ghost predicate Several(said: seq<Said>, n: nat, turn: string) {
    exists x, y :: OpenWith(said, n, turn, x) && OpenWith(said, n, turn, y) && x != y
  }

  /** Turn maps of the fold against the lines heard: one pair, several, or none. */
  ghost predicate TurnTracked(said: seq<Said>, n: nat, contexts: map<string, Pair>, ambiguous: set<string>, turn: string) {
    && !(turn in contexts && turn in ambiguous)
    && (turn in contexts ==> forall pair :: OpenWith(said, n, turn, pair) <==> pair == contexts[turn])
    && (turn in ambiguous ==> Several(said, n, turn))
    && (turn !in contexts && turn !in ambiguous ==> forall pair :: !OpenWith(said, n, turn, pair))
  }

  ghost predicate AllTracked(said: seq<Said>, n: nat, contexts: map<string, Pair>, ambiguous: set<string>) {
    forall turn :: TurnTracked(said, n, contexts, ambiguous, turn)
  }

  /** How one line changes what is open. */
  lemma OpenAfter(said: seq<Said>, n: nat, turn: string, pair: Pair)
    requires n < |said|
    ensures OpenWith(said, n + 1, turn, pair) <==>
      || (FirstMeta(said) < n && said[n] == Later(Declares(turn, pair.0, pair.1)))
      || (OpenWith(said, n, turn, pair) && said[n] != Later(Finishes(turn)))
  {
    hide FirstMeta;
    if FirstMeta(said) < n && said[n] == Later(Declares(turn, pair.0, pair.1)) {
      assert DeclaredSinceEnd(said, n + 1, turn, pair, n);
    }
    if OpenWith(said, n, turn, pair) && said[n] != Later(Finishes(turn)) {
      var i: nat :| DeclaredSinceEnd(said, n, turn, pair, i);
      assert DeclaredSinceEnd(said, n + 1, turn, pair, i);
    }
    if OpenWith(said, n + 1, turn, pair) {
      var i: nat :| DeclaredSinceEnd(said, n + 1, turn, pair, i);
      assert i == n || DeclaredSinceEnd(said, n, turn, pair, i);
    }
  }

  /** What line n means for one turn. */
  datatype Change = Opens(pair: Pair) | Closes | NoChange

  function Concerns(said: seq<Said>, n: nat, turn: string): Change
    requires n < |said|
  {
    if !(FirstMeta(said) < n) || !said[n].Later? then NoChange
    else
      match said[n].late
      case Declares(t, cwd, model) => if t == turn then Opens((cwd, model)) else NoChange
      case Finishes(t) => if t == turn then Closes else NoChange
      case _ => NoChange
  }

  /** One line and one turn: what was tracked stays tracked through the dictionary update. */
  lemma TurnAfter(said: seq<Said>, n: nat, next: nat, contexts: map<string, Pair>, ambiguous: set<string>,
                  contexts': map<string, Pair>, ambiguous': set<string>, turn: string)
    requires n < |said| && next == n + 1 && TurnTracked(said, n, contexts, ambiguous, turn)
    requires
      (match Concerns(said, n, turn)
       case Opens(pair) => (contexts', ambiguous') == Declare(contexts, ambiguous, turn, pair)
       case Closes => turn !in contexts' && turn !in ambiguous'
       case NoChange =>
         && (turn in contexts' <==> turn in contexts) && (turn in ambiguous' <==> turn in ambiguous)
         && (turn in contexts ==> contexts'[turn] == contexts[turn]))
    ensures TurnTracked(said, next, contexts', ambiguous', turn)
  {
    hide FirstMeta, OpenWith;
    var change := Concerns(said, n, turn);
    forall pair
      ensures OpenWith(said, next, turn, pair) <==>
        change == Opens(pair) || (OpenWith(said, n, turn, pair) && change != Closes)
    {
      OpenAfter(said, n, turn, pair);
      if !(FirstMeta(said) < n) {
        NothingOpenBeforeMeta(said, n, turn, pair);
      }
    }
    if change.Opens? {
      assert OpenWith(said, next, turn, change.pair);
      if turn in contexts && contexts[turn] != change.pair {
        assert OpenWith(said, next, turn, contexts[turn]);
      }
    }
    if turn in ambiguous && turn in ambiguous' {
      var x, y :| OpenWith(said, n, turn, x) && OpenWith(said, n, turn, y) && x != y;
      assert OpenWith(said, next, turn, x) && OpenWith(said, next, turn, y);
    }
  }

  lemma NothingOpenBeforeMeta(said: seq<Said>, n: nat, turn: string, pair: Pair)
    requires !(FirstMeta(said) < n)
    ensures !OpenWith(said, n, turn, pair)
  {
    hide FirstMeta;
  }

  lemma NothingOpen(said: seq<Said>)
    ensures AllTracked(said, 0, map[], {})
  {
    hide FirstMeta;
  }

  lemma QuietLine(said: seq<Said>, n: nat, next: nat, contexts: map<string, Pair>, ambiguous: set<string>)
    requires n < |said| && next == n + 1 && AllTracked(said, n, contexts, ambiguous)
    requires n <= FirstMeta(said) || !said[n].Later? || said[n].late.Quiet?
    ensures AllTracked(said, next, contexts, ambiguous)
  {
    hide FirstMeta, TurnTracked;
    forall turn
      ensures TurnTracked(said, next, contexts, ambiguous, turn)
    {
      assert TurnTracked(said, n, contexts, ambiguous, turn);
      TurnAfter(said, n, next, contexts, ambiguous, contexts, ambiguous, turn);
    }
  }

  lemma DeclaringLine(said: seq<Said>, n: nat, next: nat, contexts: map<string, Pair>, ambiguous: set<string>,
                      contexts': map<string, Pair>, ambiguous': set<string>)
    requires n < |said| && next == n + 1 && AllTracked(said, n, contexts, ambiguous) && FirstMeta(said) < n
    requires said[n].Later? && said[n].late.Declares?
    requires (contexts', ambiguous')
          == Declare(contexts, ambiguous, said[n].late.turn, (said[n].late.cwd, said[n].late.model))
    ensures AllTracked(said, next, contexts', ambiguous')
  {
    hide FirstMeta, TurnTracked;
    forall turn
      ensures TurnTracked(said, next, contexts', ambiguous', turn)
    {
      assert TurnTracked(said, n, contexts, ambiguous, turn);
      TurnAfter(said, n, next, contexts, ambiguous, contexts', ambiguous', turn);
    }
  }

  lemma FinishingLine(said: seq<Said>, n: nat, next: nat, contexts: map<string, Pair>, ambiguous: set<string>,
                      contexts': map<string, Pair>, ambiguous': set<string>)
    requires n < |said| && next == n + 1 && AllTracked(said, n, contexts, ambiguous) && FirstMeta(said) < n
    requires said[n].Later? && said[n].late.Finishes?
    requires contexts' == contexts - {said[n].late.turn} && ambiguous' == ambiguous - {said[n].late.turn}
    ensures AllTracked(said, next, contexts', ambiguous')
  {
    hide FirstMeta, TurnTracked;
    forall turn
      ensures TurnTracked(said, next, contexts', ambiguous', turn)
    {
      assert TurnTracked(said, n, contexts, ambiguous, turn);
      TurnAfter(said, n, next, contexts, ambiguous, contexts', ambiguous', turn);
    }
  }

  /** The answer from the maps at the end. */
  lemma Answer(said: seq<Said>, contexts: map<string, Pair>, ambiguous: set<string>, cwd: string)
    requires AllTracked(said, |said|, contexts, ambiguous)
    ensures ambiguous == {} <==> Unambiguous(said)
    ensures ambiguous == {} ==> forall model :: OpenModel(said, cwd, model) <==> model in ModelsAt(contexts, cwd)
  {
    hide OpenWith;
    var n := |said|;
    if turn :| turn in ambiguous {
      assert TurnTracked(said, n, contexts, ambiguous, turn);
    } else {
      forall turn, x, y | OpenWith(said, n, turn, x) && OpenWith(said, n, turn, y)
        ensures x == y
      {
        assert TurnTracked(said, n, contexts, ambiguous, turn);
      }
      forall model
        ensures OpenModel(said, cwd, model) <==> model in ModelsAt(contexts, cwd)
      {
        if OpenModel(said, cwd, model) {
          var turn :| OpenWith(said, n, turn, (cwd, model));
          assert TurnTracked(said, n, contexts, ambiguous, turn);
          assert turn in contexts && contexts[turn] == (cwd, model);
        }
        if model in ModelsAt(contexts, cwd) {
          var turn :| turn in contexts && contexts[turn].0 == cwd && contexts[turn].1 == model;
          assert TurnTracked(said, n, contexts, ambiguous, turn);
          assert contexts[turn] == (cwd, model) && OpenWith(said, n, turn, (cwd, model));
        }
      }
    }
  }

  /** The fold over the lines of a session file: it names a model exactly when that model is
      what the lines mean. */
  method ModelFromLines(p: Policy, lines: seq<Bytes>, thread: string, cwd: string, maxRecords: nat)
    returns (r: Option<string>)
    ensures forall model :: r == Some(model) <==> Resolves(Hear(p, lines), maxRecords, thread, cwd, model)
  {
    ghost var said := Hear(p, lines);
    hide Listen, FirstMeta, AllTracked, Unambiguous, OpenModel, OpenWith;
    var sawTarget := false;
    var alias := "";
    var contexts: map<string, Pair> := map[];
    var ambiguous: set<string> := {};
    NothingOpen(said);
    var k := 0;
    while k < |lines|
      invariant k <= |lines| && k <= maxRecords
      invariant sawTarget <==> FirstMeta(said) < k
      invariant sawTarget ==> alias == Alias(said[FirstMeta(said)])
      invariant forall j :: 0 <= j < k ==> ValidAt(said, thread, j)
      invariant AllTracked(said, k, contexts, ambiguous)
    {
      if k + 1 > maxRecords {
        return None;
      }
      var heard := Listen(p, lines[k]);
      assert heard == said[k];
      if heard.Broken? {
        assert !ValidAt(said, thread, k);
        return None;
      }
      if heard.Meta? {
        if !sawTarget {
          FirstMetaHere(said, k);
          if heard.id != Some(thread) {
            assert !ValidAt(said, thread, k);
            return None;
          }
          alias := if heard.session.Some? then heard.session.value else thread;
          sawTarget := true;
          NothingBeforeMeta(said, k);
          contexts, ambiguous := map[], {};
        } else {
          var unnamed := heard.id.None? && heard.session.None?;
          var otherId := heard.id.Some? && heard.id.value != thread && heard.id.value != alias;
          var otherSession := heard.session.Some? && heard.session.value != alias;
          if unnamed || otherId || otherSession {
            assert !ValidAt(said, thread, k);
            return None;
          }
        }
        QuietLine(said, k, k + 1, contexts, ambiguous);
      } else if heard.Nothing? || !sawTarget {
        QuietLine(said, k, k + 1, contexts, ambiguous);
      } else {
        match heard.late {
          case Unacceptable =>
            assert !ValidAt(said, thread, k);
            return None;
          case Quiet =>
            QuietLine(said, k, k + 1, contexts, ambiguous);
          case Declares(turn, declaredCwd, model) =>
            ghost var contexts0, ambiguous0 := contexts, ambiguous;
            if turn !in ambiguous {
              if turn !in contexts {
                contexts := contexts[turn := (declaredCwd, model)];
              } else if contexts[turn] != (declaredCwd, model) {
                contexts := contexts - {turn};
                ambiguous := ambiguous + {turn};
              }
            }
            DeclaringLine(said, k, k + 1, contexts0, ambiguous0, contexts, ambiguous);
          case Finishes(turn) =>
            FinishingLine(said, k, k + 1, contexts, ambiguous, contexts - {turn}, ambiguous - {turn});
            contexts := contexts - {turn};
            ambiguous := ambiguous - {turn};
        }
      }
      k := k + 1;
    }
    Answer(said, contexts, ambiguous, cwd);
    var matches := ModelsAt(contexts, cwd);
    if !sawTarget || ambiguous != {} || |matches| != 1 {
      NotSingleton(matches);
      return None;
    }
    var model :| model in matches;
    Singleton(matches, model);
    return Some(model);
  }

  lemma FirstMetaHere(said: seq<Said>, k: nat)
    requires k < |said| && said[k].Meta? && !(FirstMeta(said) < k)
    ensures FirstMeta(said) == k
  {
  }

  lemma NothingBeforeMeta(said: seq<Said>, k: nat)
    requires FirstMeta(said) == k
    ensures AllTracked(said, k, map[], {})
  {
    hide FirstMeta;
  }

  lemma Singleton(s: set<string>, x: string)
    requires |s| == 1 && x in s
    ensures forall y :: y in s <==> y == x
  {
    assert |s - {x}| == 0;
    assert forall y :: y in s && y != x ==> y in s - {x};
  }

  lemma NotSingleton(s: set<string>)
    ensures |s| != 1 ==> forall x :: x in s ==> exists y :: y in s && y != x
  {
    if |s| != 1 {
      forall x | x in s
        ensures exists y :: y in s && y != x
      {
        assert |s - {x}| == |s| - 1 > 0;
        var y :| y in s - {x};
      }
    }
  }

  /** Resolution from a file that stays as it is: some model exactly when the file is not
      empty, within the scan limit, fully terminated with bounded lines, and its lines mean
      that model. */
  method RuntimeModelOf(p: Policy, file: Bytes, readSize: nat, thread: string, cwd: string) returns (r: Option<string>)
    requires readSize > 0
    ensures forall model :: r == Some(model) <==>
      && 0 < |file| <= p.maxScanBytes
      && Tail(file) == [] && AllBounded(Lines(file), p.maxNonsemanticBytes)
      && Resolves(Hear(p, Lines(file)), p.maxScanRecords, thread, cwd, model)
  {
    hide Lines, Tail, Hear, Resolves, AllBounded;
    if |file| == 0 || |file| > p.maxScanBytes {
      return None;
    }
    var ok, lines := SplitFile(file, readSize, p.maxNonsemanticBytes);
    if !ok {
      return None;
    }
    r := ModelFromLines(p, lines, thread, cwd, p.maxScanRecords);
  }
}
