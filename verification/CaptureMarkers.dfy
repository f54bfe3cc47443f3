/** Where a capture block is: markers outside fenced code, and the pair of markers that decides. */
module CaptureMarkers {
  import opened Words
  import opened Wrappers

  const CAPTURE_START := "<!-- project-memory-hub:capture:v1:start -->"
  const CAPTURE_END := "<!-- project-memory-hub:capture:v1:end -->"

  /** Inside a code fence opened by a run of this character, or not. */
  datatype Fence = Closed | Open(mark: char, length: nat)

  datatype Marker = Marker(line: nat, start: bool)

  datatype Scanned = Scanned(fence: Fence, markers: seq<Marker>)

  function LeadingRun(s: string, c: char): (n: nat)
    ensures n <= |s|
    ensures forall i :: 0 <= i < n ==> s[i] == c
    ensures n < |s| ==> s[n] != c
  {
    if s != [] && s[0] == c then 1 + LeadingRun(s[1..], c) else 0
  }

  lemma {:induction false} LeadingRunIs(s: string, c: char, n: nat)
    requires n <= |s| && (forall i :: 0 <= i < n ==> s[i] == c) && (n < |s| ==> s[n] != c)
    ensures LeadingRun(s, c) == n
  {
    if n > 0 {
      LeadingRunIs(s[1..], c, n - 1);
    }
  }

  function Opens(value: string): Option<Fence> {
    if value == [] || value[0] !in "`~" then None
    else
      var length := LeadingRun(value, value[0]);
      if length < 3 || (value[0] == '`' && '`' in value[length..]) then None
      else Some(Open(value[0], length))
  }

  predicate Closes(space: Spaces, value: string, fence: Fence)
    requires fence.Open?
  {
    var length := LeadingRun(value, fence.mark);
    length >= fence.length && Blank(space, value[length..])
  }

  /** The fence after one more line. At most three spaces may come before a fence. */
  function NextFence(space: Spaces, fence: Fence, line: string): Fence {
    var indentation := LeadingRun(line, ' ');
    var stripped := line[indentation..];
    if fence.Open? then
      if indentation <= 3 && Closes(space, stripped, fence) then Closed else fence
    else if indentation <= 3 && Opens(stripped).Some? then Opens(stripped).value
    else Closed
  }

  /** A line is a marker only when it is one exactly, and no fence is open before or after it. */
  predicate Visible(space: Spaces, fence: Fence, line: string) {
    fence.Closed? && NextFence(space, fence, line).Closed? && line in {CAPTURE_START, CAPTURE_END}
  }

  /** The fence after these lines, and the markers among them, numbered from base. */
  function Scan(space: Spaces, fence: Fence, base: nat, lines: seq<string>): (s: Scanned)
    decreases |lines|
  {
    if lines == [] then Scanned(fence, [])
    else
      var last := |lines| - 1;
      var before := Scan(space, fence, base, lines[..last]);
      Scanned(NextFence(space, before.fence, lines[last]),
              if Visible(space, before.fence, lines[last])
              then before.markers + [Marker(base + last, lines[last] == CAPTURE_START)]
              else before.markers)
  }

  lemma {:induction false} ScanConcat(space: Spaces, fence: Fence, base: nat, a: seq<string>, b: seq<string>)
    ensures
      var first := Scan(space, fence, base, a);
      var second := Scan(space, first.fence, base + |a|, b);
      Scan(space, fence, base, a + b) == Scanned(second.fence, first.markers + second.markers)
    decreases |b|
  {
    hide NextFence, Visible;
    if b == [] {
      assert a + b == a;
    } else {
      var last := |b| - 1;
      assert (a + b)[..|a + b| - 1] == a + b[..last];
      assert (a + b)[|a + b| - 1] == b[last];
      ScanConcat(space, fence, base, a, b[..last]);
    }
  }

  /** The marker found at a line is what that line says. */
  ghost predicate MarksLine(lines: seq<string>, base: nat, m: Marker) {
    && base <= m.line < base + |lines|
    && lines[m.line - base] == (if m.start then CAPTURE_START else CAPTURE_END)
  }

  ghost predicate Increasing(markers: seq<Marker>) {
    forall i, j :: 0 <= i < j < |markers| ==> markers[i].line < markers[j].line
  }

  /** Markers are in line order, each at a line that is one. */
  lemma {:induction false} MarkersOrdered(space: Spaces, fence: Fence, base: nat, lines: seq<string>)
    ensures Increasing(Scan(space, fence, base, lines).markers)
    ensures forall m :: m in Scan(space, fence, base, lines).markers ==> MarksLine(lines, base, m)
    decreases |lines|
  {
    hide NextFence;
    if lines != [] {
      var last := |lines| - 1;
      MarkersOrdered(space, fence, base, lines[..last]);
      var before := Scan(space, fence, base, lines[..last]);
      forall m | m in before.markers
        ensures MarksLine(lines, base, m) && m.line < base + last
      {
        assert MarksLine(lines[..last], base, m);
      }
    }
  }

  method FindMarkers(space: Spaces, lines: seq<string>) returns (markers: seq<Marker>)
    ensures markers == Scan(space, Closed, 0, lines).markers
  {
    markers := [];
    var fence := Closed;
    for index := 0 to |lines|
      invariant Scan(space, Closed, 0, lines[..index]) == Scanned(fence, markers)
    {
      assert lines[..index + 1][..index] == lines[..index];
      var line := lines[index];
      var indentation := LeadingRun(line, ' ');
      var stripped := line[indentation..];
      if fence.Open? {
        if indentation <= 3 && Closes(space, stripped, fence) {
          fence := Closed;
        }
      } else {
        var opening := if indentation <= 3 then Opens(stripped) else None;
        if opening.Some? {
          fence := opening.value;
        } else if line in {CAPTURE_START, CAPTURE_END} {
          markers := markers + [Marker(index, line == CAPTURE_START)];
        }
      }
    }
    assert lines[..|lines|] == lines;
  }

  // ---------- fenced lines never matter ----------

  ghost predicate NeverCloses(space: Spaces, fence: Fence, lines: seq<string>) {
    fence.Open? && forall i :: 0 <= i < |lines| ==> NextFence(space, fence, lines[i]) == fence
  }

  lemma {:induction false} FencedLinesHidden(space: Spaces, fence: Fence, base: nat, lines: seq<string>)
    requires NeverCloses(space, fence, lines)
    ensures Scan(space, fence, base, lines) == Scanned(fence, [])
    decreases |lines|
  {
    if lines != [] {
      FencedLinesHidden(space, fence, base, lines[..|lines| - 1]);
    }
  }

  /** The same markers, in texts that come to them at different lines. */
  ghost predicate Moved(a: seq<Marker>, b: seq<Marker>, from: nat, to: nat) {
    && |a| == |b|
    && forall i :: 0 <= i < |a| ==>
         a[i].start == b[i].start && a[i].line >= from && b[i].line == a[i].line - from + to
  }

  /** Where the numbering starts changes only the numbers. */
  lemma {:induction false} ScanRebased(space: Spaces, fence: Fence, base: nat, to: nat, lines: seq<string>)
    ensures Scan(space, fence, base, lines).fence == Scan(space, fence, to, lines).fence
    ensures Moved(Scan(space, fence, base, lines).markers, Scan(space, fence, to, lines).markers, base, to)
    decreases |lines|
  {
    hide NextFence, Visible;
    if lines != [] {
      ScanRebased(space, fence, base, to, lines[..|lines| - 1]);
    }
  }

  /** Two scans that begin with the same markers and go on with these. */
  ghost predicate OnlyMoves(early: seq<Marker>, one: Scanned, two: Scanned, from: nat, to: nat) {
    && one.fence == two.fence && early <= one.markers && early <= two.markers
    && Moved(one.markers[|early|..], two.markers[|early|..], from, to)
  }

  lemma MovesBehind(early: seq<Marker>, fence: Fence, a: seq<Marker>, b: seq<Marker>, from: nat, to: nat)
    requires Moved(a, b, from, to)
    ensures OnlyMoves(early, Scanned(fence, early + a), Scanned(fence, early + b), from, to)
  {
    assert (early + a)[|early|..] == a && (early + b)[|early|..] == b;
  }

  /** Whatever stands inside a fence, and on however many lines: the markers before it are the
      same, and those after it only move with the lines. */
  lemma FencedBodyNeverMatters(space: Spaces, before: seq<string>, body: seq<string>, other: seq<string>, after: seq<string>)
    requires var fence := Scan(space, Closed, 0, before).fence;
             NeverCloses(space, fence, body) && NeverCloses(space, fence, other)
    ensures OnlyMoves(Scan(space, Closed, 0, before).markers,
                      Scan(space, Closed, 0, before + body + after), Scan(space, Closed, 0, before + other + after),
                      |before| + |body|, |before| + |other|)
  {
    hide *;
    var first := Scan(space, Closed, 0, before);
    FencedLinesHidden(space, first.fence, |before|, body);
    FencedLinesHidden(space, first.fence, |before|, other);
    ScanConcat(space, Closed, 0, before, body);
    ScanConcat(space, Closed, 0, before, other);
    ScanConcat(space, Closed, 0, before + body, after);
    ScanConcat(space, Closed, 0, before + other, after);
    ScanRebased(space, first.fence, |before| + |body|, |before| + |other|, after);
    assert first.markers + [] == first.markers;
    var late := Scan(space, first.fence, |before| + |body|, after);
    MovesBehind(first.markers, late.fence, late.markers, Scan(space, first.fence, |before| + |other|, after).markers,
                |before| + |body|, |before| + |other|);
  }

  // ---------- which pair decides ----------

  datatype Selection = Missing | Invalid | Block(start: nat, end: nat)

  /** The last marker ends the block, the one before it starts it, and no start was left open
      before that. */
  predicate Decides(markers: seq<Marker>) {
    var n := |markers|;
    && n >= 2 && !markers[n - 1].start && markers[n - 2].start
    && (n == 2 || !markers[n - 3].start)
  }

  function Selected(markers: seq<Marker>): Selection {
    var n := |markers|;
    if forall i :: 0 <= i < n ==> !markers[i].start then Missing
    else if Decides(markers) then Block(markers[n - 2].line, markers[n - 1].line)
    else Invalid
  }

  datatype Pair = Pair(start: nat, end: nat, nested: bool)

  /** The loop's state after these markers: an open start is the last marker, it is nested when
      the marker before it is also a start, and every completed pair is two neighbours. */
  ghost predicate Paired(markers: seq<Marker>, completed: seq<Pair>, pending: Option<nat>, nested: bool) {
    var n := |markers|;
    && pending == (if n > 0 && markers[n - 1].start then Some(markers[n - 1].line) else None)
    && nested == (n > 1 && markers[n - 1].start && markers[n - 2].start)
    && (completed == [] ==> forall i :: 0 < i < n ==> !(markers[i - 1].start && !markers[i].start))
    && (completed != [] ==>
          var pair := completed[|completed| - 1];
          exists i :: 0 < i < n && LastPair(markers, i, pair))
  }

  ghost predicate LastPair(markers: seq<Marker>, i: nat, pair: Pair)
    requires 0 < i < |markers|
  {
    && markers[i - 1].start && !markers[i].start
    && pair == Pair(markers[i - 1].line, markers[i].line, i > 1 && markers[i - 2].start)
    && forall j :: i < j < |markers| ==> !(markers[j - 1].start && !markers[j].start)
  }

  lemma NoPairNoStartAfterEnd(markers: seq<Marker>, i: nat)
    requires forall j :: 0 < j < |markers| ==> !(markers[j - 1].start && !markers[j].start)
    requires i < |markers| && markers[i].start
    ensures markers[|markers| - 1].start
    decreases |markers| - i
  {
    if i < |markers| - 1 {
      assert markers[(i + 1) - 1].start;
      NoPairNoStartAfterEnd(markers, i + 1);
    }
  }

  /** One step of the pairing loop keeps its invariant. */
  lemma PairStep(markers: seq<Marker>, m: Marker, completed: seq<Pair>, pending: Option<nat>, nested: bool)
    requires Paired(markers, completed, pending, nested)
    ensures m.start ==> Paired(markers + [m], completed, Some(m.line), nested || pending.Some?)
    ensures !m.start && pending.Some? ==>
              Paired(markers + [m], completed + [Pair(pending.value, m.line, nested)], None, false)
    ensures !m.start && pending.None? ==> Paired(markers + [m], completed, None, nested)
  {
    var now := markers + [m];
    var n := |markers|;
    if !m.start && pending.Some? {
      var longer := completed + [Pair(pending.value, m.line, nested)];
      assert longer[|longer| - 1] == Pair(pending.value, m.line, nested);
      assert LastPair(now, n, longer[|longer| - 1]);
    } else if completed != [] {
      var pair := completed[|completed| - 1];
      var i :| 0 < i < n && LastPair(markers, i, pair);
      assert LastPair(now, i, pair);
    }
  }

  /** What the loop has at the end selects the block. */
  lemma PairsSelect(markers: seq<Marker>, completed: seq<Pair>, pending: Option<nat>, nested: bool)
    requires Increasing(markers) && Paired(markers, completed, pending, nested)
    ensures Selected(markers) ==
            if completed == [] then
              if exists i :: 0 <= i < |markers| && markers[i].start then Invalid else Missing
            else
              var last := completed[|completed| - 1];
              if last.nested || exists i :: 0 <= i < |markers| && markers[i].line > last.end then Invalid
              else Block(last.start, last.end)
  {
    var n := |markers|;
    if completed == [] {
      if i :| 0 <= i < n && markers[i].start {
        NoPairNoStartAfterEnd(markers, i);
      }
    } else {
      var last := completed[|completed| - 1];
      var i :| 0 < i < n && LastPair(markers, i, last);
      assert markers[i - 1].start;
      if i < n - 1 {
        assert markers[n - 1].line > last.end;
        assert !Decides(markers);
      } else {
        assert forall k :: 0 <= k < n ==> markers[k].line <= last.end;
      }
    }
  }

  method SelectBlock(markers: seq<Marker>) returns (selection: Selection)
    requires Increasing(markers)
    ensures selection == Selected(markers)
  {
    var completed: seq<Pair> := [];
    var pending: Option<nat> := None;
    var nested := false;
    for k := 0 to |markers|
      invariant Paired(markers[..k], completed, pending, nested)
    {
      hide *;
      var marker := markers[k];
      PairStep(markers[..k], marker, completed, pending, nested);
      assert markers[..k + 1] == markers[..k] + [marker];
      if marker.start {
        if pending.Some? {
          nested := true;
        }
        pending := Some(marker.line);
      } else if pending.Some? {
        completed := completed + [Pair(pending.value, marker.line, nested)];
        pending := None;
        nested := false;
      }
    }
    hide *;
    assert markers[..|markers|] == markers;
    PairsSelect(markers, completed, pending, nested);
    if completed == [] {
      return if exists i :: 0 <= i < |markers| && markers[i].start then Invalid else Missing;
    }
    var last := completed[|completed| - 1];
    if last.nested || exists i :: 0 <= i < |markers| && markers[i].line > last.end {
      selection := Invalid;
    } else {
      selection := Block(last.start, last.end);
    }
  }
}
