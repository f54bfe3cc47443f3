/** What an accepted message looks like: where its block stands, what each line of it reads as, and which
    labels those items make. Stated over the text, without the scan's selection and the parser's loops. */
module CaptureMeaning {
  import opened Words
  import opened Wrappers
  import opened CaptureMarkers
  import opened CitationSuffix
  import opened CaptureBlock

  // ---------- one line ----------

  /** The line is a heading and a value that fits, before and after it is normalised. */
  predicate LineReads(c: Checks, line: string, item: Item) {
    && Heading(item.kind) < line
    && var content := Strip(c.space, line[|Heading(item.kind)|..]);
    && content != "" && |content| <= VALUE_MAX_CHARS && c.Within(content, VALUE_MAX_BYTES)
    && item.value == c.Normalize(item.kind, content) && item.value != "" && c.Within(item.value, MAX_FIELD_BYTES)
  }

  lemma {:induction false} MatchExactlyWhen(line: string, k: nat, at: nat, rest: string)
    requires k <= at < |LABELS|
    ensures MatchFrom(line, k) == Some(Item(LABELS[at], rest)) <==>
              Heading(LABELS[at]) < line && rest == line[|Heading(LABELS[at])|..]
    decreases |LABELS| - k
  {
    hide Heading;
    HeadingsApart(LABELS[at], LABELS[k]);
    if k == at {
      if MatchFrom(line, k) == Some(Item(LABELS[at], rest)) && !(Heading(LABELS[k]) < line) {
        MatchedLater(line, k + 1);
        ListedOnce(k);
      }
    } else {
      ListedOnce(k);
      if Heading(LABELS[k]) < line {
        assert Heading(LABELS[k])[0] == line[0] && Heading(LABELS[k])[1] == line[1];
      } else {
        MatchExactlyWhen(line, k + 1, at, rest);
      }
    }
  }

  lemma {:induction false} MatchedLater(line: string, k: nat)
    requires k <= |LABELS|
    ensures MatchFrom(line, k).Some? ==> exists at :: k <= at < |LABELS| && LABELS[at] == MatchFrom(line, k).value.kind
    decreases |LABELS| - k
  {
    hide Heading;
    if k < |LABELS| && !(Heading(LABELS[k]) < line) {
      MatchedLater(line, k + 1);
    }
  }

  lemma ListedOnce(k: nat)
    requires k < |LABELS|
    ensures forall j :: 0 <= j < |LABELS| && LABELS[j] == LABELS[k] ==> j == k
  {
  }

  lemma ItemExactlyWhen(c: Checks, line: string, item: Item)
    ensures ItemOf(c, line) == Some(item) <==> LineReads(c, line, item)
  {
    hide Heading, MatchFrom, Strip;
    var at := LabelIsListed(item.kind);
    if Heading(item.kind) < line {
      MatchExactlyWhen(line, 0, at, line[|Heading(item.kind)|..]);
    }
    var matched := MatchFrom(line, 0);
    if matched.Some? && matched.value.kind == item.kind {
      MatchExactlyWhen(line, 0, at, matched.value.value);
    }
  }

  // ---------- the lines of a block ----------

  /** Each place of the list is a line that reads as the item, in order, and all other lines are empty. */
  ghost predicate Reading(c: Checks, block: seq<string>, items: seq<Item>, places: seq<nat>) {
    && |places| == |items|
    && (forall i, j :: 0 <= i < j < |places| ==> places[i] < places[j])
    && (forall i :: 0 <= i < |places| ==> places[i] < |block| && block[places[i]] != "" && LineReads(c, block[places[i]], items[i]))
    && (forall k :: 0 <= k < |block| && block[k] != "" ==> k in places)
  }

  lemma ReadingMore(c: Checks, block: seq<string>, items: seq<Item>, places: seq<nat>, item: Item)
    requires block != [] && Reading(c, block[..|block| - 1], items, places)
    ensures block[|block| - 1] == "" ==> Reading(c, block, items, places)
    ensures block[|block| - 1] != "" && LineReads(c, block[|block| - 1], item) ==>
              Reading(c, block, items + [item], places + [|block| - 1])
  {
    hide LineReads;
    var last := |block| - 1;
    var longer := places + [last];
    assert longer[|places|] == last;
    forall k | 0 <= k < last && block[k] != ""
      ensures k in places && k in longer
    {
      assert block[..last][k] != "";
      assert forall i :: 0 <= i < |places| ==> longer[i] == places[i];
    }
  }

  lemma ItemsEnd(c: Checks, block: seq<string>)
    requires block != [] && ItemsOf(c, block).Some?
    ensures
      var last := |block| - 1;
      && ItemsOf(c, block[..last]).Some?
      && (block[last] == "" ==> ItemsOf(c, block) == ItemsOf(c, block[..last]))
      && (block[last] != "" ==>
            ItemOf(c, block[last]).Some?
            && ItemsOf(c, block).value == ItemsOf(c, block[..last]).value + [ItemOf(c, block[last]).value])
  {
    hide ItemOf;
  }

  lemma NothingRead(c: Checks)
    ensures ItemsOf(c, []) == Some([]) && Reading(c, [], [], [])
  {
  }

  lemma {:induction false} ItemsAreReading(c: Checks, block: seq<string>) returns (places: seq<nat>)
    requires ItemsOf(c, block).Some?
    ensures Reading(c, block, ItemsOf(c, block).value, places)
    decreases |block|
  {
    hide *;
    if block == [] {
      places := [];
      NothingRead(c);
    } else {
      var last := |block| - 1;
      ItemsEnd(c, block);
      places := ItemsAreReading(c, block[..last]);
      var item := if block[last] == "" then Item(Objective, "") else ItemOf(c, block[last]).value;
      ReadingMore(c, block, ItemsOf(c, block[..last]).value, places, item);
      if block[last] != "" {
        ItemExactlyWhen(c, block[last], item);
        places := places + [last];
      }
    }
  }

  lemma NoLinesNoItems(c: Checks, block: seq<string>, items: seq<Item>, places: seq<nat>)
    requires Reading(c, block, items, places)
    ensures block == [] ==> items == []
  {
    hide LineReads;
    assert places == [] || places[0] in places;
  }

  /** The last line is empty, or it is the last of the places. */
  lemma ReadingEnds(c: Checks, block: seq<string>, items: seq<Item>, places: seq<nat>)
    requires Reading(c, block, items, places) && block != []
    ensures
      var last, n := |block| - 1, |items| - 1;
      if block[last] == "" then Reading(c, block[..last], items, places)
      else |places| == n + 1 > 0 && LineReads(c, block[last], items[n])
           && Reading(c, block[..last], items[..n], places[..n])
  {
    hide LineReads;
    var last := |block| - 1;
    if block[last] == "" {
      assert last !in places;
    } else {
      var n := |places| - 1;
      var j :| 0 <= j < |places| && places[j] == last;
      assert places[j] <= places[n];
      FrontPlaces(block, places, n);
    }
  }

  lemma FrontPlaces(block: seq<string>, places: seq<nat>, n: nat)
    requires block != [] && |places| == n + 1 && places[n] == |block| - 1
    requires forall k :: 0 <= k < |block| && block[k] != "" ==> k in places
    ensures forall k :: 0 <= k < |block| - 1 && block[k] != "" ==> k in places[..n]
  {
    forall k | 0 <= k < |block| - 1 && block[k] != ""
      ensures k in places[..n]
    {
      assert places == places[..n] + [places[n]];
    }
  }

  lemma LastItem(c: Checks, block: seq<string>, front: seq<Item>, item: Item)
    requires block != [] && block[|block| - 1] != "" && LineReads(c, block[|block| - 1], item)
    requires ItemsOf(c, block[..|block| - 1]) == Some(front)
    ensures ItemsOf(c, block) == Some(front + [item])
  {
    hide *;
    var last := |block| - 1;
    assert block[..last + 1] == block;
    ItemExactlyWhen(c, block[last], item);
    NextItem(c, block, last, item);
  }

  lemma LastEmpty(c: Checks, block: seq<string>)
    requires block != [] && block[|block| - 1] == ""
    ensures ItemsOf(c, block) == ItemsOf(c, block[..|block| - 1])
  {
    hide *;
    assert block[..|block| - 1 + 1] == block;
    EmptyLine(c, block, |block| - 1);
  }

  lemma {:induction false} ReadingGivesItems(c: Checks, block: seq<string>, items: seq<Item>, places: seq<nat>)
    requires Reading(c, block, items, places)
    ensures ItemsOf(c, block) == Some(items)
    decreases |block|
  {
    hide *;
    if block == [] {
      NoLinesNoItems(c, block, items, places);
      NothingRead(c);
    } else {
      var before := block[..|block| - 1];
      ReadingEnds(c, block, items, places);
      if block[|block| - 1] == "" {
        ReadingGivesItems(c, before, items, places);
        LastEmpty(c, block);
      } else {
        var front, item := items[..|items| - 1], items[|items| - 1];
        ReadingGivesItems(c, before, front, places[..|items| - 1]);
        LastItem(c, block, front, item);
        assert items == front + [item];
      }
    }
  }

  /** A block has these items exactly when every line that is not empty reads as the next of them. */
  lemma ItemsExactlyWhen(c: Checks, block: seq<string>, items: seq<Item>)
    ensures ItemsOf(c, block) == Some(items) <==> exists places :: Reading(c, block, items, places)
  {
    hide ItemsOf, Reading;
    if ItemsOf(c, block) == Some(items) {
      var places := ItemsAreReading(c, block);
    }
    if places :| Reading(c, block, items, places) {
      ReadingGivesItems(c, block, items, places);
    }
  }

  // ---------- the labels ----------

  /** The values of these places, in order, are all values of the items with this label. */
  ghost predicate Collected(items: seq<Item>, l: Label, values: seq<string>, places: seq<nat>) {
    && |places| == |values|
    && (forall i, j :: 0 <= i < j < |places| ==> places[i] < places[j])
    && (forall i :: 0 <= i < |places| ==> places[i] < |items| && items[places[i]] == Item(l, values[i]))
    && (forall k :: 0 <= k < |items| && items[k].kind == l ==> k in places)
  }

  lemma CollectedMore(items: seq<Item>, l: Label, values: seq<string>, places: seq<nat>)
    requires items != [] && Collected(items[..|items| - 1], l, values, places)
    ensures
      var last := items[|items| - 1];
      if last.kind == l then Collected(items, l, values + [last.value], places + [|items| - 1])
      else Collected(items, l, values, places)
  {
    var last := |items| - 1;
    forall k | 0 <= k < last && items[k].kind == l
      ensures k in places
    {
      assert items[..last][k].kind == l;
    }
    assert (places + [last])[|places|] == last;
  }

  lemma {:induction false} ValuesCollected(items: seq<Item>, l: Label) returns (places: seq<nat>)
    ensures Collected(items, l, Values(items, l), places)
    decreases |items|
  {
    hide Collected;
    if items == [] {
      places := [];
      NothingCollected(l);
    } else {
      var last := |items| - 1;
      places := ValuesCollected(items[..last], l);
      CollectedMore(items, l, Values(items[..last], l), places);
      if items[last].kind == l {
        places := places + [last];
      }
    }
  }

  lemma NothingCollected(l: Label)
    ensures Collected([], l, [], [])
  {
  }

  /** The kept values have no repetition, and come in the order in which they were first given. */
  ghost predicate Firsts(values: seq<string>, kept: seq<string>) {
    && (forall v :: v in kept <==> v in values)
    && (forall i, j :: 0 <= i < j < |kept| ==> Earlier(values, kept[i], kept[j]))
  }

  ghost predicate Earlier(values: seq<string>, first: string, second: string) {
    first != second && exists p :: 0 <= p < |values| && values[p] == first && second !in values[..p]
  }

  lemma {:induction false} DistinctKeepsFirsts(values: seq<string>)
    ensures Firsts(values, Distinct(values))
    decreases |values|
  {
    if values != [] {
      var last := |values| - 1;
      var front := values[..last];
      DistinctKeepsFirsts(front);
      var kept := Distinct(values);
      forall i, j | 0 <= i < j < |kept|
        ensures Earlier(values, kept[i], kept[j])
      {
        if j < |Distinct(front)| {
          assert Earlier(front, kept[i], kept[j]);
          var p :| 0 <= p < |front| && front[p] == kept[i] && kept[j] !in front[..p];
          assert values[p] == kept[i] && values[..p] == front[..p];
        } else {
          assert kept[j] == values[last] && kept[j] !in front && kept[i] in front;
          var p :| 0 <= p < |front| && front[p] == kept[i];
          assert values[p] == kept[i] && values[..p] == front[..p];
          assert forall q :: 0 <= q < p ==> front[..p][q] == front[q];
        }
      }
    }
  }

  /** The items make these labels: every label lists the values given for it, in order, and resolved
      issues are listed once each. */
  ghost predicate Makes(items: seq<Item>, labels: Labels) {
    && (forall l :: l in labels <==> l in LABELS)
    && forall l :: l in labels ==> exists values, places ::
         Collected(items, l, values, places)
         && if l == ResolvedIssue then Firsts(values, labels[l]) else labels[l] == values
  }

  lemma LabelsMade(items: seq<Item>)
    ensures Makes(items, LabelsOf(items))
  {
    hide Values, Distinct, Collected, Firsts;
    forall l | l in LABELS
      ensures exists values, places ::
        Collected(items, l, values, places)
        && if l == ResolvedIssue then Firsts(values, LabelsOf(items)[l]) else LabelsOf(items)[l] == values
    {
      var places := ValuesCollected(items, l);
      DistinctKeepsFirsts(Values(items, l));
      LabelValues(items, l);
    }
  }

  // ---------- what the labels must satisfy ----------

  /** The size of a list of values grows by the size of each. */
  lemma SizesAdd(c: Checks, values: seq<string>, value: string)
    ensures SumSizes(c, values + [value])
         == SumSizes(c, values) + (match c.text.utf8Size(value) case Some(n) => n case None => 0)
    ensures SumSizes(c, []) == 0
  {
    assert (values + [value])[..|values|] == values;
  }

  /** The lines of a block, one line feed between two of them. */
  lemma {:induction false} JoinGrows(lines: seq<string>, line: string)
    ensures JoinLines([line]) == line
    ensures lines != [] ==> JoinLines(lines + [line]) == JoinLines(lines) + "\n" + line
  {
    if |lines| > 0 {
      assert (lines + [line])[1..] == lines[1..] + [line];
      JoinGrows(lines[1..], line);
    }
  }

  lemma TotalStep(c: Checks, labels: Labels, k: nat)
    requires k < |LABELS| && forall l :: l in LABELS ==> l in labels
    ensures TotalSize(c, labels, 0) == 0
    ensures TotalSize(c, labels, k + 1) == TotalSize(c, labels, k) + SumSizes(c, labels[LABELS[k]])
  {
  }

  /** All eleven labels count. */
  lemma TotalIsOfAll(c: Checks, labels: Labels)
    requires forall l :: l in LABELS ==> l in labels
    requires forall l: Label :: l in labels
    ensures TotalSize(c, labels, |LABELS|)
         == SumSizes(c, labels[Objective]) + SumSizes(c, labels[Outcome]) + SumSizes(c, labels[Verified])
          + SumSizes(c, labels[Failed]) + SumSizes(c, labels[Decision]) + SumSizes(c, labels[Changed])
          + SumSizes(c, labels[Preference]) + SumSizes(c, labels[Risk]) + SumSizes(c, labels[OpenIssue])
          + SumSizes(c, labels[ResolvedIssue]) + SumSizes(c, labels[Lesson])
  {
    hide SumSizes, TotalSize;
    TotalStep(c, labels, 0);
    TotalStep(c, labels, 1);
    TotalStep(c, labels, 2);
    TotalStep(c, labels, 3);
    TotalStep(c, labels, 4);
    TotalStep(c, labels, 5);
    TotalStep(c, labels, 6);
    TotalStep(c, labels, 7);
    TotalStep(c, labels, 8);
    TotalStep(c, labels, 9);
    TotalStep(c, labels, 10);
  }

  /** One objective and one outcome, no issue both open and resolved, everything within the limits,
      and portable. */
  ghost predicate Fit(c: Checks, items: seq<Item>, labels: Labels)
    requires forall l: Label :: l in labels
  {
    && (exists v :: labels[Objective] == [v]) && (exists v :: labels[Outcome] == [v])
    && (forall v :: !(v in labels[OpenIssue] && v in labels[ResolvedIssue]))
    && (forall l :: l !in {Objective, Outcome} ==> |Values(items, l)| <= MAX_LIST_ITEMS)
    && TotalSize(c, labels, |LABELS|) <= MAX_CAPTURE_BYTES && c.portable(labels)
  }

  lemma EveryLabelListed()
    ensures forall l: Label :: l in LABELS
  {
    forall l: Label
      ensures l in LABELS
    {
      var at := LabelIsListed(l);
    }
  }

  /** A block is accepted exactly when it is short enough, every line that is not empty is an item, and
      the labels that the items make are fit; they are then its labels. */
  lemma BlockExactlyWhen(c: Checks, block: seq<string>, labels: Labels)
    ensures ParsedBlock(c, block) == Ok(labels) <==>
              && c.Within(JoinLines(block), BLOCK_MAX_BYTES)
              && (forall l: Label :: l in labels)
              && exists items :: BlockMakes(c, block, items, labels)
  {
    hide ItemsOf, Values, TotalSize, LabelsOf, Reading, Makes, ShortLists, Acceptable, JoinLines;
    EveryLabelListed();
    ParsedBlockIs(c, block);
    if ItemsOf(c, block).Some? {
      var items := ItemsOf(c, block).value;
      ItemsExactlyWhen(c, block, items);
      AcceptableIsFit(c, items);
      if ParsedBlock(c, block) == Ok(labels) {
        assert BlockMakes(c, block, items, labels);
      }
    }
    if items :| (forall l: Label :: l in labels) && BlockMakes(c, block, items, labels) {
      ItemsExactlyWhen(c, block, items);
      AcceptableIsFit(c, items);
    }
  }

  ghost predicate BlockMakes(c: Checks, block: seq<string>, items: seq<Item>, labels: Labels)
    requires forall l: Label :: l in labels
  {
    && (exists places :: Reading(c, block, items, places)) && labels == LabelsOf(items) && Fit(c, items, labels)
  }

  lemma AcceptableIsFit(c: Checks, items: seq<Item>)
    ensures forall l: Label :: l in LABELS && l in LabelsOf(items)
    ensures ShortLists(items) && Acceptable(c, LabelsOf(items)) <==> Fit(c, items, LabelsOf(items))
  {
    EveryLabelListed();
    var labels := LabelsOf(items);
    hide Values, Distinct, TotalSize, LabelsOf;
    assert forall l: Label :: l in labels by {
      AllLabelsPresent(items);
    }
    assert |labels[Objective]| == 1 ==> labels[Objective] == [labels[Objective][0]];
    assert |labels[Outcome]| == 1 ==> labels[Outcome] == [labels[Outcome][0]];
  }

  // ---------- where the block stands ----------

  /** The prose closes its fences and leaves no start marker open; no marker stands in the block or
      after it. */
  ghost predicate Framed(space: Spaces, prose: seq<string>, block: seq<string>, suffix: seq<string>) {
    && ClosedProse(space, prose)
    && Scan(space, Closed, |prose| + 1, block) == Scanned(Closed, [])
    && Scan(space, Closed, |prose| + |block| + 2, suffix).markers == []
  }

  ghost predicate Message(space: Spaces, text: Text, lines: seq<string>, prose: seq<string>, block: seq<string>,
                          suffix: seq<string>) {
    && lines == prose + [CAPTURE_START] + block + [CAPTURE_END] + suffix
    && Framed(space, prose, block, suffix) && Suffix(text, suffix)
  }

  lemma FramedDecides(c: Checks, prose: seq<string>, block: seq<string>, suffix: seq<string>)
    requires Framed(c.space, prose, block, suffix)
    ensures Selected(Scan(c.space, Closed, 0, prose + [CAPTURE_START] + block + [CAPTURE_END] + suffix).markers)
         == Block(|prose|, |prose| + |block| + 1)
  {
    hide Scan, Selected;
    ClosedProseIs(c.space, prose);
    MarkersDiffer();
    MarkerAlone(c.space, |prose|, CAPTURE_START);
    MarkerAlone(c.space, |prose| + |block| + 1, CAPTURE_END);
    BlockDecides(c.space, prose, Scan(c.space, Closed, 0, prose).markers, CAPTURE_START, block, CAPTURE_END, suffix);
  }

  /** The lines around one line. */
  lemma SplitAt(space: Spaces, lines: seq<string>, base: nat, k: nat)
    requires k < |lines|
    ensures
      var first := Scan(space, Closed, base, lines[..k]);
      var middle := Scan(space, first.fence, base + k, [lines[k]]);
      var last := Scan(space, middle.fence, base + k + 1, lines[k + 1..]);
      Scan(space, Closed, base, lines) == Scanned(last.fence, first.markers + middle.markers + last.markers)
  {
    hide *;
    assert lines == lines[..k] + [lines[k]] + lines[k + 1..];
    ScanConcat(space, Closed, base, lines[..k] + [lines[k]], lines[k + 1..]);
    ScanConcat(space, Closed, base, lines[..k], [lines[k]]);
  }

  /** A line that is a marker stands outside fences. */
  lemma MarkedLine(space: Spaces, fence: Fence, base: nat, line: string, m: Marker)
    requires m in Scan(space, fence, base, [line]).markers
    ensures fence.Closed? && Scan(space, Closed, base, [line]) == Scanned(Closed, [m])
    ensures m == Marker(base, line == CAPTURE_START) && line in {CAPTURE_START, CAPTURE_END}
  {
    hide NextFence, CAPTURE_START, CAPTURE_END;
    assert [line][..0] == [];
    assert Scan(space, fence, base, []) == Scanned(fence, []);
  }

  /** A marker at line k is the scan of that line, where no fence is open. */
  lemma MarkerIsLine(space: Spaces, lines: seq<string>, m: Marker)
    requires m in Scan(space, Closed, 0, lines).markers
    ensures m.line < |lines| && lines[m.line] == if m.start then CAPTURE_START else CAPTURE_END
    ensures Scan(space, Closed, 0, lines[..m.line]).fence.Closed?
    ensures Scan(space, Closed, m.line, [lines[m.line]]) == Scanned(Closed, [m])
  {
    hide *;
    var k := m.line;
    MarkersOrdered(space, Closed, 0, lines);
    MarksLineIs(lines, m);
    SplitAt(space, lines, 0, k);
    var first := Scan(space, Closed, 0, lines[..k]);
    var middle := Scan(space, first.fence, k, [lines[k]]);
    MarkersBefore(space, lines[..k], m);
    MarkersFrom(space, middle.fence, k + 1, lines[k + 1..], m);
    assert m in middle.markers;
    MarkedLine(space, first.fence, k, lines[k], m);
  }

  lemma MarksLineIs(lines: seq<string>, m: Marker)
    ensures MarksLine(lines, 0, m) ==> m.line < |lines| && lines[m.line] == if m.start then CAPTURE_START else CAPTURE_END
  {
  }

  lemma MarkersBefore(space: Spaces, lines: seq<string>, m: Marker)
    requires m.line >= |lines|
    ensures m !in Scan(space, Closed, 0, lines).markers
  {
    MarkersOrdered(space, Closed, 0, lines);
    hide Scan;
    assert m in Scan(space, Closed, 0, lines).markers ==> MarksLine(lines, 0, m);
  }

  lemma MarkersFrom(space: Spaces, fence: Fence, base: nat, lines: seq<string>, m: Marker)
    requires m.line < base
    ensures m !in Scan(space, fence, base, lines).markers
  {
    MarkersOrdered(space, fence, base, lines);
    hide Scan;
    assert m in Scan(space, fence, base, lines).markers ==> MarksLine(lines, base, m);
  }

  /** What was selected stands framed. */
  lemma SelectedIsFramed(space: Spaces, lines: seq<string>, start: nat, end: nat)
    requires Selected(Scan(space, Closed, 0, lines).markers) == Block(start, end)
    ensures start < end < |lines| && lines[start] == CAPTURE_START && lines[end] == CAPTURE_END
    ensures lines == lines[..start] + [CAPTURE_START] + lines[start + 1..end] + [CAPTURE_END] + lines[end + 1..]
    ensures Framed(space, lines[..start], lines[start + 1..end], lines[end + 1..])
  {
    hide *;
    var markers := Scan(space, Closed, 0, lines).markers;
    MarkersOrdered(space, Closed, 0, lines);
    SelectedIs(markers, start, end);
    MarkerIsLine(space, lines, Marker(start, true));
    MarkerIsLine(space, lines, Marker(end, false));
    Pieces(lines, start, end);
    Cut(space, lines, start, end, markers);
  }

  lemma Pieces(lines: seq<string>, start: nat, end: nat)
    requires start < end < |lines|
    ensures lines == lines[..start] + [lines[start]] + lines[start + 1..end] + [lines[end]] + lines[end + 1..]
  {
  }

  lemma SelectedIs(markers: seq<Marker>, start: nat, end: nat)
    requires Selected(markers) == Block(start, end) && Increasing(markers)
    ensures |markers| >= 2 && Decides(markers) && start < end
    ensures markers[|markers| - 2] == Marker(start, true) && markers[|markers| - 1] == Marker(end, false)
    ensures Marker(start, true) in markers && Marker(end, false) in markers
  {
  }

  /** Cutting the scan at the two last markers: nothing is left for the block and for what follows. */
  lemma Cut(space: Spaces, lines: seq<string>, start: nat, end: nat, markers: seq<Marker>)
    requires start < end < |lines| && markers == Scan(space, Closed, 0, lines).markers && Decides(markers)
    requires markers[|markers| - 2] == Marker(start, true) && markers[|markers| - 1] == Marker(end, false)
    requires Increasing(markers)
    requires Scan(space, Closed, 0, lines[..start]).fence.Closed?
    requires Scan(space, Closed, start, [lines[start]]) == Scanned(Closed, [Marker(start, true)])
    requires Scan(space, Closed, 0, lines[..end]).fence.Closed?
    requires Scan(space, Closed, end, [lines[end]]) == Scanned(Closed, [Marker(end, false)])
    ensures Framed(space, lines[..start], lines[start + 1..end], lines[end + 1..])
  {
    hide Scan;
    var prose, block, suffix := lines[..start], lines[start + 1..end], lines[end + 1..];
    SplitAt(space, lines, 0, end);
    assert lines[..end][..start] == prose && lines[..end][start + 1..] == block && lines[..end][start] == lines[start];
    SplitAt(space, lines[..end], 0, start);
    var a := Scan(space, Closed, 0, prose).markers;
    var b := Scan(space, Closed, start + 1, block).markers;
    var c := Scan(space, Closed, end + 1, suffix).markers;
    assert Scan(space, Closed, start + 1, block).fence == Scan(space, Closed, 0, lines[..end]).fence;
    assert markers == a + [Marker(start, true)] + b + [Marker(end, false)] + c;
    LastTwo(a, b, c, markers, start, end);
  }

  lemma LastTwo(a: seq<Marker>, b: seq<Marker>, c: seq<Marker>, markers: seq<Marker>, start: nat, end: nat)
    requires markers == a + [Marker(start, true)] + b + [Marker(end, false)] + c && Increasing(markers) && Decides(markers)
    requires markers[|markers| - 2] == Marker(start, true) && markers[|markers| - 1] == Marker(end, false)
    ensures b == [] && c == [] && (a == [] || !a[|a| - 1].start)
  {
    assert markers[|a|] == Marker(start, true);
    assert markers[|a| + 1 + |b|] == Marker(end, false);
    assert |a| == |markers| - 2;
    assert a != [] ==> markers[|markers| - 3] == a[|a| - 1];
  }

  /** A message is parsed to these labels exactly when it is closed prose, the start line, a block of
      those labels, the end line and a valid suffix, with no marker in the block or after it. */
  lemma ParsedExactlyWhen(c: Checks, lines: seq<string>, labels: Labels)
    ensures Parsed(c, lines) == Ok(labels) <==>
              exists prose, block, suffix ::
                Message(c.space, c.text, lines, prose, block, suffix) && ParsedBlock(c, block) == Ok(labels)
  {
    hide Scan, Suffix, Selected, ParsedBlock, Framed;
    if Parsed(c, lines) == Ok(labels) {
      var block := Selected(Scan(c.space, Closed, 0, lines).markers);
      SelectedIsFramed(c.space, lines, block.start, block.end);
      assert Message(c.space, c.text, lines, lines[..block.start], lines[block.start + 1..block.end], lines[block.end + 1..]);
    }
    if prose, block, suffix :| Message(c.space, c.text, lines, prose, block, suffix) && ParsedBlock(c, block) == Ok(labels) {
      FramedDecides(c, prose, block, suffix);
      Slices(prose, CAPTURE_START, block, CAPTURE_END, suffix, lines);
      ParsedIs(c, lines, |prose|, |prose| + |block| + 1);
    }
  }

  /** A message without any visible start line is no capture at all; every other failure is an invalid one. */
  lemma MissingExactlyWhen(c: Checks, lines: seq<string>)
    ensures Parsed(c, lines) == Err(BlockMissing) <==>
              forall m :: m in Scan(c.space, Closed, 0, lines).markers ==> !m.start
    ensures forall e :: Parsed(c, lines) == Err(e) ==> e in {BlockMissing, BlockInvalid}
  {
    hide Scan, Suffix;
  }

  // ---------- what opens and closes a fence ----------

  /** The line is at most three spaces, a longest run of this many marks, and a rest. */
  predicate Runs(line: string, mark: char, indentation: nat, length: nat) {
    && indentation <= 3 && indentation + length <= |line|
    && (forall i :: 0 <= i < indentation ==> line[i] == ' ')
    && (forall i :: indentation <= i < indentation + length ==> line[i] == mark)
    && (indentation + length < |line| ==> line[indentation + length] != mark)
  }

  /** At least three backticks with no other backtick in the line, or at least three tildes. */
  predicate OpensFence(line: string, mark: char, indentation: nat, length: nat) {
    && mark in {'`', '~'} && length >= 3 && Runs(line, mark, indentation, length)
    && (mark == '`' ==> forall i :: indentation + length <= i < |line| ==> line[i] != '`')
  }

  /** At least as many of the same marks, and nothing but white space after them. */
  predicate ClosesFence(space: Spaces, line: string, mark: char, least: nat, indentation: nat, length: nat) {
    && length >= least && Runs(line, mark, indentation, length)
    && forall i :: indentation + length <= i < |line| ==> space(line[i])
  }

  /** The run of a line is the one the reader measures. */
  lemma RunsAre(line: string, mark: char, indentation: nat, length: nat)
    requires mark != ' ' && Runs(line, mark, indentation, length) && length > 0
    ensures LeadingRun(line, ' ') == indentation && LeadingRun(line[indentation..], mark) == length
  {
    LeadingRunIs(line, ' ', indentation);
    LeadingRunIs(line[indentation..], mark, length);
  }

  lemma MeasuredRuns(line: string, mark: char)
    ensures
      var indentation := LeadingRun(line, ' ');
      indentation <= 3 ==> Runs(line, mark, indentation, LeadingRun(line[indentation..], mark))
  {
    hide LeadingRun;
    var indentation := LeadingRun(line, ' ');
    var rest := line[indentation..];
    var length := LeadingRun(rest, mark);
    forall i | indentation <= i < indentation + length
      ensures line[i] == mark
    {
      assert rest[i - indentation] == mark;
    }
    if indentation + length < |line| {
      assert rest[length] == line[indentation + length];
    }
  }

  lemma RestHas(line: string, from: nat, c: char)
    requires from <= |line|
    ensures c in line[from..] <==> exists i :: from <= i < |line| && line[i] == c
  {
    if i :| from <= i < |line| && line[i] == c {
      assert line[from..][i - from] == c;
    }
  }

  lemma RestBlank(space: Spaces, line: string, from: nat)
    requires from <= |line|
    ensures Blank(space, line[from..]) <==> forall i :: from <= i < |line| ==> space(line[i])
  {
    var rest := line[from..];
    assert forall i :: from <= i < |line| ==> line[i] == rest[i - from];
  }

  lemma IsMark(c: char)
    ensures c in "`~" <==> c in {'`', '~'}
  {
    assert "`~"[0] == '`' && "`~"[1] == '~';
  }

  lemma OpensIs(value: string)
    ensures
      if value == [] || value[0] !in {'`', '~'} then Opens(value).None?
      else
        var length := LeadingRun(value, value[0]);
        Opens(value) == if length < 3 || (value[0] == '`' && '`' in value[length..]) then None
                        else Some(Open(value[0], length))
  {
    if value != [] {
      IsMark(value[0]);
    }
    hide LeadingRun;
  }

  lemma NextIs(space: Spaces, line: string)
    ensures
      var indentation := LeadingRun(line, ' ');
      var opening := Opens(line[indentation..]);
      NextFence(space, Closed, line) == if indentation <= 3 && opening.Some? then opening.value else Closed
  {
    hide LeadingRun, Opens;
  }

  /** What the reader compares, in places of the line itself. */
  lemma NextOutside(space: Spaces, line: string)
    ensures
      var indentation := LeadingRun(line, ' ');
      var next := NextFence(space, Closed, line);
      if indentation > 3 || indentation == |line| || line[indentation] !in {'`', '~'} then next == Closed
      else
        var length := LeadingRun(line[indentation..], line[indentation]);
        next == if length < 3 || (line[indentation] == '`' && '`' in line[indentation + length..]) then Closed
                else Open(line[indentation], length)
  {
    hide *;
    var indentation := LeadingRun(line, ' ');
    var stripped := line[indentation..];
    NextIs(space, line);
    OpensIs(stripped);
    if stripped != [] {
      var length := LeadingRun(stripped, stripped[0]);
      assert stripped[length..] == line[indentation + length..];
    }
  }

  lemma NextOpenIs(space: Spaces, line: string, fence: Fence)
    requires fence.Open?
    ensures
      var indentation := LeadingRun(line, ' ');
      NextFence(space, fence, line) ==
      if indentation <= 3 && Closes(space, line[indentation..], fence) then Closed else fence
  {
    hide LeadingRun, Closes, Opens;
  }

  lemma ClosesIs(space: Spaces, value: string, mark: char, least: nat)
    ensures
      var length := LeadingRun(value, mark);
      Closes(space, value, Open(mark, least)) <==> length >= least && Blank(space, value[length..])
  {
    hide LeadingRun, Blank;
  }

  lemma NextInside(space: Spaces, line: string, mark: char, least: nat)
    ensures
      var indentation := LeadingRun(line, ' ');
      var length := LeadingRun(line[indentation..], mark);
      NextFence(space, Open(mark, least), line) ==
      if indentation <= 3 && length >= least && Blank(space, line[indentation + length..]) then Closed else Open(mark, least)
  {
    hide *;
    var indentation := LeadingRun(line, ' ');
    var stripped := line[indentation..];
    var length := LeadingRun(stripped, mark);
    NextOpenIs(space, line, Open(mark, least));
    ClosesIs(space, stripped, mark, least);
    assert stripped[length..] == line[indentation + length..];
  }

  lemma RunsStart(line: string, mark: char, indentation: nat, length: nat)
    requires Runs(line, mark, indentation, length) && length > 0
    ensures indentation <= 3 && indentation + length <= |line| && line[indentation] == mark
  {
  }

  lemma IsOpening(line: string, mark: char, indentation: nat, length: nat)
    ensures OpensFence(line, mark, indentation, length) <==>
              && mark in {'`', '~'} && length >= 3 && Runs(line, mark, indentation, length)
              && (mark == '`' ==> indentation + length <= |line| && '`' !in line[indentation + length..])
  {
    hide Runs;
    if length >= 3 && Runs(line, mark, indentation, length) {
      RunsStart(line, mark, indentation, length);
      RestHas(line, indentation + length, '`');
    }
  }

  /** Outside a fence, a line opens this one exactly when it is such a line; any other line opens none. */
  lemma FenceOpens(space: Spaces, line: string, mark: char, length: nat)
    ensures NextFence(space, Closed, line) == Open(mark, length) <==>
              exists indentation :: OpensFence(line, mark, indentation, length)
  {
    hide *;
    var measured := LeadingRun(line, ' ');
    NextOutside(space, line);
    MeasuredRuns(line, mark);
    if NextFence(space, Closed, line) == Open(mark, length) {
      IsOpening(line, mark, measured, length);
    }
    if indentation :| OpensFence(line, mark, indentation, length) {
      IsOpening(line, mark, indentation, length);
      RunsStart(line, mark, indentation, length);
      RunsAre(line, mark, indentation, length);
    }
  }

  lemma IsClosing(space: Spaces, line: string, mark: char, least: nat, indentation: nat, length: nat)
    ensures ClosesFence(space, line, mark, least, indentation, length) <==>
              && length >= least && Runs(line, mark, indentation, length)
              && indentation + length <= |line| && Blank(space, line[indentation + length..])
  {
    if indentation + length <= |line| {
      RestBlank(space, line, indentation + length);
    }
    hide Blank;
  }

  /** Inside a fence, a line closes it exactly when it is such a line; any other leaves it as it is. */
  lemma FenceCloses(space: Spaces, line: string, mark: char, least: nat)
    requires mark in {'`', '~'} && least > 0
    ensures NextFence(space, Open(mark, least), line) == Closed <==>
              exists indentation, length :: ClosesFence(space, line, mark, least, indentation, length)
    ensures NextFence(space, Open(mark, least), line) in {Closed, Open(mark, least)}
  {
    hide *;
    var measured := LeadingRun(line, ' ');
    var run := LeadingRun(line[measured..], mark);
    NextInside(space, line, mark, least);
    MeasuredRuns(line, mark);
    if NextFence(space, Open(mark, least), line) == Closed {
      IsClosing(space, line, mark, least, measured, run);
    }
    if indentation, length :| ClosesFence(space, line, mark, least, indentation, length) {
      IsClosing(space, line, mark, least, indentation, length);
      RunsStart(line, mark, indentation, length);
      RunsAre(line, mark, indentation, length);
    }
  }

  /** A marker counts exactly where no fence is open and the line is one of the two marker lines. */
  lemma VisibleExactlyWhen(space: Spaces, fence: Fence, line: string)
    ensures Visible(space, fence, line) <==> fence.Closed? && line in {CAPTURE_START, CAPTURE_END}
  {
    if line in {CAPTURE_START, CAPTURE_END} {
      assert line[0] == '<';
      LeadingRunIs(line, ' ', 0);
      assert line[0..] == line;
    }
  }
}
