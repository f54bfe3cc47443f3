/** The labelled lines of a capture block, and the parse of a whole message. */
module CaptureBlock {
  import opened Words
  import opened Wrappers
  import opened CaptureMarkers
  import opened CitationSuffix

  const BLOCK_MAX_BYTES: nat := 131_072
  const VALUE_MAX_CHARS: nat := 8_192
  const VALUE_MAX_BYTES: nat := 32_768
  const MAX_FIELD_BYTES: nat := 32 * 1024
  const MAX_LIST_ITEMS: nat := 100
  const MAX_CAPTURE_BYTES: nat := 192 * 1024

  datatype Label =
    | Objective | Outcome | Verified | Failed | Decision | Changed
    | Preference | Risk | OpenIssue | ResolvedIssue | Lesson

  const LABELS := [Objective, Outcome, Verified, Failed, Decision, Changed,
                   Preference, Risk, OpenIssue, ResolvedIssue, Lesson]

  function Heading(l: Label): string {
    match l
    case Objective => "Objective: "
    case Outcome => "Outcome: "
    case Verified => "Verified: "
    case Failed => "Failed: "
    case Decision => "Decision: "
    case Changed => "Changed: "
    case Preference => "Preference: "
    case Risk => "Risk: "
    case OpenIssue => "Open issue: "
    case ResolvedIssue => "Resolved issue: "
    case Lesson => "Lesson: "
  }

  type Labels = map<Label, seq<string>>

  /** White space, sizes, the redactor and the portability check. */
  datatype Checks = Checks(
    space: Spaces, text: Text, redact: string -> string, portable: Labels -> bool) {

    function Normalize(l: Label, value: string): string {
      if l.Changed? then Collapse(space, value)
      else Collapse(space, redact(Collapse(space, value)))
    }

    predicate Within(value: string, bound: nat) {
      text.utf8Size(value).Some? && text.utf8Size(value).value <= bound
    }

    /** The redactor accepts its own output. */
    ghost predicate Valid() {
      space(' ') && forall s :: Normalize(Objective, Normalize(Objective, s)) == Normalize(Objective, s)
    }
  }

  datatype Item = Item(kind: Label, value: string)

  datatype BlockError = BlockMissing | BlockInvalid

  // ---------- one line ----------

  function MatchFrom(line: string, k: nat): Option<Item>
    requires k <= |LABELS|
    decreases |LABELS| - k
  {
    if k == |LABELS| then None
    else if Heading(LABELS[k]) < line then Some(Item(LABELS[k], line[|Heading(LABELS[k])|..]))
    else MatchFrom(line, k + 1)
  }

  function ItemOf(c: Checks, line: string): Option<Item> {
    var matched := MatchFrom(line, 0);
    if matched.None? then None
    else
      var content := Strip(c.space, matched.value.value);
      if content == "" || |content| > VALUE_MAX_CHARS || !c.Within(content, VALUE_MAX_BYTES) then None
      else
        var normalized := c.Normalize(matched.value.kind, content);
        if normalized == "" || !c.Within(normalized, MAX_FIELD_BYTES) then None
        else Some(Item(matched.value.kind, normalized))
  }

  function Render(item: Item): string {
    Heading(item.kind) + item.value
  }

  /** No heading begins with the same two letters as another. */
  lemma HeadingsApart(l: Label, m: Label)
    ensures |Heading(l)| >= 2 && 'A' <= Heading(l)[0] <= 'Z'
    ensures l != m ==> |Heading(m)| >= 2 && (Heading(l)[0] != Heading(m)[0] || Heading(l)[1] != Heading(m)[1])
  {
  }

  /** So a rendered line can be read one way only. */
  lemma {:induction false} MatchRendered(item: Item, k: nat, at: nat)
    requires k <= at < |LABELS| && LABELS[at] == item.kind && item.value != ""
    ensures MatchFrom(Render(item), k) == Some(item)
    decreases at - k
  {
    hide Heading;
    HeadingsApart(item.kind, LABELS[k]);
    if k == at {
      assert Heading(item.kind) < Render(item);
    } else {
      assert LABELS[k] != item.kind;
      MatchRendered(item, k + 1, at);
    }
  }

  lemma LabelIsListed(l: Label) returns (at: nat)
    ensures at < |LABELS| && LABELS[at] == l
  {
    at := match l
      case Objective => 0 case Outcome => 1 case Verified => 2 case Failed => 3 case Decision => 4
      case Changed => 5 case Preference => 6 case Risk => 7 case OpenIssue => 8
      case ResolvedIssue => 9 case Lesson => 10;
  }

  /** A value that needs no normalising and fits on its line. */
  ghost predicate NormalItem(c: Checks, item: Item) {
    && Trim(c.space, item.value)
    && |item.value| <= VALUE_MAX_CHARS && c.Within(item.value, VALUE_MAX_BYTES)
    && c.Within(item.value, MAX_FIELD_BYTES)
    && c.Normalize(item.kind, item.value) == item.value
  }

  lemma ItemRoundTrip(c: Checks, item: Item)
    requires NormalItem(c, item)
    ensures ItemOf(c, Render(item)) == Some(item)
  {
    var at := LabelIsListed(item.kind);
    MatchRendered(item, 0, at);
    StripTrim(c.space, item.value);
  }

  // ---------- the lines of a block ----------

  /** The items of all lines that are not empty, or None when one of them is none. */
  function ItemsOf(c: Checks, lines: seq<string>): Option<seq<Item>>
    decreases |lines|
  {
    if lines == [] then Some([])
    else
      var last := lines[|lines| - 1];
      var before := ItemsOf(c, lines[..|lines| - 1]);
      if before.None? || last == "" then before
      else
        var item := ItemOf(c, last);
        if item.None? then None else Some(before.value + [item.value])
  }

  function Values(items: seq<Item>, l: Label): (values: seq<string>)
    decreases |items|
  {
    if items == [] then []
    else
      var last := items[|items| - 1];
      var before := Values(items[..|items| - 1], l);
      if last.kind == l then before + [last.value] else before
  }

  /** The first occurrence of each value, in order. */
  function Distinct(values: seq<string>): (d: seq<string>)
    ensures forall v :: v in d <==> v in values
    ensures forall i, j :: 0 <= i < j < |d| ==> d[i] != d[j]
    decreases |values|
  {
    if values == [] then []
    else
      var last := values[|values| - 1];
      var before := Distinct(values[..|values| - 1]);
      if last in before then before else before + [last]
  }

  function LabelsOf(items: seq<Item>): Labels {
    map l | l in LABELS :: if l == ResolvedIssue then Distinct(Values(items, l)) else Values(items, l)
  }

  function SumSizes(c: Checks, values: seq<string>): nat
    decreases |values|
  {
    if values == [] then 0
    else
      var size := c.text.utf8Size(values[|values| - 1]);
      SumSizes(c, values[..|values| - 1]) + (if size.Some? then size.value else 0)
  }

  function TotalSize(c: Checks, labels: Labels, upTo: nat): nat
    requires upTo <= |LABELS| && forall l :: l in LABELS ==> l in labels
  {
    if upTo == 0 then 0
    else TotalSize(c, labels, upTo - 1) + SumSizes(c, labels[LABELS[upTo - 1]])
  }

  predicate ShortLists(items: seq<Item>) {
    forall l :: l in LABELS && l != Objective && l != Outcome ==> |Values(items, l)| <= MAX_LIST_ITEMS
  }

  /** What the whole set of labels must satisfy. */
  predicate Acceptable(c: Checks, labels: Labels)
    requires forall l :: l in LABELS ==> l in labels
  {
    && (forall v :: v in labels[OpenIssue] ==> v !in labels[ResolvedIssue])
    && |labels[Objective]| == 1 && |labels[Outcome]| == 1
    && TotalSize(c, labels, |LABELS|) <= MAX_CAPTURE_BYTES
    && c.portable(labels)
  }

  lemma AllLabelsPresent(items: seq<Item>)
    ensures forall l :: l in LABELS ==> l in LabelsOf(items)
    ensures Objective in LABELS && Outcome in LABELS && OpenIssue in LABELS && ResolvedIssue in LABELS
  {
    var a := LABELS[0];
    var b := LABELS[1];
    var d := LABELS[8];
    var e := LABELS[9];
  }

  function JoinLines(lines: seq<string>): string {
    if lines == [] then ""
    else if |lines| == 1 then lines[0]
    else lines[0] + "\n" + JoinLines(lines[1..])
  }

  function ParsedBlock(c: Checks, block: seq<string>): (r: Result<Labels, BlockError>)
    ensures r.Ok? ==> forall l :: l in LABELS ==> l in r.value
  {
    var items := ItemsOf(c, block);
    if !c.Within(JoinLines(block), BLOCK_MAX_BYTES) || items.None? || !ShortLists(items.value) then Err(BlockInvalid)
    else
      AllLabelsPresent(items.value);
      var labels := LabelsOf(items.value);
      if Acceptable(c, labels) then Ok(labels) else Err(BlockInvalid)
  }

  /** What a message says: the pair of visible markers that decides, the citation grammar of what
      follows, and the labels of the lines between. */
  ghost function Parsed(c: Checks, lines: seq<string>): Result<Labels, BlockError> {
    match Selected(Scan(c.space, Closed, 0, lines).markers)
    case Missing => Err(BlockMissing)
    case Invalid => Err(BlockInvalid)
    case Block(start, end) =>
      if start < end < |lines| && Suffix(c.text, lines[end + 1..])
      then ParsedBlock(c, lines[start + 1..end])
      else Err(BlockInvalid)
  }

  // ---------- the parser's loops ----------

  function Raw(items: seq<Item>): Labels {
    map l | l in LABELS :: Values(items, l)
  }

  lemma RawGrows(items: seq<Item>, item: Item)
    requires item.kind in LABELS
    ensures Raw(items + [item]) == Raw(items)[item.kind := Values(items, item.kind) + [item.value]]
  {
    assert (items + [item])[..|items|] == items;
  }

  lemma {:induction false} ValuesConcat(a: seq<Item>, b: seq<Item>, l: Label)
    ensures Values(a + b, l) == Values(a, l) + Values(b, l)
    decreases |b|
  {
    if b == [] {
      assert a + b == a;
    } else {
      assert (a + b)[..|a + b| - 1] == a + b[..|b| - 1];
      ValuesConcat(a, b[..|b| - 1], l);
    }
  }

  /** A line that fails, fails every longer block; so does a list that is too long. */
  lemma {:induction false} ItemsExtend(c: Checks, lines: seq<string>, n: nat)
    requires n <= |lines|
    ensures ItemsOf(c, lines).Some? ==>
              ItemsOf(c, lines[..n]).Some? && ItemsOf(c, lines[..n]).value <= ItemsOf(c, lines).value
    decreases |lines|
  {
    hide ItemOf;
    if n == |lines| {
      assert lines[..n] == lines;
    } else {
      assert lines[..|lines| - 1][..n] == lines[..n];
      ItemsExtend(c, lines[..|lines| - 1], n);
    }
  }

  lemma PrefixTooLong(items: seq<Item>, all: seq<Item>, l: Label)
    requires items <= all && l in LABELS && l != Objective && l != Outcome
    requires |Values(items, l)| >= MAX_LIST_ITEMS && |items| < |all| && all[|items|].kind == l
    ensures !ShortLists(all)
  {
    var item := all[|items|];
    assert all == items + [item] + all[|items| + 1..];
    ValuesConcat(items + [item], all[|items| + 1..], l);
    ValuesConcat(items, [item], l);
    assert Values([item], l) == [item.value] by {
      assert [item][..0] == [];
    }
  }

  /** One line of the loop, when it is an item. */
  lemma NextItem(c: Checks, block: seq<string>, k: nat, item: Item)
    requires k < |block| && ItemsOf(c, block[..k]).Some? && block[k] != "" && ItemOf(c, block[k]) == Some(item)
    ensures ItemsOf(c, block[..k + 1]) == Some(ItemsOf(c, block[..k]).value + [item])
  {
    hide ItemOf;
    assert block[..k + 1][..k] == block[..k];
  }

  lemma EmptyLine(c: Checks, block: seq<string>, k: nat)
    requires k < |block| && block[k] == ""
    ensures ItemsOf(c, block[..k + 1]) == ItemsOf(c, block[..k])
  {
    hide ItemOf;
    assert block[..k + 1][..k] == block[..k];
  }

  lemma BadLine(c: Checks, block: seq<string>, k: nat)
    requires k < |block| && block[k] != "" && ItemOf(c, block[k]).None?
    ensures ItemsOf(c, block).None?
  {
    hide ItemOf;
    assert block[..k + 1][k] == block[k];
    assert ItemsOf(c, block[..k + 1]).None?;
    ItemsExtend(c, block, k + 1);
  }

  lemma TooMany(c: Checks, block: seq<string>, k: nat, item: Item)
    requires k < |block| && ItemsOf(c, block[..k]).Some? && block[k] != "" && ItemOf(c, block[k]) == Some(item)
    requires item.kind != Objective && item.kind != Outcome
    requires |Values(ItemsOf(c, block[..k]).value, item.kind)| >= MAX_LIST_ITEMS
    ensures ItemsOf(c, block).None? || !ShortLists(ItemsOf(c, block).value)
  {
    hide ItemOf, Values;
    if ItemsOf(c, block).Some? {
      NextItem(c, block, k, item);
      ItemsExtend(c, block, k + 1);
      var at := LabelIsListed(item.kind);
      PrefixTooLong(ItemsOf(c, block[..k]).value, ItemsOf(c, block).value, item.kind);
    }
  }

  /** The definition, for a block whose items are known or missing. */
  lemma ParsedBlockIs(c: Checks, block: seq<string>)
    ensures (!c.Within(JoinLines(block), BLOCK_MAX_BYTES) || ItemsOf(c, block).None?
             || !ShortLists(ItemsOf(c, block).value)) ==> ParsedBlock(c, block) == Err(BlockInvalid)
    ensures c.Within(JoinLines(block), BLOCK_MAX_BYTES) && ItemsOf(c, block).Some?
            && ShortLists(ItemsOf(c, block).value) ==>
              && (forall l :: l in LABELS ==> l in LabelsOf(ItemsOf(c, block).value))
              && ParsedBlock(c, block) ==
                 if Acceptable(c, LabelsOf(ItemsOf(c, block).value)) then Ok(LabelsOf(ItemsOf(c, block).value))
                 else Err(BlockInvalid)
  {
    if ItemsOf(c, block).Some? {
      AllLabelsPresent(ItemsOf(c, block).value);
    }
  }

  lemma RawHas(items: seq<Item>, l: Label)
    requires l in LABELS
    ensures l in Raw(items) && Raw(items)[l] == Values(items, l)
  {
  }

  lemma LabelsFromRaw(items: seq<Item>)
    requires ResolvedIssue in LABELS && ResolvedIssue in Raw(items)
    ensures LabelsOf(items) == Raw(items)[ResolvedIssue := Distinct(Raw(items)[ResolvedIssue])]
  {
  }

  lemma ShortListsGrow(items: seq<Item>, item: Item)
    requires ShortLists(items)
    requires item.kind != Objective && item.kind != Outcome ==> |Values(items, item.kind)| < MAX_LIST_ITEMS
    ensures ShortLists(items + [item])
  {
    assert (items + [item])[..|items|] == items;
  }

  lemma KindIsListed(items: seq<Item>, l: Label)
    ensures l in LABELS && l in Raw(items) && Raw(items)[l] == Values(items, l)
  {
    hide *;
    var at := LabelIsListed(l);
    RawHas(items, l);
  }

  /** One more item of the block keeps what the loop knows. */
  lemma TakeItem(c: Checks, block: seq<string>, k: nat, items: seq<Item>, item: Item)
    requires k < |block| && ItemsOf(c, block[..k]) == Some(items) && block[k] != "" && ItemOf(c, block[k]) == Some(item)
    requires ShortLists(items) && item.kind in LABELS
    requires item.kind !in {Objective, Outcome} ==> |Values(items, item.kind)| < MAX_LIST_ITEMS
    ensures ItemsOf(c, block[..k + 1]) == Some(items + [item]) && ShortLists(items + [item])
    ensures Raw(items + [item]) == Raw(items)[item.kind := Values(items, item.kind) + [item.value]]
  {
    hide *;
    NextItem(c, block, k, item);
    RawGrows(items, item);
    ShortListsGrow(items, item);
  }

  /** After the last line, distinct resolved issues make the labels of the block. */
  lemma LastItem(c: Checks, block: seq<string>, items: seq<Item>)
    requires ItemsOf(c, block[..|block|]) == Some(items)
    ensures ItemsOf(c, block) == Some(items) && ResolvedIssue in Raw(items)
    ensures LabelsOf(items) == Raw(items)[ResolvedIssue := Distinct(Raw(items)[ResolvedIssue])]
    ensures forall l :: l in LABELS ==> l in LabelsOf(items)
  {
    hide *;
    assert block[..|block|] == block;
    KindIsListed(items, ResolvedIssue);
    AllLabelsPresent(items);
    LabelsFromRaw(items);
  }

  function Empty(): (labels: Labels)
    ensures labels == Raw([])
  {
    map l | l in LABELS :: []
  }

  method ParseLine(c: Checks, line: string) returns (item: Option<Item>)
    ensures item == ItemOf(c, line)
  {
    var k := 0;
    while k < |LABELS| && !(Heading(LABELS[k]) < line)
      invariant k <= |LABELS| && MatchFrom(line, 0) == MatchFrom(line, k)
    {
      k := k + 1;
    }
    if k == |LABELS| {
      return None;
    }
    var content := Strip(c.space, line[|Heading(LABELS[k])|..]);
    if content == "" || |content| > VALUE_MAX_CHARS || !c.Within(content, VALUE_MAX_BYTES) {
      return None;
    }
    var normalized := c.Normalize(LABELS[k], content);
    if normalized == "" || !c.Within(normalized, MAX_FIELD_BYTES) {
      return None;
    }
    item := Some(Item(LABELS[k], normalized));
  }

  method CheckLabels(c: Checks, labels: Labels) returns (acceptable: bool)
    requires forall l :: l in LABELS ==> l in labels
    ensures acceptable == Acceptable(c, labels)
  {
    var o, u, i, r := LABELS[8], LABELS[9], LABELS[0], LABELS[1];
    if exists v :: v in labels[OpenIssue] && v in labels[ResolvedIssue] {
      return false;
    }
    if |labels[Objective]| != 1 || |labels[Outcome]| != 1 {
      return false;
    }
    var total := 0;
    for k := 0 to |LABELS|
      invariant total == TotalSize(c, labels, k)
    {
      var values := labels[LABELS[k]];
      var sum := 0;
      for n := 0 to |values|
        invariant sum == SumSizes(c, values[..n])
      {
        assert values[..n + 1][..n] == values[..n];
        var size := c.text.utf8Size(values[n]);
        sum := sum + (if size.Some? then size.value else 0);
      }
      assert values[..|values|] == values;
      total := total + sum;
    }
    acceptable := total <= MAX_CAPTURE_BYTES && c.portable(labels);
  }

  method ParseBlock(c: Checks, block: seq<string>) returns (r: Result<Labels, BlockError>)
    ensures r == ParsedBlock(c, block)
  {
    assert block[..0] == [] && ItemsOf(c, []) == Some([]) && ShortLists([]);
    hide *;
    ParsedBlockIs(c, block);
    if !c.Within(JoinLines(block), BLOCK_MAX_BYTES) {
      return Err(BlockInvalid);
    }
    var parsed := Empty();
    ghost var items: seq<Item> := [];
    for k := 0 to |block|
      invariant ItemsOf(c, block[..k]) == Some(items) && parsed == Raw(items) && ShortLists(items)
    {
      if block[k] == "" {
        EmptyLine(c, block, k);
        continue;
      }
      var item := ParseLine(c, block[k]);
      if item.None? {
        BadLine(c, block, k);
        return Err(BlockInvalid);
      }
      KindIsListed(items, item.value.kind);
      if item.value.kind !in {Objective, Outcome} && |parsed[item.value.kind]| >= MAX_LIST_ITEMS {
        TooMany(c, block, k, item.value);
        return Err(BlockInvalid);
      }
      TakeItem(c, block, k, items, item.value);
      parsed := parsed[item.value.kind := parsed[item.value.kind] + [item.value.value]];
      items := items + [item.value];
    }
    LastItem(c, block, items);
    parsed := parsed[ResolvedIssue := Distinct(parsed[ResolvedIssue])];
    var acceptable := CheckLabels(c, parsed);
    r := if acceptable then Ok(parsed) else Err(BlockInvalid);
  }

  method ParseLabels(c: Checks, lines: seq<string>) returns (r: Result<Labels, BlockError>)
    ensures r == Parsed(c, lines)
  {
    hide ParsedBlock, Scan, Suffix;
    var markers := FindMarkers(c.space, lines);
    MarkersOrdered(c.space, Closed, 0, lines);
    var selection := SelectBlock(markers);
    match selection {
      case Missing =>
        r := Err(BlockMissing);
      case Invalid =>
        r := Err(BlockInvalid);
      case Block(start, end) =>
        assert MarksLine(lines, 0, markers[|markers| - 1]);
        var valid := ValidSuffix(c.text, lines[end + 1..]);
        if !valid {
          return Err(BlockInvalid);
        }
        r := ParseBlock(c, lines[start + 1..end]);
    }
  }

  // ---------- round trips ----------

  function RenderAll(items: seq<Item>): (lines: seq<string>)
    ensures |lines| == |items|
    decreases |items|
  {
    if items == [] then [] else RenderAll(items[..|items| - 1]) + [Render(items[|items| - 1])]
  }

  /** Rendered lines open no fence and are no marker. */
  lemma {:induction false} RenderedLinesPlain(space: Spaces, base: nat, items: seq<Item>)
    ensures Scan(space, Closed, base, RenderAll(items)) == Scanned(Closed, [])
    decreases |items|
  {
    if items != [] {
      RenderedLinesPlain(space, base, items[..|items| - 1]);
      var last := items[|items| - 1];
      PlainLine(space, last);
      hide NextFence, Visible, Render;
      assert RenderAll(items)[..|items| - 1] == RenderAll(items[..|items| - 1]);
    }
  }

  lemma PlainLine(space: Spaces, item: Item)
    ensures NextFence(space, Closed, Render(item)) == Closed && !Visible(space, Closed, Render(item))
  {
    hide Heading, Closes;
    HeadingsApart(item.kind, item.kind);
    var line := Render(item);
    assert line[0] == Heading(item.kind)[0];
    LeadingRunIs(line, ' ', 0);
    assert line[0..] == line;
    assert CAPTURE_START[0] == '<' && CAPTURE_END[0] == '<';
  }

  lemma RenderedNotEmpty(item: Item)
    ensures Render(item) != ""
  {
    HeadingsApart(item.kind, item.kind);
  }

  lemma ItemsSnoc(c: Checks, lines: seq<string>, line: string)
    requires ItemsOf(c, lines).Some? && line != "" && ItemOf(c, line).Some?
    ensures ItemsOf(c, lines + [line]) == Some(ItemsOf(c, lines).value + [ItemOf(c, line).value])
  {
    hide ItemOf;
    assert (lines + [line])[..|lines|] == lines;
  }

  lemma RenderedSnoc(items: seq<Item>)
    requires items != []
    ensures RenderAll(items) == RenderAll(items[..|items| - 1]) + [Render(items[|items| - 1])]
  {
    hide Render;
  }

  lemma NothingRendered(c: Checks)
    ensures ItemsOf(c, RenderAll([])) == Some([])
  {
    assert RenderAll([]) == [];
  }

  lemma {:induction false} ItemsOfRendered(c: Checks, items: seq<Item>)
    requires forall i :: 0 <= i < |items| ==> NormalItem(c, items[i])
    ensures ItemsOf(c, RenderAll(items)) == Some(items)
    decreases |items|
  {
    hide *;
    if items == [] {
      NothingRendered(c);
    } else {
      var front, last := items[..|items| - 1], items[|items| - 1];
      ItemsOfRendered(c, front);
      ItemRoundTrip(c, last);
      RenderedNotEmpty(last);
      ItemsSnoc(c, RenderAll(front), Render(last));
      RenderedSnoc(items);
      assert items == front + [last];
    }
  }

  /** Prose whose fences are closed and that leaves no start marker open. */
  ghost predicate ClosedProse(space: Spaces, prose: seq<string>) {
    var scanned := Scan(space, Closed, 0, prose);
    scanned.fence.Closed? && (scanned.markers == [] || !scanned.markers[|scanned.markers| - 1].start)
  }

  /** After closed prose, the two markers around plain lines are the pair that decides. */
  lemma BlockDecides(space: Spaces, prose: seq<string>, markers: seq<Marker>, opening: string, block: seq<string>,
                  closing: string, suffix: seq<string>)
    requires Scan(space, Closed, 0, prose) == Scanned(Closed, markers)
    requires Scan(space, Closed, |prose|, [opening]) == Scanned(Closed, [Marker(|prose|, true)])
    requires Scan(space, Closed, |prose| + 1, block) == Scanned(Closed, [])
    requires Scan(space, Closed, |prose| + |block| + 1, [closing])
             == Scanned(Closed, [Marker(|prose| + |block| + 1, false)])
    requires Scan(space, Closed, |prose| + |block| + 2, suffix).markers == []
    requires markers == [] || !markers[|markers| - 1].start
    ensures Selected(Scan(space, Closed, 0, prose + [opening] + block + [closing] + suffix).markers)
            == Block(|prose|, |prose| + |block| + 1)
  {
    hide *;
    var start, end := Marker(|prose|, true), Marker(|prose| + |block| + 1, false);
    var first := prose + [opening];
    Extend(space, prose, markers, [opening], [start]);
    var middle := first + block;
    Extend(space, first, markers + [start], block, []);
    Extend(space, middle, markers + [start] + [], [closing], [end]);
    ScanConcat(space, Closed, 0, middle + [closing], suffix);
    assert markers + [start] + [] + [end] + [] == markers + [start, end];
    LastTwoDecide(markers, start, end);
  }

  lemma Extend(space: Spaces, a: seq<string>, ma: seq<Marker>, b: seq<string>, mb: seq<Marker>)
    requires Scan(space, Closed, 0, a) == Scanned(Closed, ma) && Scan(space, Closed, |a|, b) == Scanned(Closed, mb)
    ensures Scan(space, Closed, 0, a + b) == Scanned(Closed, ma + mb)
  {
    hide *;
    ScanConcat(space, Closed, 0, a, b);
  }

  lemma MarkersDiffer()
    ensures CAPTURE_START != CAPTURE_END
  {
    assert |CAPTURE_START| != |CAPTURE_END|;
  }

  lemma LastTwoDecide(markers: seq<Marker>, start: Marker, end: Marker)
    requires markers == [] || !markers[|markers| - 1].start
    requires start.start && !end.start
    ensures Selected(markers + [start, end]) == Block(start.line, end.line)
  {
    var all := markers + [start, end];
    assert all[|markers|] == start && all[|markers| + 1] == end;
  }

  lemma MarkerAlone(space: Spaces, base: nat, line: string)
    requires line in {CAPTURE_START, CAPTURE_END}
    ensures Scan(space, Closed, base, [line]) == Scanned(Closed, [Marker(base, line == CAPTURE_START)])
  {
    assert line[0] == '<';
    LeadingRunIs(line, ' ', 0);
    assert line[0..] == line;
    assert [line][..0] == [];
    assert Scan(space, Closed, base, []) == Scanned(Closed, []);
  }

  /** The two markers around rendered items are the pair that decides. */
  lemma RenderedStands(space: Spaces, prose: seq<string>, items: seq<Item>, suffix: seq<string>)
    requires ClosedProse(space, prose) && Scan(space, Closed, |prose| + |items| + 2, suffix).markers == []
    ensures |RenderAll(items)| == |items|
    ensures Selected(Scan(space, Closed, 0, prose + [CAPTURE_START] + RenderAll(items) + [CAPTURE_END] + suffix).markers)
         == Block(|prose|, |prose| + |items| + 1)
  {
    hide *;
    var markers, block := Scan(space, Closed, 0, prose).markers, RenderAll(items);
    ClosedProseIs(space, prose);
    MarkersDiffer();
    MarkerAlone(space, |prose|, CAPTURE_START);
    MarkerAlone(space, |prose| + |block| + 1, CAPTURE_END);
    RenderedLinesPlain(space, |prose| + 1, items);
    BlockDecides(space, prose, markers, CAPTURE_START, block, CAPTURE_END, suffix);
  }

  lemma RenderedParses(c: Checks, items: seq<Item>)
    requires forall item :: item in items ==> NormalItem(c, item)
    requires c.Within(JoinLines(RenderAll(items)), BLOCK_MAX_BYTES) && ShortLists(items)
    requires (forall l :: l in LABELS ==> l in LabelsOf(items)) && Acceptable(c, LabelsOf(items))
    ensures ParsedBlock(c, RenderAll(items)) == Ok(LabelsOf(items))
  {
    hide *;
    ItemsOfRendered(c, items);
    ParsedBlockIs(c, RenderAll(items));
  }

  /** A rendered block of normal items, after closed prose and before a valid suffix, parses back
      to exactly the labels of those items. */
  lemma BlockRoundTrip(c: Checks, prose: seq<string>, items: seq<Item>, suffix: seq<string>)
    requires ClosedProse(c.space, prose)
    requires Suffix(c.text, suffix) && Scan(c.space, Closed, |prose| + |items| + 2, suffix).markers == []
    requires forall item :: item in items ==> NormalItem(c, item)
    requires c.Within(JoinLines(RenderAll(items)), BLOCK_MAX_BYTES) && ShortLists(items)
    requires (forall l :: l in LABELS ==> l in LabelsOf(items)) && Acceptable(c, LabelsOf(items))
    ensures Parsed(c, prose + [CAPTURE_START] + RenderAll(items) + [CAPTURE_END] + suffix) == Ok(LabelsOf(items))
  {
    hide *;
    var block := RenderAll(items);
    RenderedStands(c.space, prose, items, suffix);
    RenderedParses(c, items);
    SelectedParses(c, prose, block, suffix);
  }

  lemma SelectedParses(c: Checks, prose: seq<string>, block: seq<string>, suffix: seq<string>)
    requires Selected(Scan(c.space, Closed, 0, prose + [CAPTURE_START] + block + [CAPTURE_END] + suffix).markers)
          == Block(|prose|, |prose| + |block| + 1)
    requires Suffix(c.text, suffix)
    ensures Parsed(c, prose + [CAPTURE_START] + block + [CAPTURE_END] + suffix) == ParsedBlock(c, block)
  {
    hide *;
    var lines := prose + [CAPTURE_START] + block + [CAPTURE_END] + suffix;
    Slices(prose, CAPTURE_START, block, CAPTURE_END, suffix, lines);
    ParsedIs(c, lines, |prose|, |prose| + |block| + 1);
  }

  lemma ClosedProseIs(space: Spaces, prose: seq<string>)
    requires ClosedProse(space, prose)
    ensures var markers := Scan(space, Closed, 0, prose).markers;
            && Scan(space, Closed, 0, prose) == Scanned(Closed, markers)
            && (markers == [] || !markers[|markers| - 1].start)
  {
    hide Scan;
  }

  lemma Slices(prose: seq<string>, opening: string, block: seq<string>, closing: string, suffix: seq<string>, lines: seq<string>)
    requires lines == prose + [opening] + block + [closing] + suffix
    ensures |prose| + |block| + 1 < |lines|
    ensures lines[|prose| + 1..|prose| + |block| + 1] == block
    ensures lines[|prose| + |block| + 1 + 1..] == suffix
  {
  }

  lemma ParsedIs(c: Checks, lines: seq<string>, start: nat, end: nat)
    requires start < end < |lines| && Selected(Scan(c.space, Closed, 0, lines).markers) == Block(start, end)
    requires Suffix(c.text, lines[end + 1..])
    ensures Parsed(c, lines) == ParsedBlock(c, lines[start + 1..end])
  {
    hide Scan, Suffix, Selected, ParsedBlock;
  }

  // ---------- what was parsed, parses again ----------

  function ItemsFor(l: Label, values: seq<string>): seq<Item>
    decreases |values|
  {
    if values == [] then [] else ItemsFor(l, values[..|values| - 1]) + [Item(l, values[|values| - 1])]
  }

  /** The labels as one list of items, heading by heading. */
  function Flatten(labels: Labels, upTo: nat): seq<Item>
    requires upTo <= |LABELS| && forall l :: l in LABELS ==> l in labels
  {
    if upTo == 0 then [] else Flatten(labels, upTo - 1) + ItemsFor(LABELS[upTo - 1], labels[LABELS[upTo - 1]])
  }

  lemma {:induction false} ValuesOfItemsFor(l: Label, values: seq<string>, m: Label)
    ensures Values(ItemsFor(l, values), m) == if l == m then values else []
    decreases |values|
  {
    if values != [] {
      ValuesOfItemsFor(l, values[..|values| - 1], m);
      assert ItemsFor(l, values)[..|ItemsFor(l, values)| - 1] == ItemsFor(l, values[..|values| - 1]);
      assert values == values[..|values| - 1] + [values[|values| - 1]];
    }
  }

  lemma {:induction false} ValuesOfFlatten(labels: Labels, upTo: nat, at: nat)
    requires upTo <= |LABELS| && at < |LABELS| && forall l :: l in LABELS ==> l in labels
    ensures Values(Flatten(labels, upTo), LABELS[at]) == if at < upTo then labels[LABELS[at]] else []
  {
    if upTo > 0 {
      var l := LABELS[upTo - 1];
      ValuesOfFlatten(labels, upTo - 1, at);
      ValuesConcat(Flatten(labels, upTo - 1), ItemsFor(l, labels[l]), LABELS[at]);
      ValuesOfItemsFor(l, labels[l], LABELS[at]);
      LabelsListedOnce(at, upTo - 1);
    }
  }

  lemma LabelsListedOnce(i: nat, j: nat)
    requires i < |LABELS| && j < |LABELS|
    ensures LABELS[i] == LABELS[j] ==> i == j
  {
  }

  lemma {:induction false} DistinctSettles(values: seq<string>)
    requires forall i, j :: 0 <= i < j < |values| ==> values[i] != values[j]
    ensures Distinct(values) == values
    decreases |values|
  {
    if values != [] {
      DistinctSettles(values[..|values| - 1]);
    }
  }

  lemma {:induction false} DistinctNoLonger(values: seq<string>)
    ensures |Distinct(values)| <= |values|
    decreases |values|
  {
    if values != [] {
      DistinctNoLonger(values[..|values| - 1]);
    }
  }

  /** A value that came out of the parser needs no further normalising. */
  ghost predicate Settled(c: Checks, item: Item) {
    && Trim(c.space, item.value) && c.Within(item.value, MAX_FIELD_BYTES)
    && c.Normalize(item.kind, item.value) == item.value
  }

  lemma ItemSettled(c: Checks, line: string)
    requires c.Valid() && ItemOf(c, line).Some?
    ensures Settled(c, ItemOf(c, line).value)
  {
    var matched := MatchFrom(line, 0).value;
    var content := Strip(c.space, matched.value);
    CollapseSettles(c.space, content);
    CollapseSettles(c.space, c.redact(Collapse(c.space, content)));
    if !matched.kind.Changed? {
      var settled := c.Normalize(Objective, content);
      assert c.Normalize(matched.kind, content) == settled == c.Normalize(Objective, settled);
    }
  }

  lemma {:induction false} ItemsSettled(c: Checks, lines: seq<string>)
    requires c.Valid() && ItemsOf(c, lines).Some?
    ensures forall item :: item in ItemsOf(c, lines).value ==> Settled(c, item)
    decreases |lines|
  {
    if lines != [] {
      ItemsSettled(c, lines[..|lines| - 1]);
      var last := lines[|lines| - 1];
      if last != "" {
        ItemSettled(c, last);
      }
      hide ItemOf, Settled;
    }
  }

  lemma {:induction false} ValuesAreItems(items: seq<Item>, l: Label, v: string)
    requires v in Values(items, l)
    ensures Item(l, v) in items
    decreases |items|
  {
    var last := items[|items| - 1];
    if last != Item(l, v) {
      ValuesAreItems(items[..|items| - 1], l, v);
    }
  }

  lemma {:induction false} ItemsAreValues(items: seq<Item>, item: Item)
    requires item in items
    ensures item.value in Values(items, item.kind)
    decreases |items|
  {
    if item != items[|items| - 1] {
      ItemsAreValues(items[..|items| - 1], item);
    }
  }

  lemma FlatValues(labels: Labels, l: Label)
    requires (forall m :: m in LABELS ==> m in labels) && l in LABELS
    ensures Values(Flatten(labels, |LABELS|), l) == labels[l]
  {
    hide Values, Flatten;
    var at := LabelIsListed(l);
    ValuesOfFlatten(labels, |LABELS|, at);
  }

  lemma LabelValues(items: seq<Item>, l: Label)
    requires l in LABELS
    ensures l in LabelsOf(items)
    ensures LabelsOf(items)[l] == if l == ResolvedIssue then Distinct(Values(items, l)) else Values(items, l)
    ensures forall v :: v in LabelsOf(items)[l] ==> v in Values(items, l)
    ensures |LabelsOf(items)[l]| <= |Values(items, l)|
    ensures l == ResolvedIssue ==> Distinct(LabelsOf(items)[l]) == LabelsOf(items)[l]
  {
    hide Values;
    if l == ResolvedIssue {
      DistinctNoLonger(Values(items, l));
      DistinctSettles(Distinct(Values(items, l)));
    }
  }

  lemma SameLabels(a: seq<Item>, labels: Labels)
    requires forall l :: l in labels <==> l in LABELS
    requires forall l :: l in LABELS ==>
               labels[l] == if l == ResolvedIssue then Distinct(Values(a, l)) else Values(a, l)
    ensures LabelsOf(a) == labels
  {
    hide Values, Distinct;
  }

  /** Grouping, then listing heading by heading, then grouping again changes nothing. */
  lemma FlattenRegroups(items: seq<Item>)
    requires ShortLists(items)
    ensures forall l :: l in LABELS ==> l in LabelsOf(items)
    ensures LabelsOf(Flatten(LabelsOf(items), |LABELS|)) == LabelsOf(items)
    ensures ShortLists(Flatten(LabelsOf(items), |LABELS|))
    ensures forall item :: item in Flatten(LabelsOf(items), |LABELS|) ==> item in items
  {
    assert forall l :: l in LabelsOf(items) <==> l in LABELS;
    assert forall l :: l in LABELS && l != Objective && l != Outcome ==> |Values(items, l)| <= MAX_LIST_ITEMS;
    hide Flatten, Values, Distinct, LabelsOf;
    var labels := LabelsOf(items);
    var flat := Flatten(labels, |LABELS|);
    forall l | l in LABELS
      ensures labels[l] == if l == ResolvedIssue then Distinct(Values(flat, l)) else Values(flat, l)
      ensures |Values(flat, l)| <= |Values(items, l)|
    {
      LabelValues(items, l);
      FlatValues(labels, l);
    }
    SameLabels(flat, labels);
    forall item | item in flat
      ensures item in items
    {
      FlatFromItems(items, item);
    }
  }

  lemma FlatFromItems(items: seq<Item>, item: Item)
    requires forall l :: l in LABELS ==> l in LabelsOf(items)
    requires item in Flatten(LabelsOf(items), |LABELS|)
    ensures item in items
  {
    hide *;
    ItemsAreValues(Flatten(LabelsOf(items), |LABELS|), item);
    var at := LabelIsListed(item.kind);
    LabelValues(items, item.kind);
    FlatValues(LabelsOf(items), item.kind);
    ValuesAreItems(items, item.kind, item.value);
  }

  /** What any message was parsed to, written out as a block, is parsed to the same labels again. */
  lemma ParsedLabelsRoundTrip(c: Checks, block: seq<string>, prose: seq<string>, suffix: seq<string>)
    requires c.Valid() && ParsedBlock(c, block).Ok?
    requires ClosedProse(c.space, prose)
    requires
      var items := Flatten(ParsedBlock(c, block).value, |LABELS|);
      && (forall item :: item in items ==> |item.value| <= VALUE_MAX_CHARS)
      && c.Within(JoinLines(RenderAll(items)), BLOCK_MAX_BYTES)
      && Suffix(c.text, suffix) && Scan(c.space, Closed, |prose| + |items| + 2, suffix).markers == []
    ensures
      var items := Flatten(ParsedBlock(c, block).value, |LABELS|);
      Parsed(c, prose + [CAPTURE_START] + RenderAll(items) + [CAPTURE_END] + suffix) == ParsedBlock(c, block)
  {
    hide *;
    var labels := ParsedBlock(c, block).value;
    ParsedBlockIs(c, block);
    var read := ItemsOf(c, block).value;
    var items := Flatten(labels, |LABELS|);
    FlattenRegroups(read);
    ItemsSettled(c, block);
    forall item | item in items
      ensures NormalItem(c, item)
    {
      SettledIsNormal(c, item);
    }
    BlockRoundTrip(c, prose, items, suffix);
  }

  lemma SettledIsNormal(c: Checks, item: Item)
    requires Settled(c, item) && |item.value| <= VALUE_MAX_CHARS
    ensures NormalItem(c, item)
  {
  }
}
