/** The managed block of an AGENTS document: finding it, and the bytes that install, remove and
    inspect compose. */
module ManagedBlock {
  import opened Wrappers
  import opened ByteLines

  const MAX_AGENTS_BYTES: nat := 8 * 1024 * 1024
  const LESS_THAN: byte := 60

  function Ascii(s: string): (b: Bytes)
    requires forall c :: c in s ==> c < 128 as char
    ensures |b| == |s| && forall i :: 0 <= i < |s| ==> s[i] in s && b[i] as int == s[i] as int
  {
    if s == [] then []
    else
      assert s[0] in s && forall c :: c in s[1..] ==> c in s;
      [(s[0] as int) as byte] + Ascii(s[1..])
  }

  const SHARED := "!-- " + "PROJECT " + "MEMORY " + "HUB: " + "MANAGED " + "CODEX " + "GUIDANCE "
  const MANAGED_START := "<" + (SHARED + "START -->")
  const MANAGED_END := "<" + (SHARED + "END -->")

  datatype Markers = Markers(start: Bytes, end: Bytes) {
    ghost predicate Valid() {
      IsMarker(start) && IsMarker(end) && !(start <= end) && !(end <= start)
    }
  }

  /** A less-than sign first and nowhere else, and no line feed. */
  ghost predicate IsMarker(m: Bytes) {
    && m != [] && m[0] == LESS_THAN
    && (forall i :: 0 < i < |m| ==> m[i] != LESS_THAN)
    && (forall i :: 0 <= i < |m| ==> m[i] != LF)
  }

  /** ASCII text without line feeds and less-than signs. */
  predicate Plain(s: string) {
    forall i :: 0 <= i < |s| ==> s[i] < 128 as char && s[i] != '<' && s[i] != '\n'
  }

  lemma PlainConcat(a: string, b: string)
    requires Plain(a) && Plain(b)
    ensures Plain(a + b)
  {
  }

  lemma AsciiMarker(rest: string)
    requires Plain(rest)
    ensures forall c :: c in "<" + rest ==> c < 128 as char
    ensures IsMarker(Ascii("<" + rest))
  {
    var s := "<" + rest;
    assert s[0] == '<';
    assert forall i :: 0 < i < |s| ==> s[i] == rest[i - 1];
    var m := Ascii(s);
    forall i | 0 < i < |m|
      ensures m[i] != LESS_THAN && m[i] != LF
    {
      assert s[i] == rest[i - 1];
    }
  }

  lemma SharedIsPlain()
    ensures Plain(SHARED)
  {
    assert Plain("!-- ") && Plain("PROJECT ") && Plain("MEMORY ") && Plain("HUB: ");
    assert Plain("MANAGED ") && Plain("CODEX ") && Plain("GUIDANCE ");
    hide Plain;
    PlainConcat("!-- ", "PROJECT ");
    PlainConcat("!-- " + "PROJECT ", "MEMORY ");
    PlainConcat("!-- " + "PROJECT " + "MEMORY ", "HUB: ");
    PlainConcat("!-- " + "PROJECT " + "MEMORY " + "HUB: ", "MANAGED ");
    PlainConcat("!-- " + "PROJECT " + "MEMORY " + "HUB: " + "MANAGED ", "CODEX ");
    PlainConcat("!-- " + "PROJECT " + "MEMORY " + "HUB: " + "MANAGED " + "CODEX ", "GUIDANCE ");
  }

  /** The two managed markers are such markers, and neither begins like the other. */
  lemma ManagedMarkersValid()
    ensures forall c :: c in MANAGED_START || c in MANAGED_END ==> c < 128 as char
    ensures Markers(Ascii(MANAGED_START), Ascii(MANAGED_END)).Valid()
  {
    SharedIsPlain();
    assert Plain("START -->") && Plain("END -->");
    hide SHARED;
    PlainConcat(SHARED, "START -->");
    PlainConcat(SHARED, "END -->");
    AsciiMarker(SHARED + "START -->");
    AsciiMarker(SHARED + "END -->");
    var start, end := Ascii(MANAGED_START), Ascii(MANAGED_END);
    var n := |SHARED|;
    assert MANAGED_START[n + 1] == 'S' && MANAGED_END[n + 1] == 'E';
    assert start[n + 1] != end[n + 1];
  }

  // ---------- counting and finding ----------

  predicate At(s: Bytes, m: Bytes, i: nat) {
    i + |m| <= |s| && s[i..i + |m|] == m
  }

  /** Occurrences that do not overlap, from the left. */
  function Count(s: Bytes, m: Bytes): nat
    requires m != []
  {
    if |s| < |m| then 0
    else if s[..|m|] == m then 1 + Count(s[|m|..], m)
    else Count(s[1..], m)
  }

  function Find(s: Bytes, m: Bytes): (i: nat)
    requires m != []
    ensures i <= |s|
    ensures i < |s| ==> At(s, m, i)
    ensures forall k :: 0 <= k < i ==> !At(s, m, k)
  {
    if |s| < |m| then |s|
    else if s[..|m|] == m then 0
    else
      FindStep(s, m, Find(s[1..], m));
      Find(s[1..], m) + 1
  }

  lemma FindStep(s: Bytes, m: Bytes, rest: nat)
    requires m != [] && |s| >= |m| && s[..|m|] != m
    requires rest <= |s[1..]| && (rest < |s[1..]| ==> At(s[1..], m, rest))
    requires forall k :: 0 <= k < rest ==> !At(s[1..], m, k)
    ensures rest + 1 < |s| ==> At(s, m, rest + 1)
    ensures forall k :: 0 <= k < rest + 1 ==> !At(s, m, k)
  {
    if rest < |s[1..]| {
      assert s[1..][rest..rest + |m|] == s[rest + 1..rest + 1 + |m|];
    }
    forall k: nat | k < rest + 1
      ensures !At(s, m, k)
    {
      if k > 0 && k + |m| <= |s| {
        assert s[1..][k - 1..k - 1 + |m|] == s[k..k + |m|];
        assert !At(s[1..], m, k - 1);
      }
    }
  }

  lemma {:induction false} CountZero(s: Bytes, m: Bytes)
    requires m != []
    ensures Count(s, m) == 0 <==> forall i :: 0 <= i <= |s| ==> !At(s, m, i)
  {
    if |s| >= |m| {
      if s[..|m|] == m {
        assert At(s, m, 0);
      } else {
        CountZero(s[1..], m);
        forall i: nat
          ensures At(s, m, i) <==> i > 0 && At(s[1..], m, i - 1)
        {
          if i > 0 && i + |m| <= |s| {
            assert s[1..][i - 1..i - 1 + |m|] == s[i..i + |m|];
          }
        }
        assert forall i :: 0 <= i <= |s[1..]| && At(s[1..], m, i) ==> At(s, m, i + 1);
      }
    }
  }

  /** No marker reaches over the border between these two. */
  ghost predicate Border(a: Bytes, b: Bytes) {
    a == [] || b == [] || a[|a| - 1] == LF || b[0] == LF || b[0] == LESS_THAN
  }

  lemma NothingCrosses(a: Bytes, b: Bytes, m: Bytes, i: nat)
    requires IsMarker(m) && Border(a, b) && i < |a| < i + |m|
    ensures !At(a + b, m, i)
  {
    var s := a + b;
    if i + |m| <= |s| {
      var w, k := s[i..i + |m|], |a| - i;
      assert w[k] == b[0] && w[k - 1] == a[|a| - 1];
      assert w[k] != m[k] || w[k - 1] != m[k - 1];
    }
  }

  lemma {:induction false} CountSplit(a: Bytes, b: Bytes, m: Bytes)
    requires IsMarker(m) && Border(a, b)
    ensures Count(a + b, m) == Count(a, m) + Count(b, m)
    decreases |a|
  {
    var s := a + b;
    if a == [] {
      assert s == b;
    } else if |s| >= |m| && s[..|m|] == m {
      assert At(s, m, 0);
      if |m| > |a| {
        NothingCrosses(a, b, m, 0);
      }
      assert |m| <= |a| && a[..|m|] == s[..|m|];
      assert s[|m|..] == a[|m|..] + b;
      assert Border(a[|m|..], b);
      CountSplit(a[|m|..], b, m);
    } else {
      assert |a| >= |m| ==> a[..|m|] == s[..|m|];
      assert s[1..] == a[1..] + b;
      assert Border(a[1..], b);
      CountSplit(a[1..], b, m);
    }
  }

  // ---------- the span ----------

  datatype Span = Span(managedStart: nat, contentEnd: nat)

  datatype AgentsError = MarkersRejected | TooLarge

  /** Where the managed block is, with the line feed before it and the one after it. */
  function ManagedSpan(mk: Markers, d: Bytes): (r: Result<Option<Span>, AgentsError>)
    requires mk.Valid()
    ensures r.Ok? && r.value.Some? ==> r.value.value.managedStart <= r.value.value.contentEnd <= |d|
  {
    var starts, ends := Count(d, mk.start), Count(d, mk.end);
    if starts == 0 && ends == 0 then Ok(None)
    else if starts != 1 || ends != 1 then Err(MarkersRejected)
    else SpanAt(mk, d, Find(d, mk.start), Find(d, mk.end))
  }

  /** The span of markers at these places, if they stand on lines of their own. */
  function SpanAt(mk: Markers, d: Bytes, start: nat, end: nat): (r: Result<Option<Span>, AgentsError>)
    requires start <= |d| && end <= |d|
    ensures r.Ok? ==> r.value.Some? && r.value.value.managedStart <= r.value.value.contentEnd <= |d|
  {
    var afterStart, afterEnd := start + |mk.start|, end + |mk.end|;
    if || end <= afterStart
       || (start > 0 && d[start - 1] != LF)
       || !(afterStart < |d| && d[afterStart] == LF)
       || !(0 < end && d[end - 1] == LF)
       || (afterEnd < |d| && d[afterEnd] != LF)
    then Err(MarkersRejected)
    else
      Ok(Some(Span(if start > 0 then start - 1 else start,
                   if afterEnd < |d| then afterEnd + 1 else if afterEnd <= |d| then afterEnd else |d|)))
  }

  /** Neither marker occurs. */
  ghost predicate MarkerFree(mk: Markers, s: Bytes)
    requires mk.Valid()
  {
    Count(s, mk.start) == 0 && Count(s, mk.end) == 0
  }

  /** Text between the markers: it begins and ends with a line feed. */
  ghost predicate Middle(mk: Markers, s: Bytes)
    requires mk.Valid()
  {
    MarkerFree(mk, s) && s != [] && s[0] == LF && s[|s| - 1] == LF
  }

  /** A document around a managed block: lines before it, its middle, and what follows. */
  ghost predicate Around(mk: Markers, d: Bytes, lead: Bytes, middle: Bytes, rest: Bytes)
    requires mk.Valid()
  {
    && d == lead + mk.start + middle + mk.end + rest
    && MarkerFree(mk, lead) && Middle(mk, middle) && MarkerFree(mk, rest)
    && (lead == [] || lead[|lead| - 1] == LF) && (rest == [] || rest[0] == LF)
  }

  lemma CountSelf(m: Bytes)
    requires IsMarker(m)
    ensures Count(m, m) == 1
  {
    assert m[..|m|] == m && m[|m|..] == [];
  }

  lemma OtherMarkerAbsent(m: Bytes, other: Bytes)
    requires IsMarker(m) && IsMarker(other) && !(other <= m)
    ensures Count(m, other) == 0
  {
    CountZero(m, other);
    forall i: nat
      ensures !At(m, other, i)
    {
      if i + |other| <= |m| {
        assert m[i..i + |other|][0] == m[i];
        if i == 0 {
          assert m[..|other|] != other;
        }
      }
    }
  }

  /** The first occurrence of a marker stands where the text before it has none. */
  lemma FoundAt(a: Bytes, m: Bytes, b: Bytes)
    requires IsMarker(m) && Count(a, m) == 0 && Border(a, m)
    ensures Find(a + m + b, m) == |a|
  {
    var s := a + m + b;
    assert s[|a|..|a| + |m|] == m && At(s, m, |a|);
    CountZero(a, m);
    forall i: nat | i < |a|
      ensures !At(s, m, i)
    {
      if i + |m| <= |a| {
        assert s[i..i + |m|] == a[i..i + |m|];
        assert !At(a, m, i);
      } else {
        NothingCrosses(a, m, m, i);
        if i + |m| <= |s| && i + |m| <= |a + m| {
          assert s[i..i + |m|] == (a + m)[i..i + |m|];
        }
      }
    }
  }

  /** Counting through a document around a block. */
  lemma CountAround(mk: Markers, lead: Bytes, middle: Bytes, rest: Bytes, m: Bytes)
    requires mk.Valid() && IsMarker(m) && middle != [] && middle[0] == LF && middle[|middle| - 1] == LF
    requires (lead == [] || lead[|lead| - 1] == LF) && (rest == [] || rest[0] == LF)
    ensures Count(lead + mk.start + middle + mk.end + rest, m)
            == Count(lead, m) + Count(mk.start, m) + Count(middle, m) + Count(mk.end, m) + Count(rest, m)
  {
    hide Count;
    CountSplit(lead, mk.start, m);
    CountSplit(lead + mk.start, middle, m);
    CountSplit(lead + mk.start + middle, mk.end, m);
    CountSplit(lead + mk.start + middle + mk.end, rest, m);
  }

  lemma CountsAround(mk: Markers, d: Bytes, lead: Bytes, middle: Bytes, rest: Bytes)
    requires mk.Valid() && Around(mk, d, lead, middle, rest)
    ensures Count(d, mk.start) == 1 && Count(d, mk.end) == 1
    ensures Count(lead + mk.start + middle, mk.end) == 0
  {
    hide Count;
    CountAround(mk, lead, middle, rest, mk.start);
    CountAround(mk, lead, middle, rest, mk.end);
    CountSelf(mk.start);
    CountSelf(mk.end);
    OtherMarkerAbsent(mk.start, mk.end);
    OtherMarkerAbsent(mk.end, mk.start);
    CountSplit(lead, mk.start, mk.end);
    CountSplit(lead + mk.start, middle, mk.end);
  }

  /** Around a block, no marker can start before the place of a marker and reach into it. */
  lemma BordersAround(mk: Markers, d: Bytes, lead: Bytes, middle: Bytes, rest: Bytes)
    requires mk.Valid() && Around(mk, d, lead, middle, rest)
    ensures Border(lead, mk.start) && Border(lead + mk.start + middle, mk.end)
    ensures IsMarker(mk.start) && IsMarker(mk.end) && Count(lead, mk.start) == 0
    ensures d == lead + mk.start + middle + mk.end + rest
  {
    hide Count, Find;
  }

  lemma FindsAround(mk: Markers, d: Bytes, lead: Bytes, middle: Bytes, rest: Bytes)
    requires mk.Valid() && Around(mk, d, lead, middle, rest)
    ensures Find(d, mk.start) == |lead| && Find(d, mk.end) == |lead + mk.start + middle|
  {
    hide *;
    CountsAround(mk, d, lead, middle, rest);
    BordersAround(mk, d, lead, middle, rest);
    var tail := middle + mk.end + rest;
    assert lead + mk.start + middle + mk.end + rest == lead + mk.start + tail;
    FoundAt(lead, mk.start, tail);
    FoundAt(lead + mk.start + middle, mk.end, rest);
  }

  /** Around a block, the span takes the line feeds on both sides and nothing else. */
  lemma SpanAround(mk: Markers, d: Bytes, lead: Bytes, middle: Bytes, rest: Bytes)
    requires mk.Valid() && Around(mk, d, lead, middle, rest)
    ensures ManagedSpan(mk, d) == Ok(Some(Span(if lead == [] then 0 else |lead| - 1,
                                               if rest == [] then |d| else |d| - |rest| + 1)))
  {
    hide *;
    CountsAround(mk, d, lead, middle, rest);
    FindsAround(mk, d, lead, middle, rest);
    SpanIs(mk, d);
    AroundIndices(mk, d, lead, middle, rest);
    SpanAtIndices(mk, d, lead, middle, rest);
  }

  lemma AroundIndices(mk: Markers, d: Bytes, lead: Bytes, middle: Bytes, rest: Bytes)
    requires mk.Valid() && Around(mk, d, lead, middle, rest)
    ensures |d| == |lead| + |mk.start| + |middle| + |mk.end| + |rest|
    ensures |lead + mk.start + middle| == |lead| + |mk.start| + |middle|
    ensures middle != [] && middle[0] == LF && middle[|middle| - 1] == LF
    ensures lead != [] ==> d[|lead| - 1] == LF
    ensures d[|lead| + |mk.start|] == LF && d[|lead| + |mk.start| + |middle| - 1] == LF
    ensures rest != [] ==> d[|lead| + |mk.start| + |middle| + |mk.end|] == LF
  {
    hide Count, IsMarker;
    assert mk.end != [] by { MarkerNotEmpty(mk); }
    Indices(d, lead, mk.start, middle, mk.end, rest);
  }

  lemma MarkerNotEmpty(mk: Markers)
    requires mk.Valid()
    ensures mk.start != [] && mk.end != []
  {
  }

  lemma SpanIs(mk: Markers, d: Bytes)
    requires mk.Valid() && Count(d, mk.start) == 1 && Count(d, mk.end) == 1
    ensures ManagedSpan(mk, d) == SpanAt(mk, d, Find(d, mk.start), Find(d, mk.end))
  {
    hide Count, Find, SpanAt;
  }

  lemma SpanAtIndices(mk: Markers, d: Bytes, lead: Bytes, middle: Bytes, rest: Bytes)
    requires |d| == |lead| + |mk.start| + |middle| + |mk.end| + |rest|
    requires middle != [] && middle[0] == LF && middle[|middle| - 1] == LF
    requires lead != [] ==> d[|lead| - 1] == LF
    requires d[|lead| + |mk.start|] == LF && d[|lead| + |mk.start| + |middle| - 1] == LF
    requires rest != [] ==> d[|lead| + |mk.start| + |middle| + |mk.end|] == LF
    ensures SpanAt(mk, d, |lead|, |lead| + |mk.start| + |middle|)
            == Ok(Some(Span(if lead == [] then 0 else |lead| - 1, if rest == [] then |d| else |d| - |rest| + 1)))
  {
  }

  lemma Indices(d: Bytes, a: Bytes, b: Bytes, c: Bytes, e: Bytes, f: Bytes)
    requires d == a + b + c + e + f && c != [] && e != []
    ensures |d| == |a| + |b| + |c| + |e| + |f| && |a + b + c| == |a| + |b| + |c|
    ensures a != [] ==> d[|a| - 1] == a[|a| - 1]
    ensures d[|a| + |b|] == c[0] && d[|a| + |b| + |c| - 1] == c[|c| - 1]
    ensures f != [] ==> d[|a| + |b| + |c| + |e|] == f[0]
  {
  }

  lemma Cut(mk: Markers, d: Bytes, start: nat, end: nat)
    requires mk.Valid() && At(d, mk.start, start) && At(d, mk.end, end) && start + |mk.start| < end
    ensures d == d[..start] + mk.start + d[start + |mk.start|..end] + mk.end + d[end + |mk.end|..]
  {
    hide IsMarker;
    assert d == d[..end] + d[end..end + |mk.end|] + d[end + |mk.end|..];
    assert d[..end] == d[..start] + d[start..start + |mk.start|] + d[start + |mk.start|..end];
  }

  /** Every document with a span is one around a block. */
  lemma SpanIsAround(mk: Markers, d: Bytes) returns (lead: Bytes, middle: Bytes, rest: Bytes)
    requires mk.Valid() && ManagedSpan(mk, d).Ok? && ManagedSpan(mk, d).value.Some?
    ensures Around(mk, d, lead, middle, rest)
  {
    hide *;
    var start, end := FoundMarkers(mk, d);
    Cut(mk, d, start, end);
    lead := d[..start];
    middle := d[start + |mk.start|..end];
    rest := d[end + |mk.end|..];
    BlankAround(mk, d, lead, middle, rest);
  }

  lemma FoundMarkers(mk: Markers, d: Bytes) returns (start: nat, end: nat)
    requires mk.Valid() && ManagedSpan(mk, d).Ok? && ManagedSpan(mk, d).value.Some?
    ensures Count(d, mk.start) == 1 && Count(d, mk.end) == 1
    ensures At(d, mk.start, start) && At(d, mk.end, end) && start + |mk.start| < end && end + |mk.end| <= |d|
    ensures (start > 0 ==> d[start - 1] == LF) && d[start + |mk.start|] == LF && d[end - 1] == LF
    ensures end + |mk.end| < |d| ==> d[end + |mk.end|] == LF
  {
    hide Count, Find, IsMarker, At;
    start, end := Find(d, mk.start), Find(d, mk.end);
    assert Count(d, mk.start) == 1 && Count(d, mk.end) == 1;
    FindFinds(d, mk.start);
    FindFinds(d, mk.end);
    hide *;
    SpanIs(mk, d);
    SpanNeeds(mk, d, start, end);
  }

  lemma FindFinds(s: Bytes, m: Bytes)
    requires m != [] && Count(s, m) != 0
    ensures At(s, m, Find(s, m)) && Find(s, m) + |m| <= |s|
  {
    CountZero(s, m);
    hide Count;
    var i :| 0 <= i <= |s| && At(s, m, i);
    assert i < |s| && Find(s, m) <= i;
  }

  lemma SpanNeeds(mk: Markers, d: Bytes, start: nat, end: nat)
    requires start <= |d| && end <= |d| && SpanAt(mk, d, start, end).Ok?
    ensures start + |mk.start| < end
    ensures (start > 0 ==> d[start - 1] == LF) && d[start + |mk.start|] == LF && d[end - 1] == LF
    ensures end + |mk.end| < |d| ==> d[end + |mk.end|] == LF
  {
  }

  lemma BlankAround(mk: Markers, d: Bytes, lead: Bytes, middle: Bytes, rest: Bytes)
    requires mk.Valid() && d == lead + mk.start + middle + mk.end + rest
    requires Count(d, mk.start) == 1 && Count(d, mk.end) == 1
    requires middle != [] && middle[0] == LF && middle[|middle| - 1] == LF
    requires (lead == [] || lead[|lead| - 1] == LF) && (rest == [] || rest[0] == LF)
    ensures Around(mk, d, lead, middle, rest)
  {
    CountSelf(mk.start);
    CountSelf(mk.end);
    hide Count, IsMarker;
    CountAround(mk, lead, middle, rest, mk.start);
    CountAround(mk, lead, middle, rest, mk.end);
  }

  // ---------- install, remove and inspect ----------

  datatype Status = Missing | Current | Drifted | MalformedBlock

  function Separator(prefix: Bytes): Bytes {
    if prefix != [] then [LF] else []
  }

  function Finish(desired: Bytes): Result<Bytes, AgentsError> {
    if |desired| > MAX_AGENTS_BYTES then Err(TooLarge) else Ok(desired)
  }

  function Install(mk: Markers, block: Bytes, d: Bytes): Result<Bytes, AgentsError>
    requires mk.Valid()
  {
    if |d| > MAX_AGENTS_BYTES then Err(TooLarge)
    else
      match ManagedSpan(mk, d)
      case Err(error) => Err(error)
      case Ok(None) => Finish(if d == [] then block else d + [LF] + block)
      case Ok(Some(span)) =>
        var prefix, suffix := d[..span.managedStart], d[span.contentEnd..];
        Finish(prefix + Separator(prefix) + block + suffix)
  }

  function Remove(mk: Markers, d: Bytes): Result<Bytes, AgentsError>
    requires mk.Valid()
  {
    if |d| > MAX_AGENTS_BYTES then Err(TooLarge)
    else
      match ManagedSpan(mk, d)
      case Err(error) => Err(error)
      case Ok(None) => Ok(d)
      case Ok(Some(span)) => Finish(Joined(d[..span.managedStart], d[span.contentEnd..]))
  }

  /** What stays when the block goes: a line feed is added only where two lines would run together. */
  function Joined(prefix: Bytes, suffix: Bytes): Bytes {
    if prefix != [] && suffix != [] && prefix[|prefix| - 1] != LF && suffix[0] != LF
    then prefix + [LF] + suffix
    else prefix + suffix
  }

  function Inspect(mk: Markers, block: Bytes, d: Bytes): Status
    requires mk.Valid()
  {
    if |d| > MAX_AGENTS_BYTES then MalformedBlock
    else
      match ManagedSpan(mk, d)
      case Err(_) => MalformedBlock
      case Ok(None) => Missing
      case Ok(Some(span)) =>
        var prefix, suffix := d[..span.managedStart], d[span.contentEnd..];
        if prefix + Separator(prefix) + block + suffix == d then Current else Drifted
  }

  /** The rendered block: each marker once, on lines of their own, and a final line feed. */
  ghost predicate IsBlock(mk: Markers, block: Bytes, body: Bytes)
    requires mk.Valid()
  {
    block == mk.start + body + mk.end + [LF] && Middle(mk, body)
  }

  lemma LineFeedFree(mk: Markers)
    requires mk.Valid()
    ensures MarkerFree(mk, [LF])
  {
    CountZero([LF], mk.start);
    CountZero([LF], mk.end);
  }

  lemma FreeSplit(mk: Markers, a: Bytes, b: Bytes)
    requires mk.Valid() && Border(a, b)
    ensures MarkerFree(mk, a + b) <==> MarkerFree(mk, a) && MarkerFree(mk, b)
  {
    hide Count, Border;
    CountSplit(a, b, mk.start);
    CountSplit(a, b, mk.end);
  }

  /** Outside the span there is no marker. */
  lemma SpanSides(mk: Markers, d: Bytes)
    requires mk.Valid() && ManagedSpan(mk, d).Ok? && ManagedSpan(mk, d).value.Some?
    ensures
      var span := ManagedSpan(mk, d).value.value;
      MarkerFree(mk, d[..span.managedStart]) && MarkerFree(mk, d[span.contentEnd..])
  {
    hide ManagedSpan, Count, IsMarker, Markers.Valid;
    var lead, middle, rest := SpanIsAround(mk, d);
    SpanAround(mk, d, lead, middle, rest);
    var span := ManagedSpan(mk, d).value.value;
    LineFeedFree(mk);
    if lead != [] {
      assert lead == d[..span.managedStart] + [LF];
      FreeSplit(mk, d[..span.managedStart], [LF]);
    } else {
      assert d[..span.managedStart] == lead;
    }
    if rest != [] {
      assert rest == [LF] + d[span.contentEnd..];
      FreeSplit(mk, [LF], d[span.contentEnd..]);
    } else {
      assert d[span.contentEnd..] == rest;
    }
  }

  /** The composed document is around the block, and its span gives back prefix and suffix. */
  lemma Composed(mk: Markers, block: Bytes, body: Bytes, prefix: Bytes, suffix: Bytes)
    requires mk.Valid() && IsBlock(mk, block, body) && MarkerFree(mk, prefix) && MarkerFree(mk, suffix)
    ensures
      var d := prefix + Separator(prefix) + block + suffix;
      && ManagedSpan(mk, d).Ok? && ManagedSpan(mk, d).value.Some?
      && d[..ManagedSpan(mk, d).value.value.managedStart] == prefix
      && d[ManagedSpan(mk, d).value.value.contentEnd..] == suffix
  {
    var d := prefix + Separator(prefix) + block + suffix;
    var lead, rest := prefix + Separator(prefix), [LF] + suffix;
    hide ManagedSpan, Count, IsMarker, Markers.Valid;
    LineFeedFree(mk);
    FreeSplit(mk, [LF], suffix);
    if prefix != [] {
      FreeSplit(mk, prefix, [LF]);
    }
    assert d == lead + mk.start + body + mk.end + rest;
    SpanAround(mk, d, lead, body, rest);
  }

  /** Every document splits into what install and remove keep. */
  lemma Sides(mk: Markers, d: Bytes) returns (prefix: Bytes, suffix: Bytes)
    requires mk.Valid() && ManagedSpan(mk, d).Ok? && |d| <= MAX_AGENTS_BYTES
    ensures MarkerFree(mk, prefix) && MarkerFree(mk, suffix)
    ensures forall block :: Install(mk, block, d) == Finish(prefix + Separator(prefix) + block + suffix)
    ensures Remove(mk, d) == Finish(Joined(prefix, suffix))
    ensures ManagedSpan(mk, d).value.None? ==> prefix == d && suffix == [] && Joined(prefix, suffix) == d
    ensures ManagedSpan(mk, d).value.Some? ==>
              && prefix == d[..ManagedSpan(mk, d).value.value.managedStart]
              && suffix == d[ManagedSpan(mk, d).value.value.contentEnd..]
  {
    if ManagedSpan(mk, d).value.None? {
      prefix, suffix := d, [];
      CountZero([], mk.start);
      CountZero([], mk.end);
      hide Count, IsMarker;
      assert Joined(prefix, suffix) == d;
      forall block: Bytes
        ensures Install(mk, block, d) == Finish(prefix + Separator(prefix) + block + suffix)
      {
        assert prefix + Separator(prefix) + block + suffix == if d == [] then block else d + [LF] + block;
      }
    } else {
      hide Count, IsMarker;
      SpanSides(mk, d);
      prefix := d[..ManagedSpan(mk, d).value.value.managedStart];
      suffix := d[ManagedSpan(mk, d).value.value.contentEnd..];
    }
  }

  /** Install composes a document whose span gives back the same two sides. */
  lemma InstalledSides(mk: Markers, block: Bytes, body: Bytes, d: Bytes) returns (prefix: Bytes, suffix: Bytes)
    requires mk.Valid() && IsBlock(mk, block, body) && Install(mk, block, d).Ok?
    ensures MarkerFree(mk, prefix) && MarkerFree(mk, suffix) && |d| <= MAX_AGENTS_BYTES && ManagedSpan(mk, d).Ok?
    ensures
      var after := Install(mk, block, d).value;
      && after == prefix + Separator(prefix) + block + suffix && |after| <= MAX_AGENTS_BYTES
      && Remove(mk, d) == Finish(Joined(prefix, suffix)) && Remove(mk, after) == Finish(Joined(prefix, suffix))
      && Install(mk, block, after) == Ok(after) && Inspect(mk, block, after) == Current
    ensures ManagedSpan(mk, d).value.None? ==> Joined(prefix, suffix) == d
  {
    assert |d| <= MAX_AGENTS_BYTES && ManagedSpan(mk, d).Ok?;
    hide ManagedSpan, Count, IsMarker, Markers.Valid, MarkerFree, IsBlock;
    prefix, suffix := Sides(mk, d);
    var after := Install(mk, block, d).value;
    assert after == prefix + Separator(prefix) + block + suffix;
    Composed(mk, block, body, prefix, suffix);
  }

  /** Installing changes nothing that removing keeps; a document without a block comes back
      exactly. */
  lemma InstallThenRemove(mk: Markers, block: Bytes, body: Bytes, d: Bytes)
    requires mk.Valid() && IsBlock(mk, block, body) && Install(mk, block, d).Ok?
    ensures Remove(mk, Install(mk, block, d).value) == Remove(mk, d)
    ensures ManagedSpan(mk, d) == Ok(None) ==> Remove(mk, Install(mk, block, d).value) == Ok(d)
  {
    hide ManagedSpan, Count, IsMarker, Markers.Valid, MarkerFree, IsBlock, Install, Remove;
    var prefix, suffix := InstalledSides(mk, block, body, d);
  }

  /** Installing twice is installing once, and what is installed is inspected as current. */
  lemma InstallSettles(mk: Markers, block: Bytes, body: Bytes, d: Bytes)
    requires mk.Valid() && IsBlock(mk, block, body) && Install(mk, block, d).Ok?
    ensures
      var after := Install(mk, block, d).value;
      Install(mk, block, after) == Ok(after) && Inspect(mk, block, after) == Current
  {
    hide *;
    var prefix, suffix := InstalledSides(mk, block, body, d);
  }

  /** Install refuses exactly the documents whose markers are not one well-placed pair, and those
      that are or would become too large. */
  lemma InstallAcceptsExactly(mk: Markers, block: Bytes, d: Bytes)
    requires mk.Valid() && block != []
    ensures Install(mk, block, d).Ok? <==>
              (&& |d| <= MAX_AGENTS_BYTES && ManagedSpan(mk, d).Ok?
               && match ManagedSpan(mk, d).value
                  case None => |d| + (if d == [] then 0 else 1) + |block| <= MAX_AGENTS_BYTES
                  case Some(span) =>
                    |d| - (span.contentEnd - span.managedStart) + (if span.managedStart == 0 then 0 else 1) + |block|
                    <= MAX_AGENTS_BYTES)
  {
    hide ManagedSpan, Count, IsMarker, Markers.Valid;
  }

  /** A document is current exactly when installing would leave it as it is. */
  lemma CurrentExactlyWhen(mk: Markers, block: Bytes, d: Bytes)
    requires mk.Valid() && block != []
    ensures Inspect(mk, block, d) == Current <==> Install(mk, block, d) == Ok(d)
  {
    hide ManagedSpan, Count, IsMarker, Markers.Valid;
    if |d| <= MAX_AGENTS_BYTES && ManagedSpan(mk, d) == Ok(None) {
      assert d != [] ==> |d + [LF] + block| > |d|;
    }
  }

  /** Joining the two sides never makes a new marker: what remove leaves is inspected as missing. */
  lemma RemoveLeavesMissing(mk: Markers, block: Bytes, d: Bytes)
    requires mk.Valid() && Remove(mk, d).Ok?
    ensures Inspect(mk, block, Remove(mk, d).value) == Missing
    ensures Remove(mk, Remove(mk, d).value) == Remove(mk, d)
  {
    assert |d| <= MAX_AGENTS_BYTES && ManagedSpan(mk, d).Ok?;
    hide ManagedSpan, Count, IsMarker, Markers.Valid, MarkerFree;
    var prefix, suffix := Sides(mk, d);
    var after := Remove(mk, d).value;
    assert after == Joined(prefix, suffix);
    JoinedFree(mk, prefix, suffix);
    FreeHasNoSpan(mk, after);
  }

  lemma JoinedFree(mk: Markers, prefix: Bytes, suffix: Bytes)
    requires mk.Valid() && MarkerFree(mk, prefix) && MarkerFree(mk, suffix)
    ensures MarkerFree(mk, Joined(prefix, suffix))
  {
    hide Count, IsMarker, Markers.Valid, MarkerFree;
    LineFeedFree(mk);
    if Joined(prefix, suffix) == prefix + suffix && Border(prefix, suffix) {
      FreeSplit(mk, prefix, suffix);
    } else {
      FreeSplit(mk, prefix, [LF]);
      FreeSplit(mk, prefix + [LF], suffix);
    }
  }

  lemma FreeHasNoSpan(mk: Markers, d: Bytes)
    requires mk.Valid() && MarkerFree(mk, d)
    ensures ManagedSpan(mk, d) == Ok(None)
  {
    hide Count;
  }
}
