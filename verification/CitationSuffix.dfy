/** What may follow a capture block: nothing but blank lines and one memory citation. */
module CitationSuffix {
  import opened Wrappers

  /** The size of a string in UTF-8, or None when it has none, and the canonical UUID check. */
  datatype Text = Text(utf8Size: string -> Option<nat>, canonicalUuid: string -> bool)

  const OPENING := ["<oai-mem-citation>", "<citation_entries>"]
  const MIDDLE := ["</citation_entries>", "<rollout_ids>"]
  const CLOSING := ["</rollout_ids>", "</oai-mem-citation>"]

  predicate CitationLine(text: Text, line: string) {
    && line != ""
    && text.utf8Size(line).Some? && text.utf8Size(line).value <= 4096
    && forall i :: 0 <= i < |line| ==> !((line[i] as int) < 32 || (line[i] as int) == 127)
  }

  /** Text of at most 4096 bytes without control characters. */
  ghost predicate PlainText(text: Text, line: string) {
    && line != "" && (exists n :: text.utf8Size(line) == Some(n) && n <= 4096)
    && forall i :: 0 <= i < |line| ==> line[i] >= ' ' && line[i] != '\U{7f}'
  }

  lemma CitationLineMeans(text: Text, line: string)
    ensures CitationLine(text, line) <==> PlainText(text, line)
  {
  }

  /** At most 100 citations, then at most 100 rollout ids, each list between its tags. */
  ghost predicate Citation(text: Text, lines: seq<string>, citations: seq<string>, rollouts: seq<string>) {
    && lines == OPENING + citations + MIDDLE + rollouts + CLOSING
    && |citations| <= 100 && |rollouts| <= 100
    && (forall i :: 0 <= i < |citations| ==> PlainText(text, citations[i]) && citations[i] != MIDDLE[0])
    && (forall i :: 0 <= i < |rollouts| ==> text.canonicalUuid(rollouts[i]))
  }

  predicate AllBlank(lines: seq<string>) {
    forall i :: 0 <= i < |lines| ==> lines[i] == ""
  }

  /** The grammar of a suffix, as the shape of the whole text. */
  ghost predicate Suffix(text: Text, lines: seq<string>) {
    && |lines| <= 512
    && (AllBlank(lines) || exists lead, body, trail, citations, rollouts ::
          Shape(text, lines, lead, body, trail, citations, rollouts))
  }

  ghost predicate Shape(text: Text, lines: seq<string>, lead: seq<string>, body: seq<string>, trail: seq<string>,
                        citations: seq<string>, rollouts: seq<string>) {
    lines == lead + body + trail && AllBlank(lead) && AllBlank(trail) && Citation(text, body, citations, rollouts)
  }

  /** Trimming blank lines leaves the citation, and nothing else. */
  lemma TrimmedIsBody(text: Text, lines: seq<string>, lower: nat, upper: nat,
                      lead: seq<string>, body: seq<string>, trail: seq<string>,
                      citations: seq<string>, rollouts: seq<string>)
    requires lower < upper <= |lines| && lines[lower] != "" && lines[upper - 1] != ""
    requires AllBlank(lines[..lower]) && AllBlank(lines[upper..])
    requires Shape(text, lines, lead, body, trail, citations, rollouts)
    ensures lines[lower..upper] == body
  {
    assert body[0] == OPENING[0] && body[|body| - 1] == CLOSING[1];
    assert lines[|lead|] == body[0] && lines[|lead| + |body| - 1] == body[|body| - 1];
    var last := |lead| + |body|;
    assert forall i :: 0 <= i < |lead| ==> lines[i] == lead[i] == "";
    assert forall i :: 0 <= i < lower ==> lines[i] == lines[..lower][i] == "";
    assert forall i :: last <= i < |lines| ==> lines[i] == trail[i - last] == "";
    assert forall i :: upper <= i < |lines| ==> lines[i] == lines[upper..][i - upper] == "";
    assert lower == |lead| && upper == last;
  }

  /** The first closing tag is where no line before it is one. */
  lemma FirstTag(body: seq<string>, tag: string, end: nat, at: nat)
    requires 2 <= end < |body| && 2 <= at < |body| && body[end] == tag && body[at] == tag
    requires (forall i :: 2 <= i < end ==> body[i] != tag) && (forall i :: 2 <= i < at ==> body[i] != tag)
    ensures end == at
  {
  }

  /** The first closing tag of the citations decides where they end. */
  lemma CitationSplits(text: Text, body: seq<string>, end: nat, citations: seq<string>, rollouts: seq<string>)
    requires Citation(text, body, citations, rollouts)
    requires 2 <= end < |body| && body[end] == MIDDLE[0]
    requires forall i :: 2 <= i < end ==> body[i] != MIDDLE[0]
    ensures end == 2 + |citations| && end + 3 <= |body|
    ensures citations == body[2..end] && rollouts == body[end + 2..|body| - 2]
    ensures body[end + 1] == MIDDLE[1]
  {
    var at := 2 + |citations|;
    assert |OPENING| == 2 && |MIDDLE| == 2 && |CLOSING| == 2;
    hide PlainText, CitationLine, OPENING, MIDDLE, CLOSING;
    assert body[at] == MIDDLE[0] && body[at + 1] == MIDDLE[1];
    assert forall i :: 2 <= i < at ==> body[i] == citations[i - 2] && body[i] != MIDDLE[0];
    FirstTag(body, MIDDLE[0], end, at);
    assert citations == body[2..end];
    assert rollouts == body[end + 2..|body| - 2];
  }

  lemma CitationTags(text: Text, body: seq<string>, citations: seq<string>, rollouts: seq<string>)
    requires Citation(text, body, citations, rollouts)
    ensures |body| >= 6 && body[0] == OPENING[0] && body[1] == OPENING[1]
    ensures body[|body| - 2] == CLOSING[0] && body[|body| - 1] == CLOSING[1]
    ensures 2 + |citations| < |body| && body[2 + |citations|] == MIDDLE[0]
  {
    hide PlainText;
  }

  /** Is there any citation whose text is this one? */
  method ValidBody(text: Text, suffix: seq<string>) returns (valid: bool)
    requires suffix != []
    ensures valid <==> exists citations, rollouts :: Citation(text, suffix, citations, rollouts)
  {
    assert |OPENING| == 2 && |MIDDLE| == 2 && |CLOSING| == 2;
    hide Citation, PlainText, CitationLine, OPENING, MIDDLE, CLOSING;
    forall citations, rollouts | Citation(text, suffix, citations, rollouts)
      ensures |suffix| >= 6 && suffix[0] == OPENING[0] && suffix[1] == OPENING[1]
      ensures suffix[|suffix| - 2] == CLOSING[0] && suffix[|suffix| - 1] == CLOSING[1]
      ensures exists at :: 2 <= at < |suffix| && suffix[at] == MIDDLE[0]
    {
      CitationTags(text, suffix, citations, rollouts);
    }
    if |suffix| < 6 || suffix[0] != OPENING[0] || suffix[1] != OPENING[1] || suffix[|suffix| - 1] != CLOSING[1] {
      return false;
    }
    var end := 2;
    while end < |suffix| && suffix[end] != MIDDLE[0]
      invariant 2 <= end <= |suffix|
      invariant forall i :: 2 <= i < end ==> suffix[i] != MIDDLE[0]
    {
      end := end + 1;
    }
    if end == |suffix| {
      return false;
    }
    forall citations, rollouts | Citation(text, suffix, citations, rollouts)
      ensures end + 3 <= |suffix| && suffix[end + 1] == MIDDLE[1]
      ensures citations == suffix[2..end] && rollouts == suffix[end + 2..|suffix| - 2]
    {
      CitationSplits(text, suffix, end, citations, rollouts);
    }
    if end + 3 > |suffix| || suffix[end + 1] != MIDDLE[1] || suffix[|suffix| - 2] != CLOSING[0] {
      return false;
    }
    TagsApart(suffix, end);
    var citationLines := suffix[2..end];
    var rolloutLines := suffix[end + 2..|suffix| - 2];
    valid := |citationLines| <= 100 && |rolloutLines| <= 100
      && (forall i :: 0 <= i < |citationLines| ==> CitationLine(text, citationLines[i]))
      && (forall i :: 0 <= i < |rolloutLines| ==> text.canonicalUuid(rolloutLines[i]));
    CitationIs(text, suffix, end, citationLines, rolloutLines);
  }

  /** The opening tag of the rollout list and its closing tag are different lines. */
  lemma TagsApart(suffix: seq<string>, end: nat)
    requires 2 <= end && end + 3 <= |suffix| && suffix[end + 1] == MIDDLE[1] && suffix[|suffix| - 2] == CLOSING[0]
    ensures end + 2 <= |suffix| - 2
  {
    assert MIDDLE[1][1] != CLOSING[0][1];
  }

  lemma CitationIs(text: Text, suffix: seq<string>, end: nat, citations: seq<string>, rollouts: seq<string>)
    requires |suffix| >= 6 && 2 <= end && end + 2 <= |suffix| - 2
    requires suffix[0] == OPENING[0] && suffix[1] == OPENING[1]
    requires suffix[|suffix| - 2] == CLOSING[0] && suffix[|suffix| - 1] == CLOSING[1]
    requires suffix[end] == MIDDLE[0] && suffix[end + 1] == MIDDLE[1]
    requires forall i :: 2 <= i < end ==> suffix[i] != MIDDLE[0]
    requires citations == suffix[2..end] && rollouts == suffix[end + 2..|suffix| - 2]
    ensures Citation(text, suffix, citations, rollouts) <==>
              (&& |citations| <= 100 && |rollouts| <= 100
               && (forall i :: 0 <= i < |citations| ==> CitationLine(text, citations[i]))
               && (forall i :: 0 <= i < |rollouts| ==> text.canonicalUuid(rollouts[i])))
  {
    assert |OPENING| == 2 && |MIDDLE| == 2 && |CLOSING| == 2;
    hide PlainText, CitationLine, OPENING, MIDDLE, CLOSING;
    assert suffix == OPENING + citations + MIDDLE + rollouts + CLOSING;
    forall i | 0 <= i < |citations|
      ensures CitationLine(text, citations[i]) <==> PlainText(text, citations[i])
    {
      CitationLineMeans(text, citations[i]);
    }
  }

  method ValidSuffix(text: Text, lines: seq<string>) returns (valid: bool)
    ensures valid <==> Suffix(text, lines)
  {
    hide Citation, PlainText, CitationLine;
    if |lines| > 512 {
      return false;
    }
    var lower, upper := 0, |lines|;
    while lower < upper && lines[lower] == ""
      invariant 0 <= lower <= upper == |lines|
      invariant AllBlank(lines[..lower])
    {
      lower := lower + 1;
    }
    while upper > lower && lines[upper - 1] == ""
      invariant lower <= upper <= |lines|
      invariant lower < |lines| ==> lower < upper ==> lines[lower] != ""
      invariant AllBlank(lines[upper..])
    {
      upper := upper - 1;
    }
    var suffix := lines[lower..upper];
    if suffix == [] {
      assert lines == lines[..lower] + lines[upper..];
      return true;
    }
    valid := ValidBody(text, suffix);
    if valid {
      ghost var citations, rollouts :| Citation(text, suffix, citations, rollouts);
      assert lines == lines[..lower] + suffix + lines[upper..];
      assert Shape(text, lines, lines[..lower], suffix, lines[upper..], citations, rollouts);
    }
    forall lead, body, trail, citations, rollouts | Shape(text, lines, lead, body, trail, citations, rollouts)
      ensures Citation(text, suffix, citations, rollouts)
    {
      TrimmedIsBody(text, lines, lower, upper, lead, body, trail, citations, rollouts);
    }
  }
}
