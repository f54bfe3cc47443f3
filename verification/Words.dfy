/** strip(), split() and the collapsing of white space, for any notion of white space that
    contains the space character. */
module Words {

  type Spaces = char -> bool

  predicate Blank(space: Spaces, s: string) {
    forall i :: 0 <= i < |s| ==> space(s[i])
  }

  function LStrip(space: Spaces, s: string): string {
    if s != [] && space(s[0]) then LStrip(space, s[1..]) else s
  }

  function RStrip(space: Spaces, s: string): string
    decreases |s|
  {
    if s != [] && space(s[|s| - 1]) then RStrip(space, s[..|s| - 1]) else s
  }

  function Strip(space: Spaces, s: string): string {
    RStrip(space, LStrip(space, s))
  }

  /** Nothing to strip. */
  predicate Trim(space: Spaces, s: string) {
    s != [] && !space(s[0]) && !space(s[|s| - 1])
  }

  /** The length of the first word. */
  function WordLength(space: Spaces, s: string): (n: nat)
    ensures n <= |s|
    ensures forall i :: 0 <= i < n ==> !space(s[i])
    ensures n < |s| ==> space(s[n])
  {
    if s != [] && !space(s[0]) then 1 + WordLength(space, s[1..]) else 0
  }

  predicate IsWord(space: Spaces, w: string) {
    w != [] && forall i :: 0 <= i < |w| ==> !space(w[i])
  }

  function Split(space: Spaces, s: string): (words: seq<string>)
    ensures forall w :: w in words ==> IsWord(space, w)
    decreases |s|
  {
    if s == [] then []
    else if space(s[0]) then Split(space, s[1..])
    else
      var n := WordLength(space, s);
      assert n > 0;
      [s[..n]] + Split(space, s[n..])
  }

  function Join(words: seq<string>): string {
    if words == [] then ""
    else if |words| == 1 then words[0]
    else words[0] + " " + Join(words[1..])
  }

  function Collapse(space: Spaces, s: string): string {
    Join(Split(space, s))
  }

  lemma {:induction false} WordLengthIs(space: Spaces, w: string, rest: string)
    requires IsWord(space, w) && (rest == [] || space(rest[0]))
    ensures WordLength(space, w + rest) == |w|
  {
    var s := w + rest;
    assert forall i :: 0 <= i < |w| ==> s[i] == w[i];
    assert rest != [] ==> s[|w|] == rest[0];
    assert WordLength(space, s) >= |w| && (rest != [] ==> WordLength(space, s) <= |w|);
  }

  lemma {:induction false} SplitJoin(space: Spaces, words: seq<string>)
    requires space(' ') && forall w :: w in words ==> IsWord(space, w)
    ensures Split(space, Join(words)) == words
  {
    if words != [] {
      var w := words[0];
      assert IsWord(space, w);
      var rest := if |words| == 1 then "" else " " + Join(words[1..]);
      var s := Join(words);
      assert s == w + rest && s[0] == w[0] && !space(w[0]);
      WordLengthIs(space, w, rest);
      assert s[..|w|] == w && s[|w|..] == rest;
      SplitJoin(space, words[1..]);
      if |words| > 1 {
        assert rest[1..] == Join(words[1..]);
      }
    }
  }

  lemma {:induction false} JoinTrim(space: Spaces, words: seq<string>)
    requires words != [] && forall w :: w in words ==> IsWord(space, w)
    ensures Trim(space, Join(words))
  {
    assert IsWord(space, words[0]);
    if |words| > 1 {
      JoinTrim(space, words[1..]);
    }
  }

  lemma StripTrim(space: Spaces, s: string)
    requires Trim(space, s)
    ensures Strip(space, s) == s
  {
  }

  /** Collapsed text stays as it is, and has nothing to strip unless it is empty. */
  lemma CollapseSettles(space: Spaces, s: string)
    requires space(' ')
    ensures Collapse(space, Collapse(space, s)) == Collapse(space, s)
    ensures Collapse(space, s) != [] ==> Trim(space, Collapse(space, s))
  {
    SplitJoin(space, Split(space, s));
    if Split(space, s) != [] {
      JoinTrim(space, Split(space, s));
    }
  }
}
