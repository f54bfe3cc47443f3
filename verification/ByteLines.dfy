/** Bytes, and the newline split of a byte string: the complete lines (each with its
    line feed) and the unterminated tail. */
module ByteLines {

  newtype byte = b: int | 0 <= b < 256

  type Bytes = seq<byte>

  const LF: byte := 10

  predicate NoLf(s: Bytes) {
    forall k :: 0 <= k < |s| ==> s[k] != LF
  }

  /** Index of the first line feed, or the length when there is none. */
  function IndexOfLf(s: Bytes): (i: nat)
    ensures i <= |s|
    ensures i < |s| ==> s[i] == LF
    ensures forall k :: 0 <= k < i ==> s[k] != LF
  {
    if s == [] || s[0] == LF then 0 else 1 + IndexOfLf(s[1..])
  }

  function Lines(s: Bytes): (lines: seq<Bytes>)
    decreases |s|
  {
    var i := IndexOfLf(s);
    if i == |s| then [] else [s[..i + 1]] + Lines(s[i + 1..])
  }

  function Tail(s: Bytes): (tail: Bytes)
    decreases |s|
  {
    var i := IndexOfLf(s);
    if i == |s| then s else Tail(s[i + 1..])
  }

  predicate IsLine(line: Bytes) {
    line != [] && line[|line| - 1] == LF && NoLf(line[..|line| - 1])
  }

  function Flatten(lines: seq<Bytes>): Bytes {
    if lines == [] then [] else lines[0] + Flatten(lines[1..])
  }

  lemma SplitFirst(s: Bytes, i: nat)
    requires i < |s| && s[i] == LF && forall k :: 0 <= k < i ==> s[k] != LF
    ensures IndexOfLf(s) == i
    ensures Lines(s) == [s[..i + 1]] + Lines(s[i + 1..])
    ensures Tail(s) == Tail(s[i + 1..])
  {
  }

  lemma NoLfSplit(s: Bytes)
    requires NoLf(s)
    ensures IndexOfLf(s) == |s| && Lines(s) == [] && Tail(s) == s
  {
  }

  /** The split of a concatenation: the tail of the first part joins the second. */
  lemma {:induction false} SplitConcat(a: Bytes, b: Bytes)
    ensures Lines(a + b) == Lines(a) + Lines(Tail(a) + b)
    ensures Tail(a + b) == Tail(Tail(a) + b)
    decreases |a|
  {
    var i := IndexOfLf(a);
    if i < |a| {
      var first, rest := a[..i + 1], a[i + 1..];
      SplitFirst(a + b, i);
      assert (a + b)[..i + 1] == first && (a + b)[i + 1..] == rest + b;
      SplitConcat(rest, b);
      assert Lines(a + b) == [first] + (Lines(rest) + Lines(Tail(rest) + b));
    }
  }

  /** A part that ends on a line boundary splits off. */
  lemma SplitAtBoundary(a: Bytes, b: Bytes)
    requires Tail(a) == []
    ensures Lines(a + b) == Lines(a) + Lines(b)
    ensures Tail(a + b) == Tail(b)
  {
    SplitConcat(a, b);
    assert [] + b == b;
  }

  /** The lines of a prefix are the first lines of the whole. */
  lemma LinesOfPrefix(s: Bytes, n: nat)
    requires n <= |s|
    ensures Lines(s[..n]) <= Lines(s)
  {
    assert s == s[..n] + s[n..];
    SplitConcat(s[..n], s[n..]);
  }

  /** Lines and tail together are the bytes, in order, and only lines hold a line feed. */
  lemma {:induction false} SplitIsPartition(s: Bytes)
    ensures Flatten(Lines(s)) + Tail(s) == s
    ensures NoLf(Tail(s))
    ensures forall k :: 0 <= k < |Lines(s)| ==> IsLine(Lines(s)[k])
    decreases |s|
  {
    hide IsLine;
    var i := IndexOfLf(s);
    if i < |s| {
      var first, rest := s[..i + 1], s[i + 1..];
      SplitIsPartition(rest);
      SplitFirst(s, i);
      FirstLine(s);
      assert s == first + rest;
    }
  }

  lemma {:induction false} EndsInLf(a: Bytes)
    requires a != [] && a[|a| - 1] == LF
    ensures Tail(a) == []
    decreases |a|
  {
    var i := IndexOfLf(a);
    if i + 1 < |a| {
      EndsInLf(a[i + 1..]);
    }
  }

  lemma FirstLine(s: Bytes)
    requires IndexOfLf(s) < |s|
    ensures IsLine(s[..IndexOfLf(s) + 1])
  {
    hide IndexOfLf;
    var i := IndexOfLf(s);
    assert s[..i + 1][..i] == s[..i];
  }

  lemma LineAlone(line: Bytes)
    requires IsLine(line)
    ensures Lines(line) == [line] && Tail(line) == []
  {
    var i := |line| - 1;
    assert line[..i + 1] == line && line[i + 1..] == [];
    assert forall k :: 0 <= k < i ==> line[..i][k] == line[k];
    SplitFirst(line, i);
    assert Lines([]) == [];
  }

  /** Bytes that end an unfinished line complete exactly that line. */
  lemma LineCompleted(prefix: Bytes, rest: Bytes)
    requires IsLine(rest)
    ensures IsLine(Tail(prefix) + rest)
    ensures Lines(prefix + rest) == Lines(prefix) + [Tail(prefix) + rest]
    ensures Tail(prefix + rest) == []
  {
    hide Lines, Tail, IndexOfLf, Flatten;
    var whole := Tail(prefix) + rest;
    SplitIsPartition(prefix);
    SplitConcat(prefix, rest);
    assert whole[..|whole| - 1] == Tail(prefix) + rest[..|rest| - 1];
    LineAlone(whole);
  }

  lemma JoinSlices<T>(prefix: seq<T>, data: seq<T>, i: nat, k: nat)
    requires i + k <= |data|
    ensures prefix + data[..i] + data[i..][..k] == prefix + data[..i + k]
  {
  }
}
