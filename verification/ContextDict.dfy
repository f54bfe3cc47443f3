/** The contexts dictionary: keys unique, in insertion order. Setting an existing key keeps
    its place; a new key goes last; popping removes. Two dictionaries that hold the same
    entries in different orders are permutations of each other. */
module ContextDict {
  import opened CodexTypes

  datatype Entry = Entry(turn: string, context: Context)

  type Dict = seq<Entry>

  predicate Distinct(d: Dict) {
    forall i, j :: 0 <= i < j < |d| ==> d[i].turn != d[j].turn
  }

  /** Position of a key, or the length when absent. */
  function Find(d: Dict, turn: string): (i: nat)
    ensures i <= |d|
    ensures i < |d| ==> d[i].turn == turn
    ensures forall k :: 0 <= k < i ==> d[k].turn != turn
  {
    if d == [] || d[0].turn == turn then 0 else 1 + Find(d[1..], turn)
  }

  predicate Has(d: Dict, turn: string) {
    Find(d, turn) < |d|
  }

  function Get(d: Dict, turn: string): Context
    requires Has(d, turn)
  {
    d[Find(d, turn)].context
  }

  function Put(d: Dict, turn: string, context: Context): (r: Dict)
    requires Distinct(d)
    ensures Distinct(r)
    ensures forall e :: e in r <==> e == Entry(turn, context) || (e in d && e.turn != turn)
  {
    var i := Find(d, turn);
    var r := if i < |d| then d[i := Entry(turn, context)] else d + [Entry(turn, context)];
    assert r[i] == Entry(turn, context);
    assert forall e :: e in d && e.turn != turn ==> e in r by {
      forall e | e in d && e.turn != turn ensures e in r {
        var k :| 0 <= k < |d| && d[k] == e;
        assert r[k] == e;
      }
    }
    r
  }

  function Pop(d: Dict, turn: string): (r: Dict)
    requires Distinct(d)
    ensures Distinct(r)
    ensures forall e :: e in r <==> e in d && e.turn != turn
  {
    var i := Find(d, turn);
    if i == |d| then d
    else
      var r := d[..i] + d[i + 1..];
      assert forall e :: e in d && e.turn != turn ==> e in r by {
        forall e | e in d && e.turn != turn ensures e in r {
          var k :| 0 <= k < |d| && d[k] == e;
          assert k < i ==> r[k] == e;
          assert k > i ==> r[k - 1] == e;
        }
      }
      r
  }

  /** Size of the compact JSON text of a dictionary: braces, entries, commas. */
  function JsonSize(p: Policy, d: Dict): nat {
    2 + EntriesSize(p, d) + if d == [] then 0 else |d| - 1
  }

  function EntriesSize(p: Policy, d: Dict): nat {
    if d == [] then 0 else p.entrySize(d[0].turn, d[0].context) + EntriesSize(p, d[1..])
  }

  lemma {:induction false} EntriesSizeConcat(p: Policy, a: Dict, b: Dict)
    ensures EntriesSize(p, a + b) == EntriesSize(p, a) + EntriesSize(p, b)
  {
    if a == [] {
      assert a + b == b;
    } else {
      assert (a + b)[1..] == a[1..] + b;
      EntriesSizeConcat(p, a[1..], b);
    }
  }

  /** Popping never makes the serialised dictionary larger. */
  lemma PopShrinks(p: Policy, d: Dict, turn: string)
    requires Distinct(d)
    ensures JsonSize(p, Pop(d, turn)) <= JsonSize(p, d)
  {
    var i := Find(d, turn);
    if i < |d| {
      EntriesSizeRemove(p, d, i);
    }
  }

  // ---------- permutations ----------

  ghost predicate Permutation(a: Dict, b: Dict) {
    multiset(a) == multiset(b)
  }

  lemma PermutationMembers(a: Dict, b: Dict)
    requires Permutation(a, b)
    ensures |a| == |b|
    ensures forall e :: e in a <==> e in b
  {
    assert |multiset(a)| == |a| && |multiset(b)| == |b|;
    forall e
      ensures e in a <==> e in b
    {
      assert e in a <==> e in multiset(a);
      assert e in b <==> e in multiset(b);
    }
  }

  lemma UniqueEntry(d: Dict, e: Entry)
    requires Distinct(d) && e in d
    ensures Has(d, e.turn) && Get(d, e.turn) == e.context
  {
    var k :| 0 <= k < |d| && d[k] == e;
    assert Find(d, e.turn) <= k;
  }

  lemma PermutationLookup(a: Dict, b: Dict, turn: string)
    requires Distinct(a) && Distinct(b) && Permutation(a, b)
    ensures Has(a, turn) == Has(b, turn)
    ensures Has(a, turn) ==> Get(a, turn) == Get(b, turn)
  {
    PermutationMembers(a, b);
    if Has(a, turn) {
      UniqueEntry(b, a[Find(a, turn)]);
    }
    if Has(b, turn) {
      UniqueEntry(a, b[Find(b, turn)]);
    }
  }

  lemma SplitMultiset(d: Dict, i: nat)
    requires i < |d|
    ensures multiset(d) == multiset(d[..i] + d[i + 1..]) + multiset{d[i]}
  {
    assert d == d[..i] + ([d[i]] + d[i + 1..]);
  }

  lemma PermutationPut(a: Dict, b: Dict, turn: string, context: Context)
    requires Distinct(a) && Distinct(b) && Permutation(a, b)
    ensures Permutation(Put(a, turn, context), Put(b, turn, context))
  {
    PermutationLookup(a, b, turn);
    if Has(a, turn) {
      PutMultiset(a, turn, context);
      PutMultiset(b, turn, context);
    }
  }

  lemma PutMultiset(d: Dict, turn: string, context: Context)
    requires Distinct(d) && Has(d, turn)
    ensures multiset(Put(d, turn, context))
         == multiset(d) - multiset{Entry(turn, Get(d, turn))} + multiset{Entry(turn, context)}
  {
    var i := Find(d, turn);
    var r := Put(d, turn, context);
    SplitMultiset(d, i);
    SplitMultiset(r, i);
    assert r[..i] == d[..i] && r[i + 1..] == d[i + 1..];
  }

  lemma PermutationPop(a: Dict, b: Dict, turn: string)
    requires Distinct(a) && Distinct(b) && Permutation(a, b)
    ensures Permutation(Pop(a, turn), Pop(b, turn))
  {
    PermutationLookup(a, b, turn);
    if Has(a, turn) {
      PopMultiset(a, turn);
      PopMultiset(b, turn);
    }
  }

  lemma PopMultiset(d: Dict, turn: string)
    requires Distinct(d) && Has(d, turn)
    ensures multiset(Pop(d, turn)) == multiset(d) - multiset{Entry(turn, Get(d, turn))}
  {
    SplitMultiset(d, Find(d, turn));
  }

  /** The serialised size does not depend on the order. */
  lemma {:induction false} PermutationSize(p: Policy, a: Dict, b: Dict)
    requires Permutation(a, b)
    ensures JsonSize(p, a) == JsonSize(p, b)
  {
    PermutationMembers(a, b);
    EntriesSizePermutation(p, a, b);
  }

  lemma EntriesSizeRemove(p: Policy, d: Dict, i: nat)
    requires i < |d|
    ensures EntriesSize(p, d)
         == EntriesSize(p, d[..i] + d[i + 1..]) + p.entrySize(d[i].turn, d[i].context)
  {
    assert d == d[..i] + ([d[i]] + d[i + 1..]);
    EntriesSizeConcat(p, d[..i], [d[i]] + d[i + 1..]);
    EntriesSizeConcat(p, d[..i], d[i + 1..]);
    assert ([d[i]] + d[i + 1..])[1..] == d[i + 1..];
  }

  lemma PermutationRemove(a: Dict, b: Dict, i: nat, j: nat)
    requires Permutation(a, b) && i < |a| && j < |b| && a[i] == b[j]
    ensures Permutation(a[..i] + a[i + 1..], b[..j] + b[j + 1..])
  {
    SplitMultiset(a, i);
    SplitMultiset(b, j);
    calc {
      multiset(a[..i] + a[i + 1..]);
      multiset(a) - multiset{a[i]};
      multiset(b) - multiset{b[j]};
      multiset(b[..j] + b[j + 1..]);
    }
  }

  lemma {:induction false} EntriesSizePermutation(p: Policy, a: Dict, b: Dict)
    requires Permutation(a, b)
    ensures EntriesSize(p, a) == EntriesSize(p, b)
    decreases |a|
  {
    PermutationMembers(a, b);
    if a != [] {
      assert a[0] in b;
      var j :| 0 <= j < |b| && b[j] == a[0];
      PermutationRemove(a, b, 0, j);
      EntriesSizeRemove(p, a, 0);
      EntriesSizeRemove(p, b, j);
      EntriesSizePermutation(p, a[..0] + a[1..], b[..j] + b[j + 1..]);
    }
  }

  // ---------- canonical order ----------

  /** Python's string order: code point by code point, a proper prefix first. */
  predicate AtMost(a: string, b: string) {
    a == [] || (b != [] && (a[0] < b[0] || (a[0] == b[0] && AtMost(a[1..], b[1..]))))
  }

  predicate Sorted(d: Dict) {
    forall i :: 0 <= i < |d| - 1 ==> AtMost(d[i].turn, d[i + 1].turn)
  }

  function Insert(e: Entry, d: Dict): (r: Dict)
    ensures multiset(r) == multiset(d) + multiset{e}
  {
    if d == [] || AtMost(e.turn, d[0].turn) then [e] + d
    else
      assert d == [d[0]] + d[1..];
      [d[0]] + Insert(e, d[1..])
  }

  /** The dictionary read back from JSON text written with sorted keys. */
  function Canonical(d: Dict): (r: Dict)
    ensures multiset(r) == multiset(d)
  {
    if d == [] then []
    else
      assert d == [d[0]] + d[1..];
      Insert(d[0], Canonical(d[1..]))
  }

  lemma {:induction false} AtMostTotal(a: string, b: string)
    ensures AtMost(a, b) || AtMost(b, a)
  {
    if a != [] && b != [] && a[0] == b[0] {
      AtMostTotal(a[1..], b[1..]);
    }
  }

  lemma {:induction false} InsertSorted(e: Entry, d: Dict)
    requires Sorted(d)
    ensures Sorted(Insert(e, d))
  {
    if d != [] && !AtMost(e.turn, d[0].turn) {
      AtMostTotal(e.turn, d[0].turn);
      InsertSorted(e, d[1..]);
      var rest := Insert(e, d[1..]);
      assert rest[0] == e || rest[0] == d[1];
    }
  }

  /** Saving and reading back leaves a dictionary unchanged exactly when it was sorted. */
  lemma {:induction false} CanonicalIffSorted(d: Dict)
    ensures Sorted(Canonical(d))
    ensures Canonical(d) == d <==> Sorted(d)
  {
    if d != [] {
      CanonicalIffSorted(d[1..]);
      InsertSorted(d[0], Canonical(d[1..]));
      if Sorted(d) {
        assert Sorted(d[1..]);
        assert d == [d[0]] + d[1..];
      }
    }
  }

  lemma {:induction false} InsertDistinct(e: Entry, d: Dict)
    requires Distinct(d) && forall x :: x in d ==> x.turn != e.turn
    ensures Distinct(Insert(e, d))
  {
    if d != [] && !AtMost(e.turn, d[0].turn) {
      InsertDistinct(e, d[1..]);
      var rest := Insert(e, d[1..]);
      assert Permutation(rest, d[1..] + [e]);
      PermutationMembers(rest, d[1..] + [e]);
      forall k | 0 <= k < |rest|
        ensures rest[k].turn != d[0].turn
      {
        assert rest[k] in d[1..] + [e];
      }
    }
  }

  lemma {:induction false} CanonicalDistinct(d: Dict)
    requires Distinct(d)
    ensures Distinct(Canonical(d))
  {
    if d != [] {
      CanonicalDistinct(d[1..]);
      PermutationMembers(Canonical(d[1..]), d[1..]);
      InsertDistinct(d[0], Canonical(d[1..]));
    }
  }
}
