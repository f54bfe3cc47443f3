/** The visible branch of an exported conversation: from the newest leaf up to a root. */
module ConversationBranch {
  import opened Wrappers

  type Id = string

  /** One entry of the mapping: either malformed, or with an own id, links and a finite time. */
  datatype RawNode =
    | Broken
    | RawNode(id: Id, parent: Option<Id>, children: seq<Id>, time: Option<real>)

  type Mapping = map<Id, RawNode>

  datatype BranchError = NodeLimit | Malformed | Cycle | Orphan

  // ---------- the order of leaves ----------

  /** Strings compare by their first different character, a prefix before what it begins. */
  predicate LexLess(a: string, b: string) {
    if b == [] then false
    else if a == [] then true
    else if a[0] != b[0] then a[0] < b[0]
    else LexLess(a[1..], b[1..])
  }

  lemma {:induction false} LexTotal(a: string, b: string)
    ensures a == b || LexLess(a, b) || LexLess(b, a)
    ensures !(LexLess(a, b) && LexLess(b, a)) && !LexLess(a, a)
  {
    if a != [] {
      LexTotal(a[1..], a[1..]);
      if b != [] && a[0] == b[0] {
        LexTotal(a[1..], b[1..]);
        assert a == [a[0]] + a[1..] && b == [b[0]] + b[1..];
      }
    }
  }

  lemma {:induction false} LexTransitive(a: string, b: string, c: string)
    requires LexLess(a, b) && LexLess(b, c)
    ensures LexLess(a, c)
  {
    if a != [] && a[0] == b[0] == c[0] {
      LexTransitive(a[1..], b[1..], c[1..]);
    }
  }

  /** Nodes with a time come after those without, later times after earlier, then larger ids. */
  predicate Before(nodes: Mapping, a: Id, b: Id)
    requires WellFormed(nodes) && a in nodes && b in nodes
  {
    var s, t := nodes[a].time, nodes[b].time;
    if s.None? != t.None? then s.None?
    else if s.Some? && s.value != t.value then s.value < t.value
    else LexLess(a, b)
  }

  ghost predicate WellFormed(nodes: Mapping) {
    forall id :: id in nodes ==> nodes[id].RawNode? && nodes[id].id == id
  }

  lemma BeforeTotal(nodes: Mapping, a: Id, b: Id)
    requires WellFormed(nodes) && a in nodes && b in nodes
    ensures a == b || Before(nodes, a, b) || Before(nodes, b, a)
    ensures !(Before(nodes, a, b) && Before(nodes, b, a))
  {
    LexTotal(a, b);
  }

  lemma BeforeTransitive(nodes: Mapping, a: Id, b: Id, c: Id)
    requires WellFormed(nodes) && a in nodes && b in nodes && c in nodes
    requires Before(nodes, a, b) && Before(nodes, b, c)
    ensures Before(nodes, a, c)
  {
    if LexLess(a, b) && LexLess(b, c) {
      LexTransitive(a, b, c);
    }
  }

  /** Childless nodes, or all nodes when none is childless. */
  function Leaves(nodes: Mapping): set<Id> {
    var childless := set id | id in nodes && nodes[id].RawNode? && nodes[id].children == [];
    if childless != {} then childless else nodes.Keys
  }

  /** The maximal leaf. */
  ghost predicate IsLeaf(nodes: Mapping, leaf: Id)
    requires WellFormed(nodes)
  {
    && leaf in Leaves(nodes)
    && forall other :: other in Leaves(nodes) && other != leaf ==> other in nodes && leaf in nodes && Before(nodes, other, leaf)
  }

  method NewestLeaf(nodes: Mapping) returns (leaf: Id)
    requires WellFormed(nodes) && nodes != map[]
    ensures leaf in nodes && IsLeaf(nodes, leaf)
  {
    var left := Leaves(nodes);
    leaf :| leaf in left;
    left := left - {leaf};
    hide Before, LexLess;
    while left != {}
      invariant left <= Leaves(nodes) && leaf in Leaves(nodes) && leaf in nodes
      invariant forall other :: other in Leaves(nodes) - left && other != leaf ==> other in nodes && Before(nodes, other, leaf)
      decreases |left|
    {
      var id :| id in left;
      left := left - {id};
      BeforeTotal(nodes, id, leaf);
      if Before(nodes, leaf, id) {
        forall other | other in Leaves(nodes) - left && other != id
          ensures Before(nodes, other, id)
        {
          if other != leaf {
            BeforeTransitive(nodes, other, leaf, id);
          }
        }
        leaf := id;
      }
    }
  }

  lemma OneLeaf(nodes: Mapping, a: Id, b: Id)
    requires WellFormed(nodes) && IsLeaf(nodes, a) && IsLeaf(nodes, b)
    ensures a == b
  {
    if a != b {
      BeforeTotal(nodes, a, b);
    }
  }

  // ---------- the walk to the root ----------

  /** The parent exists and lists the node among its children. */
  predicate Linked(nodes: Mapping, id: Id, parent: Id) {
    && id in nodes && parent in nodes && nodes[id].RawNode? && nodes[parent].RawNode?
    && nodes[id].parent == Some(parent) && id in nodes[parent].children
  }

  /** A repeat-free walk upwards from the leaf, with both links agreeing at every step. */
  ghost predicate Walk(nodes: Mapping, leaf: Id, up: seq<Id>) {
    && up != [] && up[0] == leaf
    && (forall i :: 0 <= i < |up| ==> up[i] in nodes)
    && (forall i :: 0 <= i < |up| - 1 ==> Linked(nodes, up[i], up[i + 1]))
    && (forall i, j :: 0 <= i < j < |up| ==> up[i] != up[j])
  }

  /** How a walk that cannot go on ends: at a root, at a node seen before, or at a broken link. */
  ghost predicate Ends(nodes: Mapping, leaf: Id, up: seq<Id>, error: Option<BranchError>)
    requires WellFormed(nodes)
  {
    && Walk(nodes, leaf, up)
    && var parent := nodes[up[|up| - 1]].parent;
    match error
    case None => parent.None?
    case Some(Cycle) => parent.Some? && Linked(nodes, up[|up| - 1], parent.value) && parent.value in up
    case Some(Orphan) => parent.Some? && !Linked(nodes, up[|up| - 1], parent.value)
    case Some(_) => false
  }

  /** Two walks from the same leaf: one continues the other. */
  lemma {:induction false} WalksAgree(nodes: Mapping, leaf: Id, a: seq<Id>, b: seq<Id>, n: nat)
    requires Walk(nodes, leaf, a) && Walk(nodes, leaf, b) && n <= |a| && n <= |b|
    ensures a[..n] == b[..n]
  {
    if n > 1 {
      WalksAgree(nodes, leaf, a, b, n - 1);
      assert a[n - 2] == a[..n - 1][n - 2] == b[..n - 1][n - 2] == b[n - 2];
      assert Linked(nodes, a[n - 2], a[n - 2 + 1]) && Linked(nodes, b[n - 2], b[n - 2 + 1]);
      assert a[..n] == a[..n - 1] + [a[n - 1]] && b[..n] == b[..n - 1] + [b[n - 1]];
    }
  }

  lemma EndedWalkIsLongest(nodes: Mapping, leaf: Id, a: seq<Id>, error: Option<BranchError>, b: seq<Id>)
    requires WellFormed(nodes) && Ends(nodes, leaf, a, error) && Walk(nodes, leaf, b)
    ensures |b| <= |a|
  {
    if |b| > |a| {
      WalksAgree(nodes, leaf, a, b, |a|);
      assert forall i :: 0 <= i < |a| ==> a[..|a|][i] == a[i] && b[..|a|][i] == b[i];
      StepsOn(nodes, leaf, b, |a| - 1);
    }
  }

  /** A longer walk goes on to a linked parent that it has not seen. */
  lemma StepsOn(nodes: Mapping, leaf: Id, up: seq<Id>, last: nat)
    requires WellFormed(nodes) && Walk(nodes, leaf, up) && last < |up| - 1
    ensures nodes[up[last]].parent == Some(up[last + 1]) && Linked(nodes, up[last], up[last + 1])
    ensures forall i :: 0 <= i <= last ==> up[i] != up[last + 1]
  {
    assert Linked(nodes, up[last], up[last + 1]);
  }

  /** The walk and how it ends are determined: there is one outcome for every mapping. */
  lemma OneOutcome(nodes: Mapping, leaf: Id, a: seq<Id>, e: Option<BranchError>, b: seq<Id>, f: Option<BranchError>)
    requires WellFormed(nodes) && Ends(nodes, leaf, a, e) && Ends(nodes, leaf, b, f)
    ensures a == b && e == f
  {
    EndedWalkIsLongest(nodes, leaf, a, e, b);
    EndedWalkIsLongest(nodes, leaf, b, f, a);
    WalksAgree(nodes, leaf, a, b, |a|);
    assert a[..|a|] == a && b[..|b|] == b;
  }

  function Reverse(s: seq<Id>): (r: seq<Id>)
    ensures |r| == |s| && forall i :: 0 <= i < |s| ==> r[i] == s[|s| - 1 - i]
  {
    if s == [] then [] else Reverse(s[1..]) + [s[0]]
  }

  /** A root-to-leaf path without repeats whose parent and child links agree at every step. */
  ghost predicate IsBranch(nodes: Mapping, branch: seq<Id>)
    requires WellFormed(nodes)
  {
    && branch != [] && IsLeaf(nodes, branch[|branch| - 1])
    && (forall i :: 0 <= i < |branch| ==> branch[i] in nodes)
    && nodes[branch[0]].parent.None?
    && (forall i :: 0 <= i < |branch| - 1 ==> Linked(nodes, branch[i + 1], branch[i]))
    && (forall i, j :: 0 <= i < j < |branch| ==> branch[i] != branch[j])
  }

  lemma ReversedWalkIsBranch(nodes: Mapping, leaf: Id, up: seq<Id>)
    requires WellFormed(nodes) && IsLeaf(nodes, leaf) && Ends(nodes, leaf, up, None)
    ensures IsBranch(nodes, Reverse(up))
  {
    var branch := Reverse(up);
    var n := |up|;
    forall i | 0 <= i < n - 1
      ensures Linked(nodes, branch[i + 1], branch[i])
    {
      assert Linked(nodes, up[n - 2 - i], up[n - 2 - i + 1]);
    }
  }

  lemma BranchIsWalk(nodes: Mapping, branch: seq<Id>)
    requires WellFormed(nodes) && IsBranch(nodes, branch)
    ensures Ends(nodes, branch[|branch| - 1], Reverse(branch), None)
  {
    var up := Reverse(branch);
    var n := |branch|;
    forall i | 0 <= i < n - 1
      ensures Linked(nodes, up[i], up[i + 1])
    {
      assert Linked(nodes, branch[n - 2 - i + 1], branch[n - 2 - i]);
    }
  }

  lemma WalkFits(nodes: Mapping, leaf: Id, up: seq<Id>)
    requires Walk(nodes, leaf, up)
    ensures |up| <= |nodes|
  {
    var ids := set i | 0 <= i < |up| :: up[i];
    DistinctCount(up);
    assert ids <= nodes.Keys;
    SubsetCount(ids, nodes.Keys);
    assert |nodes.Keys| == |nodes|;
  }

  lemma {:induction false} DistinctCount(s: seq<Id>)
    requires forall i, j :: 0 <= i < j < |s| ==> s[i] != s[j]
    ensures |set i | 0 <= i < |s| :: s[i]| == |s|
    decreases |s|
  {
    if s != [] {
      var last := |s| - 1;
      DistinctCount(s[..last]);
      assert (set i | 0 <= i < |s| :: s[i]) == (set i | 0 <= i < last :: s[..last][i]) + {s[last]};
    }
  }

  lemma {:induction false} SubsetCount(a: set<Id>, b: set<Id>)
    requires a <= b
    ensures |a| <= |b|
  {
    assert |b| == |a| + |b - a| by {
      assert b == a + (b - a);
    }
  }

  /** The branch of a mapping. It is accepted exactly when there is one, and the error says how the
      walk from the newest leaf ends. */
  method Branch(nodes: Mapping, maxNodes: nat) returns (r: Result<seq<Id>, BranchError>)
    ensures r == Err(NodeLimit) <==> |nodes| > maxNodes
    ensures r == Err(Malformed) <==>
              |nodes| <= maxNodes
              && (nodes == map[] || exists id :: id in nodes && (nodes[id].Broken? || nodes[id].id != id))
    ensures |nodes| <= maxNodes && nodes != map[] && WellFormed(nodes) ==>
              && (r.Ok? ==> IsBranch(nodes, r.value))
              && (r.Ok? <==> exists branch :: IsBranch(nodes, branch))
              && (r.Err? ==> exists leaf, up :: IsLeaf(nodes, leaf) && Ends(nodes, leaf, up, Some(r.error)))
  {
    if |nodes| > maxNodes {
      return Err(NodeLimit);
    }
    if nodes == map[] || exists id :: id in nodes && (nodes[id].Broken? || nodes[id].id != id) {
      return Err(Malformed);
    }
    hide Before, IsLeaf, LexLess, Leaves;
    var leaf := NewestLeaf(nodes);
    var up := [leaf];
    while true
      invariant Walk(nodes, leaf, up)
      decreases |nodes| - |up|
    {
      var current := up[|up| - 1];
      var parent := nodes[current].parent;
      if parent.None? {
        ReversedWalkIsBranch(nodes, leaf, up);
        return Ok(Reverse(up));
      }
      if !Linked(nodes, current, parent.value) {
        NoBranch(nodes, leaf, up, Orphan);
        return Err(Orphan);
      }
      if parent.value in up {
        NoBranch(nodes, leaf, up, Cycle);
        return Err(Cycle);
      }
      WalkFits(nodes, leaf, up + [parent.value]);
      up := up + [parent.value];
    }
  }

  lemma NoBranch(nodes: Mapping, leaf: Id, up: seq<Id>, error: BranchError)
    requires WellFormed(nodes) && IsLeaf(nodes, leaf) && Ends(nodes, leaf, up, Some(error))
    ensures !exists branch :: IsBranch(nodes, branch)
  {
    hide Before, Walk, Linked, Leaves;
    forall branch | IsBranch(nodes, branch)
      ensures false
    {
      BranchIsWalk(nodes, branch);
      OneLeaf(nodes, leaf, branch[|branch| - 1]);
      OneOutcome(nodes, leaf, up, Some(error), Reverse(branch), None);
    }
  }

  // ---------- in plain terms ----------

  /** One string comes before another where they first differ, or where it ends. */
  lemma {:induction false} LexMeans(a: string, b: string)
    ensures LexLess(a, b) <==> exists k: nat :: DiffersAt(a, b, k)
  {
    if LexLess(a, b) {
      if a != [] && a[0] == b[0] {
        LexMeans(a[1..], b[1..]);
        var k: nat :| DiffersAt(a[1..], b[1..], k);
        assert a == [a[0]] + a[1..] && b == [b[0]] + b[1..];
        assert a[..k + 1] == [a[0]] + a[1..][..k] && b[..k + 1] == [b[0]] + b[1..][..k];
        assert DiffersAt(a, b, k + 1);
      } else {
        assert DiffersAt(a, b, 0);
      }
    }
    if k: nat :| DiffersAt(a, b, k) {
      if k > 0 {
        assert a[..k][0] == a[0] && b[..k][0] == b[0];
        assert a[1..][..k - 1] == a[..k][1..] && b[1..][..k - 1] == b[..k][1..];
        assert DiffersAt(a[1..], b[1..], k - 1);
        LexMeans(a[1..], b[1..]);
      }
    }
  }

  predicate DiffersAt(a: string, b: string, k: nat) {
    k <= |a| && k < |b| && a[..k] == b[..k] && (k == |a| || a[k] < b[k])
  }

  /** The node is older, or as old and first by its id; a node without a time is oldest. */
  lemma BeforeMeans(nodes: Mapping, a: Id, b: Id)
    requires WellFormed(nodes) && a in nodes && b in nodes
    ensures Before(nodes, a, b) <==>
              || (nodes[a].time.None? && nodes[b].time.Some?)
              || (nodes[a].time.Some? && nodes[b].time.Some? && nodes[a].time.value < nodes[b].time.value)
              || (nodes[a].time == nodes[b].time && exists k: nat :: DiffersAt(a, b, k))
  {
    LexMeans(a, b);
  }

  /** Every other of these nodes comes before this one. */
  ghost predicate LastOf(nodes: Mapping, leaf: Id, among: set<Id>)
    requires WellFormed(nodes)
  {
    leaf in among && leaf in nodes && forall other :: other in among && other != leaf ==> other in nodes && Before(nodes, other, leaf)
  }

  /** The branch ends at the newest node without children, or at the newest of all where every node has
      some, and begins at a node without a parent; every other node names the one before it as its
      parent, and is one of the children that that one lists; no node comes twice. */
  lemma BranchMeans(nodes: Mapping, branch: seq<Id>)
    requires WellFormed(nodes)
    ensures IsBranch(nodes, branch) <==>
              && branch != [] && (forall i :: 0 <= i < |branch| ==> branch[i] in nodes)
              && (if exists id :: id in nodes && nodes[id].children == []
                  then LastOf(nodes, branch[|branch| - 1], set id | id in nodes && nodes[id].children == [])
                  else LastOf(nodes, branch[|branch| - 1], nodes.Keys))
              && nodes[branch[0]].parent.None?
              && (forall i :: 0 < i < |branch| ==> nodes[branch[i]].parent == Some(branch[i - 1]))
              && (forall i :: 0 < i < |branch| ==> branch[i] in nodes[branch[i - 1]].children)
              && (forall i, j :: 0 <= i < j < |branch| ==> branch[i] != branch[j])
  {
    LeavesMean(nodes);
    hide Before, Leaves;
    if IsBranch(nodes, branch) {
      forall i | 0 < i < |branch|
        ensures nodes[branch[i]].parent == Some(branch[i - 1]) && branch[i] in nodes[branch[i - 1]].children
      {
        assert Linked(nodes, branch[i - 1 + 1], branch[i - 1]);
      }
    }
  }

  lemma LeavesMean(nodes: Mapping)
    requires WellFormed(nodes)
    ensures Leaves(nodes) ==
            if exists id :: id in nodes && nodes[id].children == []
            then set id | id in nodes && nodes[id].children == []
            else nodes.Keys
  {
    var childless := set id | id in nodes && nodes[id].RawNode? && nodes[id].children == [];
    assert childless == set id | id in nodes && nodes[id].children == [];
    if id :| id in nodes && nodes[id].children == [] {
      assert id in childless;
    }
  }

  /** A walk ends in an orphan where the named parent is missing or does not list the node, and in a
      cycle where it does and was already walked. */
  lemma EndsMean(nodes: Mapping, leaf: Id, up: seq<Id>)
    requires WellFormed(nodes) && Walk(nodes, leaf, up)
    ensures
      var last := up[|up| - 1];
      var parent := nodes[last].parent;
      && (Ends(nodes, leaf, up, Some(Orphan)) <==>
            parent.Some? && (parent.value !in nodes || last !in nodes[parent.value].children))
      && (Ends(nodes, leaf, up, Some(Cycle)) <==>
            parent.Some? && parent.value in up && last in nodes[parent.value].children)
      && (Ends(nodes, leaf, up, None) <==> parent.None?)
  {
  }
}
