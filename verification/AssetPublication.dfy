/** Publishing a nested asset tree all at once, and restoring the old one when a step fails. Every
    step that touches the tree may fail, before or after its effect. */
module AssetPublication {
  import opened Steps

  type Bytes = seq<bv8>

  /** The components of a relative name; there is at least one. */
  type Path = p: seq<string> | p != [] witness ["."]

  type Tree = map<Path, Bytes>

  const MAX_FILE_BYTES: nat := 64 * 1024 * 1024
  const MAX_TOTAL_BYTES: nat := 256 * 1024 * 1024
  const PUBLIC_MANIFEST: Path := ["demo-manifest.json"]

  predicate IsManifest(name: Path) {
    name[|name| - 1] in {"demo-manifest.json", "manifest.json"}
  }

  function FileName(name: Path): string {
    name[|name| - 1]
  }

  /** Every directory that some allowed name needs. */
  function DirectoriesOf(allowed: set<Path>): set<Path> {
    set name, n | name in allowed && 0 < n < |name| :: name[..n]
  }

  /** What sorted() does, and the content check of the public manifest. */
  datatype Tools = Tools(
    sorted: set<Path> -> seq<Path>, deepestFirst: set<Path> -> seq<Path>, manifestOk: Bytes -> bool) {

    ghost predicate Valid() {
      && (forall s: set<Path> :: Lists(sorted(s), s))
      && (forall s: set<Path> :: Lists(deepestFirst(s), s))
      && (forall s: set<Path>, i, j :: 0 <= i < j < |deepestFirst(s)| ==> |deepestFirst(s)[i]| >= |deepestFirst(s)[j]|)
    }
  }

  ghost predicate Lists(order: seq<Path>, names: set<Path>) {
    && (forall name :: name in order <==> name in names)
    && (forall i, j :: 0 <= i < j < |order| ==> order[i] != order[j])
  }

  function Manifests(names: set<Path>): set<Path> {
    set name | name in names && IsManifest(name)
  }

  /** Ordinary names first, manifests last. */
  function PublishOrder(t: Tools, names: set<Path>): seq<Path> {
    t.sorted(names - Manifests(names)) + t.sorted(Manifests(names))
  }

  ghost predicate ManifestsLast(order: seq<Path>) {
    forall i, j :: 0 <= i < j < |order| && IsManifest(order[i]) ==> IsManifest(order[j])
  }

  lemma PublishOrderLists(t: Tools, names: set<Path>)
    requires t.Valid()
    ensures Lists(PublishOrder(t, names), names) && ManifestsLast(PublishOrder(t, names))
    ensures
      var order := PublishOrder(t, names);
      forall i, j :: 0 <= i < j < |order| && FileName(order[i]) in {"demo-manifest.json", "manifest.json"} ==>
        FileName(order[j]) in {"demo-manifest.json", "manifest.json"}
  {
    var ordinary := t.sorted(names - Manifests(names));
    var manifests := t.sorted(Manifests(names));
    assert Lists(ordinary, names - Manifests(names)) && Lists(manifests, Manifests(names));
    var order := PublishOrder(t, names);
    forall i, j | 0 <= i < j < |order|
      ensures order[i] != order[j] && (IsManifest(order[i]) ==> IsManifest(order[j]))
    {
      if j < |ordinary| {
        assert ordinary[i] in names - Manifests(names);
      } else {
        assert manifests[j - |ordinary|] in Manifests(names);
        if i < |ordinary| {
          assert ordinary[i] in names - Manifests(names);
        }
      }
    }
    forall name
      ensures name in order <==> name in names
    {
      assert name in order <==> name in ordinary || name in manifests;
    }
  }

  /** A manifest with its new content, where the old one was different, stands only beside
      ordinary files that all have their new content. */
  ghost predicate NoMixture(before: Tree, now: Tree, documents: Tree) {
    forall m, a :: m in documents && IsManifest(m) && a in documents && !IsManifest(a)
      && m in now && now[m] == documents[m] && (m in before ==> before[m] != documents[m])
      ==> a in now && now[a] == documents[a]
  }

  /** The first names of the order have their documents, all others are as before. */
  ghost predicate Overlaid(before: Tree, now: Tree, documents: Tree, order: seq<Path>, n: nat)
    requires n <= |order| && forall name :: name in order ==> name in documents
  {
    && (forall i :: 0 <= i < n ==> order[i] in now && now[order[i]] == documents[order[i]])
    && (forall name :: name !in order[..n] ==>
          (name in now <==> name in before) && (name in now ==> now[name] == before[name]))
  }

  ghost predicate Unmixed(trace: seq<Tree>, from: nat, before: Tree, documents: Tree) {
    forall i :: from <= i < |trace| ==> NoMixture(before, trace[i], documents)
  }

  lemma UnmixedOnward(a: seq<Tree>, b: seq<Tree>, files: Tree, from: nat, before: Tree, documents: Tree)
    requires Unmixed(a, from, before, documents) && (b == a || (b == a + [files] && NoMixture(before, files, documents)))
    ensures Unmixed(b, from, before, documents)
  {
    hide NoMixture;
  }

  lemma UnmixedMeans(trace: seq<Tree>, from: nat, before: Tree, documents: Tree)
    requires Unmixed(trace, from, before, documents)
    ensures forall i :: from <= i < |trace| ==> NoMixture(before, trace[i], documents)
  {
  }

  lemma NothingOutside(before: Tree, documents: Tree)
    ensures Outside(before, before, documents)
  {
  }

  lemma NothingUnmixed(trace: seq<Tree>, before: Tree, documents: Tree)
    ensures Unmixed(trace, |trace|, before, documents)
  {
  }

  /** One original was put back, or something that is none was removed. */
  ghost predicate StepBack(a: Tree, b: Tree, originals: Tree) {
    exists name: Path :: if name in originals then b == a[name := originals[name]] else b == a - {name}
  }

  ghost predicate WentBack(trace: seq<Tree>, i: nat, originals: Tree)
    requires i < |trace|
  {
    0 < i && StepBack(trace[i - 1], trace[i], originals)
  }

  ghost predicate Backward(trace: seq<Tree>, from: nat, originals: Tree) {
    forall i :: from <= i < |trace| ==> WentBack(trace, i, originals)
  }

  lemma NothingBackward(trace: seq<Tree>, originals: Tree)
    ensures Backward(trace, |trace|, originals)
  {
  }

  lemma BackwardOnward(a: seq<Tree>, b: seq<Tree>, files: Tree, after: Tree, from: nat, originals: Tree, name: Path)
    requires Backward(a, from, originals) && Traced(a, files) && (b == a || b == a + [after])
    requires b != a ==> if name in originals then after == files[name := originals[name]] else after == files - {name}
    ensures Backward(b, from, originals)
  {
    hide OneChange;
    if b != a {
      assert StepBack(files, after, originals);
      hide StepBack;
      forall i | from <= i < |b|
        ensures WentBack(b, i, originals)
      {
        assert i < |a| ==> WentBack(a, i, originals);
      }
    }
  }

  lemma BackwardJoin(a: seq<Tree>, b: seq<Tree>, from: nat, originals: Tree)
    requires a <= b && Backward(a, from, originals) && Backward(b, |a|, originals)
    ensures Backward(b, from, originals)
  {
    hide StepBack;
    forall i | from <= i < |b|
      ensures WentBack(b, i, originals)
    {
      assert i < |a| ==> WentBack(a, i, originals) && b[i] == a[i];
    }
  }

  lemma OverlayStep(before: Tree, now: Tree, documents: Tree, order: seq<Path>, n: nat)
    requires n < |order| && forall name :: name in order ==> name in documents
    requires Overlaid(before, now, documents, order, n)
    ensures Overlaid(before, now[order[n] := documents[order[n]]], documents, order, n + 1)
  {
    assert order[..n + 1] == order[..n] + [order[n]];
  }

  lemma OverlayUnmixed(before: Tree, now: Tree, documents: Tree, order: seq<Path>, n: nat)
    requires Lists(order, documents.Keys) && ManifestsLast(order) && n <= |order|
    requires Overlaid(before, now, documents, order, n)
    ensures NoMixture(before, now, documents)
  {
    forall m, a | m in documents && IsManifest(m) && a in documents && !IsManifest(a)
      && m in now && now[m] == documents[m] && (m in before ==> before[m] != documents[m])
      ensures a in now && now[a] == documents[a]
    {
      assert m in order[..n];
      var i :| 0 <= i < n && order[i] == m;
      assert a in order;
      var j :| 0 <= j < |order| && order[j] == a;
      assert j < i;
    }
  }

  ghost predicate Outside(before: Tree, now: Tree, documents: Tree) {
    forall name :: name !in documents ==>
      (name in now <==> name in before) && (name in now ==> now[name] == before[name])
  }

  lemma OverlayOutside(before: Tree, now: Tree, documents: Tree, order: seq<Path>, n: nat)
    requires Lists(order, documents.Keys) && n <= |order| && Overlaid(before, now, documents, order, n)
    ensures n < |order| ==> order[n] in documents
    ensures Outside(before, now, documents)
  {
    assert n < |order| ==> order[n] in order;
  }

  lemma ParentsAllowed(allowed: set<Path>, name: Path)
    requires name in allowed
    ensures (set n | 0 < n < |name| :: name[..n]) <= DirectoriesOf(allowed)
  {
  }

  lemma ListedAt(order: seq<Path>, names: set<Path>, n: nat)
    requires Lists(order, names) && n < |order|
    ensures order[n] in names
  {
  }

  lemma AllRestored(order: seq<Path>, originals: Tree, files: Tree)
    requires Lists(order, originals.Keys)
    requires forall i :: 0 <= i < |order| ==> order[i] in originals && order[i] in files && files[order[i]] == originals[order[i]]
    ensures forall name :: name in originals ==> name in files && files[name] == originals[name]
  {
    forall name | name in originals
      ensures name in files && files[name] == originals[name]
    {
      assert name in order;
      var i :| 0 <= i < |order| && order[i] == name;
    }
  }

  lemma FullOverlay(before: Tree, now: Tree, documents: Tree, order: seq<Path>)
    requires Lists(order, documents.Keys) && before.Keys <= documents.Keys
    requires Overlaid(before, now, documents, order, |order|)
    ensures now == documents
  {
    assert order[..|order|] == order;
    forall name
      ensures name in now <==> name in documents
      ensures name in documents ==> now[name] == documents[name]
    {
      if name in documents {
        assert name in order;
        var i :| 0 <= i < |order| && order[i] == name;
      }
    }
  }

  datatype Outcome = Published | Refused | RolledBack | RollbackFailed

  // ---------- what the state keeps ----------

  /** One file was written, or one was removed. */
  ghost predicate OneChange(a: Tree, b: Tree) {
    exists name: Path :: b == a - {name} || (name in b && b == a[name := b[name]])
  }

  /** The contents so far, one change at a time; the last is what is there now. */
  ghost predicate Traced(trace: seq<Tree>, files: Tree) {
    && trace != [] && trace[|trace| - 1] == files
    && forall i :: 0 <= i < |trace| - 1 ==> OneChange(trace[i], trace[i + 1])
  }

  lemma TraceOnward(trace: seq<Tree>, files: Tree, after: Tree)
    requires Traced(trace, files) && OneChange(files, after)
    ensures Traced(trace + [after], after)
  {
    hide OneChange;
  }

  /** Every directory stands in a directory. */
  ghost predicate PrefixClosed(directories: set<Path>) {
    forall d, n :: d in directories && 0 < n < |d| ==> d[..n] in directories
  }

  /** Every directory and every file stands in directories. */
  ghost predicate Rooted(files: Tree, directories: set<Path>) {
    PrefixClosed(directories) && forall f, n :: f in files && 0 < n < |f| ==> f[..n] in directories
  }

  lemma WrittenOnward(trace: seq<Tree>, files: Tree, directories: set<Path>, name: Path, document: Bytes)
    requires Traced(trace, files) && Rooted(files, directories) && forall n :: 0 < n < |name| ==> name[..n] in directories
    ensures Traced(trace + [files[name := document]], files[name := document])
    ensures Rooted(files[name := document], directories)
  {
    hide Traced, PrefixClosed;
    var after := files[name := document];
    assert name in after && after == files[name := after[name]];
    TraceOnward(trace, files, after);
  }

  lemma DroppedOnward(trace: seq<Tree>, files: Tree, directories: set<Path>, name: Path)
    requires Traced(trace, files) && Rooted(files, directories)
    ensures Traced(trace + [files - {name}], files - {name}) && Rooted(files - {name}, directories)
  {
    hide Traced, PrefixClosed;
    assert OneChange(files, files - {name});
    TraceOnward(trace, files, files - {name});
  }

  /** These faults are what is left of the script. */
  ghost predicate Remains(script: seq<bool>, faults: seq<bool>) {
    |faults| <= |script| && faults == script[|script| - |faults|..]
  }

  /** No coming step fails. */
  ghost predicate Calm(faults: seq<bool>) {
    forall i :: 0 <= i < |faults| ==> !faults[i]
  }

  /** At most one coming step fails. */
  ghost predicate AtMostOne(faults: seq<bool>) {
    forall i, j :: 0 <= i < j < |faults| ==> !(faults[i] && faults[j])
  }

  lemma CalmIsAtMostOne(faults: seq<bool>)
    ensures Calm(faults) ==> AtMostOne(faults)
  {
  }

  /** The two steps before now did not fail. */
  ghost predicate EndsClear(before: seq<bool>, now: seq<bool>) {
    exists i: nat :: i <= |before| && Taken(before[i..], now, 2)
  }

  lemma Finished(script: seq<bool>, a: seq<bool>, b: seq<bool>, c: seq<bool>)
    requires Remains(script, a) && Remains(script, b) && |b| <= |a| && AllClear(a, b) && Taken(b, c, 2)
    ensures AllClear(a, c) && EndsClear(a, c)
  {
    EndedClear(script, a, b, c);
    hide Taken, Remains;
    TakenIsClear(b, c, 2);
    AllClearMore(a, b, c);
  }

  lemma EndedClear(script: seq<bool>, a: seq<bool>, b: seq<bool>, c: seq<bool>)
    requires Remains(script, a) && Remains(script, b) && |b| <= |a| && Taken(b, c, 2)
    ensures EndsClear(a, c)
  {
    assert a[|a| - |b|..] == b;
  }

  /** How many steps the writing of one file takes, by which of them fails first. */
  function Writings(faults: seq<bool>, taken: bool): nat {
    if Flag(faults, 0) then 1 else if Flag(faults, 1) then 3 else if Flag(faults, 2) || taken then 4 else 5
  }

  /** The temporary file stays: it was made, not renamed, and could not be removed. */
  predicate LeavesStray(faults: seq<bool>, taken: bool) {
    && !Flag(faults, 0) && (Flag(faults, 1) || Flag(faults, 2) || taken)
    && Flag(faults, Writings(faults, taken) - 1)
  }

  lemma FlagsAfter(faults: seq<bool>)
    ensures After(faults, 0) == faults
    ensures forall k: nat {:trigger After(faults, k)} :: k < 5 ==>
              After(After(faults, k), 1) == After(faults, k + 1) && (Flag(After(faults, k), 0) <==> Flag(faults, k))
  {
    forall k: nat | k < 5
      ensures After(After(faults, k), 1) == After(faults, k + 1) && (Flag(After(faults, k), 0) <==> Flag(faults, k))
    {
      AfterMore(faults, k, 1);
    }
  }

  lemma WritingSteps(faults: seq<bool>, taken: bool)
    ensures Flag(faults, 0) ==> Writings(faults, taken) == 1
    ensures !Flag(faults, 0) && Flag(faults, 1) ==> Writings(faults, taken) == 3
    ensures !Flag(faults, 0) && !Flag(faults, 1) && (Flag(faults, 2) || taken) ==> Writings(faults, taken) == 4
    ensures !Flag(faults, 0) && !Flag(faults, 1) && !Flag(faults, 2) && !taken ==> Writings(faults, taken) == 5
    ensures LeavesStray(faults, taken) <==>
              !Flag(faults, 0) && (if Flag(faults, 1) then Flag(faults, 2) else (Flag(faults, 2) || taken) && Flag(faults, 3))
  {
  }

  /** What a writing needs and leaves, by the steps that fail. */
  lemma WritingOutcome(faults: seq<bool>, taken: bool, now: seq<bool>)
    requires now == After(faults, Writings(faults, taken))
    ensures |now| <= |faults|
    ensures !Flag(faults, 0) && !Flag(faults, 1) && !Flag(faults, 2) <==> Unfailing(faults, 3)
    ensures Unfailing(faults, 3) && !Flag(faults, 3) && !Flag(faults, 4) <==> Unfailing(faults, 5)
    ensures Unfailing(faults, 5) && !taken ==> Taken(faults, now, 5)
    ensures LeavesStray(faults, taken) ==> LastFailed(faults, now) && (taken || !Unfailing(faults, 3))
    ensures Calm(faults) ==> Unfailing(faults, 5) && Calm(now)
    ensures AtMostOne(faults) && !taken ==>
              if Unfailing(faults, 5) then AtMostOne(now) else Calm(now) && !LeavesStray(faults, taken)
  {
    hide Writings, LeavesStray;
    WritingSteps(faults, taken);
    assert !Flag(faults, 0) && !Flag(faults, 1) && !Flag(faults, 2) ==> Unfailing(faults, 3);
  }

  lemma NotTaken(before: seq<bool>, now: seq<bool>)
    ensures Flag(before, 0) ==> !Taken(before, now, 1)
  {
  }

  lemma OpeningsIs(name: Path)
    ensures Openings(name, false) == |name| - 1
  {
  }

  lemma UnlinkSteps(a: seq<bool>, b: seq<bool>, c: seq<bool>, n: nat, fault: bool)
    requires Taken(a, b, n) && (if fault then LastFailed(b, c) else Taken(b, c, 1))
    ensures if fault then LastFailed(a, c) else Taken(a, c, n + 1) && Unfailing(a, n + 1)
  {
    hide LastFailed;
    if fault {
      FailedLater(a, b, c, n);
    } else {
      TakenMore(a, b, c, n, 1);
    }
  }

  /** How many steps it takes to open every directory above a name. */
  function Openings(name: Path, create: bool): nat {
    if create then 2 * (|name| - 1) else |name| - 1
  }

  /** Step i of the script was struck by a fault, between these two moments. */
  ghost predicate StruckAt(script: seq<bool>, before: seq<bool>, after: seq<bool>, i: nat) {
    |script| - |before| <= i < |script| - |after| && i < |script| && script[i]
  }

  lemma StruckWider(script: seq<bool>, a: seq<bool>, b: seq<bool>, c: seq<bool>, d: seq<bool>, i: nat)
    requires StruckAt(script, b, c, i) && |d| <= |c| && |b| <= |a|
    ensures StruckAt(script, a, d, i)
  {
  }

  lemma CalmIsNeverStruck(script: seq<bool>, before: seq<bool>, after: seq<bool>, i: nat)
    requires Remains(script, before) && Calm(before)
    ensures !StruckAt(script, before, after, i)
  {
    if |script| - |before| <= i < |script| {
      assert script[i] == before[i - (|script| - |before|)];
    }
  }

  /** Why a parent could not be opened. */
  datatype Cause = Fine | Struck(step: nat) | Missing(parent: Path)

  /** A directory that was passed over: its parent could not be opened. */
  ghost predicate Explains(script: seq<bool>, before: seq<bool>, after: seq<bool>, directories: set<Path>, d: Path, cause: Cause) {
    match cause
    case Fine => false
    case Struck(i) => StruckAt(script, before, after, i)
    case Missing(parent) => parent < d && parent !in directories
  }

  /** Every directory that is left is occupied, or a fault struck when it was its turn. */
  ghost predicate EmptyOnlyByFault(script: seq<bool>, before: seq<bool>, after: seq<bool>, files: Tree,
                                   directories: set<Path>, strays: seq<seq<string>>, skipped: map<Path, Cause>) {
    forall d :: d in directories && !Occupied(files, directories, strays, d) ==>
      d in skipped && skipped[d].Struck? && StruckAt(script, before, after, skipped[d].step)
  }

  lemma CalmLeavesNothingEmpty(script: seq<bool>, before: seq<bool>, after: seq<bool>, files: Tree,
                               directories: set<Path>, strays: seq<seq<string>>, skipped: map<Path, Cause>)
    requires Remains(script, before) && Calm(before)
    requires EmptyOnlyByFault(script, before, after, files, directories, strays, skipped)
    ensures forall d :: d in directories ==> Occupied(files, directories, strays, d)
  {
    forall d | d in directories
      ensures Occupied(files, directories, strays, d)
    {
      if !Occupied(files, directories, strays, d) {
        CalmIsNeverStruck(script, before, after, skipped[d].step);
      }
    }
  }

  lemma EmptyOnlyByFaultWider(script: seq<bool>, a: seq<bool>, b: seq<bool>, c: seq<bool>, d: seq<bool>, files: Tree,
                              directories: set<Path>, strays: seq<seq<string>>, skipped: map<Path, Cause>)
    requires EmptyOnlyByFault(script, b, c, files, directories, strays, skipped) && |d| <= |c| && |b| <= |a|
    ensures EmptyOnlyByFault(script, a, d, files, directories, strays, skipped)
  {
    hide Occupied;
  }

  /** What the verification of the whole output accepts. */
  predicate Verifies(t: Tools, allowed: set<Path>, files: Tree, directories: set<Path>, strays: seq<seq<string>>, marker: bool) {
    && strays == [] && files.Keys <= allowed && directories <= DirectoriesOf(allowed)
    && (!marker ==>
          && files.Keys == allowed && directories == DirectoriesOf(allowed)
          && (PUBLIC_MANIFEST in allowed ==> t.manifestOk(files[PUBLIC_MANIFEST])))
  }

  function TotalBytes(documents: Tree, names: seq<Path>): nat
    requires forall name :: name in names ==> name in documents
    decreases |names|
  {
    if names == [] then 0 else TotalBytes(documents, names[..|names| - 1]) + |documents[names[|names| - 1]]|
  }

  lemma {:induction false} TotalGrows(documents: Tree, names: seq<Path>, n: nat)
    requires n <= |names| && forall name :: name in names ==> name in documents
    ensures TotalBytes(documents, names[..n]) <= TotalBytes(documents, names)
    decreases |names|
  {
    if n == |names| {
      assert names[..n] == names;
    } else {
      assert names[..|names| - 1][..n] == names[..n];
      TotalGrows(documents, names[..|names| - 1], n);
    }
  }

  /** Each document and all of them together are within the limits. */
  ghost predicate WithinLimits(documents: Tree, names: seq<Path>) {
    && (forall name :: name in names ==> name in documents && |documents[name]| <= MAX_FILE_BYTES)
    && TotalBytes(documents, names) <= MAX_TOTAL_BYTES
  }

  /** The name can be written: it is no directory, and no file stands where a parent belongs. */
  ghost predicate Clear(files: Tree, directories: set<Path>, name: Path) {
    name !in directories && forall n :: 0 < n < |name| ==> name[..n] !in files
  }

  /** No name of the set is also a directory of another. */
  ghost predicate Separate(allowed: set<Path>) {
    allowed !! DirectoriesOf(allowed)
  }

  ghost predicate Inside(allowed: set<Path>, files: Tree, directories: set<Path>) {
    files.Keys <= allowed && directories <= DirectoriesOf(allowed)
  }

  ghost predicate Small(documents: Tree) {
    forall name :: name in documents ==> |documents[name]| <= MAX_FILE_BYTES
  }

  /** A finished output has every allowed file and a good public manifest. */
  ghost predicate Complete(t: Tools, allowed: set<Path>, documents: Tree, marked: bool) {
    !marked ==> documents.Keys == allowed && (PUBLIC_MANIFEST in allowed ==> t.manifestOk(documents[PUBLIC_MANIFEST]))
  }

  ghost predicate Holds(originals: Tree, files: Tree) {
    forall name :: name in originals ==> name in files && files[name] == originals[name]
  }

  lemma PathsApart(allowed: set<Path>, files: Tree, directories: set<Path>, name: Path)
    requires name in allowed
    ensures Separate(allowed) && Inside(allowed, files, directories) ==>
              name !in directories && Clear(files, directories, name)
  {
    if Separate(allowed) && Inside(allowed, files, directories) {
      forall n | 0 < n < |name|
        ensures name[..n] !in files
      {
        assert name[..n] in DirectoriesOf(allowed);
      }
    }
  }

  lemma SmallAt(documents: Tree, name: Path)
    requires name in documents
    ensures Small(documents) ==> |documents[name]| <= MAX_FILE_BYTES
  {
  }

  lemma StillInside(allowed: set<Path>, files: Tree, directories: set<Path>, after: Tree, directoriesAfter: set<Path>, name: Path)
    requires name in allowed && after.Keys <= files.Keys + {name}
    requires directoriesAfter <= directories + (set n | 0 < n < |name| :: name[..n])
    ensures Inside(allowed, files, directories) ==> Inside(allowed, after, directoriesAfter)
  {
    ParentsAllowed(allowed, name);
    hide DirectoriesOf;
  }

  lemma InsideKeys(allowed: set<Path>, files: Tree, directories: set<Path>)
    requires Inside(allowed, files, directories)
    ensures files.Keys <= allowed
  {
  }

  lemma StillHolds(originals: Tree, files: Tree, after: Tree, name: Path)
    requires Holds(originals, files) && name !in originals && (after == files || after == files - {name})
    ensures Holds(originals, after)
  {
  }

  lemma HoldsAll(originals: Tree, files: Tree)
    requires Holds(originals, files) && files.Keys == originals.Keys
    ensures files == originals
  {
  }

  /** The files and the coming steps between two removals. */
  datatype Moment = Moment(files: Tree, faults: seq<bool>)

  ghost predicate Between(moments: seq<Moment>, first: Moment, last: Moment) {
    moments != [] && moments[0] == first && moments[|moments| - 1] == last
  }

  /** This name was left alone, or removed with every step a success. */
  ghost predicate RemovedOne(before: Moment, after: Moment, name: Path) {
    || after.files == before.files
    || (after.files == before.files - {name} && AllClear(before.faults, after.faults))
  }

  /** So was each of these names, the last one first. */
  ghost predicate Removed(moments: seq<Moment>, names: seq<Path>) {
    |moments| == |names| + 1 && forall i :: 0 <= i < |names| ==> RemovedOne(moments[i], moments[i + 1], names[|names| - 1 - i])
  }

  lemma NothingRemoved(moment: Moment, names: seq<Path>)
    ensures Removed([moment], names[|names|..])
  {
  }

  lemma OneRemoved(moments: seq<Moment>, names: seq<Path>, left: nat, before: Moment, after: Moment)
    requires left < |names| && Removed(moments, names[left + 1..]) && moments[|moments| - 1] == before
    requires after.files == before.files
             || (after.files == before.files - {names[left]} && AllClear(before.faults, after.faults))
    ensures Removed(moments + [after], names[left..])
  {
    hide AllClear;
    var more := moments + [after];
    forall i | 0 <= i < |names| - left
      ensures RemovedOne(more[i], more[i + 1], names[left..][|names| - left - 1 - i])
    {
      if i < |names| - left - 1 {
        assert RemovedOne(moments[i], moments[i + 1], names[left + 1..][|names| - left - 2 - i]);
      }
    }
  }

  lemma GoOn(moments: seq<Moment>, first: Moment, last: Moment)
    requires moments != [] && moments[0] == first
    ensures Between(moments + [last], first, last)
  {
  }

  lemma OnlyOriginals(allowed: set<Path>, originals: Tree, files: Tree, directories: set<Path>, added: seq<Path>)
    requires Inside(allowed, files, directories) && Holds(originals, files) && Lists(added, allowed - originals.Keys)
    requires forall i :: 0 <= i < |added| ==> added[i] !in files
    ensures files == originals
  {
    hide DirectoriesOf;
    forall name | name in files
      ensures name in originals
    {
      assert name !in originals ==> name in added;
    }
  }

  /** A tree with these files, rooted and without strays, passes the verification. */
  lemma Restored(t: Tools, allowed: set<Path>, documents: Tree, files: Tree, directories: set<Path>,
                 strays: seq<seq<string>>, marker: bool)
    requires Inside(allowed, files, directories) && Rooted(files, directories)
    ensures files == documents && strays == [] && Complete(t, allowed, documents, marker) ==>
              Verifies(t, allowed, files, directories, strays, marker)
  {
    if files.Keys == allowed {
      assert DirectoriesOf(allowed) <= directories;
    }
  }

  lemma Verified(t: Tools, allowed: set<Path>, files: Tree, directories: set<Path>, strays: seq<seq<string>>, marker: bool)
    requires Verifies(t, allowed, files, directories, strays, marker)
    ensures strays == [] && files.Keys <= allowed && Inside(allowed, files, directories) && Complete(t, allowed, files, marker)
  {
  }

  lemma LimitsAreSmall(documents: Tree, names: seq<Path>, allowed: set<Path>)
    requires WithinLimits(documents, names) && Lists(names, allowed) && documents.Keys == allowed
    ensures Small(documents)
  {
    forall name | name in documents
      ensures |documents[name]| <= MAX_FILE_BYTES
    {
      assert name in names;
    }
  }

  lemma Sorted(t: Tools, s: set<Path>)
    requires t.Valid()
    ensures Lists(t.sorted(s), s)
  {
  }

  lemma ListsOnly(order: seq<Path>, names: set<Path>)
    requires Lists(order, names)
    ensures forall name :: name in order ==> name in names
  {
  }

  lemma NothingOverlaid(before: Tree, documents: Tree, order: seq<Path>)
    requires Lists(order, documents.Keys) && ManifestsLast(order)
    ensures Overlaid(before, before, documents, order, 0)
  {
  }

  /** When putting back met no fault, no empty directory stays. */
  lemma RolledBackClean(script: seq<bool>, before: seq<bool>, restoring: seq<bool>, after: seq<bool>, files: Tree,
                        directories: set<Path>, strays: seq<seq<string>>, skipped: map<Path, Cause>)
    requires Remains(script, after) && |after| <= |restoring| <= |before| && Remains(script, restoring)
    requires EmptyOnlyByFault(script, restoring, after, files, directories, strays, skipped)
    ensures EmptyOnlyByFault(script, before, after, files, directories, strays, skipped)
    ensures Calm(restoring) ==> forall d :: d in directories ==> Occupied(files, directories, strays, d)
  {
    hide Occupied, StruckAt;
    EmptyOnlyByFaultWider(script, before, restoring, after, after, files, directories, strays, skipped);
    if Calm(restoring) {
      CalmLeavesNothingEmpty(script, restoring, after, files, directories, strays, skipped);
    }
  }

  class Workspace {
    const tools: Tools
    const allowed: set<Path>
    var files: Tree
    var directories: set<Path>
    /** Directories that hold a temporary file nobody could remove. */
    var strays: seq<seq<string>>
    /** The private marker of an unfinished output. */
    var marker: bool
    /** Which of the coming steps fail, and which of all steps do. */
    var faults: seq<bool>
    ghost const script: seq<bool>
    /** The content after every change, the newest last. */
    ghost var trace: seq<Tree>
    /** Directories that pruning passed over, and why. */
    ghost var skipped: map<Path, Cause>

    constructor (tools: Tools, allowed: set<Path>, files: Tree, directories: set<Path>, marker: bool, faults: seq<bool>)
      requires tools.Valid() && Rooted(files, directories)
      ensures Valid() && this.tools == tools && this.allowed == allowed && this.files == files
      ensures this.directories == directories && this.marker == marker && strays == []
      ensures this.faults == script == faults
    {
      this.tools, this.allowed, this.files, this.directories := tools, allowed, files, directories;
      this.marker, this.faults, this.script, strays, trace, skipped := marker, faults, faults, [], [files], map[];
    }

    ghost predicate Valid()
      reads this
    {
      tools.Valid() && Traced(trace, files) && Rooted(files, directories) && Remains(script, faults)
    }

    // ---------- primitives ----------

    method Fails() returns (fault: bool)
      requires Valid()
      modifies this`faults
      ensures Valid() && |faults| <= |old(faults)|
      ensures fault <==> old(faults) != [] && old(faults)[0]
      ensures faults == if old(faults) == [] then [] else old(faults)[1..]
      ensures faults == After(old(faults), 1) && (fault <==> Flag(old(faults), 0))
      ensures fault ==> LastFailed(old(faults), faults)
      ensures !fault ==> Taken(old(faults), faults, 1)
      ensures fault ==> |script| >= |old(faults)| && StruckAt(script, old(faults), faults, |script| - |old(faults)|)
      ensures Calm(old(faults)) ==> !fault && Calm(faults)
      ensures AtMostOne(old(faults)) ==> AtMostOne(faults) && (fault ==> Calm(faults))
    {
      hide Traced, Rooted;
      fault := false;
      if faults != [] {
        fault := faults[0];
        faults := faults[1..];
      }
    }

    method Put(name: Path, document: Bytes)
      requires Valid() && forall n :: 0 < n < |name| ==> name[..n] in directories
      modifies this`files, this`trace
      ensures Valid() && files == old(files)[name := document] && trace == old(trace) + [files]
    {
      WrittenOnward(trace, files, directories, name, document);
      hide Traced, Rooted, Remains;
      files := files[name := document];
      trace := trace + [files];
    }

    method Drop(name: Path)
      requires Valid()
      modifies this`files, this`trace
      ensures Valid() && files == old(files) - {name} && trace == old(trace) + [files]
    {
      DroppedOnward(trace, files, directories, name);
      hide Traced, Rooted, Remains;
      files := files - {name};
      trace := trace + [files];
    }

    /** Make a directory whose parents are there; remove one that holds nothing. */
    method SetDirectories(after: set<Path>)
      requires Valid() && Rooted(files, after)
      modifies this`directories
      ensures Valid() && directories == after
    {
      hide Traced, Remains, Rooted;
      directories := after;
    }

    ghost method SetSkipped(after: map<Path, Cause>)
      requires Valid()
      modifies this`skipped
      ensures Valid() && skipped == after
    {
      hide Traced, Rooted, Remains;
      skipped := after;
    }

    /** What validity says of the directories and the faults. */
    lemma Known()
      requires Valid()
      ensures Rooted(files, directories) && Remains(script, faults) && tools.Valid() && Traced(trace, files)
    {
    }

    // ---------- one file ----------

    /** Open every directory above the name, making the missing ones when asked. */
    method OpenParent(name: Path, create: bool) returns (ok: bool, ghost cause: Cause)
      requires Valid()
      modifies this`faults, this`directories
      ensures Valid() && |faults| <= |old(faults)|
      ensures !create ==> directories == old(directories)
      ensures old(directories) <= directories
      ensures directories <= old(directories) + (set n | 0 < n < |name| :: name[..n])
      ensures ok ==> forall n :: 0 < n < |name| ==> name[..n] in directories
      ensures ok ==> Taken(old(faults), faults, Openings(name, create))
      ensures forall d :: d in directories && d !in old(directories) ==> d !in files
      ensures !ok && create ==> LastFailed(old(faults), faults) || exists n :: 0 < n < |name| && name[..n] in files
      ensures !ok && !create ==> LastFailed(old(faults), faults) || exists n :: 0 < n < |name| && name[..n] !in directories
      ensures !ok && !create ==> Explains(script, old(faults), faults, directories, name, cause)
      ensures Calm(old(faults)) ==> Calm(faults) && (create && Clear(files, old(directories), name) ==> ok)
      ensures AtMostOne(old(faults)) ==>
                AtMostOne(faults) && (create && Clear(files, old(directories), name) && !ok ==> Calm(faults))
      ensures old(faults) != [] && old(faults)[0] && |name| > 1 ==> !ok && cause.Struck? && faults == old(faults)[1..]
    {
      hide Valid, Calm, AtMostOne, StruckAt, Remains, Traced, Rooted, Taken, LastFailed, Flag, After, Unfailing;
      ok, cause := true, Fine;
      NoneTaken(faults);
      for n := 1 to |name|
        invariant Valid() && |faults| <= |old(faults)|
        invariant !create ==> directories == old(directories)
        invariant old(directories) <= directories
        invariant directories <= old(directories) + (set i | 0 < i < |name| :: name[..i])
        invariant forall i :: 0 < i < n ==> name[..i] in directories
        invariant Calm(old(faults)) ==> Calm(faults)
        invariant AtMostOne(old(faults)) ==> AtMostOne(faults)
        invariant n > 1 ==> !(old(faults) != [] && old(faults)[0])
        invariant n == 1 ==> faults == old(faults)
        invariant Taken(old(faults), faults, if create then 2 * (n - 1) else n - 1)
        invariant forall d :: d in directories && d !in old(directories) ==> d !in files
      {
        var parent := name[..n];
        ghost var left := faults;
        ghost var so := if create then 2 * (n - 1) else n - 1;
        if create {
          var fault := Fails();
          if fault {
            FailedLater(old(faults), left, faults, so);
            return false, Struck(|script| - |left|);
          }
          TakenMore(old(faults), left, faults, so, 1);
          so := so + 1;
          if parent !in files && parent !in directories {
            Known();
            OneMoreDirectory(files, directories, name, n);
            SetDirectories(directories + {parent});
          }
        }
        left := faults;
        var fault := Fails();
        if fault {
          FailedLater(old(faults), left, faults, so);
          if !create {
            StruckWider(script, old(faults), left, faults, faults, |script| - |left|);
          }
          return false, Struck(|script| - |left|);
        }
        TakenMore(old(faults), left, faults, so, 1);
        if parent !in directories {
          return false, Missing(parent);
        }
      }
    }

    /** Write a temporary file and rename it over the name; the temporary file is always removed
        if it can be. */
    method AtomicReplace(name: Path, document: Bytes) returns (ok: bool)
      requires Valid()
      modifies this`files, this`directories, this`strays, this`faults, this`trace
      ensures Valid() && |faults| <= |old(faults)|
      ensures || (!ok && files == old(files) && trace == old(trace))
              || (files == old(files)[name := document] && trace == old(trace) + [files])
      ensures old(directories) <= directories
      ensures directories <= old(directories) + (set n | 0 < n < |name| :: name[..n])
      ensures forall d :: d in directories && d !in old(directories) ==> d !in old(files)
      ensures ok ==> strays == old(strays) && trace == old(trace) + [files]
      ensures ok ==> Taken(old(faults), faults, Openings(name, true) + 5) && AllClear(old(faults), faults)
      ensures trace != old(trace) ==>
                && |document| <= MAX_FILE_BYTES && name !in directories
                && Unfailing(old(faults), Openings(name, true) + 3)
      ensures |document| > MAX_FILE_BYTES ==>
                !ok && directories == old(directories) && strays == old(strays) && faults == old(faults)
      ensures strays == old(strays)
              || (strays == old(strays) + [name[..|name| - 1]] && trace == old(trace) && LastFailed(old(faults), faults))
      ensures |document| <= MAX_FILE_BYTES && Clear(old(files), old(directories), name) ==>
                && (Calm(old(faults)) ==> ok && Calm(faults))
                && (AtMostOne(old(faults)) ==> if ok then AtMostOne(faults) else Calm(faults) && strays == old(strays))
    {
      hide Valid, Calm, AtMostOne, StruckAt, Explains, Taken, LastFailed, Flag, Unfailing, After, Writings, LeavesStray;
      if |document| > MAX_FILE_BYTES {
        return false;
      }
      ghost var cause;
      ok, cause := OpenParent(name, true);
      if !ok {
        return;
      }
      ghost var inside := faults;
      ok := WriteTemporary(name, document);
      WritingOutcome(inside, name in directories, faults);
      if ok {
        TakenMore(old(faults), inside, faults, Openings(name, true), 5);
        TakenIsClear(old(faults), faults, Openings(name, true) + 5);
      }
      if trace != old(trace) {
        UnfailingMore(old(faults), inside, Openings(name, true), 3);
      }
      if strays != old(strays) {
        FailedLater(old(faults), inside, faults, Openings(name, true));
      }
    }

    /** In an open parent: create, write and sync the temporary file, rename it, sync the parent, and
        remove what is left of it. The first three decide whether the name is replaced. */
    method WriteTemporary(name: Path, document: Bytes) returns (ok: bool)
      requires Valid() && forall n :: 0 < n < |name| ==> name[..n] in directories
      modifies this`files, this`strays, this`faults, this`trace
      ensures Valid()
      ensures
        var renamed := !Flag(old(faults), 0) && !Flag(old(faults), 1) && !Flag(old(faults), 2) && name !in directories;
        && files == (if renamed then old(files)[name := document] else old(files))
        && trace == (if renamed then old(trace) + [files] else old(trace))
        && (ok <==> renamed && !Flag(old(faults), 3) && !Flag(old(faults), 4))
      ensures faults == After(old(faults), Writings(old(faults), name in directories))
      ensures strays == if LeavesStray(old(faults), name in directories) then old(strays) + [name[..|name| - 1]] else old(strays)
    {
      hide *;
      ghost var start := faults;
      FlagsAfter(start);
      WritingSteps(start, name in directories);
      var created := Fails();
      if created {
        return false;
      }
      var fault := Fails();
      var renamed := false;
      if !fault {
        fault := Fails();
        if !fault && name !in directories {
          Put(name, document);
          renamed := true;
          fault := Fails();
        }
      }
      var unlinkFault := Fails();
      if unlinkFault && !renamed {
        KeepStray(name[..|name| - 1]);
      }
      ok := renamed && !fault && !unlinkFault;
    }

    method KeepStray(parent: seq<string>)
      requires Valid()
      modifies this`strays
      ensures Valid() && strays == old(strays) + [parent]
    {
      strays := strays + [parent];
    }

    /** Remove a file that may be missing. A parent that cannot be opened counts as missing. */
    method UnlinkFile(name: Path) returns (ok: bool)
      requires Valid()
      modifies this`files, this`faults, this`directories, this`trace
      ensures Valid() && |faults| <= |old(faults)|
      ensures directories == old(directories)
      ensures || (files == old(files) && trace == old(trace))
              || (files == old(files) - {name} && trace == old(trace) + [files])
      ensures trace != old(trace) ==>
                && name in old(files) && name !in directories && Unfailing(old(faults), Openings(name, false) + 1)
                && (ok ==> Taken(old(faults), faults, Openings(name, false) + 2))
                && (!ok ==> LastFailed(old(faults), faults))
      ensures trace == old(trace) && ok ==>
                || (name !in files && name !in directories)
                || LastFailed(old(faults), faults) || exists n :: 0 < n < |name| && name[..n] !in directories
      ensures trace == old(trace) && !ok ==> name in directories || LastFailed(old(faults), faults)
      ensures Calm(old(faults)) && name !in directories ==> ok && Calm(faults) && files == old(files) - {name}
    {
      Known();
      MissingFile(files, directories, name);
      hide Valid, Calm, StruckAt, Rooted, Taken, LastFailed, Flag, After, Unfailing, Explains;
      var parentOpen;
      ghost var cause;
      parentOpen, cause := OpenParent(name, false);
      if !parentOpen {
        return true;
      }
      if name !in files && name !in directories {
        return true;
      }
      ghost var inside := faults;
      var fault := Fails();
      UnlinkSteps(old(faults), inside, faults, Openings(name, false), fault);
      if fault || name in directories {
        return false;
      }
      Drop(name);
      ghost var dropped := faults;
      fault := Fails();
      UnlinkSteps(old(faults), dropped, faults, Openings(name, false) + 1, fault);
      ok := !fault;
    }

    /** Walk the whole tree: nothing but allowed names, and a complete set once the marker is gone. */
    method VerifyOutput() returns (ok: bool, present: set<Path>, marked: bool)
      requires Valid()
      modifies this`faults
      ensures Valid() && |faults| <= |old(faults)| && present == files.Keys && marked == marker
      ensures ok <==> Taken(old(faults), faults, 1) && Verifies(tools, allowed, files, directories, strays, marker)
      ensures Calm(old(faults)) ==> Calm(faults) && (ok <==> Verifies(tools, allowed, files, directories, strays, marker))
      ensures AtMostOne(old(faults)) ==>
                && AtMostOne(faults)
                && (!ok && Verifies(tools, allowed, files, directories, strays, marker) ==> Calm(faults))
    {
      hide Valid, Calm, AtMostOne, StruckAt, Taken, LastFailed, Flag, After;
      present, marked := files.Keys, marker;
      ghost var start := faults;
      var fault := Fails();
      NotTaken(start, faults);
      ok := !fault && strays == [] && files.Keys <= allowed && directories <= DirectoriesOf(allowed);
      if ok && !marker {
        ok := files.Keys == allowed && directories == DirectoriesOf(allowed);
        if ok && PUBLIC_MANIFEST in allowed {
          ok := tools.manifestOk(files[PUBLIC_MANIFEST]);
        }
      }
    }

    // ---------- pruning ----------

    /** Remove the empty allowed directories, deepest first. What is left was occupied or passed over,
        and nothing else; each one passed over has its own cause. */
    method Prune() returns (ok: bool)
      requires Valid()
      modifies this`directories, this`faults, this`skipped
      ensures Valid() && |faults| <= |old(faults)| && directories <= old(directories)
      ensures ok && old(directories) <= DirectoriesOf(allowed) ==>
                forall d :: d in directories <==>
                  d in old(directories) && (d in skipped || Occupied(files, directories, strays, d))
      ensures forall d :: d in skipped ==> Explains(script, old(faults), faults, directories, d, skipped[d])
      ensures forall d, e :: d in skipped && e in skipped && skipped[d].Struck? && skipped[d] == skipped[e] ==> d == e
      ensures ok && old(directories) <= DirectoriesOf(allowed) ==>
                EmptyOnlyByFault(script, old(faults), faults, files, directories, strays, skipped)
      ensures Calm(old(faults)) ==> ok && Calm(faults)
      ensures
        var order := tools.deepestFirst(DirectoriesOf(allowed));
        old(faults) != [] && old(faults)[0] && order != [] && |order[0]| > 1 ==>
          order[0] in skipped && (Calm(old(faults)[1..]) ==> ok && Calm(faults))
    {
      var order := tools.deepestFirst(DirectoriesOf(allowed));
      Known();
      DeepestFirst(tools, DirectoriesOf(allowed));
      hide *;
      ok := PruneInOrder(order);
      Known();
      ExplainedMeans(script, old(faults), faults, directories, skipped);
      if ok {
        PrunedIsExact(old(directories), directories, order, allowed, skipped, files, strays);
        if old(directories) <= DirectoriesOf(allowed) {
          ExplainedIsStruck(script, old(faults), faults, directories, skipped, files, strays);
        }
      }
    }

    /** One directory: passed over when its parent cannot be opened, otherwise removed if empty. */
    method PruneOne(d: Path) returns (ok: bool, ghost cause: Cause)
      requires Valid()
      modifies this`directories, this`faults
      ensures Valid() && |faults| <= |old(faults)| && directories <= old(directories)
      ensures cause != Fine ==> directories == old(directories) && Explains(script, old(faults), faults, directories, d, cause)
      ensures ok && cause == Fine ==>
                directories == if d in old(directories) && !Occupied(files, old(directories), strays, d)
                               then old(directories) - {d} else old(directories)
      ensures !ok ==> cause == Fine && LastFailed(old(faults), faults) && directories == old(directories)
      ensures ok && cause == Fine ==> Taken(old(faults), faults, |d|)
      ensures Calm(old(faults)) ==> ok && Calm(faults)
      ensures old(faults) != [] && old(faults)[0] && |d| > 1 ==> cause != Fine && faults == old(faults)[1..]
    {
      hide *;
      NoneTaken(faults);
      OpeningsIs(d);
      cause := Fine;
      if |d| > 1 {
        var parentOpen;
        parentOpen, cause := OpenParent(d, false);
        if !parentOpen {
          ExplainsIsNotFine(script, old(faults), faults, directories, d, cause);
          return true, cause;
        }
        cause := Fine;
      }
      ghost var inside := faults;
      var fault := Fails();
      UnlinkSteps(old(faults), inside, faults, |d| - 1, fault);
      if fault {
        return false, Fine;
      }
      if d in directories && !Occupied(files, directories, strays, d) {
        Known();
        WithoutEmpty(files, directories, strays, d);
        SetDirectories(directories - {d});
      }
      ok := true;
    }

    /** The directory at position n, with its cause noted when it is passed over. */
    method PruneNext(order: seq<Path>, n: nat, ghost start: set<Path>, ghost faultsThen: seq<bool>) returns (ok: bool)
      requires Valid() && n < |order| && |faults| <= |faultsThen|
      requires Pruned(start, directories, order, n, skipped, files, strays)
      requires AllExplained(script, faultsThen, faults, directories, skipped)
      modifies this`directories, this`faults, this`skipped
      ensures Valid() && |faults| <= |old(faults)| && directories <= old(directories)
      ensures AllExplained(script, faultsThen, faults, directories, skipped)
      ensures ok ==> Pruned(start, directories, order, n + 1, skipped, files, strays)
      ensures forall d :: d in old(skipped) ==> d in skipped
      ensures Calm(old(faults)) ==> ok && Calm(faults)
      ensures old(faults) != [] && old(faults)[0] && |order[n]| > 1 ==> ok && order[n] in skipped && faults == old(faults)[1..]
    {
      hide *;
      ghost var left, before := faults, directories;
      ghost var cause;
      ok, cause := PruneOne(order[n]);
      StillExplained(script, faultsThen, left, faults, before, directories, skipped);
      if !ok {
        return false;
      }
      if cause != Fine {
        PassedOver(start, directories, order, n, skipped, files, strays, cause);
        OneMoreExplained(script, faultsThen, left, faults, directories, skipped, order[n], cause);
        SetSkipped(skipped[order[n] := cause]);
      } else {
        Visited(start, before, directories, order, n, skipped, files, strays);
      }
    }

    method PruneInOrder(order: seq<Path>) returns (ok: bool)
      requires Valid()
      requires Descends(order)
      modifies this`directories, this`faults, this`skipped
      ensures Valid() && |faults| <= |old(faults)| && directories <= old(directories)
      ensures AllExplained(script, old(faults), faults, directories, skipped)
      ensures ok ==> Pruned(old(directories), directories, order, |order|, skipped, files, strays)
      ensures Calm(old(faults)) ==> ok && Calm(faults)
      ensures old(faults) != [] && old(faults)[0] && order != [] && |order[0]| > 1 ==>
                order[0] in skipped && (Calm(old(faults)[1..]) ==> ok && Calm(faults))
    {
      ghost var start, faultsThen := directories, faults;
      ghost var strikes := old(faults) != [] && old(faults)[0] && order != [] && |order[0]| > 1;
      SetSkipped(map[]);
      NothingPruned(directories, order, skipped, files, strays, script, faults);
      hide *;
      for n := 0 to |order|
        invariant Valid() && |faults| <= |faultsThen| && directories <= start
        invariant Pruned(start, directories, order, n, skipped, files, strays)
        invariant AllExplained(script, faultsThen, faults, directories, skipped)
        invariant Calm(faultsThen) ==> Calm(faults)
        invariant n == 0 ==> faults == faultsThen
        invariant n > 0 && strikes ==> order[0] in skipped && (Calm(faultsThen[1..]) ==> Calm(faults))
      {
        ok := PruneNext(order, n, start, faultsThen);
        if !ok {
          return false;
        }
      }
      ok := true;
    }

    // ---------- publishing ----------

    /** Replace one file of the order. */
    method Replace(documents: Tree, order: seq<Path>, n: nat, ghost before: Tree) returns (ok: bool)
      requires Valid() && documents.Keys == allowed && Lists(order, allowed) && ManifestsLast(order)
      requires n < |order| && order[n] in documents && Overlaid(before, files, documents, order, n)
      modifies this`files, this`directories, this`strays, this`faults, this`trace
      ensures Valid() && |faults| <= |old(faults)|
      ensures (trace == old(trace) && files == old(files)) || (trace == old(trace) + [files] && NoMixture(before, files, documents))
      ensures Outside(before, files, documents)
      ensures ok ==> Overlaid(before, files, documents, order, n + 1) && strays == old(strays) && AllClear(old(faults), faults)
      ensures Inside(allowed, old(files), old(directories)) ==> Inside(allowed, files, directories)
      ensures Separate(allowed) && Inside(allowed, old(files), old(directories)) && Small(documents) ==>
                && (Calm(old(faults)) ==> ok && Calm(faults))
                && (AtMostOne(old(faults)) ==> if ok then AtMostOne(faults) else Calm(faults) && strays == old(strays))
    {
      ListsOnly(order, allowed);
      hide *;
      OverlayOutside(before, files, documents, order, n);
      OverlayStep(before, files, documents, order, n);
      OverlayUnmixed(before, files[order[n] := documents[order[n]]], documents, order, n + 1);
      OverlayOutside(before, files[order[n] := documents[order[n]]], documents, order, n + 1);
      PathsApart(allowed, files, directories, order[n]);
      SmallAt(documents, order[n]);
      ok := AtomicReplace(order[n], documents[order[n]]);
      StillInside(allowed, old(files), old(directories), files, directories, order[n]);
    }

    /** Replace every file in publish order, manifests last. */
    method Forward(documents: Tree) returns (ok: bool)
      requires Valid() && documents.Keys == allowed
      modifies this`files, this`directories, this`strays, this`faults, this`trace
      ensures Valid() && |faults| <= |old(faults)| && old(trace) <= trace
      ensures forall i :: |old(trace)| <= i < |trace| ==> NoMixture(old(files), trace[i], documents)
      ensures Outside(old(files), files, documents)
      ensures Inside(allowed, old(files), old(directories)) ==> Inside(allowed, files, directories)
      ensures ok && old(files).Keys <= allowed ==> files == documents
      ensures ok ==> strays == old(strays) && AllClear(old(faults), faults)
      ensures Separate(allowed) && Inside(allowed, old(files), old(directories)) && Small(documents) ==>
                && (Calm(old(faults)) ==> ok && Calm(faults))
                && (AtMostOne(old(faults)) ==> if ok then AtMostOne(faults) else Calm(faults) && strays == old(strays))
    {
      var order := PublishOrder(tools, allowed);
      PublishOrderLists(tools, allowed) by {
        Known();
      }
      ListsOnly(order, allowed);
      NothingOverlaid(files, documents, order);
      hide *;
      ok := ReplaceAll(documents, order);
      UnmixedMeans(trace, |old(trace)|, old(files), documents);
      if ok && old(files).Keys <= allowed {
        FullOverlay(old(files), files, documents, order);
      }
    }

    method ReplaceAll(documents: Tree, order: seq<Path>) returns (ok: bool)
      requires Valid() && documents.Keys == allowed && Lists(order, allowed) && ManifestsLast(order)
      requires (forall name :: name in order ==> name in documents) && Overlaid(files, files, documents, order, 0)
      modifies this`files, this`directories, this`strays, this`faults, this`trace
      ensures Valid() && |faults| <= |old(faults)| && old(trace) <= trace
      ensures Unmixed(trace, |old(trace)|, old(files), documents) && Outside(old(files), files, documents)
      ensures Inside(allowed, old(files), old(directories)) ==> Inside(allowed, files, directories)
      ensures ok ==> Overlaid(old(files), files, documents, order, |order|) && strays == old(strays)
      ensures ok ==> AllClear(old(faults), faults)
      ensures Separate(allowed) && Inside(allowed, old(files), old(directories)) && Small(documents) ==>
                && (Calm(old(faults)) ==> ok && Calm(faults))
                && (AtMostOne(old(faults)) ==> if ok then AtMostOne(faults) else Calm(faults) && strays == old(strays))
    {
      hide *;
      ghost var before := files;
      ghost var smooth := Separate(allowed) && Inside(allowed, before, directories) && Small(documents);
      NothingUnmixed(trace, before, documents);
      NothingOutside(before, documents);
      AllClearNothing(faults);
      for n := 0 to |order|
        invariant Valid() && |faults| <= |old(faults)| && old(trace) <= trace
        invariant Overlaid(before, files, documents, order, n) && Outside(before, files, documents)
        invariant Unmixed(trace, |old(trace)|, before, documents)
        invariant Inside(allowed, before, old(directories)) ==> Inside(allowed, files, directories)
        invariant strays == old(strays) && AllClear(old(faults), faults)
        invariant smooth && Calm(old(faults)) ==> Calm(faults)
        invariant smooth && AtMostOne(old(faults)) ==> AtMostOne(faults)
      {
        ghost var traced, left := trace, faults;
        ok := Replace(documents, order, n, before);
        UnmixedOnward(traced, trace, files, |old(trace)|, before, documents);
        if !ok {
          return;
        }
        AllClearMore(old(faults), left, faults);
      }
      ok := true;
    }

    /** Put the originals back, remove what was new, and prune. Without another fault this succeeds. */
    method Restore(originals: Tree, marked: bool) returns (ok: bool)
      requires Valid() && originals.Keys <= allowed && Inside(allowed, files, directories)
      modifies this`files, this`directories, this`strays, this`faults, this`trace, this`skipped
      ensures Valid() && |faults| <= |old(faults)| && old(trace) <= trace
      ensures Backward(trace, |old(trace)|, originals)
      ensures ok ==> files == originals && strays == [] && marker == marked
      ensures ok ==> EmptyOnlyByFault(script, old(faults), faults, files, directories, strays, skipped)
      ensures ok ==> EndsClear(old(faults), faults)
      ensures (Calm(old(faults)) && Separate(allowed) && Small(originals) && old(strays) == []
               && marker == marked && Complete(tools, allowed, originals, marked)) ==> ok
    {
      Known();
      hide *;
      ghost var smooth := Calm(faults) && Separate(allowed) && Small(originals) && strays == [];
      ok := PutBack(originals);
      if !ok {
        return;
      }
      ghost var pruning := faults;
      ok := PruneInside();
      if !ok {
        return;
      }
      Known();
      if smooth {
        Restored(tools, allowed, originals, files, directories, strays, marker);
      }
      ghost var pruned := faults;
      ok := Settle(originals.Keys, marked);
      if ok {
        Verified(tools, allowed, files, directories, strays, marker);
        HoldsAll(originals, files);
        EndedClear(script, old(faults), pruned, faults);
      }
      EmptyOnlyByFaultWider(script, old(faults), pruning, pruned, faults, files, directories, strays, skipped);
    }

    /** Write the originals back, and then remove what was new. */
    method PutBack(originals: Tree) returns (ok: bool)
      requires Valid() && originals.Keys <= allowed && Inside(allowed, files, directories)
      modifies this`files, this`directories, this`strays, this`faults, this`trace
      ensures Valid() && |faults| <= |old(faults)| && old(trace) <= trace && Inside(allowed, files, directories)
      ensures Backward(trace, |old(trace)|, originals)
      ensures ok ==> Holds(originals, files) && strays == old(strays)
      ensures Calm(old(faults)) && Separate(allowed) && Small(originals) ==> ok && Calm(faults) && files == originals
    {
      hide *;
      ok := WriteBack(originals);
      if ok {
        ghost var written := trace;
        ghost var moments;
        ok, moments := RemoveAdded(originals);
        BackwardJoin(written, trace, |old(trace)|, originals);
      }
    }

    /** The tree verifies, has these files and this marker, and is synced. */
    method Settle(names: set<Path>, marked: bool) returns (ok: bool)
      requires Valid()
      modifies this`faults
      ensures Valid() && |faults| <= |old(faults)|
      ensures ok ==>
                && Verifies(tools, allowed, files, directories, strays, marker)
                && files.Keys == names && marker == marked && Taken(old(faults), faults, 2)
      ensures Verifies(tools, allowed, files, directories, strays, marker) && files.Keys == names && marker == marked ==>
                && (Calm(old(faults)) ==> ok && Calm(faults))
                && (AtMostOne(old(faults)) ==> AtMostOne(faults) && (!ok ==> Calm(faults)))
    {
      hide *;
      var present, nowMarked;
      ok, present, nowMarked := VerifyOutput();
      ok := ok && present == names && nowMarked == marked;
      ghost var verified := faults;
      if ok {
        var fault := Fails();
        ok := !fault;
        if ok {
          TakenMore(old(faults), verified, faults, 1, 1);
        }
      }
    }

    method WriteBack(originals: Tree) returns (ok: bool)
      requires Valid() && originals.Keys <= allowed && Inside(allowed, files, directories)
      modifies this`files, this`directories, this`strays, this`faults, this`trace
      ensures Valid() && |faults| <= |old(faults)| && old(trace) <= trace && Inside(allowed, files, directories)
      ensures Backward(trace, |old(trace)|, originals)
      ensures ok ==> Holds(originals, files) && strays == old(strays)
      ensures Calm(old(faults)) && Separate(allowed) && Small(originals) ==> ok && Calm(faults)
    {
      var order := PublishOrder(tools, originals.Keys);
      PublishOrderLists(tools, originals.Keys) by {
        Known();
      }
      hide *;
      NothingBackward(trace, originals);
      for n := 0 to |order|
        invariant Valid() && |faults| <= |old(faults)| && old(trace) <= trace && Inside(allowed, files, directories)
        invariant Backward(trace, |old(trace)|, originals)
        invariant forall i :: 0 <= i < n ==> order[i] in originals && order[i] in files && files[order[i]] == originals[order[i]]
        invariant strays == old(strays)
        invariant Calm(old(faults)) && Separate(allowed) && Small(originals) ==> Calm(faults)
      {
        ghost var files', directories' := files, directories;
        ListedAt(order, originals.Keys, n);
        PathsApart(allowed, files, directories, order[n]);
        SmallAt(originals, order[n]);
        ghost var trace' := trace;
        Known();
        ok := AtomicReplace(order[n], originals[order[n]]);
        BackwardOnward(trace', trace, files', files, |old(trace)|, originals, order[n]);
        StillInside(allowed, files', directories', files, directories, order[n]);
        if !ok {
          return;
        }
      }
      AllRestored(order, originals, files);
      ok := true;
    }

    /** Remove what was not there before, in reverse name order. Where it succeeds, no file was removed
        whose removal could not be made to last. */
    method RemoveAdded(originals: Tree) returns (ok: bool, ghost moments: seq<Moment>)
      requires Valid() && originals.Keys <= allowed && Inside(allowed, files, directories) && Holds(originals, files)
      modifies this`files, this`faults, this`directories, this`trace
      ensures Valid() && |faults| <= |old(faults)| && old(trace) <= trace && Inside(allowed, files, directories)
      ensures Backward(trace, |old(trace)|, originals)
      ensures ok ==> Holds(originals, files)
      ensures Between(moments, Moment(old(files), old(faults)), Moment(files, faults))
      ensures ok ==> Removed(moments, tools.sorted(allowed - originals.Keys))
      ensures Calm(old(faults)) && Separate(allowed) ==> ok && Calm(faults) && files == originals
    {
      var added := tools.sorted(allowed - originals.Keys);
      Sorted(tools, allowed - originals.Keys) by {
        Known();
      }
      hide *;
      NothingBackward(trace, originals);
      moments := [Moment(files, faults)];
      NothingRemoved(moments[0], added);
      var left: nat := |added|;
      while left > 0
        invariant left <= |added|
        invariant Between(moments, Moment(old(files), old(faults)), Moment(files, faults))
        invariant Removed(moments, added[left..])
        invariant Valid() && |faults| <= |old(faults)| && old(trace) <= trace && Inside(allowed, files, directories)
        invariant Holds(originals, files) && Backward(trace, |old(trace)|, originals)
        invariant Calm(old(faults)) && Separate(allowed) ==>
                    Calm(faults) && forall i :: left <= i < |added| ==> added[i] !in files
      {
        ghost var files', directories' := files, directories;
        left := left - 1;
        ListedAt(added, allowed - originals.Keys, left);
        PathsApart(allowed, files, directories, added[left]);
        ghost var trace', faults' := trace, faults;
        Known();
        ok := UnlinkFile(added[left]);
        if ok && trace != trace' {
          TakenIsClear(faults', faults, Openings(added[left], false) + 2);
        }
        if ok {
          OneRemoved(moments, added, left, Moment(files', faults'), Moment(files, faults));
        }
        GoOn(moments, Moment(old(files), old(faults)), Moment(files, faults));
        moments := moments + [Moment(files, faults)];
        BackwardOnward(trace', trace, files', files, |old(trace)|, originals, added[left]);
        StillInside(allowed, files', directories', files, directories, added[left]);
        StillHolds(originals, files', files, added[left]);
        if !ok {
          return;
        }
      }
      ok := true;
      if Calm(old(faults)) && Separate(allowed) {
        OnlyOriginals(allowed, originals, files, directories, added);
      }
    }

    method PruneInside() returns (ok: bool)
      requires Valid() && Inside(allowed, files, directories)
      modifies this`directories, this`faults, this`skipped
      ensures Valid() && |faults| <= |old(faults)| && Inside(allowed, files, directories)
      ensures ok ==> EmptyOnlyByFault(script, old(faults), faults, files, directories, strays, skipped)
      ensures Calm(old(faults)) ==> ok && Calm(faults)
    {
      hide Valid, DirectoriesOf, EmptyOnlyByFault, Explains, Calm, Occupied;
      ok := Prune();
    }

    /** Replace the files and check the result: what publishing does before it counts. */
    method Commit(documents: Tree, marked: bool) returns (ok: bool)
      requires Valid() && documents.Keys == allowed && Inside(allowed, files, directories) && strays == []
      modifies this`files, this`directories, this`strays, this`faults, this`trace
      ensures Valid() && |faults| <= |old(faults)| && old(trace) <= trace && Inside(allowed, files, directories)
      ensures forall i :: |old(trace)| <= i < |trace| ==> NoMixture(old(files), trace[i], documents)
      ensures ok ==> files == documents && strays == [] && AllClear(old(faults), faults) && EndsClear(old(faults), faults)
      ensures Separate(allowed) && Small(documents) && marker == marked && Complete(tools, allowed, documents, marked) ==>
                && (Calm(old(faults)) ==> ok)
                && (AtMostOne(old(faults)) && !ok ==> Calm(faults) && strays == [])
    {
      Known();
      hide *;
      ok := Forward(documents);
      if ok {
        InsideKeys(allowed, old(files), old(directories));
        Known();
        Restored(tools, allowed, documents, files, directories, strays, marker);
        ghost var forwarded := faults;
        ok := Settle(allowed, marked);
        if ok {
          Verified(tools, allowed, files, directories, strays, marker);
          Finished(script, old(faults), forwarded, faults);
        }
      }
    }

    method CheckLimits(documents: Tree, names: seq<Path>) returns (ok: bool)
      requires forall name :: name in names ==> name in documents
      ensures ok <==> WithinLimits(documents, names)
    {
      var total := 0;
      for n := 0 to |names|
        invariant forall i :: 0 <= i < n ==> |documents[names[i]]| <= MAX_FILE_BYTES
        invariant (forall name :: name in names[..n] ==> name in documents) && total == TotalBytes(documents, names[..n])
        invariant total <= MAX_TOTAL_BYTES
      {
        assert names[..n + 1][..n] == names[..n];
        total := total + |documents[names[n]]|;
        if |documents[names[n]]| > MAX_FILE_BYTES || total > MAX_TOTAL_BYTES {
          TotalGrows(documents, names, n + 1);
          return false;
        }
      }
      assert names[..|names|] == names;
      ok := true;
    }

    method ReadAll(names: set<Path>) returns (ok: bool, originals: Tree)
      requires Valid() && names == files.Keys
      modifies this`faults
      ensures Valid() && |faults| <= |old(faults)|
      ensures ok ==> originals == files && Small(originals) && AllClear(old(faults), faults)
      ensures Calm(old(faults)) ==> Calm(faults) && (ok <==> Small(files))
      ensures AtMostOne(old(faults)) ==> AtMostOne(faults)
    {
      hide Valid, Calm, AtMostOne, StruckAt, AllClear, Taken, LastFailed, Flag, After;
      AllClearNothing(faults);
      originals := map[];
      var left := names;
      while left != {}
        invariant Valid() && |faults| <= |old(faults)|
        invariant left <= names && originals.Keys == names - left && AllClear(old(faults), faults)
        invariant forall name :: name in originals ==> originals[name] == files[name] && |files[name]| <= MAX_FILE_BYTES
        invariant Calm(old(faults)) ==> Calm(faults)
        invariant AtMostOne(old(faults)) ==> AtMostOne(faults)
        decreases |left|
      {
        var name :| name in left;
        left := left - {name};
        ghost var coming := faults;
        var fault := Fails();
        if !fault {
          TakenIsClear(coming, faults, 1);
          AllClearMore(old(faults), coming, faults);
        }
        if fault || |files[name]| > MAX_FILE_BYTES {
          return false, originals;
        }
        originals := originals[name := files[name]];
      }
      ok := true;
    }

    /** What must hold before anything is touched: the limits, a tree that verifies, and every
        original read. */
    method Prepare(documents: Tree) returns (ok: bool, originals: Tree, marked: bool)
      requires Valid() && documents.Keys == allowed
      modifies this`faults
      ensures Valid() && |faults| <= |old(faults)|
      ensures ok ==> WithinLimits(documents, tools.sorted(allowed)) && Small(documents) && Small(originals)
      ensures ok ==> originals == files && marked == marker && strays == [] && originals.Keys <= allowed
      ensures ok ==> Inside(allowed, files, directories) && Complete(tools, allowed, originals, marked)
      ensures ok ==> AllClear(old(faults), faults)
      ensures (Calm(old(faults)) && WithinLimits(documents, tools.sorted(allowed)) && Small(files)
               && Verifies(tools, allowed, files, directories, strays, marker)) ==> ok && Calm(faults)
      ensures AtMostOne(old(faults)) ==> AtMostOne(faults)
    {
      var names := tools.sorted(allowed);
      Sorted(tools, allowed) by {
        Known();
      }
      ListsOnly(names, allowed);
      hide *;
      originals, marked := map[], false;
      ok := CheckLimits(documents, names);
      if !ok {
        return;
      }
      LimitsAreSmall(documents, names, allowed);
      var existing;
      ok, existing, marked := VerifyOutput();
      if !ok {
        return;
      }
      Verified(tools, allowed, files, directories, strays, marker);
      ghost var verified := faults;
      ok, originals := ReadAll(existing);
      TakenIsClear(old(faults), verified, 1);
      if ok {
        AllClearMore(old(faults), verified, faults);
      }
    }

    /** Publish the whole set. On success the tree is exactly the documents; after a failure it is
        exactly what it was, unless putting it back failed too, and that takes two faults. Up to
        `forward`, no moment shows a new manifest beside an old asset; from there on every change puts
        an original back or removes what is none. */
    method Publish(documents: Tree) returns (outcome: Outcome, ghost forward: nat)
      requires Valid()
      modifies this`files, this`directories, this`strays, this`faults, this`trace, this`skipped
      ensures Valid() && |faults| <= |old(faults)| && old(trace) <= trace
      ensures outcome.Published? ==>
                && files == documents && documents.Keys == allowed && strays == []
                && WithinLimits(documents, tools.sorted(allowed)) && AllClear(old(faults), faults)
      ensures outcome.Refused? ==> files == old(files) && directories == old(directories) && trace == old(trace)
      ensures outcome.RolledBack? ==>
                && files == old(files) && strays == []
                && EmptyOnlyByFault(script, old(faults), faults, files, directories, strays, skipped)
      ensures |old(trace)| <= forward <= |trace|
      ensures forall i :: |old(trace)| <= i < forward ==> NoMixture(old(files), trace[i], documents)
      ensures outcome.Published? ==> forward == |trace|
      ensures Backward(trace, forward, old(files))
      ensures (Calm(old(faults)) && Separate(allowed) && documents.Keys == allowed && Small(old(files))
               && WithinLimits(documents, tools.sorted(allowed)) && Complete(tools, allowed, documents, marker)
               && Verifies(tools, allowed, old(files), old(directories), old(strays), marker)) ==> outcome.Published?
      ensures AtMostOne(old(faults)) && Separate(allowed) && Complete(tools, allowed, documents, marker) ==>
                && !outcome.RollbackFailed?
                && (outcome.RolledBack? ==> forall d :: d in directories ==> Occupied(files, directories, strays, d))
    {
      forward := |trace|;
      NothingBackward(trace, files);
      if documents.Keys != allowed {
        return Refused, forward;
      }
      hide *;
      CalmIsAtMostOne(faults);
      var ok, originals, marked := Prepare(documents);
      if !ok {
        return Refused, forward;
      }
      ghost var prepared := faults;
      ok := Commit(documents, marked);
      forward := |trace|;
      NothingBackward(trace, originals);
      if ok {
        AllClearMore(old(faults), prepared, faults);
        return Published, forward;
      }
      ghost var restoring := faults;
      Known();
      ok := Restore(originals, marked);
      outcome := if ok then RolledBack else RollbackFailed;
      if ok {
        Known();
        RolledBackClean(script, old(faults), restoring, faults, files, directories, strays, skipped);
      }
    }
  }

  /** A fault while the parent is opened leaves an empty directory behind a pruning that succeeds,
      and the verification accepts the tree. */
  method PruneLeavesEmptyDirectory(t: Tools) returns (pruned: bool, accepted: bool, files: Tree, left: set<Path>)
    requires t.Valid()
    ensures pruned && accepted && files == map[] && left == {["a"], ["a", "b"]}
    ensures !Occupied(files, left, [], ["a", "b"])
  {
    var a: Path, b: Path, x: Path := ["a"], ["a", "b"], ["a", "b", "x"];
    DirectoriesOfOne(a, b, x);
    DeepestOfTwo(t, a, b);
    LeftEmpty(t, {x}, a, b);
    hide *;
    var w := new Workspace(t, {x}, map[], {a, b}, true, [true]);
    pruned := w.Prune();
    BothStay({a, b}, w.directories, w.skipped, w.files, w.strays, a, b);
    var present, marked;
    accepted, present, marked := w.VerifyOutput();
    files, left := w.files, w.directories;
  }

  lemma BothStay(start: set<Path>, now: set<Path>, skipped: map<Path, Cause>, files: Tree, strays: seq<seq<string>>,
                 a: Path, b: Path)
    requires start == {a, b} && a < b && b in skipped && now <= start
    requires forall d :: d in now <==> d in start && (d in skipped || Occupied(files, now, strays, d))
    ensures now == start
  {
    assert b in now;
    assert Occupied(files, now, strays, a);
  }

  lemma LeftEmpty(t: Tools, allowed: set<Path>, a: Path, b: Path)
    requires a == ["a"] && b == ["a", "b"] && DirectoriesOf(allowed) == {a, b}
    ensures Rooted(map[], {a, b}) && !Occupied(map[], {a, b}, [], b) && a < b
    ensures Verifies(t, allowed, map[], {a, b}, [], true) && Calm([true][1..])
  {
    assert b[..1] == a;
  }

  lemma DirectoriesOfOne(a: Path, b: Path, x: Path)
    requires a == ["a"] && b == ["a", "b"] && x == ["a", "b", "x"]
    ensures DirectoriesOf({x}) == {a, b}
  {
    assert x[..1] == a && x[..2] == b;
    forall d | d in DirectoriesOf({x})
      ensures d == a || d == b
    {
      var n :| 0 < n < 3 && d == x[..n];
    }
  }

  lemma DeepestOfTwo(t: Tools, a: Path, b: Path)
    requires t.Valid() && |a| < |b|
    ensures t.deepestFirst({a, b}) != [] && t.deepestFirst({a, b})[0] == b
  {
    var order := t.deepestFirst({a, b});
    assert Lists(order, {a, b});
    assert a in order && b in order;
    assert order[0] in order;
  }

  lemma OneMoreDirectory(files: Tree, directories: set<Path>, name: Path, n: nat)
    requires Rooted(files, directories) && 0 < n < |name| && forall i :: 0 < i < n ==> name[..i] in directories
    ensures Rooted(files, directories + {name[..n]})
  {
    forall d, i | d in directories + {name[..n]} && 0 < i < |d|
      ensures d[..i] in directories + {name[..n]}
    {
      if d == name[..n] {
        assert d[..i] == name[..i];
      }
    }
  }

  /** No directory twice, and none before a deeper one. */
  ghost predicate Descends(order: seq<Path>) {
    forall i, j :: 0 <= i < j < |order| ==> |order[i]| >= |order[j]| && order[i] != order[j]
  }

  /** After the first n directories of the order: those not reached are untouched, and of those
      reached exactly the ones passed over or occupied are left. */
  ghost predicate Pruned(start: set<Path>, now: set<Path>, order: seq<Path>, n: nat, skipped: map<Path, Cause>,
                         files: Tree, strays: seq<seq<string>>) {
    && n <= |order| && now <= start
    && Descends(order)
    && (forall d :: d in start && d !in order[..n] ==> d in now)
    && (forall d :: d in skipped ==> d in order[..n])
    && (forall d :: d in order[..n] ==> (d in now <==> d in start && (d in skipped || Occupied(files, now, strays, d))))
  }

  ghost predicate AllExplained(script: seq<bool>, before: seq<bool>, after: seq<bool>, directories: set<Path>,
                               skipped: map<Path, Cause>) {
    && (forall d :: d in skipped ==> Explains(script, before, after, directories, d, skipped[d]))
    && (forall d, e :: d in skipped && e in skipped && skipped[d].Struck? && skipped[d] == skipped[e] ==> d == e)
  }

  lemma NothingPruned(start: set<Path>, order: seq<Path>, skipped: map<Path, Cause>, files: Tree,
                      strays: seq<seq<string>>, script: seq<bool>, faults: seq<bool>)
    requires skipped == map[]
    requires Descends(order)
    ensures Pruned(start, start, order, 0, skipped, files, strays) && AllExplained(script, faults, faults, start, skipped)
  {
  }

  lemma DeepestFirst(t: Tools, s: set<Path>)
    requires t.Valid()
    ensures Lists(t.deepestFirst(s), s)
    ensures Descends(t.deepestFirst(s))
  {
    var order := t.deepestFirst(s);
    assert Lists(order, s);
  }

  lemma PassedOver(start: set<Path>, now: set<Path>, order: seq<Path>, n: nat, skipped: map<Path, Cause>, files: Tree,
                   strays: seq<seq<string>>, cause: Cause)
    requires Pruned(start, now, order, n, skipped, files, strays) && n < |order|
    ensures order[n] !in skipped && Pruned(start, now, order, n + 1, skipped[order[n] := cause], files, strays)
  {
    hide Occupied;
    assert order[..n + 1] == order[..n] + [order[n]];
    assert order[n] !in order[..n];
  }

  lemma Visited(start: set<Path>, before: set<Path>, now: set<Path>, order: seq<Path>, n: nat, skipped: map<Path, Cause>,
                files: Tree, strays: seq<seq<string>>)
    requires Pruned(start, before, order, n, skipped, files, strays) && n < |order|
    requires now == if order[n] in before && !Occupied(files, before, strays, order[n]) then before - {order[n]} else before
    ensures Pruned(start, now, order, n + 1, skipped, files, strays)
  {
    var d := order[n];
    assert order[..n + 1] == order[..n] + [d] && d !in order[..n];
    hide Occupied;
    forall e | e in order[..n + 1]
      ensures e in now <==> e in start && (e in skipped || Occupied(files, now, strays, e))
    {
      FewerOccupied(files, before, now, strays, e);
      if now != before && e != d && Occupied(files, before, strays, e) {
        StaysOccupied(files, before, strays, d, e);
      }
    }
  }

  lemma FewerOccupied(files: Tree, more: set<Path>, fewer: set<Path>, strays: seq<seq<string>>, d: Path)
    requires fewer <= more
    ensures Occupied(files, fewer, strays, d) ==> Occupied(files, more, strays, d)
  {
  }

  lemma WithoutEmpty(files: Tree, directories: set<Path>, strays: seq<seq<string>>, d: Path)
    requires Rooted(files, directories) && !Occupied(files, directories, strays, d)
    ensures Rooted(files, directories - {d})
  {
    forall f, n | f in files && 0 < n < |f|
      ensures f[..n] in directories - {d}
    {
      assert f[..n] == d ==> d < f;
    }
    forall e, n | e in directories - {d} && 0 < n < |e|
      ensures e[..n] in directories - {d}
    {
      assert e[..n] == d ==> d < e;
    }
  }

  lemma OneMoreExplained(script: seq<bool>, a: seq<bool>, b: seq<bool>, c: seq<bool>, directories: set<Path>,
                         skipped: map<Path, Cause>, d: Path, cause: Cause)
    requires AllExplained(script, a, b, directories, skipped) && Explains(script, b, c, directories, d, cause)
    requires |c| <= |b| <= |a| && d !in skipped
    ensures AllExplained(script, a, c, directories, skipped[d := cause])
  {
  }

  lemma StillExplained(script: seq<bool>, a: seq<bool>, b: seq<bool>, c: seq<bool>, before: set<Path>, after: set<Path>,
                       skipped: map<Path, Cause>)
    requires AllExplained(script, a, b, before, skipped) && after <= before && |c| <= |b|
    ensures AllExplained(script, a, c, after, skipped)
  {
  }

  lemma PrunedIsExact(start: set<Path>, now: set<Path>, order: seq<Path>, allowed: set<Path>, skipped: map<Path, Cause>,
                      files: Tree, strays: seq<seq<string>>)
    requires Pruned(start, now, order, |order|, skipped, files, strays) && Lists(order, DirectoriesOf(allowed))
    ensures now <= start
    ensures start <= DirectoriesOf(allowed) ==>
              forall d :: d in now <==> d in start && (d in skipped || Occupied(files, now, strays, d))
  {
    hide Occupied, DirectoriesOf;
    assert order[..|order|] == order;
  }

  lemma ExplainedIsStruck(script: seq<bool>, before: seq<bool>, after: seq<bool>, now: set<Path>, skipped: map<Path, Cause>,
                          files: Tree, strays: seq<seq<string>>)
    requires AllExplained(script, before, after, now, skipped) && Rooted(files, now)
    requires forall d :: d in now ==> d in skipped || Occupied(files, now, strays, d)
    ensures EmptyOnlyByFault(script, before, after, files, now, strays, skipped)
  {
    hide Occupied, StruckAt;
    forall d | d in now && !Occupied(files, now, strays, d)
      ensures d in skipped && skipped[d].Struck? && StruckAt(script, before, after, skipped[d].step)
    {
      assert Explains(script, before, after, now, d, skipped[d]);
      if skipped[d].Missing? {
        MissingAbove(now, d, skipped[d].parent);
      }
    }
  }

  lemma ExplainsIsNotFine(script: seq<bool>, before: seq<bool>, after: seq<bool>, now: set<Path>, d: Path, cause: Cause)
    requires Explains(script, before, after, now, d, cause)
    ensures cause != Fine
  {
  }

  lemma MissingAbove(directories: set<Path>, d: Path, parent: Path)
    requires PrefixClosed(directories) && parent < d && parent !in directories
    ensures d !in directories
  {
    assert parent == d[..|parent|];
  }

  lemma ExplainedMeans(script: seq<bool>, before: seq<bool>, after: seq<bool>, now: set<Path>, skipped: map<Path, Cause>)
    requires AllExplained(script, before, after, now, skipped)
    ensures forall d :: d in skipped ==> Explains(script, before, after, now, d, skipped[d])
    ensures forall d, e :: d in skipped && e in skipped && skipped[d].Struck? && skipped[d] == skipped[e] ==> d == e
  {
  }

  /** Without faults a parent cannot be opened only where there is no file either. */
  lemma MissingFile(files: Tree, directories: set<Path>, name: Path)
    requires Rooted(files, directories)
    ensures forall parent: Path :: parent < name && parent !in directories ==> name !in files
  {
    forall parent: Path | parent < name && parent !in directories
      ensures name !in files
    {
      assert parent == name[..|parent|];
    }
  }

  /** Something is inside the directory. */
  predicate Occupied(files: Tree, directories: set<Path>, strays: seq<seq<string>>, d: Path) {
    || (exists f :: f in files && d < f)
    || (exists e :: e in directories && d < e)
    || (exists s :: s in strays && d <= s)
  }

  /** Removing a directory leaves every directory that is at least as deep as occupied as it was. */
  lemma StaysOccupied(files: Tree, directories: set<Path>, strays: seq<seq<string>>, d: Path, e: Path)
    requires |e| >= |d| && Occupied(files, directories, strays, e)
    ensures Occupied(files, directories - {d}, strays, e)
  {
    if other :| other in directories && e < other {
      assert other in directories - {d};
    }
  }
}
