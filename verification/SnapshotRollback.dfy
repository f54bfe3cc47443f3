/** Reserving, publishing and undoing a snapshot worktree. Every primitive lets other processes act
    first and may fail; the log of transitions is the only way the files change. */
module SnapshotRollback {
  import opened Wrappers
  import opened SnapshotLog

  /** The reserved directories, open by descriptor; a descriptor is the node it opened. */
  datatype Reservation = Reservation(
    parent: Node, finalName: string, anchorName: Name, anchor: Node, staging: Node) {

    function FinalKey(): Key { Key(parent, Public(finalName)) }
    function AnchorKey(): Key { Key(parent, anchorName) }
    function StagingKey(): Key { Key(anchor, Public("worktree")) }
  }

  datatype Metadata = Metadata(parent: Node, name: string, directory: Node) {
    function EntryKey(): Key { Key(parent, Public(name)) }
  }

  datatype Making = MadeNew | Exists | Failed

  /** No fault and no action of others is left. */
  ghost predicate Quiet(schedule: seq<Tick>) {
    forall t :: t in schedule ==> t == QUIET
  }

  lemma QuietNext(schedule: seq<Tick>)
    ensures Quiet(schedule) && schedule != [] ==> schedule[0] == QUIET && Quiet(schedule[1..])
    ensures forall f :: InterfereAll(f, QUIET.actions) == f
  {
    assert schedule != [] ==> schedule[0] in schedule;
    assert schedule != [] ==> forall t :: t in schedule[1..] ==> t in schedule;
  }

  lemma EntryStandsInDirectory(f: Files, nextToken: nat, k: Key)
    requires WellFormed(f, nextToken) && k in f.entries
    ensures k.dir in f.directories
  {
  }

  /** What a reservation may reach: its two directories, and the move that publishes the worktree. */
  function ReservedScope(r: Reservation): Scope {
    Scope({r.anchor, r.staging}, {r.AnchorKey(), r.StagingKey(), r.FinalKey()}, {(r.StagingKey(), r.FinalKey())}, {})
  }

  /** What an attempt at one may: make, or sweep, the candidate names and the staging name in the
      anchor that was opened. */
  function AttemptScope(parent: Node, candidates: seq<Name>, anchor: Option<Node>): (s: Scope)
    ensures s.roots == {}
  {
    Scope({}, {}, {}, (set c | c in candidates :: Key(parent, c))
                      + if anchor.Some? then {Key(anchor.value, Public("worktree"))} else {})
  }

  function Extended(s: Scope, m: Option<Metadata>): Scope {
    if m.Some? then Plus(s, RecordScope(m.value.EntryKey(), m.value.directory)) else s
  }

  function RecordScope(at: Key, node: Node): Scope {
    Scope({node}, {at}, {}, {})
  }

  ghost predicate RootsOwned(log: Log, scope: Scope) {
    forall n :: n in scope.roots ==> Owned(log, n)
  }

  lemma RootsStayOwned(a: Log, b: Log, scope: Scope)
    requires a <= b && RootsOwned(a, scope)
    ensures RootsOwned(b, scope)
  {
    hide Owned;
    forall n | n in scope.roots
      ensures Owned(b, n)
    {
      OwnedGrows(a, b, n);
    }
  }

  lemma UnderIsOwned(log: Log, scope: Scope, n: Node)
    requires RootsOwned(log, scope) && Under(log, scope.roots, n)
    ensures Owned(log, n)
  {
    hide Under, Owned;
    UnderOwned(log, scope.roots, n);
  }

  lemma AsidePermitted(log: Log, scope: Scope, from: Key, to: Key)
    requires Ours(log, scope, from) && from.dir == to.dir && to.name.Private?
    ensures Permitted(log, scope, from, to)
  {
  }

  lemma InsideIsOurs(log: Log, scope: Scope, d: Node, name: Name)
    requires Under(log, scope.roots, d)
    ensures Ours(log, scope, Key(d, name))
  {
  }

  lemma StillMoved(a: Log, b: Log, c: Log, scope: Scope, from: Key, to: Key)
    requires a <= b && Adds(b, c, {Passing}) && Ours(a, scope, from) && WasMoved(b, from, to)
    ensures Ours(c, scope, from) && WasMoved(c, from, to)
  {
    OursLater(a, c, scope, from);
    MovedStill(b, c, from, to);
  }

  /** The log continues with what others did and this move. */
  ghost predicate JustMoved(a: Log, b: Log, from: Key, to: Key, n: Node) {
    && a <= b && |b| == |a| + 2 && b[|a|].deed.Theirs? && b[|a| + 1].deed == Renamed(from, to)
    && Names(b[|a| + 1].before, from, n) && WasMoved(b, from, to)
  }

  /** The entry is back under its name, or the last thing others did left it no way back. */
  ghost predicate Returned(f: Files, log: Log, original: Key, aside: Key, n: Node) {
    || Names(f, original, n)
    || (Names(f, aside, n) && log != [] && log[|log| - 1].deed.Theirs?
        && (log[|log| - 1].deed.tick.fault || original in f.entries))
  }

  /** The entry is the expected one, as far as looking at it can tell. */
  ghost predicate Expected(f: Files, k: Key, descriptor: Node, expected: Node, directory: bool) {
    Names(f, k, expected) && (directory ==> descriptor == expected) && (directory <==> expected in f.directories)
  }

  /** The look at place i of the log was not struck by a fault and found the directory under the name. */
  ghost predicate Sighted(log: Log, i: nat, k: Key, n: Node) {
    i < |log| && log[i].deed.Theirs? && !log[i].deed.tick.fault && NamesDirectory(log[i].after, k, n)
  }

  lemma PassedRecord(a: Log, b: Log, c: Log, n: nat)
    requires Passed(a, b, n) && Adds(b, c, {Recording}) && |c| == |b| + 1
    ensures Passed(a, c, n + 1)
  {
    hide Orderly;
    assert KindOf(c[|b|].deed) in {Recording};
    assert Unstruck(b, c);
    PassedMore(a, b, c, n, 1);
  }

  lemma PublishedUnstruck(a: Log, b: Log, c: Log, r: Reservation, kinds: set<Kind>)
    requires WentPublic(a, b, r) && Adds(b, c, kinds) && Unstruck(b, c) && Emptied(b, c, r.anchor)
    ensures Unstruck(a, c) && Emptied(a, c, r.anchor)
  {
    UnstruckMore(a, b, c);
    EmptiedWider(a, b, c, c, r.anchor);
  }

  lemma CheckedAround(a: Log, b: Log, c: Log, d: Log, e: Log, r: Reservation, commit: string)
    requires StoodBoth(a, b, r) && Passed(b, c, 1) && c[|b|].after.ref == Some(commit)
    requires Unstruck(c, d) && Passed(d, e, 1)
    ensures Unstruck(a, e) && |e| > |a| + 6 && e[|a| + 6].after.ref == Some(commit)
  {
    UnstruckMore(a, b, c);
    UnstruckMore(a, c, d);
    UnstruckMore(a, d, e);
    assert e[|a| + 6] == d[|a| + 6] == c[|a| + 6];
  }

  lemma BoundUnstruck(a: Log, b: Log, c: Log, d: Log, r: Reservation, ok: bool)
    requires StoodBoth(a, b, r) && Passed(b, c, 10) && (ok ==> Unstruck(c, d))
    ensures ok ==> Unstruck(a, d)
  {
    if ok {
      UnstruckMore(a, b, c);
      UnstruckMore(a, c, d);
    }
  }

  /** Worktree, then metadata, then anchor: what each of the three did is done in the end. */
  lemma CleanedOn(a: Log, b: Log, c: Log, d: Log, r: Reservation, m: Option<Metadata>, ok: bool, kinds: set<Kind>)
    requires Adds(a, b, kinds) && Unlinks(a, b, r.staging) && Emptied(a, b, r.staging)
    requires Adds(b, c, kinds) && (m.Some? ==> Unlinks(b, c, m.value.directory) && Emptied(b, c, m.value.directory))
    requires Adds(c, d, kinds) && (ok ==> Unlinks(c, d, r.anchor) || Missed(c, d, r.AnchorKey(), r.anchor))
    ensures Adds(a, d, kinds)
    ensures Unlinks(a, d, r.staging) && Emptied(a, d, r.staging)
    ensures m.Some? ==> Unlinks(a, d, m.value.directory) && Emptied(a, d, m.value.directory)
    ensures ok ==> Unlinks(a, d, r.anchor) || Missed(a, d, r.AnchorKey(), r.anchor)
  {
    AddsMore(a, b, c, kinds, kinds, kinds);
    AddsMore(a, c, d, kinds, kinds, kinds);
    MissedLater(a, c, d, r.AnchorKey(), r.anchor, kinds);
    AddsPrefix(a, b, kinds);
    AddsPrefix(b, c, kinds);
    AddsPrefix(c, d, kinds);
    hide Adds, Unlinks, Emptied, Missed;
    UnlinksWider(a, a, b, d, r.staging);
    EmptiedWider(a, a, b, d, r.staging);
    if m.Some? {
      UnlinksWider(a, b, c, d, m.value.directory);
      EmptiedWider(a, b, c, d, m.value.directory);
    }
    if Unlinks(c, d, r.anchor) {
      UnlinksWider(a, c, d, d, r.anchor);
    }
  }

  lemma PassedIs(a: Log, b: Log, n: nat)
    requires Passed(a, b, n)
    ensures a <= b && |b| == |a| + n
  {
  }

  /** Both directories stood, and then the public name was free. */
  ghost predicate WasReady(a: Log, b: Log, r: Reservation) {
    && Passed(a, b, 8)
    && Sighted(b, |a| + 2, r.AnchorKey(), r.anchor) && Sighted(b, |a| + 5, r.StagingKey(), r.staging)
    && r.FinalKey() !in b[|a| + 6].after.entries
  }

  lemma Readied(a: Log, b: Log, c: Log, d: Log, r: Reservation)
    requires StoodBoth(a, b, r) && Adds(b, c, {Passing}) && Passed(b, c, 1) && r.FinalKey() !in c[|b|].after.entries
    requires Adds(c, d, {Passing}) && Passed(c, d, 1)
    ensures WasReady(a, d, r)
  {
    hide Orderly;
    assert |b| == |a| + 6 && d[|a| + 6] == c[|a| + 6];
    assert d[|a| + 2] == c[|a| + 2] == b[|a| + 2] && d[|a| + 5] == c[|a| + 5] == b[|a| + 5];
    hide Adds;
    PassedMore(a, b, c, 6, 1);
    PassedMore(a, c, d, 7, 1);
  }

  /** Thirteen transitions, none struck: the looks before, the move, and the looks after. */
  ghost predicate WentPublic(a: Log, b: Log, r: Reservation) {
    && Passed(a, b, 13)
    && Sighted(b, |a| + 2, r.AnchorKey(), r.anchor) && Sighted(b, |a| + 5, r.StagingKey(), r.staging)
    && r.FinalKey() !in b[|a| + 6].after.entries
    && b[|a| + 9].deed == Renamed(r.StagingKey(), r.FinalKey())
    && Sighted(b, |a| + 11, r.FinalKey(), r.staging)
  }

  lemma Arrived(a: Log, b: Log, c: Log, d: Log, r: Reservation)
    requires WasReady(a, b, r)
    requires Unstruck(b, c) && |c| == |b| + 2 && c[|b| + 1].deed == Renamed(r.StagingKey(), r.FinalKey())
    requires Adds(c, d, {Passing}) && Passed(c, d, 3) && Sighted(d, |c| + 1, r.FinalKey(), r.staging)
    ensures WentPublic(a, d, r)
  {
    hide Orderly;
    assert forall i :: 0 <= i < |b| ==> d[i] == c[i] == b[i];
    assert d[|a| + 9] == c[|a| + 9];
    hide Adds;
    PassedMore(a, b, c, 8, 2);
    PassedMore(a, c, d, 10, 3);
  }

  /** Six looks, none struck: both descriptors of each directory, and each under its name. */
  ghost predicate StoodBoth(a: Log, b: Log, r: Reservation) {
    && Passed(a, b, 6)
    && Sighted(b, |a| + 2, r.AnchorKey(), r.anchor) && Sighted(b, |a| + 5, r.StagingKey(), r.staging)
  }

  lemma BothStood(a: Log, b: Log, c: Log, d: Log, r: Reservation)
    requires Passed(a, d, 6) && |b| == |a| + 3 && |c| == |a| + 5 && Adds(b, c, {Passing}) && Adds(c, d, {Passing})
    requires Sighted(b, |a| + 2, r.AnchorKey(), r.anchor) && Sighted(d, |a| + 5, r.StagingKey(), r.staging)
    ensures StoodBoth(a, d, r)
  {
    hide Orderly;
    assert d[|a| + 2] == c[|a| + 2] == b[|a| + 2];
  }

  /** One look at the ref: what it held, unless a fault struck. */
  ghost predicate ReadHere(a: Log, b: Log, oid: Option<string>) {
    && a <= b && |b| == |a| + 1 && b[|a|].deed.Theirs?
    && oid == if b[|a|].deed.tick.fault then None else b[|a|].after.ref
  }

  lemma SightedStill(a: Log, b: Log, k: Key, n: Node)
    requires Adds(a, b, {Passing}) && |a| > 0
    ensures Sighted(b, |a| - 1, k, n) <==> Sighted(a, |a| - 1, k, n)
  {
    assert b[|a| - 1] == a[|a| - 1];
  }

  lemma SightedLater(a: Log, b: Log, c: Log, k: Key, n: Node, kinds: set<Kind>)
    requires |a| < |b| && Adds(b, c, kinds)
    ensures |c| >= |b| && (Sighted(c, |a|, k, n) <==> Sighted(b, |a|, k, n))
  {
    assert c[|a|] == b[|a|];
  }

  lemma SightedUnstruck(a: Log, b: Log, k: Key, n: Node)
    requires Adds(a, b, {Passing}) && |b| == |a| + 1
    ensures Sighted(b, |a|, k, n) ==> Unstruck(a, b)
  {
  }

  lemma LookedFirst(a: Log, b: Log, c: Log, r: Reservation, kinds: set<Kind>)
    requires |b| == |a| + 2 && Adds(b, c, kinds)
    ensures Sighted(c, |a|, r.FinalKey(), r.staging) <==> Sighted(b, |a|, r.FinalKey(), r.staging)
    ensures Sighted(c, |a| + 1, r.StagingKey(), r.staging) <==> Sighted(b, |a| + 1, r.StagingKey(), r.staging)
    ensures |c| >= |a| + 2 && c[..|a| + 2] == b
  {
    assert forall i :: 0 <= i < |b| ==> c[i] == b[i];
  }

  lemma LookedThen(a: Log, b: Log, c: Log, d: Log, r: Reservation, ok: bool, kinds: set<Kind>)
    requires Adds(a, b, kinds) && |b| == |a| + 2 && Adds(b, c, {Passing}) && Unstruck(b, c) && Adds(c, d, kinds)
    requires ok ==> Unstruck(c, d) && Emptied(c, d, r.staging)
    ensures Sighted(d, |a|, r.FinalKey(), r.staging) <==> Sighted(b, |a|, r.FinalKey(), r.staging)
    ensures Sighted(d, |a| + 1, r.StagingKey(), r.staging) <==> Sighted(b, |a| + 1, r.StagingKey(), r.staging)
    ensures |d| >= |a| + 2 && (ok ==> Unstruck(d[..|a| + 2], d) && Emptied(a, d, r.staging))
  {
    hide Orderly;
    assert b <= d && forall i :: 0 <= i < |b| ==> d[i] == b[i];
    assert d[..|a| + 2] == b;
    hide Adds;
    if ok {
      UnstruckMore(b, c, d);
      EmptiedWider(a, c, d, d, r.staging);
    }
  }

  lemma MoreRemoved(listed: Log, a: Log, b: Log, c: Log, d: Node, name: Name, node: Node, all: set<Name>, names: set<Name>,
                    kinds: set<Kind>)
    requires listed <= a && Adds(a, b, kinds) && |a| < |b| && b[|b| - 1].deed == Saw(Key(d, name), node)
    requires Adds(b, c, kinds) && Unlinks(b, c, node)
    requires forall other :: other in all - names ==> Removed(listed, a, Key(d, other))
    ensures forall other :: other in all - (names - {name}) ==> Removed(listed, c, Key(d, other))
    ensures listed <= c
  {
    AddsPrefix(a, b, kinds);
    AddsPrefix(b, c, kinds);
    hide Adds, Removed, Unlinks;
    forall other | other in all - (names - {name})
      ensures Removed(listed, c, Key(d, other))
    {
      if other == name {
        NowRemoved(listed, a, b, c, Key(d, name), node);
      } else {
        RemovedLater(listed, a, c, Key(d, other));
      }
    }
  }

  lemma AllRemoved(a: Log, listed: Log, b: Log, d: Node, all: set<Name>)
    requires Adds(a, listed, {Passing}) && listed <= b && |listed| == |a| + 1 && listed[|a|].deed.Theirs?
    requires forall k :: k in listed[|a|].after.entries && k.dir == d ==> k.name in all
    requires forall name :: name in all ==> Removed(listed, b, Key(d, name))
    ensures Emptied(a, b, d)
  {
    hide Removed;
    assert b[|a|] == listed[|a|] && b[..|a| + 1] == listed;
    assert EmptiedFrom(b, |a|, d);
  }

  lemma CheckedAgain(a: Log, b: Log, c: Log, node: Node, ok: bool)
    requires Adds(a, b, {Passing, Cleaning}) && Emptied(a, b, node) && Unstruck(a, b)
    requires Adds(b, c, {Passing}) && |c| == |b| + 1 && (ok <==> Unstruck(b, c))
    ensures Adds(a, c, {Passing, Cleaning})
    ensures ok ==> Unstruck(a, c) && Emptied(a, c, node) && Acts(c)
  {
    AddsMore(a, b, c, {Passing, Cleaning}, {Passing}, {Passing, Cleaning});
    assert KindOf(c[|b|].deed) in {Passing};
    hide Orderly;
    if ok {
      assert !c[|b|].deed.tick.fault;
      UnstruckMore(a, b, c);
      EmptiedWider(a, a, b, c, node);
    }
  }

  lemma EntryRemoved(a: Log, b: Log, c: Log, d: Log, node: Node, directory: bool, ok: bool, kinds: set<Kind>)
    requires Adds(a, b, kinds) && Unstruck(a, b)
    requires Adds(b, c, kinds) && Unstruck(b, c) && (directory ==> Emptied(b, c, node))
    requires Adds(c, d, kinds) && (ok ==> Unlinks(c, d, node) && Unstruck(c, d))
    ensures Adds(a, d, kinds)
    ensures ok ==> Unlinks(a, d, node) && Unstruck(a, d) && (directory ==> Emptied(a, d, node))
  {
    AddsMore(a, b, c, kinds, kinds, kinds);
    AddsMore(a, c, d, kinds, kinds, kinds);
    AddsPrefix(a, b, kinds);
    AddsPrefix(b, c, kinds);
    AddsPrefix(c, d, kinds);
    hide Adds, Unstruck, Emptied, Unlinks;
    if ok {
      UnlinksWider(a, c, d, d, node);
      UnstruckMore(a, b, c);
      UnstruckMore(a, c, d);
      if directory {
        EmptiedWider(a, b, c, d, node);
      }
    }
  }

  lemma GiveBackPermitted(log: Log, e: Event, scope: Scope, from: Key, to: Key)
    requires Ours(log, scope, to) && WasMoved(log, to, from) && from.dir == to.dir
    ensures Permitted(log + [e], scope, from, to)
  {
    OursLater(log, log + [e], scope, to);
    MovedStill(log, log + [e], to, from);
  }

  lemma StillAside(a: Files, b: Files, k: Key, n: Node)
    requires PrivateKept(a, b) && k.name.Private? && Names(a, k, n)
    ensures Names(b, k, n) && a.directories <= b.directories
  {
  }

  lemma NotExpected(f: Files, k: Key, descriptor: Node, expected: Node, directory: bool)
    ensures k !in f.entries ==> !Expected(f, k, descriptor, expected, directory)
  {
  }

  /** Moved aside and judged undisturbed: kept aside exactly when expected, and else back. */
  lemma IsolatedCalmly(f: Files, aside: Files, after: Files, from: Key, to: Key, moved: Node, same: bool,
                       descriptor: Node, expected: Node, directory: bool)
    requires from in f.entries && to !in f.entries && from != to
    requires aside == Moved(f, from, to) && Names(aside, to, moved)
    requires same <==> moved == expected && (directory ==> descriptor == expected)
                       && (directory <==> expected in aside.directories)
    requires after == if same || from in aside.entries then aside else Moved(aside, to, from)
    ensures same <==> Expected(f, from, descriptor, expected, directory)
    ensures after == if same then Moved(f, from, to) else f
  {
    BackAndForth(f, from, to);
  }

  lemma BackAndForth(f: Files, from: Key, to: Key)
    ensures from in f.entries && to !in f.entries && from != to ==> Moved(Moved(f, from, to), to, from) == f
  {
    if from in f.entries && to !in f.entries && from != to {
      assert Moved(Moved(f, from, to), to, from).entries == f.entries;
    }
  }

  lemma MovedOnce(a: Log, b: Log, ok: bool, kinds: set<Kind>)
    requires kinds == {Passing, Cleaning} && (!ok ==> Adds(a, b, {Passing}))
    requires ok ==>
               && a <= b && |b| == |a| + 2 && b[|a|].deed.Theirs? && b[|a| + 1].deed.Renamed?
               && b[|a| + 1].deed.to.name.Public?
    ensures Adds(a, b, kinds)
  {
    if ok {
      MoveAdds(a, b, kinds);
    } else {
      AddsWiden(a, b, {Passing}, kinds);
    }
  }

  lemma PrivateNames(a: Files, b: Files, k: Key, n: Node)
    requires PrivateKept(a, b) && k.name.Private? && Names(a, k, n)
    ensures Names(b, k, n)
  {
  }

  /** Directories are ranked above the directories inside them, so none lies inside itself. */
  ghost predicate Ranked(f: Files, rank: Node -> nat) {
    forall k :: k in f.entries && f.entries[k] in f.directories ==> rank(f.entries[k]) < rank(k.dir)
  }

  /** Entries were only removed. */
  ghost predicate Shrunk(a: Files, b: Files) {
    && b == a.(entries := b.entries)
    && forall k :: k in b.entries ==> k in a.entries && b.entries[k] == a.entries[k]
  }

  /** Entries of directories above this rank are still there. */
  ghost predicate KeptAbove(a: Files, b: Files, rank: Node -> nat, r: nat) {
    forall k :: k in a.entries && rank(k.dir) > r ==> k in b.entries
  }

  lemma ShrunkStaysRanked(a: Files, b: Files, rank: Node -> nat)
    requires Ranked(a, rank) && Shrunk(a, b)
    ensures Ranked(b, rank)
  {
  }

  /** The entry was moved to another name. */
  function Moved(f: Files, from: Key, to: Key): Files
    requires from in f.entries
  {
    f.(entries := (f.entries - {from})[to := f.entries[from]])
  }

  lemma MovedStaysRanked(f: Files, from: Key, to: Key, rank: Node -> nat)
    requires from in f.entries && to.dir == from.dir && Ranked(f, rank)
    ensures Ranked(Moved(f, from, to), rank)
  {
  }

  /** An entry moved aside, emptied if it is a directory, and then unlinked, is all that goes, with
      what lay below it. */
  lemma RemovedCalmly(before: Files, emptied: Files, key: Key, aside: Key, node: Node, directory: bool, rank: Node -> nat)
    requires Names(before, key, node) && aside !in before.entries && aside.dir == key.dir && Ranked(before, rank)
    requires directory ==> node in before.directories
    requires if directory
             then Shrunk(Moved(before, key, aside), emptied)
                  && KeptAbove(Moved(before, key, aside), emptied, rank, rank(node))
             else emptied == Moved(before, key, aside)
    ensures Names(emptied, aside, node) && emptied.directories == before.directories
    ensures RemovedOnly(before, emptied.(entries := emptied.entries - {aside}), key, node, directory, rank)
  {
    var moved := Moved(before, key, aside);
    assert aside in moved.entries && moved.entries[aside] == node;
  }

  /** The entry is gone, and of the others only such as lay in or under the directory it named. */
  ghost predicate RemovedOnly(before: Files, after: Files, key: Key, node: Node, directory: bool, rank: Node -> nat) {
    && Shrunk(before, after) && key !in after.entries
    && forall k :: k in before.entries && k != key && (directory ==> rank(k.dir) > rank(node)) ==> k in after.entries
  }

  /** Exactly these names stand in the directory. */
  ghost predicate Listed(f: Files, d: Node, names: set<Name>) {
    forall k :: k in f.entries && k.dir == d <==> k.dir == d && k.name in names
  }

  lemma Untouched(f: Files, rank: Node -> nat, d: Node, names: set<Name>)
    ensures Shrunk(f, f) && KeptAbove(f, f, rank, rank(d))
    ensures names == (set k | k in f.entries && k.dir == d :: k.name) ==> Listed(f, d, names)
  {
    if names == (set k | k in f.entries && k.dir == d :: k.name) {
      forall k: Key | k.dir == d && k.name in names
        ensures k in f.entries
      {
        var other :| other in f.entries && other.dir == d && other.name == k.name;
        assert other == k;
      }
    }
  }

  lemma ListedStands(f: Files, d: Node, names: set<Name>, name: Name, rank: Node -> nat)
    requires Listed(f, d, names) && name in names && Ranked(f, rank)
    ensures Key(d, name) in f.entries && Names(f, Key(d, name), f.entries[Key(d, name)])
    ensures f.entries[Key(d, name)] in f.directories ==> rank(f.entries[Key(d, name)]) < rank(d)
  {
  }

  lemma NoneListed(f: Files, d: Node)
    requires Listed(f, d, {})
    ensures Empty(f, d)
  {
  }

  /** Removing one name of a directory leaves its other names, and everything above. */
  lemma NextName(before: Files, now: Files, after: Files, d: Node, name: Name, node: Node, directory: bool,
                 names: set<Name>, rank: Node -> nat)
    requires Shrunk(before, now) && Ranked(now, rank) && KeptAbove(before, now, rank, rank(d))
    requires Listed(now, d, names)
    requires name in names && Names(now, Key(d, name), node) && (directory <==> node in now.directories)
    requires RemovedOnly(now, after, Key(d, name), node, directory, rank)
    ensures Shrunk(before, after) && Ranked(after, rank) && KeptAbove(before, after, rank, rank(d))
    ensures Listed(after, d, names - {name})
  {
    ShrunkStaysRanked(now, after, rank);
  }

  class Run {
    var files: Files
    var schedule: seq<Tick>
    var nextToken: nat

    /** The files when the run began, and all that others do in the course of it. */
    ghost const start: Files
    ghost const script: seq<Tick>
    /** Every transition so far. */
    ghost var log: Log
    /** What the run may reach, from this place of the log on. */
    ghost var scope: Scope
    ghost var base: nat

    constructor (files: Files, schedule: seq<Tick>, nextToken: nat)
      requires WellFormed(files, nextToken)
      ensures Valid() && start == this.files == files && script == this.schedule == schedule
      ensures this.nextToken == nextToken && log == [] && scope == Nothing()
    {
      this.files, this.schedule, this.nextToken := files, schedule, nextToken;
      this.start, this.script, this.log, this.scope, this.base := files, schedule, [], Nothing(), 0;
    }

    /** The files are what the log leads to: every own transition is legal and within the scope, and
        all others are those of the script, in order. */
    ghost predicate Valid()
      reads this
    {
      && Genuine(start, log) && files == End(start, log)
      && Paced(script, Ticks(log), schedule)
      && WellFormed(files, nextToken)
      && Tame(log, base, scope) && RootsOwned(log, scope)
    }

    // ---------- primitives ----------

    method Others() returns (fault: bool)
      requires Valid()
      modifies this`files, this`schedule, this`log
      ensures Valid() && PrivateKept(old(files), files) && Adds(old(log), log, {Passing})
      ensures |log| == |old(log)| + 1 && (Acts(log) <==> !fault) && log[|old(log)|].deed.Theirs?
      ensures fault == log[|old(log)|].deed.tick.fault && log[|old(log)|].after == files
      ensures Quiet(old(schedule)) ==> Quiet(schedule) && files == old(files) && !fault
    {
      hide Legal, Genuine, WellFormed, PrivateKept, InterfereAll, Paced, Ticks, Quiet, Tame, RootsOwned;
      var tick := if schedule == [] then QUIET else schedule[0];
      OthersKeepPrivate(files, tick.actions, nextToken);
      PacedNext(script, Ticks(log), schedule);
      QuietNext(schedule);
      ghost var e := Event(files, Theirs(tick), InterfereAll(files, tick.actions));
      TheirsIsLegal(log, e);
      LogGrows(start, log, e);
      TameGrows(log, base, scope, e);
      RootsStayOwned(log, log + [e], scope);
      files := InterfereAll(files, tick.actions);
      log := log + [e];
      if schedule != [] {
        schedule := schedule[1..];
      }
      fault := tick.fault;
    }

    /** This run changes the files, or takes note of something: one legal transition. */
    method Act(after: Files, ghost deed: Deed)
      requires Valid() && Legal(log, Event(files, deed, after)) && !deed.Theirs? && WellFormed(after, nextToken)
      requires Allowed(log, scope, deed)
      modifies this`files, this`log
      ensures Valid() && files == after && log == old(log) + [Event(old(files), deed, after)]
    {
      hide Legal, WellFormed, Paced, Tame, RootsOwned, Allowed;
      LogGrows(start, log, Event(files, deed, after));
      TameGrows(log, base, scope, Event(files, deed, after));
      RootsStayOwned(log, log + [Event(files, deed, after)], scope);
      assert Ticks(log) + [] == Ticks(log);
      log := log + [Event(files, deed, after)];
      files := after;
    }

    method Stat(k: Key) returns (node: Option<Node>)
      requires Valid()
      modifies this`files, this`schedule, this`log
      ensures Valid() && PrivateKept(old(files), files) && Adds(old(log), log, {Passing}) && log != []
      ensures |log| == |old(log)| + 1 && log[|log| - 1].deed.Theirs? && log[|log| - 1].after == files
      ensures node.Some? ==> Names(files, k, node.value) && Unstruck(old(log), log)
      ensures node.None? ==> log[|log| - 1].deed.tick.fault || k !in files.entries
      ensures Quiet(old(schedule)) ==>
                && Quiet(schedule) && files == old(files)
                && node == if k in files.entries then Some(files.entries[k]) else None
    {
      hide Valid, Quiet, PrivateKept;
      var fault := Others();
      node := if fault || k !in files.entries then None else Some(files.entries[k]);
    }

    /** Does the entry still name this directory? */
    method EntryMatches(k: Key, expected: Node) returns (matches: bool)
      requires Valid()
      modifies this`files, this`schedule, this`log
      ensures Valid() && PrivateKept(old(files), files) && Adds(old(log), log, {Passing})
      ensures matches ==> NamesDirectory(files, k, expected) && WasSeen(log, k, expected)
      ensures !matches ==> Missed(old(log), log, k, expected)
      ensures |log| == |old(log)| + 1 && (matches <==> Sighted(log, |old(log)|, k, expected))
      ensures matches ==> Passed(old(log), log, 1)
      ensures Quiet(old(schedule)) ==>
                Quiet(schedule) && files == old(files) && (matches <==> NamesDirectory(files, k, expected))
    {
      hide Valid, Quiet, PrivateKept;
      var node := Stat(k);
      matches := node == Some(expected) && expected in files.directories;
      assert matches ==> NamesDirectory(log[|log| - 1].after, k, expected);
    }

    /** Does the open descriptor still have the recorded identity? */
    method DescriptorMatches(node: Node, expected: Node) returns (matches: bool)
      requires Valid()
      modifies this`files, this`schedule, this`log
      ensures Valid() && PrivateKept(old(files), files) && Adds(old(log), log, {Passing})
      ensures matches ==> node == expected
      ensures |log| == |old(log)| + 1 && (matches <==> Unstruck(old(log), log) && node == expected)
      ensures matches ==> Passed(old(log), log, 1)
      ensures Quiet(old(schedule)) ==> Quiet(schedule) && files == old(files) && (matches <==> node == expected)
    {
      hide Valid, Quiet, PrivateKept;
      var fault := Others();
      matches := !fault && node == expected;
    }

    /** Atomic rename that never replaces. */
    method Rename(from: Key, to: Key) returns (ok: bool, ghost moved: Node)
      requires Valid() && (to.name.Private? ==> to.name.token < nextToken) && Permitted(log, scope, from, to)
      modifies this`files, this`schedule, this`log
      ensures Valid() && old(log) <= log && |log| == |old(log)| + (if ok then 2 else 1)
      ensures log[|old(log)|].deed.Theirs? && PrivateKept(old(files), log[|old(log)|].after)
      ensures !ok ==>
                && Adds(old(log), log, {Passing}) && PrivateKept(old(files), files) && log[|old(log)|].after == files
                && (log[|old(log)|].deed.tick.fault || from !in files.entries || to in files.entries
                    || to.dir !in files.directories)
      ensures ok ==>
                && Unstruck(old(log), log)
                && log[|old(log)| + 1].deed == Renamed(from, to) && Names(log[|old(log)| + 1].before, from, moved)
                && WasMoved(log, from, to)
      ensures ok ==> from !in files.entries && Names(files, to, moved)
      ensures ok && from.name.Private? ==> Names(old(files), from, moved)
      ensures Quiet(old(schedule)) ==>
                && Quiet(schedule)
                && (ok <==> from in old(files).entries && to !in old(files).entries && to.dir in old(files).directories)
                && files == if ok then Moved(old(files), from, to) else old(files)
    {
      hide Valid, Quiet, Permitted;
      var fault := Others();
      PermittedLater(old(log), log, scope, from, to);
      ok := !fault && from in files.entries && to !in files.entries && to.dir in files.directories;
      moved := 0;
      if ok {
        moved := files.entries[from];
        KnownFiles();
        Act(Moved(files, from, to), Renamed(from, to));
        assert log[|log| - 1].deed == Renamed(from, to);
      }
    }

    /** What validity says of the files themselves. */
    lemma KnownFiles()
      requires Valid()
      ensures WellFormed(files, nextToken) && files == End(start, log)
    {
    }

    lemma KnownScope()
      requires Valid()
      ensures Tame(log, base, scope) && RootsOwned(log, scope)
    {
    }

    /** What was recorded under a name of the scope may be moved aside and removed. */
    lemma Given(k: Key, n: Node)
      requires k in scope.doors && n in scope.roots
      ensures Ours(log, scope, k) && Under(log, scope.roots, n)
    {
      UnderRoot(log, scope.roots, n);
    }

    lemma KnownSchedule()
      requires Valid()
      ensures schedule == Rest(script, Ticks(log))
    {
    }

    /** Unlink a checked entry, a directory only when it is empty. */
    method Unlink(k: Key, directory: bool, ghost expected: Node) returns (ok: bool)
      requires Valid() && k.name.Private? && Names(files, k, expected) && Under(log, scope.roots, expected)
      modifies this`files, this`schedule, this`log
      ensures Valid() && Adds(old(log), log, {Passing, Cleaning})
      ensures ok ==> Unlinks(old(log), log, expected) && Unstruck(old(log), log)
      ensures Quiet(old(schedule)) ==>
                && Quiet(schedule)
                && (ok <==> (directory <==> expected in old(files).directories)
                            && (directory ==> Empty(old(files), expected)))
                && files == if ok then old(files).(entries := old(files).entries - {k}) else old(files)
    {
      hide Valid, Quiet, Under, RootsOwned;
      var fault := Others();
      var node := files.entries[k];
      ok := !fault && (directory <==> node in files.directories) && (directory ==> Empty(files, node));
      if ok {
        KnownFiles();
        KnownScope();
        UnderGrows(old(log), log, scope.roots, expected);
        UnderIsOwned(log, scope, expected);
        Act(files.(entries := files.entries - {k}), Unlinked(k, node));
        assert log[|log| - 1].deed == Unlinked(k, expected);
      }
    }

    method ListDirectory(d: Node) returns (ok: bool, names: set<Name>)
      requires Valid()
      modifies this`files, this`schedule, this`log
      ensures Valid() && Adds(old(log), log, {Passing})
      ensures forall name :: name in names && name.Private? ==> name.token < nextToken
      ensures |log| == |old(log)| + 1 && log[|old(log)|].deed.Theirs? && (ok <==> Unstruck(old(log), log))
      ensures forall k :: k in log[|old(log)|].after.entries && k.dir == d ==> k.name in names
      ensures Quiet(old(schedule)) ==>
                && Quiet(schedule) && files == old(files) && ok
                && names == set k | k in files.entries && k.dir == d :: k.name
    {
      hide Valid, Quiet;
      var fault := Others();
      KnownFiles();
      ok := !fault;
      names := set k | k in files.entries && k.dir == d :: k.name;
    }

    method FreshName() returns (name: Name)
      requires Valid()
      modifies this`nextToken
      ensures Valid() && name == Private(old(nextToken)) && nextToken == old(nextToken) + 1
      ensures forall k :: k in files.entries ==> k.name != name
    {
      hide Genuine, Paced;
      name := Private(nextToken);
      nextToken := nextToken + 1;
    }

    // ---------- isolation ----------

    /** Give back an entry that proved not to be ours: it is back under its name, unless the move was
        struck by a fault or found that name taken; then both are kept. */
    method Restore(parent: Node, isolated: Name, original: Name, ghost node: Node)
      requires Valid() && isolated.Private? && Names(files, Key(parent, isolated), node)
      requires original.Private? ==> original.token < nextToken
      requires Ours(log, scope, Key(parent, original)) && WasMoved(log, Key(parent, original), Key(parent, isolated))
      modifies this`files, this`schedule, this`log
      ensures Valid() && Adds(old(log), log, {Passing, Cleaning}) && |old(log)| < |log|
      ensures log[|old(log)|].deed == Rejected(Key(parent, original), Key(parent, isolated), node)
      ensures Returned(files, log, Key(parent, original), Key(parent, isolated), node)
      ensures Quiet(old(schedule)) ==>
                && Quiet(schedule)
                && files == if Key(parent, original) in old(files).entries then old(files)
                            else Moved(old(files), Key(parent, isolated), Key(parent, original))
    {
      var from, to := Key(parent, isolated), Key(parent, original);
      KnownFiles();
      EntryStandsInDirectory(files, nextToken, from);
      hide Valid, Quiet, Ours, Adds, WellFormed, PrivateKept, Permitted, WasMoved, Moved, Unstruck;
      ghost var start, rejection := log, Event(files, Rejected(to, from, node), files);
      Act(files, Rejected(to, from, node));
      GiveBackPermitted(start, rejection, scope, from, to);
      ghost var middle, before := log, files;
      var ok;
      ghost var moved;
      ok, moved := Rename(from, to);
      StillAside(before, log[|middle|].after, from, node);
      assert log[..|middle|] == middle;
      RejectionAdds(start, log, {Passing, Cleaning});
    }

    /** Is the entry that was moved aside the expected one? */
    method CheckIsolated(to: Key, descriptor: Node, expected: Node, directory: bool, ghost moved: Node) returns (same: bool)
      requires Valid() && to.name.Private? && Names(files, to, moved)
      modifies this`files, this`schedule, this`log
      ensures Valid() && Adds(old(log), log, {Passing}) && Names(files, to, moved)
      ensures same ==> moved == expected && Unstruck(old(log), log)
      ensures |log| == |old(log)| + (if directory then 2 else 1) || (!same && !Unstruck(old(log), log))
              || (directory && descriptor != expected)
      ensures Quiet(old(schedule)) ==>
                && Quiet(schedule) && files == old(files)
                && (same <==> moved == expected && (directory ==> descriptor == expected)
                              && (directory <==> expected in files.directories))
    {
      hide Valid, Quiet, Adds, PrivateKept, Missed, WasSeen;
      ghost var first := files;
      NothingAdded(log, {Passing});
      UnstruckNothing(log);
      same := true;
      if directory {
        same := DescriptorMatches(descriptor, expected);
        PrivateNames(first, files, to, moved);
      }
      ghost var now, second := files, log;
      if same {
        var node := Stat(to);
        PrivateNames(now, files, to, moved);
        AddsMore(old(log), second, log, {Passing}, {Passing}, {Passing});
        if node.Some? {
          UnstruckMore(old(log), second, log);
        }
        same := node == Some(expected) && (directory <==> expected in files.directories);
      }
    }

    /** Keep the entry that was moved aside if it is the expected one, else give it back. */
    method Judge(parent: Node, aside: Name, original: Name, descriptor: Node, expected: Node, directory: bool,
                 ghost moved: Node, ghost before: Log) returns (same: bool)
      requires Valid() && aside.Private? && Names(files, Key(parent, aside), moved)
      requires original.Private? ==> original.token < nextToken
      requires JustMoved(before, log, Key(parent, original), Key(parent, aside), moved)
      requires Ours(before, scope, Key(parent, original)) && Owned(before, expected)
      modifies this`files, this`schedule, this`log
      ensures Valid() && Adds(before, log, {Passing, Cleaning})
      ensures same ==> moved == expected && Names(files, Key(parent, aside), expected) && Unstruck(old(log), log)
      ensures !same ==> Returned(files, log, Key(parent, original), Key(parent, aside), moved)
      ensures Quiet(old(schedule)) ==>
                && Quiet(schedule)
                && (same <==> moved == expected && (directory ==> descriptor == expected)
                              && (directory <==> expected in old(files).directories))
                && files == if same || Key(parent, original) in old(files).entries then old(files)
                            else Moved(old(files), Key(parent, aside), Key(parent, original))
    {
      hide Valid, Quiet, Adds, WasMoved, Owned, Ours, Returned, Moved;
      ghost var kinds, first := {Passing, Cleaning}, log;
      var from, to := Key(parent, original), Key(parent, aside);
      same := CheckIsolated(to, descriptor, expected, directory, moved);
      if same {
        OwnMoveAdds(before, first, log, expected, kinds);
      } else {
        ghost var third := log;
        StillMoved(before, first, log, scope, from, to);
        Restore(parent, aside, original, moved);
        RejectedMoveAdds(before, first, third, log, moved, kinds);
      }
    }

    /** Move an entry aside under a private name, then check that the moved one is expected.
        A replaced entry is given back, or kept under the private name where that was not possible:
        it stays linked. Undisturbed, an entry that is not the expected one stays where it is. */
    method Isolate(parent: Node, original: Name, descriptor: Node, expected: Node, directory: bool)
      returns (isolated: Option<Name>, ghost foreign: Option<Node>, ghost aside: Name)
      requires Valid() && (original.Private? ==> original.token < nextToken) && Ours(log, scope, Key(parent, original))
      requires Under(log, scope.roots, expected)
      modifies this`files, this`schedule, this`log, this`nextToken
      ensures Valid() && Adds(old(log), log, {Passing, Cleaning}) && nextToken >= old(nextToken)
      ensures isolated.Some? ==>
                && isolated.value.Private? && Names(files, Key(parent, isolated.value), expected)
                && Unstruck(old(log), log)
      ensures foreign.Some? ==>
                isolated.None? && Returned(files, log, Key(parent, original), Key(parent, aside), foreign.value)
      ensures isolated.None? && foreign.None? ==> Adds(old(log), log, {Passing}) && PrivateKept(old(files), files)
      ensures Quiet(old(schedule)) ==>
                && Quiet(schedule)
                && (isolated.Some? <==> Expected(old(files), Key(parent, original), descriptor, expected, directory))
                && (isolated.Some? ==> Key(parent, isolated.value) !in old(files).entries)
                && files == if isolated.None? then old(files)
                            else Moved(old(files), Key(parent, original), Key(parent, isolated.value))
    {
      KnownFiles();
      KnownScope();
      var from := Key(parent, original);
      if from in files.entries {
        EntryStandsInDirectory(files, nextToken, from);
      }
      UnderIsOwned(log, scope, expected);
      hide Valid, Quiet, WellFormed, Adds, PrivateKept, Permitted, Ours, WasMoved, Owned, Under, Tame, RootsOwned, Returned,
           Expected, Moved;
      isolated, foreign := None, None;
      var name := FreshName();
      aside := name;
      var to := Key(parent, name);
      AsidePermitted(log, scope, from, to);
      var ok;
      ghost var moved;
      ok, moved := Rename(from, to);
      if !ok {
        AddsWiden(old(log), log, {Passing}, {Passing, Cleaning});
        NotExpected(old(files), from, descriptor, expected, directory);
        return;
      }
      ghost var first, second := log, files;
      var same := Judge(parent, name, original, descriptor, expected, directory, moved, old(log));
      if Quiet(old(schedule)) {
        IsolatedCalmly(old(files), second, files, from, to, moved, same, descriptor, expected, directory);
      }
      if same {
        UnstruckMore(old(log), first, log);
        isolated := Some(name);
      } else {
        foreign := Some(moved);
      }
    }

    // ---------- removal of an owned tree ----------

    /** Look at an entry inside an owned directory: what it names becomes ours to remove. */
    method Look(d: Node, name: Name) returns (node: Option<Node>)
      requires Valid() && Under(log, scope.roots, d)
      modifies this`files, this`schedule, this`log
      ensures Valid() && Adds(old(log), log, {Passing, Cleaning})
      ensures node.Some? ==>
                && Under(log, scope.roots, node.value) && Unstruck(old(log), log)
                && |old(log)| < |log| && log[|log| - 1].deed == Saw(Key(d, name), node.value)
      ensures Quiet(old(schedule)) ==>
                && Quiet(schedule) && files == old(files)
                && node == if Key(d, name) in files.entries then Some(files.entries[Key(d, name)]) else None
    {
      hide Valid, Quiet, Under, RootsOwned;
      node := Stat(Key(d, name));
      if node.Some? {
        KnownFiles();
        KnownScope();
        UnderGrows(old(log), log, scope.roots, d);
        UnderIsOwned(log, scope, d);
        UnderSeen(log, scope.roots, Event(files, Saw(Key(d, name), node.value), files));
        Act(files, Saw(Key(d, name), node.value));
      }
    }

    /** Remove what is inside an owned directory. depth bounds the recursion, as the
        interpreter's recursion limit does; running out of it is a failure like any other. Left
        alone, and with the depth the tree has, it empties the directory and takes nothing above. */
    method RemoveContents(d: Node, depth: nat, ghost rank: Node -> nat) returns (ok: bool)
      requires Valid() && Under(log, scope.roots, d)
      modifies this`files, this`schedule, this`log, this`nextToken
      ensures Valid() && Adds(old(log), log, {Passing, Cleaning}) && nextToken >= old(nextToken)
      ensures ok ==> Emptied(old(log), log, d) && Unstruck(old(log), log)
      ensures Quiet(old(schedule)) && Ranked(old(files), rank) && rank(d) < depth ==>
                && ok && Quiet(schedule) && Empty(files, d)
                && Shrunk(old(files), files) && KeptAbove(old(files), files, rank, rank(d))
      decreases depth, 1
    {
      hide *;
      ghost var kinds := {Passing, Cleaning};
      var names;
      ok, names := ListDirectory(d);
      AddsWiden(old(log), log, {Passing}, kinds);
      if !ok || depth == 0 {
        return false;
      }
      ghost var calm := Quiet(old(schedule)) && Ranked(old(files), rank) && rank(d) < depth;
      ghost var listed, all := log, names;
      Untouched(old(files), rank, d, names);
      while names != {}
        invariant Valid() && Adds(old(log), log, kinds) && nextToken >= old(nextToken)
        invariant forall name :: name in names && name.Private? ==> name.token < nextToken
        invariant listed <= log && Unstruck(old(log), log)
        invariant forall name :: name in all - names ==> Removed(listed, log, Key(d, name))
        invariant calm ==>
                    && Quiet(schedule) && Shrunk(old(files), files) && Ranked(files, rank)
                    && KeptAbove(old(files), files, rank, rank(d)) && Listed(files, d, names)
        decreases |names|
      {
        var name :| name in names;
        KeepUnder(old(log), d, kinds);
        ghost var now, first := files, log;
        if calm {
          ListedStands(files, d, names, name, rank);
        }
        var before := Look(d, name);
        AddsMore(old(log), first, log, kinds, kinds, kinds);
        if before.None? {
          return false;
        }
        ghost var second := log;
        UnstruckMore(old(log), first, second);
        var directory := before.value in files.directories;
        KeepUnder(old(log), d, kinds);
        InsideIsOurs(log, scope, d, name);
        ok := RemoveEntry(d, name, before.value, directory, depth - 1, rank);
        AddsMore(old(log), second, log, kinds, kinds, kinds);
        if !ok {
          return false;
        }
        UnstruckMore(old(log), second, log);
        MoreRemoved(listed, first, second, log, d, name, before.value, all, names, kinds);
        if calm {
          NextName(old(files), now, files, d, name, before.value, directory, names, rank);
        }
        names := names - {name};
      }
      if calm {
        NoneListed(files, d);
      }
      AllRemoved(old(log), listed, log, d, all);
      ok := true;
    }

    /** Isolate one entry and remove it, contents first. */
    method RemoveEntry(parent: Node, name: Name, node: Node, directory: bool, depth: nat, ghost rank: Node -> nat)
      returns (ok: bool)
      requires Valid() && Under(log, scope.roots, node) && (name.Private? ==> name.token < nextToken)
      requires Ours(log, scope, Key(parent, name))
      modifies this`files, this`schedule, this`log, this`nextToken
      ensures Valid() && Adds(old(log), log, {Passing, Cleaning}) && nextToken >= old(nextToken)
      ensures ok ==> Unlinks(old(log), log, node) && Unstruck(old(log), log) && (directory ==> Emptied(old(log), log, node))
      ensures Quiet(old(schedule)) && Names(old(files), Key(parent, name), node) && Ranked(old(files), rank)
              && (directory <==> node in old(files).directories) && (directory ==> rank(node) < depth) ==>
                ok && Quiet(schedule) && RemovedOnly(old(files), files, Key(parent, name), node, directory, rank)
      ensures Quiet(old(schedule)) && !Expected(old(files), Key(parent, name), node, node, directory) ==>
                !ok && Quiet(schedule) && files == old(files)
      decreases depth, 3
    {
      hide Valid, Quiet, Adds, Owned, Ranked, Shrunk, KeptAbove, RemovedOnly, Moved, Empty, PrivateKept, WellFormed, Unlinks,
           WasSeen, Missed, Under, Ours, Unstruck, Emptied, Returned;
      ghost var kinds := {Passing, Cleaning};
      ghost var key := Key(parent, name);
      ghost var calm := Quiet(old(schedule)) && Names(old(files), key, node) && Ranked(old(files), rank)
        && (directory <==> node in old(files).directories) && (directory ==> rank(node) < depth);
      var isolated;
      ghost var foreign, other;
      isolated, foreign, other := Isolate(parent, name, node, node, directory);
      if isolated.None? {
        return false;
      }
      var aside := Key(parent, isolated.value);
      ghost var first := log;
      KeepUnder(old(log), node, kinds);
      CalmMove(old(files), key, aside, node, rank, calm);
      ok := EmptyAside(node, directory, depth, rank);
      AddsMore(old(log), first, log, kinds, kinds, kinds);
      if !ok {
        return;
      }
      if calm {
        RemovedCalmly(old(files), files, key, aside, node, directory, rank);
      }
      ghost var second := log;
      KeepUnder(old(log), node, kinds);
      ok := UnlinkAside(aside, node, directory);
      EntryRemoved(old(log), first, second, log, node, directory, ok, kinds);
    }

    /** Empty the isolated entry if it is a directory. */
    method EmptyAside(node: Node, directory: bool, depth: nat, ghost rank: Node -> nat) returns (ok: bool)
      requires Valid() && Under(log, scope.roots, node)
      modifies this`files, this`schedule, this`log, this`nextToken
      ensures Valid() && Adds(old(log), log, {Passing, Cleaning}) && nextToken >= old(nextToken)
      ensures ok ==> Unstruck(old(log), log) && (directory ==> Emptied(old(log), log, node) && Acts(log))
      ensures Quiet(old(schedule)) && Ranked(old(files), rank) && (directory ==> rank(node) < depth) ==>
                && ok && Quiet(schedule)
                && if directory
                   then Empty(files, node) && Shrunk(old(files), files) && KeptAbove(old(files), files, rank, rank(node))
                   else files == old(files)
      decreases depth, 2
    {
      hide *;
      NothingAdded(log, {Passing, Cleaning});
      UnstruckNothing(log);
      ok := true;
      if directory {
        ok := RemoveContents(node, depth, rank);
        if !ok {
          return;
        }
        ghost var first := log;
        ok := DescriptorMatches(node, node);
        CheckedAgain(old(log), first, log, node, ok);
      }
    }

    /** Look once more at the isolated entry, and unlink it. */
    method UnlinkAside(aside: Key, node: Node, directory: bool) returns (ok: bool)
      requires Valid() && Under(log, scope.roots, node) && aside.name.Private?
      modifies this`files, this`schedule, this`log
      ensures Valid() && Adds(old(log), log, {Passing, Cleaning})
      ensures ok ==> Unlinks(old(log), log, node) && Unstruck(old(log), log)
      ensures Quiet(old(schedule)) && Names(old(files), aside, node) && (directory <==> node in old(files).directories)
              && (directory ==> Empty(old(files), node)) ==>
                ok && Quiet(schedule) && files == old(files).(entries := old(files).entries - {aside})
    {
      hide Valid, Quiet, Adds, Under, Empty, PrivateKept, WellFormed, Unlinks, WasSeen, Missed;
      ghost var kinds := {Passing, Cleaning};
      if directory {
        ok := EntryMatches(aside, node);
      } else {
        var after := Stat(aside);
        ok := after == Some(node);
      }
      AddsWiden(old(log), log, {Passing}, kinds);
      if ok {
        KeepUnder(old(log), node, kinds);
        ghost var first := log;
        SightedUnstruck(old(log), log, aside, node);
        ok := Unlink(aside, directory, node);
        AddsMore(old(log), first, log, kinds, kinds, kinds);
        UnlinksLast(old(log), first, log, node, kinds);
        if ok {
          UnstruckMore(old(log), first, log);
        }
      }
    }

    // ---------- rollback ----------

    method DescriptorsMatch(first: Node, second: Node) returns (match': bool)
      requires Valid()
      modifies this`files, this`schedule, this`log
      ensures Valid() && Adds(old(log), log, {Passing})
      ensures match' <==> Unstruck(old(log), log)
      ensures match' ==> Passed(old(log), log, 2)
      ensures Quiet(old(schedule)) ==> Quiet(schedule) && files == old(files) && match'
    {
      hide Valid, Quiet, PrivateKept;
      match' := DescriptorMatches(first, first);
      if match' {
        match' := DescriptorMatches(second, second);
      }
    }

    /** Remove the reserved worktree from whichever of its two names it has. */
    method RemoveWorktree(r: Reservation, depth: nat, ghost rank: Node -> nat) returns (ok: bool, final: bool)
      requires Valid() && Covers(scope, ReservedScope(r))
      modifies this`files, this`schedule, this`log, this`nextToken
      ensures Valid() && Adds(old(log), log, {Passing, Cleaning}) && nextToken >= old(nextToken)
      ensures |log| >= |old(log)| + 2 && (final <==> Sighted(log, |old(log)|, r.FinalKey(), r.staging))
      ensures (final <==> Sighted(log, |old(log)| + 1, r.StagingKey(), r.staging)) ==> !ok && |log| == |old(log)| + 2
      ensures ok ==>
                && Unlinks(old(log), log, r.staging) && Emptied(old(log), log, r.staging)
                && Unstruck(log[..|old(log)| + 2], log)
      ensures Quiet(old(schedule)) && Ambiguous(old(files), r) ==> !ok && Quiet(schedule) && files == old(files)
      ensures Quiet(old(schedule)) && !Ambiguous(old(files), r) && Ranked(old(files), rank) && rank(r.staging) < depth ==>
                && ok && Quiet(schedule) && (final <==> NamesDirectory(old(files), r.FinalKey(), r.staging))
                && RemovedOnly(old(files), files, WorktreeKey(old(files), r), r.staging, true, rank)
    {
      hide Valid, Quiet, Adds, Ranked, RemovedOnly, WellFormed, Unlinks, WasSeen, Missed, Under, Ours, Expected, Unstruck, Emptied,
           Sighted;
      ghost var kinds := {Passing, Cleaning};
      final := EntryMatches(r.FinalKey(), r.staging);
      AddsWiden(old(log), log, {Passing}, kinds);
      ghost var l := log;
      var stagingMatches := EntryMatches(r.StagingKey(), r.staging);
      Onward(old(log), l, log, kinds, {Passing});
      ghost var looked := log;
      SightedStill(l, log, r.FinalKey(), r.staging);
      if final == stagingMatches {
        return false, final;
      }
      var holder := if final then r.parent else r.anchor;
      ok := DescriptorMatches(holder, holder);
      Onward(old(log), looked, log, kinds, {Passing});
      LookedFirst(old(log), looked, log, r, {Passing});
      if ok {
        l := log;
        Given(if final then r.FinalKey() else r.StagingKey(), r.staging);
        ok := RemoveEntry(holder, Public(if final then r.finalName else "worktree"), r.staging, true, depth, rank);
        Onward(old(log), l, log, kinds, kinds);
        LookedThen(old(log), looked, l, log, r, ok, kinds);
      }
    }

    /** Remove the reserved worktree wherever it is, its metadata and its private anchor. */
    method CleanupReserved(r: Reservation, m: Option<Metadata>, depth: nat, ghost rank: Node -> nat) returns (ok: bool)
      requires Valid() && Covers(scope, Extended(ReservedScope(r), m))
      requires r.anchorName.Private? ==> r.anchorName.token < nextToken
      modifies this`files, this`schedule, this`log, this`nextToken
      ensures Valid() && Adds(old(log), log, {Passing, Cleaning}) && nextToken >= old(nextToken)
      ensures ok ==> Unlinks(old(log), log, r.staging) && (m.Some? ==> Unlinks(old(log), log, m.value.directory))
      ensures ok ==> Emptied(old(log), log, r.staging) && (m.Some? ==> Emptied(old(log), log, m.value.directory))
      ensures ok ==> Unlinks(old(log), log, r.anchor) || Missed(old(log), log, r.AnchorKey(), r.anchor)
      ensures Quiet(old(schedule)) && Standing(old(files), r, m, depth, rank) ==>
                ok && Quiet(schedule) && RolledOff(old(files), files, r, m)
      ensures Quiet(old(schedule)) && Ambiguous(old(files), r) ==> !ok && Quiet(schedule) && files == old(files)
      ensures Quiet(old(schedule)) && m.Some? && Replaced(old(files), r, m.value, depth, rank) ==>
                && !ok && Quiet(schedule)
                && RemovedOnly(old(files), files, WorktreeKey(old(files), r), r.staging, true, rank)
    {
      hide Valid, Quiet, Adds, Owned, Ranked, Shrunk, KeptAbove, RemovedOnly, PrivateKept, WellFormed, Unlinks, WasSeen, Standing,
           Names, NamesDirectory, Cleared, RolledOff, Missed, Under, Ours, Replaced, Ambiguous, WorktreeKey, Expected,
           Emptied, Unstruck, Sighted;
      ghost var kinds := {Passing, Cleaning};
      ghost var calm := Quiet(old(schedule)) && Standing(old(files), r, m, depth, rank);
      if calm {
        StandingMeans(old(files), r, m, depth, rank);
      }
      ghost var replaced := Quiet(old(schedule)) && m.Some? && Replaced(old(files), r, m.value, depth, rank);
      if replaced {
        ReplacedMeans(old(files), r, m.value, depth, rank);
      }
      var final;
      ok, final := RemoveWorktree(r, depth, rank);
      if !ok {
        return;
      }
      if calm {
        WorktreeGone(old(files), files, r, m, depth, rank);
      }
      if replaced {
        StillReplaced(old(files), files, r, m.value, depth, rank);
      }
      ghost var first := log;
      if m.Some? {
        ghost var cleared := files;
        Given(m.value.EntryKey(), m.value.directory);
        ok := RemoveEntry(m.value.parent, Public(m.value.name), m.value.directory, true, depth, rank);
        AddsMore(old(log), first, log, kinds, kinds, kinds);
        if !ok {
          return;
        }
        if calm {
          MetadataGone(old(files), cleared, files, r, m.value, depth, rank);
        }
      } else {
        NothingAdded(log, kinds);
      }
      ghost var second, cleared := log, files;
      ok := RemoveAnchor(r, !final, depth, rank);
      CleanedOn(old(log), first, second, log, r, m, ok, kinds);
      if calm {
        AnchorGone(old(files), cleared, files, r, m, depth, rank);
      }
    }

    /** Remove the private anchor, if it is where it was put. */
    method RemoveAnchor(r: Reservation, needed: bool, depth: nat, ghost rank: Node -> nat) returns (ok: bool)
      requires Valid() && Covers(scope, ReservedScope(r)) && (r.anchorName.Private? ==> r.anchorName.token < nextToken)
      modifies this`files, this`schedule, this`log, this`nextToken
      ensures Valid() && Adds(old(log), log, {Passing, Cleaning}) && nextToken >= old(nextToken)
      ensures ok ==> Unlinks(old(log), log, r.anchor) || Missed(old(log), log, r.AnchorKey(), r.anchor)
      ensures |log| > |old(log)|
      ensures Sighted(log, |old(log)|, r.AnchorKey(), r.anchor) ==>
                ok ==> Unlinks(old(log), log, r.anchor) && Emptied(old(log), log, r.anchor) && Unstruck(old(log), log)
      ensures !Sighted(log, |old(log)|, r.AnchorKey(), r.anchor) ==>
                && |log| == |old(log)| + (if needed then 2 else 1) && Adds(old(log), log, {Passing})
                && (ok <==> !needed || !Unstruck(log[..|old(log)| + 1], log))
      ensures Quiet(old(schedule)) && Ranked(old(files), rank) && NamesDirectory(old(files), r.AnchorKey(), r.anchor)
              && rank(r.anchor) < depth ==>
                ok && Quiet(schedule) && RemovedOnly(old(files), files, r.AnchorKey(), r.anchor, true, rank)
    {
      hide Valid, Quiet, Adds, Owned, Ranked, Shrunk, KeptAbove, RemovedOnly, PrivateKept, WellFormed, Unlinks, WasSeen, Missed,
           Under, Ours, Sighted, Unstruck, Emptied, Expected;
      ghost var kinds := {Passing, Cleaning};
      NothingAdded(log, kinds);
      var anchorMatches := EntryMatches(r.AnchorKey(), r.anchor);
      AddsWiden(old(log), log, {Passing}, kinds);
      ghost var looked, l := log, log;
      if anchorMatches {
        ok := DescriptorsMatch(r.parent, r.anchor);
        Onward(old(log), looked, log, kinds, {Passing});
        SightedLater(old(log), looked, log, r.AnchorKey(), r.anchor, {Passing});
        SightedUnstruck(old(log), looked, r.AnchorKey(), r.anchor);
        if ok {
          l := log;
          UnstruckMore(old(log), looked, l);
          Given(r.AnchorKey(), r.anchor);
          ok := RemoveEntry(r.parent, r.anchorName, r.anchor, true, depth, rank);
          Onward(old(log), l, log, kinds, kinds);
          SightedLater(old(log), l, log, r.AnchorKey(), r.anchor, kinds);
          if ok {
            AddsPrefix(old(log), l, kinds);
            AddsPrefix(l, log, kinds);
            EmptiedWider(old(log), l, log, log, r.anchor);
            UnstruckMore(old(log), l, log);
          }
        }
      } else {
        ok := true;
        if needed {
          var parentMatches := DescriptorMatches(r.parent, r.parent);
          Onward(old(log), looked, log, kinds, {Passing});
          AddsMore(old(log), looked, log, {Passing}, {Passing}, {Passing});
          SightedLater(old(log), looked, log, r.AnchorKey(), r.anchor, {Passing});
          AddsPrefix(looked, log, {Passing});
          assert log[..|old(log)| + 1] == looked;
          ok := !parentMatches;
        }
        NothingAdded(old(log), kinds);
        MissedWider(old(log), old(log), looked, log, r.AnchorKey(), r.anchor, kinds);
      }
    }

    method ReadRef() returns (oid: Option<string>)
      requires Valid()
      modifies this`files, this`schedule, this`log
      ensures Valid() && Adds(old(log), log, {Passing})
      ensures oid.Some? ==> files.ref == oid
      ensures ReadHere(old(log), log, oid)
      ensures Quiet(old(schedule)) ==> Quiet(schedule) && files == old(files) && oid == files.ref
    {
      hide Valid, Quiet, PrivateKept;
      var fault := Others();
      oid := if fault then None else files.ref;
    }

    /** Create the ref: one atomic compare with absent. */
    method CreateRef(commit: string) returns (ok: bool)
      requires Valid()
      modifies this`files, this`schedule, this`log
      ensures Valid() && Adds(old(log), log, {Passing, Creating}) && CreatesOnly(old(log), log, commit)
      ensures ok ==> Created(log, commit) && Unstruck(old(log), log)
      ensures ok <==> CreatesIn(old(log), log, commit)
      ensures Quiet(old(schedule)) ==>
                && Quiet(schedule) && (ok <==> old(files).ref.None?)
                && files == if ok then old(files).(ref := Some(commit)) else old(files)
    {
      hide Valid, Quiet, PrivateKept;
      var fault := Others();
      ok := !fault && files.ref.None?;
      if ok {
        KnownFiles();
        Act(files.(ref := Some(commit)), RefCreated(commit));
        assert log[|log| - 1].deed == RefCreated(commit);
      }
    }

    /** Delete the ref, but only while it holds this run's commit: one atomic compare and delete. */
    method DeleteRef(commit: string)
      requires Valid() && Created(log, commit)
      modifies this`files, this`schedule, this`log
      ensures Valid() && Adds(old(log), log, {Passing, Deleting}) && DeletesOnly(old(log), log, {commit})
      ensures |old(log)| < |log| && log[|old(log)|].deed.Theirs?
      ensures log[|old(log)|].deed.tick.fault || log[|old(log)|].after.ref != Some(commit) <==> |log| == |old(log)| + 1
      ensures Quiet(old(schedule)) ==>
                && Quiet(schedule)
                && files == if old(files).ref == Some(commit) then old(files).(ref := None) else old(files)
    {
      hide Valid, Quiet, PrivateKept, Created;
      var oid := ReadRef();
      if oid != Some(commit) {
        return;
      }
      ghost var seen := log;
      var fault := Others();
      if !fault && files.ref == Some(commit) {
        KnownFiles();
        assert old(log) <= log;
        CreatedGrows(old(log), log, commit);
        Act(files.(ref := None), RefDeleted(commit));
      }
    }

    /** Undo a failed preparation. Metadata that was not bound yet is bound again, or left. */
    method Rollback(commit: Option<string>, r: Option<Reservation>, m: Option<Metadata>,
                    metadataParent: Node, marker: Option<string>, depth: nat, ghost rank: Node -> nat)
      returns (ghost rebound: Option<Metadata>)
      requires Valid() && (commit.Some? ==> Created(log, commit.value))
      requires r.Some? ==> Covers(scope, Extended(ReservedScope(r.value), m))
      requires r.Some? && r.value.anchorName.Private? ==> r.value.anchorName.token < nextToken
      modifies this`files, this`schedule, this`log, this`nextToken, this`scope
      ensures Valid() && Adds(old(log), log, {Passing, Cleaning, Recording, Deleting})
      ensures DeletesOnly(old(log), log, if commit.Some? then {commit.value} else {})
      ensures scope == Extended(old(scope), rebound) && RecordsOnly(old(log), log, MetadataRecord(rebound))
      ensures Rebound(r, m, metadataParent, marker, rebound)
      ensures r.Some? && Quiet(old(schedule)) ==>
                && (m.None? ==> rebound == Bindable(old(files), r.value, metadataParent, marker))
                && UndoneCalmly(old(files), files, commit, r.value, if m.Some? then m else rebound, depth, rank)
    {
      hide Valid, Quiet, PrivateKept, Adds, Owned, Created, Standing, RolledOff, Unlinks, WasSeen, Missed, DeletesOnly,
           RecordsOnly, Covers, Plus, Bindable;
      ghost var kinds := {Passing, Cleaning, Recording};
      ghost var l := log;
      NothingAdded(log, kinds);
      RecordsNone(log, log, {Passing});
      rebound := None;
      if r.Some? {
        var metadata := m;
        if m.None? {
          metadata := BindMetadata(r.value, metadataParent, marker);
          rebound := metadata;
          CoversRebound(old(scope), r.value, rebound);
          Onward(old(log), l, log, kinds, {Passing, Recording});
          l := log;
        }
        ghost var bound := log;
        var ignored := CleanupReserved(r.value, metadata, depth, rank);
        Onward(old(log), l, log, kinds, {Passing, Cleaning});
        RecordsNone(bound, log, {Passing, Cleaning});
        RecordsMore(old(log), bound, log, MetadataRecord(rebound), {});
        assert MetadataRecord(rebound) + {} == MetadataRecord(rebound);
        if Quiet(old(schedule)) && Standing(old(files), r.value, metadata, depth, rank) {
          RolledOffKeepsRef(old(files), files, r.value, metadata);
        }
      }
      DeletesNone(old(log), log, kinds);
      AddsWiden(old(log), log, kinds, kinds + {Deleting});
      l := log;
      if commit.Some? {
        AddsPrefix(old(log), log, kinds);
        CreatedGrows(old(log), log, commit.value);
        DeleteRef(commit.value);
        Onward(old(log), l, log, kinds + {Deleting}, {Passing, Deleting});
        DeletesMore(old(log), l, log, {}, {commit.value});
        RecordsNone(l, log, {Passing, Deleting});
        RecordsMore(old(log), l, log, MetadataRecord(rebound), {});
        assert MetadataRecord(rebound) + {} == MetadataRecord(rebound);
      }
      assert kinds + {Deleting} == {Passing, Cleaning, Recording, Deleting};
      assert commit.Some? ==> {} + {commit.value} == {commit.value};
    }

    // ---------- preparation ----------

    method MakeDirectory(k: Key) returns (result: Making)
      requires Valid() && (k.name.Private? ==> k.name.token < nextToken) && k in scope.places
      modifies this`files, this`schedule, this`log
      ensures Valid() && Adds(old(log), log, {Passing, Making})
      ensures !result.MadeNew? ==> Adds(old(log), log, {Passing})
      ensures result.MadeNew? ==> k in files.entries && MadeIn(old(log), log, k, files.entries[k]) && files.entries[k] in files.directories
      ensures result.MadeNew? ==> Passed(old(log), log, 2)
      ensures result.Exists? ==> Taken(old(log), log, k)
      ensures Quiet(old(schedule)) ==>
                && Quiet(schedule)
                && result == (if k in old(files).entries then Exists
                              else if k.dir in old(files).directories then MadeNew else Failed)
                && files == if result.MadeNew? then WithDirectory(old(files), k) else old(files)
    {
      hide Valid, Quiet, PrivateKept;
      var fault := Others();
      if k in files.entries {
        assert k in log[|log| - 1].after.entries;
        return Exists;
      }
      if fault || k.dir !in files.directories {
        return Failed;
      }
      KnownFiles();
      ghost var node := files.nextNode;
      Act(WithDirectory(files, k), Made(k, node));
      assert log[|log| - 1].deed == Made(k, node);
      result := MadeNew;
    }

    method OpenDirectory(k: Key) returns (node: Option<Node>)
      requires Valid()
      modifies this`files, this`schedule, this`log
      ensures Valid() && Adds(old(log), log, {Passing}) && PrivateKept(old(files), files)
      ensures node.Some? ==>
                && NamesDirectory(files, k, node.value) && WasSeen(log, k, node.value)
                && Passed(old(log), log, 1) && Sighted(log, |old(log)|, k, node.value)
      ensures Quiet(old(schedule)) ==>
                && Quiet(schedule) && files == old(files)
                && node == if k in files.entries && files.entries[k] in files.directories then Some(files.entries[k]) else None
    {
      hide Valid, Quiet, PrivateKept, Adds;
      node := Stat(k);
      if node.Some? && node.value !in files.directories {
        node := None;
      }
      assert node.Some? ==> NamesDirectory(log[|log| - 1].after, k, node.value);
    }

    /** Is the name free? */
    method Absent(k: Key) returns (absent: bool)
      requires Valid()
      modifies this`files, this`schedule, this`log
      ensures Valid() && Adds(old(log), log, {Passing})
      ensures absent ==> k !in files.entries && Passed(old(log), log, 1) && k !in log[|old(log)|].after.entries
      ensures Quiet(old(schedule)) ==> Quiet(schedule) && files == old(files) && (absent <==> k !in files.entries)
    {
      hide Valid, Quiet, PrivateKept;
      var fault := Others();
      absent := !fault && k !in files.entries;
    }

    /** Remove whatever empty directory has this name. */
    method Sweep(k: Key) returns (ghost at: nat)
      requires Valid() && k in scope.places
      modifies this`files, this`schedule, this`log
      ensures Valid() && Adds(old(log), log, {Passing, Sweeping}) && SweepsAre(old(log), log, [at])
      ensures |old(log)| <= at < |log| && log[at].deed.Swept? && log[at].deed.at == k
      ensures Quiet(old(schedule)) ==>
                && Quiet(schedule) && log[at].deed.removed == SweepTarget(old(files), k, false)
                && files == AfterSweep(old(files), k)
    {
      hide Valid, Quiet, PrivateKept, EmptyDirectory;
      var fault := Others();
      KnownFiles();
      var target := SweepTarget(files, k, fault);
      Act(if target.Some? then files.(entries := files.entries - {k}) else files, Swept(k, target));
      at := |log| - 1;
    }

    /** Record the metadata directory that the worktree's marker names. What the marker says is a
        parameter; that directory's own back reference is among the checks that may fail. */
    method BindMetadata(r: Reservation, metadataParent: Node, marker: Option<string>) returns (m: Option<Metadata>)
      requires Valid()
      modifies this`files, this`schedule, this`log, this`scope
      ensures Valid() && Adds(old(log), log, {Passing, Recording})
      ensures m.None? ==> Adds(old(log), log, {Passing})
      ensures m.Some? ==> Passed(old(log), log, 10)
      ensures Quiet(old(schedule)) ==>
                && Quiet(schedule) && files == old(files)
                && m == Bindable(old(files), r, metadataParent, marker)
      ensures m.Some? ==>
                && Some(m.value.name) == marker && m.value.parent == metadataParent
                && WasSeen(log, m.value.EntryKey(), m.value.directory)
      ensures scope == Extended(old(scope), m) && RecordsOnly(old(log), log, MetadataRecord(m))
    {
      hide Valid, Quiet, PrivateKept, Adds, Owned, WasSeen, RecordsOnly, Unlinks, Missed, Plus, Passed;
      m := None;
      ghost var kinds := {Passing, Recording};
      var found := FindMetadata(r, metadataParent, marker);
      AddsWiden(old(log), log, {Passing}, kinds);
      RecordsNone(old(log), log, {Passing});
      if found.Some? {
        ghost var l := log;
        Record(found.value.EntryKey(), found.value.directory);
        m := found;
        Onward(old(log), l, log, kinds, {Recording});
        PassedRecord(old(log), l, log, 9);
        RecordsMore(old(log), l, log, {}, MetadataRecord(m));
        assert {} + MetadataRecord(m) == MetadataRecord(m);
      }
    }

    method FindMetadata(r: Reservation, metadataParent: Node, marker: Option<string>) returns (m: Option<Metadata>)
      requires Valid()
      modifies this`files, this`schedule, this`log
      ensures Valid() && Adds(old(log), log, {Passing})
      ensures Quiet(old(schedule)) ==>
                && Quiet(schedule) && files == old(files)
                && m == Bindable(old(files), r, metadataParent, marker)
      ensures m.Some? ==>
                && Some(m.value.name) == marker && m.value.parent == metadataParent
                && WasSeen(log, m.value.EntryKey(), m.value.directory) && Passed(old(log), log, 9)
    {
      hide Valid, Quiet, PrivateKept, Adds, Owned, WasSeen, RecordsOnly, Unlinks, Missed, Passed, Sighted;
      m := None;
      var intact := Intact(r);
      if !intact || marker.None? {
        return;
      }
      var key := Key(metadataParent, Public(marker.value));
      ghost var l := log;
      var entry := OpenDirectory(key);
      Onward(old(log), l, log, {Passing}, {Passing});
      if entry.None? {
        return;
      }
      PassedMore(old(log), l, log, 6, 1);
      l := log;
      var directory := OpenDirectory(key);
      Onward(old(log), l, log, {Passing}, {Passing});
      if directory != entry {
        return;
      }
      PassedMore(old(log), l, log, 7, 1);
      l := log;
      var owns := DescriptorMatches(directory.value, entry.value);
      Onward(old(log), l, log, {Passing}, {Passing});
      if owns {
        PassedMore(old(log), l, log, 8, 1);
        m := Some(Metadata(metadataParent, marker.value, entry.value));
      }
    }

    /** Take the identity of a directory that was seen under this name. */
    ghost method Record(at: Key, node: Node)
      requires Valid() && WasSeen(log, at, node)
      modifies this`log, this`scope
      ensures Valid() && Adds(old(log), log, {Recording}) && scope == Plus(old(scope), RecordScope(at, node))
      ensures RecordsOnly(old(log), log, {Recorded(at, node)}) && |log| == |old(log)| + 1
    {
      hide Valid, WasSeen, Genuine, Tame, Paced, WellFormed, RootsOwned;
      KnownAll();
      ghost var e := Event(files, Recorded(at, node), files);
      RecordIsLegal(log, e);
      LogGrows(start, log, e);
      assert Ticks(log) + [] == Ticks(log);
      ghost var more := Plus(scope, RecordScope(at, node));
      TameWider(log, base, scope, more);
      TameGrows(log, base, more, e);
      RecordOwns(log, scope, e);
      log := log + [e];
      scope := more;
      AllKnown();
    }

    /** What validity is made of. */
    lemma KnownAll()
      requires Valid()
      ensures Genuine(start, log) && files == End(start, log) && Paced(script, Ticks(log), schedule)
      ensures WellFormed(files, nextToken) && Tame(log, base, scope) && RootsOwned(log, scope)
    {
    }

    lemma AllKnown()
      requires Genuine(start, log) && files == End(start, log) && Paced(script, Ticks(log), schedule)
      requires WellFormed(files, nextToken) && Tame(log, base, scope) && RootsOwned(log, scope)
      ensures Valid()
    {
    }

    /** The run may from now on do this too. */
    ghost method Widen(more: Scope)
      requires Valid() && more.roots == {}
      modifies this`scope
      ensures Valid() && scope == Plus(old(scope), more)
    {
      hide Valid, Tame;
      KnownAll();
      TameWider(log, base, scope, Plus(scope, more));
      scope := Plus(scope, more);
      AllKnown();
    }

    /** A new run: what was done before does not count. */
    ghost method Begin()
      requires Valid()
      modifies this`base, this`scope
      ensures Valid() && base == |log| && scope == Nothing()
    {
      hide Valid, Genuine, Paced, WellFormed;
      KnownAll();
      base, scope := |log|, Nothing();
      AllKnown();
    }

    method Intact(r: Reservation) returns (intact: bool)
      requires Valid()
      modifies this`files, this`schedule, this`log
      ensures Valid() && Adds(old(log), log, {Passing})
      ensures intact ==> StoodBoth(old(log), log, r)
      ensures Quiet(old(schedule)) ==>
                && Quiet(schedule) && files == old(files)
                && (intact <==> NamesDirectory(files, r.AnchorKey(), r.anchor) && NamesDirectory(files, r.StagingKey(), r.staging))
    {
      hide Valid, Quiet, PrivateKept, Adds, Owned, WasSeen, Unlinks, Missed, Passed, Unstruck, Sighted;
      intact := DescriptorsMatch(r.parent, r.anchor);
      ghost var l := log;
      if intact {
        intact := EntryMatches(r.AnchorKey(), r.anchor);
        Onward(old(log), l, log, {Passing}, {Passing});
      }
      ghost var second := log;
      if intact {
        PassedMore(old(log), l, second, 2, 1);
        intact := DescriptorsMatch(r.staging, r.staging);
        Onward(old(log), second, log, {Passing}, {Passing});
      }
      ghost var third := log;
      if intact {
        PassedMore(old(log), second, third, 3, 2);
        intact := EntryMatches(r.StagingKey(), r.staging);
        Onward(old(log), third, log, {Passing}, {Passing});
        if intact {
          PassedMore(old(log), third, log, 5, 1);
          BothStood(old(log), second, third, log, r);
        }
      }
    }

    /** Make the private anchor: the first of the candidate names that is free. */
    method MakeAnchor(parent: Node, candidates: seq<Name>) returns (making: Making, attempt: nat, ghost made: Node)
      requires Valid() && |candidates| == 32 && forall c :: c in candidates && c.Private? ==> c.token < nextToken
      requires forall c :: c in candidates ==> Key(parent, c) in scope.places
      modifies this`files, this`schedule, this`log
      ensures Valid() && Adds(old(log), log, {Passing, Making}) && 1 <= attempt <= 32
      ensures forall j :: 0 <= j < attempt - 1 ==> Taken(old(log), log, Key(parent, candidates[j]))
      ensures !making.MadeNew? ==> Adds(old(log), log, {Passing})
      ensures making.Exists? ==> attempt == 32 && Taken(old(log), log, Key(parent, candidates[31]))
      ensures making.MadeNew? ==>
                var k := Key(parent, candidates[attempt - 1]);
                MadeIn(old(log), log, k, made) && Names(files, k, made)
      ensures Quiet(old(schedule)) ==>
                var k := Key(parent, candidates[attempt - 1]);
                && Quiet(schedule)
                && (making.Exists? <==> AllTaken(old(files), parent, candidates))
                && (making.MadeNew? <==> !AllTaken(old(files), parent, candidates) && parent in old(files).directories)
                && files == (if making.MadeNew? then WithDirectory(old(files), k) else old(files))
                && (!making.Exists? ==> k !in old(files).entries)
                && (making.MadeNew? ==> made == old(files).nextNode)
    {
      hide Valid, Quiet, PrivateKept, Adds, MadeIn, Taken, WithDirectory, AllTaken;
      attempt, making, made := 0, Exists, 0;
      ghost var kinds := {Passing, Making};
      NothingAdded(log, {Passing});
      NothingAdded(log, kinds);
      while attempt < 32 && making.Exists?
        invariant Valid() && attempt <= 32 && (attempt == 0 ==> making.Exists?) && Adds(old(log), log, kinds)
        invariant forall j :: 0 <= j < attempt - (if making.Exists? then 0 else 1) ==>
                    Taken(old(log), log, Key(parent, candidates[j]))
        invariant !making.MadeNew? ==> Adds(old(log), log, {Passing})
        invariant making.MadeNew? ==>
                    MadeIn(old(log), log, Key(parent, candidates[attempt - 1]), made)
                    && Names(files, Key(parent, candidates[attempt - 1]), made)
        invariant Quiet(old(schedule)) ==>
                    && Quiet(schedule)
                    && (forall j :: 0 <= j < attempt - (if making.Exists? then 0 else 1) ==>
                          Key(parent, candidates[j]) in old(files).entries)
                    && (making.Exists? ==> files == old(files))
                    && (!making.Exists? ==>
                          var k := Key(parent, candidates[attempt - 1]);
                          && k !in old(files).entries
                          && making == (if parent in old(files).directories then MadeNew else Failed)
                          && files == (if making.MadeNew? then WithDirectory(old(files), k) else old(files))
                          && (making.MadeNew? ==> made == old(files).nextNode))
      {
        ghost var l, now := log, files;
        var k := Key(parent, candidates[attempt]);
        making := MakeDirectory(k);
        if making.MadeNew? {
          made := files.entries[k];
          NewDirectory(now, k);
        }
        AnchorTried(old(log), l, log, kinds, making, k, made);
        forall j | 0 <= j < attempt
          ensures Taken(old(log), log, Key(parent, candidates[j]))
        {
          TakenLater(old(log), l, log, kinds, Key(parent, candidates[j]));
        }
        attempt := attempt + 1;
      }
      AllTakenIs(old(files), parent, candidates);
    }

    /** Make the staging directory inside the anchor, and look at both again. */
    method MakeStaging(anchorKey: Key, anchor: Node) returns (staging: Option<Node>, ghost made: Node)
      requires Valid() && Key(anchor, Public("worktree")) in scope.places
      modifies this`files, this`schedule, this`log
      ensures Valid() && Adds(old(log), log, {Passing, Making})
      ensures staging.Some? ==>
                WasSeen(log, anchorKey, anchor) && WasSeen(log, Key(anchor, Public("worktree")), staging.value)
                && MadeIn(old(log), log, Key(anchor, Public("worktree")), made) && Passed(old(log), log, 5)
      ensures Quiet(old(schedule)) && NamesDirectory(old(files), anchorKey, anchor)
              && Key(anchor, Public("worktree")) !in old(files).entries ==>
                && Quiet(schedule) && staging == Some(made) && made == old(files).nextNode
                && files == WithDirectory(old(files), Key(anchor, Public("worktree")))
    {
      hide Valid, Quiet, PrivateKept, Adds, MadeIn, Taken, WithDirectory, WasSeen, Unlinks, Owned, Missed, Passed, Sighted;
      var k := Key(anchor, Public("worktree"));
      ghost var kinds, now := {Passing, Making}, files;
      ghost var calm := Quiet(old(schedule)) && NamesDirectory(old(files), anchorKey, anchor) && k !in old(files).entries;
      if calm {
        NamedIsDirectory(files, anchorKey, anchor);
      }
      staging, made := None, 0;
      var making := MakeDirectory(k);
      if !making.MadeNew? {
        return;
      }
      made := files.entries[k];
      NewDirectory(now, k);
      if calm {
        NewKeepsNames(now, k, anchorKey, anchor);
      }
      ghost var first := log;
      staging := OpenDirectory(k);
      Onward(old(log), first, log, kinds, {Passing});
      MadeLater(old(log), first, log, {Passing}, k, made);
      if staging.None? {
        return;
      }
      PassedMore(old(log), first, log, 2, 1);
      ghost var l := log;
      var matches := EntryMatches(anchorKey, anchor);
      Onward(old(log), l, log, kinds, {Passing});
      MadeLater(old(log), l, log, {Passing}, k, made);
      if matches {
        PassedMore(old(log), l, log, 3, 1);
        l := log;
        matches := EntryMatches(k, staging.value);
        Onward(old(log), l, log, kinds, {Passing});
        MadeLater(old(log), l, log, {Passing}, k, made);
      }
      if matches {
        PassedMore(old(log), l, log, 4, 1);
      } else {
        staging := None;
      }
    }

    /** Make the private anchor and the staging directory inside it, and record both. The random
        anchor names are a parameter. What a failed reservation sweeps is at the returned places
        of the log: the last candidate it tried, and before that the staging name under the anchor
        it had opened. */
    method Reserve(parent: Node, finalName: string, candidates: seq<Name>)
      returns (r: Option<Reservation>, ghost attempts: nat, ghost sweeps: seq<nat>, ghost entered: Option<Node>)
      requires Valid() && |candidates| == 32 && forall c :: c in candidates && c.Private? ==> c.token < nextToken
      modifies this`files, this`schedule, this`log, this`scope
      ensures Valid() && Adds(old(log), log, {Passing, Making, Recording, Sweeping}) && attempts <= 32
      ensures forall j :: 0 <= j < attempts - 1 ==> Taken(old(log), log, Key(parent, candidates[j]))
      ensures r.Some? ==>
                && attempts > 0 && sweeps == []
                && r.value.parent == parent && r.value.finalName == finalName && r.value.anchorName == candidates[attempts - 1]
                && entered == Some(r.value.anchor)
                && WasSeen(log, r.value.AnchorKey(), r.value.anchor) && WasSeen(log, r.value.StagingKey(), r.value.staging)
                && RecordsOnly(old(log), log, {Recorded(r.value.AnchorKey(), r.value.anchor),
                                               Recorded(r.value.StagingKey(), r.value.staging)})
      ensures scope == (if r.Some? then Plus(Plus(old(scope), AttemptScope(parent, candidates, entered)), ReservedScope(r.value))
                        else Plus(old(scope), AttemptScope(parent, candidates, entered)))
      ensures entered.Some? ==> attempts > 0 && WasSeen(log, Key(parent, candidates[attempts - 1]), entered.value)
      ensures r.Some? && r.value.anchorName.Private? ==> MadeIn(old(log), log, r.value.AnchorKey(), r.value.anchor)
      ensures SweepsAre(old(log), log, sweeps)
      ensures r.None? ==> RecordsOnly(old(log), log, {}) && SweptNames(log, sweeps, attempts, parent, candidates)
      ensures Quiet(old(schedule)) && r.Some? ==> Quiet(schedule)
      ensures Quiet(old(schedule)) ==>
                QuietReservation(old(files), files, old(log), log, r, sweeps, parent, finalName, candidates)
    {
      hide Valid, Quiet, PrivateKept, Adds, MadeIn, Taken, WithDirectory, AfterSweep, WasSeen, Unlinks, Owned, Missed, AllTaken,
           RecordsOnly, SweepsAre, SweptNames, QuietReservation, WellFormed, Names, NamesDirectory, SweepTarget, Foreign, Plus, AttemptScope,
           ReservedScope, Passed, Sighted, Unstruck;
      ghost var kinds := {Passing, Making, Recording, Sweeping};
      ghost var calm := Quiet(old(schedule));
      r, attempts, sweeps, entered := None, 0, [], None;
      KnownFiles();
      Widen(AttemptScope(parent, candidates, None));
      CandidatesInScope(old(scope), parent, candidates);
      var available := Absent(Key(parent, Public(finalName)));
      if !available {
        NothingReserved(old(files), old(log), log, parent, finalName, candidates, calm);
        return;
      }
      ghost var l := log;
      var making, attempt;
      ghost var made;
      making, attempt, made := MakeAnchor(parent, candidates);
      attempts := attempt;
      var k := Key(parent, candidates[attempt - 1]);
      AnchorReached(old(log), l, log, making, made, k, parent, candidates, attempt);
      var anchor: Option<Node> := None;
      ghost var first, now := log, files;
      if making.MadeNew? {
        anchor := OpenDirectory(k);
        Opened(old(files), old(nextToken), now, files, old(log), first, log, k, made, anchor, calm);
        TakenOn(old(log), first, log, {Passing}, parent, candidates, attempt);
      }
      ghost var second := log;
      if anchor.None? {
        ghost var at := Sweep(k);
        sweeps := [at];
        OneSweep(old(log), second, log, at, k, parent, candidates, attempt);
        if calm {
          OneQuietSweep(old(files), files, old(log), second, log, making, at, parent, finalName, candidates, attempt);
        }
        TakenOn(old(log), second, log, {Passing, Sweeping}, parent, candidates, attempt);
        return;
      }
      entered := anchor;
      Widen(AttemptScope(parent, candidates, entered));
      AttemptTwice(old(scope), parent, candidates, entered);
      var staging;
      ghost var made';
      staging, made' := MakeStaging(k, anchor.value);
      ghost var third := log;
      TakenOn(old(log), second, log, {Passing, Making}, parent, candidates, attempt);
      if staging.None? {
        ghost var at := Sweep(Key(anchor.value, Public("worktree")));
        ghost var fourth := log;
        TakenOn(old(log), third, log, {Passing, Sweeping}, parent, candidates, attempt);
        ghost var at' := Sweep(k);
        sweeps := [at, at'];
        TwoSweeps(old(log), second, third, fourth, log, k, anchor.value, at, at', attempt, parent, candidates);
        TakenOn(old(log), fourth, log, {Passing, Sweeping}, parent, candidates, attempt);
        return;
      }
      Record(k, anchor.value);
      ghost var fourth := log;
      SeenStill(third, fourth, Key(anchor.value, Public("worktree")), staging.value);
      TakenOn(old(log), third, log, {Recording}, parent, candidates, attempt);
      Record(Key(anchor.value, Public("worktree")), staging.value);
      TakenOn(old(log), fourth, log, {Recording}, parent, candidates, attempt);
      RecordedBoth(old(log), second, third, fourth, log, k, anchor.value, staging.value, made, made');
      r := Some(Reservation(parent, finalName, candidates[attempt - 1], anchor.value, staging.value));
      Widen(Scope({}, {r.value.FinalKey()}, {(r.value.StagingKey(), r.value.FinalKey())}, {}));
      ReservedTogether(Plus(old(scope), AttemptScope(parent, candidates, entered)), r.value);
      if calm {
        ReservedCalmly(old(files), files, old(log), log, r.value, made, made', parent, finalName, candidates);
      }
    }

    /** Give the worktree its public name, and only then remove the anchor. Rewriting the back
        reference is a primitive that may fail. */
    method Publish(r: Reservation, m: Metadata, depth: nat, ghost rank: Node -> nat) returns (ok: bool)
      requires Valid() && Covers(scope, ReservedScope(r)) && (r.anchorName.Private? ==> r.anchorName.token < nextToken)
      modifies this`files, this`schedule, this`log, this`nextToken
      ensures Valid() && Adds(old(log), log, {Passing, Cleaning}) && nextToken >= old(nextToken)
      ensures ok ==> WasSeen(log, r.FinalKey(), r.staging) && Unlinks(old(log), log, r.anchor)
      ensures ok ==> Unstruck(old(log), log) && Emptied(old(log), log, r.anchor)
      ensures Quiet(old(schedule)) && Publishable(old(files), r, depth, rank) ==>
                && ok && Quiet(schedule)
                && RemovedOnly(Moved(old(files), r.StagingKey(), r.FinalKey()), files, r.AnchorKey(), r.anchor, true, rank)
    {
      hide Valid, Quiet, PrivateKept, Adds, WasSeen, Unlinks, Owned, Missed, Ranked, Shrunk, RemovedOnly, Names, NamesDirectory,
           WellFormed, Moved, Publishable, Covers, Ours, Under, Unstruck, Emptied, Passed, Sighted, WentPublic, Expected;
      ghost var kinds := {Passing, Cleaning};
      ghost var calm := Quiet(old(schedule)) && Publishable(old(files), r, depth, rank);
      if calm {
        PublishableMeans(old(files), r, depth, rank);
      }
      ok := GoPublic(r, m);
      if ok {
        ghost var l := log;
        CoversMeans(scope, r);
        Given(r.AnchorKey(), r.anchor);
        ok := RemoveEntry(r.parent, r.anchorName, r.anchor, true, depth, rank);
        Onward(old(log), l, log, kinds, kinds);
        if ok {
          PublishedUnstruck(old(log), l, log, r, kinds);
        }
      }
    }

    /** Move the worktree to its public name, and look whether it arrived. Success means that none of
        the twelve steps was struck: both directories stood, the public name was free, the worktree was
        moved, and it was seen there. */
    method GoPublic(r: Reservation, m: Metadata) returns (ok: bool)
      requires Valid() && Covers(scope, ReservedScope(r))
      modifies this`files, this`schedule, this`log
      ensures Valid() && Adds(old(log), log, {Passing, Cleaning})
      ensures ok ==> WasSeen(log, r.FinalKey(), r.staging) && WentPublic(old(log), log, r)
      ensures Quiet(old(schedule)) && NamesDirectory(old(files), r.AnchorKey(), r.anchor)
              && NamesDirectory(old(files), r.StagingKey(), r.staging)
              && r.FinalKey() !in old(files).entries && r.parent in old(files).directories ==>
                ok && Quiet(schedule) && files == Moved(old(files), r.StagingKey(), r.FinalKey())
    {
      hide Valid, Quiet, PrivateKept, Adds, WasSeen, Unlinks, Owned, Missed, WellFormed, Permitted, Covers, Passed, Unstruck,
           Sighted;
      ghost var kinds := {Passing, Cleaning};
      ok := ReadyToMove(r, m);
      AddsWiden(old(log), log, {Passing}, kinds);
      ghost var first := log;
      if ok {
        ghost var moved;
        MovePermitted(log, scope, r);
        ok, moved := Rename(r.StagingKey(), r.FinalKey());
        MovedOnce(first, log, ok, kinds);
        Onward(old(log), first, log, kinds, kinds);
      }
      ghost var second := log;
      if ok {
        ok := SeeArrival(r, m);
        Onward(old(log), second, log, kinds, {Passing});
        if ok {
          Arrived(old(log), first, second, log, r);
        }
      }
    }

    /** The looks before the move. */
    method ReadyToMove(r: Reservation, m: Metadata) returns (ok: bool)
      requires Valid()
      modifies this`files, this`schedule, this`log
      ensures Valid() && Adds(old(log), log, {Passing})
      ensures ok ==> WasReady(old(log), log, r)
      ensures Quiet(old(schedule)) && NamesDirectory(old(files), r.AnchorKey(), r.anchor)
              && NamesDirectory(old(files), r.StagingKey(), r.staging) && r.FinalKey() !in old(files).entries ==>
                ok && Quiet(schedule) && files == old(files)
    {
      hide Valid, Quiet, PrivateKept, Adds, WasSeen, Unlinks, Owned, Missed, Passed, Unstruck, Sighted;
      ok := Intact(r);
      ghost var first := log;
      if ok {
        ok := Absent(r.FinalKey());
        Onward(old(log), first, log, {Passing}, {Passing});
      }
      ghost var second := log;
      if ok {
        ok := DescriptorMatches(m.directory, m.directory);
        Onward(old(log), second, log, {Passing}, {Passing});
        if ok {
          Readied(old(log), first, second, log, r);
        }
      }
    }

    /** The looks after it. */
    method SeeArrival(r: Reservation, m: Metadata) returns (ok: bool)
      requires Valid()
      modifies this`files, this`schedule, this`log
      ensures Valid() && Adds(old(log), log, {Passing})
      ensures ok ==> Passed(old(log), log, 3) && Sighted(log, |old(log)| + 1, r.FinalKey(), r.staging)
      ensures ok ==> WasSeen(log, r.FinalKey(), r.staging)
      ensures Quiet(old(schedule)) && NamesDirectory(old(files), r.FinalKey(), r.staging) ==>
                ok && Quiet(schedule) && files == old(files)
    {
      hide Valid, Quiet, PrivateKept, Adds, WasSeen, Unlinks, Owned, Missed, Passed, Unstruck, Sighted;
      ok := DescriptorMatches(r.staging, r.staging);
      ghost var first := log;
      if ok {
        ok := EntryMatches(r.FinalKey(), r.staging);
        Onward(old(log), first, log, {Passing}, {Passing});
      }
      ghost var second := log;
      if ok {
        PassedMore(old(log), first, second, 1, 1);
        PassedIs(old(log), first, 1);
        ok := DescriptorMatches(m.directory, m.directory);
        Onward(old(log), second, log, {Passing}, {Passing});
        SightedLater(first, second, log, r.FinalKey(), r.staging, {Passing});
        if ok {
          PassedMore(old(log), second, log, 2, 1);
        }
      }
    }

    method RefIs(commit: string) returns (same: bool)
      requires Valid()
      modifies this`files, this`schedule, this`log
      ensures Valid() && Adds(old(log), log, {Passing})
      ensures same ==> files.ref == Some(commit) && Passed(old(log), log, 1) && log[|old(log)|].after.ref == Some(commit)
      ensures Quiet(old(schedule)) ==> Quiet(schedule) && files == old(files) && (same <==> files.ref == Some(commit))
    {
      hide Valid, Quiet, Adds;
      var oid := ReadRef();
      same := oid == Some(commit);
    }

    /** The steps after the reservation, each only after the ones before. Git's own writes are among
        the actions of others. */
    method Fill(r: Reservation, commit: string, metadataParent: Node, marker: Option<string>, depth: nat,
                ghost rank: Node -> nat)
      returns (ok: bool, commitCreated: Option<string>, m: Option<Metadata>)
      requires Valid() && Covers(scope, ReservedScope(r)) && (r.anchorName.Private? ==> r.anchorName.token < nextToken)
      modifies this`files, this`schedule, this`log, this`nextToken, this`scope
      ensures Valid() && Adds(old(log), log, {Passing, Cleaning, Recording, Creating}) && nextToken >= old(nextToken)
      ensures CreatesOnly(old(log), log, commit)
      ensures commitCreated.Some? ==> commitCreated == Some(commit) && Created(log, commit)
      ensures commitCreated.Some? <==> CreatesIn(old(log), log, commit)
      ensures scope == Extended(old(scope), m) && RecordsOnly(old(log), log, MetadataRecord(m))
      ensures m.Some? ==> m.value.parent == metadataParent && Some(m.value.name) == marker
      ensures ok ==> commitCreated.Some? && m.Some? && WasSeen(log, r.FinalKey(), r.staging) && files.ref == Some(commit)
      ensures ok ==> Unstruck(old(log), log)
      ensures Quiet(old(schedule)) && Fillable(old(files), r, metadataParent, marker, depth, rank) ==>
                && ok && m == Bindable(old(files), r, metadataParent, marker)
                && RemovedOnly(Moved(old(files), r.StagingKey(), r.FinalKey()), files.(ref := None), r.AnchorKey(), r.anchor,
                               true, rank)
    {
      hide Valid, Quiet, PrivateKept, Adds, WasSeen, Unlinks, Owned, Missed, RecordsOnly, CreatesOnly, CreatesIn, Created,
           WellFormed, Covers, Fillable, RemovedOnly, Moved, Bindable, Plus, Unstruck;
      ghost var kinds := {Passing, Cleaning, Recording, Creating};
      m, commitCreated := None, None;
      ghost var smooth := Quiet(schedule) && Fillable(files, r, metadataParent, marker, depth, rank);
      if smooth {
        FillableKeepsRef(files, r, commit, metadataParent, marker, depth, rank);
        FillableStaging(files, r, metadataParent, marker, depth, rank);
      }
      ok := CreateRef(commit);
      ghost var first := log;
      AddsWiden(old(log), log, {Passing, Creating}, kinds);
      RecordsNone(old(log), log, {Passing, Creating});
      if !ok {
        return;
      }
      commitCreated := Some(commit);
      ok, m := FillBound(r, commit, metadataParent, marker, depth, rank);
      FilledOnward(old(log), first, log, kinds, commit, m);
      if ok {
        UnstruckMore(old(log), first, log);
      }
      if smooth {
        PublishedKeepsRef(old(files), files, r, commit, rank);
      }
    }

    /** The steps between the creation of the ref and the end. */
    method FillBound(r: Reservation, commit: string, metadataParent: Node, marker: Option<string>, depth: nat,
                     ghost rank: Node -> nat) returns (ok: bool, m: Option<Metadata>)
      requires Valid() && Covers(scope, ReservedScope(r)) && (r.anchorName.Private? ==> r.anchorName.token < nextToken)
      modifies this`files, this`schedule, this`log, this`nextToken, this`scope
      ensures Valid() && Adds(old(log), log, {Passing, Cleaning, Recording}) && nextToken >= old(nextToken)
      ensures scope == Extended(old(scope), m) && RecordsOnly(old(log), log, MetadataRecord(m))
      ensures m.Some? ==> m.value.parent == metadataParent && Some(m.value.name) == marker
      ensures ok ==> m.Some? && WasSeen(log, r.FinalKey(), r.staging) && files.ref == Some(commit) && Unstruck(old(log), log)
      ensures Quiet(old(schedule)) && old(files).ref == Some(commit)
              && Publishable(old(files), r, depth, rank) && Bindable(old(files), r, metadataParent, marker).Some? ==>
                && ok && m == Bindable(old(files), r, metadataParent, marker)
                && RemovedOnly(Moved(old(files), r.StagingKey(), r.FinalKey()), files, r.AnchorKey(), r.anchor, true, rank)
    {
      hide Valid, Quiet, PrivateKept, Adds, WasSeen, Unlinks, Owned, Missed, RecordsOnly, WellFormed, Covers, Publishable,
           RemovedOnly, Moved, Bindable, Plus, Unstruck, Passed, Sighted, StoodBoth;
      ghost var rest, calm := {Passing, Cleaning, Recording}, {Passing, Cleaning};
      if Publishable(files, r, depth, rank) {
        PublishableMeans(files, r, depth, rank);
      }
      NothingAdded(log, rest);
      m := None;
      ok := Intact(r);
      ghost var l := log;
      RecordsNone(old(log), log, {Passing});
      Onward(old(log), old(log), log, rest, {Passing});
      if !ok {
        return;
      }
      m := BindMetadata(r, metadataParent, marker);
      ghost var bound := log;
      CoversExtended(old(scope), r, m);
      BoundOn(old(log), l, log, m);
      Onward(old(log), l, log, rest, {Passing, Recording});
      if m.None? {
        return false, m;
      }
      ok := PublishBound(r, commit, m.value, depth, rank);
      BoundUnstruck(old(log), l, bound, log, r, ok);
      RecordsNone(bound, log, calm);
      RecordsMore(old(log), bound, log, MetadataRecord(m), {});
      assert MetadataRecord(m) + {} == MetadataRecord(m);
      Onward(old(log), bound, log, rest, calm);
    }

    /** The checks around the publication. */
    method PublishBound(r: Reservation, commit: string, m: Metadata, depth: nat, ghost rank: Node -> nat) returns (ok: bool)
      requires Valid() && Covers(scope, ReservedScope(r)) && (r.anchorName.Private? ==> r.anchorName.token < nextToken)
      modifies this`files, this`schedule, this`log, this`nextToken
      ensures Valid() && Adds(old(log), log, {Passing, Cleaning}) && nextToken >= old(nextToken)
      ensures ok ==> WasSeen(log, r.FinalKey(), r.staging) && files.ref == Some(commit)
      ensures ok ==> Unstruck(old(log), log) && |log| > |old(log)| + 6 && log[|old(log)| + 6].after.ref == Some(commit)
      ensures Quiet(old(schedule)) && old(files).ref == Some(commit) && Publishable(old(files), r, depth, rank) ==>
                && ok
                && RemovedOnly(Moved(old(files), r.StagingKey(), r.FinalKey()), files, r.AnchorKey(), r.anchor, true, rank)
    {
      hide Valid, Quiet, PrivateKept, Adds, WasSeen, Unlinks, Owned, Missed, WellFormed, Covers, Publishable, RemovedOnly, Moved,
           Unstruck, Emptied, Passed, Sighted, StoodBoth;
      ghost var calm := {Passing, Cleaning};
      ghost var smooth := Quiet(schedule) && files.ref == Some(commit) && Publishable(files, r, depth, rank);
      if smooth {
        PublishableMeans(files, r, depth, rank);
      }
      NothingAdded(log, calm);
      ok := Intact(r);
      Onward(old(log), old(log), log, calm, {Passing});
      ghost var stood := log;
      if ok {
        ok := RefIs(commit);
        Onward(old(log), stood, log, calm, {Passing});
      }
      ghost var checked := log;
      if ok {
        ok := Publish(r, m, depth, rank);
        Onward(old(log), checked, log, calm, {Passing, Cleaning});
        if smooth {
          PublishedSameRef(old(files), files, r, rank);
        }
      }
      ghost var published := log;
      if ok {
        ok := RefIs(commit);
        Onward(old(log), published, log, calm, {Passing});
        if ok {
          CheckedAround(old(log), stood, checked, published, log, r, commit);
        }
      }
    }

    /** Those steps, and the undo when one of them fails. */
    method FillOrUndo(r: Reservation, commit: string, metadataParent: Node, marker: Option<string>,
                      laterMarker: Option<string>, depth: nat, ghost rank: Node -> nat)
      returns (ok: bool, ghost m: Option<Metadata>, ghost rebound: Option<Metadata>, ghost created: Option<string>,
               ghost filled: Log)
      requires Valid() && Covers(scope, ReservedScope(r)) && (r.anchorName.Private? ==> r.anchorName.token < nextToken)
      modifies this`files, this`schedule, this`log, this`nextToken, this`scope
      ensures Valid() && Adds(old(log), log, {Passing, Cleaning, Recording, Creating, Deleting})
      ensures scope == Extended(Extended(old(scope), m), rebound)
      ensures RecordsOnly(old(log), log, MetadataRecord(m) + MetadataRecord(rebound))
      ensures Rebound(Some(r), m, metadataParent, laterMarker, rebound) && (ok ==> rebound.None?)
      ensures m.Some? ==> m.value.parent == metadataParent && Some(m.value.name) == marker
      ensures CreatesOnly(old(log), log, commit) && DeletesOnly(old(log), log, if ok then {} else {commit})
      ensures old(log) <= filled <= log && (ok ==> filled == log)
      ensures (created.Some? ==> created == Some(commit)) && (created.Some? <==> CreatesIn(old(log), filled, commit))
      ensures !ok && Quiet(Rest(script, Ticks(filled))) ==>
                && (m.None? ==> rebound == Bindable(End(start, filled), r, metadataParent, laterMarker))
                && UndoneCalmly(End(start, filled), files, created, r, if m.Some? then m else rebound, depth, rank)
      ensures ok ==> m.Some? && WasSeen(log, r.FinalKey(), r.staging) && files.ref == Some(commit) && Unstruck(old(log), log)
      ensures Quiet(old(schedule)) && Fillable(old(files), r, metadataParent, marker, depth, rank) ==> ok
    {
      hide Valid, Quiet, PrivateKept, Adds, WasSeen, Unlinks, Owned, Missed, RecordsOnly, CreatesOnly, CreatesIn, DeletesOnly,
           SweepsAre, Created, WellFormed, Standing, RolledOff, UndoneCalmly, Tame, Fillable, Covers, Bindable, Plus,
           RemovedOnly, Moved, Unstruck;
      var commitCreated, bound;
      ok, commitCreated, bound := Fill(r, commit, metadataParent, marker, depth, rank);
      m, created, filled, rebound := bound, commitCreated, log, None;
      FilledAlone(old(log), log, commit);
      KnownFiles();
      KnownSchedule();
      if ok {
        assert MetadataRecord(m) + {} == MetadataRecord(m);
      } else {
        CoversRebound(old(scope), r, bound);
        rebound := Rollback(commitCreated, Some(r), bound, metadataParent, laterMarker, depth, rank);
        UndoneOn(old(log), filled, log, commit, commitCreated);
        RecordsMore(old(log), filled, log, MetadataRecord(bound), MetadataRecord(rebound));
      }
    }

    /** The whole preparation, with the undo that every failure triggers. Every transition of its own
        stays within the names it tried, what it reserved, and the metadata it bound. */
    method Prepare(parent: Node, finalName: string, candidates: seq<Name>, commit: string,
                   metadataParent: Node, marker: Option<string>, laterMarker: Option<string>, depth: nat,
                   ghost rank: Node -> nat)
      returns (ok: bool, ghost r: Option<Reservation>, ghost m: Option<Metadata>, ghost rebound: Option<Metadata>,
               ghost created: Option<string>, ghost filled: Log, ghost attempts: nat, ghost sweeps: seq<nat>,
               ghost entered: Option<Node>)
      requires Valid() && |candidates| == 32 && forall c :: c in candidates && c.Private? ==> c.token < nextToken
      modifies this`files, this`schedule, this`log, this`nextToken, this`scope, this`base
      ensures Valid() && old(log) <= log && Orderly(old(log), log)
      ensures Tame(log, |old(log)|, PreparedScope(parent, candidates, entered, r, m, rebound))
      ensures RecordsOnly(old(log), log, if r.Some? then Recordings(r.value, m) + MetadataRecord(rebound) else {})
      ensures Rebound(r, m, metadataParent, laterMarker, rebound) && (ok ==> rebound.None?)
      ensures m.Some? ==> r.Some? && m.value.parent == metadataParent && Some(m.value.name) == marker
      ensures entered.Some? ==> 0 < attempts <= 32 && WasSeen(log, Key(parent, candidates[attempts - 1]), entered.value)
      ensures CreatesOnly(old(log), log, commit)
      ensures DeletesOnly(old(log), log, if ok then {} else {commit})
      ensures SweepsAre(old(log), log, sweeps) && attempts <= 32
      ensures if ok then sweeps == [] else sweeps == [] || SweptNames(log, sweeps, attempts, parent, candidates)
      ensures r.Some? ==>
                && ReservedAs(log, r.value, parent, finalName, candidates, attempts, entered)
                && old(log) <= filled <= log && (ok ==> filled == log)
                && (created.Some? ==> created == Some(commit)) && (created.Some? <==> CreatesIn(old(log), filled, commit))
                && (!ok && Quiet(Rest(script, Ticks(filled))) ==>
                      && (m.None? ==> rebound == Bindable(End(start, filled), r.value, metadataParent, laterMarker))
                      && UndoneCalmly(End(start, filled), files, created, r.value, if m.Some? then m else rebound, depth, rank))
      ensures ok ==> r.Some? && m.Some? && WasSeen(log, r.value.FinalKey(), r.value.staging) && files.ref == Some(commit)
      ensures Quiet(old(schedule)) && Preparable(old(files), parent, finalName, candidates, metadataParent, marker, depth, rank) ==> ok
    {
      hide Valid, Quiet, PrivateKept, Adds, WasSeen, Unlinks, Owned, Missed, RecordsOnly, CreatesOnly, CreatesIn, DeletesOnly,
           SweepsAre, Created, WellFormed, SweptNames, QuietReservation, Standing, RolledOff, UndoneCalmly, Tame, Preparable,
           Fillable, Covers, Bindable, Plus, RemovedOnly, Moved, AttemptScope, Orderly, Names, NamesDirectory, Acts, Ambiguous,
           Recordings, ReadHere, ReservedAs, MetadataRecord, Rest, End, Ticks;
      ok, r, m, rebound, created, filled, attempts, sweeps, entered := false, None, None, None, None, log, 0, [], None;
      ghost var early := {Passing, Making, Recording, Sweeping};
      KnownFiles();
      ghost var calm := Quiet(schedule) && Preparable(files, parent, finalName, candidates, metadataParent, marker, depth, rank);
      if calm {
        PreparableRef(files, parent, finalName, candidates, metadataParent, marker, depth, rank);
      }
      ghost var tokens := nextToken;
      Begin();
      var existing := ReadRef();
      ghost var first := log;
      RecordsNone(old(log), log, {Passing});
      if existing.Some? {
        Refused(old(log), log, commit);
        NothingTame(log, base, scope, PreparedScope(parent, candidates, entered, r, m, rebound)) by {
          KnownScope();
        }
        return;
      }
      var reserved;
      reserved, attempts, sweeps, entered := Reserve(parent, finalName, candidates);
      r := reserved;
      ghost var second := log;
      ReservedOn(old(log), first, second, sweeps, commit, early);
      AttemptedFirst(parent, candidates, entered, reserved);
      if calm {
        CalmReserves(old(files), tokens, files, first, log, reserved, sweeps, parent, finalName, candidates, metadataParent, marker,
                     depth, rank);
      }
      if reserved.None? {
        RecordsMore(old(log), first, second, {}, {});
        ghost var none: set<Deed> := {};
        assert none + none == none;
        SameScope(log, base, scope, PreparedScope(parent, candidates, entered, r, m, rebound)) by {
          KnownScope();
        }
        return;
      }
      ReservedHere(log, reserved.value, parent, finalName, candidates, attempts, entered);
      ok, m, rebound, created, filled := FillOrUndo(reserved.value, commit, metadataParent, marker, laterMarker, depth, rank);
      CompletedOn(old(log), first, second, filled, log, commit, ok, reserved.value, m, rebound);
      SeenOn(second, log, {Passing, Cleaning, Recording, Creating, Deleting}, reserved.value, parent, finalName, candidates,
             attempts, entered);
      SameScope(log, base, scope, PreparedScope(parent, candidates, entered, r, m, rebound)) by {
        KnownScope();
      }
    }

    lemma KeepUnder(before: Log, node: Node, kinds: set<Kind>)
      requires Adds(before, log, kinds) && Under(before, scope.roots, node)
      ensures Under(log, scope.roots, node)
    {
      UnderGrows(before, log, scope.roots, node);
    }
  }

  /** The worktree, its anchor and its metadata stand where they were put, in a tree of this depth;
      the metadata lies outside the worktree, and the anchor's parent outside the metadata. */
  ghost predicate Standing(f: Files, r: Reservation, m: Option<Metadata>, depth: nat, rank: Node -> nat) {
    && Ranked(f, rank) && rank(r.staging) < depth && rank(r.anchor) < depth
    && !Ambiguous(f, r)
    && NamesDirectory(f, r.AnchorKey(), r.anchor) && r.anchor != r.staging
    && rank(r.parent) > rank(r.staging)
    && (m.Some? ==>
          && NamesDirectory(f, m.value.EntryKey(), m.value.directory)
          && m.value.directory !in {r.anchor, r.staging} && rank(m.value.directory) < depth
          && rank(m.value.parent) > rank(r.staging) && rank(r.parent) > rank(m.value.directory))
  }

  /** The worktree is found under both of its names, or under neither. */
  ghost predicate Ambiguous(f: Files, r: Reservation) {
    NamesDirectory(f, r.FinalKey(), r.staging) <==> NamesDirectory(f, r.StagingKey(), r.staging)
  }

  ghost function WorktreeKey(f: Files, r: Reservation): Key {
    if NamesDirectory(f, r.FinalKey(), r.staging) then r.FinalKey() else r.StagingKey()
  }

  /** The worktree stands, but something else has the name of the metadata. */
  ghost predicate Replaced(f: Files, r: Reservation, m: Metadata, depth: nat, rank: Node -> nat) {
    && Ranked(f, rank) && rank(r.staging) < depth && !Ambiguous(f, r)
    && !NamesDirectory(f, m.EntryKey(), m.directory)
  }

  lemma ReplacedMeans(f: Files, r: Reservation, m: Metadata, depth: nat, rank: Node -> nat)
    requires Replaced(f, r, m, depth, rank)
    ensures Ranked(f, rank) && rank(r.staging) < depth && !Ambiguous(f, r)
  {
  }

  lemma StillReplaced(f: Files, g: Files, r: Reservation, m: Metadata, depth: nat, rank: Node -> nat)
    requires Replaced(f, r, m, depth, rank)
    requires RemovedOnly(f, g, WorktreeKey(f, r), r.staging, true, rank)
    ensures !Expected(g, m.EntryKey(), m.directory, m.directory, true)
  {
  }

  /** The worktree is gone; what else is to go still stands. */
  ghost predicate Cleared(f: Files, g: Files, r: Reservation, m: Option<Metadata>, depth: nat, rank: Node -> nat) {
    && Shrunk(f, g) && Ranked(g, rank)
    && !Names(g, r.FinalKey(), r.staging) && NamesDirectory(g, r.AnchorKey(), r.anchor) && rank(r.anchor) < depth
    && (m.Some? ==>
          && NamesDirectory(g, m.value.EntryKey(), m.value.directory)
          && m.value.directory != r.anchor && rank(m.value.directory) < depth
          && rank(r.parent) > rank(m.value.directory))
  }

  /** Worktree, anchor and metadata are gone, and nothing was added or renamed. */
  ghost predicate RolledOff(f: Files, g: Files, r: Reservation, m: Option<Metadata>) {
    && Shrunk(f, g) && !Names(g, r.FinalKey(), r.staging) && r.AnchorKey() !in g.entries
    && (m.Some? ==> m.value.EntryKey() !in g.entries)
  }

  /** The metadata that binding finds when nobody interferes. */
  function Bindable(f: Files, r: Reservation, metadataParent: Node, marker: Option<string>): Option<Metadata> {
    if marker.Some? && NamesDirectory(f, r.AnchorKey(), r.anchor) && NamesDirectory(f, r.StagingKey(), r.staging) then
      var key := Key(metadataParent, Public(marker.value));
      if key in f.entries && f.entries[key] in f.directories
      then Some(Metadata(metadataParent, marker.value, f.entries[key])) else None
    else None
  }

  /** An undo binds metadata only when none was bound before, and only what the marker names. */
  ghost predicate Rebound(r: Option<Reservation>, m: Option<Metadata>, metadataParent: Node, marker: Option<string>,
                          rebound: Option<Metadata>) {
    && (r.None? || m.Some? ==> rebound.None?)
    && (rebound.Some? ==> rebound.value.parent == metadataParent && Some(rebound.value.name) == marker)
  }

  /** What a whole preparation may reach: the names it tried, what it reserved, and the metadata it
      bound before the end or in the undo. */
  function PreparedScope(parent: Node, candidates: seq<Name>, entered: Option<Node>, r: Option<Reservation>,
                         m: Option<Metadata>, rebound: Option<Metadata>): Scope {
    if r.None? then AttemptScope(parent, candidates, entered)
    else Extended(Extended(Plus(AttemptScope(parent, candidates, entered), ReservedScope(r.value)), m), rebound)
  }

  function DirectoryOf(m: Option<Metadata>): set<Node> {
    if m.Some? then {m.value.directory} else {}
  }

  /** A preparation unlinks only its anchor, its worktree, the metadata it bound, and what it saw,
      step by step, inside one of them; without a reservation it unlinks and renames nothing. */
  lemma OnlyReservedIsRemoved(log: Log, base: nat, parent: Node, candidates: seq<Name>, entered: Option<Node>,
                              r: Option<Reservation>, m: Option<Metadata>, rebound: Option<Metadata>, i: nat)
    returns (path: seq<Node>)
    requires Tame(log, base, PreparedScope(parent, candidates, entered, r, m, rebound)) && base <= i < |log|
    ensures log[i].deed.Unlinked? ==>
              && r.Some? && path != [] && path[|path| - 1] == log[i].deed.node
              && path[0] in {r.value.anchor, r.value.staging} + DirectoryOf(m) + DirectoryOf(rebound)
              && forall k :: 0 < k < |path| ==> SeenInside(log[..i], path[k - 1], path[k])
    ensures r.None? ==> !log[i].deed.Renamed? && !log[i].deed.Unlinked?
  {
    hide SeenInside, WasMoved, AttemptScope;
    path := [];
    assert Allowed(log[..i], PreparedScope(parent, candidates, entered, r, m, rebound), log[i].deed);
    AttemptNames(parent, candidates, entered);
    if log[i].deed.Unlinked? {
      path := UnlinkedLiesUnderRoots(log, base, PreparedScope(parent, candidates, entered, r, m, rebound), i);
    }
  }

  lemma AttemptNames(parent: Node, candidates: seq<Name>, entered: Option<Node>)
    ensures AttemptScope(parent, candidates, entered).doors == {} && AttemptScope(parent, candidates, entered).moves == {}
  {
  }

  lemma NothingTame(log: Log, base: nat, few: Scope, more: Scope)
    requires Tame(log, base, few) && few == Nothing()
    ensures Tame(log, base, more)
  {
    hide Tame;
    TameWider(log, base, few, more);
  }

  lemma SameScope(log: Log, base: nat, scope: Scope, same: Scope)
    requires Tame(log, base, scope) && scope == same
    ensures Tame(log, base, same)
  {
  }

  lemma AttemptedFirst(parent: Node, candidates: seq<Name>, entered: Option<Node>, r: Option<Reservation>)
    ensures Plus(Nothing(), AttemptScope(parent, candidates, entered)) == AttemptScope(parent, candidates, entered)
    ensures r.Some? ==> Covers(Plus(AttemptScope(parent, candidates, entered), ReservedScope(r.value)), ReservedScope(r.value))
  {
  }

  lemma CoversExtended(s: Scope, r: Reservation, m: Option<Metadata>)
    requires Covers(s, ReservedScope(r))
    ensures Covers(Extended(s, m), ReservedScope(r))
  {
  }

  /** Reserved at this attempt, with anchor and staging directory seen under their names. */
  ghost predicate ReservedAs(log: Log, r: Reservation, parent: Node, finalName: string, candidates: seq<Name>, attempts: nat,
                             entered: Option<Node>) {
    && r.parent == parent && r.finalName == finalName
    && 0 < attempts <= |candidates| && r.anchorName == candidates[attempts - 1] && entered == Some(r.anchor)
    && WasSeen(log, r.AnchorKey(), r.anchor) && WasSeen(log, r.StagingKey(), r.staging)
  }

  lemma ReservedHere(log: Log, r: Reservation, parent: Node, finalName: string, candidates: seq<Name>, attempts: nat,
                     entered: Option<Node>)
    requires r.parent == parent && r.finalName == finalName
    requires 0 < attempts <= |candidates| && r.anchorName == candidates[attempts - 1] && entered == Some(r.anchor)
    requires WasSeen(log, r.AnchorKey(), r.anchor) && WasSeen(log, r.StagingKey(), r.staging)
    ensures ReservedAs(log, r, parent, finalName, candidates, attempts, entered)
  {
  }

  /** What the steps after the reservation need to succeed when nobody interferes. */
  ghost predicate Fillable(f: Files, r: Reservation, metadataParent: Node, marker: Option<string>, depth: nat,
                           rank: Node -> nat) {
    f.ref.None? && Publishable(f, r, depth, rank) && Bindable(f, r, metadataParent, marker).Some?
  }

  lemma FillableKeepsRef(f: Files, r: Reservation, commit: string, metadataParent: Node, marker: Option<string>, depth: nat,
                         rank: Node -> nat)
    requires Fillable(f, r, metadataParent, marker, depth, rank)
    ensures f.ref.None? && Publishable(f.(ref := Some(commit)), r, depth, rank)
    ensures Bindable(f.(ref := Some(commit)), r, metadataParent, marker) == Bindable(f, r, metadataParent, marker)
    ensures Bindable(f, r, metadataParent, marker).Some?
  {
  }

  lemma FillableStaging(f: Files, r: Reservation, metadataParent: Node, marker: Option<string>, depth: nat, rank: Node -> nat)
    requires Fillable(f, r, metadataParent, marker, depth, rank)
    ensures r.StagingKey() in f.entries
  {
  }

  lemma PublishedKeepsRef(f: Files, g: Files, r: Reservation, commit: string, rank: Node -> nat)
    requires f.ref.None? && r.StagingKey() in f.entries
    requires RemovedOnly(Moved(f.(ref := Some(commit)), r.StagingKey(), r.FinalKey()), g, r.AnchorKey(), r.anchor, true, rank)
    ensures RemovedOnly(Moved(f, r.StagingKey(), r.FinalKey()), g.(ref := None), r.AnchorKey(), r.anchor, true, rank)
  {
  }

  lemma PublishedSameRef(f: Files, g: Files, r: Reservation, rank: Node -> nat)
    requires r.StagingKey() in f.entries
    requires RemovedOnly(Moved(f, r.StagingKey(), r.FinalKey()), g, r.AnchorKey(), r.anchor, true, rank)
    ensures g.ref == f.ref
  {
  }

  /** What a preparation needs to succeed when nobody interferes: no ref yet, a free public name, a
      free candidate, and metadata under the name that the marker will give. */
  ghost predicate Preparable(f: Files, parent: Node, finalName: string, candidates: seq<Name>, metadataParent: Node,
                             marker: Option<string>, depth: nat, rank: Node -> nat) {
    && f.ref.None? && parent in f.directories
    && Key(parent, Public(finalName)) !in f.entries && Public(finalName) !in candidates && !AllTaken(f, parent, candidates)
    && marker.Some? && Key(metadataParent, Public(marker.value)) in f.entries
    && f.entries[Key(metadataParent, Public(marker.value))] in f.directories
    && Ranked(f, rank) && rank(f.nextNode + 1) < rank(f.nextNode) < rank(parent) && rank(f.nextNode) < depth
  }

  lemma PreparableRef(f: Files, parent: Node, finalName: string, candidates: seq<Name>, metadataParent: Node,
                      marker: Option<string>, depth: nat, rank: Node -> nat)
    requires Preparable(f, parent, finalName, candidates, metadataParent, marker, depth, rank)
    ensures f.ref.None?
  {
  }

  lemma ReservedIsFillable(f: Files, nextToken: nat, g: Files, a: Log, b: Log, r: Reservation, sweeps: seq<nat>, parent: Node,
                           finalName: string, candidates: seq<Name>, metadataParent: Node, marker: Option<string>,
                           depth: nat, rank: Node -> nat)
    requires |candidates| == 32 && QuietReservation(f, g, a, b, Some(r), sweeps, parent, finalName, candidates)
    requires WellFormed(f, nextToken) && r.parent == parent && r.finalName == finalName && r.anchorName in candidates
    requires Preparable(f, parent, finalName, candidates, metadataParent, marker, depth, rank)
    ensures Fillable(g, r, metadataParent, marker, depth, rank)
  {
    hide MadeIn, AllTaken;
    var first := WithDirectory(f, r.AnchorKey());
    assert g == WithDirectory(first, r.StagingKey());
    assert r.StagingKey() !in f.entries && r.StagingKey() != r.AnchorKey();
    assert Publishable(g, r, depth, rank);
    assert Key(metadataParent, Public(marker.value)) != r.AnchorKey();
  }

  lemma CalmReserves(f: Files, nextToken: nat, g: Files, a: Log, b: Log, r: Option<Reservation>, sweeps: seq<nat>, parent: Node,
                     finalName: string, candidates: seq<Name>, metadataParent: Node, marker: Option<string>, depth: nat,
                     rank: Node -> nat)
    requires |candidates| == 32 && QuietReservation(f, g, a, b, r, sweeps, parent, finalName, candidates)
    requires Preparable(f, parent, finalName, candidates, metadataParent, marker, depth, rank) && WellFormed(f, nextToken)
    requires r.Some? ==> r.value.parent == parent && r.value.finalName == finalName && r.value.anchorName in candidates
    ensures r.Some? && Fillable(g, r.value, metadataParent, marker, depth, rank)
  {
    hide WellFormed, Fillable;
    if r.Some? {
      ReservedIsFillable(f, nextToken, g, a, b, r.value, sweeps, parent, finalName, candidates, metadataParent, marker, depth, rank);
    }
  }

  lemma FilledAlone(a: Log, b: Log, commit: string)
    requires Adds(a, b, {Passing, Cleaning, Recording, Creating}) && CreatesOnly(a, b, commit)
    ensures a <= b && DeletesOnly(a, b, {}) && Adds(a, b, {Passing, Cleaning, Recording, Creating, Deleting})
  {
    DeletesNone(a, b, {Passing, Cleaning, Recording, Creating});
  }

  lemma UndoneOn(a: Log, b: Log, c: Log, commit: string, created: Option<string>)
    requires Adds(a, b, {Passing, Cleaning, Recording, Creating, Deleting}) && CreatesOnly(a, b, commit) && DeletesOnly(a, b, {})
    requires Adds(b, c, {Passing, Cleaning, Recording, Deleting}) && (created.Some? ==> created == Some(commit))
    requires DeletesOnly(b, c, if created.Some? then {created.value} else {})
    ensures Adds(a, c, {Passing, Cleaning, Recording, Creating, Deleting})
    ensures a <= b <= c && CreatesOnly(a, c, commit) && DeletesOnly(a, c, {commit})
  {
    CreatesNone(b, c, {Passing, Cleaning, Recording, Deleting}, commit);
    CreatesMore(a, b, c, commit);
    DeletesMore(a, b, c, {}, if created.Some? then {created.value} else {});
    AddsMore(a, b, c, {Passing, Cleaning, Recording, Creating, Deleting}, {Passing, Cleaning, Recording, Deleting},
             {Passing, Cleaning, Recording, Creating, Deleting});
  }

  lemma InOrder(a: Log, b: Log, c: Log, d: Log)
    requires Adds(a, b, {Passing}) && Adds(b, c, {Passing, Making, Recording, Sweeping})
    requires Adds(c, d, {Passing, Cleaning, Recording, Creating, Deleting})
    ensures Orderly(a, d)
  {
    hide Orderly;
    OrderlyMore(a, b, c);
    OrderlyMore(a, c, d);
  }

  lemma CompletedOn(a: Log, b: Log, c: Log, filled: Log, d: Log, commit: string, ok: bool, r: Reservation,
                    m: Option<Metadata>, rebound: Option<Metadata>)
    requires Adds(a, b, {Passing}) && Adds(b, c, {Passing, Making, Recording, Sweeping})
    requires CreatesOnly(a, c, commit) && DeletesOnly(a, c, {}) && SweepsAre(a, c, [])
    requires RecordsOnly(b, c, {Recorded(r.AnchorKey(), r.anchor), Recorded(r.StagingKey(), r.staging)})
    requires Adds(c, d, {Passing, Cleaning, Recording, Creating, Deleting}) && c <= filled <= d
    requires CreatesOnly(c, d, commit) && DeletesOnly(c, d, if ok then {} else {commit})
    requires RecordsOnly(c, d, MetadataRecord(m) + MetadataRecord(rebound))
    ensures Orderly(a, d)
    ensures a <= c <= d && CreatesOnly(a, d, commit) && DeletesOnly(a, d, if ok then {} else {commit}) && SweepsAre(a, d, [])
    ensures RecordsOnly(a, d, Recordings(r, m) + MetadataRecord(rebound))
    ensures CreatesIn(a, filled, commit) <==> CreatesIn(c, filled, commit)
  {
    hide Orderly;
    InOrder(a, b, c, d);
    NoneCreated(a, b, c, filled, commit);
    SweepsNone(c, d, {Passing, Cleaning, Recording, Creating, Deleting});
    RecordsNone(a, b, {Passing});
    AddsPrefix(b, c, {Passing, Making, Recording, Sweeping});
    AddsPrefix(a, b, {Passing});
    hide RecordsOnly, Adds, CreatesIn, SweepsAre, DeletesOnly, CreatesOnly;
    CreatesMore(a, c, d, commit);
    DeletesMore(a, c, d, {}, if ok then {} else {commit});
    SweepsMore(a, c, d, [], []);
    var nowhere: seq<nat>, none: set<string> := [], {};
    assert nowhere + nowhere == nowhere && none + (if ok then {} else {commit}) == if ok then {} else {commit};
    var both := {Recorded(r.AnchorKey(), r.anchor), Recorded(r.StagingKey(), r.staging)};
    RecordsMore(a, b, c, {}, both);
    RecordsMore(a, c, d, {} + both, MetadataRecord(m) + MetadataRecord(rebound));
    assert {} + both + (MetadataRecord(m) + MetadataRecord(rebound)) == Recordings(r, m) + MetadataRecord(rebound);
  }

  lemma CoversRebound(s: Scope, r: Reservation, m: Option<Metadata>)
    requires Covers(s, ReservedScope(r))
    ensures Covers(Extended(s, m), Extended(ReservedScope(r), m))
  {
  }

  /** Anchor and worktree stand where they were put, and the public name is free. */
  ghost predicate Publishable(f: Files, r: Reservation, depth: nat, rank: Node -> nat) {
    && NamesDirectory(f, r.AnchorKey(), r.anchor) && NamesDirectory(f, r.StagingKey(), r.staging)
    && r.FinalKey() !in f.entries && r.parent in f.directories && r.parent != r.anchor
    && Ranked(f, rank) && rank(r.staging) < rank(r.parent) && rank(r.anchor) < depth
  }

  lemma PublishableMeans(f: Files, r: Reservation, depth: nat, rank: Node -> nat)
    requires Publishable(f, r, depth, rank)
    ensures NamesDirectory(f, r.AnchorKey(), r.anchor) && NamesDirectory(f, r.StagingKey(), r.staging)
    ensures r.FinalKey() !in f.entries && r.parent in f.directories && rank(r.anchor) < depth
    ensures
      var g := Moved(f, r.StagingKey(), r.FinalKey());
      Names(g, r.AnchorKey(), r.anchor) && Ranked(g, rank) && r.anchor in g.directories
  {
  }

  lemma CoversMeans(s: Scope, r: Reservation)
    requires Covers(s, ReservedScope(r))
    ensures r.AnchorKey() in s.doors && r.anchor in s.roots
  {
  }

  lemma MovePermitted(log: Log, s: Scope, r: Reservation)
    requires Covers(s, ReservedScope(r))
    ensures Permitted(log, s, r.StagingKey(), r.FinalKey())
  {
    assert (r.StagingKey(), r.FinalKey()) in ReservedScope(r).moves;
  }

  /** What an undo does that nobody disturbs: everything goes that stands where it was put; a worktree
      that is not found stops it at once; and what is not the metadata, under its name, stays. */
  ghost predicate UndoneCalmly(f: Files, g: Files, commit: Option<string>, r: Reservation, m: Option<Metadata>,
                               depth: nat, rank: Node -> nat) {
    && (Standing(f, r, m, depth, rank) ==>
          RolledOff(f, g.(ref := f.ref), r, m) && g.ref == RefAfter(f, commit))
    && (Ambiguous(f, r) ==> g == f.(ref := RefAfter(f, commit)))
    && (m.Some? && Replaced(f, r, m.value, depth, rank) ==>
          && RemovedOnly(f, g.(ref := f.ref), WorktreeKey(f, r), r.staging, true, rank)
          && g.ref == RefAfter(f, commit))
  }

  /** The ref goes if it is the commit of this run. */
  function RefAfter(f: Files, commit: Option<string>): Option<string> {
    if commit.Some? && f.ref == commit then None else f.ref
  }

  /** The directories whose identity a preparation records. */
  ghost function Recordings(r: Reservation, m: Option<Metadata>): set<Deed> {
    {Recorded(r.AnchorKey(), r.anchor), Recorded(r.StagingKey(), r.staging)} + MetadataRecord(m)
  }

  ghost function MetadataRecord(m: Option<Metadata>): set<Deed> {
    if m.Some? then {Recorded(m.value.EntryKey(), m.value.directory)} else {}
  }

  /** Between these two moments the entry did not name the directory, or could not be looked at. */
  ghost predicate Missed(a: Log, b: Log, k: Key, n: Node) {
    exists i :: |a| <= i < |b| && b[i].deed.Theirs? && (b[i].deed.tick.fault || !NamesDirectory(b[i].after, k, n))
  }

  function WithDirectory(f: Files, k: Key): Files {
    f.(entries := f.entries[k := f.nextNode], directories := f.directories + {f.nextNode}, nextNode := f.nextNode + 1)
  }

  function AfterSweep(f: Files, k: Key): Files {
    if SweepTarget(f, k, false).Some? then f.(entries := f.entries - {k}) else f
  }

  /** Between these two moments the name was seen to be taken. */
  ghost predicate Taken(a: Log, b: Log, k: Key) {
    exists i :: |a| <= i < |b| && k in b[i].after.entries
  }

  lemma TakenLater(a: Log, b: Log, c: Log, kinds: set<Kind>, k: Key)
    requires Adds(b, c, kinds)
    ensures Taken(a, b, k) ==> Taken(a, c, k)
  {
    if i :| |a| <= i < |b| && k in b[i].after.entries {
      assert c[i] == b[i];
    }
  }

  lemma MadeLater(a: Log, b: Log, c: Log, kinds: set<Kind>, k: Key, n: Node)
    requires Adds(b, c, kinds)
    ensures MadeIn(a, b, k, n) ==> MadeIn(a, c, k, n)
  {
    if i :| |a| <= i < |b| && b[i].deed == Made(k, n) {
      assert c[i] == b[i];
    }
  }

  /** One try of the loop over candidate names. */
  lemma AnchorTried(a: Log, b: Log, c: Log, kinds: set<Kind>, making: Making, k: Key, made: Node)
    requires kinds == {Passing, Making} && Adds(a, b, {Passing}) && Adds(b, c, kinds)
    requires !making.MadeNew? ==> Adds(b, c, {Passing})
    requires making.Exists? ==> Taken(b, c, k)
    requires making.MadeNew? ==> MadeIn(b, c, k, made)
    ensures Adds(a, c, kinds) && (!making.MadeNew? ==> Adds(a, c, {Passing}))
    ensures making.Exists? ==> Taken(a, c, k)
    ensures making.MadeNew? ==> MadeIn(a, c, k, made)
  {
    AddsMore(a, b, c, {Passing}, kinds, kinds);
    if !making.MadeNew? {
      AddsMore(a, b, c, {Passing}, {Passing}, {Passing});
    }
  }

  lemma NewDirectory(f: Files, k: Key)
    ensures Names(WithDirectory(f, k), k, f.nextNode) && k in WithDirectory(f, k).entries
    ensures WithDirectory(f, k).entries[k] == f.nextNode && f.nextNode in WithDirectory(f, k).directories
  {
  }

  lemma NamedIsDirectory(f: Files, k: Key, n: Node)
    requires NamesDirectory(f, k, n)
    ensures n in f.directories && k in f.entries
  {
  }

  lemma NewKeepsNames(f: Files, k: Key, other: Key, n: Node)
    requires NamesDirectory(f, other, n) && k != other
    ensures NamesDirectory(WithDirectory(f, k), other, n)
  {
  }

  /** Every candidate name is taken. */
  ghost predicate AllTaken(f: Files, parent: Node, candidates: seq<Name>) {
    forall j :: 0 <= j < |candidates| ==> Key(parent, candidates[j]) in f.entries
  }

  lemma AllTakenIs(f: Files, parent: Node, candidates: seq<Name>)
    ensures AllTaken(f, parent, candidates) <==> forall j :: 0 <= j < |candidates| ==> Key(parent, candidates[j]) in f.entries
  {
  }

  /** What a failed reservation sweeps: the last name it tried, and before that the staging name
      under the anchor that it had opened under the last name. */
  ghost predicate SweptNames(log: Log, sweeps: seq<nat>, attempts: nat, parent: Node, candidates: seq<Name>)
    requires attempts <= |candidates|
  {
    && |sweeps| <= 2 && (sweeps == [] <==> attempts == 0)
    && (forall j :: 0 <= j < |sweeps| ==> sweeps[j] < |log| && log[sweeps[j]].deed.Swept?)
    && (attempts > 0 ==>
          var k := Key(parent, candidates[attempts - 1]);
          && log[sweeps[|sweeps| - 1]].deed.at == k
          && (|sweeps| == 2 ==>
                var staging := log[sweeps[0]].deed.at;
                staging.name == Public("worktree") && WasSeen(log, k, staging.dir)))
  }

  /** Left alone: a taken public name or a missing parent fails without a trace; 32 taken candidates
      fail and sweep the last one if it is an empty directory, which this run did not make; in every
      other case both directories are made and recorded. */
  ghost predicate QuietReservation(f: Files, g: Files, a: Log, b: Log, r: Option<Reservation>, sweeps: seq<nat>,
                                   parent: Node, finalName: string, candidates: seq<Name>)
    requires |candidates| == 32
  {
    var last := Key(parent, candidates[31]);
    if Key(parent, Public(finalName)) in f.entries then r.None? && g == f && sweeps == []
    else if AllTaken(f, parent, candidates) then
      && r.None? && g == AfterSweep(f, last) && |sweeps| == 1 && sweeps[0] < |b|
      && b[sweeps[0]].deed == Swept(last, SweepTarget(f, last, false))
      && (Foreign(a, b, sweeps[0]) <==> SweepTarget(f, last, false).Some?)
    else if parent !in f.directories then r.None? && g == f && forall i :: i in sweeps ==> i < |b| && !Foreign(a, b, i)
    else
      && r.Some? && MadeIn(a, b, r.value.AnchorKey(), r.value.anchor) && MadeIn(a, b, r.value.StagingKey(), r.value.staging)
      && r.value.AnchorKey() !in f.entries && r.value.anchor == f.nextNode && r.value.staging == f.nextNode + 1
      && g == WithDirectory(WithDirectory(f, r.value.AnchorKey()), r.value.StagingKey())
  }

  lemma CandidatesInScope(s: Scope, parent: Node, candidates: seq<Name>)
    ensures forall c :: c in candidates ==> Key(parent, c) in Plus(s, AttemptScope(parent, candidates, None)).places
  {
  }

  lemma AttemptTwice(s: Scope, parent: Node, candidates: seq<Name>, anchor: Option<Node>)
    requires anchor.Some?
    ensures Plus(Plus(s, AttemptScope(parent, candidates, None)), AttemptScope(parent, candidates, anchor))
            == Plus(s, AttemptScope(parent, candidates, anchor))
    ensures Key(anchor.value, Public("worktree")) in Plus(s, AttemptScope(parent, candidates, anchor)).places
    ensures forall c :: c in candidates ==> Key(parent, c) in Plus(s, AttemptScope(parent, candidates, anchor)).places
  {
  }

  lemma ReservedTogether(s: Scope, r: Reservation)
    ensures Plus(Plus(Plus(s, RecordScope(r.AnchorKey(), r.anchor)), RecordScope(r.StagingKey(), r.staging)),
                 Scope({}, {r.FinalKey()}, {(r.StagingKey(), r.FinalKey())}, {}))
            == Plus(s, ReservedScope(r))
  {
  }

  lemma RecordOwns(log: Log, scope: Scope, e: Event)
    requires RootsOwned(log, scope) && e.deed.Recorded?
    ensures RootsOwned(log + [e], Plus(scope, RecordScope(e.deed.at, e.deed.node)))
  {
    RootsStayOwned(log, log + [e], scope);
    assert Takes((log + [e])[|log|].deed, e.deed.node);
  }

  lemma NothingReserved(f: Files, a: Log, b: Log, parent: Node, finalName: string, candidates: seq<Name>, calm: bool)
    requires Adds(a, b, {Passing}) && |candidates| == 32
    ensures Adds(a, b, {Passing, Making, Recording, Sweeping}) && SweepsAre(a, b, []) && RecordsOnly(a, b, {})
    ensures SweptNames(b, [], 0, parent, candidates)
    ensures Key(parent, Public(finalName)) in f.entries ==> QuietReservation(f, f, a, b, None, [], parent, finalName, candidates)
  {
    SweepsNone(a, b, {Passing});
    RecordsNone(a, b, {Passing});
  }

  lemma AnchorReached(a: Log, b: Log, c: Log, making: Making, made: Node, k: Key, parent: Node, candidates: seq<Name>, attempt: nat)
    requires Adds(a, b, {Passing}) && Adds(b, c, {Passing, Making}) && 1 <= attempt <= 32 == |candidates|
    requires !making.MadeNew? ==> Adds(b, c, {Passing})
    requires making.MadeNew? ==> MadeIn(b, c, k, made)
    requires forall j :: 0 <= j < attempt - 1 ==> Taken(b, c, Key(parent, candidates[j]))
    ensures Adds(a, c, {Passing, Making}) && (!making.MadeNew? ==> Adds(a, c, {Passing}))
    ensures making.MadeNew? ==> MadeIn(a, c, k, made)
    ensures forall j :: 0 <= j < attempt - 1 ==> Taken(a, c, Key(parent, candidates[j]))
  {
    AddsMore(a, b, c, {Passing}, {Passing, Making}, {Passing, Making});
    if !making.MadeNew? {
      AddsMore(a, b, c, {Passing}, {Passing}, {Passing});
    }
  }

  lemma TakenOn(a: Log, b: Log, c: Log, kinds: set<Kind>, parent: Node, candidates: seq<Name>, attempt: nat)
    requires attempt <= |candidates| && Adds(b, c, kinds)
    requires forall j :: 0 <= j < attempt - 1 ==> Taken(a, b, Key(parent, candidates[j]))
    ensures forall j :: 0 <= j < attempt - 1 ==> Taken(a, c, Key(parent, candidates[j]))
  {
    forall j | 0 <= j < attempt - 1
      ensures Taken(a, c, Key(parent, candidates[j]))
    {
      var k := Key(parent, candidates[j]);
      assert Taken(a, b, k);
      var i :| |a| <= i < |b| && k in b[i].after.entries;
      assert c[i] == b[i];
    }
  }

  /** The anchor opened is the one made, if its name is private or nothing interferes. */
  lemma Opened(f: Files, nextToken: nat, now: Files, g: Files, a: Log, b: Log, c: Log, k: Key, made: Node,
               anchor: Option<Node>, calm: bool)
    requires Adds(a, b, {Passing, Making}) && MadeIn(a, b, k, made) && Adds(b, c, {Passing})
    requires PrivateKept(now, g) && Names(now, k, made)
    requires anchor.Some? ==> NamesDirectory(g, k, anchor.value)
    requires calm ==>
               && WellFormed(f, nextToken) && now == g == WithDirectory(f, k) && made == f.nextNode && k.dir in f.directories
               && anchor == if k in g.entries && g.entries[k] in g.directories then Some(g.entries[k]) else None
    ensures Adds(a, c, {Passing, Making}) && MadeIn(a, c, k, made)
    ensures anchor.Some? && k.name.Private? ==> anchor == Some(made)
    ensures calm ==> anchor == Some(made) && NamesDirectory(g, k, made) && Key(made, Public("worktree")) !in g.entries
  {
    AddsMore(a, b, c, {Passing, Making}, {Passing}, {Passing, Making});
    MadeLater(a, b, c, {Passing}, k, made);
    if anchor.Some? && k.name.Private? {
      PrivateNames(now, g, k, made);
    }
  }

  lemma OneSweep(a: Log, b: Log, c: Log, at: nat, k: Key, parent: Node, candidates: seq<Name>, attempt: nat)
    requires Adds(a, b, {Passing, Making}) && Adds(b, c, {Passing, Sweeping}) && SweepsAre(b, c, [at])
    requires at < |c| && c[at].deed.Swept? && c[at].deed.at == k
    requires 1 <= attempt <= |candidates| && k == Key(parent, candidates[attempt - 1])
    ensures Adds(a, c, {Passing, Making, Recording, Sweeping}) && SweepsAre(a, c, [at]) && RecordsOnly(a, c, {})
    ensures SweptNames(c, [at], attempt, parent, candidates)
  {
    SweepsNone(a, b, {Passing, Making});
    SweepsMore(a, b, c, [], [at]);
    AddsMore(a, b, c, {Passing, Making}, {Passing, Sweeping}, {Passing, Making, Sweeping});
    RecordsNone(a, c, {Passing, Making, Sweeping});
    AddsWiden(a, c, {Passing, Making, Sweeping}, {Passing, Making, Recording, Sweeping});
    assert [] + [at] == [at];
  }

  lemma NoneMade(a: Log, b: Log, kinds: set<Kind>, n: Node)
    requires Adds(a, b, kinds) && Making !in kinds
    ensures !MadeByRun(a, b, n)
  {
  }

  lemma OneQuietSweep(f: Files, g: Files, a: Log, b: Log, c: Log, making: Making, at: nat, parent: Node, finalName: string,
                      candidates: seq<Name>, attempt: nat)
    requires Adds(a, b, {Passing}) && Adds(b, c, {Passing, Sweeping}) && 1 <= attempt <= 32 == |candidates|
    requires at < |c| && c[at].deed.Swept? && Key(parent, Public(finalName)) !in f.entries && !making.MadeNew?
    requires
      var k := Key(parent, candidates[attempt - 1]);
      && g == AfterSweep(f, k) && c[at].deed == Swept(k, SweepTarget(f, k, false))
      && (making.Exists? <==> AllTaken(f, parent, candidates)) && (making.Exists? ==> attempt == 32)
      && (!making.Exists? ==> k !in f.entries && parent !in f.directories)
    ensures QuietReservation(f, g, a, c, None, [at], parent, finalName, candidates)
  {
    AddsMore(a, b, c, {Passing}, {Passing, Sweeping}, {Passing, Sweeping});
    if c[at].deed.removed.Some? {
      NoneMade(a, c, {Passing, Sweeping}, c[at].deed.removed.value);
    }
    hide AllTaken, EmptyDirectory, MadeByRun, Adds;
  }

  lemma TwoSweeps(a: Log, b: Log, c: Log, d: Log, e: Log, k: Key, anchor: Node, first: nat, second: nat, attempt: nat,
                  parent: Node, candidates: seq<Name>)
    requires Adds(a, b, {Passing, Making}) && WasSeen(b, k, anchor) && Adds(b, c, {Passing, Making})
    requires Adds(c, d, {Passing, Sweeping}) && SweepsAre(c, d, [first]) && Adds(d, e, {Passing, Sweeping}) && SweepsAre(d, e, [second])
    requires first < |d| && d[first].deed.Swept? && d[first].deed.at == Key(anchor, Public("worktree"))
    requires second < |e| && e[second].deed.Swept? && e[second].deed.at == k
    requires 1 <= attempt <= |candidates| && k == Key(parent, candidates[attempt - 1])
    ensures Adds(a, e, {Passing, Making, Recording, Sweeping}) && SweepsAre(a, e, [first, second]) && RecordsOnly(a, e, {})
    ensures SweptNames(e, [first, second], attempt, parent, candidates) && WasSeen(e, k, anchor)
  {
    var kinds := {Passing, Making, Sweeping};
    AddsMore(a, b, c, {Passing, Making}, {Passing, Making}, {Passing, Making});
    SweepsNone(a, c, {Passing, Making});
    AddsMore(a, c, d, {Passing, Making}, {Passing, Sweeping}, kinds);
    AddsMore(a, d, e, kinds, {Passing, Sweeping}, kinds);
    SweepsMore(a, c, d, [], [first]);
    SweepsMore(a, d, e, [] + [first], [second]);
    assert [] + [first] + [second] == [first, second];
    RecordsNone(a, e, kinds);
    AddsWiden(a, e, kinds, {Passing, Making, Recording, Sweeping});
    assert e[first] == d[first];
    assert b <= e;
    hide Adds, SweepsAre, RecordsOnly;
    WasSeenGrows(b, e, k, anchor);
  }

  lemma SeenStill(a: Log, b: Log, at: Key, n: Node)
    requires Adds(a, b, {Recording}) && WasSeen(a, at, n)
    ensures WasSeen(b, at, n)
  {
    WasSeenGrows(a, b, at, n);
  }

  lemma RecordedBoth(a: Log, b: Log, c: Log, d: Log, e: Log, k: Key, anchor: Node, staging: Node, made: Node, made': Node)
    requires Adds(a, b, {Passing, Making}) && Adds(b, c, {Passing, Making})
    requires MadeIn(a, b, k, made) && MadeIn(b, c, Key(anchor, Public("worktree")), made')
    requires Adds(c, d, {Recording}) && Adds(d, e, {Recording})
    requires RecordsOnly(c, d, {Recorded(k, anchor)})
    requires RecordsOnly(d, e, {Recorded(Key(anchor, Public("worktree")), staging)})
    requires WasSeen(c, k, anchor) && WasSeen(c, Key(anchor, Public("worktree")), staging)
    ensures Adds(a, e, {Passing, Making, Recording, Sweeping}) && SweepsAre(a, e, [])
    ensures RecordsOnly(a, e, {Recorded(k, anchor), Recorded(Key(anchor, Public("worktree")), staging)})
    ensures WasSeen(e, k, anchor) && WasSeen(e, Key(anchor, Public("worktree")), staging)
    ensures MadeIn(a, e, k, made) && MadeIn(a, e, Key(anchor, Public("worktree")), made')
  {
    var kinds := {Passing, Making, Recording};
    var s := Key(anchor, Public("worktree"));
    AddsPrefix(a, b, {Passing, Making});
    AddsPrefix(b, c, {Passing, Making});
    AddsPrefix(c, d, {Recording});
    AddsPrefix(d, e, {Recording});
    AddsMore(a, b, c, {Passing, Making}, {Passing, Making}, {Passing, Making});
    RecordsNone(a, c, {Passing, Making});
    AddsMore(a, c, d, {Passing, Making}, {Recording}, kinds);
    AddsMore(a, d, e, kinds, {Recording}, kinds);
    AddsMore(b, c, d, {Passing, Making}, {Recording}, kinds);
    AddsMore(b, d, e, kinds, {Recording}, kinds);
    SweepsNone(a, e, kinds);
    AddsWiden(a, e, kinds, {Passing, Making, Recording, Sweeping});
    hide *;
    RecordsMore(a, c, d, {}, {Recorded(k, anchor)});
    RecordsMore(a, d, e, {} + {Recorded(k, anchor)}, {Recorded(s, staging)});
    assert {} + {Recorded(k, anchor)} + {Recorded(s, staging)} == {Recorded(k, anchor), Recorded(s, staging)};
    SeenStill(c, d, k, anchor);
    SeenStill(d, e, k, anchor);
    SeenStill(c, d, s, staging);
    SeenStill(d, e, s, staging);
    MadeLater(a, b, e, kinds, k, made);
    AddsMade(a, b, c, s, made', {Passing, Making});
    AddsMore(c, d, e, {Recording}, {Recording}, {Recording});
    MadeLater(a, c, e, {Recording}, s, made');
  }

  lemma AddsMade(a: Log, b: Log, c: Log, k: Key, n: Node, kinds: set<Kind>)
    requires Adds(a, b, kinds) && MadeIn(b, c, k, n)
    ensures MadeIn(a, c, k, n)
  {
  }

  lemma ReservedCalmly(f: Files, g: Files, a: Log, b: Log, r: Reservation, made: Node, made': Node, parent: Node,
                       finalName: string, candidates: seq<Name>)
    requires |candidates| == 32 && Key(parent, Public(finalName)) !in f.entries && !AllTaken(f, parent, candidates)
    requires parent in f.directories && r.anchor == made && r.staging == made'
    requires MadeIn(a, b, r.AnchorKey(), made) && MadeIn(a, b, r.StagingKey(), made')
    requires made == f.nextNode && made' == WithDirectory(f, r.AnchorKey()).nextNode
    requires r.AnchorKey() !in f.entries && g == WithDirectory(WithDirectory(f, r.AnchorKey()), r.StagingKey())
    ensures QuietReservation(f, g, a, b, Some(r), [], parent, finalName, candidates)
  {
  }

  lemma Refused(a: Log, b: Log, commit: string)
    requires Adds(a, b, {Passing})
    ensures a <= b && CreatesOnly(a, b, commit) && DeletesOnly(a, b, {}) && DeletesOnly(a, b, {commit}) && SweepsAre(a, b, [])
    ensures Orderly(a, b)
  {
  }

  /** No ref was touched up to the reservation. */
  lemma ReservedOn(a: Log, b: Log, c: Log, sweeps: seq<nat>, commit: string, kinds: set<Kind>)
    requires Adds(a, b, {Passing}) && Adds(b, c, kinds) && SweepsAre(b, c, sweeps)
    requires kinds == {Passing, Making, Recording, Sweeping}
    ensures a <= c && CreatesOnly(a, c, commit) && DeletesOnly(a, c, {}) && DeletesOnly(a, c, {commit}) && SweepsAre(a, c, sweeps)
    ensures Orderly(a, c)
  {
    hide Orderly;
    SweepsNone(a, b, {Passing});
    SweepsMore(a, b, c, [], sweeps);
    assert [] + sweeps == sweeps;
    AddsMore(a, b, c, {Passing}, kinds, kinds);
    CreatesNone(a, c, kinds, commit);
    DeletesNone(a, c, kinds);
  }

  lemma BoundOn(a: Log, b: Log, c: Log, m: Option<Metadata>)
    requires RecordsOnly(a, b, {}) && (m.None? ==> Adds(b, c, {Passing}))
    requires m.Some? ==> RecordsOnly(b, c, {Recorded(m.value.EntryKey(), m.value.directory)})
    ensures RecordsOnly(a, c, MetadataRecord(m))
  {
    if m.None? {
      RecordsNone(b, c, {Passing});
    }
    hide RecordsOnly;
    RecordsMore(a, b, c, {}, MetadataRecord(m));
    assert {} + MetadataRecord(m) == MetadataRecord(m);
  }

  lemma FilledOnward(a: Log, b: Log, c: Log, kinds: set<Kind>, commit: string, m: Option<Metadata>)
    requires Adds(a, b, {Passing, Creating}) && Adds(b, c, {Passing, Cleaning, Recording})
    requires kinds == {Passing, Cleaning, Recording, Creating}
    requires CreatesOnly(a, b, commit) && CreatesIn(a, b, commit) && Created(b, commit)
    requires RecordsOnly(b, c, MetadataRecord(m))
    ensures Adds(a, c, kinds) && CreatesOnly(a, c, commit) && CreatesIn(a, c, commit) && Created(c, commit)
    ensures RecordsOnly(a, c, MetadataRecord(m))
  {
    AddsMore(a, b, c, {Passing, Creating}, {Passing, Cleaning, Recording}, kinds);
    CreatesNone(b, c, {Passing, Cleaning, Recording}, commit);
    CreatesMore(a, b, c, commit);
    CreatedGrows(b, c, commit);
    CreatesInGrows(a, b, c, commit);
    RecordsNone(a, b, {Passing, Creating});
    RecordsMore(a, b, c, {}, MetadataRecord(m));
    assert {} + MetadataRecord(m) == MetadataRecord(m);
  }

  lemma NoneCreated(a: Log, b: Log, c: Log, d: Log, commit: string)
    requires Adds(a, b, {Passing}) && Adds(b, c, {Passing, Making, Recording, Sweeping}) && c <= d
    ensures CreatesIn(a, d, commit) <==> CreatesIn(c, d, commit)
  {
    assert forall i :: 0 <= i < |b| ==> c[i] == b[i];
    assert forall i :: 0 <= i < |c| ==> d[i] == c[i];
    forall i | |a| <= i < |c|
      ensures KindOf(c[i].deed) != Creating
    {
      if i < |b| {
        assert KindOf(b[i].deed) in {Passing};
      }
    }
  }

  lemma SeenOn(a: Log, b: Log, kinds: set<Kind>, r: Reservation, parent: Node, finalName: string, candidates: seq<Name>,
               attempts: nat, entered: Option<Node>)
    requires Adds(a, b, kinds) && ReservedAs(a, r, parent, finalName, candidates, attempts, entered)
    ensures ReservedAs(b, r, parent, finalName, candidates, attempts, entered)
    ensures entered == Some(r.anchor) && 0 < attempts <= |candidates|
    ensures WasSeen(b, Key(parent, candidates[attempts - 1]), r.anchor)
  {
    AddsPrefix(a, b, kinds);
    hide Adds, WasSeen;
    WasSeenGrows(a, b, r.AnchorKey(), r.anchor);
    WasSeenGrows(a, b, r.StagingKey(), r.staging);
  }

  lemma NothingAdded(log: Log, kinds: set<Kind>)
    ensures Adds(log, log, kinds) && DeletesOnly(log, log, {}) && SweepsAre(log, log, [])
  {
  }

  lemma RolledOffKeepsRef(f: Files, g: Files, r: Reservation, m: Option<Metadata>)
    requires RolledOff(f, g, r, m)
    ensures g.ref == f.ref && RolledOff(f, g.(ref := f.ref), r, m)
    ensures RolledOff(f, g.(ref := None).(ref := f.ref), r, m)
  {
  }

  lemma MissedWider(a: Log, b: Log, c: Log, d: Log, k: Key, n: Node, kinds: set<Kind>)
    requires Adds(a, b, kinds) && Missed(b, c, k, n) && (d == c || Adds(c, d, {Passing}))
    ensures Missed(a, d, k, n)
  {
    var i :| |b| <= i < |c| && c[i].deed.Theirs? && (c[i].deed.tick.fault || !NamesDirectory(c[i].after, k, n));
    assert d[i] == c[i];
  }

  lemma MissedLater(a: Log, b: Log, c: Log, k: Key, n: Node, kinds: set<Kind>)
    requires Adds(a, b, kinds)
    ensures Missed(b, c, k, n) ==> Missed(a, c, k, n)
  {
  }

  lemma StandingMeans(f: Files, r: Reservation, m: Option<Metadata>, depth: nat, rank: Node -> nat)
    requires Standing(f, r, m, depth, rank)
    ensures Ranked(f, rank) && rank(r.staging) < depth && !Ambiguous(f, r)
    ensures m.Some? ==> !Replaced(f, r, m.value, depth, rank)
  {
  }

  lemma WorktreeGone(f: Files, g: Files, r: Reservation, m: Option<Metadata>, depth: nat, rank: Node -> nat)
    requires Standing(f, r, m, depth, rank)
    requires RemovedOnly(f, g, WorktreeKey(f, r), r.staging, true, rank)
    ensures Cleared(f, g, r, m, depth, rank)
    ensures m.Some? ==> m.value.directory in g.directories && Names(g, m.value.EntryKey(), m.value.directory)
    ensures Ranked(g, rank) && rank(r.anchor) < depth && (m.Some? ==> rank(m.value.directory) < depth)
    ensures m.None? ==> Ready(f, g, r, m, rank, depth)
  {
    ShrunkStaysRanked(f, g, rank);
  }

  /** Only the anchor is left to remove. */
  ghost predicate Ready(f: Files, g: Files, r: Reservation, m: Option<Metadata>, rank: Node -> nat, depth: nat) {
    && Shrunk(f, g) && Ranked(g, rank) && !Names(g, r.FinalKey(), r.staging)
    && NamesDirectory(g, r.AnchorKey(), r.anchor) && Names(g, r.AnchorKey(), r.anchor) && r.anchor in g.directories
    && rank(r.anchor) < depth
    && (m.Some? ==> m.value.EntryKey() !in g.entries)
  }

  lemma MetadataGone(f: Files, g: Files, h: Files, r: Reservation, m: Metadata, depth: nat, rank: Node -> nat)
    requires Cleared(f, g, r, Some(m), depth, rank)
    requires RemovedOnly(g, h, m.EntryKey(), m.directory, true, rank)
    ensures Ready(f, h, r, Some(m), rank, depth)
  {
    ShrunkStaysRanked(g, h, rank);
  }

  lemma AnchorGone(f: Files, g: Files, h: Files, r: Reservation, m: Option<Metadata>, depth: nat, rank: Node -> nat)
    requires Ready(f, g, r, m, rank, depth)
    requires RemovedOnly(g, h, r.AnchorKey(), r.anchor, true, rank)
    ensures RolledOff(f, h, r, m)
  {
  }

  lemma UnlinksLast(a: Log, b: Log, c: Log, node: Node, kinds: set<Kind>)
    requires Adds(a, b, kinds) && Adds(b, c, kinds)
    ensures Unlinks(b, c, node) ==> Unlinks(a, c, node)
  {
    if Unlinks(b, c, node) {
      UnlinksWider(a, b, c, c, node);
    }
  }

  lemma CalmMove(before: Files, key: Key, aside: Key, node: Node, rank: Node -> nat, calm: bool)
    requires calm ==> Names(before, key, node) && Ranked(before, rank)
    requires key.dir == aside.dir
    ensures calm ==> key in before.entries && Ranked(Moved(before, key, aside), rank)
                     && Moved(before, key, aside).directories == before.directories
  {
    if calm {
      MovedStaysRanked(before, key, aside, rank);
    }
  }

  lemma RecordIsLegal(log: Log, e: Event)
    requires e.deed.Recorded? && e.after == e.before && WasSeen(log, e.deed.at, e.deed.node)
    ensures Legal(log, e)
  {
  }

  lemma TheirsIsLegal(log: Log, e: Event)
    requires e.deed.Theirs? && e.after == InterfereAll(e.before, e.deed.tick.actions)
    ensures Legal(log, e)
  {
  }
}
