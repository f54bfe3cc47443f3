/** The file system of a snapshot run as a log of transitions: what other processes did, and what
    this run did. Directories and files are nodes; entries are (directory, name) pairs. Other
    processes rename, create and drop public entries and move the branch ref, but do not know the
    private names. */
module SnapshotLog {
  import opened Wrappers

  type Node = nat

  datatype Name = Public(text: string) | Private(token: nat)

  datatype Key = Key(dir: Node, name: Name)

  /** What another process may do between two primitives of this one. */
  datatype Interference =
    | Move(from: Key, to: Key)
    | Make(at: Key, directory: bool)
    | Drop(at: Key)
    | MoveRef(oid: Option<string>)

  /** Before one primitive: the actions of others, and whether the primitive itself fails. */
  datatype Tick = Tick(actions: seq<Interference>, fault: bool)

  const QUIET := Tick([], false)

  datatype Files = Files(entries: map<Key, Node>, directories: set<Node>, ref: Option<string>, nextNode: Node)

  /** Others act on public names only; an action that does not apply changes nothing. */
  function Interfere(f: Files, action: Interference): Files {
    match action
    case Move(from, to) =>
      if from.name.Public? && to.name.Public? && from in f.entries && to.dir in f.directories
      then f.(entries := (f.entries - {from})[to := f.entries[from]])
      else f
    case Make(at, directory) =>
      if at.name.Public? && at !in f.entries && at.dir in f.directories
      then f.(entries := f.entries[at := f.nextNode],
              directories := if directory then f.directories + {f.nextNode} else f.directories,
              nextNode := f.nextNode + 1)
      else f
    case Drop(at) => if at.name.Public? then f.(entries := f.entries - {at}) else f
    case MoveRef(oid) => f.(ref := oid)
  }

  function InterfereAll(f: Files, actions: seq<Interference>): Files
    decreases |actions|
  {
    if actions == [] then f else InterfereAll(Interfere(f, actions[0]), actions[1..])
  }

  predicate Names(f: Files, k: Key, n: Node) {
    k in f.entries && f.entries[k] == n
  }

  predicate NamesDirectory(f: Files, k: Key, n: Node) {
    Names(f, k, n) && n in f.directories
  }

  predicate Empty(f: Files, n: Node) {
    forall k :: k in f.entries ==> k.dir != n
  }

  predicate EmptyDirectory(f: Files, k: Key, n: Node) {
    NamesDirectory(f, k, n) && Empty(f, n)
  }

  /** Entries stand in directories, private names in use were handed out, nodes in use were made. */
  ghost predicate WellFormed(f: Files, nextToken: nat) {
    && (forall k :: k in f.entries ==>
          k.dir in f.directories && f.entries[k] < f.nextNode && (k.name.Private? ==> k.name.token < nextToken))
    && (forall n :: n in f.directories ==> n < f.nextNode)
  }

  /** Entries under private names are the same, and no directory became anything else. */
  ghost predicate PrivateKept(a: Files, b: Files) {
    && (forall k: Key :: k.name.Private? ==>
          (k in a.entries <==> k in b.entries) && (k in a.entries ==> a.entries[k] == b.entries[k]))
    && a.directories <= b.directories && a.nextNode <= b.nextNode
  }

  lemma {:induction false} OthersKeepPrivate(f: Files, actions: seq<Interference>, nextToken: nat)
    ensures PrivateKept(f, InterfereAll(f, actions))
    ensures WellFormed(f, nextToken) ==> WellFormed(InterfereAll(f, actions), nextToken)
    decreases |actions|
  {
    if actions != [] {
      OthersKeepPrivate(Interfere(f, actions[0]), actions[1..], nextToken);
    }
  }

  // ---------- the log ----------

  /** What changed, or was seen, in one transition. Theirs is what the schedule lets others do;
      everything else is this run's own. */
  datatype Deed =
    | Theirs(tick: Tick)
    | Renamed(from: Key, to: Key)
    | Rejected(from: Key, to: Key, node: Node)
    | Saw(at: Key, node: Node)
    | Recorded(at: Key, node: Node)
    | Made(at: Key, node: Node)
    | Unlinked(at: Key, node: Node)
    | Swept(at: Key, removed: Option<Node>)
    | RefCreated(oid: string)
    | RefDeleted(oid: string)

  datatype Event = Event(before: Files, deed: Deed, after: Files)

  type Log = seq<Event>

  function End(start: Files, log: Log): Files {
    if log == [] then start else log[|log| - 1].after
  }

  /** The primitive that comes next was not struck by a fault. */
  predicate Acts(log: Log) {
    log != [] && log[|log| - 1].deed.Theirs? && !log[|log| - 1].deed.tick.fault
  }

  /** The identity of this node was recorded at reservation or binding, or it was seen inside a
      directory this run owns. */
  ghost predicate Owned(log: Log, n: Node) {
    exists i :: 0 <= i < |log| && Takes(log[i].deed, n)
  }

  predicate Takes(deed: Deed, n: Node) {
    (deed.Saw? || deed.Recorded?) && deed.node == n
  }

  ghost predicate WasSeen(log: Log, at: Key, n: Node) {
    exists i :: 0 <= i < |log| && NamesDirectory(log[i].after, at, n)
  }

  ghost predicate WasMoved(log: Log, from: Key, to: Key) {
    exists i :: 0 <= i < |log| && log[i].deed == Renamed(from, to)
  }

  ghost predicate Created(log: Log, oid: string) {
    exists i :: 0 <= i < |log| && log[i].deed == RefCreated(oid)
  }

  /** What a sweep of a name removes: whatever empty directory stands there. */
  function SweepTarget(f: Files, at: Key, fault: bool): Option<Node> {
    if !fault && at in f.entries && EmptyDirectory(f, at, f.entries[at]) then Some(f.entries[at]) else None
  }

  /** What each kind of transition is allowed to be, after this log. */
  ghost predicate Legal(log: Log, e: Event) {
    match e.deed
    case Theirs(tick) => e.after == InterfereAll(e.before, tick.actions)
    case Renamed(from, to) =>
      && Acts(log) && from in e.before.entries && to !in e.before.entries && to.dir in e.before.directories
      && e.after == e.before.(entries := (e.before.entries - {from})[to := e.before.entries[from]])
    case Rejected(from, to, node) => e.after == e.before && Names(e.before, to, node) && WasMoved(log, from, to)
    case Saw(at, node) => e.after == e.before && Names(e.before, at, node) && Owned(log, at.dir)
    case Recorded(at, node) => e.after == e.before && WasSeen(log, at, node)
    case Made(at, node) =>
      && Acts(log) && at !in e.before.entries && at.dir in e.before.directories && node == e.before.nextNode
      && e.after == e.before.(entries := e.before.entries[at := node],
                              directories := e.before.directories + {node}, nextNode := node + 1)
    case Unlinked(at, node) =>
      && Acts(log) && at.name.Private? && Names(e.before, at, node) && Owned(log, node)
      && (node in e.before.directories ==> Empty(e.before, node))
      && e.after == e.before.(entries := e.before.entries - {at})
    case Swept(at, removed) =>
      && log != [] && log[|log| - 1].deed.Theirs?
      && removed == SweepTarget(e.before, at, log[|log| - 1].deed.tick.fault)
      && e.after == if removed.Some? then e.before.(entries := e.before.entries - {at}) else e.before
    case RefCreated(oid) => Acts(log) && e.before.ref.None? && e.after == e.before.(ref := Some(oid))
    case RefDeleted(oid) =>
      Acts(log) && e.before.ref == Some(oid) && Created(log, oid) && e.after == e.before.(ref := None)
  }

  /** A chain of legal transitions from the start. */
  ghost predicate Genuine(start: Files, log: Log)
    decreases |log|
  {
    log == [] ||
    (var last := |log| - 1;
     && Genuine(start, log[..last])
     && log[last].before == End(start, log[..last])
     && Legal(log[..last], log[last]))
  }

  function Ticks(log: Log): seq<Tick>
    decreases |log|
  {
    if log == [] then []
    else
      var last := |log| - 1;
      Ticks(log[..last]) + (if log[last].deed.Theirs? then [log[last].deed.tick] else [])
  }

  function TickAt(script: seq<Tick>, i: nat): Tick {
    if i < |script| then script[i] else QUIET
  }

  /** Others did exactly what the script says, in order, and the rest is still to come. */
  ghost predicate Paced(script: seq<Tick>, ticks: seq<Tick>, schedule: seq<Tick>) {
    && (forall i :: 0 <= i < |ticks| ==> ticks[i] == TickAt(script, i))
    && schedule == Rest(script, ticks)
  }

  /** What is still to come of the script. */
  function Rest(script: seq<Tick>, ticks: seq<Tick>): seq<Tick> {
    if |ticks| <= |script| then script[|ticks|..] else []
  }

  lemma PacedNext(script: seq<Tick>, ticks: seq<Tick>, schedule: seq<Tick>)
    requires Paced(script, ticks, schedule)
    ensures schedule == [] ==> Paced(script, ticks + [QUIET], [])
    ensures schedule != [] ==> Paced(script, ticks + [schedule[0]], schedule[1..])
  {
  }

  lemma LogGrows(start: Files, log: Log, e: Event)
    requires Genuine(start, log) && e.before == End(start, log) && Legal(log, e)
    ensures Genuine(start, log + [e]) && End(start, log + [e]) == e.after
    ensures Ticks(log + [e]) == Ticks(log) + (if e.deed.Theirs? then [e.deed.tick] else [])
  {
    hide Legal;
    assert (log + [e])[..|log|] == log;
  }

  /** Every entry of a genuine log is legal after the entries before it. */
  lemma {:induction false} EntryIsLegal(start: Files, log: Log, i: nat)
    requires Genuine(start, log) && i < |log|
    ensures Genuine(start, log[..i]) && Legal(log[..i], log[i]) && log[i].before == End(start, log[..i])
    decreases |log|
  {
    hide Legal;
    var last := |log| - 1;
    if i < last {
      assert log[..last][..i] == log[..i];
      EntryIsLegal(start, log[..last], i);
    }
  }

  // ---------- what every log satisfies ----------

  /** A rename onto a free name loses no node; an unlink loses at most its own. */
  lemma MoveKeepsNodes(m: map<Key, Node>, from: Key, to: Key)
    requires from in m && to !in m
    ensures m.Values <= (m - {from})[to := m[from]].Values
  {
    var after := (m - {from})[to := m[from]];
    forall n | n in m.Values
      ensures n in after.Values
    {
      var k :| k in m && m[k] == n;
      assert after[if k == from then to else k] == n;
    }
  }

  lemma UnlinkKeepsOthers(m: map<Key, Node>, k: Key)
    requires k in m
    ensures m.Values <= (m - {k}).Values + {m[k]}
  {
    var after := m - {k};
    forall n | n in m.Values
      ensures n in after.Values + {m[k]}
    {
      var other :| other in m && m[other] == n;
      assert other != k ==> after[other] == n;
    }
  }

  lemma AddKeepsNodes(m: map<Key, Node>, k: Key, node: Node)
    requires k !in m
    ensures m.Values <= m[k := node].Values
  {
    forall n | n in m.Values
      ensures n in m[k := node].Values
    {
      var other :| other in m && m[other] == n;
      assert m[k := node][other] == n;
    }
  }

  /** The nodes that one transition takes responsibility for unlinking. */
  function Gone(e: Event): set<Node> {
    match e.deed
    case Theirs(_) => e.before.entries.Values - e.after.entries.Values
    case Unlinked(_, node) => {node}
    case Swept(_, Some(node)) => {node}
    case _ => {}
  }

  function AllGone(log: Log): set<Node>
    decreases |log|
  {
    if log == [] then {} else AllGone(log[..|log| - 1]) + Gone(log[|log| - 1])
  }

  lemma OneKeepsNodes(log: Log, e: Event)
    requires Legal(log, e)
    ensures e.before.entries.Values <= e.after.entries.Values + Gone(e)
  {
    match e.deed
    case Renamed(from, to) => MoveKeepsNodes(e.before.entries, from, to);
    case Made(at, node) => AddKeepsNodes(e.before.entries, at, node);
    case Unlinked(at, node) => UnlinkKeepsOthers(e.before.entries, at);
    case Swept(at, removed) =>
      if removed.Some? {
        UnlinkKeepsOthers(e.before.entries, at);
      }
    case _ =>
  }

  /** Every node linked at the start still is, unless this run unlinked it, a sweep did, or others
      did. */
  lemma {:induction false} NothingElseIsLost(start: Files, log: Log)
    requires Genuine(start, log)
    ensures start.entries.Values <= End(start, log).entries.Values + AllGone(log)
    decreases |log|
  {
    hide Legal, Gone;
    if log != [] {
      var last := |log| - 1;
      NothingElseIsLost(start, log[..last]);
      OneKeepsNodes(log[..last], log[last]);
    }
  }

  /** A way from a recorded directory down to a node: each step was seen inside the one before. */
  ghost predicate Descends(log: Log, path: seq<Node>) {
    && path != []
    && (exists i :: 0 <= i < |log| && log[i].deed.Recorded? && log[i].deed.node == path[0])
    && forall k :: 0 < k < |path| ==> SeenInside(log, path[k - 1], path[k])
  }

  ghost predicate SeenInside(log: Log, d: Node, n: Node) {
    exists i :: 0 <= i < |log| && log[i].deed.Saw? && log[i].deed.at.dir == d && log[i].deed.node == n
  }

  lemma DescendsMonotone(log: Log, longer: Log, path: seq<Node>)
    requires log <= longer && Descends(log, path)
    ensures Descends(longer, path)
  {
    var i :| 0 <= i < |log| && log[i].deed.Recorded? && log[i].deed.node == path[0];
    assert longer[i] == log[i];
    forall k | 0 < k < |path|
      ensures SeenInside(longer, path[k - 1], path[k])
    {
      assert SeenInside(log, path[k - 1], path[k]);
      var j :| 0 <= j < |log| && log[j].deed.Saw? && log[j].deed.at.dir == path[k - 1] && log[j].deed.node == path[k];
      assert longer[j] == log[j];
    }
  }

  lemma {:induction false} OwnedDescends(start: Files, log: Log, n: Node) returns (path: seq<Node>)
    requires Genuine(start, log) && Owned(log, n)
    ensures Descends(log, path) && path[|path| - 1] == n
    decreases |log|
  {
    hide Descends;
    var i :| 0 <= i < |log| && Takes(log[i].deed, n);
    EntryIsLegal(start, log, i);
    if log[i].deed.Recorded? {
      path := [n];
      RecordedDescends(log, i, n);
    } else {
      path := OwnedDescends(start, log[..i], log[i].deed.at.dir);
      DescendsMonotone(log[..i], log, path);
      DescendsOn(log, path, i, n);
      path := path + [n];
    }
  }

  lemma RecordedDescends(log: Log, i: nat, n: Node)
    requires i < |log| && log[i].deed.Recorded? && log[i].deed.node == n
    ensures Descends(log, [n])
  {
  }

  lemma DescendsOn(log: Log, path: seq<Node>, i: nat, n: Node)
    requires Descends(log, path) && i < |log| && log[i].deed.Saw? && log[i].deed.node == n
    requires log[i].deed.at.dir == path[|path| - 1]
    ensures Descends(log, path + [n])
  {
    var longer := path + [n];
    forall k | 0 < k < |longer|
      ensures SeenInside(log, longer[k - 1], longer[k])
    {
      if k < |path| {
        assert SeenInside(log, path[k - 1], path[k]);
      } else {
        assert log[i].deed.at.dir == longer[k - 1] && log[i].deed.node == longer[k];
      }
    }
  }

  /** Everything this run unlinks is a recorded directory or lies under one, by a way the run had
      seen before, and it was empty if it was a directory. */
  lemma UnlinkedLiesUnderRecorded(start: Files, log: Log, i: nat) returns (path: seq<Node>)
    requires Genuine(start, log) && i < |log| && log[i].deed.Unlinked?
    ensures Descends(log[..i], path) && path[|path| - 1] == log[i].deed.node
    ensures Names(log[i].before, log[i].deed.at, log[i].deed.node) && log[i].deed.at.name.Private?
    ensures log[i].deed.node in log[i].before.directories ==> Empty(log[i].before, log[i].deed.node)
  {
    EntryIsLegal(start, log, i);
    hide Genuine, Descends, Owned;
    path := OwnedDescends(start, log[..i], log[i].deed.node);
  }

  /** This run moves the ref in two ways only: from nothing to a commit of its own, and from exactly
      that commit to nothing. */
  lemma OwnRefChanges(start: Files, log: Log, i: nat)
    requires Genuine(start, log) && i < |log| && !log[i].deed.Theirs?
    requires log[i].after.ref != log[i].before.ref
    ensures || (log[i].before.ref.None? && log[i].deed.RefCreated? && log[i].after.ref == Some(log[i].deed.oid))
            || (log[i].deed.RefDeleted? && log[i].before.ref == Some(log[i].deed.oid) && log[i].after.ref.None?
                && Created(log[..i], log[i].deed.oid))
  {
    EntryIsLegal(start, log, i);
  }

  // ---------- what a run may reach ----------

  /** The directories whose identity a run has recorded; the names they were recorded under or are
      to be published under; the moves it may make between two of those names; and the names under
      which it may make a directory, or sweep an empty one. */
  datatype Scope = Scope(roots: set<Node>, doors: set<Key>, moves: set<(Key, Key)>, places: set<Key>)

  function Nothing(): Scope {
    Scope({}, {}, {}, {})
  }

  function Plus(s: Scope, t: Scope): Scope {
    Scope(s.roots + t.roots, s.doors + t.doors, s.moves + t.moves, s.places + t.places)
  }

  ghost predicate Covers(s: Scope, t: Scope) {
    t.roots <= s.roots && t.doors <= s.doors && t.moves <= s.moves && t.places <= s.places
  }

  /** A way down from one of these directories: each step was seen inside the one before. */
  ghost predicate Way(log: Log, roots: set<Node>, path: seq<Node>) {
    && path != [] && path[0] in roots
    && forall k :: 0 < k < |path| ==> SeenInside(log, path[k - 1], path[k])
  }

  ghost predicate Under(log: Log, roots: set<Node>, n: Node) {
    exists path :: Way(log, roots, path) && path[|path| - 1] == n
  }

  /** The entry of this name may be moved aside: it is one of the names, or it stands in or under one
      of the directories. */
  ghost predicate Ours(log: Log, scope: Scope, k: Key) {
    k in scope.doors || Under(log, scope.roots, k.dir)
  }

  /** Aside to a private name in the same directory, back from there, or a move that was announced. */
  ghost predicate Permitted(log: Log, scope: Scope, from: Key, to: Key) {
    || (from.dir == to.dir && to.name.Private? && Ours(log, scope, from))
    || (from.dir == to.dir && WasMoved(log, to, from) && Ours(log, scope, to))
    || (from, to) in scope.moves
  }

  ghost predicate Allowed(log: Log, scope: Scope, deed: Deed) {
    match deed
    case Renamed(from, to) => Permitted(log, scope, from, to)
    case Saw(at, _) => Under(log, scope.roots, at.dir)
    case Unlinked(_, node) => Under(log, scope.roots, node)
    case Recorded(at, node) => at in scope.doors && node in scope.roots
    case Made(at, _) => at in scope.places
    case Swept(at, _) => at in scope.places
    case _ => true
  }

  /** From this place of the log on, the run stayed within the scope. */
  ghost predicate Tame(log: Log, base: nat, scope: Scope) {
    base <= |log| && forall i :: base <= i < |log| ==> Allowed(log[..i], scope, log[i].deed)
  }

  lemma UnderGrows(a: Log, b: Log, roots: set<Node>, n: Node)
    requires a <= b && Under(a, roots, n)
    ensures Under(b, roots, n)
  {
    var path :| Way(a, roots, path) && path[|path| - 1] == n;
    forall k | 0 < k < |path|
      ensures SeenInside(b, path[k - 1], path[k])
    {
      assert SeenInside(a, path[k - 1], path[k]);
      var j :| 0 <= j < |a| && a[j].deed.Saw? && a[j].deed.at.dir == path[k - 1] && a[j].deed.node == path[k];
      assert b[j] == a[j];
    }
    assert Way(b, roots, path);
  }

  lemma UnderRoot(log: Log, roots: set<Node>, n: Node)
    requires n in roots
    ensures Under(log, roots, n)
  {
    assert Way(log, roots, [n]);
  }

  lemma UnderWider(log: Log, few: set<Node>, more: set<Node>, n: Node)
    requires few <= more && Under(log, few, n)
    ensures Under(log, more, n)
  {
    hide SeenInside;
    var path :| Way(log, few, path) && path[|path| - 1] == n;
    assert Way(log, more, path);
  }

  /** What was seen inside such a directory lies under it. */
  lemma UnderSeen(log: Log, roots: set<Node>, e: Event)
    requires e.deed.Saw? && Under(log, roots, e.deed.at.dir)
    ensures Under(log + [e], roots, e.deed.node)
  {
    UnderGrows(log, log + [e], roots, e.deed.at.dir);
    var path :| Way(log + [e], roots, path) && path[|path| - 1] == e.deed.at.dir;
    assert (log + [e])[|log|] == e;
    assert SeenInside(log + [e], e.deed.at.dir, e.deed.node);
    hide SeenInside;
    assert Way(log + [e], roots, path + [e.deed.node]);
  }

  lemma UnderOwned(log: Log, roots: set<Node>, n: Node)
    requires Under(log, roots, n) && forall r :: r in roots ==> Owned(log, r)
    ensures Owned(log, n)
  {
    var path :| Way(log, roots, path) && path[|path| - 1] == n;
    if |path| > 1 {
      assert SeenInside(log, path[|path| - 2], n);
    }
  }

  lemma PermittedLater(a: Log, b: Log, scope: Scope, from: Key, to: Key)
    requires a <= b && Permitted(a, scope, from, to)
    ensures Permitted(b, scope, from, to)
  {
    hide Under;
    OursLater(a, b, scope, from);
    OursLater(a, b, scope, to);
    MovedStill(a, b, to, from);
  }

  lemma OursLater(a: Log, b: Log, scope: Scope, k: Key)
    requires a <= b
    ensures Ours(a, scope, k) ==> Ours(b, scope, k)
  {
    if Under(a, scope.roots, k.dir) {
      UnderGrows(a, b, scope.roots, k.dir);
    }
  }

  lemma MovedStill(a: Log, b: Log, from: Key, to: Key)
    requires a <= b
    ensures WasMoved(a, from, to) ==> WasMoved(b, from, to)
  {
    if WasMoved(a, from, to) {
      var i :| 0 <= i < |a| && a[i].deed == Renamed(from, to);
      assert b[i] == a[i];
    }
  }

  lemma TameGrows(log: Log, base: nat, scope: Scope, e: Event)
    requires Tame(log, base, scope) && Allowed(log, scope, e.deed)
    ensures Tame(log + [e], base, scope)
  {
    hide Allowed;
    var longer := log + [e];
    forall i | base <= i < |longer|
      ensures Allowed(longer[..i], scope, longer[i].deed)
    {
      assert longer[..i] == log[..i];
      assert i == |log| ==> log[..i] == log;
    }
  }

  lemma TameWider(log: Log, base: nat, few: Scope, more: Scope)
    requires Tame(log, base, few) && Covers(more, few)
    ensures Tame(log, base, more)
  {
    hide Under, WasMoved;
    forall i | base <= i < |log|
      ensures Allowed(log[..i], more, log[i].deed)
    {
      AllowedWider(log[..i], few, more, log[i].deed);
    }
  }

  lemma AllowedWider(log: Log, few: Scope, more: Scope, deed: Deed)
    requires Allowed(log, few, deed) && Covers(more, few)
    ensures Allowed(log, more, deed)
  {
    hide Under, WasMoved;
    forall n | Under(log, few.roots, n)
      ensures Under(log, more.roots, n)
    {
      UnderWider(log, few.roots, more.roots, n);
    }
  }

  /** A run that stayed within its scope unlinked only the directories of the scope and what it had
      seen, step by step, under them. */
  lemma UnlinkedLiesUnderRoots(log: Log, base: nat, scope: Scope, i: nat) returns (path: seq<Node>)
    requires Tame(log, base, scope) && base <= i < |log| && log[i].deed.Unlinked?
    ensures Way(log[..i], scope.roots, path) && path[|path| - 1] == log[i].deed.node
  {
    hide SeenInside;
    assert Allowed(log[..i], scope, log[i].deed);
    path :| Way(log[..i], scope.roots, path) && path[|path| - 1] == log[i].deed.node;
  }

  // ---------- what a stretch of the log holds ----------

  datatype Kind = Passing | Cleaning | Recording | Making | Sweeping | Creating | Deleting

  function KindOf(deed: Deed): Kind {
    match deed
    case Theirs(_) => Passing
    case Renamed(_, _) => Cleaning
    case Rejected(_, _, _) => Cleaning
    case Saw(_, _) => Cleaning
    case Unlinked(_, _) => Cleaning
    case Recorded(_, _) => Recording
    case Made(_, _) => Making
    case Swept(_, _) => Sweeping
    case RefCreated(_) => Creating
    case RefDeleted(_) => Deleting
  }

  /** The move undoes the one that was rejected just before. */
  predicate GivesBack(log: Log, i: nat)
    requires i < |log|
  {
    && i >= 2 && log[i].deed.Renamed? && log[i - 2].deed.Rejected?
    && log[i - 2].deed.from == log[i].deed.to && log[i - 2].deed.to == log[i].deed.from
  }

  /** The next transitions try to give a rejected entry back: others act, and unless a fault strikes or
      the name is taken by then, it returns to its name. */
  predicate Tried(log: Log, i: nat)
    requires i < |log| && log[i].deed.Rejected?
  {
    var from, to := log[i].deed.from, log[i].deed.to;
    && i + 1 < |log| && log[i + 1].deed.Theirs?
    && (log[i + 1].deed.tick.fault || from in log[i + 1].after.entries
        || (i + 2 < |log| && log[i + 2].deed == Renamed(to, from)))
  }

  /** What was moved at place i of the log was rejected later, with only others acting in between. */
  ghost predicate RejectedNext(log: Log, i: nat)
    requires i < |log| && log[i].deed.Renamed?
  {
    exists j :: i < j < |log| && RejectedAt(log, i, j) && forall k :: i < k < j ==> log[k].deed.Theirs?
  }

  predicate RejectedAt(log: Log, i: nat, j: nat)
    requires i < j < |log| && log[i].deed.Renamed?
  {
    && log[j].deed.Rejected? && log[j].deed.from == log[i].deed.from && log[j].deed.to == log[i].deed.to
    && Names(log[i].before, log[i].deed.from, log[j].deed.node)
  }

  ghost predicate OwnedMoved(log: Log, i: nat)
    requires i < |log| && log[i].deed.Renamed?
  {
    log[i].deed.from in log[i].before.entries && Owned(log[..i], log[i].before.entries[log[i].deed.from])
  }

  /** An entry moved aside is one of ours, or it is rejected next; a rejected one is given back, if that
      is possible. */
  ghost predicate Followed(log: Log, i: nat)
    requires i < |log|
  {
    match log[i].deed
    case Renamed(from, to) => to.name.Private? && !GivesBack(log, i) ==> OwnedMoved(log, i) || RejectedNext(log, i)
    case Rejected(from, to, node) => Tried(log, i)
    case _ => true
  }

  /** Nothing foreign was moved aside between these two moments without the attempt to give it back. */
  ghost predicate Orderly(a: Log, b: Log) {
    a <= b && forall i :: |a| <= i < |b| ==> Followed(b, i)
  }

  lemma FollowedLater(a: Log, b: Log, i: nat)
    requires a <= b && i < |a| && Followed(a, i)
    ensures Followed(b, i)
  {
    assert a[..i] == b[..i];
    hide Owned, Names;
    if a[i].deed.Renamed? && RejectedNext(a, i) {
      var j :| i < j < |a| && RejectedAt(a, i, j) && forall k :: i < k < j ==> a[k].deed.Theirs?;
      assert RejectedAt(b, i, j);
    }
  }

  lemma OrderlyMore(a: Log, b: Log, c: Log)
    requires Orderly(a, b) && Orderly(b, c)
    ensures Orderly(a, c)
  {
    hide Followed;
    forall i | |a| <= i < |c|
      ensures Followed(c, i)
    {
      if i < |b| {
        FollowedLater(b, c, i);
      }
    }
  }

  /** The longer log continues the shorter one with transitions of these kinds only, and in order. */
  ghost predicate Adds(a: Log, b: Log, kinds: set<Kind>) {
    a <= b && (forall i :: |a| <= i < |b| ==> KindOf(b[i].deed) in kinds) && Orderly(a, b)
  }

  lemma AddsMore(a: Log, b: Log, c: Log, first: set<Kind>, second: set<Kind>, kinds: set<Kind>)
    requires Adds(a, b, first) && Adds(b, c, second) && first <= kinds && second <= kinds
    ensures Adds(a, c, kinds)
  {
    assert forall i :: 0 <= i < |b| ==> c[i] == b[i];
    hide Orderly;
    OrderlyMore(a, b, c);
  }

  lemma AddsWiden(a: Log, b: Log, few: set<Kind>, more: set<Kind>)
    requires Adds(a, b, few) && few <= more
    ensures Adds(a, b, more)
  {
    hide Orderly;
  }

  /** A stretch that ends with one move that is not aside. */
  lemma MoveAdds(a: Log, b: Log, kinds: set<Kind>)
    requires a <= b && |b| == |a| + 2 && b[|a|].deed.Theirs? && b[|a| + 1].deed.Renamed?
    requires b[|a| + 1].deed.to.name.Public? && {Passing, Cleaning} <= kinds
    ensures Adds(a, b, kinds)
  {
  }

  /** Moving an entry of ours aside, and looking at it. */
  lemma OwnMoveAdds(a: Log, b: Log, c: Log, n: Node, kinds: set<Kind>)
    requires a <= b && |b| == |a| + 2 && b[|a|].deed.Theirs? && b[|a| + 1].deed.Renamed?
    requires Names(b[|a| + 1].before, b[|a| + 1].deed.from, n) && Owned(a, n)
    requires Adds(b, c, {Passing}) && {Passing, Cleaning} <= kinds
    ensures Adds(a, c, kinds)
  {
    assert b[..|a| + 1][..|a|] == a;
    OwnedGrows(a, b[..|a| + 1], n);
    hide Owned;
    assert Followed(b, |a| + 1);
    assert Adds(a, b, kinds);
    AddsMore(a, b, c, kinds, {Passing}, kinds);
  }

  /** Moving an entry aside, looking at it, rejecting it and trying to give it back. */
  lemma RejectedMoveAdds(a: Log, b: Log, c: Log, d: Log, n: Node, kinds: set<Kind>)
    requires a <= b && |b| == |a| + 2 && b[|a|].deed.Theirs? && b[|a| + 1].deed.Renamed?
    requires Names(b[|a| + 1].before, b[|a| + 1].deed.from, n)
    requires Adds(b, c, {Passing}) && Adds(c, d, kinds) && |c| < |d| && {Passing, Cleaning} <= kinds
    requires d[|c|].deed == Rejected(b[|a| + 1].deed.from, b[|a| + 1].deed.to, n)
    ensures Adds(a, d, kinds)
  {
    AddsMore(b, c, d, {Passing}, kinds, kinds);
    assert RejectedAt(d, |a| + 1, |c|);
    assert forall k :: |b| <= k < |c| ==> d[k] == c[k] && KindOf(c[k].deed) in {Passing};
    assert forall k :: |a| + 1 < k < |c| ==> d[k].deed.Theirs?;
    hide Orderly, Names;
    forall i | |a| <= i < |d|
      ensures Followed(d, i) && KindOf(d[i].deed) in kinds
    {
      if i >= |b| {
        OrderlyAt(b, d, i);
      }
    }
    OrderlyIs(a, d);
  }

  lemma OrderlyAt(a: Log, b: Log, i: nat)
    requires Orderly(a, b) && |a| <= i < |b|
    ensures Followed(b, i)
  {
    hide Followed;
  }

  lemma OrderlyIs(a: Log, b: Log)
    requires a <= b && forall i :: |a| <= i < |b| ==> Followed(b, i)
    ensures Orderly(a, b)
  {
    hide Followed;
  }

  /** A rejection, and the attempt to give the entry back. */
  lemma RejectionAdds(a: Log, b: Log, kinds: set<Kind>)
    requires a <= b && |a| + 2 <= |b| <= |a| + 3 && {Passing, Cleaning} <= kinds
    requires b[|a|].deed.Rejected? && b[|a| + 1].deed.Theirs?
    requires if |b| == |a| + 3 then b[|a| + 2].deed == Renamed(b[|a|].deed.to, b[|a|].deed.from)
             else b[|a| + 1].deed.tick.fault || b[|a|].deed.from in b[|a| + 1].after.entries
    ensures Adds(a, b, kinds)
  {
    assert |b| == |a| + 3 ==> GivesBack(b, |a| + 2);
    assert Tried(b, |a|);
  }

  /** What was moved aside and was not ours is back under its name, unless the attempt was struck by a
      fault or found the name taken. */
  lemma GivenBackOrRefused(start: Files, a: Log, b: Log, i: nat) returns (j: nat)
    requires Genuine(start, b) && Orderly(a, b) && |a| <= i < |b|
    requires b[i].deed.Renamed? && b[i].deed.to.name.Private? && !GivesBack(b, i) && !OwnedMoved(b, i)
    ensures
      var from, to := b[i].deed.from, b[i].deed.to;
      && i < j && j + 1 < |b| && b[j].deed.Rejected? && b[j].deed.from == from && b[j].deed.to == to
      && Names(b[i].before, from, b[j].deed.node) && b[j + 1].deed.Theirs?
      && (|| b[j + 1].deed.tick.fault
          || from in b[j + 1].after.entries
          || (j + 2 < |b| && Names(b[j + 2].after, from, b[j].deed.node) && to !in b[j + 2].after.entries))
  {
    assert Followed(b, i);
    j :| i < j < |b| && RejectedAt(b, i, j) && forall k :: i < k < j ==> b[k].deed.Theirs?;
    assert Followed(b, j);
    if !b[j + 1].deed.tick.fault && b[j].deed.from !in b[j + 1].after.entries {
      ReturnedNode(start, b, j);
    }
  }

  /** The private name still held the rejected entry when it was given back. */
  lemma ReturnedNode(start: Files, b: Log, j: nat)
    requires Genuine(start, b) && j + 2 < |b| && b[j].deed.Rejected? && b[j].deed.to.name.Private?
    requires b[j + 1].deed.Theirs? && b[j + 2].deed == Renamed(b[j].deed.to, b[j].deed.from)
    ensures Names(b[j + 2].after, b[j].deed.from, b[j].deed.node) && b[j].deed.to !in b[j + 2].after.entries
  {
    EntryIsLegal(start, b, j);
    EntryIsLegal(start, b, j + 1);
    EntryIsLegal(start, b, j + 2);
    OthersKeepPrivate(b[j + 1].before, b[j + 1].deed.tick.actions, 0);
    assert b[..j + 1][j] == b[j] && b[..j + 2][j + 1] == b[j + 1];
    hide Genuine;
  }

  lemma OwnedGrows(a: Log, b: Log, n: Node)
    requires a <= b && Owned(a, n)
    ensures Owned(b, n)
  {
    var i :| 0 <= i < |a| && Takes(a[i].deed, n);
    assert b[i] == a[i];
  }

  lemma WasSeenGrows(a: Log, b: Log, at: Key, n: Node)
    requires a <= b && WasSeen(a, at, n)
    ensures WasSeen(b, at, n)
  {
    var i :| 0 <= i < |a| && NamesDirectory(a[i].after, at, n);
    assert b[i] == a[i];
  }

  lemma CreatedGrows(a: Log, b: Log, oid: string)
    requires a <= b && Created(a, oid)
    ensures Created(b, oid)
  {
    var i :| 0 <= i < |a| && a[i].deed == RefCreated(oid);
    assert b[i] == a[i];
  }

  /** Between these two moments, the run unlinked this node. */
  ghost predicate Unlinks(a: Log, b: Log, n: Node) {
    exists i :: |a| <= i < |b| && b[i].deed.Unlinked? && b[i].deed.node == n
  }

  lemma UnlinksWider(a: Log, b: Log, c: Log, d: Log, n: Node)
    requires a <= b && b <= c <= d && Unlinks(b, c, n)
    ensures Unlinks(a, d, n)
  {
    var i :| |b| <= i < |c| && c[i].deed.Unlinked? && c[i].deed.node == n;
    assert d[i] == c[i];
  }

  /** Between these two moments, no step was struck by a fault. */
  ghost predicate Unstruck(a: Log, b: Log) {
    a <= b && forall i :: |a| <= i < |b| && b[i].deed.Theirs? ==> !b[i].deed.tick.fault
  }

  lemma UnstruckMore(a: Log, b: Log, c: Log)
    requires Unstruck(a, b) && Unstruck(b, c)
    ensures Unstruck(a, c)
  {
    assert forall i :: 0 <= i < |b| ==> c[i] == b[i];
  }

  /** So many transitions, none of them struck. */
  ghost predicate Passed(a: Log, b: Log, n: nat) {
    Unstruck(a, b) && |b| == |a| + n
  }

  lemma PassedMore(a: Log, b: Log, c: Log, m: nat, n: nat)
    requires Passed(a, b, m) && Passed(b, c, n)
    ensures Passed(a, c, m + n)
  {
    UnstruckMore(a, b, c);
  }

  lemma UnstruckNothing(a: Log)
    ensures Unstruck(a, a)
  {
  }

  /** Between these two moments, the entry was looked at and what it named was unlinked. */
  ghost predicate Removed(a: Log, b: Log, k: Key) {
    exists n :: SeenAs(a, b, k, n) && Unlinks(a, b, n)
  }

  ghost predicate SeenAs(a: Log, b: Log, k: Key, n: Node) {
    exists i :: |a| <= i < |b| && b[i].deed == Saw(k, n)
  }

  lemma RemovedLater(a: Log, b: Log, c: Log, k: Key)
    requires a <= b <= c && Removed(a, b, k)
    ensures Removed(a, c, k)
  {
    var n :| SeenAs(a, b, k, n) && Unlinks(a, b, n);
    var i :| |a| <= i < |b| && b[i].deed == Saw(k, n);
    assert c[i] == b[i];
    UnlinksWider(a, a, b, c, n);
  }

  lemma NowRemoved(a: Log, b: Log, c: Log, d: Log, k: Key, n: Node)
    requires a <= b <= c <= d && |b| < |c| && c[|c| - 1].deed == Saw(k, n) && Unlinks(c, d, n)
    ensures Removed(a, d, k)
  {
    assert d[|c| - 1] == c[|c| - 1];
    assert SeenAs(a, d, k, n);
    UnlinksWider(a, c, d, d, n);
  }

  /** Between these two moments, the directory was listed, and everything it then held was looked at
      and unlinked. */
  ghost predicate Emptied(a: Log, b: Log, d: Node) {
    exists i :: |a| <= i < |b| && EmptiedFrom(b, i, d)
  }

  ghost predicate EmptiedFrom(b: Log, i: nat, d: Node)
    requires i < |b|
  {
    b[i].deed.Theirs? && forall k :: k in b[i].after.entries && k.dir == d ==> Removed(b[..i + 1], b, k)
  }

  lemma EmptiedWider(a: Log, b: Log, c: Log, d: Log, n: Node)
    requires a <= b <= c <= d && Emptied(b, c, n)
    ensures Emptied(a, d, n)
  {
    hide Removed;
    var i :| |b| <= i < |c| && EmptiedFrom(c, i, n);
    assert d[i] == c[i] && d[..i + 1] == c[..i + 1];
    forall k | k in d[i].after.entries && k.dir == n
      ensures Removed(d[..i + 1], d, k)
    {
      RemovedLater(c[..i + 1], c, d, k);
    }
    assert EmptiedFrom(d, i, n);
  }

  /** Between these two moments, the run deleted no other ref values than these, each time from
      exactly that value. */
  ghost predicate DeletesOnly(a: Log, b: Log, oids: set<string>) {
    && a <= b
    && forall i :: |a| <= i < |b| && b[i].deed.RefDeleted? ==>
         b[i].deed.oid in oids && b[i].before.ref == Some(b[i].deed.oid) && b[i].after.ref.None?
  }

  lemma DeletesNone(a: Log, b: Log, kinds: set<Kind>)
    requires Adds(a, b, kinds) && Deleting !in kinds
    ensures DeletesOnly(a, b, {})
  {
  }

  lemma DeletesMore(a: Log, b: Log, c: Log, few: set<string>, more: set<string>)
    requires DeletesOnly(a, b, few) && DeletesOnly(b, c, more)
    ensures DeletesOnly(a, c, few + more)
  {
    assert forall i :: 0 <= i < |b| ==> c[i] == b[i];
  }

  /** Between these two moments, the run created no other ref value than this. */
  ghost predicate CreatesOnly(a: Log, b: Log, oid: string) {
    a <= b && forall i :: |a| <= i < |b| && b[i].deed.RefCreated? ==> b[i].deed.oid == oid
  }

  /** Between these two moments, the run created the ref with this value. */
  ghost predicate CreatesIn(a: Log, b: Log, oid: string) {
    exists i :: |a| <= i < |b| && b[i].deed == RefCreated(oid)
  }

  lemma CreatesInGrows(a: Log, b: Log, c: Log, oid: string)
    requires b <= c && CreatesIn(a, b, oid)
    ensures CreatesIn(a, c, oid)
  {
    var i :| |a| <= i < |b| && b[i].deed == RefCreated(oid);
    assert c[i] == b[i];
  }

  lemma CreatesNone(a: Log, b: Log, kinds: set<Kind>, oid: string)
    requires Adds(a, b, kinds) && Creating !in kinds
    ensures CreatesOnly(a, b, oid)
  {
  }

  lemma CreatesMore(a: Log, b: Log, c: Log, oid: string)
    requires CreatesOnly(a, b, oid) && CreatesOnly(b, c, oid)
    ensures CreatesOnly(a, c, oid)
  {
    assert forall i :: 0 <= i < |b| ==> c[i] == b[i];
  }

  /** One stretch after another: the kinds, what was unlinked, and what was owned. */
  lemma Onward(a: Log, b: Log, c: Log, kinds: set<Kind>, few: set<Kind>)
    requires Adds(a, b, kinds) && Adds(b, c, few) && few <= kinds
    ensures Adds(a, c, kinds)
    ensures forall n :: Unlinks(a, b, n) || Unlinks(b, c, n) ==> Unlinks(a, c, n)
    ensures forall n :: Owned(a, n) || Owned(b, n) ==> Owned(c, n)
    ensures forall at, n :: WasSeen(b, at, n) ==> WasSeen(c, at, n)
  {
    AddsMore(a, b, c, kinds, few, kinds);
    hide Adds;
    assert a <= b <= c by { AddsPrefix(a, b, kinds); AddsPrefix(b, c, few); }
    hide Owned, WasSeen;
    forall n | Unlinks(a, b, n)
      ensures Unlinks(a, c, n)
    {
      UnlinksWider(a, a, b, c, n);
    }
    forall n | Unlinks(b, c, n)
      ensures Unlinks(a, c, n)
    {
      UnlinksWider(a, b, c, c, n);
    }
    forall n | Owned(a, n)
      ensures Owned(c, n)
    {
      OwnedGrows(a, c, n);
    }
    forall n | Owned(b, n)
      ensures Owned(c, n)
    {
      OwnedGrows(b, c, n);
    }
    forall at, n | WasSeen(b, at, n)
      ensures WasSeen(c, at, n)
    {
      WasSeenGrows(b, c, at, n);
    }
  }

  lemma AddsPrefix(a: Log, b: Log, kinds: set<Kind>)
    requires Adds(a, b, kinds)
    ensures a <= b
  {
  }

  /** Between these two moments, the run recorded exactly these. */
  ghost predicate RecordsOnly(a: Log, b: Log, records: set<Deed>) {
    && a <= b
    && forall deed :: deed in records <==> exists i :: |a| <= i < |b| && b[i].deed.Recorded? && b[i].deed == deed
  }

  lemma RecordsNone(a: Log, b: Log, kinds: set<Kind>)
    requires Adds(a, b, kinds) && Recording !in kinds
    ensures RecordsOnly(a, b, {})
  {
  }

  lemma RecordsMore(a: Log, b: Log, c: Log, first: set<Deed>, second: set<Deed>)
    requires RecordsOnly(a, b, first) && RecordsOnly(b, c, second)
    ensures RecordsOnly(a, c, first + second)
  {
    assert forall i :: 0 <= i < |b| ==> c[i] == b[i];
    forall deed
      ensures deed in first + second <==> exists i :: |a| <= i < |c| && c[i].deed.Recorded? && c[i].deed == deed
    {
      if deed in first {
        var i :| |a| <= i < |b| && b[i].deed.Recorded? && b[i].deed == deed;
        assert c[i].deed == deed;
      }
      if i :| |a| <= i < |c| && c[i].deed.Recorded? && c[i].deed == deed {
        assert i < |b| ==> b[i].deed == deed;
      }
    }
  }

  // ---------- sweeps ----------

  /** The sweeps between these two moments are at exactly these places of the log. */
  ghost predicate SweepsAre(a: Log, b: Log, sweeps: seq<nat>) {
    && a <= b
    && (forall i :: i in sweeps ==> |a| <= i < |b|)
    && forall i :: |a| <= i < |b| ==> (b[i].deed.Swept? <==> i in sweeps)
  }

  lemma SweepsNone(a: Log, b: Log, kinds: set<Kind>)
    requires Adds(a, b, kinds) && Sweeping !in kinds
    ensures SweepsAre(a, b, [])
  {
  }

  lemma SweepsMore(a: Log, b: Log, c: Log, first: seq<nat>, second: seq<nat>)
    requires SweepsAre(a, b, first) && SweepsAre(b, c, second)
    ensures SweepsAre(a, c, first + second)
  {
    assert forall i :: 0 <= i < |b| ==> c[i] == b[i];
  }

  /** Between these two moments, the run made this directory under this name. */
  ghost predicate MadeIn(a: Log, b: Log, at: Key, n: Node) {
    exists i :: |a| <= i < |b| && b[i].deed == Made(at, n)
  }

  ghost predicate MadeByRun(a: Log, b: Log, n: Node) {
    exists at :: MadeIn(a, b, at, n)
  }

  /** This sweep removed a directory that the run had not made in the meantime. */
  ghost predicate Foreign(a: Log, b: Log, i: nat)
    requires i < |b|
  {
    b[i].deed.Swept? && b[i].deed.removed.Some? && !MadeByRun(a, b, b[i].deed.removed.value)
  }

  /** A sweep removes a directory the run did not make exactly when it is not struck by a fault and
      an empty directory that the run did not make stands under that very name. */
  lemma ForeignExactlyWhen(start: Files, a: Log, b: Log, i: nat)
    requires Genuine(start, b) && a <= b && |a| <= i < |b| && b[i].deed.Swept?
    ensures i > 0 && b[i - 1].deed.Theirs?
    ensures
      var f, at := b[i].before, b[i].deed.at;
      Foreign(a, b, i) <==>
        (!b[i - 1].deed.tick.fault && at in f.entries && f.entries[at] in f.directories
         && (forall k :: k in f.entries ==> k.dir != f.entries[at]) && !MadeByRun(a, b, f.entries[at]))
  {
    EntryIsLegal(start, b, i);
    assert b[..i][i - 1] == b[i - 1];
    hide MadeByRun, Genuine;
  }
}
