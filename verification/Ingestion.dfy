/** Ingestion: a batch is captured or deferred record by record and the checkpoint moves, in
    one transaction that compares the checkpoint with the one the batch was read from. Any
    number of ingesters, failures and appends interleave. */
module Ingestion {
  import opened Wrappers
  import opened ByteLines
  import opened CodexTypes
  import opened ContextDict
  import opened Lifecycle
  import opened Chunks
  import opened DictOrder
  import opened Checkpoints
  import opened LiveRuns

  const MAX_PENDING_PER_SCOPE := 256
  const MAX_PENDING_GLOBAL := 10_000

  /** Preparation of one record: accepted, no such project, or any other refusal. */
  datatype Verdict = Prepared | ProjectNotFound | Rejected

  /** A content-free pointer to a record: its source, the prefix it was read from, its id. */
  datatype Locator = Locator(
    scope: string, sourceId: string, parserVersion: string, policy: PolicyDigest,
    device: int, inode: int, prefixLength: nat, prefix: Bytes)

  /** What the database holds for one scope: the checkpoint, the captured records, the
      records deferred, and the table of locators, one per record identifier. */
  datatype Store = Store(
    checkpoint: Option<Checkpoint>, captured: seq<Record>, deferred: seq<Record>, locators: map<string, Locator>)

  predicate DistinctIds(records: seq<Record>) {
    forall i, j :: 0 <= i < j < |records| ==> records[i].sourceId != records[j].sourceId
  }

  function LocatorFor(id: string, cp: Checkpoint): Locator
    requires cp.prefixLength >= 0
  {
    Locator(cp.scope, id, cp.parserVersion, cp.policy, cp.device, cp.inode, cp.prefixLength, cp.prefix)
  }

  /** The records a list of verdicts selects, in order. */
  function Selected(records: seq<Record>, verdicts: seq<Verdict>, verdict: Verdict): (r: seq<Record>)
    requires |records| == |verdicts|
    ensures forall x :: x in r ==> x in records
  {
    if records == [] then []
    else
      var n := |records| - 1;
      var front := Selected(records[..n], verdicts[..n], verdict);
      if verdicts[n] == verdict then front + [records[n]] else front
  }

  /** Insert locators one by one, keeping an existing one, checking capacity each time. */
  function DeferAll(locators: map<string, Locator>, records: seq<Record>, cp: Checkpoint, elsewhere: nat): Option<map<string, Locator>>
    requires cp.prefixLength >= 0
  {
    if records == [] then Some(locators)
    else
      var n := |records| - 1;
      var front := DeferAll(locators, records[..n], cp, elsewhere);
      if front.None? then None
      else
        var id := records[n].sourceId;
        var table := if id in front.value then front.value else front.value[id := LocatorFor(id, cp)];
        if |table| > MAX_PENDING_PER_SCOPE || |table| + elsewhere > MAX_PENDING_GLOBAL then None
        else Some(table)
  }

  /** One ingestion after its read: the new store, or None when nothing may be kept. */
  function Commit(store: Store, expected: Option<Checkpoint>, batch: Batch, verdicts: seq<Verdict>, elsewhere: nat): Option<Store> {
    if !DistinctIds(batch.records) || |verdicts| != |batch.records| || Rejected in verdicts then None
    else if batch.next.prefixLength < 0 then None
    else
      var deferred := Selected(batch.records, verdicts, ProjectNotFound);
      var locators := DeferAll(store.locators, deferred, batch.next, elsewhere);
      if locators.None? || store.checkpoint != expected then None
      else Some(Store(Some(batch.next),
                      store.captured + Selected(batch.records, verdicts, Prepared),
                      store.deferred + deferred,
                      locators.value))
  }

  // ---------- the service ----------

  /** Preparation of every record in order; the first refusal stops the ingestion. */
  method Prepare(records: seq<Record>, verdicts: seq<Verdict>)
    returns (accepted: bool, captures: seq<Record>, deferrals: seq<Record>)
    requires |records| == |verdicts|
    ensures accepted <==> Rejected !in verdicts
    ensures accepted ==> captures == Selected(records, verdicts, Prepared)
    ensures accepted ==> deferrals == Selected(records, verdicts, ProjectNotFound)
  {
    captures, deferrals := [], [];
    for k := 0 to |records|
      invariant captures == Selected(records[..k], verdicts[..k], Prepared)
      invariant deferrals == Selected(records[..k], verdicts[..k], ProjectNotFound)
      invariant Rejected !in verdicts[..k]
    {
      assert records[..k + 1][..k] == records[..k] && verdicts[..k + 1][..k] == verdicts[..k];
      match verdicts[k] {
        case Prepared => captures := captures + [records[k]];
        case ProjectNotFound => deferrals := deferrals + [records[k]];
        case Rejected => return false, [], [];
      }
    }
    assert records[..|records|] == records && verdicts[..|verdicts|] == verdicts;
    accepted := true;
  }

  /** The database seen by one ingestion: its writes go to the store one at a time and are
      undone together when the transaction fails. Write number fault fails. */
  class Database {
    var store: Store

    constructor ()
      ensures store == Store(None, [], [], map[])
    {
      store := Store(None, [], [], map[]);
    }

    method WriteCaptures(captures: seq<Record>, fault: nat) returns (ok: bool)
      modifies this
      ensures ok <==> |captures| <= fault
      ensures ok ==> store == old(store).(captured := old(store).captured + captures)
    {
      for i := 0 to |captures|
        invariant i <= fault
        invariant store == old(store).(captured := old(store).captured + captures[..i])
      {
        if i == fault {
          return false;
        }
        assert captures[..i + 1] == captures[..i] + [captures[i]];
        store := store.(captured := store.captured + [captures[i]]);
      }
      assert captures[..|captures|] == captures;
      ok := true;
    }

    method WriteDeferrals(deferrals: seq<Record>, next: Checkpoint, elsewhere: nat, fault: nat) returns (ok: bool)
      requires next.prefixLength >= 0
      modifies this
      ensures ok <==> |deferrals| <= fault && DeferAll(old(store).locators, deferrals, next, elsewhere).Some?
      ensures ok ==> store == old(store).(
        deferred := old(store).deferred + deferrals,
        locators := DeferAll(old(store).locators, deferrals, next, elsewhere).value)
    {
      for j := 0 to |deferrals|
        invariant j <= fault
        invariant DeferAll(old(store).locators, deferrals[..j], next, elsewhere) == Some(store.locators)
        invariant store == old(store).(deferred := old(store).deferred + deferrals[..j], locators := store.locators)
      {
        if j == fault {
          return false;
        }
        assert deferrals[..j + 1][..j] == deferrals[..j];
        var id := deferrals[j].sourceId;
        var table := if id in store.locators then store.locators else store.locators[id := LocatorFor(id, next)];
        if |table| > MAX_PENDING_PER_SCOPE || |table| + elsewhere > MAX_PENDING_GLOBAL {
          DeferRefused(old(store).locators, deferrals, j + 1, next, elsewhere);
          return false;
        }
        store := store.(deferred := store.deferred + [deferrals[j]], locators := table);
      }
      assert deferrals[..|deferrals|] == deferrals;
      ok := true;
    }

    /** The part of an ingestion after the read. Either the whole batch is recorded and the
        checkpoint moved, or nothing changed; without a fault, Commit says which. */
    method Ingest(expected: Option<Checkpoint>, batch: Batch, verdicts: seq<Verdict>, elsewhere: nat, fault: nat)
      returns (committed: bool)
      requires |verdicts| == |batch.records| && batch.next.prefixLength >= 0
      modifies this
      ensures committed <==> fault > |batch.records| && Commit(old(store), expected, batch, verdicts, elsewhere).Some?
      ensures store == if committed then Commit(old(store), expected, batch, verdicts, elsewhere).value else old(store)
    {
      if !DistinctIds(batch.records) {
        return false;
      }
      var accepted, captures, deferrals := Prepare(batch.records, verdicts);
      if !accepted {
        return false;
      }
      SelectedLengths(batch.records, verdicts);
      var before := store;
      committed := WriteCaptures(captures, fault);
      if committed {
        committed := WriteDeferrals(deferrals, batch.next, elsewhere, fault - |captures|);
      }
      if committed && store.checkpoint == expected && fault > |batch.records| {
        store := store.(checkpoint := Some(batch.next));
      } else {
        committed := false;
        store := before;
      }
    }
  }

  lemma {:induction false} SelectedLengths(records: seq<Record>, verdicts: seq<Verdict>)
    requires |records| == |verdicts| && Rejected !in verdicts
    ensures |Selected(records, verdicts, Prepared)| + |Selected(records, verdicts, ProjectNotFound)| == |records|
  {
    if records != [] {
      var n := |records| - 1;
      SelectedLengths(records[..n], verdicts[..n]);
      assert verdicts[n] in verdicts;
    }
  }

  lemma {:induction false} DeferRefused(locators: map<string, Locator>, records: seq<Record>, n: nat, cp: Checkpoint, elsewhere: nat)
    requires n <= |records| && cp.prefixLength >= 0
    requires DeferAll(locators, records[..n], cp, elsewhere).None?
    ensures DeferAll(locators, records, cp, elsewhere).None?
    decreases |records|
  {
    if n < |records| {
      var front := records[..|records| - 1];
      assert front[..n] == records[..n];
      DeferRefused(locators, front, n, cp, elsewhere);
    } else {
      assert records[..n] == records;
    }
  }

  // ---------- interleavings ----------

  datatype Ingester = Idle | Loaded(expected: Option<Checkpoint>) | HasBatch(expected: Option<Checkpoint>, batch: Batch)

  /** The log file, the database and the ingesters working on this scope. */
  datatype System = System(source: Source, store: Store, ingesters: map<nat, Ingester>)

  /** One atomic action of the world. */
  datatype Action =
    | Append(bytes: Bytes)
    | Load(who: nat)
    | Read(who: nat)
    | Finish(who: nat, verdicts: seq<Verdict>, elsewhere: nat)
    | Fail(who: nat)

  ghost predicate DecodedOrNone(checkpoint: Option<Checkpoint>) {
    checkpoint.Some? ==> Decoded(checkpoint.value)
  }

  ghost predicate WellFormed(sys: System) {
    && DecodedOrNone(sys.store.checkpoint)
    && forall who :: who in sys.ingesters ==>
         match sys.ingesters[who]
         case Idle => true
         case Loaded(expected) => DecodedOrNone(expected)
         case HasBatch(_, batch) => Decoded(batch.next)
  }

  function StateOfIngester(sys: System, who: nat): Ingester {
    if who in sys.ingesters then sys.ingesters[who] else Idle
  }

  function Apply(p: Policy, scope: string, sys: System, action: Action): (r: System)
    requires WellFormed(sys)
    ensures WellFormed(r)
  {
    match action
    case Append(bytes) => sys.(source := sys.source.(bytes := sys.source.bytes + bytes))
    case Load(who) => sys.(ingesters := sys.ingesters[who := Loaded(sys.store.checkpoint)])
    case Read(who) =>
      (match StateOfIngester(sys, who)
       case Loaded(expected) =>
         sys.(ingesters := sys.ingesters[who := HasBatch(expected, ReadIncremental(p, scope, sys.source, expected))])
       case _ => sys)
    case Finish(who, verdicts, elsewhere) =>
      (match StateOfIngester(sys, who)
       case HasBatch(expected, batch) =>
         var result := Commit(sys.store, expected, batch, verdicts, elsewhere);
         sys.(ingesters := sys.ingesters[who := Idle], store := if result.Some? then result.value else sys.store)
       case _ => sys)
    case Fail(who) => sys.(ingesters := sys.ingesters[who := Idle])
  }

  function Execute(p: Policy, scope: string, sys: System, actions: seq<Action>): (r: System)
    requires WellFormed(sys)
    ensures WellFormed(r)
  {
    if actions == [] then sys
    else Apply(p, scope, Execute(p, scope, sys, actions[..|actions| - 1]), actions[|actions| - 1])
  }

  function Fresh(device: nat, inode: nat): (sys: System)
    ensures WellFormed(sys)
  {
    System(Source(device, inode, []), Store(None, [], [], map[]), map[])
  }

  // ---------- the invariant ----------

  /** Captured and deferred records together are the records of the committed prefix. */
  ghost predicate Accounted(p: Policy, file: Bytes, store: Store) {
    && 0 <= OffsetOf(store.checkpoint) <= |file|
    && multiset(store.captured) + multiset(store.deferred)
       == multiset(Scan(p, file[..OffsetOf(store.checkpoint)]).records)
  }

  /** A locator names a prefix the reader once stopped at, which holds a record that was
      deferred under its identifier. */
  ghost predicate GoodLocator(p: Policy, scope: string, src: Source, deferred: seq<Record>, id: string, l: Locator) {
    && l.scope == scope && l.sourceId == id && l.parserVersion == PARSER_VERSION && l.policy == DigestOf(p)
    && l.device == src.device && l.inode == src.inode
    && l.prefixLength <= |src.bytes| && l.prefix == src.bytes[..l.prefixLength]
    && CutPoint(p, l.prefix)
    && HoldsDeferred(Scan(p, l.prefix).records, deferred, id)
  }

  ghost predicate HoldsDeferred(scanned: seq<Record>, deferred: seq<Record>, id: string) {
    exists k :: 0 <= k < |deferred| && deferred[k].sourceId == id && deferred[k] in scanned
  }

  ghost predicate GoodLocators(p: Policy, scope: string, src: Source, store: Store) {
    && (forall id :: id in store.locators ==> GoodLocator(p, scope, src, store.deferred, id, store.locators[id]))
    && (forall k :: 0 <= k < |store.deferred| ==> store.deferred[k].sourceId in store.locators)
  }

  ghost predicate GoodIngester(p: Policy, scope: string, src: Source, ingester: Ingester) {
    match ingester
    case Idle => true
    case Loaded(expected) => Tracks(p, scope, src, expected)
    case HasBatch(expected, batch) => BatchTracks(p, scope, src, expected, batch)
  }

  ghost predicate Invariant(p: Policy, scope: string, sys: System) {
    && WellFormed(sys)
    && Tracks(p, scope, sys.source, sys.store.checkpoint)
    && Accounted(p, sys.source.bytes, sys.store)
    && GoodLocators(p, scope, sys.source, sys.store)
    && forall who :: who in sys.ingesters ==> GoodIngester(p, scope, sys.source, sys.ingesters[who])
  }

  lemma {:induction false} SelectedPartition(records: seq<Record>, verdicts: seq<Verdict>)
    requires |records| == |verdicts| && Rejected !in verdicts
    ensures multiset(Selected(records, verdicts, Prepared)) + multiset(Selected(records, verdicts, ProjectNotFound))
         == multiset(records)
  {
    if records != [] {
      var n := |records| - 1;
      SelectedPartition(records[..n], verdicts[..n]);
      assert records == records[..n] + [records[n]];
      assert verdicts[n] in verdicts;
    }
  }

  /** Deferring keeps every locator of the table and adds one, from this checkpoint, for
      each record that had none. */
  ghost predicate Extended(before: map<string, Locator>, records: seq<Record>, cp: Checkpoint, after: map<string, Locator>)
    requires cp.prefixLength >= 0
  {
    && (forall id :: id in before ==> id in after && after[id] == before[id])
    && (forall k :: 0 <= k < |records| ==> records[k].sourceId in after)
    && (forall id :: id in after && id !in before ==> after[id] == LocatorFor(id, cp) && Names(records, id))
  }

  ghost predicate Names(records: seq<Record>, id: string) {
    exists k :: 0 <= k < |records| && records[k].sourceId == id
  }

  lemma {:induction false} DeferAllKeeps(locators: map<string, Locator>, records: seq<Record>, cp: Checkpoint, elsewhere: nat)
    requires cp.prefixLength >= 0 && DeferAll(locators, records, cp, elsewhere).Some?
    ensures Extended(locators, records, cp, DeferAll(locators, records, cp, elsewhere).value)
  {
    if records != [] {
      hide LocatorFor;
      var n := |records| - 1;
      DeferAllKeeps(locators, records[..n], cp, elsewhere);
      var front := DeferAll(locators, records[..n], cp, elsewhere).value;
      var table := DeferAll(locators, records, cp, elsewhere).value;
      assert table == if records[n].sourceId in front then front
                      else front[records[n].sourceId := LocatorFor(records[n].sourceId, cp)];
      hide DeferAll;
      ExtendedByOne(locators, records, cp, front, table);
    }
  }

  lemma ExtendedByOne(before: map<string, Locator>, records: seq<Record>, cp: Checkpoint,
                      front: map<string, Locator>, table: map<string, Locator>)
    requires cp.prefixLength >= 0 && records != []
    requires Extended(before, records[..|records| - 1], cp, front)
    requires var id := records[|records| - 1].sourceId;
             table == if id in front then front else front[id := LocatorFor(id, cp)]
    ensures Extended(before, records, cp, table)
  {
    hide LocatorFor;
    var n := |records| - 1;
    forall id | id in table && id !in before
      ensures table[id] == LocatorFor(id, cp) && Names(records, id)
    {
      if id in front {
        var k :| 0 <= k < n && records[..n][k].sourceId == id;
        assert records[k].sourceId == id;
      } else {
        assert records[n].sourceId == id;
      }
    }
    forall k | 0 <= k < |records|
      ensures records[k].sourceId in table
    {
      if k < n {
        assert records[..n][k] == records[k];
      }
    }
  }

  // ---------- appends ----------

  lemma NeverEvictsPrefix(p: Policy, file: Bytes, n: nat)
    requires n <= |file| && NeverEvicts(p, file)
    ensures NeverEvicts(p, file[..n])
  {
    hide NoEviction, Lines, LineEvent;
    LinesOfPrefix(file, n);
    var rest := Lines(file)[|Lines(file[..n])|..];
    assert Lines(file) == Lines(file[..n]) + rest;
    EventsConcat(p, Lines(file[..n]), rest);
    NoEvictionRest(p, INITIAL, Events(p, Lines(file[..n])), Events(p, rest));
  }

  lemma AppendKeepsBatch(p: Policy, scope: string, src: Source, later: Source, expected: Option<Checkpoint>, b: Batch)
    requires BatchTracks(p, scope, src, expected, b) && Grown(src, later)
    ensures BatchTracks(p, scope, later, expected, b)
  {
    hide Tracks, Scan;
    TracksSurvivesAppend(p, scope, src, later, Some(b.next));
    assert later.bytes[..b.next.offset] == src.bytes[..b.next.offset];
    assert later.bytes[..OffsetOf(expected)] == src.bytes[..OffsetOf(expected)];
  }

  lemma AppendKeepsLocators(p: Policy, scope: string, src: Source, later: Source, store: Store)
    requires GoodLocators(p, scope, src, store) && Grown(src, later)
    ensures GoodLocators(p, scope, later, store)
  {
    hide Scan, CutPoint;
    forall id | id in store.locators
      ensures GoodLocator(p, scope, later, store.deferred, id, store.locators[id])
    {
      var l := store.locators[id];
      assert GoodLocator(p, scope, src, store.deferred, id, l);
      assert later.bytes[..l.prefixLength] == src.bytes[..l.prefixLength];
    }
  }

  lemma AppendKeeps(p: Policy, scope: string, sys: System, bytes: Bytes)
    requires Invariant(p, scope, sys)
    ensures Invariant(p, scope, Apply(p, scope, sys, Append(bytes)))
  {
    hide Tracks, Scan, GoodLocators, BatchTracks, NeverEvicts;
    var next := Apply(p, scope, sys, Append(bytes));
    assert Grown(sys.source, next.source);
    TracksSurvivesAppend(p, scope, sys.source, next.source, sys.store.checkpoint);
    AppendKeepsLocators(p, scope, sys.source, next.source, sys.store);
    var offset := OffsetOf(sys.store.checkpoint);
    assert next.source.bytes[..offset] == sys.source.bytes[..offset];
    forall who | who in sys.ingesters
      ensures GoodIngester(p, scope, next.source, sys.ingesters[who])
    {
      assert GoodIngester(p, scope, sys.source, sys.ingesters[who]);
      match sys.ingesters[who]
      case Idle =>
      case Loaded(expected) =>
        TracksSurvivesAppend(p, scope, sys.source, next.source, expected);
      case HasBatch(expected, batch) =>
        AppendKeepsBatch(p, scope, sys.source, next.source, expected, batch);
    }
  }

  // ---------- commits ----------

  /** The transaction keeps the claim: the batch starts where the checkpoint stands. */
  lemma CommitKeepsComplete(p: Policy, scope: string, src: Source, store: Store, batch: Batch,
                            verdicts: seq<Verdict>, elsewhere: nat)
    requires Accounted(p, src.bytes, store) && BatchTracks(p, scope, src, store.checkpoint, batch)
    requires Commit(store, store.checkpoint, batch, verdicts, elsewhere).Some?
    ensures Accounted(p, src.bytes, Commit(store, store.checkpoint, batch, verdicts, elsewhere).value)
  {
    hide Tracks, Scan, DeferAll;
    SelectedPartition(batch.records, verdicts);
    var from, to := OffsetOf(store.checkpoint), batch.next.offset;
    assert multiset(Scan(p, src.bytes[..to]).records)
        == multiset(Scan(p, src.bytes[..from]).records) + multiset(batch.records);
  }

  lemma MoreDeferredKeeps(p: Policy, scope: string, src: Source, deferred: seq<Record>, more: seq<Record>, id: string, l: Locator)
    requires GoodLocator(p, scope, src, deferred, id, l)
    ensures GoodLocator(p, scope, src, deferred + more, id, l)
  {
    hide Scan, CutPoint;
    var scanned := Scan(p, l.prefix).records;
    var k :| 0 <= k < |deferred| && deferred[k].sourceId == id && deferred[k] in scanned;
    assert (deferred + more)[k] == deferred[k];
  }

  lemma NewLocatorGood(p: Policy, scope: string, src: Source, expected: Option<Checkpoint>, batch: Batch,
                       before: seq<Record>, deferred: seq<Record>, id: string)
    requires BatchTracks(p, scope, src, expected, batch) && batch.next.prefixLength >= 0
    requires (forall x :: x in deferred ==> x in batch.records) && Names(deferred, id)
    ensures GoodLocator(p, scope, src, before + deferred, id, LocatorFor(id, batch.next))
  {
    hide Tracks, Scan, CutPoint;
    NextCheckpointShape(p, scope, src, expected, batch);
    var k :| 0 <= k < |deferred| && deferred[k].sourceId == id;
    assert deferred[k] in batch.records;
    assert (before + deferred)[|before| + k] == deferred[k];
  }

  lemma CommitKeepsLocators(p: Policy, scope: string, src: Source, store: Store, batch: Batch,
                            verdicts: seq<Verdict>, elsewhere: nat)
    requires GoodLocators(p, scope, src, store) && BatchTracks(p, scope, src, store.checkpoint, batch)
    requires Commit(store, store.checkpoint, batch, verdicts, elsewhere).Some?
    ensures GoodLocators(p, scope, src, Commit(store, store.checkpoint, batch, verdicts, elsewhere).value)
  {
    var after := Commit(store, store.checkpoint, batch, verdicts, elsewhere).value;
    var deferred := Selected(batch.records, verdicts, ProjectNotFound);
    hide GoodLocator, BatchTracks, Selected, LocatorFor, Commit;
    DeferAllKeeps(store.locators, deferred, batch.next, elsewhere);
    hide DeferAll;
    forall id | id in after.locators
      ensures GoodLocator(p, scope, src, after.deferred, id, after.locators[id])
    {
      if id in store.locators {
        MoreDeferredKeeps(p, scope, src, store.deferred, deferred, id, store.locators[id]);
      } else {
        NewLocatorGood(p, scope, src, store.checkpoint, batch, store.deferred, deferred, id);
      }
    }
    forall k | 0 <= k < |after.deferred|
      ensures after.deferred[k].sourceId in after.locators
    {
      if k >= |store.deferred| {
        assert after.deferred[k] == deferred[k - |store.deferred|];
      }
    }
  }

  lemma NextCheckpointShape(p: Policy, scope: string, src: Source, expected: Option<Checkpoint>, batch: Batch)
    requires BatchTracks(p, scope, src, expected, batch)
    ensures var cp := batch.next;
      && cp.scope == scope && cp.parserVersion == PARSER_VERSION && cp.policy == DigestOf(p)
      && cp.device == src.device && cp.inode == src.inode
      && 0 <= cp.prefixLength == cp.offset <= |src.bytes| && cp.prefix == src.bytes[..cp.offset]
      && CutPoint(p, cp.prefix)
  {
    hide Scan, CutPoint, Sound, Similar;
    var cp := batch.next;
    assert Own(p, scope, src, cp);
    assert src.bytes[..cp.observedSize][..cp.offset] == src.bytes[..cp.offset];
  }

  /** Every action keeps the invariant, as long as the file has no evictions. */
  lemma ApplyKeeps(p: Policy, scope: string, sys: System, action: Action)
    requires p.Valid() && p.maxContextBytes >= 2 && NeverEvicts(p, sys.source.bytes)
    requires Invariant(p, scope, sys)
    ensures Invariant(p, scope, Apply(p, scope, sys, action))
  {
    hide Tracks, Accounted, GoodLocators, BatchTracks, NeverEvicts, Commit, ReadIncremental;
    match action
    case Append(bytes) =>
      AppendKeeps(p, scope, sys, bytes);
    case Load(who) =>
    case Fail(who) =>
    case Read(who) =>
      if StateOfIngester(sys, who).Loaded? {
        assert GoodIngester(p, scope, sys.source, sys.ingesters[who]);
        ReadTracks(p, scope, sys.source, sys.ingesters[who].expected);
      }
    case Finish(who, verdicts, elsewhere) =>
      if StateOfIngester(sys, who).HasBatch? {
        var expected, batch := sys.ingesters[who].expected, sys.ingesters[who].batch;
        assert GoodIngester(p, scope, sys.source, sys.ingesters[who]);
        if Commit(sys.store, expected, batch, verdicts, elsewhere).Some? {
          CommitCompares(sys.store, expected, batch, verdicts, elsewhere);
          CommitKeepsComplete(p, scope, sys.source, sys.store, batch, verdicts, elsewhere);
          CommitKeepsLocators(p, scope, sys.source, sys.store, batch, verdicts, elsewhere);
          BatchNextTracks(p, scope, sys.source, expected, batch);
        }
      }
  }

  lemma CommitCompares(store: Store, expected: Option<Checkpoint>, batch: Batch, verdicts: seq<Verdict>, elsewhere: nat)
    requires Commit(store, expected, batch, verdicts, elsewhere).Some?
    ensures store.checkpoint == expected
    ensures Commit(store, expected, batch, verdicts, elsewhere).value.checkpoint == Some(batch.next)
  {
  }

  lemma BatchNextTracks(p: Policy, scope: string, src: Source, expected: Option<Checkpoint>, batch: Batch)
    requires BatchTracks(p, scope, src, expected, batch)
    ensures Tracks(p, scope, src, Some(batch.next))
  {
  }

  lemma {:induction false} FileGrows(p: Policy, scope: string, sys: System, actions: seq<Action>)
    requires WellFormed(sys)
    ensures Grown(sys.source, Execute(p, scope, sys, actions).source)
    decreases |actions|
  {
    hide ReadIncremental, Commit, WellFormed;
    if actions != [] {
      FileGrows(p, scope, sys, actions[..|actions| - 1]);
    }
  }

  lemma FreshInvariant(p: Policy, scope: string, device: nat, inode: nat)
    ensures Invariant(p, scope, Fresh(device, inode))
  {
    hide ScanFrom;
    var sys := Fresh(device, inode);
    TracksNothing(p, scope, sys.source);
    ScanNothing(p);
    assert sys.source.bytes[..0] == [];
  }

  lemma {:induction false} ExecuteKeeps(p: Policy, scope: string, sys: System, actions: seq<Action>)
    requires p.Valid() && p.maxContextBytes >= 2 && Invariant(p, scope, sys) && WellFormed(sys)
    requires NeverEvicts(p, Execute(p, scope, sys, actions).source.bytes)
    ensures Invariant(p, scope, Execute(p, scope, sys, actions))
    decreases |actions|
  {
    hide Invariant, NeverEvicts, Apply, WellFormed;
    if actions != [] {
      var front, last := actions[..|actions| - 1], actions[|actions| - 1];
      var before := Execute(p, scope, sys, front);
      LastActionGrows(p, scope, before, last);
      NeverEvictsPrefix(p, Execute(p, scope, sys, actions).source.bytes, |before.source.bytes|);
      ExecuteKeeps(p, scope, sys, front);
      ApplyKeeps(p, scope, before, last);
    }
  }

  lemma LastActionGrows(p: Policy, scope: string, sys: System, action: Action)
    requires WellFormed(sys)
    ensures var after := Apply(p, scope, sys, action).source.bytes;
      |sys.source.bytes| <= |after| && after[..|sys.source.bytes|] == sys.source.bytes
  {
    hide ReadIncremental, Commit, WellFormed;
  }

  /** No loss and no duplication, over every interleaving of appends, loads, reads, commits
      and failures of any number of ingesters: what was captured or deferred is, record for
      record, what one pass over the file up to the committed offset produces. */
  lemma NoLossNoDuplication(p: Policy, scope: string, device: nat, inode: nat, actions: seq<Action>)
    requires p.Valid() && p.maxContextBytes >= 2
    requires NeverEvicts(p, Execute(p, scope, Fresh(device, inode), actions).source.bytes)
    ensures var sys := Execute(p, scope, Fresh(device, inode), actions);
      Accounted(p, sys.source.bytes, sys.store)
  {
    FreshInvariant(p, scope, device, inode);
    hide Accounted, Tracks, GoodLocators, NeverEvicts, Execute, Fresh;
    ExecuteKeeps(p, scope, Fresh(device, inode), actions);
  }
}
