/** Replaying a prefix from byte 0 in bounded slices: the deferred-record replay and the
    replay of requested records. */
module Replay {
  import opened Wrappers
  import opened ByteLines
  import opened CodexTypes
  import opened ContextDict
  import opened Lifecycle
  import opened Chunks
  import opened DictOrder
  import opened Checkpoints
  import opened LiveRuns
  import opened Ingestion

  datatype ReplayError = ReplayRejected | ReplayLimit | SourceChanged | AmbiguousSource

  /** The records with one identifier, in order. */
  function WithId(records: seq<Record>, id: string): (r: seq<Record>)
    ensures forall x :: x in r <==> x in records && x.sourceId == id
  {
    if records == [] then []
    else if records[0].sourceId == id then [records[0]] + WithId(records[1..], id)
    else WithId(records[1..], id)
  }

  lemma {:induction false} WithIdConcat(a: seq<Record>, b: seq<Record>, id: string)
    ensures WithId(a + b, id) == WithId(a, id) + WithId(b, id)
  {
    if a == [] {
      assert a + b == b;
    } else {
      assert (a + b)[1..] == a[1..] + b;
      WithIdConcat(a[1..], b, id);
    }
  }

  // ---------- progress ----------

  /** One slice of a replay, from an offset where one pass stands. */
  function ReplaySlice(p: Policy, prefix: Bytes, offset: nat, st: State): (c: Chunk)
    requires offset <= |prefix| && Distinct(st.contexts)
    ensures offset + c.consumed <= |prefix|
    ensures Distinct(c.outcome.state.contexts)
  {
    ParseChunk(p, prefix[offset..offset + Min(|prefix| - offset, p.maxReadBytes)], st)
  }

  lemma ConsumesSomething(p: Policy, data: Bytes, st: State)
    requires p.Valid() && Distinct(st.contexts) && data != []
    requires ParseChunk(p, data, st).consumed == 0
    ensures !st.discarding && IndexOfLf(data) == |data| && |data| < p.maxNonsemanticBytes
  {
    hide Step, LineEvent;
  }

  /** Every slice of a replay advances, except one: the unfinished last line of a prefix at
      which no reader ever stops. Because the non-semantic limit is below the read limit,
      a full slice always advances. */
  lemma ReplayProgress(p: Policy, prefix: Bytes, offset: nat)
    requires p.Valid() && offset < |prefix| && CutPoint(p, prefix[..offset])
    ensures var c := ReplaySlice(p, prefix, offset, Scan(p, prefix[..offset]).state);
      && CutPoint(p, prefix[..offset + c.consumed])
      && Scan(p, prefix[..offset + c.consumed]) == Then(Scan(p, prefix[..offset]), c.outcome)
      && (c.consumed == 0 ==> !CutPoint(p, prefix) && Scan(p, prefix).records == Scan(p, prefix[..offset]).records)
  {
    hide ParseChunk, ScanFrom, Lines, Tail;
    var end := offset + Min(|prefix| - offset, p.maxReadBytes);
    ReferenceChunk(p, prefix, offset, end);
    var st := Scan(p, prefix[..offset]).state;
    if ReplaySlice(p, prefix, offset, st).consumed == 0 {
      ConsumesSomething(p, prefix[offset..end], st);
      assert end == |prefix|;
      ScanDiscards(p, prefix[..offset]);
      UnfinishedTail(p, prefix, offset);
    }
  }

  lemma UnfinishedTail(p: Policy, prefix: Bytes, offset: nat)
    requires offset < |prefix| && Tail(prefix[..offset]) == []
    requires IndexOfLf(prefix[offset..]) == |prefix| - offset < p.maxNonsemanticBytes
    ensures !CutPoint(p, prefix)
    ensures Scan(p, prefix).records == Scan(p, prefix[..offset]).records
  {
    hide RunEvents;
    assert prefix == prefix[..offset] + prefix[offset..];
    ScanFragment(p, INITIAL, prefix[..offset], prefix[offset..]);
  }

  // ---------- the deferred-record replay ----------

  /** What replaying one record from a prefix amounts to. */
  function OneRecord(p: Policy, prefix: Bytes, id: string): Result<Record, ReplayError> {
    var matches := WithId(Scan(p, prefix).records, id);
    if |matches| > 1 then Err(AmbiguousSource)
    else if !CutPoint(p, prefix) then Err(SourceChanged)
    else if |matches| == 0 then Err(AmbiguousSource)
    else Ok(matches[0])
  }

  /** Device numbers may be renumbered on one platform while the inode stays. */
  predicate IdentityMatches(l: Locator, src: Source, renumbering: bool) {
    l.inode == src.inode && (l.device == src.device || renumbering)
  }

  function ReplayOutcome(p: Policy, src: Source, l: Locator, renumbering: bool): Result<Record, ReplayError> {
    if l.parserVersion != PARSER_VERSION || l.policy != DigestOf(p) then Err(ReplayRejected)
    else if l.prefixLength > p.maxScanBytes then Err(ReplayLimit)
    else if !IdentityMatches(l, src, renumbering) || |src.bytes| < l.prefixLength then Err(SourceChanged)
    else if src.bytes[..l.prefixLength] != l.prefix then Err(SourceChanged)
    else OneRecord(p, l.prefix, l.sourceId)
  }

  /** The loop of the deferred-record replay on a file that stays as it is. */
  method ReplayDeferred(p: Policy, src: Source, l: Locator, renumbering: bool) returns (r: Result<Record, ReplayError>)
    requires p.Valid()
    ensures r == ReplayOutcome(p, src, l, renumbering)
  {
    hide Scan, CutPoint, ReplaySlice, Then;
    if l.parserVersion != PARSER_VERSION || l.policy != DigestOf(p) {
      return Err(ReplayRejected);
    }
    if l.prefixLength > p.maxScanBytes {
      return Err(ReplayLimit);
    }
    if !IdentityMatches(l, src, renumbering) || |src.bytes| < l.prefixLength {
      return Err(SourceChanged);
    }
    var prefix := src.bytes[..l.prefixLength];
    if prefix != l.prefix {
      return Err(SourceChanged);
    }
    var offset := 0;
    var st := INITIAL;
    var matches: seq<Record> := [];
    StartOfReplay(p, prefix, l.sourceId);
    while offset < |prefix|
      invariant offset <= |prefix| && CutPoint(p, prefix[..offset])
      invariant st == Scan(p, prefix[..offset]).state
      invariant matches == WithId(Scan(p, prefix[..offset]).records, l.sourceId) && |matches| <= 1
      decreases |prefix| - offset
    {
      ReplayProgress(p, prefix, offset);
      var c := ReplaySlice(p, prefix, offset, st);
      NextSlice(p, prefix, offset, c, l.sourceId);
      matches := matches + WithId(c.outcome.records, l.sourceId);
      if c.consumed == 0 {
        return Err(SourceChanged);
      }
      offset := offset + c.consumed;
      st := c.outcome.state;
      if |matches| > 1 {
        RecordsOfPrefix(p, prefix, offset, l.sourceId);
        return Err(AmbiguousSource);
      }
    }
    assert prefix[..offset] == prefix;
    if |matches| != 1 {
      return Err(AmbiguousSource);
    }
    return Ok(matches[0]);
  }

  lemma StartOfReplay(p: Policy, prefix: Bytes, id: string)
    ensures CutPoint(p, prefix[..0]) && Scan(p, prefix[..0]) == Outcome(INITIAL, [], multiset{})
    ensures WithId([], id) == []
  {
    assert prefix[..0] == [];
    ScanNothing(p);
  }

  lemma NextSlice(p: Policy, prefix: Bytes, offset: nat, c: Chunk, id: string)
    requires offset + c.consumed <= |prefix|
    requires Scan(p, prefix[..offset + c.consumed]) == Then(Scan(p, prefix[..offset]), c.outcome)
    ensures Scan(p, prefix[..offset + c.consumed]).state == c.outcome.state
    ensures WithId(Scan(p, prefix[..offset + c.consumed]).records, id)
         == WithId(Scan(p, prefix[..offset]).records, id) + WithId(c.outcome.records, id)
    ensures c.consumed == 0 ==> WithId(c.outcome.records, id) == []
  {
    hide Scan;
    WithIdConcat(Scan(p, prefix[..offset]).records, c.outcome.records, id);
    if c.consumed == 0 {
      assert |Scan(p, prefix[..offset]).records| == |Scan(p, prefix[..offset]).records + c.outcome.records|;
    }
  }

  /** Records of a prefix stay records of what follows. */
  lemma RecordsOfPrefix(p: Policy, file: Bytes, offset: nat, id: string)
    requires offset <= |file|
    ensures Scan(p, file[..offset]).records <= Scan(p, file).records
    ensures |WithId(Scan(p, file[..offset]).records, id)| <= |WithId(Scan(p, file).records, id)|
  {
    hide LineEvent, Step, Lines, Tail;
    LinesOfPrefix(file, offset);
    var front := Lines(file[..offset]);
    var rest := Lines(file)[|front|..];
    assert Lines(file) == front + rest;
    EventsConcat(p, front, rest);
    RunConcat(p, INITIAL, Events(p, front), Events(p, rest));
    var first := RunEvents(p, INITIAL, Events(p, front));
    var second := RunEvents(p, first.state, Events(p, rest));
    assert Scan(p, file).records == Scan(p, file[..offset]).records + second.records;
    WithIdConcat(first.records, second.records, id);
  }

  // ---------- what a replay accepts ----------

  /** The record is in the list, and no other place of the list has its identifier. */
  ghost predicate OnlyOne(records: seq<Record>, id: string, record: Record) {
    exists k :: 0 <= k < |records| && OnlyAt(records, id, record, k)
  }

  ghost predicate OnlyAt(records: seq<Record>, id: string, record: Record, k: nat)
    requires k < |records|
  {
    && records[k] == record && record.sourceId == id
    && forall i :: 0 <= i < |records| && i != k ==> records[i].sourceId != id
  }

  lemma WithIdAround(records: seq<Record>, id: string, k: nat)
    requires k < |records|
    ensures WithId(records, id) == WithId(records[..k], id) + WithId([records[k]], id) + WithId(records[k + 1..], id)
  {
    assert records == records[..k] + [records[k]] + records[k + 1..];
    WithIdConcat(records[..k] + [records[k]], records[k + 1..], id);
    WithIdConcat(records[..k], [records[k]], id);
  }

  lemma WithIdNone(records: seq<Record>, id: string)
    ensures WithId(records, id) == [] <==> forall i :: 0 <= i < |records| ==> records[i].sourceId != id
  {
    if i :| 0 <= i < |records| && records[i].sourceId == id {
      assert records[i] in WithId(records, id);
    }
    if WithId(records, id) != [] {
      assert WithId(records, id)[0] in records;
    }
  }

  lemma WithIdIsOne(records: seq<Record>, id: string, record: Record)
    ensures WithId(records, id) == [record] <==> OnlyOne(records, id, record)
  {
    if WithId(records, id) == [record] {
      assert record in WithId(records, id);
      var k :| 0 <= k < |records| && records[k] == record;
      WithIdAround(records, id, k);
      assert |WithId([records[k]], id)| == 1;
      WithIdNone(records[..k], id);
      WithIdNone(records[k + 1..], id);
      assert forall i :: k < i < |records| ==> records[i] == records[k + 1..][i - k - 1];
      assert OnlyAt(records, id, record, k);
    }
    if k :| 0 <= k < |records| && OnlyAt(records, id, record, k) {
      WithIdAround(records, id, k);
      WithIdNone(records[..k], id);
      WithIdNone(records[k + 1..], id);
      assert WithId([record], id) == [record];
    }
  }

  /** The locator speaks of this very file: the inode is the same, and so is the device, unless
      devices may have been renumbered; and the bytes it remembers are still the start of the file. */
  predicate SameFile(l: Locator, src: Source, renumbering: bool) {
    && l.inode == src.inode && (renumbering || l.device == src.device)
    && l.prefixLength <= |src.bytes| && l.prefix == src.bytes[..l.prefixLength]
  }

  /** A replay yields a record exactly when the locator was written by this parser under this policy,
      is within the scan limit and speaks of this very file, its prefix ends where a reader may stop,
      and the record is the only one of its identifier in one pass over that prefix. */
  lemma ReplaysExactlyWhen(p: Policy, src: Source, l: Locator, renumbering: bool, record: Record)
    ensures ReplayOutcome(p, src, l, renumbering) == Ok(record) <==>
              && l.parserVersion == PARSER_VERSION && l.policy == DigestOf(p) && l.prefixLength <= p.maxScanBytes
              && SameFile(l, src, renumbering) && CutPoint(p, l.prefix)
              && OnlyOne(Scan(p, l.prefix).records, l.sourceId, record)
  {
    hide Scan, CutPoint, WithId, OnlyOne;
    WithIdIsOne(Scan(p, l.prefix).records, l.sourceId, record);
    var matches := WithId(Scan(p, l.prefix).records, l.sourceId);
    assert |matches| == 1 ==> matches == [matches[0]];
  }

  /** Why a replay fails: another parser or policy, then the limit, then another file, then the
      records themselves. */
  lemma ReplayFails(p: Policy, src: Source, l: Locator, renumbering: bool)
    ensures var r := ReplayOutcome(p, src, l, renumbering);
      var ours := l.parserVersion == PARSER_VERSION && l.policy == DigestOf(p);
      && (!ours <==> r == Err(ReplayRejected))
      && (ours && l.prefixLength > p.maxScanBytes <==> r == Err(ReplayLimit))
      && (ours && l.prefixLength <= p.maxScanBytes && !SameFile(l, src, renumbering) ==> r == Err(SourceChanged))
      && (r == Err(AmbiguousSource) ==>
            forall record :: !OnlyOne(Scan(p, l.prefix).records, l.sourceId, record))
  {
    hide Scan, CutPoint, WithId, OnlyOne;
    if ReplayOutcome(p, src, l, renumbering) == Err(AmbiguousSource) {
      forall record
        ensures !OnlyOne(Scan(p, l.prefix).records, l.sourceId, record)
      {
        WithIdIsOne(Scan(p, l.prefix).records, l.sourceId, record);
      }
    }
  }

  // ---------- replay and live runs ----------

  /** Replay equals the live run: over every interleaving of appends, ingesters and failures,
      every locator in the table replays on the current file, reaches exactly its prefix, and
      yields a deferred record of that identifier unless the identifier occurs twice. */
  lemma DeferredRecordsReplay(p: Policy, scope: string, device: nat, inode: nat, actions: seq<Action>, id: string, renumbering: bool)
    requires p.Valid() && p.maxContextBytes >= 2
    requires NeverEvicts(p, Execute(p, scope, Fresh(device, inode), actions).source.bytes)
    requires id in Execute(p, scope, Fresh(device, inode), actions).store.locators
    ensures var sys := Execute(p, scope, Fresh(device, inode), actions);
            var l := sys.store.locators[id];
            var matches := WithId(Scan(p, l.prefix).records, id);
      && 1 <= |matches|
      && (l.prefixLength > p.maxScanBytes ==> ReplayOutcome(p, sys.source, l, renumbering) == Err(ReplayLimit))
      && (l.prefixLength <= p.maxScanBytes && |matches| > 1 ==>
            ReplayOutcome(p, sys.source, l, renumbering) == Err(AmbiguousSource))
      && (l.prefixLength <= p.maxScanBytes && |matches| == 1 ==>
            ReplayOutcome(p, sys.source, l, renumbering) == Ok(matches[0]) && matches[0] in sys.store.deferred)
  {
    var sys := Execute(p, scope, Fresh(device, inode), actions);
    InvariantHolds(p, scope, device, inode, actions);
    LocatorReplays(p, scope, sys.source, sys.store, id, renumbering);
  }

  lemma InvariantHolds(p: Policy, scope: string, device: nat, inode: nat, actions: seq<Action>)
    requires p.Valid() && p.maxContextBytes >= 2
    requires NeverEvicts(p, Execute(p, scope, Fresh(device, inode), actions).source.bytes)
    ensures var sys := Execute(p, scope, Fresh(device, inode), actions);
      GoodLocators(p, scope, sys.source, sys.store)
  {
    FreshInvariant(p, scope, device, inode);
    hide Accounted, Tracks, GoodLocators, NeverEvicts, Execute, Fresh;
    ExecuteKeeps(p, scope, Fresh(device, inode), actions);
  }

  lemma LocatorReplays(p: Policy, scope: string, src: Source, store: Store, id: string, renumbering: bool)
    requires GoodLocators(p, scope, src, store) && id in store.locators
    ensures var l := store.locators[id];
            var matches := WithId(Scan(p, l.prefix).records, id);
      && 1 <= |matches|
      && ReplayOutcome(p, src, l, renumbering) ==
           (if l.prefixLength > p.maxScanBytes then Err(ReplayLimit)
            else if |matches| > 1 then Err(AmbiguousSource)
            else Ok(matches[0]))
      && (|matches| == 1 ==> matches[0] in store.deferred)
  {
    hide Scan, CutPoint, WithId;
    var l := store.locators[id];
    assert GoodLocator(p, scope, src, store.deferred, id, l);
    SomeMatch(Scan(p, l.prefix).records, store.deferred, id);
  }

  lemma SomeMatch(scanned: seq<Record>, deferred: seq<Record>, id: string)
    requires HoldsDeferred(scanned, deferred, id)
    ensures |WithId(scanned, id)| >= 1
    ensures |WithId(scanned, id)| == 1 ==> WithId(scanned, id)[0] in deferred
  {
    var k :| 0 <= k < |deferred| && deferred[k].sourceId == id && deferred[k] in scanned;
    assert deferred[k] in WithId(scanned, id);
  }

  // ---------- the replay of requested records ----------

  /** Length of the longest prefix that ends in a line feed, searched in the last part of
      the file only; 0 when that part holds no line feed. */
  function CompletePrefixLength(file: Bytes, limit: nat): (n: nat)
    ensures n <= |file|
    ensures n > 0 ==> file[n - 1] == LF && (forall k :: n <= k < |file| ==> file[k] != LF)
    ensures n == 0 <==> forall k :: |file| - Min(|file|, limit) <= k < |file| ==> file[k] != LF
  {
    LastLf(file, |file|, |file| - Min(|file|, limit))
  }

  /** One past the last line feed in file[low..high], or 0. */
  function LastLf(file: Bytes, high: nat, low: nat): (n: nat)
    requires low <= high <= |file|
    ensures n <= high
    ensures n > 0 ==> low < n && file[n - 1] == LF && (forall k :: n <= k < high ==> file[k] != LF)
    ensures n == 0 <==> forall k :: low <= k < high ==> file[k] != LF
    decreases high
  {
    if high == low then 0
    else if file[high - 1] == LF then high
    else LastLf(file, high - 1, low)
  }

  lemma {:induction false} LineCount(s: Bytes)
    ensures CountLf(s) == |Lines(s)|
    decreases |s|
  {
    var i := IndexOfLf(s);
    if i == |s| {
      NoLfCount(s);
    } else {
      assert s == s[..i] + ([LF] + s[i + 1..]);
      CountLfConcat(s[..i], [LF] + s[i + 1..]);
      NoLfCount(s[..i]);
      LineCount(s[i + 1..]);
    }
  }

  function CountLf(s: Bytes): nat {
    if s == [] then 0 else (if s[0] == LF then 1 else 0) + CountLf(s[1..])
  }

  lemma {:induction false} NoLfCount(s: Bytes)
    requires NoLf(s)
    ensures CountLf(s) == 0
  {
    if s != [] {
      NoLfCount(s[1..]);
    }
  }

  lemma {:induction false} CountLfConcat(a: Bytes, b: Bytes)
    ensures CountLf(a + b) == CountLf(a) + CountLf(b)
  {
    if a == [] {
      assert a + b == b;
    } else {
      assert (a + b)[1..] == a[1..] + b;
      CountLfConcat(a[1..], b);
    }
  }

  /** A request the replay accepts to work on. */
  predicate ValidRequest(p: Policy, ids: seq<string>) {
    && 0 < |ids| <= 256
    && (forall k :: 0 <= k < |ids| ==> p.persistedSafe(ids[k]))
    && (forall i, j :: 0 <= i < j < |ids| ==> ids[i] != ids[j])
  }

  /** When the requested records can be returned: the searched prefix exists and is within
      the scan limits, and each identifier occurs in it exactly once. */
  ghost predicate Replayable(p: Policy, file: Bytes, ids: seq<string>) {
    var n := CompletePrefixLength(file, p.maxNonsemanticBytes);
    && ValidRequest(p, ids)
    && 0 < n <= p.maxScanBytes
    && |Lines(file[..n])| <= p.maxScanRecords
    && forall k :: 0 <= k < |ids| ==> |WithId(Scan(p, file[..n]).records, ids[k])| == 1
  }

  /** Records found so far: exactly one for every requested identifier seen. */
  ghost predicate FoundIs(found: map<string, Record>, ids: seq<string>, records: seq<Record>) {
    && (forall id :: id in found ==> id in ids && WithId(records, id) == [found[id]])
    && (forall k :: 0 <= k < |ids| && ids[k] !in found ==> WithId(records, ids[k]) == [])
  }

  ghost predicate Repeated(ids: seq<string>, records: seq<Record>) {
    exists k :: 0 <= k < |ids| && |WithId(records, ids[k])| > 1
  }

  method CollectRequested(found: map<string, Record>, ids: seq<string>, ghost before: seq<Record>, records: seq<Record>)
    returns (ok: bool, r: map<string, Record>)
    requires FoundIs(found, ids, before)
    ensures ok ==> FoundIs(r, ids, before + records)
    ensures !ok ==> Repeated(ids, before + records)
  {
    hide FoundIs, WithId, Repeated;
    r := found;
    assert before + records[..0] == before;
    for i := 0 to |records|
      invariant FoundIs(r, ids, before + records[..i])
    {
      var record := records[i];
      assert before + records[..i + 1] == before + records[..i] + [record];
      if record.sourceId !in ids {
        FoundOther(r, ids, before + records[..i], record);
      } else if record.sourceId in r {
        FoundAgain(r, ids, before + records[..i], record);
        assert before + records == before + records[..i + 1] + records[i + 1..];
        StaysRepeated(ids, before + records[..i + 1], records[i + 1..]);
        return false, r;
      } else {
        FoundNew(r, ids, before + records[..i], record);
        r := r[record.sourceId := record];
      }
    }
    assert records[..|records|] == records;
    ok := true;
  }

  lemma FoundOther(found: map<string, Record>, ids: seq<string>, records: seq<Record>, record: Record)
    requires FoundIs(found, ids, records) && record.sourceId !in ids
    ensures FoundIs(found, ids, records + [record])
  {
    hide WithId;
    AddOneRecord(ids, records, record);
  }

  lemma FoundNew(found: map<string, Record>, ids: seq<string>, records: seq<Record>, record: Record)
    requires FoundIs(found, ids, records) && record.sourceId in ids && record.sourceId !in found
    ensures FoundIs(found[record.sourceId := record], ids, records + [record])
  {
    hide WithId;
    AddOneRecord(ids, records, record);
    assert WithId(records, record.sourceId) == [];
  }

  lemma FoundAgain(found: map<string, Record>, ids: seq<string>, records: seq<Record>, record: Record)
    requires FoundIs(found, ids, records) && record.sourceId in found
    ensures Repeated(ids, records + [record])
  {
    hide WithId;
    AddOneRecord(ids, records, record);
    var k :| 0 <= k < |ids| && ids[k] == record.sourceId;
    assert |WithId(records + [record], ids[k])| == 2;
  }

  lemma StaysRepeated(ids: seq<string>, records: seq<Record>, more: seq<Record>)
    requires Repeated(ids, records)
    ensures Repeated(ids, records + more)
  {
    hide WithId;
    var k :| 0 <= k < |ids| && |WithId(records, ids[k])| > 1;
    WithIdConcat(records, more, ids[k]);
  }

  lemma AddOneRecord(ids: seq<string>, records: seq<Record>, record: Record)
    ensures forall id ::
      WithId(records + [record], id) == (if record.sourceId == id then WithId(records, id) + [record] else WithId(records, id))
  {
    forall id
      ensures WithId(records + [record], id)
           == if record.sourceId == id then WithId(records, id) + [record] else WithId(records, id)
    {
      WithIdConcat(records, [record], id);
      assert [record][1..] == [];
    }
  }

  /** One record for each identifier, in request order, and each the only one of its kind. */
  ghost predicate Answers(scanned: seq<Record>, ids: seq<string>, answers: seq<Record>) {
    && |answers| == |ids|
    && forall k :: 0 <= k < |ids| ==> WithId(scanned, ids[k]) == [answers[k]]
  }

  /** The replay of requested records on a file that stays as it is: it succeeds exactly when
      the request is replayable, with the one record of each identifier in request order. */
  method ReplayRecords(p: Policy, file: Bytes, ids: seq<string>) returns (r: Result<seq<Record>, ReplayError>)
    requires p.Valid()
    ensures r.Ok? <==> Replayable(p, file, ids)
    ensures r.Ok? ==> Answers(Scan(p, file[..CompletePrefixLength(file, p.maxNonsemanticBytes)]).records, ids, r.value)
    ensures r.Err? ==> r.error != SourceChanged
    ensures r == Err(ReplayRejected) <==>
              || |ids| == 0 || |ids| > 256 || (exists k :: 0 <= k < |ids| && !p.persistedSafe(ids[k]))
              || exists i, j :: 0 <= i < j < |ids| && ids[i] == ids[j]
  {
    hide Scan, CutPoint, ReplaySlice, Then, FoundIs, Lines, Repeated, WithId;
    if !ValidRequest(p, ids) {
      return Err(ReplayRejected);
    }
    var n := CompletePrefixLength(file, p.maxNonsemanticBytes);
    if n <= 0 || n > p.maxScanBytes {
      return Err(ReplayLimit);
    }
    var prefix := file[..n];
    CompletePrefixIsCut(p, file, n);
    var found: map<string, Record> := map[];
    var offset, total := 0, 0;
    var st := INITIAL;
    ghost var seen: seq<Record> := [];
    StartOfRequest(p, prefix, ids);
    while offset < n
      invariant offset <= n && CutPoint(p, prefix[..offset])
      invariant st == Scan(p, prefix[..offset]).state
      invariant seen == Scan(p, prefix[..offset]).records && FoundIs(found, ids, seen)
      invariant total == CountLf(prefix[..offset]) <= p.maxScanRecords
      decreases n - offset
    {
      ReplayProgress(p, prefix, offset);
      var c := ReplaySlice(p, prefix, offset, st);
      NextSlice(p, prefix, offset, c, "");
      ThenRecords(Scan(p, prefix[..offset]), c.outcome);
      total := total + CountLf(prefix[offset..offset + c.consumed]);
      assert prefix[..offset + c.consumed] == prefix[..offset] + prefix[offset..offset + c.consumed];
      CountLfConcat(prefix[..offset], prefix[offset..offset + c.consumed]);
      if total > p.maxScanRecords {
        TooManyLines(p, prefix, offset + c.consumed);
        return Err(ReplayLimit);
      }
      var ok, next := CollectRequested(found, ids, seen, c.outcome.records);
      if !ok {
        RepeatedInPrefix(p, prefix, offset + c.consumed, ids);
        return Err(AmbiguousSource);
      }
      found := next;
      offset := offset + c.consumed;
      st := c.outcome.state;
      seen := seen + c.outcome.records;
    }
    assert prefix[..offset] == prefix;
    LineCount(prefix);
    if exists k :: 0 <= k < |ids| && ids[k] !in found {
      MissingRequested(found, ids, seen);
      return Err(AmbiguousSource);
    }
    AllRequested(found, ids, seen);
    return Ok(seq(|ids|, k requires 0 <= k < |ids| => found[ids[k]]));
  }

  lemma MissingRequested(found: map<string, Record>, ids: seq<string>, records: seq<Record>)
    requires FoundIs(found, ids, records)
    requires exists k :: 0 <= k < |ids| && ids[k] !in found
    ensures exists k :: 0 <= k < |ids| && |WithId(records, ids[k])| != 1
  {
    var k :| 0 <= k < |ids| && ids[k] !in found;
    assert WithId(records, ids[k]) == [];
  }

  lemma AllRequested(found: map<string, Record>, ids: seq<string>, records: seq<Record>)
    requires FoundIs(found, ids, records)
    requires forall k :: 0 <= k < |ids| ==> ids[k] in found
    ensures forall k :: 0 <= k < |ids| ==> WithId(records, ids[k]) == [found[ids[k]]]
  {
  }

  lemma RepeatedInPrefix(p: Policy, prefix: Bytes, offset: nat, ids: seq<string>)
    requires offset <= |prefix| && Repeated(ids, Scan(p, prefix[..offset]).records)
    ensures exists k :: 0 <= k < |ids| && |WithId(Scan(p, prefix).records, ids[k])| != 1
  {
    hide Scan, WithId;
    var k :| 0 <= k < |ids| && |WithId(Scan(p, prefix[..offset]).records, ids[k])| > 1;
    RecordsOfPrefix(p, prefix, offset, ids[k]);
  }

  lemma StartOfRequest(p: Policy, prefix: Bytes, ids: seq<string>)
    ensures CutPoint(p, prefix[..0]) && Scan(p, prefix[..0]) == Outcome(INITIAL, [], multiset{})
    ensures FoundIs(map[], ids, []) && CountLf(prefix[..0]) == 0
  {
    assert prefix[..0] == [];
    ScanNothing(p);
  }

  lemma ThenRecords(a: Outcome, b: Outcome)
    ensures Then(a, b).records == a.records + b.records
  {
  }

  lemma CompletePrefixIsCut(p: Policy, file: Bytes, n: nat)
    requires 0 < n <= |file| && file[n - 1] == LF
    ensures CutPoint(p, file[..n])
  {
    EndsInLf(file[..n]);
  }

  lemma TooManyLines(p: Policy, prefix: Bytes, n: nat)
    requires n <= |prefix| && CountLf(prefix[..n]) > p.maxScanRecords
    ensures |Lines(prefix)| > p.maxScanRecords
  {
    hide Lines;
    LineCount(prefix);
    assert prefix == prefix[..n] + prefix[n..];
    CountLfConcat(prefix[..n], prefix[n..]);
  }
}
