/** Which records of a batch go where, by their verdicts: one transaction, and every interleaving. */
module IngestionVerdicts {
  import opened Wrappers
  import opened ByteLines
  import opened CodexTypes
  import opened Checkpoints
  import opened LiveRuns
  import opened Ingestion

  // ---------- one transaction ----------

  /** A subsequence: the records at exactly these places, in order. */
  ghost predicate ExactlyThose(chosen: seq<Record>, records: seq<Record>, verdicts: seq<Verdict>, verdict: Verdict, places: seq<nat>) {
    && |places| == |chosen| && |records| == |verdicts|
    && (forall k :: 0 <= k < |places| ==> places[k] < |records| && verdicts[places[k]] == verdict && chosen[k] == records[places[k]])
    && Rising(places) && AllPlaces(verdicts, verdict, places)
  }

  ghost predicate Rising(places: seq<nat>) {
    forall k, l :: 0 <= k < l < |places| ==> places[k] < places[l]
  }

  ghost predicate AllPlaces(verdicts: seq<Verdict>, verdict: Verdict, places: seq<nat>) {
    forall i :: 0 <= i < |verdicts| && verdicts[i] == verdict ==> i in places
  }

  lemma {:induction false} SelectedExactly(records: seq<Record>, verdicts: seq<Verdict>, verdict: Verdict) returns (places: seq<nat>)
    requires |records| == |verdicts|
    ensures ExactlyThose(Selected(records, verdicts, verdict), records, verdicts, verdict, places)
  {
    places := [];
    if records != [] {
      var n := |records| - 1;
      places := SelectedExactly(records[..n], verdicts[..n], verdict);
      if verdicts[n] == verdict {
        places := places + [n];
      }
      forall i | 0 <= i < |records| && verdicts[i] == verdict
        ensures i in places
      {
        if i == n {
          assert places[|places| - 1] == n;
        } else {
          assert verdicts[..n][i] == verdict;
        }
      }
    }
  }

  /** The identifiers of the records that have this verdict. */
  function Ids(records: seq<Record>, verdicts: seq<Verdict>, verdict: Verdict): set<string>
    requires |records| == |verdicts|
  {
    set i | 0 <= i < |records| && verdicts[i] == verdict :: records[i].sourceId
  }

  /** The table after the batch has room; nothing is asked when nothing is deferred. */
  ghost predicate HasRoom(keys: set<string>, added: set<string>, elsewhere: nat) {
    added == {} || (|keys + added| <= MAX_PENDING_PER_SCOPE && |keys + added| + elsewhere <= MAX_PENDING_GLOBAL)
  }

  function IdsOf(records: seq<Record>): set<string> {
    set i | 0 <= i < |records| :: records[i].sourceId
  }

  /** The table holds these keys; old locators are kept, and a new one points at this checkpoint. */
  ghost predicate Deferred(before: map<string, Locator>, added: set<string>, cp: Checkpoint, after: map<string, Locator>) {
    && after.Keys == before.Keys + added
    && (forall id :: id in before ==> after[id] == before[id])
    && (forall id :: id in added && id !in before ==> PointsAt(after[id], id, cp))
  }

  ghost predicate PointsAt(l: Locator, id: string, cp: Checkpoint) {
    && l.sourceId == id && l.scope == cp.scope && l.parserVersion == cp.parserVersion && l.policy == cp.policy
    && l.device == cp.device && l.inode == cp.inode && l.prefixLength == cp.prefixLength && l.prefix == cp.prefix
  }

  /** Room for more is room for less. */
  lemma RoomForFewer(keys: set<string>, few: set<string>, more: set<string>, elsewhere: nat)
    requires few <= more && HasRoom(keys, more, elsewhere)
    ensures HasRoom(keys, few, elsewhere)
  {
    SubsetSize(keys + few, keys + more);
  }

  function WithLocator(table: map<string, Locator>, id: string, cp: Checkpoint): map<string, Locator>
    requires cp.prefixLength >= 0
  {
    if id in table then table else table[id := LocatorFor(id, cp)]
  }

  lemma AddKey(keys: set<string>, added: set<string>, id: string)
    ensures keys + added + {id} == keys + (added + {id})
  {
  }

  lemma WithLocatorKeys(table: map<string, Locator>, id: string, cp: Checkpoint)
    requires cp.prefixLength >= 0
    ensures WithLocator(table, id, cp).Keys == table.Keys + {id} && |WithLocator(table, id, cp)| == |table.Keys + {id}|
  {
    var longer := WithLocator(table, id, cp);
    assert |longer| == |longer.Keys|;
  }

  /** One more locator. */
  lemma DeferOne(before: map<string, Locator>, added: set<string>, cp: Checkpoint, middle: map<string, Locator>, id: string)
    requires cp.prefixLength >= 0 && Deferred(before, added, cp, middle)
    ensures Deferred(before, added + {id}, cp, WithLocator(middle, id, cp))
  {
    AddKey(before.Keys, added, id);
    WithLocatorKeys(middle, id, cp);
    var table := WithLocator(middle, id, cp);
    hide PointsAt;
    forall x | x in added + {id} && x !in before
      ensures x in table && PointsAt(table[x], x, cp)
    {
      if x in middle {
        assert x in added && table[x] == middle[x];
      } else {
        NewPoints(middle, x, cp);
      }
    }
  }

  lemma NewPoints(table: map<string, Locator>, id: string, cp: Checkpoint)
    requires cp.prefixLength >= 0 && id !in table
    ensures PointsAt(WithLocator(table, id, cp)[id], id, cp)
  {
  }

  lemma RoomForOne(before: map<string, Locator>, added: set<string>, cp: Checkpoint, middle: map<string, Locator>, id: string,
                   elsewhere: nat)
    requires cp.prefixLength >= 0 && middle.Keys == before.Keys + added
    ensures HasRoom(before.Keys, added + {id}, elsewhere) <==>
              |WithLocator(middle, id, cp)| <= MAX_PENDING_PER_SCOPE && |WithLocator(middle, id, cp)| + elsewhere <= MAX_PENDING_GLOBAL
  {
    hide WithLocator;
    AddKey(before.Keys, added, id);
    WithLocatorKeys(middle, id, cp);
    assert id in added + {id};
  }

  lemma DeferSnoc(before: map<string, Locator>, records: seq<Record>, cp: Checkpoint, elsewhere: nat)
    requires cp.prefixLength >= 0 && records != []
    ensures
      var front := DeferAll(before, records[..|records| - 1], cp, elsewhere);
      DeferAll(before, records, cp, elsewhere) ==
        if front.None? then None
        else
          var table := WithLocator(front.value, records[|records| - 1].sourceId, cp);
          if |table| > MAX_PENDING_PER_SCOPE || |table| + elsewhere > MAX_PENDING_GLOBAL then None else Some(table)
  {
    hide LocatorFor;
  }

  lemma {:induction false} DeferAllExactly(before: map<string, Locator>, records: seq<Record>, cp: Checkpoint, elsewhere: nat)
    requires cp.prefixLength >= 0
    ensures DeferAll(before, records, cp, elsewhere).Some? <==> HasRoom(before.Keys, IdsOf(records), elsewhere)
    ensures DeferAll(before, records, cp, elsewhere).Some? ==>
              Deferred(before, IdsOf(records), cp, DeferAll(before, records, cp, elsewhere).value)
  {
    if records == [] {
      NoneDeferred(before, records, cp, elsewhere);
    } else {
      var front := records[..|records| - 1];
      DeferAllExactly(before, front, cp, elsewhere);
      IdsSnoc(records);
      DeferSnoc(before, records, cp, elsewhere);
      hide *;
      if DeferAll(before, front, cp, elsewhere).Some? {
        var middle, id := DeferAll(before, front, cp, elsewhere).value, records[|records| - 1].sourceId;
        DeferOne(before, IdsOf(front), cp, middle, id);
        DeferredKeys(before, IdsOf(front), cp, middle);
        RoomForOne(before, IdsOf(front), cp, middle, id, elsewhere);
      } else if HasRoom(before.Keys, IdsOf(records), elsewhere) {
        RoomForFewer(before.Keys, IdsOf(front), IdsOf(records), elsewhere);
      }
    }
  }

  lemma DeferredKeys(before: map<string, Locator>, added: set<string>, cp: Checkpoint, after: map<string, Locator>)
    requires Deferred(before, added, cp, after)
    ensures after.Keys == before.Keys + added
  {
  }

  lemma NoneDeferred(before: map<string, Locator>, records: seq<Record>, cp: Checkpoint, elsewhere: nat)
    requires cp.prefixLength >= 0 && records == []
    ensures DeferAll(before, records, cp, elsewhere) == Some(before) && HasRoom(before.Keys, IdsOf(records), elsewhere)
    ensures Deferred(before, IdsOf(records), cp, before)
  {
    assert IdsOf(records) == {};
  }

  lemma IdsSnoc(records: seq<Record>)
    requires records != []
    ensures IdsOf(records) == IdsOf(records[..|records| - 1]) + {records[|records| - 1].sourceId}
  {
    var n := |records| - 1;
    forall id | id in IdsOf(records)
      ensures id in IdsOf(records[..n]) + {records[n].sourceId}
    {
      var i :| 0 <= i < |records| && records[i].sourceId == id;
      assert i < n ==> records[..n][i].sourceId == id;
    }
    forall id | id in IdsOf(records[..n])
      ensures id in IdsOf(records)
    {
      var i :| 0 <= i < n && records[..n][i].sourceId == id;
      assert records[i].sourceId == id;
    }
  }

  lemma {:induction false} SubsetSize(a: set<string>, b: set<string>)
    requires a <= b
    ensures |a| <= |b|
    decreases |a|
  {
    if x :| x in a {
      SubsetSize(a - {x}, b - {x});
    }
  }

  /** Everything a transaction asks for. */
  ghost predicate Committable(store: Store, expected: Option<Checkpoint>, batch: Batch, verdicts: seq<Verdict>, elsewhere: nat) {
    && |verdicts| == |batch.records| && batch.next.prefixLength >= 0
    && (forall i, j :: 0 <= i < j < |batch.records| ==> batch.records[i].sourceId != batch.records[j].sourceId)
    && (forall i :: 0 <= i < |verdicts| ==> verdicts[i] != Rejected)
    && store.checkpoint == expected
    && HasRoom(store.locators.Keys, Ids(batch.records, verdicts, ProjectNotFound), elsewhere)
  }

  /** Prepared records are captured, records without a project are deferred with a locator, each at its
      place in the order of the batch, and the checkpoint moves. */
  ghost predicate Recorded(store: Store, batch: Batch, verdicts: seq<Verdict>, after: Store,
                           captured: seq<nat>, deferred: seq<nat>)
    requires |verdicts| == |batch.records|
  {
    && store.captured <= after.captured && store.deferred <= after.deferred
    && ExactlyThose(after.captured[|store.captured|..], batch.records, verdicts, Prepared, captured)
    && ExactlyThose(after.deferred[|store.deferred|..], batch.records, verdicts, ProjectNotFound, deferred)
    && Deferred(store.locators, Ids(batch.records, verdicts, ProjectNotFound), batch.next, after.locators)
    && after.checkpoint == Some(batch.next)
  }

  lemma SelectedIds(records: seq<Record>, verdicts: seq<Verdict>, verdict: Verdict)
    requires |records| == |verdicts|
    ensures IdsOf(Selected(records, verdicts, verdict)) == Ids(records, verdicts, verdict)
  {
    var chosen := Selected(records, verdicts, verdict);
    var places := SelectedExactly(records, verdicts, verdict);
    forall id | id in Ids(records, verdicts, verdict)
      ensures id in IdsOf(chosen)
    {
      var i :| 0 <= i < |records| && verdicts[i] == verdict && records[i].sourceId == id;
      var k :| 0 <= k < |places| && places[k] == i;
      assert chosen[k].sourceId == id;
    }
    forall id | id in IdsOf(chosen)
      ensures id in Ids(records, verdicts, verdict)
    {
      var k :| 0 <= k < |chosen| && chosen[k].sourceId == id;
      assert records[places[k]].sourceId == id;
    }
  }

  /** A transaction commits exactly when everything asked for holds, and then each record goes where its
      verdict says. */
  lemma CommitByVerdict(store: Store, expected: Option<Checkpoint>, batch: Batch, verdicts: seq<Verdict>, elsewhere: nat)
    returns (captured: seq<nat>, deferred: seq<nat>)
    ensures Commit(store, expected, batch, verdicts, elsewhere).Some? <==> Committable(store, expected, batch, verdicts, elsewhere)
    ensures Commit(store, expected, batch, verdicts, elsewhere).Some? ==>
              Recorded(store, batch, verdicts, Commit(store, expected, batch, verdicts, elsewhere).value, captured, deferred)
  {
    captured, deferred := [], [];
    if |verdicts| == |batch.records| && batch.next.prefixLength >= 0 {
      captured := SelectedExactly(batch.records, verdicts, Prepared);
      deferred := SelectedExactly(batch.records, verdicts, ProjectNotFound);
      SelectedIds(batch.records, verdicts, ProjectNotFound);
      DeferAllExactly(store.locators, Selected(batch.records, verdicts, ProjectNotFound), batch.next, elsewhere);
      hide Selected, DeferAll, HasRoom, Deferred, ExactlyThose;
      var result := Commit(store, expected, batch, verdicts, elsewhere);
      if result.Some? {
        assert result.value.captured[|store.captured|..] == Selected(batch.records, verdicts, Prepared);
        assert result.value.deferred[|store.deferred|..] == Selected(batch.records, verdicts, ProjectNotFound);
      }
    }
  }

  // ---------- every interleaving ----------

  /** The records that were committed, with the verdicts they had, in order. */
  datatype History = History(records: seq<Record>, verdicts: seq<Verdict>)

  ghost function Then(a: History, b: History): History {
    History(a.records + b.records, a.verdicts + b.verdicts)
  }

  /** What one action commits. */
  ghost function CommittedBy(sys: System, action: Action): History {
    match action
    case Finish(who, verdicts, elsewhere) =>
      (match StateOfIngester(sys, who)
       case HasBatch(expected, batch) =>
         if Committable(sys.store, expected, batch, verdicts, elsewhere) then History(batch.records, verdicts)
         else History([], [])
       case _ => History([], []))
    case _ => History([], [])
  }

  ghost function Committed(p: Policy, scope: string, sys: System, actions: seq<Action>): History
    requires WellFormed(sys)
  {
    if actions == [] then History([], [])
    else
      var front := actions[..|actions| - 1];
      Then(Committed(p, scope, sys, front), CommittedBy(Execute(p, scope, sys, front), actions[|actions| - 1]))
  }

  /** The store holds what the history says: prepared records captured, records without a project
      deferred, each in order, with one locator for each deferred identifier, and nothing rejected. */
  ghost predicate Holds(store: Store, history: History, captured: seq<nat>, deferred: seq<nat>) {
    && |history.records| == |history.verdicts|
    && ExactlyThose(store.captured, history.records, history.verdicts, Prepared, captured)
    && ExactlyThose(store.deferred, history.records, history.verdicts, ProjectNotFound, deferred)
    && store.locators.Keys == Ids(history.records, history.verdicts, ProjectNotFound)
    && (forall i :: 0 <= i < |history.verdicts| ==> history.verdicts[i] != Rejected)
  }

  function Shifted(places: seq<nat>, by': nat): (r: seq<nat>)
    ensures |r| == |places| && forall k :: 0 <= k < |places| ==> r[k] == places[k] + by'
  {
    seq(|places|, k requires 0 <= k < |places| => places[k] + by')
  }

  lemma ExactlyBoth(c: seq<Record>, d: seq<Record>, a: History, b: History, verdict: Verdict, first: seq<nat>, second: seq<nat>)
    requires ExactlyThose(c, a.records, a.verdicts, verdict, first) && ExactlyThose(d, b.records, b.verdicts, verdict, second)
    ensures ExactlyThose(c + d, Then(a, b).records, Then(a, b).verdicts, verdict, first + Shifted(second, |a.records|))
  {
    RisingBoth(first, second, |a.records|);
    AllPlacesBoth(a.verdicts, b.verdicts, verdict, first, second);
    hide Rising, AllPlaces;
    var places, all := first + Shifted(second, |a.records|), Then(a, b);
    forall k | 0 <= k < |places|
      ensures places[k] < |all.records| && all.verdicts[places[k]] == verdict && (c + d)[k] == all.records[places[k]]
    {
      if k < |first| {
        assert places[k] == first[k];
      } else {
        assert places[k] == second[k - |first|] + |a.records|;
      }
    }
  }

  lemma RisingBoth(first: seq<nat>, second: seq<nat>, n: nat)
    requires Rising(first) && Rising(second) && forall k :: 0 <= k < |first| ==> first[k] < n
    ensures Rising(first + Shifted(second, n))
  {
  }

  lemma AllPlacesBoth(a: seq<Verdict>, b: seq<Verdict>, verdict: Verdict, first: seq<nat>, second: seq<nat>)
    requires AllPlaces(a, verdict, first) && AllPlaces(b, verdict, second)
    ensures AllPlaces(a + b, verdict, first + Shifted(second, |a|))
  {
    var places := first + Shifted(second, |a|);
    forall i | 0 <= i < |a + b| && (a + b)[i] == verdict
      ensures i in places
    {
      if i < |a| {
        assert i in first;
      } else {
        assert b[i - |a|] == verdict;
        var k :| 0 <= k < |second| && second[k] == i - |a|;
        assert places[|first| + k] == i;
      }
    }
  }

  lemma IdsBoth(a: History, b: History, verdict: Verdict)
    requires |a.records| == |a.verdicts| && |b.records| == |b.verdicts|
    ensures Ids(Then(a, b).records, Then(a, b).verdicts, verdict)
         == Ids(a.records, a.verdicts, verdict) + Ids(b.records, b.verdicts, verdict)
  {
    var all := Then(a, b);
    forall id | id in Ids(b.records, b.verdicts, verdict)
      ensures id in Ids(all.records, all.verdicts, verdict)
    {
      var i :| 0 <= i < |b.records| && b.verdicts[i] == verdict && b.records[i].sourceId == id;
      assert all.verdicts[|a.records| + i] == verdict && all.records[|a.records| + i].sourceId == id;
    }
    forall id | id in Ids(a.records, a.verdicts, verdict)
      ensures id in Ids(all.records, all.verdicts, verdict)
    {
      var i :| 0 <= i < |a.records| && a.verdicts[i] == verdict && a.records[i].sourceId == id;
      assert all.verdicts[i] == verdict && all.records[i].sourceId == id;
    }
    forall id | id in Ids(all.records, all.verdicts, verdict)
      ensures id in Ids(a.records, a.verdicts, verdict) + Ids(b.records, b.verdicts, verdict)
    {
      var i :| 0 <= i < |all.records| && all.verdicts[i] == verdict && all.records[i].sourceId == id;
      if i < |a.records| {
        assert a.verdicts[i] == verdict && a.records[i].sourceId == id;
      } else {
        assert b.verdicts[i - |a.records|] == verdict && b.records[i - |a.records|].sourceId == id;
      }
    }
  }

  /** A commit adds to the store what it adds to the history. */
  lemma CommitHolds(store: Store, history: History, expected: Option<Checkpoint>, batch: Batch, verdicts: seq<Verdict>,
                    elsewhere: nat, captured: seq<nat>, deferred: seq<nat>) returns (captured': seq<nat>, deferred': seq<nat>)
    requires Holds(store, history, captured, deferred) && Committable(store, expected, batch, verdicts, elsewhere)
    ensures Commit(store, expected, batch, verdicts, elsewhere).Some?
    ensures Holds(Commit(store, expected, batch, verdicts, elsewhere).value, Then(history, History(batch.records, verdicts)),
                  captured', deferred')
  {
    var c, d := CommitByVerdict(store, expected, batch, verdicts, elsewhere);
    var more := History(batch.records, verdicts);
    hide Commit, ExactlyThose, Ids, HasRoom;
    var after := Commit(store, expected, batch, verdicts, elsewhere).value;
    captured', deferred' := captured + Shifted(c, |history.records|), deferred + Shifted(d, |history.records|);
    assert after.captured == store.captured + after.captured[|store.captured|..];
    assert after.deferred == store.deferred + after.deferred[|store.deferred|..];
    ExactlyBoth(store.captured, after.captured[|store.captured|..], history, more, Prepared, captured, c);
    ExactlyBoth(store.deferred, after.deferred[|store.deferred|..], history, more, ProjectNotFound, deferred, d);
    IdsBoth(history, more, ProjectNotFound);
  }

  lemma HoldsNothingMore(store: Store, history: History, captured: seq<nat>, deferred: seq<nat>)
    requires Holds(store, history, captured, deferred)
    ensures Holds(store, Then(history, History([], [])), captured, deferred)
  {
    assert Then(history, History([], [])) == history;
  }

  lemma ApplyHolds(p: Policy, scope: string, sys: System, history: History, action: Action, captured: seq<nat>, deferred: seq<nat>)
    returns (captured': seq<nat>, deferred': seq<nat>)
    requires WellFormed(sys) && Holds(sys.store, history, captured, deferred)
    ensures Holds(Apply(p, scope, sys, action).store, Then(history, CommittedBy(sys, action)), captured', deferred')
  {
    captured', deferred' := captured, deferred;
    HoldsNothingMore(sys.store, history, captured, deferred);
    hide Holds, Commit, Committable, ReadIncremental, Then;
    if action.Finish? && StateOfIngester(sys, action.who).HasBatch? {
      var expected, batch := StateOfIngester(sys, action.who).expected, StateOfIngester(sys, action.who).batch;
      var c, d := CommitByVerdict(sys.store, expected, batch, action.verdicts, action.elsewhere);
      if Committable(sys.store, expected, batch, action.verdicts, action.elsewhere) {
        captured', deferred' := CommitHolds(sys.store, history, expected, batch, action.verdicts, action.elsewhere, captured, deferred);
      }
    }
  }

  /** Over every interleaving of appends, loads, reads, commits and failures: captured are exactly the
      committed records whose verdict was that a project is there, and deferred exactly those whose
      verdict was that there is none. */
  lemma {:induction false} HistoryByVerdict(p: Policy, scope: string, device: nat, inode: nat, actions: seq<Action>)
    returns (captured: seq<nat>, deferred: seq<nat>)
    ensures Holds(Execute(p, scope, Fresh(device, inode), actions).store, Committed(p, scope, Fresh(device, inode), actions),
                  captured, deferred)
    decreases |actions|
  {
    if actions == [] {
      captured, deferred := [], [];
      assert Ids([], [], ProjectNotFound) == {};
    } else {
      var front, last := actions[..|actions| - 1], actions[|actions| - 1];
      captured, deferred := HistoryByVerdict(p, scope, device, inode, front);
      hide Holds, Apply, CommittedBy, Then;
      captured, deferred := ApplyHolds(p, scope, Execute(p, scope, Fresh(device, inode), front),
                                       Committed(p, scope, Fresh(device, inode), front), last, captured, deferred);
    }
  }
}
