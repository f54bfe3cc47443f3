/** Importing the conversations of one archive: one transaction each, guarded by receipts, so that
    crashes, repeats and competing importers change nothing. */
module ConversationImport {
  import opened Steps
  import opened Wrappers

  type Id = string

  /** An archived conversation; a value without a usable id is skipped. */
  datatype Entry = Nameless | Conversation(id: Id, content: string)

  datatype Capture = Capture(conversation: Id, record: string)

  /** What a conversation comes to under a registry of projects. Only a receipt is left for one that
      cannot be used, and for one that was matched but states nothing. */
  datatype Plan =
    | ReceiptOnly(matched: bool)
    | Confirmation(details: string)
    | DisabledMatch
    | Captures(captures: seq<Capture>)
    | PrepareRejected

  datatype Verdict = Inserted | Duplicate | Refused

  /** Normalising, matching and extracting, as far as archive and registry decide them, and what
      the capture service says of a capture after those already stored. */
  datatype Rules<!Registry> = Rules(
    plan: (Registry, Id, string) -> Plan, judge: (seq<Capture>, Capture) -> Verdict, maxConversations: nat)

  datatype Store = Store(receipts: set<Id>, confirmations: map<Id, string>, captures: seq<Capture>)

  datatype ImportError = CaptureRejected | ReconcileRequired | UnsafeArchive

  // ---------- one conversation ----------

  /** Every capture in turn; one that is refused undoes all. */
  function StoreAll<R>(rules: Rules<R>, stored: seq<Capture>, captures: seq<Capture>): Option<seq<Capture>>
    decreases |captures|
  {
    if captures == [] then Some(stored)
    else
      match rules.judge(stored, captures[0])
      case Refused => None
      case Duplicate => StoreAll(rules, stored, captures[1..])
      case Inserted => StoreAll(rules, stored + [captures[0]], captures[1..])
  }

  /** One capture judged new is appended, one judged a duplicate of what is stored by then changes
      nothing, and none is refused. */
  ghost predicate Judged<R>(rules: Rules<R>, before: seq<Capture>, capture: Capture, after: seq<Capture>) {
    var verdict := rules.judge(before, capture);
    || (verdict == Inserted && after == before + [capture])
    || (verdict == Duplicate && after == before)
  }

  /** What was stored before and after each capture of the plan, in order. */
  ghost predicate Trail<R>(rules: Rules<R>, captures: seq<Capture>, trail: seq<seq<Capture>>) {
    && |trail| == |captures| + 1
    && forall k :: 0 <= k < |captures| ==> Judged(rules, trail[k], captures[k], trail[k + 1])
  }

  /** Storing all captures succeeds exactly along such a trail. */
  lemma {:induction false} StoredAlongTrail<R>(rules: Rules<R>, stored: seq<Capture>, captures: seq<Capture>)
    returns (trail: seq<seq<Capture>>)
    ensures StoreAll(rules, stored, captures).Some? ==>
              && Trail(rules, captures, trail) && trail[0] == stored
              && trail[|captures|] == StoreAll(rules, stored, captures).value
    decreases |captures|
  {
    trail := [stored];
    if captures != [] && rules.judge(stored, captures[0]) != Refused {
      var next := if rules.judge(stored, captures[0]) == Inserted then stored + [captures[0]] else stored;
      var rest := StoredAlongTrail(rules, next, captures[1..]);
      trail := [stored] + rest;
      if StoreAll(rules, stored, captures).Some? {
        forall k | 0 <= k < |captures|
          ensures Judged(rules, trail[k], captures[k], trail[k + 1])
        {
          if k > 0 {
            assert captures[1..][k - 1] == captures[k] && trail[k] == rest[k - 1] && trail[k + 1] == rest[k];
          }
        }
      }
    }
  }

  lemma {:induction false} TrailStores<R>(rules: Rules<R>, captures: seq<Capture>, trail: seq<seq<Capture>>)
    requires Trail(rules, captures, trail)
    ensures StoreAll(rules, trail[0], captures) == Some(trail[|captures|])
    decreases |captures|
  {
    if captures != [] {
      TrailGoesOn(rules, captures, trail);
      TrailStores(rules, captures[1..], trail[1..]);
      assert Judged(rules, trail[0], captures[0], trail[1]);
    }
  }

  lemma TrailGoesOn<R>(rules: Rules<R>, captures: seq<Capture>, trail: seq<seq<Capture>>)
    requires Trail(rules, captures, trail) && captures != []
    ensures Trail(rules, captures[1..], trail[1..])
  {
    hide Judged;
    var later, rest := captures[1..], trail[1..];
    forall k | 0 <= k < |later|
      ensures Judged(rules, rest[k], later[k], rest[k + 1])
    {
      assert rest[k] == trail[k + 1] && rest[k + 1] == trail[k + 2] && later[k] == captures[k + 1];
    }
  }

  /** The captures of the plan lead from what was stored before to what is stored after. */
  ghost predicate Leads<R>(rules: Rules<R>, before: seq<Capture>, captures: seq<Capture>, after: seq<Capture>) {
    exists trail :: Trail(rules, captures, trail) && trail[0] == before && trail[|captures|] == after
  }

  /** What an accepted import of one conversation leaves, case by case. */
  ghost predicate Leaves<R>(rules: Rules<R>, registry: R, s: Store, e: Entry, after: Store) {
    if e.Nameless? || e.id in s.receipts then after == s
    else
      match rules.plan(registry, e.id, e.content)
      case DisabledMatch => after == s
      case PrepareRejected => false
      case ReceiptOnly(_) =>
        after.receipts == s.receipts + {e.id} && after.confirmations == s.confirmations && after.captures == s.captures
      case Confirmation(details) =>
        && after.receipts == s.receipts + {e.id} && after.captures == s.captures
        && e.id in after.confirmations && after.confirmations[e.id] == details
        && (forall id :: id != e.id ==>
              (id in after.confirmations <==> id in s.confirmations)
              && (id in s.confirmations ==> after.confirmations[id] == s.confirmations[id]))
      case Captures(captures) =>
        && captures != [] && (forall c :: c in captures ==> c.conversation == e.id)
        && after.receipts == s.receipts + {e.id} && after.confirmations == s.confirmations
        && Leads(rules, s.captures, captures, after.captures)
  }

  /** An import is accepted, and leaves this store, exactly when the cases say so. */
  lemma ImportLeaves<R>(rules: Rules<R>, registry: R, s: Store, e: Entry, after: Store)
    ensures Import(rules, registry, s, e) == Ok(after) <==> Leaves(rules, registry, s, e, after)
  {
    if e.Conversation? && e.id !in s.receipts && rules.plan(registry, e.id, e.content).Captures? {
      var captures := rules.plan(registry, e.id, e.content).captures;
      var trail := StoredAlongTrail(rules, s.captures, captures);
      forall other | Trail(rules, captures, other) && other[0] == s.captures
        ensures StoreAll(rules, s.captures, captures) == Some(other[|captures|])
      {
        TrailStores(rules, captures, other);
      }
      hide StoreAll, Trail;
    } else if e.Conversation? && e.id !in s.receipts && rules.plan(registry, e.id, e.content).Confirmation? {
      var details := rules.plan(registry, e.id, e.content).details;
      if Leaves(rules, registry, s, e, after) {
        assert after.confirmations == s.confirmations[e.id := details];
      }
    }
  }

  /** A planned capture that was judged new is stored at the place it then has. */
  lemma {:induction false} TrailGrows<R>(rules: Rules<R>, captures: seq<Capture>, trail: seq<seq<Capture>>, i: nat, j: nat)
    requires Trail(rules, captures, trail) && i <= j <= |captures|
    ensures trail[i] <= trail[j]
    decreases j - i
  {
    if i < j {
      TrailGrows(rules, captures, trail, i, j - 1);
    }
  }

  /** Every planned capture is accounted for: it is stored by this import, or what was stored by then
      made it a duplicate. */
  lemma EveryCaptureAccounted<R>(rules: Rules<R>, registry: R, s: Store, e: Entry, after: Store) returns (trail: seq<seq<Capture>>)
    requires Import(rules, registry, s, e) == Ok(after) && e.Conversation? && e.id !in s.receipts
    requires rules.plan(registry, e.id, e.content).Captures?
    ensures
      var captures := rules.plan(registry, e.id, e.content).captures;
      && e.id in after.receipts
      && Trail(rules, captures, trail) && trail[0] == s.captures && trail[|captures|] == after.captures
      && forall k :: 0 <= k < |captures| ==>
           || (rules.judge(trail[k], captures[k]) == Inserted
               && |trail[k]| < |after.captures| && after.captures[|trail[k]|] == captures[k])
           || rules.judge(trail[k], captures[k]) == Duplicate
  {
    var captures := rules.plan(registry, e.id, e.content).captures;
    ImportLeaves(rules, registry, s, e, after);
    hide Import;
    trail :| Trail(rules, captures, trail) && trail[0] == s.captures && trail[|captures|] == after.captures;
    forall k | 0 <= k < |captures|
      ensures
        || (rules.judge(trail[k], captures[k]) == Inserted
            && |trail[k]| < |after.captures| && after.captures[|trail[k]|] == captures[k])
        || rules.judge(trail[k], captures[k]) == Duplicate
    {
      TrailGrows(rules, captures, trail, k + 1, |captures|);
      assert rules.judge(trail[k], captures[k]) == Inserted ==> trail[k + 1][|trail[k]|] == captures[k];
    }
  }

  predicate Bound(captures: seq<Capture>, id: Id) {
    captures != [] && forall c :: c in captures ==> c.conversation == id
  }

  /** The transaction of one conversation: all of it or nothing. */
  function Import<R>(rules: Rules<R>, registry: R, s: Store, e: Entry): Result<Store, ImportError> {
    if e.Nameless? || e.id in s.receipts then Ok(s)
    else
      match rules.plan(registry, e.id, e.content)
      case DisabledMatch => Ok(s)
      case PrepareRejected => Err(CaptureRejected)
      case ReceiptOnly(_) => Ok(s.(receipts := s.receipts + {e.id}))
      case Confirmation(details) =>
        Ok(s.(receipts := s.receipts + {e.id}, confirmations := s.confirmations[e.id := details]))
      case Captures(captures) =>
        if !Bound(captures, e.id) then Err(CaptureRejected)
        else
          var stored := StoreAll(rules, s.captures, captures);
          if stored.None? then Err(CaptureRejected)
          else Ok(s.(receipts := s.receipts + {e.id}, captures := stored.value))
  }

  /** A conversation that leaves no receipt: it has no id, or only a disabled project matches. */
  predicate LeavesNoReceipt<R>(rules: Rules<R>, registry: R, e: Entry) {
    e.Nameless? || rules.plan(registry, e.id, e.content).DisabledMatch?
  }

  // ---------- one whole run ----------

  /** The state after importing all of these, or None when one of them stops the import. */
  function Run<R>(rules: Rules<R>, registry: R, s: Store, entries: seq<Entry>): Option<Store>
    decreases |entries|
  {
    if entries == [] then Some(s)
    else
      var before := Run(rules, registry, s, entries[..|entries| - 1]);
      if before.None? then None
      else
        var r := Import(rules, registry, before.value, entries[|entries| - 1]);
        if r.Ok? then Some(r.value) else None
  }

  ghost predicate DistinctIds(entries: seq<Entry>) {
    forall i, j :: 0 <= i < j < |entries| && entries[i].Conversation? && entries[j].Conversation? ==>
      entries[i].id != entries[j].id
  }

  lemma {:induction false} StoreAllExtends<R>(rules: Rules<R>, stored: seq<Capture>, captures: seq<Capture>)
    requires StoreAll(rules, stored, captures).Some?
    decreases |captures|
    ensures stored <= StoreAll(rules, stored, captures).value
    ensures forall i :: |stored| <= i < |StoreAll(rules, stored, captures).value| ==>
              StoreAll(rules, stored, captures).value[i] in captures
  {
    if captures != [] && rules.judge(stored, captures[0]).Inserted? {
      StoreAllExtends(rules, stored + [captures[0]], captures[1..]);
    } else if captures != [] {
      StoreAllExtends(rules, stored, captures[1..]);
    }
  }

  /** What one transaction leaves: it only adds, what it adds is the conversation's own, and unless
      it leaves no receipt, the receipt is there. */
  lemma ImportAdds<R>(rules: Rules<R>, registry: R, s: Store, e: Entry)
    requires Import(rules, registry, s, e).Ok?
    ensures
      var after := Import(rules, registry, s, e).value;
      && s.receipts <= after.receipts && s.captures <= after.captures
      && (forall i :: |s.captures| <= i < |after.captures| ==>
            e.Conversation? && after.captures[i].conversation == e.id && e.id !in s.receipts)
      && (e.Conversation? ==> after.receipts <= s.receipts + {e.id})
      && (LeavesNoReceipt(rules, registry, e) ==> after == s)
      && (!LeavesNoReceipt(rules, registry, e) ==> e.id in after.receipts)
  {
    if e.Conversation? && e.id !in s.receipts {
      match rules.plan(registry, e.id, e.content)
      case Captures(captures) => StoreAllExtends(rules, s.captures, captures);
      case _ =>
    }
  }

  lemma {:induction false} RunPrefix<R>(rules: Rules<R>, registry: R, s: Store, entries: seq<Entry>, n: nat)
    requires n <= |entries| && Run(rules, registry, s, entries).Some?
    ensures Run(rules, registry, s, entries[..n]).Some?
    ensures Run(rules, registry, s, entries[..n]).value.receipts <= Run(rules, registry, s, entries).value.receipts
    ensures Run(rules, registry, s, entries[..n]).value.captures <= Run(rules, registry, s, entries).value.captures
    decreases |entries|
  {
    hide Import;
    if n == |entries| {
      assert entries[..n] == entries;
    } else {
      var last := |entries| - 1;
      assert entries[..last][..n] == entries[..n];
      RunPrefix(rules, registry, s, entries[..last], n);
      ImportAdds(rules, registry, Run(rules, registry, s, entries[..last]).value, entries[last]);
    }
  }

  /** Over a whole run: the captures planned for a conversation that had no receipt when it was reached
      are all in the end, each stored where it was judged new, or a duplicate of what was stored by then. */
  lemma RunAccountsForCaptures<R>(rules: Rules<R>, registry: R, s: Store, entries: seq<Entry>, p: nat)
    returns (trail: seq<seq<Capture>>)
    requires p < |entries| && Run(rules, registry, s, entries).Some? && entries[p].Conversation?
    requires rules.plan(registry, entries[p].id, entries[p].content).Captures?
    ensures Run(rules, registry, s, entries[..p]).Some?
    ensures
      var before, after := Run(rules, registry, s, entries[..p]).value, Run(rules, registry, s, entries).value;
      var captures := rules.plan(registry, entries[p].id, entries[p].content).captures;
      entries[p].id !in before.receipts ==>
        && entries[p].id in after.receipts && Trail(rules, captures, trail) && trail[0] == before.captures
        && forall k :: 0 <= k < |captures| ==>
             || (rules.judge(trail[k], captures[k]) == Inserted
                 && |trail[k]| < |after.captures| && after.captures[|trail[k]|] == captures[k])
             || rules.judge(trail[k], captures[k]) == Duplicate
  {
    RunPrefix(rules, registry, s, entries, p);
    RunPrefix(rules, registry, s, entries, p + 1);
    assert entries[..p + 1][..p] == entries[..p] && entries[..p + 1][p] == entries[p];
    hide Import, Trail;
    var before := Run(rules, registry, s, entries[..p]).value;
    trail := [];
    if entries[p].id !in before.receipts {
      trail := EveryCaptureAccounted(rules, registry, before, entries[p], Run(rules, registry, s, entries[..p + 1]).value);
    }
  }

  /** After a run over some entries, importing one of them again changes nothing. */
  lemma ImportedAgain<R>(rules: Rules<R>, registry: R, s: Store, entries: seq<Entry>, p: nat)
    requires p < |entries| && Run(rules, registry, s, entries).Some?
    ensures
      var after := Run(rules, registry, s, entries).value;
      Import(rules, registry, after, entries[p]) == Ok(after)
  {
    RunPrefix(rules, registry, s, entries, p + 1);
    assert entries[..p + 1][..p] == entries[..p] && entries[..p + 1][p] == entries[p];
    hide Import;
    var before := Run(rules, registry, s, entries[..p]);
    ImportAdds(rules, registry, before.value, entries[p]);
    AgainIsNothing(rules, registry, Run(rules, registry, s, entries).value, entries[p]);
  }

  lemma AgainIsNothing<R>(rules: Rules<R>, registry: R, s: Store, e: Entry)
    requires LeavesNoReceipt(rules, registry, e) || e.id in s.receipts
    ensures Import(rules, registry, s, e) == Ok(s)
  {
  }

  /** Stopping after any conversation and running the whole archive again is one uninterrupted run. */
  lemma {:induction false} ResumedRun<R>(rules: Rules<R>, registry: R, s: Store, entries: seq<Entry>, n: nat, m: nat)
    requires n <= |entries| && m <= |entries| && Run(rules, registry, s, entries[..n]).Some?
    ensures
      var crashed := Run(rules, registry, s, entries[..n]).value;
      Run(rules, registry, crashed, entries[..m]) ==
        if m <= n then Some(crashed) else Run(rules, registry, s, entries[..m])
    decreases m
  {
    hide Import;
    var crashed := Run(rules, registry, s, entries[..n]).value;
    if m > 0 {
      ResumedRun(rules, registry, s, entries, n, m - 1);
      assert entries[..m][..m - 1] == entries[..m - 1] && entries[..m][m - 1] == entries[m - 1];
      if m <= n {
        assert entries[..n][m - 1] == entries[m - 1];
        ImportedAgain(rules, registry, s, entries[..n], m - 1);
      } else if m - 1 == n {
        assert entries[..n] == entries[..m - 1];
      }
    }
  }

  /** A second full run changes nothing. */
  lemma SecondRunChangesNothing<R>(rules: Rules<R>, registry: R, s: Store, entries: seq<Entry>)
    requires Run(rules, registry, s, entries).Some?
    ensures Run(rules, registry, Run(rules, registry, s, entries).value, entries) == Run(rules, registry, s, entries)
  {
    assert entries[..|entries|] == entries;
    hide Run;
    ResumedRun(rules, registry, s, entries, |entries|, |entries|);
  }

  /** A later run under another registry captures only conversations that the first run left
      without a receipt. */
  lemma {:induction false} LaterRunCapturesOnlyLeftOver<R>(rules: Rules<R>, first: R, second: R, s: Store,
                                                          entries: seq<Entry>, n: nat)
    requires n <= |entries| && Run(rules, first, s, entries).Some?
    requires Run(rules, second, Run(rules, first, s, entries).value, entries[..n]).Some?
    ensures
      var before := Run(rules, first, s, entries).value;
      var after := Run(rules, second, before, entries[..n]).value;
      && before.captures <= after.captures && before.receipts <= after.receipts
      && forall i :: |before.captures| <= i < |after.captures| ==>
           LeftOver(rules, first, entries, after.captures[i].conversation)
    decreases n
  {
    hide Import;
    var before := Run(rules, first, s, entries).value;
    if n > 0 {
      assert entries[..n][..n - 1] == entries[..n - 1] && entries[..n][n - 1] == entries[n - 1];
      LaterRunCapturesOnlyLeftOver(rules, first, second, s, entries, n - 1);
      var middle := Run(rules, second, before, entries[..n - 1]).value;
      var e := entries[n - 1];
      ImportAdds(rules, second, middle, e);
      var after := Run(rules, second, before, entries[..n]).value;
      forall i | |before.captures| <= i < |after.captures|
        ensures LeftOver(rules, first, entries, after.captures[i].conversation)
      {
        if i >= |middle.captures| {
          RunLeavesReceipt(rules, first, s, entries, n - 1);
          assert e in entries;
        }
      }
    }
  }

  /** Some conversation of this id was left without a receipt. */
  ghost predicate LeftOver<R>(rules: Rules<R>, registry: R, entries: seq<Entry>, id: Id) {
    exists e :: e in entries && e.Conversation? && e.id == id && LeavesNoReceipt(rules, registry, e)
  }

  lemma RunLeavesReceipt<R>(rules: Rules<R>, registry: R, s: Store, entries: seq<Entry>, p: nat)
    requires p < |entries| && Run(rules, registry, s, entries).Some?
    ensures LeavesNoReceipt(rules, registry, entries[p]) || entries[p].id in Run(rules, registry, s, entries).value.receipts
  {
    RunPrefix(rules, registry, s, entries, p + 1);
    assert entries[..p + 1][..p] == entries[..p] && entries[..p + 1][p] == entries[p];
    hide Import;
    ImportAdds(rules, registry, Run(rules, registry, s, entries[..p]).value, entries[p]);
  }

  // ---------- competing importers ----------

  /** An importer of the archive: the next conversation it will import, or stopped for good. */
  datatype Importer = Running(position: nat) | Stopped

  datatype System = System(store: Store, importers: seq<Importer>)

  datatype Action = Begin | Advance(importer: nat) | Crash(importer: nat)

  function Apply<R>(rules: Rules<R>, registry: R, all: seq<Entry>, sys: System, action: Action): System {
    match action
    case Begin => sys.(importers := sys.importers + [Running(0)])
    case Advance(i) =>
      if i < |sys.importers| && sys.importers[i].Running? && sys.importers[i].position < |all| then
        var position := sys.importers[i].position;
        match Import(rules, registry, sys.store, all[position])
        case Ok(store) => System(store, sys.importers[i := Running(position + 1)])
        case Err(_) => sys.(importers := sys.importers[i := Stopped])
      else sys
    case Crash(i) => if i < |sys.importers| then sys.(importers := sys.importers[i := Stopped]) else sys
  }

  function Execute<R>(rules: Rules<R>, registry: R, all: seq<Entry>, sys: System, actions: seq<Action>): System
    decreases |actions|
  {
    if actions == [] then sys
    else Apply(rules, registry, all, Execute(rules, registry, all, sys, actions[..|actions| - 1]), actions[|actions| - 1])
  }

  /** The store is that of one run over the first m conversations, and no importer is past them. */
  ghost predicate Reaches<R>(rules: Rules<R>, registry: R, s: Store, all: seq<Entry>, sys: System, m: nat) {
    && m <= |all| && Run(rules, registry, s, all[..m]) == Some(sys.store)
    && forall i :: 0 <= i < |sys.importers| && sys.importers[i].Running? ==> sys.importers[i].position <= m
  }

  lemma AdvanceKeeps<R>(rules: Rules<R>, registry: R, s: Store, all: seq<Entry>, sys: System, m: nat, i: nat)
    returns (next: nat)
    requires Reaches(rules, registry, s, all, sys, m)
    ensures next >= m && Reaches(rules, registry, s, all, Apply(rules, registry, all, sys, Advance(i)), next)
  {
    hide Import;
    next := m;
    if i < |sys.importers| && sys.importers[i].Running? && sys.importers[i].position < |all| {
      var position := sys.importers[i].position;
      if position < m {
        assert all[..m][position] == all[position];
        ImportedAgain(rules, registry, s, all[..m], position);
      } else {
        assert all[..m + 1][..m] == all[..m] && all[..m + 1][m] == all[m];
        if Import(rules, registry, sys.store, all[m]).Ok? {
          next := m + 1;
        }
      }
    }
  }

  /** However importers of one archive begin, take turns and crash, the store is always that of one
      uninterrupted run over a prefix; an importer that got to the end leaves the whole run. */
  lemma {:induction false} CompetingImportsAreOneRun<R>(rules: Rules<R>, registry: R, s: Store, all: seq<Entry>,
                                                       actions: seq<Action>)
    returns (m: nat)
    ensures
      var sys := Execute(rules, registry, all, System(s, []), actions);
      && Reaches(rules, registry, s, all, sys, m)
      && forall i :: 0 <= i < |sys.importers| && sys.importers[i] == Running(|all|) ==>
           Run(rules, registry, s, all) == Some(sys.store)
    decreases |actions|
  {
    hide Import;
    if actions == [] {
      m := 0;
      assert all[..0] == [];
    } else {
      var before := Execute(rules, registry, all, System(s, []), actions[..|actions| - 1]);
      m := CompetingImportsAreOneRun(rules, registry, s, all, actions[..|actions| - 1]);
      match actions[|actions| - 1] {
        case Begin =>
        case Advance(i) =>
          hide Apply, Run;
          m := AdvanceKeeps(rules, registry, s, all, before, m, i);
        case Crash(i) =>
      }
    }
    assert m == |all| ==> all[..m] == all;
  }

  /** A run that stops at one conversation does not get through. */
  lemma StoppedRun<R>(rules: Rules<R>, registry: R, s: Store, entries: seq<Entry>, k: nat)
    requires k < |entries|
    ensures Run(rules, registry, s, entries[..k]).Some?
            && Import(rules, registry, Run(rules, registry, s, entries[..k]).value, entries[k]).Err? ==>
              Run(rules, registry, s, entries).None?
  {
    hide Import;
    assert entries[..k + 1][..k] == entries[..k] && entries[..k + 1][k] == entries[k];
    if Run(rules, registry, s, entries).Some? {
      RunPrefix(rules, registry, s, entries, k + 1);
    }
  }

  // ---------- the importer ----------

  /** The registry stays as it is. */
  ghost predicate Steady(changes: seq<bool>) {
    forall i :: 0 <= i < |changes| ==> !changes[i]
  }

  /** A dry run has nothing against this conversation. */
  predicate Plannable<R>(rules: Rules<R>, registry: R, s: Store, e: Entry) {
    || e.Nameless? || e.id in s.receipts
    || match rules.plan(registry, e.id, e.content)
       case PrepareRejected => false
       case Captures(captures) => Bound(captures, e.id)
       case _ => true
  }

  /** What a transaction did: nothing, as the receipt was there, or its work; nothing was new in that if
      there were captures and all were duplicates. */
  datatype Commit = AlreadyImported | Imported(nothingNew: bool)

  predicate NothingNew<R>(rules: Rules<R>, stored: seq<Capture>, captures: seq<Capture>) {
    captures != [] && forall k :: 0 <= k < |captures| ==> rules.judge(stored, captures[k]) == Duplicate
  }

  /** The conversation counts as a duplicate: it has its receipt, or, when it is really imported, all of
      its captures were stored before. */
  predicate Repeats<R>(rules: Rules<R>, registry: R, s: Store, e: Entry, dryRun: bool) {
    && e.Conversation?
    && (e.id in s.receipts
        || (!dryRun
            && var plan := rules.plan(registry, e.id, e.content);
            plan.Captures? && NothingNew(rules, s.captures, plan.captures)))
  }

  /** How often an import of this conversation asks whether the registry is still the same, if it never
      changed. */
  function Questions<R>(rules: Rules<R>, registry: R, s: Store, e: Entry, dryRun: bool): nat {
    if e.Nameless? || e.id in s.receipts then 0
    else
      match rules.plan(registry, e.id, e.content)
      case DisabledMatch => 0
      case ReceiptOnly(matched) => (if matched then 1 else 0) + (if dryRun then 0 else 2)
      case Confirmation(_) => if dryRun then 0 else 2
      case PrepareRejected => 2
      case Captures(captures) => if dryRun || !Bound(captures, e.id) then 1 else 4
  }

  /** The store that the next conversation finds. */
  ghost function Found<R>(rules: Rules<R>, registry: R, s: Store, entries: seq<Entry>, dryRun: bool): Store {
    var r := Run(rules, registry, s, entries);
    if dryRun || r.None? then s else r.value
  }

  /** How many of these count as duplicates, each by the store it finds. */
  ghost function Duplicates<R>(rules: Rules<R>, registry: R, s: Store, entries: seq<Entry>, dryRun: bool): nat
    decreases |entries|
  {
    if entries == [] then 0
    else
      var front := entries[..|entries| - 1];
      Duplicates(rules, registry, s, front, dryRun)
      + if Repeats(rules, registry, Found(rules, registry, s, front, dryRun), entries[|entries| - 1], dryRun) then 1 else 0
  }

  /** How often an import of all of these asks whether the registry changed, if it never does. */
  ghost function Asked<R>(rules: Rules<R>, registry: R, s: Store, entries: seq<Entry>, dryRun: bool): nat
    decreases |entries|
  {
    if entries == [] then 0
    else
      var front := entries[..|entries| - 1];
      Asked(rules, registry, s, front, dryRun)
      + Questions(rules, registry, Found(rules, registry, s, front, dryRun), entries[|entries| - 1], dryRun)
  }

  lemma RunOn<R>(rules: Rules<R>, registry: R, s: Store, entries: seq<Entry>, k: nat, after: Store, dryRun: bool)
    requires k < |entries|
    requires !dryRun ==>
               && Run(rules, registry, s, entries[..k]).Some?
               && Import(rules, registry, Run(rules, registry, s, entries[..k]).value, entries[k]) == Ok(after)
    ensures !dryRun ==> Run(rules, registry, s, entries[..k + 1]) == Some(after)
    ensures
      var found := Found(rules, registry, s, entries[..k], dryRun);
      && Duplicates(rules, registry, s, entries[..k + 1], dryRun)
         == Duplicates(rules, registry, s, entries[..k], dryRun)
            + (if Repeats(rules, registry, found, entries[k], dryRun) then 1 else 0)
      && Asked(rules, registry, s, entries[..k + 1], dryRun)
         == Asked(rules, registry, s, entries[..k], dryRun) + Questions(rules, registry, found, entries[k], dryRun)
      && (if dryRun then found == s else Some(found) == Run(rules, registry, s, entries[..k]))
  {
    hide Import, Repeats, Questions;
    assert entries[..k + 1][..k] == entries[..k] && entries[..k + 1][k] == entries[k];
  }

  lemma RunOfNone<R>(rules: Rules<R>, registry: R, s: Store)
    ensures Run(rules, registry, s, []) == Some(s)
  {
  }

  lemma NothingStored<R>(rules: Rules<R>, stored: seq<Capture>)
    ensures StoreAll(rules, stored, []) == Some(stored)
  {
  }

  // ---------- answers about the registry ----------

  lemma NothingFailed(changes: seq<bool>)
    ensures !LastFailed(changes, changes)
  {
  }

  lemma TakenNotFailed(before: seq<bool>, now: seq<bool>, n: nat)
    requires Taken(before, now, n)
    ensures !LastFailed(before, now)
  {
    if |now| < |before| {
      assert !Flag(before, |before| - |now| - 1);
    }
  }

  lemma AskedAgain(a: seq<bool>, b: seq<bool>, c: seq<bool>, n: nat, changed: bool)
    requires Taken(a, b, n) && (if changed then LastFailed(b, c) else Taken(b, c, 1))
    ensures if changed then LastFailed(a, c) else Taken(a, c, n + 1) && !LastFailed(a, c)
  {
    hide Taken, LastFailed;
    if changed {
      FailedLater(a, b, c, n);
    } else {
      TakenMore(a, b, c, n, 1);
      TakenNotFailed(a, c, n + 1);
    }
  }

  /** After answers that told of no change, the last answer is as it is in what came after them. */
  lemma FailsAsBefore(a: seq<bool>, b: seq<bool>, c: seq<bool>, n: nat)
    requires Taken(a, b, n) && |c| <= |b|
    ensures LastFailed(a, c) <==> LastFailed(b, c)
  {
    if |c| == |b| {
      TakenNotFailed(a, b, n);
    }
  }

  lemma CommitAsked(a: seq<bool>, b: seq<bool>, c: seq<bool>, n: nat, commit: Result<Commit, ImportError>)
    requires Taken(a, b, n) && |c| <= |b|
    requires commit == Err(ReconcileRequired) <==> LastFailed(b, c)
    requires commit.Ok? && commit.value.Imported? ==> Taken(b, c, 2)
    ensures commit == Err(ReconcileRequired) <==> LastFailed(a, c)
    ensures commit.Ok? && commit.value.Imported? ==> Taken(a, c, n + 2)
  {
    FailsAsBefore(a, b, c, n);
    hide Taken, LastFailed;
    if commit.Ok? && commit.value.Imported? {
      TakenMore(a, b, c, n, 2);
    }
  }

  class Database<!R> {
    const rules: Rules<R>
    var store: Store
    /** For each coming check: did the registry change? */
    var changes: seq<bool>

    constructor (rules: Rules<R>, store: Store, changes: seq<bool>)
      ensures this.rules == rules && this.store == store && this.changes == changes
    {
      this.rules, this.store, this.changes := rules, store, changes;
    }

    /** Asks the registry once: the next of the coming answers, and no change when there is none. */
    method RegistryChanged() returns (changed: bool)
      modifies this`changes
      ensures changed <==> Flag(old(changes), 0)
      ensures changes == After(old(changes), 1)
      ensures |changes| <= |old(changes)|
      ensures if changed then LastFailed(old(changes), changes) else Taken(old(changes), changes, 1)
      ensures Steady(old(changes)) ==> Steady(changes) && !changed
    {
      changed := false;
      if changes != [] {
        changed := changes[0];
        changes := changes[1..];
      }
    }

    /** The receipt, the captures and the confirmation in one transaction, checked on both sides. */
    method CommitConversation(id: Id, confirmation: Option<string>, captures: seq<Capture>)
      returns (r: Result<Commit, ImportError>)
      modifies this`store, this`changes
      ensures |changes| <= |old(changes)|
      ensures r == Ok(AlreadyImported) <==> id in old(store).receipts
      ensures r == Ok(AlreadyImported) ==> store == old(store) && changes == old(changes)
      ensures r == Err(ReconcileRequired) <==> LastFailed(old(changes), changes)
      ensures r == Err(CaptureRejected) ==>
                StoreAll(rules, old(store).captures, captures).None? && Taken(old(changes), changes, 1)
      ensures r.Err? ==> store == old(store) && r.error in {ReconcileRequired, CaptureRejected}
      ensures r.Ok? && r.value.Imported? ==>
                && Taken(old(changes), changes, 2)
                && StoreAll(rules, old(store).captures, captures).Some?
                && store == Store(old(store).receipts + {id},
                                  if confirmation.Some? then old(store).confirmations[id := confirmation.value]
                                  else old(store).confirmations,
                                  StoreAll(rules, old(store).captures, captures).value)
                && (r.value.nothingNew <==> NothingNew(rules, old(store).captures, captures))
      ensures Steady(old(changes)) ==> Steady(changes) && r != Err(ReconcileRequired)
    {
      hide Taken, LastFailed, Flag, After, Steady;
      ghost var start := changes;
      NoneTaken(changes);
      NothingFailed(changes);
      var saved := store;
      if id in store.receipts {
        return Ok(AlreadyImported);
      }
      var changed := RegistryChanged();
      if changed {
        return Err(ReconcileRequired);
      }
      TakenNotFailed(start, changes, 1);
      ghost var asked := changes;
      var stored, nothingNew := store.captures, captures != [];
      for k := 0 to |captures|
        invariant store == saved && StoreAll(rules, saved.captures, captures) == StoreAll(rules, stored, captures[k..])
        invariant nothingNew <==> captures != [] && forall j :: 0 <= j < k ==> rules.judge(saved.captures, captures[j]) == Duplicate
        invariant nothingNew ==> stored == saved.captures
      {
        assert captures[k..][0] == captures[k] && captures[k..][1..] == captures[k + 1..];
        var verdict := rules.judge(stored, captures[k]);
        if verdict.Refused? {
          return Err(CaptureRejected);
        }
        if verdict.Inserted? {
          stored := stored + [captures[k]];
        }
        nothingNew := nothingNew && verdict.Duplicate?;
      }
      store := Store(store.receipts + {id},
                     if confirmation.Some? then store.confirmations[id := confirmation.value] else store.confirmations,
                     stored);
      changed := RegistryChanged();
      if changed {
        FailedLater(start, asked, changes, 1);
        store := saved;
        return Err(ReconcileRequired);
      }
      TakenMore(start, asked, changes, 1, 1);
      TakenNotFailed(start, changes, 2);
      r := Ok(Imported(nothingNew));
    }

    /** One conversation of the loop: does it count as a duplicate? A dry run writes nothing. */
    method ImportOne(registry: R, e: Entry, dryRun: bool) returns (r: Result<bool, ImportError>)
      modifies this`store, this`changes
      ensures |changes| <= |old(changes)| && (dryRun || r.Err? ==> store == old(store))
      ensures r.Err? ==> r.error in {ReconcileRequired, CaptureRejected}
      ensures r.Ok? ==>
                && r.value == Repeats(rules, registry, old(store), e, dryRun)
                && Taken(old(changes), changes, Questions(rules, registry, old(store), e, dryRun))
      ensures r == Err(ReconcileRequired) <==> LastFailed(old(changes), changes)
      ensures !dryRun && r.Ok? ==> Import(rules, registry, old(store), e) == Ok(store)
      ensures !dryRun && r == Err(CaptureRejected) ==> Import(rules, registry, old(store), e).Err?
      ensures dryRun && r.Ok? ==> Plannable(rules, registry, old(store), e)
      ensures dryRun && r == Err(CaptureRejected) ==> !Plannable(rules, registry, old(store), e)
      ensures Steady(old(changes)) ==> Steady(changes) && r != Err(ReconcileRequired)
    {
      hide Taken, LastFailed, Flag, After, Steady, StoreAll;
      ghost var start := changes;
      NoneTaken(changes);
      NothingFailed(changes);
      if e.Nameless? {
        return Ok(false);
      }
      if e.id in store.receipts {
        return Ok(true);
      }
      var plan := rules.plan(registry, e.id, e.content);
      if plan.DisabledMatch? || (plan.Confirmation? && dryRun) {
        return Ok(false);
      }
      var captures := if plan.Captures? then plan.captures else [];
      ghost var asked := 0;
      if plan.Captures? || plan.PrepareRejected? || (plan.ReceiptOnly? && plan.matched) {
        var changed := RegistryChanged();
        if changed {
          return Err(ReconcileRequired);
        }
        TakenNotFailed(start, changes, 1);
        asked := 1;
      }
      if plan.Captures? && (captures == [] || exists c :: c in captures && c.conversation != e.id) {
        return Err(CaptureRejected);
      }
      if dryRun && !plan.PrepareRejected? {
        return Ok(false);
      }
      if plan.Captures? || plan.PrepareRejected? {
        ghost var before := changes;
        var changed := RegistryChanged();
        AskedAgain(start, before, changes, 1, changed);
        if changed {
          return Err(ReconcileRequired);
        }
        asked := 2;
        if plan.PrepareRejected? {
          return Err(CaptureRejected);
        }
      }
      ghost var before := changes;
      var details := if plan.Confirmation? then Some(plan.details) else None;
      var commit := CommitConversation(e.id, details, captures);
      CommitAsked(start, before, changes, asked, commit);
      NothingStored(rules, old(store).captures);
      if commit.Err? {
        return Err(commit.error);
      }
      r := Ok(commit.value.AlreadyImported? || commit.value.nothingNew);
    }

    /** Import the archive in order. What is stored in the end is one run over the conversations
        that were reached. */
    method ImportZip(registry: R, entries: seq<Entry>, dryRun: bool)
      returns (r: Result<nat, ImportError>, ghost reached: nat)
      modifies this`store, this`changes
      ensures reached <= |entries|
      ensures dryRun ==> store == old(store)
      ensures !dryRun ==> Run(rules, registry, old(store), entries[..reached]) == Some(store)
      ensures r.Ok? ==>
                && reached == |entries| && r.value == Duplicates(rules, registry, old(store), entries, dryRun)
                && Taken(old(changes), changes, Asked(rules, registry, old(store), entries, dryRun) + 1)
      ensures r == Err(ReconcileRequired) <==> LastFailed(old(changes), changes)
      ensures r == Err(UnsafeArchive) <==> (|entries| > rules.maxConversations || !DistinctIds(entries))
      ensures r == Err(UnsafeArchive) ==> store == old(store)
      ensures r == Err(CaptureRejected) ==>
                && reached < |entries|
                && if dryRun then !Plannable(rules, registry, store, entries[reached])
                   else Import(rules, registry, store, entries[reached]).Err?
      ensures Steady(old(changes)) ==> r != Err(ReconcileRequired)
      ensures Steady(old(changes)) && !dryRun && r != Err(UnsafeArchive) ==>
                && (r.Ok? <==> Run(rules, registry, old(store), entries).Some?)
                && (r.Ok? ==> Run(rules, registry, old(store), entries) == Some(store))
      ensures Steady(old(changes)) && dryRun && r != Err(UnsafeArchive) ==>
                (r.Ok? <==> forall e :: e in entries ==> Plannable(rules, registry, store, e))
    {
      RunOfNone(rules, registry, store);
      hide Import, Plannable, Repeats, Questions, Taken, LastFailed, Flag, After, Steady, Run;
      reached := 0;
      ghost var start := changes;
      NoneTaken(changes);
      NothingFailed(changes);
      assert entries[..0] == [];
      var safe := Preflight(entries);
      if !safe {
        return Err(UnsafeArchive), 0;
      }
      var duplicates := 0;
      for k := 0 to |entries|
        invariant reached == k && duplicates == Duplicates(rules, registry, old(store), entries[..k], dryRun)
        invariant Taken(start, changes, Asked(rules, registry, old(store), entries[..k], dryRun))
        invariant dryRun ==> store == old(store)
        invariant !dryRun ==> Run(rules, registry, old(store), entries[..k]) == Some(store)
        invariant dryRun ==> forall i :: 0 <= i < k ==> Plannable(rules, registry, store, entries[i])
        invariant Steady(old(changes)) ==> Steady(changes)
      {
        assert entries[..k + 1][..k] == entries[..k] && entries[..k + 1][k] == entries[k];
        ghost var left' := store;
        ghost var left, so := changes, Asked(rules, registry, old(store), entries[..k], dryRun);
        var one := ImportOne(registry, entries[k], dryRun);
        FailsAsBefore(start, left, changes, so);
        if one.Err? {
          StoppedRun(rules, registry, old(store), entries, k);
          return Err(one.error), reached;
        }
        RunOn(rules, registry, old(store), entries, k, store, dryRun);
        TakenMore(start, left, changes, so, Questions(rules, registry, left', entries[k], dryRun));
        if one.value {
          duplicates := duplicates + 1;
        }
        reached := k + 1;
      }
      assert entries[..|entries|] == entries;
      ghost var left := changes;
      var changed := RegistryChanged();
      AskedAgain(start, left, changes, Asked(rules, registry, old(store), entries, dryRun), changed);
      if changed {
        return Err(ReconcileRequired), reached;
      }
      r := Ok(duplicates);
    }

    /** Are there few enough conversations, and no id twice? */
    method Preflight(entries: seq<Entry>) returns (safe: bool)
      ensures safe <==> (|entries| <= rules.maxConversations && DistinctIds(entries))
    {
      if |entries| > rules.maxConversations {
        return false;
      }
      var ids: set<Id> := {};
      for k := 0 to |entries|
        invariant ids == set i | 0 <= i < k && entries[i].Conversation? :: entries[i].id
        invariant DistinctIds(entries[..k])
      {
        if entries[k].Conversation? {
          if entries[k].id in ids {
            var i :| 0 <= i < k && entries[i].Conversation? && entries[i].id == entries[k].id;
            assert !DistinctIds(entries);
            return false;
          }
          ids := ids + {entries[k].id};
        }
      }
      assert entries[..|entries|] == entries;
      safe := true;
    }
  }
}
