/** Saving a checkpoint sorts the contexts dictionary; the only operation that looks at its
    order is the eviction of the oldest entry. States that differ only in that order behave
    alike until an eviction happens. */
module DictOrder {
  import opened Wrappers
  import opened ByteLines
  import opened CodexTypes
  import opened ContextDict
  import opened Lifecycle

  ghost predicate Similar(a: State, b: State) {
    && a.session == b.session && a.metaId == b.metaId && a.discarding == b.discarding
    && Distinct(a.contexts) && Distinct(b.contexts)
    && Permutation(a.contexts, b.contexts)
  }

  ghost predicate Alike(a: Outcome, b: Outcome) {
    Similar(a.state, b.state) && a.records == b.records && a.warnings == b.warnings
  }

  /** The event opens a new turn while the dictionary is full. */
  predicate Evicts(p: Policy, st: State, event: Event) {
    && event.TurnStart? && event.turnId.Some? && event.declaration.Declared?
    && st.session != "" && !Has(st.contexts, event.turnId.value)
    && |st.contexts| >= p.maxRecords
  }

  ghost predicate NoEviction(p: Policy, start: State, events: seq<Event>)
    requires Distinct(start.contexts)
  {
    forall k :: 0 <= k < |events| ==> !Evicts(p, RunEvents(p, start, events[..k]).state, events[k])
  }

  // ---------- one step ----------

  lemma BlockTurnAlike(p: Policy, a: State, b: State, turn: string, reasons: multiset<Warning>)
    requires Similar(a, b)
    ensures Alike(BlockTurn(p, a, turn, reasons), BlockTurn(p, b, turn, reasons))
  {
    hide Put, Distinct, JsonSize, Permutation;
    PermutationPut(a.contexts, b.contexts, turn, Blocked(a.session));
    PermutationSize(p, Put(a.contexts, turn, Blocked(a.session)), Put(b.contexts, turn, Blocked(a.session)));
    SamePermutation([]);
  }

  lemma SamePermutation(d: Dict)
    requires Distinct(d)
    ensures Permutation(d, d)
  {
  }

  lemma EndTurnAlike(p: Policy, a: State, b: State, turn: string, completion: Completion)
    requires Similar(a, b)
    ensures Alike(EndTurn(p, a, turn, completion), EndTurn(p, b, turn, completion))
  {
    hide Pop, Distinct, Permutation, Has, Get, Finish;
    PermutationPop(a.contexts, b.contexts, turn);
    PermutationLookup(a.contexts, b.contexts, turn);
  }

  lemma OpenTurnAlike(p: Policy, a: State, b: State, turn: string, context: Context)
    requires Similar(a, b) && !Has(a.contexts, turn) && !Has(b.contexts, turn)
    requires |a.contexts| < p.maxRecords
    ensures Alike(OpenTurn(p, a, turn, context), OpenTurn(p, b, turn, context))
  {
    hide Put, Distinct, JsonSize, Permutation, Has;
    PermutationMembers(a.contexts, b.contexts);
    PermutationPut(a.contexts, b.contexts, turn, context);
    PermutationSize(p, Put(a.contexts, turn, context), Put(b.contexts, turn, context));
    SamePermutation([]);
  }

  lemma InvalidateAlike(a: State, b: State, reasons: multiset<Warning>)
    requires Similar(a, b)
    ensures Alike(Invalidate(a, reasons), Invalidate(b, reasons))
  {
    hide Distinct, Permutation;
    SamePermutation([]);
  }

  lemma StartSessionAlike(a: State, b: State, session: string, metaId: Option<string>)
    requires Similar(a, b)
    ensures Alike(StartSession(a, session, metaId), StartSession(b, session, metaId))
  {
    hide Distinct, Permutation;
    SamePermutation([]);
  }

  lemma StartTurnAlike(p: Policy, a: State, b: State, turn: string, declaration: Declaration)
    requires Similar(a, b) && a.session != "" && !Evicts(p, a, TurnStart(Some(turn), declaration))
    ensures Alike(StartTurn(p, a, turn, declaration), StartTurn(p, b, turn, declaration))
  {
    hide Distinct, Permutation, Has, Get, OpenTurn, BlockTurn, Invalidate;
    PermutationLookup(a.contexts, b.contexts, turn);
    match declaration
    case NotUnicode =>
      InvalidateAlike(a, b, multiset{InvalidUnicode});
    case Unusable(reason) =>
      BlockTurnAlike(p, a, b, turn, multiset{reason});
    case Declared(cwd, model) =>
      if Has(a.contexts, turn) {
        BlockTurnAlike(p, a, b, turn, multiset{AmbiguousTurn});
      } else {
        OpenTurnAlike(p, a, b, turn, Context(false, cwd, model, a.session));
      }
  }

  lemma StepAlike(p: Policy, a: State, b: State, event: Event)
    requires Similar(a, b) && !Evicts(p, a, event)
    ensures Alike(Step(p, a, event), Step(p, b, event))
  {
    hide Distinct, Permutation, Evicts, Invalidate, StartSession, StartTurn, EndTurn;
    match event
    case Skip(_) =>
    case Poison(reason) =>
      InvalidateAlike(a, b, multiset{reason});
    case SessionStart(session, metaId) =>
      StartSessionAlike(a, b, session, metaId);
    case TurnEnd(turn, completion) =>
      EndTurnAlike(p, a, b, turn, completion);
    case TurnStart(turnId, declaration) =>
      if a.session != "" {
        if turnId.None? {
          InvalidateAlike(a, b, multiset{UnsafeIdentifier});
        } else {
          StartTurnAlike(p, a, b, turnId.value, declaration);
        }
      }
  }

  // ---------- whole passes ----------

  lemma NoEvictionFront(p: Policy, start: State, events: seq<Event>)
    requires Distinct(start.contexts) && NoEviction(p, start, events) && events != []
    ensures NoEviction(p, start, events[..|events| - 1])
    ensures !Evicts(p, RunEvents(p, start, events[..|events| - 1]).state, events[|events| - 1])
  {
    hide RunEvents, Evicts;
    var front := events[..|events| - 1];
    forall k | 0 <= k < |front|
      ensures !Evicts(p, RunEvents(p, start, front[..k]).state, front[k])
    {
      assert front[..k] == events[..k] && front[k] == events[k];
    }
  }

  /** What comes after a part of a pass without evictions has none either. */
  lemma NoEvictionRest(p: Policy, start: State, a: seq<Event>, b: seq<Event>)
    requires Distinct(start.contexts) && NoEviction(p, start, a + b)
    ensures NoEviction(p, start, a)
    ensures NoEviction(p, RunEvents(p, start, a).state, b)
  {
    hide Evicts, RunEvents;
    var all := a + b;
    forall k | 0 <= k < |a|
      ensures !Evicts(p, RunEvents(p, start, a[..k]).state, a[k])
    {
      assert a[..k] == all[..k] && a[k] == all[k];
    }
    var middle := RunEvents(p, start, a);
    forall k | 0 <= k < |b|
      ensures !Evicts(p, RunEvents(p, middle.state, b[..k]).state, b[k])
    {
      assert all[..|a| + k] == a + b[..k] && all[|a| + k] == b[k];
      RunConcat(p, start, a, b[..k]);
      ThenState(middle, RunEvents(p, middle.state, b[..k]));
      assert !Evicts(p, RunEvents(p, start, all[..|a| + k]).state, all[|a| + k]);
    }
  }

  lemma {:induction false} RunAlike(p: Policy, a: State, b: State, events: seq<Event>)
    requires Similar(a, b) && NoEviction(p, a, events)
    ensures Alike(RunEvents(p, a, events), RunEvents(p, b, events))
    decreases |events|
  {
    hide Step, Evicts, Distinct, Permutation, NoEviction;
    if events != [] {
      var front, last := events[..|events| - 1], events[|events| - 1];
      NoEvictionFront(p, a, events);
      RunAlike(p, a, b, front);
      StepAlike(p, RunEvents(p, a, front).state, RunEvents(p, b, front).state, last);
    }
  }

  lemma ScanFromAlike(p: Policy, a: State, b: State, bytes: Bytes)
    requires Similar(a, b) && NoEviction(p, a, Events(p, Lines(bytes)))
    ensures Alike(ScanFrom(p, a, bytes), ScanFrom(p, b, bytes))
  {
    hide RunEvents, NoEviction, Lines, Tail;
    RunAlike(p, a, b, Events(p, Lines(bytes)));
  }

  // ---------- exactly when order matters ----------

  /** The opened turn fits once the oldest entry is gone. */
  predicate FitsAfterEviction(p: Policy, st: State, turn: string, context: Context)
    requires Distinct(st.contexts) && st.contexts != []
  {
    JsonSize(p, Put(st.contexts[1..], turn, context)) <= p.maxContextBytes
  }

  lemma MissingFromRest(d: Dict, turn: string)
    requires d != [] && !Has(d, turn)
    ensures !Has(d[1..], turn)
  {
  }

  lemma PutNewMultiset(d: Dict, turn: string, context: Context)
    requires Distinct(d) && !Has(d, turn)
    ensures multiset(Put(d, turn, context)) == multiset(d) + multiset{Entry(turn, context)}
  {
  }

  /** At an eviction, two orders of one dictionary lead to states that still hold the same
      entries exactly when their oldest entries are the same, unless the new turn fits in
      neither. */
  lemma EvictionOrderMatters(p: Policy, a: State, b: State, turn: string, cwd: string, model: string)
    requires Similar(a, b) && p.Valid()
    requires Evicts(p, a, TurnStart(Some(turn), Declared(cwd, model)))
    ensures b.contexts != [] && a.contexts != []
    ensures var event := TurnStart(Some(turn), Declared(cwd, model));
            var context := Context(false, cwd, model, a.session);
            Similar(Step(p, a, event).state, Step(p, b, event).state)
            <==> (a.contexts[0] == b.contexts[0]
                  || (!FitsAfterEviction(p, a, turn, context) && !FitsAfterEviction(p, b, turn, context)))
  {
    PermutationMembers(a.contexts, b.contexts);
    PermutationLookup(a.contexts, b.contexts, turn);
    var context := Context(false, cwd, model, a.session);
    EvictedPermutation(p, a.contexts, b.contexts, turn, context);
    OpenFull(p, a, turn, cwd, model);
    OpenFull(p, b, turn, cwd, model);
  }

  lemma OpenFull(p: Policy, st: State, turn: string, cwd: string, model: string)
    requires Distinct(st.contexts) && p.Valid()
    requires Evicts(p, st, TurnStart(Some(turn), Declared(cwd, model)))
    ensures st.contexts != []
    ensures var context := Context(false, cwd, model, st.session);
            Step(p, st, TurnStart(Some(turn), Declared(cwd, model))).state ==
            if FitsAfterEviction(p, st, turn, context)
            then st.(contexts := Put(st.contexts[1..], turn, context))
            else State("", "", st.discarding, [])
  {
    hide Put, JsonSize, Has;
  }

  lemma EvictedPermutation(p: Policy, a: Dict, b: Dict, turn: string, context: Context)
    requires Distinct(a) && Distinct(b) && Permutation(a, b) && a != [] && b != []
    requires !Has(a, turn) && !Has(b, turn)
    ensures Permutation(Put(a[1..], turn, context), Put(b[1..], turn, context)) <==> a[0] == b[0]
    ensures a[0] == b[0] ==> JsonSize(p, Put(a[1..], turn, context)) == JsonSize(p, Put(b[1..], turn, context))
  {
    hide JsonSize, Has, Put, Distinct;
    MissingFromRest(a, turn);
    MissingFromRest(b, turn);
    DistinctRest(a);
    DistinctRest(b);
    PutNewMultiset(a[1..], turn, context);
    PutNewMultiset(b[1..], turn, context);
    RestMultiset(a);
    RestMultiset(b);
    ExchangeOne(multiset(a[1..]), multiset(b[1..]), a[0], b[0]);
    AddOne(multiset(a[1..]), multiset(b[1..]), Entry(turn, context));
    if a[0] == b[0] {
      PermutationSize(p, Put(a[1..], turn, context), Put(b[1..], turn, context));
    }
  }

  lemma DistinctRest(d: Dict)
    requires Distinct(d) && d != []
    ensures Distinct(d[1..])
  {
  }

  lemma RestMultiset(d: Dict)
    requires d != []
    ensures multiset(d) == multiset(d[1..]) + multiset{d[0]}
  {
    assert d == [d[0]] + d[1..];
  }

  lemma ExchangeOne(a: multiset<Entry>, b: multiset<Entry>, x: Entry, y: Entry)
    requires a + multiset{x} == b + multiset{y}
    ensures a == b <==> x == y
  {
    assert (a + multiset{x})[x] == (b + multiset{y})[x];
    if x == y {
      assert a == a + multiset{x} - multiset{x} == b;
    }
  }

  lemma AddOne(a: multiset<Entry>, b: multiset<Entry>, x: Entry)
    ensures a + multiset{x} == b + multiset{x} <==> a == b
  {
    ExchangeOneBack(a, b, x);
  }

  lemma ExchangeOneBack(a: multiset<Entry>, b: multiset<Entry>, x: Entry)
    ensures a + multiset{x} == b + multiset{x} ==> a == b
  {
    assert a == a + multiset{x} - multiset{x};
    assert b == b + multiset{x} - multiset{x};
  }
}
