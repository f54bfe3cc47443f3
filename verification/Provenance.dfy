/** Where a record comes from: the lines of the history that vouch for its session, its
    working directory and its model, and what cannot have happened in between. */
module Provenance {
  import opened Wrappers
  import opened ByteLines
  import opened CodexTypes
  import opened ContextDict
  import opened Lifecycle

  /** The state before event n of one pass. */
  function At(p: Policy, events: seq<Event>, n: nat): (st: State)
    requires n <= |events|
    ensures Distinct(st.contexts)
  {
    RunEvents(p, INITIAL, events[..n]).state
  }

  lemma AtStep(p: Policy, events: seq<Event>, n: nat)
    requires n < |events|
    ensures At(p, events, n + 1) == Step(p, At(p, events, n), events[n]).state
    ensures RunEvents(p, INITIAL, events[..n + 1]).records
         == RunEvents(p, INITIAL, events[..n]).records + Step(p, At(p, events, n), events[n]).records
  {
    hide Step;
    assert events[..n + 1] == events[..n] + [events[n]];
    RunSnoc(p, INITIAL, events[..n], events[n]);
  }

  predicate Ends(event: Event, turn: string) {
    event.TurnEnd? && event.turn == turn
  }

  /** Any turn_context line for the turn that does not declare exactly this pair. */
  predicate Disagrees(event: Event, turn: string, cwd: string, model: string) {
    event.TurnStart? && event.turnId == Some(turn) && event.declaration != Declared(cwd, model)
  }

  /** The session of the state was named by line h and has not changed since: no other
      session started and no invalidation happened, as either would leave another session. */
  ghost predicate SessionSince(p: Policy, events: seq<Event>, session: string, h: nat, n: nat) {
    && h < n <= |events|
    && events[h].SessionStart? && events[h].session == session
    && forall i :: h < i <= n ==> At(p, events, i).session == session
  }

  /** The entry was opened by line j with exactly its working directory and model, under its
      session, and has been there ever since: no end of the turn, no disagreeing context. */
  ghost predicate OpenSince(p: Policy, events: seq<Event>, e: Entry, h: nat, j: nat, n: nat) {
    && SessionSince(p, events, e.context.session, h, n)
    && h < j < n
    && events[j] == TurnStart(Some(e.turn), Declared(e.context.cwd, e.context.model))
    && (forall i :: j < i <= n ==> e in At(p, events, i).contexts)
    && forall i :: j < i < n ==>
         !Ends(events[i], e.turn) && !Disagrees(events[i], e.turn, e.context.cwd, e.context.model)
  }

  // ---------- one step ----------

  /** An unblocked entry after a step was there before, undisturbed and in the same session,
      or the step opened it. */
  ghost predicate CarriedOrOpened(st: State, event: Event, after: State, e: Entry) {
    || (&& e in st.contexts && after.session == st.session
        && !Ends(event, e.turn) && !Disagrees(event, e.turn, e.context.cwd, e.context.model))
    || (&& event == TurnStart(Some(e.turn), Declared(e.context.cwd, e.context.model))
        && e.context.session == st.session == after.session != "")
  }

  lemma StartTurnEntries(p: Policy, st: State, turn: string, declaration: Declaration, e: Entry)
    requires Distinct(st.contexts) && st.session != ""
    requires e in StartTurn(p, st, turn, declaration).state.contexts && !e.context.blocked
    ensures CarriedOrOpened(st, TurnStart(Some(turn), declaration), StartTurn(p, st, turn, declaration).state, e)
  {
    hide JsonSize, Put, Distinct;
    if declaration.Declared? && Has(st.contexts, turn)
       && Get(st.contexts, turn) == Context(false, declaration.cwd, declaration.model, st.session) {
      if e.turn == turn {
        UniqueEntry(st.contexts, e);
      }
    }
    if declaration.Declared? && !Has(st.contexts, turn) && e.turn == turn && e in st.contexts {
      UniqueEntry(st.contexts, e);
    }
  }

  lemma StepEntries(p: Policy, st: State, event: Event, e: Entry)
    requires Distinct(st.contexts)
    requires e in Step(p, st, event).state.contexts && !e.context.blocked
    requires st.session == "" ==> st.contexts == []
    ensures CarriedOrOpened(st, event, Step(p, st, event).state, e)
  {
    hide StartTurn, Pop, Finish, Distinct;
    if event.TurnStart? && st.session != "" && event.turnId.Some? {
      StartTurnEntries(p, st, event.turnId.value, event.declaration, e);
    }
  }

  lemma StepSession(p: Policy, st: State, event: Event)
    requires Distinct(st.contexts)
    ensures var after := Step(p, st, event).state;
      && (after.session == "" && st.session == "" && st.contexts == [] ==> after.contexts == [])
      && (after.session == "" && st.session != "" ==> after.contexts == [])
      && (after.session == st.session
          || after.session == ""
          || (event.SessionStart? && event.session == after.session && after.contexts == []))
  {
    hide JsonSize, Put, Finish, Distinct;
  }

  // ---------- histories ----------

  lemma {:induction false} NoSessionNoContexts(p: Policy, events: seq<Event>, n: nat)
    requires n <= |events|
    ensures At(p, events, n).session == "" ==> At(p, events, n).contexts == []
    decreases n
  {
    hide Step, At;
    if n == 0 {
      AtZero(p, events);
    } else {
      NoSessionNoContexts(p, events, n - 1);
      AtStep(p, events, n - 1);
      StepSession(p, At(p, events, n - 1), events[n - 1]);
    }
  }

  lemma AtZero(p: Policy, events: seq<Event>)
    ensures At(p, events, 0) == INITIAL
  {
    assert events[..0] == [];
  }

  /** A session was named by some line, and has been the session since. */
  lemma {:induction false} SessionHasSource(p: Policy, events: seq<Event>, n: nat) returns (h: nat)
    requires n <= |events| && At(p, events, n).session != ""
    ensures SessionSince(p, events, At(p, events, n).session, h, n)
    decreases n
  {
    hide Step, At;
    AtZero(p, events);
    assert n > 0;
    var before := At(p, events, n - 1);
    AtStep(p, events, n - 1);
    StepSession(p, before, events[n - 1]);
    if before.session == At(p, events, n).session {
      h := SessionHasSource(p, events, n - 1);
    } else {
      h := n - 1;
    }
  }

  lemma OpenContinues(p: Policy, events: seq<Event>, e: Entry, h: nat, j: nat, n: nat)
    requires 0 < n <= |events| && OpenSince(p, events, e, h, j, n - 1)
    requires At(p, events, n).session == At(p, events, n - 1).session && e in At(p, events, n).contexts
    requires !Ends(events[n - 1], e.turn) && !Disagrees(events[n - 1], e.turn, e.context.cwd, e.context.model)
    ensures OpenSince(p, events, e, h, j, n)
  {
    hide At, Ends, Disagrees;
  }

  /** An open, unblocked turn was opened by a line of its own session and left alone since. */
  lemma {:induction false} ContextHasSource(p: Policy, events: seq<Event>, n: nat, e: Entry) returns (h: nat, j: nat)
    requires n <= |events| && e in At(p, events, n).contexts && !e.context.blocked
    ensures OpenSince(p, events, e, h, j, n)
    decreases n
  {
    hide Step, At, Find, RunEvents;
    AtZero(p, events);
    assert n > 0;
    var before := At(p, events, n - 1);
    NoSessionNoContexts(p, events, n - 1);
    AtStep(p, events, n - 1);
    StepEntries(p, before, events[n - 1], e);
    if e in before.contexts && !Ends(events[n - 1], e.turn)
       && !Disagrees(events[n - 1], e.turn, e.context.cwd, e.context.model)
       && At(p, events, n).session == before.session {
      h, j := ContextHasSource(p, events, n - 1, e);
      OpenContinues(p, events, e, h, j, n);
    } else {
      h := SessionHasSource(p, events, n - 1);
      j := n - 1;
    }
  }

  // ---------- records ----------

  /** The lines that vouch for a record: line h names its session, line j opens its turn with
      exactly its working directory and model, line n completes the turn with its labels and
      time; the session holds from h to n and the turn is undisturbed from j to n. */
  ghost predicate Vouched(p: Policy, events: seq<Event>, r: Record, h: nat, j: nat, n: nat) {
    && h < j < n < |events|
    && events[h].SessionStart? && events[j].TurnStart? && events[j].turnId.Some?
    && var session, turn := events[h].session, events[j].turnId.value;
    && OpenSince(p, events, Entry(turn, Context(false, r.cwd, r.model, session)), h, j, n)
    && events[n] == TurnEnd(turn, Complete(Parsed(r.labels), r.verifiedAt))
    && r.sourceId == SourceId(session, turn)
    && p.persistedSafe(r.sourceId)
  }

  lemma ProducedBy(p: Policy, st: State, event: Event, r: Record)
    requires Distinct(st.contexts) && r in Step(p, st, event).records
    ensures event.TurnEnd? && Has(st.contexts, event.turn)
    ensures var context := Get(st.contexts, event.turn);
      && !context.blocked && r.cwd == context.cwd && r.model == context.model
      && event.completion == Complete(Parsed(r.labels), r.verifiedAt)
      && r.sourceId == SourceId(context.session, event.turn) && p.persistedSafe(r.sourceId)
      && Step(p, st, event).records == [r]
  {
    hide JsonSize, Put, Pop, Has, Get, Distinct, SourceId;
  }

  /** Every record a step produces is vouched for by its history. */
  lemma ProducedIsVouched(p: Policy, events: seq<Event>, n: nat, r: Record) returns (h: nat, j: nat)
    requires n < |events| && r in Step(p, At(p, events, n), events[n]).records
    ensures Vouched(p, events, r, h, j, n)
  {
    hide Step, At;
    var st := At(p, events, n);
    ProducedBy(p, st, events[n], r);
    var turn := events[n].turn;
    var e := Entry(turn, Get(st.contexts, turn));
    assert st.contexts[Find(st.contexts, turn)] == e;
    h, j := ContextHasSource(p, events, n, e);
  }

  lemma NoRecordsAtStart(p: Policy, events: seq<Event>)
    ensures RunEvents(p, INITIAL, events[..0]).records == []
  {
    assert events[..0] == [];
  }

  lemma {:induction false} RecordHasStep(p: Policy, events: seq<Event>, n: nat, r: Record) returns (k: nat)
    requires n <= |events| && r in RunEvents(p, INITIAL, events[..n]).records
    ensures k < n && r in Step(p, At(p, events, k), events[k]).records
    decreases n
  {
    hide Step, At, RunEvents;
    NoRecordsAtStart(p, events);
    assert n > 0;
    AtStep(p, events, n - 1);
    if r in RunEvents(p, INITIAL, events[..n - 1]).records {
      k := RecordHasStep(p, events, n - 1, r);
    } else {
      k := n - 1;
    }
  }

  /** Provenance over the whole history: every record one pass over any bytes produces is
      vouched for by three lines of those bytes. */
  lemma EveryRecordIsVouched(p: Policy, bytes: Bytes, r: Record)
    requires r in Scan(p, bytes).records
    ensures exists h: nat, j: nat, n: nat :: Vouched(p, Events(p, Lines(bytes)), r, h, j, n)
  {
    hide Step, LineEvent, At, Vouched;
    var events := Events(p, Lines(bytes));
    assert events[..|events|] == events;
    var n := RecordHasStep(p, events, |events|, r);
    var h, j := ProducedIsVouched(p, events, n, r);
  }
}
