/** When a record is produced, read off the events of a history alone: which line started the session,
    what was declared for the turn since its last end, and how it was completed. Nothing here looks at
    the state the reader carries; the theorems say that the reader's state and its records are this. */
module Production {
  import opened Wrappers
  import opened ByteLines
  import opened CodexTypes
  import opened ContextDict
  import opened Lifecycle
  import Provenance

  // ---------- sessions ----------

  function MetaOf(event: Event): string
    requires event.SessionStart?
  {
    if event.metaId.Some? then event.metaId.value else event.session
  }

  /** The event leaves this session, with this metadata id, as it is. */
  predicate Keeps(event: Event, session: string, metaId: string) {
    match event
    case Skip(_) => true
    case TurnEnd(_, _) => true
    case TurnStart(turnId, declaration) => turnId.Some? && !declaration.NotUnicode?
    case SessionStart(other, id) => other == session && (id.None? || id.value == metaId || id.value == session)
    case Poison(_) => false
  }

  /** The line names a session that is not already held. */
  ghost predicate Founding(events: seq<Event>, h: nat)
    decreases h, 0
  {
    && h < |events| && events[h].SessionStart? && events[h].session != ""
    && !exists g: nat ::
          g < h && Held(events, g, h) && events[g].SessionStart? && events[g].session == events[h].session
  }

  /** The session that line h founded is still the session before line k. */
  ghost predicate Held(events: seq<Event>, h: nat, k: nat)
    decreases h, 1
  {
    && h < k <= |events| && Founding(events, h)
    && forall i :: h < i < k ==> Keeps(events[i], events[h].session, MetaOf(events[h]))
  }

  // ---------- turns ----------

  predicate Starts(event: Event, turn: string) {
    event.TurnStart? && event.turnId == Some(turn)
  }

  predicate Ends(event: Event, turn: string) {
    event.TurnEnd? && event.turn == turn
  }

  /** Line i, after h, is about the turn, and the turn has not ended since. */
  ghost predicate Live(events: seq<Event>, h: nat, k: nat, turn: string, i: nat) {
    && h < i < k <= |events| && Starts(events[i], turn)
    && forall e :: i < e < k ==> !Ends(events[e], turn)
  }

  ghost predicate Present(events: seq<Event>, h: nat, k: nat, turn: string) {
    exists i: nat :: Live(events, h, k, turn, i)
  }

  predicate Declares(events: seq<Event>, i: nat, cwd: string, model: string) {
    i < |events| && events[i].TurnStart? && events[i].declaration == Declared(cwd, model)
  }

  /** Since its last end the turn was declared, and always as this pair. */
  ghost predicate Agreed(events: seq<Event>, h: nat, k: nat, turn: string, cwd: string, model: string) {
    && Present(events, h, k, turn)
    && forall i: nat :: Live(events, h, k, turn, i) ==> Declares(events, i, cwd, model)
  }

  // ---------- room ----------

  /** What the dictionary holds for one turn is what the events say of it: an entry while the turn has
      a live line, open with its pair when all live lines agree on one, else blocked. */
  ghost predicate TurnTracked(d: Dict, events: seq<Event>, h: nat, k: nat, session: string, turn: string) {
    && (Has(d, turn) <==> Present(events, h, k, turn))
    && (Has(d, turn) ==>
          && (Get(d, turn) == Blocked(session) || IsOpen(Get(d, turn), session))
          && forall cwd, model ::
               Get(d, turn) == Context(false, cwd, model, session) <==> Agreed(events, h, k, turn, cwd, model))
  }

  predicate IsOpen(context: Context, session: string) {
    !context.blocked && context.session == session
  }

  ghost predicate Tracked(d: Dict, events: seq<Event>, h: nat, k: nat, session: string) {
    forall turn :: TurnTracked(d, events, h, k, session, turn)
  }

  predicate Fits(p: Policy, d: Dict) {
    |d| <= p.maxRecords && JsonSize(p, d) <= p.maxContextBytes
  }

  /** The turns that are live before line k fit the limits of the reader. */
  ghost predicate Room(p: Policy, events: seq<Event>, h: nat, k: nat) {
    && h < |events| && events[h].SessionStart?
    && forall d :: Distinct(d) && Tracked(d, events, h, k, events[h].session) ==> Fits(p, d)
  }

  /** At every line up to k, the live turns of the session then held fit the limits. */
  ghost predicate Roomy(p: Policy, events: seq<Event>, n: nat) {
    forall h: nat, k: nat :: k <= n && Held(events, h, k) ==> Room(p, events, h, k)
  }

  // ---------- what is earned ----------

  /** The completion of a turn earns this record: the session is held, the turn was declared as this
      pair and nothing else since its last end, its labels were parsed and its identifier is safe. */
  ghost predicate Earns(p: Policy, events: seq<Event>, h: nat, n: nat, turn: string, r: Record) {
    && n < |events| && Held(events, h, n) && events[h].SessionStart?
    && events[n] == TurnEnd(turn, Complete(Parsed(r.labels), r.verifiedAt))
    && Agreed(events, h, n, turn, r.cwd, r.model)
    && r.sourceId == events[h].session + ":" + turn && p.persistedSafe(r.sourceId)
  }

  ghost predicate Earned(p: Policy, events: seq<Event>, n: nat, r: Record) {
    exists h: nat, turn: string :: Earns(p, events, h, n, turn, r)
  }

  // ---------- the dictionary against the events ----------

  lemma HasIff(d: Dict, turn: string)
    ensures Has(d, turn) <==> exists e :: e in d && e.turn == turn
  {
    if Has(d, turn) {
      assert d[Find(d, turn)] in d;
    }
    if e :| e in d && e.turn == turn {
      var k :| 0 <= k < |d| && d[k] == e;
      assert Find(d, turn) <= k;
    }
  }

  lemma PutLookup(d: Dict, turn: string, context: Context, other: string)
    requires Distinct(d)
    ensures Has(Put(d, turn, context), other) <==> other == turn || Has(d, other)
    ensures Has(Put(d, turn, context), other) ==>
              Get(Put(d, turn, context), other) == if other == turn then context else Get(d, other)
  {
    var r := Put(d, turn, context);
    HasIff(d, other);
    HasIff(r, other);
    assert Entry(turn, context) in r;
    hide Put, Find;
    if other == turn {
      UniqueEntry(r, Entry(turn, context));
    } else if Has(d, other) {
      FoundIn(d, other);
      UniqueEntry(r, Entry(other, Get(d, other)));
    }
  }

  lemma FoundIn(d: Dict, turn: string)
    requires Has(d, turn)
    ensures Entry(turn, Get(d, turn)) in d
  {
    assert d[Find(d, turn)] == Entry(turn, Get(d, turn));
  }

  lemma PopLookup(d: Dict, turn: string, other: string)
    requires Distinct(d)
    ensures Has(Pop(d, turn), other) <==> other != turn && Has(d, other)
    ensures Has(Pop(d, turn), other) ==> Get(Pop(d, turn), other) == Get(d, other)
  {
    var r := Pop(d, turn);
    HasIff(d, other);
    HasIff(r, other);
    hide Pop, Find;
    if other != turn && Has(d, other) {
      FoundIn(d, other);
      UniqueEntry(r, Entry(other, Get(d, other)));
    }
  }

  /** How one event changes what is live. */
  lemma LiveAfter(events: seq<Event>, h: nat, k: nat, n: nat, turn: string, i: nat)
    requires h < k < |events| && n == k + 1
    ensures Live(events, h, n, turn, i) <==>
              || (!Ends(events[k], turn) && Live(events, h, k, turn, i))
              || (i == k && Starts(events[k], turn))
    ensures Live(events, h, k, turn, i) ==> i < k
  {
  }

  lemma SameLive(events: seq<Event>, h: nat, k: nat, n: nat, turn: string)
    requires forall i: nat :: Live(events, h, n, turn, i) <==> Live(events, h, k, turn, i)
    ensures Present(events, h, n, turn) <==> Present(events, h, k, turn)
    ensures forall cwd, model :: Agreed(events, h, n, turn, cwd, model) <==> Agreed(events, h, k, turn, cwd, model)
  {
    hide Live, Declares;
  }

  /** An event that is not about the turn leaves what is tracked of it. */
  lemma OthersStay(d: Dict, after: Dict, events: seq<Event>, h: nat, k: nat, n: nat, session: string, turn: string)
    requires h < k < |events| && n == k + 1 && TurnTracked(d, events, h, k, session, turn)
    requires !Starts(events[k], turn) && !Ends(events[k], turn)
    requires (Has(after, turn) <==> Has(d, turn)) && (Has(d, turn) ==> Get(after, turn) == Get(d, turn))
    ensures TurnTracked(after, events, h, n, session, turn)
  {
    hide Has, Get, Starts, Ends, Live, Present, Agreed;
    forall i: nat
      ensures Live(events, h, n, turn, i) <==> Live(events, h, k, turn, i)
    {
      LiveAfter(events, h, k, n, turn, i);
    }
    SameLive(events, h, k, n, turn);
  }

  /** The end of a turn leaves nothing live of it. */
  lemma EndClears(events: seq<Event>, h: nat, k: nat, n: nat, turn: string)
    requires h < k < |events| && n == k + 1 && Ends(events[k], turn)
    ensures !Present(events, h, n, turn)
  {
    hide Live;
    forall i: nat
      ensures !Live(events, h, n, turn, i)
    {
      LiveAfter(events, h, k, n, turn, i);
    }
  }

  /** A further line about a turn: it is live, and agreed on a pair exactly when this line declares
      that pair and the turn was not live or was agreed on it before. */
  lemma DeclarationJoins(events: seq<Event>, h: nat, k: nat, n: nat, turn: string, cwd: string, model: string)
    requires h < k < |events| && n == k + 1 && Starts(events[k], turn)
    ensures Present(events, h, n, turn)
    ensures Agreed(events, h, n, turn, cwd, model) <==>
              && events[k].declaration == Declared(cwd, model)
              && (!Present(events, h, k, turn) || Agreed(events, h, k, turn, cwd, model))
  {
    hide Live;
    forall i: nat
      ensures Live(events, h, n, turn, i) <==> Live(events, h, k, turn, i) || i == k
    {
      LiveAfter(events, h, k, n, turn, i);
    }
    assert Live(events, h, n, turn, k);
    if Agreed(events, h, n, turn, cwd, model) {
      assert Declares(events, k, cwd, model);
    }
  }

  /** Before anything followed the founding line, nothing is live. */
  lemma NothingYet(events: seq<Event>, h: nat, n: nat, session: string)
    requires h < |events| && n == h + 1
    ensures Tracked([], events, h, n, session)
  {
  }

  // ---------- one event ----------

  /** What a line about a turn makes of its entry. */
  function Settled(d: Dict, turn: string, declaration: Declaration, session: string): Context {
    if declaration.Declared?
       && (!Has(d, turn) || Get(d, turn) == Context(false, declaration.cwd, declaration.model, session))
    then Context(false, declaration.cwd, declaration.model, session)
    else Blocked(session)
  }

  lemma TurnJoins(d: Dict, after: Dict, events: seq<Event>, h: nat, k: nat, n: nat, session: string, turn: string)
    requires h < k < |events| && n == k + 1 && Starts(events[k], turn)
    requires TurnTracked(d, events, h, k, session, turn)
    requires Has(after, turn) && Get(after, turn) == Settled(d, turn, events[k].declaration, session)
    ensures TurnTracked(after, events, h, n, session, turn)
  {
    hide Has, Get, Present, Agreed;
    DeclarationJoins(events, h, k, n, turn, "", "");
    forall cwd, model
      ensures Get(after, turn) == Context(false, cwd, model, session) <==> Agreed(events, h, n, turn, cwd, model)
    {
      DeclarationJoins(events, h, k, n, turn, cwd, model);
    }
  }

  /** A dictionary that settles the turn of the line and keeps the others is what the events say next. */
  lemma StartTracks(d: Dict, after: Dict, events: seq<Event>, h: nat, k: nat, n: nat, session: string, turn: string)
    requires h < k < |events| && n == k + 1 && Starts(events[k], turn) && Tracked(d, events, h, k, session)
    requires Has(after, turn) && Get(after, turn) == Settled(d, turn, events[k].declaration, session)
    requires forall other :: other != turn ==>
               && (Has(after, other) <==> Has(d, other))
               && (Has(d, other) ==> Get(after, other) == Get(d, other))
    ensures Tracked(after, events, h, n, session)
  {
    hide TurnTracked, Has, Get, Settled;
    forall other
      ensures TurnTracked(after, events, h, n, session, other)
    {
      if other == turn {
        TurnJoins(d, after, events, h, k, n, session, turn);
      } else {
        OthersStay(d, after, events, h, k, n, session, other);
      }
    }
  }

  lemma PutTracks(d: Dict, events: seq<Event>, h: nat, k: nat, n: nat, session: string, turn: string)
    requires h < k < |events| && n == k + 1 && Starts(events[k], turn)
    requires Distinct(d) && Tracked(d, events, h, k, session)
    ensures Tracked(Put(d, turn, Settled(d, turn, events[k].declaration, session)), events, h, n, session)
  {
    hide Has, Get, Put, Settled, Tracked, Distinct;
    var context := Settled(d, turn, events[k].declaration, session);
    forall other
      ensures Has(Put(d, turn, context), other) <==> other == turn || Has(d, other)
      ensures Has(Put(d, turn, context), other) ==>
                Get(Put(d, turn, context), other) == if other == turn then context else Get(d, other)
    {
      PutLookup(d, turn, context, other);
    }
    StartTracks(d, Put(d, turn, context), events, h, k, n, session, turn);
  }

  lemma PutLength(d: Dict, turn: string, context: Context)
    requires Distinct(d) && !Has(d, turn)
    ensures |Put(d, turn, context)| == |d| + 1
  {
  }

  lemma PutSame(d: Dict, turn: string)
    requires Distinct(d) && Has(d, turn)
    ensures Put(d, turn, Get(d, turn)) == d
  {
  }

  /** With room for it, a line about a turn settles that turn and nothing else. */
  lemma StartStep(p: Policy, st: State, events: seq<Event>, h: nat, k: nat, n: nat, turn: string)
    requires h < k < |events| && n == k + 1 && Starts(events[k], turn) && !events[k].declaration.NotUnicode?
    requires Distinct(st.contexts) && Tracked(st.contexts, events, h, k, st.session) && st.session != ""
    requires Room(p, events, h, n) && events[h].session == st.session
    ensures var o := Step(p, st, events[k]);
      && o.records == [] && o.state.session == st.session && o.state.metaId == st.metaId
      && Tracked(o.state.contexts, events, h, n, st.session)
  {
    hide Has, Get, Put, Tracked, Distinct, JsonSize;
    var d, declaration := st.contexts, events[k].declaration;
    var context := Settled(d, turn, declaration, st.session);
    PutTracks(d, events, h, k, n, st.session, turn);
    var after := Put(d, turn, context);
    assert Fits(p, after);
    assert Step(p, st, events[k]) == StartTurn(p, st, turn, declaration) by {
      hide StartTurn;
      IsStart(p, st, events[k], turn);
    }
    if Has(d, turn) {
      if Get(d, turn) == context {
        PutSame(d, turn);
      }
    } else {
      PutLength(d, turn, context);
    }
  }

  lemma IsStart(p: Policy, st: State, event: Event, turn: string)
    requires Distinct(st.contexts) && st.session != "" && Starts(event, turn)
    ensures Step(p, st, event) == StartTurn(p, st, turn, event.declaration)
  {
    hide StartTurn;
  }

  /** The end of a turn drops that turn and nothing else. */
  lemma EndTracks(d: Dict, events: seq<Event>, h: nat, k: nat, n: nat, session: string, turn: string)
    requires h < k < |events| && n == k + 1 && Ends(events[k], turn)
    requires Distinct(d) && Tracked(d, events, h, k, session)
    ensures Tracked(Pop(d, turn), events, h, n, session)
  {
    hide Has, Get, Pop, Distinct, Present, Agreed;
    forall other
      ensures TurnTracked(Pop(d, turn), events, h, n, session, other)
    {
      PopLookup(d, turn, other);
      if other == turn {
        EndClears(events, h, k, n, turn);
      } else {
        OthersStay(d, Pop(d, turn), events, h, k, n, session, other);
      }
    }
  }

  lemma SkipTracks(d: Dict, events: seq<Event>, h: nat, k: nat, n: nat, session: string)
    requires h < k < |events| && n == k + 1 && !events[k].TurnStart? && !events[k].TurnEnd?
    requires Tracked(d, events, h, k, session)
    ensures Tracked(d, events, h, n, session)
  {
    hide TurnTracked, Has, Get;
    forall turn
      ensures TurnTracked(d, events, h, n, session, turn)
    {
      OthersStay(d, d, events, h, k, n, session, turn);
    }
  }

  // ---------- which session is held ----------

  /** Only one line holds the session at a time. */
  lemma OneHolder(events: seq<Event>, g: nat, h: nat, k: nat)
    requires Held(events, g, k) && Held(events, h, k)
    ensures g == h
  {
    if g < h {
      LaterIsNotFounding(events, g, h, k);
    } else if h < g {
      LaterIsNotFounding(events, h, g, k);
    }
  }

  lemma LaterIsNotFounding(events: seq<Event>, g: nat, h: nat, k: nat)
    requires Held(events, g, k) && g < h < k
    ensures !Founding(events, h)
  {
    if events[h].SessionStart? {
      assert Keeps(events[h], events[g].session, MetaOf(events[g]));
      assert Held(events, g, h);
    }
  }

  lemma HeldLonger(events: seq<Event>, h: nat, k: nat, n: nat)
    requires h < k < |events| && n == k + 1
    ensures Held(events, h, n) <==>
              Held(events, h, k) && events[h].SessionStart? && Keeps(events[k], events[h].session, MetaOf(events[h]))
  {
    hide Keeps;
  }

  lemma HeldFromHere(events: seq<Event>, k: nat, n: nat)
    requires k < |events| && n == k + 1
    ensures Held(events, k, n) <==> Founding(events, k)
  {
  }

  /** The reader's state is that of the session that line h founded. */
  ghost predicate Following(st: State, events: seq<Event>, h: nat, k: nat) {
    && Held(events, h, k) && events[h].SessionStart?
    && st.session == events[h].session != "" && st.metaId == MetaOf(events[h])
    && Tracked(st.contexts, events, h, k, st.session)
  }

  /** No line holds a session, and the reader has none. */
  ghost predicate Idle(st: State, events: seq<Event>, k: nat) {
    st.session == "" && st.contexts == [] && forall h: nat :: !Held(events, h, k)
  }

  /** An event that keeps the session. */
  lemma KeepStep(p: Policy, st: State, events: seq<Event>, h: nat, k: nat, n: nat)
    requires k < |events| && n == k + 1 && Distinct(st.contexts) && Following(st, events, h, k)
    requires Keeps(events[k], st.session, st.metaId) && Room(p, events, h, n)
    ensures Following(Step(p, st, events[k]).state, events, h, n)
  {
    hide Distinct, Has, Get, Put, Pop, Tracked, Founding, Finish, Room, StartTurn;
    var event := events[k];
    HeldLonger(events, h, k, n);
    match event
    case TurnStart(turnId, declaration) =>
      StartStep(p, st, events, h, k, n, turnId.value);
    case TurnEnd(turn, completion) =>
      EndTracks(st.contexts, events, h, k, n, st.session, turn);
    case Skip(noise) => SkipTracks(st.contexts, events, h, k, n, st.session);
    case SessionStart(session, metaId) => SkipTracks(st.contexts, events, h, k, n, st.session);
    case Poison(reason) =>
  }

  /** An event that does not keep the session, or comes when there is none. */
  lemma BreakStep(p: Policy, st: State, events: seq<Event>, k: nat, n: nat)
    requires k < |events| && n == k + 1 && Distinct(st.contexts)
    requires !Founding(events, k)
    requires st.session != "" ==> !Keeps(events[k], st.session, st.metaId)
    requires st.session == "" ==> st.contexts == []
    requires events[k].SessionStart? && events[k].session != "" ==> events[k].session == st.session
    ensures var after := Step(p, st, events[k]).state; after.session == "" && after.contexts == []
  {
    hide Distinct, Finish, Put, JsonSize, Founding;
  }

  lemma FoundStep(p: Policy, st: State, events: seq<Event>, k: nat, n: nat)
    requires k < |events| && n == k + 1 && Distinct(st.contexts) && Founding(events, k)
    requires events[k].SessionStart? && st.session != events[k].session
    ensures Following(Step(p, st, events[k]).state, events, k, n)
  {
    hide Distinct, Tracked;
    HeldFromHere(events, k, n);
    NothingYet(events, k, n, events[k].session);
  }

  lemma NoneHeld(events: seq<Event>, k: nat, n: nat)
    requires k < |events| && n == k + 1 && !Founding(events, k)
    requires forall h: nat :: Held(events, h, k) ==>
               events[h].SessionStart? && !Keeps(events[k], events[h].session, MetaOf(events[h]))
    ensures forall h: nat :: !Held(events, h, n)
  {
    hide Founding, Keeps;
    forall h: nat
      ensures !Held(events, h, n)
    {
      if h < k {
        HeldLonger(events, h, k, n);
      } else if h == k {
        HeldFromHere(events, k, n);
      }
    }
  }

  /** From a followed session: the next event keeps it, founds another one, or ends it. */
  lemma FollowStep(p: Policy, st: State, events: seq<Event>, g: nat, k: nat, n: nat) returns (h: Option<nat>)
    requires k < |events| && n == k + 1 && Distinct(st.contexts) && Following(st, events, g, k)
    requires Held(events, g, n) ==> Room(p, events, g, n)
    ensures h.None? ==> Idle(Step(p, st, events[k]).state, events, n)
    ensures h.Some? ==> Following(Step(p, st, events[k]).state, events, h.value, n)
  {
    hide Distinct, Step, Room, Tracked, Keeps, Founding, Held;
    HeldBefore(events, g, k);
    HeldLonger(events, g, k, n);
    if Keeps(events[k], st.session, st.metaId) {
      KeepStep(p, st, events, g, k, n);
      h := Some(g);
    } else {
      FoundsIff(events, g, k);
      if Founding(events, k) {
        FoundStep(p, st, events, k, n);
        h := Some(k);
      } else {
        BreakStep(p, st, events, k, n);
        forall o: nat | Held(events, o, k)
          ensures o == g
        {
          OneHolder(events, o, g, k);
        }
        NoneHeld(events, k, n);
        h := None;
      }
    }
  }

  lemma FoundsIff(events: seq<Event>, g: nat, k: nat)
    requires k < |events| && Held(events, g, k) && events[g].SessionStart?
    ensures Founding(events, k) <==>
              events[k].SessionStart? && events[k].session != "" && events[k].session != events[g].session
  {
    hide Held;
    forall o: nat | Held(events, o, k)
      ensures o == g
    {
      OneHolder(events, o, g, k);
    }
    HeldBefore(events, g, k);
  }

  lemma HeldBefore(events: seq<Event>, g: nat, k: nat)
    requires Held(events, g, k)
    ensures g < k <= |events| && Founding(events, g)
  {
    hide Founding;
  }

  lemma IdleStep(p: Policy, st: State, events: seq<Event>, k: nat, n: nat) returns (h: Option<nat>)
    requires k < |events| && n == k + 1 && Distinct(st.contexts) && Idle(st, events, k)
    ensures h.None? ==> Idle(Step(p, st, events[k]).state, events, n)
    ensures h.Some? ==> Following(Step(p, st, events[k]).state, events, h.value, n)
  {
    hide Distinct, Step, Held;
    if Founding(events, k) {
      FoundStep(p, st, events, k, n);
      h := Some(k);
    } else {
      BreakStep(p, st, events, k, n);
      NoneHeld(events, k, n);
      h := None;
    }
  }

  /** While there is room, the reader's state is what the events say: which session is held, and for
      every turn whether it is open, with which pair, or blocked. */
  lemma {:induction false} StateFromEvents(p: Policy, events: seq<Event>, k: nat) returns (h: Option<nat>)
    requires k <= |events| && Roomy(p, events, k)
    ensures h.None? ==> Idle(Provenance.At(p, events, k), events, k)
    ensures h.Some? ==> Following(Provenance.At(p, events, k), events, h.value, k)
    decreases k
  {
    hide Distinct, Step, Room, Tracked, Following, Provenance.At;
    if k == 0 {
      Provenance.AtZero(p, events);
      h := None;
    } else {
      Provenance.AtStep(p, events, k - 1);
      var g := StateFromEvents(p, events, k - 1);
      var st := Provenance.At(p, events, k - 1);
      if g.Some? {
        h := FollowStep(p, st, events, g.value, k - 1, k);
      } else {
        h := IdleStep(p, st, events, k - 1, k);
      }
    }
  }

  // ---------- when a record is produced ----------

  /** A step produces a record exactly for a complete, parsed end of an open turn of a session. */
  lemma StepRecord(p: Policy, st: State, event: Event, r: Record)
    requires Distinct(st.contexts)
    ensures Step(p, st, event).records == [r] <==>
              && event.TurnEnd? && Has(st.contexts, event.turn)
              && var context := Get(st.contexts, event.turn);
              && context == Context(false, r.cwd, r.model, context.session) && context.session != ""
              && event.completion == Complete(Parsed(r.labels), r.verifiedAt)
              && r.sourceId == context.session + ":" + event.turn && p.persistedSafe(r.sourceId)
  {
    hide Distinct, Pop, Put, JsonSize, Has, Get;
  }

  lemma AtMostOne(p: Policy, st: State, event: Event)
    requires Distinct(st.contexts)
    ensures |Step(p, st, event).records| <= 1
  {
    hide Distinct, Pop, Put, JsonSize, Has, Get;
  }

  /** While there is room, one event produces this record exactly when the events earn it. */
  lemma ProducedExactlyWhenEarned(p: Policy, events: seq<Event>, n: nat, r: Record)
    requires n < |events| && Roomy(p, events, n)
    ensures Step(p, Provenance.At(p, events, n), events[n]).records == [r] <==> Earned(p, events, n, r)
  {
    hide Distinct, Step, Room, Provenance.At, Held, Agreed, Present, Has, Get;
    var st := Provenance.At(p, events, n);
    var h := StateFromEvents(p, events, n);
    StepRecord(p, st, events[n], r);
    if h.None? {
      NothingKept(events[n]);
    } else {
      if Earned(p, events, n, r) {
        var g: nat, turn :| Earns(p, events, g, n, turn, r);
        OneHolder(events, g, h.value, n);
        assert TurnTracked(st.contexts, events, g, n, st.session, turn);
        AgreedIsPresent(events, g, n, turn, r.cwd, r.model);
      }
      if Step(p, st, events[n]).records == [r] {
        var turn := events[n].turn;
        assert TurnTracked(st.contexts, events, h.value, n, st.session, turn);
        assert Earns(p, events, h.value, n, turn, r);
      }
    }
  }

  lemma NothingKept(event: Event)
    ensures event.TurnEnd? ==> !Has([], event.turn)
  {
  }

  lemma AgreedIsPresent(events: seq<Event>, h: nat, k: nat, turn: string, cwd: string, model: string)
    requires Agreed(events, h, k, turn, cwd, model)
    ensures Present(events, h, k, turn)
  {
    hide Live;
  }

  // ---------- what is warned about ----------

  /** Some pair is what the turn was always declared as. */
  ghost predicate Settles(events: seq<Event>, h: nat, k: nat, turn: string) {
    exists cwd: string, model: string :: Agreed(events, h, k, turn, cwd, model)
  }

  lemma SettlesIsOpen(d: Dict, events: seq<Event>, h: nat, k: nat, session: string, turn: string)
    requires TurnTracked(d, events, h, k, session, turn)
    ensures Has(d, turn) <==> Present(events, h, k, turn)
    ensures Has(d, turn) ==> (!Get(d, turn).blocked <==> Settles(events, h, k, turn))
    ensures Has(d, turn) ==> Get(d, turn).session == session
  {
    hide Has, Get, Present, Agreed;
    if Has(d, turn) && !Get(d, turn).blocked {
      var context := Get(d, turn);
      assert context == Context(false, context.cwd, context.model, session);
      assert Agreed(events, h, k, turn, context.cwd, context.model);
    }
  }

  /** The one thing an end of turn is warned about, by what was declared before it. */
  lemma EndWarns(p: Policy, events: seq<Event>, h: nat, n: nat)
    requires n < |events| && Roomy(p, events, n) && Held(events, h, n) && events[h].SessionStart?
    requires events[n].TurnEnd? && !events[n].completion.Aborted?
    ensures var turn, completion := events[n].turn, events[n].completion;
      Step(p, Provenance.At(p, events, n), events[n]).warnings ==
      if !Present(events, h, n, turn) then multiset{OrphanCompletion}
      else if !Settles(events, h, n, turn) then multiset{AmbiguousCompletion}
      else if completion.Incomplete? then multiset{completion.reason}
      else if completion.verdict.NoBlock? then multiset{NoCaptureBlock}
      else if completion.verdict.InvalidBlock? then multiset{InvalidCaptureBlock}
      else if !p.persistedSafe(events[h].session + ":" + turn) then multiset{UnsafeIdentifier}
      else multiset{}
  {
    hide Distinct, Room, Provenance.At, Held, Agreed, Present, Has, Get, Settles, Put, Pop, JsonSize;
    var st := Provenance.At(p, events, n);
    FollowsHolder(p, events, h, n);
    assert TurnTracked(st.contexts, events, h, n, st.session, events[n].turn);
    SettlesIsOpen(st.contexts, events, h, n, st.session, events[n].turn);
  }

  lemma FollowsHolder(p: Policy, events: seq<Event>, h: nat, n: nat)
    requires n <= |events| && Roomy(p, events, n) && Held(events, h, n)
    ensures Following(Provenance.At(p, events, n), events, h, n)
  {
    hide Distinct, Room, Provenance.At, Held, Tracked;
    var g := StateFromEvents(p, events, n);
    if g.Some? {
      OneHolder(events, g.value, h, n);
    }
  }

  lemma RoomyBefore(p: Policy, events: seq<Event>, n: nat)
    requires 0 < n <= |events| && Roomy(p, events, n)
    ensures Roomy(p, events, n - 1)
  {
    hide Held, Room;
  }

  /** A declaration under a session is warned about when it is unusable, and when the turn was already
      declared otherwise; the same pair again is not. */
  lemma DeclarationWarns(p: Policy, events: seq<Event>, h: nat, n: nat, turn: string)
    requires n < |events| && Roomy(p, events, n + 1) && Held(events, h, n) && events[h].SessionStart?
    requires Starts(events[n], turn) && !events[n].declaration.NotUnicode?
    ensures var declaration := events[n].declaration;
      Step(p, Provenance.At(p, events, n), events[n]).warnings ==
      if declaration.Unusable? then multiset{declaration.reason}
      else if Present(events, h, n, turn) && !Agreed(events, h, n, turn, declaration.cwd, declaration.model)
      then multiset{AmbiguousTurn}
      else multiset{}
  {
    hide Distinct, Room, Provenance.At, Held, Agreed, Present, Has, Get, Put, JsonSize, Tracked;
    var st, k := Provenance.At(p, events, n), n + 1;
    RoomyBefore(p, events, k);
    FollowsHolder(p, events, h, n);
    HeldBefore(events, h, n);
    HeldLonger(events, h, n, k);
    assert Held(events, h, k) && Room(p, events, h, k);
    StartWarns(p, st, events, h, n, k, turn);
  }

  lemma StartWarns(p: Policy, st: State, events: seq<Event>, h: nat, k: nat, n: nat, turn: string)
    requires h < k < |events| && n == k + 1 && Starts(events[k], turn) && !events[k].declaration.NotUnicode?
    requires Distinct(st.contexts) && Tracked(st.contexts, events, h, k, st.session) && st.session != ""
    requires Room(p, events, h, n) && events[h].SessionStart? && events[h].session == st.session
    ensures var declaration := events[k].declaration;
      Step(p, st, events[k]).warnings ==
      if declaration.Unusable? then multiset{declaration.reason}
      else if Present(events, h, k, turn) && !Agreed(events, h, k, turn, declaration.cwd, declaration.model)
      then multiset{AmbiguousTurn}
      else multiset{}
  {
    hide Has, Get, Put, Tracked, Distinct, JsonSize, Present, Agreed;
    var d, declaration := st.contexts, events[k].declaration;
    var context := Settled(d, turn, declaration, st.session);
    PutTracks(d, events, h, k, n, st.session, turn);
    assert Fits(p, Put(d, turn, context));
    assert TurnTracked(d, events, h, k, st.session, turn) by {
      assert Tracked(d, events, h, k, st.session);
      TrackedTurn(d, events, h, k, st.session, turn);
    }
    IsStart(p, st, events[k], turn);
    if !Has(d, turn) {
      PutLength(d, turn, context);
    }
  }

  lemma TrackedTurn(d: Dict, events: seq<Event>, h: nat, k: nat, session: string, turn: string)
    requires Tracked(d, events, h, k, session)
    ensures TurnTracked(d, events, h, k, session, turn)
  {
    hide TurnTracked;
  }

  // ---------- whole passes ----------

  /** The record that line k earns, if it earns one. */
  ghost function Earning(p: Policy, events: seq<Event>, k: nat): (records: seq<Record>)
    ensures records == [] ==> forall r :: !Earned(p, events, k, r)
    ensures records != [] ==> |records| == 1 && Earned(p, events, k, records[0])
  {
    if exists r :: Earned(p, events, k, r) then
      var r :| Earned(p, events, k, r);
      [r]
    else []
  }

  /** The records earned before line n, in the order of their lines. */
  ghost function Earnings(p: Policy, events: seq<Event>, n: nat): seq<Record>
    requires n <= |events|
  {
    if n == 0 then [] else Earnings(p, events, n - 1) + Earning(p, events, n - 1)
  }

  lemma StepEarns(p: Policy, events: seq<Event>, k: nat)
    requires k < |events| && Roomy(p, events, k)
    ensures Step(p, Provenance.At(p, events, k), events[k]).records == Earning(p, events, k)
  {
    hide Step, Roomy, Earned, Earning, Provenance.At;
    var records := Step(p, Provenance.At(p, events, k), events[k]).records;
    AtMostOne(p, Provenance.At(p, events, k), events[k]);
    var earning := Earning(p, events, k);
    if earning != [] {
      assert earning == [earning[0]];
      ProducedExactlyWhenEarned(p, events, k, earning[0]);
    } else if records != [] {
      assert records == [records[0]];
      ProducedExactlyWhenEarned(p, events, k, records[0]);
    }
  }

  /** While there is room, a pass produces exactly the records its events earn, in their order. */
  lemma {:induction false} RunProducesEarnings(p: Policy, events: seq<Event>, n: nat)
    requires n <= |events| && Roomy(p, events, n)
    ensures RunEvents(p, INITIAL, events[..n]).records == Earnings(p, events, n)
    decreases n
  {
    hide Step, Roomy, Earning, Provenance.At, RunEvents;
    if n == 0 {
      Provenance.NoRecordsAtStart(p, events);
    } else {
      RoomyBefore(p, events, n);
      RunProducesEarnings(p, events, n - 1);
      Provenance.AtStep(p, events, n - 1);
      StepEarns(p, events, n - 1);
    }
  }

  /** The same for one pass over any bytes. */
  lemma ScanProducesEarnings(p: Policy, bytes: Bytes)
    requires Roomy(p, Events(p, Lines(bytes)), |Lines(bytes)|)
    ensures Scan(p, bytes).records == Earnings(p, Events(p, Lines(bytes)), |Lines(bytes)|)
  {
    hide Step, Roomy, Earnings, LineEvent, RunEvents;
    var events := Events(p, Lines(bytes));
    RunProducesEarnings(p, events, |events|);
    assert events[..|events|] == events;
  }

  // ---------- one session on its own ----------

  /** A session named for the first time by line h and kept since is followed, whatever came before. */
  lemma {:induction false} FirstNamedIsFollowed(p: Policy, events: seq<Event>, h: nat, k: nat)
    requires h < k <= |events| && events[h].SessionStart? && events[h].session != ""
    requires forall g :: 0 <= g < h && events[g].SessionStart? ==> events[g].session != events[h].session
    requires forall i :: h < i < k ==> Keeps(events[i], events[h].session, MetaOf(events[h]))
    requires forall m: nat :: h < m <= k ==> Room(p, events, h, m)
    ensures Following(Provenance.At(p, events, k), events, h, k)
    decreases k
  {
    hide Distinct, Step, Room, Keeps, Provenance.At;
    var st := Provenance.At(p, events, k - 1);
    Provenance.AtStep(p, events, k - 1);
    if k == h + 1 {
      if st.session == events[h].session {
        var g := Provenance.SessionHasSource(p, events, h);
      }
      FoundStep(p, st, events, h, k);
    } else {
      FirstNamedIsFollowed(p, events, h, k - 1);
      KeepStep(p, st, events, h, k - 1, k);
    }
  }

  /** Line h names a session for the first time; up to line n the session is kept and there is room.
      Then line n produces a record exactly when it completes a turn that was declared under this
      session, since its last end, always as one pair, with parsed labels and an accepted identifier. */
  lemma ProducedInSession(p: Policy, events: seq<Event>, h: nat, n: nat, r: Record)
    requires h < n < |events| && events[h].SessionStart? && events[h].session != ""
    requires forall g :: 0 <= g < h && events[g].SessionStart? ==> events[g].session != events[h].session
    requires forall i :: h < i < n ==> Keeps(events[i], events[h].session, MetaOf(events[h]))
    requires forall m: nat :: h < m <= n ==> Room(p, events, h, m)
    ensures Step(p, Provenance.At(p, events, n), events[n]).records == [r] <==>
              && events[n].TurnEnd? && events[n].completion == Complete(Parsed(r.labels), r.verifiedAt)
              && Agreed(events, h, n, events[n].turn, r.cwd, r.model)
              && r.sourceId == events[h].session + ":" + events[n].turn && p.persistedSafe(r.sourceId)
  {
    hide Distinct, Step, Room, Keeps, Provenance.At, Agreed, Present, Has, Get, Held;
    var st := Provenance.At(p, events, n);
    FirstNamedIsFollowed(p, events, h, n);
    StepRecord(p, st, events[n], r);
    if events[n].TurnEnd? {
      assert TurnTracked(st.contexts, events, h, n, st.session, events[n].turn);
      if Agreed(events, h, n, events[n].turn, r.cwd, r.model) {
        AgreedIsPresent(events, h, n, events[n].turn, r.cwd, r.model);
      }
    }
  }

  // ---------- a turn declared again and again ----------

  /** A session, one turn declared any number of times as the same pair, and its completion. */
  ghost predicate Repeats(events: seq<Event>, session: string, turn: string, cwd: string, model: string) {
    && |events| >= 3 && events[0] == SessionStart(session, None) && session != ""
    && (forall i :: 1 <= i < |events| - 1 ==> events[i] == TurnStart(Some(turn), Declared(cwd, model)))
    && events[|events| - 1].TurnEnd? && events[|events| - 1].turn == turn
  }

  lemma RepeatsLive(events: seq<Event>, session: string, turn: string, cwd: string, model: string, k: nat)
    requires Repeats(events, session, turn, cwd, model) && 0 < k < |events|
    ensures forall other: string, i: nat :: Live(events, 0, k, other, i) <==> 0 < i < k && other == turn
    ensures forall other: string :: Present(events, 0, k, other) <==> 1 < k && other == turn
    ensures Agreed(events, 0, k, turn, cwd, model) <==> 1 < k
  {
    forall other: string, i: nat
      ensures Live(events, 0, k, other, i) <==> 0 < i < k && other == turn
    {
    }
    hide Live;
    if 1 < k {
      assert Live(events, 0, k, turn, 1);
    }
  }

  lemma RepeatsRoom(p: Policy, events: seq<Event>, session: string, turn: string, cwd: string, model: string, k: nat)
    requires Repeats(events, session, turn, cwd, model) && 0 < k < |events|
    requires p.maxRecords >= 1 && 2 + p.entrySize(turn, Context(false, cwd, model, session)) <= p.maxContextBytes
    ensures Room(p, events, 0, k)
  {
    hide Has, Get, Present, Agreed;
    RepeatsLive(events, session, turn, cwd, model, k);
    forall d: Dict | Distinct(d) && Tracked(d, events, 0, k, session)
      ensures Fits(p, d)
    {
      forall i | 0 <= i < |d|
        ensures d[i] == Entry(turn, Context(false, cwd, model, session))
      {
        UniqueEntry(d, d[i]);
        assert TurnTracked(d, events, 0, k, session, d[i].turn);
      }
      assert |d| > 1 ==> d[0].turn == d[1].turn;
      if |d| == 1 {
        OneEntrySize(p, d);
      }
    }
  }

  lemma OneEntrySize(p: Policy, d: Dict)
    requires |d| == 1
    ensures JsonSize(p, d) == 2 + p.entrySize(d[0].turn, d[0].context)
  {
    assert d[1..] == [];
    assert EntriesSize(p, d[1..]) == 0;
  }

  /** However often the same pair is declared, the completion still produces the record. */
  lemma RepeatedDeclarationProduces(p: Policy, events: seq<Event>, session: string, turn: string, r: Record)
    requires Repeats(events, session, turn, r.cwd, r.model)
    requires p.maxRecords >= 1
    requires 2 + p.entrySize(turn, Context(false, r.cwd, r.model, session)) <= p.maxContextBytes
    requires events[|events| - 1].completion == Complete(Parsed(r.labels), r.verifiedAt)
    requires r.sourceId == SourceId(session, turn) && p.persistedSafe(r.sourceId)
    ensures Step(p, Provenance.At(p, events, |events| - 1), events[|events| - 1]).records == [r]
  {
    hide Step, Room, Provenance.At, Agreed;
    var n := |events| - 1;
    forall m: nat | 0 < m <= n
      ensures Room(p, events, 0, m)
    {
      RepeatsRoom(p, events, session, turn, r.cwd, r.model, m);
    }
    RepeatsLive(events, session, turn, r.cwd, r.model, n);
    ProducedInSession(p, events, 0, n, r);
  }
}
