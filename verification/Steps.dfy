/** A script of coming steps, each of which fails or does not, and what a stretch of it held. */
module Steps {

  /** Does this one of the coming steps fail? */
  predicate Flag(faults: seq<bool>, i: nat) {
    i < |faults| && faults[i]
  }

  /** What is still to come after so many steps. */
  function After(faults: seq<bool>, steps: nat): seq<bool> {
    if steps <= |faults| then faults[steps..] else []
  }

  /** None of the next so many steps fails. */
  ghost predicate Unfailing(faults: seq<bool>, steps: nat) {
    forall i: nat :: i < steps ==> !Flag(faults, i)
  }

  /** So many steps were taken and none failed. */
  ghost predicate Taken(before: seq<bool>, now: seq<bool>, steps: nat) {
    now == After(before, steps) && Unfailing(before, steps)
  }

  lemma TakenMore(a: seq<bool>, b: seq<bool>, c: seq<bool>, m: nat, n: nat)
    requires Taken(a, b, m) && Taken(b, c, n)
    ensures Taken(a, c, m + n)
  {
    AfterMore(a, m, n);
    forall i: nat | i < m + n
      ensures !Flag(a, i)
    {
      if i >= m && i < |a| {
        assert !Flag(b, i - m);
      }
    }
  }

  lemma AfterMore(faults: seq<bool>, m: nat, n: nat)
    ensures After(After(faults, m), n) == After(faults, m + n)
    ensures forall i: nat :: Flag(After(faults, m), i) <==> Flag(faults, m + i)
  {
  }

  /** Every step taken between these two moments succeeded. */
  ghost predicate AllClear(before: seq<bool>, now: seq<bool>) {
    exists steps: nat :: Taken(before, now, steps)
  }

  lemma TakenIsClear(before: seq<bool>, now: seq<bool>, steps: nat)
    requires Taken(before, now, steps)
    ensures AllClear(before, now)
  {
  }

  lemma AllClearMore(a: seq<bool>, b: seq<bool>, c: seq<bool>)
    requires AllClear(a, b) && AllClear(b, c)
    ensures AllClear(a, c)
  {
    hide Taken;
    var m: nat :| Taken(a, b, m);
    var n: nat :| Taken(b, c, n);
    TakenMore(a, b, c, m, n);
  }

  lemma AllClearNothing(a: seq<bool>)
    ensures AllClear(a, a)
  {
    assert Taken(a, a, 0);
  }

  /** A step between these two moments failed, and it was the last one taken. */
  ghost predicate LastFailed(before: seq<bool>, now: seq<bool>) {
    |now| < |before| && before[|before| - |now| - 1]
  }

  lemma NoneTaken(faults: seq<bool>)
    ensures Taken(faults, faults, 0)
  {
  }

  /** What failed last still did, seen from before. */
  lemma FailedLater(a: seq<bool>, b: seq<bool>, c: seq<bool>, n: nat)
    requires Taken(a, b, n) && LastFailed(b, c)
    ensures LastFailed(a, c)
  {
  }

  lemma UnfailingMore(a: seq<bool>, b: seq<bool>, m: nat, n: nat)
    requires Taken(a, b, m) && Unfailing(b, n)
    ensures Unfailing(a, m + n)
  {
    forall i: nat | i < m + n
      ensures !Flag(a, i)
    {
      if i >= m && i < |a| {
        assert !Flag(b, i - m);
      }
    }
  }
}
