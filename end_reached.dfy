/**
 * The end-reached latch (src/List.tsx:278, 431-447): `onEndReached` fires when
 * the visible range comes within `endThreshold` items of the end, at most once
 * while the item count stays the same, and re-arms when the count drops below
 * the one it fired at (so a count that goes up and back down fires again).
 */
module EndReached {

  /** INITIAL_END_REACHED_INDEX. */
  const Unarmed: int := -1

  datatype LatchResult = LatchResult(latch: int, fired: bool)

  /** One run of the effect, given the latch it finds. */
  function LatchStep(latch: int, hasCallback: bool, count: int, endIndex: int, endThreshold: int): LatchResult
  {
    if !hasCallback then LatchResult(latch, false)
    else
      var l := if latch > count then Unarmed else latch;
      if count - 1 - endIndex <= endThreshold && l < count then LatchResult(count, true)
      else LatchResult(l, false)
  }

  /** `onEndReachedCalledIndex`, a ref that survives renders. */
  class EndReachedLatch {
    var calledIndex: int

    constructor ()
      ensures calledIndex == Unarmed
    {
      calledIndex := Unarmed;
    }

    /** The effect run after a change of `endIndex`; `fired` is whether it called `onEndReached`. */
    method OnEndIndexChanged(hasCallback: bool, count: int, endIndex: int, endThreshold: int) returns (fired: bool)
      modifies this
      ensures LatchResult(calledIndex, fired) == LatchStep(old(calledIndex), hasCallback, count, endIndex, endThreshold)
    {
      fired := false;
      if !hasCallback {
        return;
      }
      if calledIndex > count {
        calledIndex := Unarmed;
      }
      var endMargin := count - 1 - endIndex;
      if endMargin <= endThreshold && calledIndex < count {
        calledIndex := count;
        fired := true;
      }
    }
  }

  /** For a non-negative count: it fires exactly when the end is within the threshold and the latch is not at this count. */
  lemma FiresIff(latch: int, count: int, endIndex: int, endThreshold: int)
    requires count >= 0
    ensures LatchStep(latch, true, count, endIndex, endThreshold).fired
            <==> count - 1 - endIndex <= endThreshold && latch != count
  {
  }

  /** Firing sets the latch to the count; afterwards the latch never exceeds the count. */
  lemma LatchAfterStep(latch: int, count: int, endIndex: int, endThreshold: int)
    ensures var r := LatchStep(latch, true, count, endIndex, endThreshold);
            (r.fired ==> r.latch == count) && (r.latch <= count || r.latch == Unarmed)
  {
  }

  /** Without a callback the latch is never touched. */
  lemma NoCallbackNoChange(latch: int, count: int, endIndex: int, endThreshold: int)
    ensures LatchStep(latch, false, count, endIndex, endThreshold) == LatchResult(latch, false)
  {
  }

  /** After firing, the next run at the same count does not fire, wherever the range is. */
  lemma NoSecondFireAtSameCount(latch: int, count: int, e1: int, e2: int, t1: int, t2: int, cb: bool)
    requires LatchStep(latch, true, count, e1, t1).fired
    ensures !LatchStep(LatchStep(latch, true, count, e1, t1).latch, cb, count, e2, t2).fired
  {
  }

  /**
   * When the count drops below the one it fired at, the latch re-arms: the run
   * fires at once if the end is within the threshold, and otherwise leaves the
   * latch at -1.
   */
  lemma RearmsAfterShrink(latch: int, count: int, endIndex: int, endThreshold: int)
    requires count >= 0 && latch > count
    ensures LatchStep(latch, true, count, endIndex, endThreshold)
            == if count - 1 - endIndex <= endThreshold then LatchResult(count, true)
               else LatchResult(Unarmed, false)
  {
  }

  /** One effect run per observation `(count, endIndex)`. */
  datatype Observation = Observation(count: int, endIndex: int)

  /** How many times `onEndReached` is called over a sequence of effect runs. */
  function FireCount(latch: int, hasCallback: bool, obs: seq<Observation>, endThreshold: int): nat
    decreases |obs|
  {
    if obs == [] then 0
    else
      var r := LatchStep(latch, hasCallback, obs[0].count, obs[0].endIndex, endThreshold);
      (if r.fired then 1 else 0) + FireCount(r.latch, hasCallback, obs[1..], endThreshold)
  }

  /** While the count stays the same, `onEndReached` is called at most once. */
  lemma {:induction false} AtMostOncePerCount(latch: int, hasCallback: bool, obs: seq<Observation>, count: int, endThreshold: int)
    requires forall k :: 0 <= k < |obs| ==> obs[k].count == count
    ensures FireCount(latch, hasCallback, obs, endThreshold) <= 1
    decreases |obs|
  {
    if obs != [] {
      var r := LatchStep(latch, hasCallback, count, obs[0].endIndex, endThreshold);
      if r.fired {
        NeverAgainAtCount(r.latch, hasCallback, obs[1..], count, endThreshold);
      } else {
        AtMostOncePerCount(r.latch, hasCallback, obs[1..], count, endThreshold);
      }
    }
  }

  /** Once the latch holds the count, no run at that count fires. */
  lemma {:induction false} NeverAgainAtCount(latch: int, hasCallback: bool, obs: seq<Observation>, count: int, endThreshold: int)
    requires latch == count
    requires forall k :: 0 <= k < |obs| ==> obs[k].count == count
    ensures FireCount(latch, hasCallback, obs, endThreshold) == 0
    decreases |obs|
  {
    if obs != [] {
      NeverAgainAtCount(latch, hasCallback, obs[1..], count, endThreshold);
    }
  }

  /**
   * After a shrink below the count it fired at, once a run at the new count
   * reaches the end it fires exactly once, however many runs come after it at
   * that count.
   */
  lemma {:induction false} FiresOnceAfterShrink(latch: int, obs: seq<Observation>, count: int, endThreshold: int, k: nat)
    requires count >= 0 && latch > count
    requires k < |obs| && forall m :: 0 <= m < |obs| ==> obs[m].count == count
    requires count - 1 - obs[k].endIndex <= endThreshold
    ensures FireCount(latch, true, obs, endThreshold) == 1
    decreases |obs|
  {
    var r := LatchStep(latch, true, count, obs[0].endIndex, endThreshold);
    RearmsAfterShrink(latch, count, obs[0].endIndex, endThreshold);
    if r.fired {
      NeverAgainAtCount(r.latch, true, obs[1..], count, endThreshold);
    } else {
      FiresOnceWhenArmed(obs[1..], count, endThreshold, k - 1);
    }
  }

  /** From the unarmed latch, runs at one non-negative count fire exactly once if one of them reaches the end. */
  lemma {:induction false} FiresOnceWhenArmed(obs: seq<Observation>, count: int, endThreshold: int, k: nat)
    requires count >= 0
    requires k < |obs| && forall m :: 0 <= m < |obs| ==> obs[m].count == count
    requires count - 1 - obs[k].endIndex <= endThreshold
    ensures FireCount(Unarmed, true, obs, endThreshold) == 1
    decreases |obs|
  {
    var r := LatchStep(Unarmed, true, count, obs[0].endIndex, endThreshold);
    if r.fired {
      NeverAgainAtCount(r.latch, true, obs[1..], count, endThreshold);
    } else {
      assert r.latch == Unarmed;
      FiresOnceWhenArmed(obs[1..], count, endThreshold, k - 1);
    }
  }

  /** From the unarmed latch, runs that never come within the threshold never fire. */
  lemma {:induction false} NoFireBeforeEnd(latch: int, obs: seq<Observation>, endThreshold: int)
    requires latch == Unarmed
    requires forall m :: 0 <= m < |obs| ==> obs[m].count >= 0 && obs[m].count - 1 - obs[m].endIndex > endThreshold
    ensures FireCount(latch, true, obs, endThreshold) == 0
    decreases |obs|
  {
    if obs != [] {
      NoFireBeforeEnd(Unarmed, obs[1..], endThreshold);
    }
  }

  /** A count that grows and shrinks back re-arms the latch: 100, 101, 100 fires three times. */
  lemma CountChangeFiresAgain()
    ensures FireCount(Unarmed, true, [Observation(100, 99), Observation(101, 100), Observation(100, 99)], 0) == 3
  {
  }

  /**
   * With 100 items and `endThreshold = 0`, it fires once when the range first
   * ends at index 99, not again while the count stays 100, and again after the
   * list is reset to 50 items and scrolled to its end.
   */
  lemma HundredItemsScenario()
    ensures FireCount(Unarmed, true,
              [Observation(100, 12), Observation(100, 99), Observation(100, 90), Observation(100, 99)], 0) == 1
    ensures FireCount(Unarmed, true,
              [Observation(100, 99), Observation(100, 99), Observation(50, 10), Observation(50, 49)], 0) == 2
  {
  }
}
