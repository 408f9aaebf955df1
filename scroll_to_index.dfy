/**
 * `scrollToIndex` of the `List` handle (src/List.tsx:449-500): clamp the index,
 * compute the destination against the live scroll size, and, while the store
 * reports unmeasured items in the destination range, move the store there and
 * wait for the items to be measured before scrolling for real.
 *
 * What the store and the DOM answer is an input: a snapshot before the first
 * round, then, for each wait, whether it was cancelled and the snapshot after it.
 */
module ScrollToIndex {
  import opened ListTypes
  import opened StoreLog
  import opened ScrollState
  import opened ObserverHandle

  /** What one evaluation of the store and the element reads. */
  datatype Snapshot = Snapshot(
    itemOffset: int,               // store._getItemOffset(index) of the clamped index
    scrollSize: int,               // el.scrollHeight or el.scrollWidth
    viewportSize: int,             // store._getViewportSize()
    hasUnmeasuredInRange: bool)    // store._hasUnmeasuredItemsInRange(index)

  /** The outcome of one `await store._waitForScrollDestinationItemsMeasured()`. */
  datatype Round = Round(cancelled: bool, after: Snapshot)

  datatype Outcome =
    | Detached          // no scroll element: nothing happens
    | Cancelled         // a wait was cancelled: the call ends without scrolling
    | Waiting           // the given rounds ran out while still waiting
    | Scrolled(offset: int)

  /** What a call does: its outcome and the scroll offsets it hands to the store. */
  datatype CallResult = CallResult(outcome: Outcome, probes: seq<StoreAction>)

  /** `index = max(min(index, count - 1), 0)`. */
  function ClampIndex(index: int, count: int): (r: int)
    ensures r >= 0
    ensures count >= 1 ==> r < count
    ensures 0 <= index < count ==> r == index
    ensures index >= count >= 1 ==> r == count - 1
    ensures count <= 1 || index <= 0 ==> r == 0
  {
    var m := if index < count - 1 then index else count - 1;
    if m > 0 then m else 0
  }

  /** `getScrollDestination`: the item's offset, pulled back so the viewport does not pass the end. */
  function ScrollDestination(itemOffset: int, scrollSize: int, viewportSize: int): (d: int)
    ensures d <= scrollSize - viewportSize
    ensures itemOffset < scrollSize - viewportSize ==> d == itemOffset
    ensures d == itemOffset || d == scrollSize - viewportSize
  {
    if scrollSize - (itemOffset + viewportSize) <= 0 then scrollSize - viewportSize else itemOffset
  }

  function Destination(s: Snapshot): int
  {
    ScrollDestination(s.itemOffset, s.scrollSize, s.viewportSize)
  }

  /** The do-while loop, from the snapshot `cur` taken before a round. */
  function MeasureLoop(cur: Snapshot, rounds: seq<Round>): CallResult
    decreases |rounds|
  {
    var probe := [HandleScroll(Destination(cur))];
    if rounds == [] then CallResult(Waiting, probe)
    else if rounds[0].cancelled then CallResult(Cancelled, probe)
    else if !rounds[0].after.hasUnmeasuredInRange then CallResult(Scrolled(Destination(rounds[0].after)), probe)
    else
      var rest := MeasureLoop(rounds[0].after, rounds[1..]);
      CallResult(rest.outcome, probe + rest.probes)
  }

  /** The whole call, from the snapshot taken after clamping. */
  function ScrollToIndexRun(attached: bool, first: Snapshot, rounds: seq<Round>): CallResult
  {
    if !attached then CallResult(Detached, [])
    else if first.hasUnmeasuredInRange then MeasureLoop(first, rounds)
    else CallResult(Scrolled(Destination(first)), [HandleScroll(Destination(first))])
  }

  /**
   * The call itself.  `target` is the clamped index whose offset the snapshots
   * report.  On success the handle is switched to manual scrolling.
   */
  method ScrollToIndex(h: Handle, attached: bool, index: int, count: int, first: Snapshot, rounds: seq<Round>)
    returns (target: int, o: Outcome)
    modifies h, h.store
    ensures target == ClampIndex(index, count) || !attached
    ensures o == ScrollToIndexRun(attached, first, rounds).outcome
    ensures h.store.actions == old(h.store.actions) + ScrollToIndexRun(attached, first, rounds).probes
    ensures h.State() == if o.Scrolled? then AfterManualScrollStart(old(h.State())) else old(h.State())
    ensures h.mountedIndexes == old(h.mountedIndexes)
  {
    target := index;
    if !attached {
      o := Detached;
      return;
    }
    target := if index < count - 1 then index else count - 1;
    target := if target > 0 then target else 0;

    if first.hasUnmeasuredInRange {
      var cur := first;
      var k := 0;
      ghost var done: seq<StoreAction> := [];
      while true
        invariant 0 <= k <= |rounds|
        invariant k > 0 ==> !rounds[k - 1].cancelled && cur == rounds[k - 1].after && cur.hasUnmeasuredInRange
        invariant k == 0 ==> cur == first
        invariant h.store.actions == old(h.store.actions) + done
        invariant MeasureLoop(first, rounds)
                  == CallResult(MeasureLoop(cur, rounds[k..]).outcome, done + MeasureLoop(cur, rounds[k..]).probes)
        invariant h.State() == old(h.State()) && h.mountedIndexes == old(h.mountedIndexes)
        decreases |rounds| - k
      {
        h.store.Update(HandleScroll(Destination(cur)));
        done := done + [HandleScroll(Destination(cur))];
        if k == |rounds| {
          o := Waiting;
          return;
        }
        if rounds[k].cancelled {
          o := Cancelled;
          return;
        }
        cur := rounds[k].after;
        k := k + 1;
        if !cur.hasUnmeasuredInRange {
          break;
        }
        assert rounds[k - 1..][1..] == rounds[k..];
      }
      o := Scrolled(Destination(cur));
    } else {
      var offset := Destination(first);
      o := Scrolled(offset);
      h.store.Update(HandleScroll(offset));
    }
    h.StartManualScroll();
  }

  // ---- properties of the protocol ----

  /** The loop stops scrolling only on a snapshot with nothing unmeasured, and never past the end. */
  lemma {:induction false} ScrolledOnlyWhenMeasured(cur: Snapshot, rounds: seq<Round>)
    requires MeasureLoop(cur, rounds).outcome.Scrolled?
    ensures exists k :: 0 <= k < |rounds| && !rounds[k].after.hasUnmeasuredInRange
                        && MeasureLoop(cur, rounds).outcome.offset == Destination(rounds[k].after)
                        && MeasureLoop(cur, rounds).outcome.offset
                           <= rounds[k].after.scrollSize - rounds[k].after.viewportSize
    decreases |rounds|
  {
    if rounds[0].cancelled || !rounds[0].after.hasUnmeasuredInRange {
    } else {
      ScrolledOnlyWhenMeasured(rounds[0].after, rounds[1..]);
      var k :| 0 <= k < |rounds[1..]| && !rounds[1..][k].after.hasUnmeasuredInRange
               && MeasureLoop(rounds[0].after, rounds[1..]).outcome.offset == Destination(rounds[1..][k].after)
               && MeasureLoop(rounds[0].after, rounds[1..]).outcome.offset
                  <= rounds[1..][k].after.scrollSize - rounds[1..][k].after.viewportSize;
      assert rounds[1..][k] == rounds[k + 1];
    }
  }

  /** The loop scrolls at the first round whose snapshot has nothing unmeasured, unless a wait before it was cancelled. */
  lemma {:induction false} ScrollsAtFirstMeasuredRound(cur: Snapshot, rounds: seq<Round>, k: nat)
    requires k < |rounds| && !rounds[k].after.hasUnmeasuredInRange
    requires forall m :: 0 <= m <= k ==> !rounds[m].cancelled
    requires forall m :: 0 <= m < k ==> rounds[m].after.hasUnmeasuredInRange
    ensures MeasureLoop(cur, rounds).outcome == Scrolled(Destination(rounds[k].after))
    ensures |MeasureLoop(cur, rounds).probes| == k + 1
    decreases k
  {
    if k > 0 {
      ScrollsAtFirstMeasuredRound(rounds[0].after, rounds[1..], k - 1);
    }
  }

  /** The call ends as cancelled only when some wait was cancelled. */
  lemma {:induction false} CancelledEndsCall(cur: Snapshot, rounds: seq<Round>)
    requires MeasureLoop(cur, rounds).outcome == Cancelled
    ensures exists k :: 0 <= k < |rounds| && rounds[k].cancelled
    decreases |rounds|
  {
    if !rounds[0].cancelled {
      CancelledEndsCall(rounds[0].after, rounds[1..]);
      var k :| 0 <= k < |rounds[1..]| && rounds[1..][k].cancelled;
      assert rounds[1..][k] == rounds[k + 1];
    }
  }

  /**
   * A cancelled wait, reached before any round reports everything measured,
   * ends the call as cancelled after one store update per round started.
   */
  lemma {:induction false} CancelledWaitEndsCall(cur: Snapshot, rounds: seq<Round>, m: nat)
    requires m < |rounds| && rounds[m].cancelled
    requires forall i :: 0 <= i < m ==> !rounds[i].cancelled && rounds[i].after.hasUnmeasuredInRange
    ensures MeasureLoop(cur, rounds).outcome == Cancelled
    ensures |MeasureLoop(cur, rounds).probes| == m + 1
    decreases m
  {
    if m > 0 {
      CancelledWaitEndsCall(rounds[0].after, rounds[1..], m - 1);
    }
  }

  /** The store is moved at least once and at most once per wait plus one, each time to a destination no further than the largest scrollable distance of any snapshot in the input. */
  lemma {:induction false} ProbesWithinBounds(cur: Snapshot, rounds: seq<Round>)
    ensures 1 <= |MeasureLoop(cur, rounds).probes| <= |rounds| + 1
    ensures forall a :: a in MeasureLoop(cur, rounds).probes ==>
              a.HandleScroll? && a.offset <= MaxScrollSize(cur, rounds)
    decreases |rounds|
  {
    if rounds != [] && !rounds[0].cancelled && rounds[0].after.hasUnmeasuredInRange {
      ProbesWithinBounds(rounds[0].after, rounds[1..]);
      MaxScrollSizeTail(cur, rounds);
    }
  }

  /** The largest scrollable distance any snapshot of a call reports. */
  function MaxScrollSize(cur: Snapshot, rounds: seq<Round>): (m: int)
    ensures m >= cur.scrollSize - cur.viewportSize
    decreases |rounds|
  {
    if rounds == [] then cur.scrollSize - cur.viewportSize
    else
      var rest := MaxScrollSize(rounds[0].after, rounds[1..]);
      if rest > cur.scrollSize - cur.viewportSize then rest else cur.scrollSize - cur.viewportSize
  }

  lemma MaxScrollSizeTail(cur: Snapshot, rounds: seq<Round>)
    requires rounds != []
    ensures MaxScrollSize(rounds[0].after, rounds[1..]) <= MaxScrollSize(cur, rounds)
  {
  }

  /** A destination is never negative while the content is at least as long as the viewport. */
  lemma DestinationNonNegative(itemOffset: int, scrollSize: int, viewportSize: int)
    requires itemOffset >= 0 && scrollSize >= viewportSize
    ensures ScrollDestination(itemOffset, scrollSize, viewportSize) >= 0
  {
  }

  /** When everything is measured, the store and the element are moved to the same destination at once. */
  lemma MeasuredTargetScrollsAtOnce(first: Snapshot, rounds: seq<Round>)
    requires !first.hasUnmeasuredInRange
    ensures ScrollToIndexRun(true, first, rounds)
            == CallResult(Scrolled(Destination(first)), [HandleScroll(Destination(first))])
  {
  }
}
