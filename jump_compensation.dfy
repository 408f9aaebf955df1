/**
 * Scroll-jump compensation (src/List.tsx:396-429): after the store reports
 * size changes (`[index, delta]` pairs), how far the component moves the
 * real scroll position so that what the user is looking at stays put.
 */
module JumpCompensation {
  import opened ListTypes

  /** One entry of the store's jump list. */
  datatype Jump = Jump(index: int, delta: int)

  /** `jump.reduce((acc, [, j]) => acc + j, 0)`: a left fold. */
  function SumDeltas(js: seq<Jump>): int
    decreases |js|
  {
    if js == [] then 0 else SumDeltas(js[..|js| - 1]) + js[|js| - 1].delta
  }

  /** The MANUAL branch's reducer, folded from the left. */
  function ManualFold(js: seq<Jump>, startIndex: int, isStartInView: bool, isEndInView: bool): int
    decreases |js|
  {
    if js == [] then 0
    else
      var acc := ManualFold(js[..|js| - 1], startIndex, isStartInView, isEndInView);
      var j := js[|js| - 1];
      if j.index < startIndex then
        (if !isStartInView then acc + j.delta else acc)
      else
        (if !isStartInView && isEndInView then acc + j.delta else acc)
  }

  /**
   * The correction added to the scroll position by the layout effect that
   * runs when the jump list changes.  `mounted` is whether the scroll element
   * exists; a zero result means the position is not written at all.
   */
  function Correction(mounted: bool, direction: Direction, js: seq<Jump>,
                      startIndex: int, endIndex: int, count: int): (diff: int)
    ensures !mounted || js == [] || direction == Stop || direction == Down ==> diff == 0
  {
    if !mounted || js == [] then 0
    else match direction
      case Up => SumDeltas(js)
      case Manual =>
        var isStartInView := startIndex == 0;
        var isEndInView := endIndex - (count - 1) == 0;
        ManualFold(js, startIndex, isStartInView, isEndInView)
      case _ => 0
  }

  // ---- reference definitions, folded from the right ----

  /** The sum of all deltas. */
  function Total(js: seq<Jump>): int
    decreases |js|
  {
    if js == [] then 0 else js[0].delta + Total(js[1..])
  }

  /** The sum of the deltas of items above the start of the visible range. */
  function TotalAbove(js: seq<Jump>, startIndex: int): int
    decreases |js|
  {
    if js == [] then 0
    else (if js[0].index < startIndex then js[0].delta else 0) + TotalAbove(js[1..], startIndex)
  }

  /** The sum of the deltas of items at or below the start of the visible range. */
  function TotalFrom(js: seq<Jump>, startIndex: int): int
    decreases |js|
  {
    if js == [] then 0
    else (if js[0].index >= startIndex then js[0].delta else 0) + TotalFrom(js[1..], startIndex)
  }

  lemma {:induction false} TotalAppend(js: seq<Jump>, j: Jump, startIndex: int)
    ensures Total(js + [j]) == Total(js) + j.delta
    ensures TotalAbove(js + [j], startIndex) == TotalAbove(js, startIndex) + (if j.index < startIndex then j.delta else 0)
    ensures TotalFrom(js + [j], startIndex) == TotalFrom(js, startIndex) + (if j.index >= startIndex then j.delta else 0)
    decreases |js|
  {
    if js != [] {
      assert (js + [j])[1..] == js[1..] + [j];
      TotalAppend(js[1..], j, startIndex);
    }
  }

  /** The left fold of `reduce` sums every delta. */
  lemma {:induction false} SumDeltasIsTotal(js: seq<Jump>)
    ensures SumDeltas(js) == Total(js)
    decreases |js|
  {
    if js != [] {
      var init := js[..|js| - 1];
      SumDeltasIsTotal(init);
      TotalAppend(init, js[|js| - 1], 0);
      assert init + [js[|js| - 1]] == js;
    }
  }

  /** The deltas above the start and those from the start on make up the whole. */
  lemma {:induction false} TotalSplits(js: seq<Jump>, startIndex: int)
    ensures Total(js) == TotalAbove(js, startIndex) + TotalFrom(js, startIndex)
    decreases |js|
  {
    if js != [] {
      TotalSplits(js[1..], startIndex);
    }
  }

  /** The MANUAL fold, stated against the reference sums. */
  lemma {:induction false} ManualFoldIsPartition(js: seq<Jump>, startIndex: int, isStartInView: bool, isEndInView: bool)
    ensures ManualFold(js, startIndex, isStartInView, isEndInView)
            == (if isStartInView then 0
                else TotalAbove(js, startIndex) + (if isEndInView then TotalFrom(js, startIndex) else 0))
    decreases |js|
  {
    if js != [] {
      var init := js[..|js| - 1];
      ManualFoldIsPartition(init, startIndex, isStartInView, isEndInView);
      TotalAppend(init, js[|js| - 1], startIndex);
      assert init + [js[|js| - 1]] == js;
    }
  }

  // ---- the properties of the correction ----

  /** Scrolling up: the correction is the sum of all deltas, whatever their indices. */
  lemma UpAddsEveryDelta(js: seq<Jump>, startIndex: int, endIndex: int, count: int)
    ensures Correction(true, Up, js, startIndex, endIndex, count) == Total(js)
    ensures Correction(true, Up, js, startIndex, endIndex, count)
            == TotalAbove(js, startIndex) + TotalFrom(js, startIndex)
  {
    SumDeltasIsTotal(js);
    TotalSplits(js, startIndex);
  }

  /** Manual scroll pinned to the start: nothing is added, whatever the deltas. */
  lemma ManualPinnedStartKeepsPosition(js: seq<Jump>, endIndex: int, count: int)
    ensures Correction(true, Manual, js, 0, endIndex, count) == 0
  {
    if js != [] {
      ManualFoldIsPartition(js, 0, true, endIndex == count - 1);
    }
  }

  /**
   * Manual scroll away from the start: the deltas above the start are always
   * added; those at or after it only when the end of the list is in view.
   */
  lemma ManualAwayFromStart(js: seq<Jump>, startIndex: int, endIndex: int, count: int)
    requires startIndex != 0
    ensures Correction(true, Manual, js, startIndex, endIndex, count)
            == TotalAbove(js, startIndex) + (if endIndex == count - 1 then TotalFrom(js, startIndex) else 0)
  {
    if js != [] {
      ManualFoldIsPartition(js, startIndex, false, endIndex == count - 1);
    }
  }

  /** Manual scroll stuck to the end (and not the start): every delta is added, as when scrolling up. */
  lemma ManualStuckToEndAddsEveryDelta(js: seq<Jump>, startIndex: int, count: int)
    requires startIndex != 0
    ensures Correction(true, Manual, js, startIndex, count - 1, count)
            == Correction(true, Up, js, startIndex, count - 1, count)
  {
    ManualAwayFromStart(js, startIndex, count - 1, count);
    UpAddsEveryDelta(js, startIndex, count - 1, count);
  }

  /** Growth of one item above the start while scrolling up moves the position by exactly that much. */
  lemma UpGrowthAboveStart(index: int, startIndex: int, endIndex: int, count: int)
    requires index < startIndex
    ensures Correction(true, Up, [Jump(index, 50)], startIndex, endIndex, count) == 50
  {
    var js := [Jump(index, 50)];
    assert js[..0] == [];
    assert SumDeltas(js) == SumDeltas([]) + 50;
  }
}
