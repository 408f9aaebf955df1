/**
 * The scroll-direction state machine kept by the observer handle of `List`
 * (src/List.tsx:284-377): the last synced offset, the scroll direction and
 * the "just resized" flag, and the four events that move them.
 */
module ScrollState {
  import opened ListTypes

  datatype ScrollState = ScrollState(prevOffset: int, direction: Direction, resized: bool)

  /** The closure's initial values: `prevOffset = -1`, SCROLL_STOP, not resized. */
  const Initial := ScrollState(-1, Stop, false)

  /** A scroll event carrying the live offset of the root element. */
  function AfterScrollEvent(s: ScrollState, offset: int): ScrollState
  {
    if s.prevOffset == offset then s
    else if s.direction == Stop || !s.resized then
      var d := if s.direction != Manual then (if s.prevOffset > offset then Up else Down) else s.direction;
      ScrollState(offset, d, s.resized)
    else
      ScrollState(offset, s.direction, false)
  }

  /** What a scroll event hands to the store: the new offset, unless it did not move. */
  function ScrollDispatch(s: ScrollState, offset: int): seq<StoreAction>
  {
    if s.prevOffset == offset then [] else [HandleScroll(offset)]
  }

  /** The debounced "scroll stopped" callback: one last sync, then SCROLL_STOP. */
  function AfterScrollStopped(s: ScrollState, offset: int): ScrollState
  {
    AfterScrollEvent(s, offset).(direction := Stop)
  }

  /** A resize batch sets `resized` exactly when it carried item sizes. */
  function AfterResizeBatch(s: ScrollState, hadItemResizes: bool): ScrollState
  {
    if hadItemResizes then s.(resized := true) else s
  }

  /** `_startManuallScroll`. */
  function AfterManualScrollStart(s: ScrollState): ScrollState
  {
    s.(direction := Manual)
  }

  /** The events of the handle, for reasoning about sequences of them. */
  datatype Event =
    | Scroll(offset: int)
    | ScrollStopped(offset: int)
    | Resized(hadItemResizes: bool)
    | ManualScrollStarted

  function Step(s: ScrollState, e: Event): ScrollState
  {
    match e
    case Scroll(o) => AfterScrollEvent(s, o)
    case ScrollStopped(o) => AfterScrollStopped(s, o)
    case Resized(b) => AfterResizeBatch(s, b)
    case ManualScrollStarted => AfterManualScrollStart(s)
  }

  function Run(s: ScrollState, es: seq<Event>): ScrollState
    decreases |es|
  {
    if es == [] then s else Run(Step(s, es[0]), es[1..])
  }

  predicate NoScrollStopped(es: seq<Event>)
  {
    forall k :: 0 <= k < |es| ==> !es[k].ScrollStopped?
  }

  // ---- one event ----

  /** An event at the offset already synced changes nothing and dispatches nothing. */
  lemma SameOffsetIsNoop(s: ScrollState)
    ensures AfterScrollEvent(s, s.prevOffset) == s
    ensures ScrollDispatch(s, s.prevOffset) == []
  {
  }

  /** A scroll event never overwrites SCROLL_MANUAL. */
  lemma ManualNotOverwritten(s: ScrollState, offset: int)
    requires s.direction == Manual
    ensures AfterScrollEvent(s, offset).direction == Manual
  {
  }

  /**
   * Outside MANUAL, and unless a resize is pending while the direction is not
   * STOP, the new direction is UP exactly when the offset decreased, DOWN otherwise.
   */
  lemma DirectionFollowsOffset(s: ScrollState, offset: int)
    requires offset != s.prevOffset && s.direction != Manual
    requires s.direction == Stop || !s.resized
    ensures AfterScrollEvent(s, offset).direction == Up <==> s.prevOffset > offset
    ensures AfterScrollEvent(s, offset).direction == Down <==> s.prevOffset < offset
    ensures AfterScrollEvent(s, offset).prevOffset == offset
    ensures AfterScrollEvent(s, offset).resized == s.resized
  {
  }

  /**
   * While the direction is not STOP, the first moving event after a resize
   * keeps the direction and only clears `resized`.
   */
  lemma ResizeSkipsDetection(s: ScrollState, offset: int)
    requires offset != s.prevOffset && s.direction != Stop && s.resized
    ensures AfterScrollEvent(s, offset) == ScrollState(offset, s.direction, false)
  {
  }

  /**
   * From STOP a resize does not skip the next event: that event detects the
   * direction and leaves `resized` set, and the skip falls on the event after it.
   */
  lemma ResizeFromStopDelaysSkip()
    ensures AfterScrollEvent(ScrollState(100, Stop, true), 50) == ScrollState(50, Up, true)
    ensures AfterScrollEvent(AfterScrollEvent(ScrollState(100, Stop, true), 50), 80) == ScrollState(80, Up, false)
  {
  }

  /** A scroll event leaves the state at STOP only if it was at STOP and did not move. */
  lemma ScrollEventNeverStops(s: ScrollState, offset: int)
    requires AfterScrollEvent(s, offset).direction == Stop
    ensures s.direction == Stop && offset == s.prevOffset
  {
  }

  /** The first scroll event after mounting always reaches the store and reads as DOWN. */
  lemma FirstEventFromInitial(offset: int)
    requires offset >= 0
    ensures AfterScrollEvent(Initial, offset) == ScrollState(offset, Down, false)
    ensures ScrollDispatch(Initial, offset) == [HandleScroll(offset)]
  {
  }

  /** Every event other than a scroll event keeps the last synced offset. */
  lemma OnlyScrollEventsMoveOffset(s: ScrollState, e: Event)
    requires !e.Scroll? && !e.ScrollStopped?
    ensures Step(s, e).prevOffset == s.prevOffset
  {
  }

  // ---- sequences of events ----

  /** Only "scroll stopped" resets a moving state to STOP. */
  lemma {:induction false} OnlyScrollStoppedResets(s: ScrollState, es: seq<Event>)
    requires s.direction != Stop
    requires NoScrollStopped(es)
    ensures Run(s, es).direction != Stop
    decreases |es|
  {
    if es != [] {
      var t := Step(s, es[0]);
      assert t.direction != Stop by {
        match es[0]
        case Scroll(o) =>
        case Resized(b) =>
        case ManualScrollStarted =>
      }
      assert NoScrollStopped(es[1..]) by {
        forall k | 0 <= k < |es[1..]| ensures !es[1..][k].ScrollStopped? {
          assert es[1..][k] == es[k + 1];
        }
      }
      OnlyScrollStoppedResets(t, es[1..]);
    }
  }

  /** Once MANUAL, the direction stays MANUAL until "scroll stopped". */
  lemma {:induction false} ManualHoldsUntilStopped(s: ScrollState, es: seq<Event>)
    requires s.direction == Manual
    requires NoScrollStopped(es)
    ensures Run(s, es).direction == Manual
    decreases |es|
  {
    if es != [] {
      var t := Step(s, es[0]);
      assert t.direction == Manual by {
        match es[0]
        case Scroll(o) =>
        case Resized(b) =>
        case ManualScrollStarted =>
      }
      assert NoScrollStopped(es[1..]) by {
        forall k | 0 <= k < |es[1..]| ensures !es[1..][k].ScrollStopped? {
          assert es[1..][k] == es[k + 1];
        }
      }
      ManualHoldsUntilStopped(t, es[1..]);
    }
  }

  /** After a run of scroll events the handle remembers the last offset it saw. */
  lemma {:induction false} PrevOffsetIsLastScrolled(s: ScrollState, offsets: seq<int>)
    requires offsets != []
    ensures Run(s, ScrollEvents(offsets)).prevOffset == offsets[|offsets| - 1]
    decreases |offsets|
  {
    var es := ScrollEvents(offsets);
    assert es[0] == Scroll(offsets[0]);
    assert es[1..] == ScrollEvents(offsets[1..]);
    if |offsets| > 1 {
      PrevOffsetIsLastScrolled(Step(s, es[0]), offsets[1..]);
    }
  }

  function ScrollEvents(offsets: seq<int>): (es: seq<Event>)
    ensures |es| == |offsets|
    ensures forall k :: 0 <= k < |es| ==> es[k] == Scroll(offsets[k])
  {
    seq(|offsets|, k requires 0 <= k < |offsets| => Scroll(offsets[k]))
  }
}
