/**
 * The observer handle that `List` creates once per instance
 * (src/List.tsx:280-378): a closure over `prevOffset`, `scrollDirection`,
 * `resized` and the element-to-index map of mounted items, here a class
 * with those fields.  The store it updates is represented by its log of
 * dispatched actions.
 */
module ObserverHandle {
  import opened ListTypes
  import opened StoreLog
  import opened ScrollState
  import opened ResizeBatch

  class Handle {
    /** The scrollable root element passed to `_init`. */
    const root: Element
    const isHorizontal: bool
    const store: Store

    var prevOffset: int
    var scrollDirection: Direction
    var resized: bool
    var mountedIndexes: map<Element, nat>

    /** The three closure variables as one value. */
    function State(): ScrollState
      reads this
    {
      ScrollState(prevOffset, scrollDirection, resized)
    }

    /** Creating the handle and running `_init(root)` on it. */
    constructor (root: Element, isHorizontal: bool, store: Store)
      ensures this.root == root && this.isHorizontal == isHorizontal && this.store == store
      ensures State() == Initial && mountedIndexes == map[]
    {
      this.root := root;
      this.isHorizontal := isHorizontal;
      this.store := store;
      prevOffset := -1;
      scrollDirection := Stop;
      resized := false;
      mountedIndexes := map[];
    }

    /** `syncViewportToScrollPosition`, reading `offset` from the root element. */
    method SyncViewportToScrollPosition(offset: int)
      modifies this, store
      ensures State() == AfterScrollEvent(old(State()), offset)
      ensures store.actions == old(store.actions) + ScrollDispatch(old(State()), offset)
      ensures mountedIndexes == old(mountedIndexes)
    {
      if prevOffset == offset {
        return;
      }
      if scrollDirection == Stop || !resized {
        if scrollDirection != Manual {
          scrollDirection := if prevOffset > offset then Up else Down;
        }
      } else {
        resized := false;
      }
      prevOffset := offset;
      store.Update(HandleScroll(offset));
    }

    /** The scroll listener (arming the debounce timer is not modelled). */
    method OnScroll(offset: int)
      modifies this, store
      ensures State() == AfterScrollEvent(old(State()), offset)
      ensures store.actions == old(store.actions) + ScrollDispatch(old(State()), offset)
      ensures mountedIndexes == old(mountedIndexes)
    {
      SyncViewportToScrollPosition(offset);
    }

    /** The debounced callback that runs once scrolling has stopped. */
    method OnScrollStopped(offset: int)
      modifies this, store
      ensures State() == AfterScrollStopped(old(State()), offset)
      ensures scrollDirection == Stop
      ensures store.actions == old(store.actions) + ScrollDispatch(old(State()), offset)
      ensures mountedIndexes == old(mountedIndexes)
    {
      SyncViewportToScrollPosition(offset);
      scrollDirection := Stop;
    }

    /** The ResizeObserver callback for one batch of entries. */
    method OnResize(entries: seq<ResizeEntry>)
      modifies this, store
      ensures store.actions == old(store.actions) + BatchActions(entries, root, mountedIndexes, isHorizontal)
      ensures State() == AfterResizeBatch(old(State()), ItemResizes(entries, root, mountedIndexes, isHorizontal) != [])
      ensures mountedIndexes == old(mountedIndexes)
    {
      var resizes: seq<ItemResize> := [];
      var k := 0;
      while k < |entries|
        invariant 0 <= k <= |entries|
        invariant resizes == ItemResizes(entries[..k], root, mountedIndexes, isHorizontal)
        invariant store.actions == old(store.actions) + ViewportUpdates(entries[..k], root)
        invariant State() == old(State()) && mountedIndexes == old(mountedIndexes)
      {
        var entry := entries[k];
        assert entries[..k + 1][..k] == entries[..k];
        if entry.target == root {
          store.Update(UpdateViewportSize(entry.width, entry.height));
        } else if entry.target in mountedIndexes {
          var index := mountedIndexes[entry.target];
          resizes := resizes + [ItemResize(index, if isHorizontal then entry.width else entry.height)];
        }
        k := k + 1;
      }
      assert entries[..k] == entries;
      if |resizes| > 0 {
        store.Update(UpdateItemSizes(resizes));
        resized := true;
      }
    }

    /** `_observe(el, i)`: remember the element's index (its observer registration is not modelled). */
    method Observe(el: Element, i: nat)
      modifies this
      ensures mountedIndexes == old(mountedIndexes)[el := i]
      ensures State() == old(State())
    {
      mountedIndexes := mountedIndexes[el := i];
    }

    /** The cleanup returned by `_observe`: forget the element. */
    method Unobserve(el: Element)
      modifies this
      ensures mountedIndexes == old(mountedIndexes) - {el}
      ensures State() == old(State())
    {
      mountedIndexes := mountedIndexes - {el};
    }

    /** `_startManuallScroll`. */
    method StartManualScroll()
      modifies this
      ensures State() == AfterManualScrollStart(old(State()))
      ensures mountedIndexes == old(mountedIndexes)
    {
      scrollDirection := Manual;
    }
  }
}
