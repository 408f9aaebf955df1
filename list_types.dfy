/**
 * Types shared by the pieces of the `List` component (src/List.tsx):
 * the scroll direction enum, element identities, and the actions the
 * component dispatches to its virtual store.
 */
module ListTypes {

  /** SCROLL_STOP, SCROLL_DOWN, SCROLL_UP and SCROLL_MANUAL (src/List.tsx:26-29). */
  datatype Direction = Stop | Down | Up | Manual

  /** The identity of a DOM element (the root viewport or a rendered item). */
  type Element = nat

  /** One `[index, size]` pair of an item-size update. */
  datatype ItemResize = ItemResize(index: nat, size: int)

  /**
   * The actions the component hands to `store._update`.  The store itself is
   * not part of this model; what matters here is which actions reach it and
   * in which order.
   */
  datatype StoreAction =
    | HandleScroll(offset: int)
    | UpdateViewportSize(width: int, height: int)
    | UpdateItemSizes(entries: seq<ItemResize>)
    | UpdateCacheLength(length: nat)
}

/**
 * The store's update entry point, seen from the component: every call of
 * `store._update` appends its action to `actions`.
 */
module StoreLog {
  import opened ListTypes

  class Store {
    var actions: seq<StoreAction>

    constructor ()
      ensures actions == []
    {
      actions := [];
    }

    method Update(a: StoreAction)
      modifies this
      ensures actions == old(actions) + [a]
    {
      actions := actions + [a];
    }
  }
}
