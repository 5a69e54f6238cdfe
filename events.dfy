/**
 * The callbacks App.jsx hands down to its child components, and the DOM
 * click bubbling that decides which of them one click invokes.
 */
module Events {
  import opened Listing

  /** One invocation of a callback prop that App (frontend/src/App.jsx) defines. */
  datatype Callback =
    | OnPropertyClick(property: Property)
    | OnBackToSearch
    | OnAddToFavourites(property: Property)
    | OnRemoveFromFavourites(propertyId: string)
    | OnClearFavourites

  /** What one element's onClick handler did: the callbacks it invoked, and whether it called `e.stopPropagation()`. */
  datatype HandlerResult = HandlerResult(calls: seq<Callback>, stopPropagation: bool)

  /**
   * A click on a nested element runs the element's own handler and then,
   * unless that handler stopped propagation, the handler of the element
   * around it.
   */
  function Bubble(inner: HandlerResult, outer: HandlerResult): (r: seq<Callback>)
    ensures inner.stopPropagation ==> r == inner.calls
    ensures !inner.stopPropagation ==> r == inner.calls + outer.calls
  {
    if inner.stopPropagation then inner.calls else inner.calls + outer.calls
  }
}
