/**
 * frontend/src/components/FavouritesList.jsx: the favourites panel beside
 * the search results. It is a drop target for dragged property cards, and
 * lists the favourites with a count, a Clear All button, and a remove
 * button on each entry.
 */
module FavouritesList {
  import opened Wrappers
  import opened Listing
  import opened JsText
  import opened Favourites
  import opened Events
  import opened App
  import PropertyCard

  /** The react-dnd item type the panel accepts (line 12). */
  const AcceptType := "PROPERTY"

  /** Whether react-dnd hands the item to this panel's drop handler: only items of type 'PROPERTY'. */
  function Accepts(item: PropertyCard.DragItem): (b: bool)
    ensures b <==> item.itemType == "PROPERTY"
  {
    item.itemType == AcceptType
  }

  /** The drop handler (lines 13-20): addToFavourites unless an entry already has the dragged property's id. */
  function DropHandler(favourites: seq<Property>, item: PropertyCard.DragItem): (r: seq<Callback>)
    ensures r == [] || r == [OnAddToFavourites(item.property)]
    ensures r == [] <==> IsFavourite(favourites, item.property.id)
  {
    if IsFavourite(favourites, item.property.id) then [] else [OnAddToFavourites(item.property)]
  }

  /**
   * A drop on the panel: react-dnd calls the handler only for items of the
   * accepted type, so a drop adds the dragged property exactly when its type
   * is accepted and its id is not yet among the favourites.
   */
  function Drop(favourites: seq<Property>, item: PropertyCard.DragItem): (r: seq<Callback>)
    ensures r == [] || r == [OnAddToFavourites(item.property)]
    ensures r != [] <==> Accepts(item) && !IsFavourite(favourites, item.property.id)
  {
    if Accepts(item) then DropHandler(favourites, item) else []
  }

  /** What the header and the body show (lines 39-58). */
  datatype Header = Header(title: string, clearAllShown: bool, emptyHintShown: bool)

  /**
   * The title is "Favourites (n)" with n the number of favourites in
   * decimal, so the number reads back as the list length; exactly one of
   * the Clear All button and the empty hint is shown.
   */
  function RenderHeader(favourites: seq<Property>): (h: Header)
    ensures h.title == "Favourites (" + NatToDecimal(|favourites|) + ")"
    ensures |h.title| >= 14 && h.title[..12] == "Favourites ("
    ensures ParseInt(h.title[12..|h.title| - 1]) == Some(|favourites|)
    ensures h.clearAllShown <==> favourites != []
    ensures h.emptyHintShown == !h.clearAllShown
  {
    var count := NatToDecimal(|favourites|);
    var h := Header("Favourites (" + count + ")", |favourites| > 0, |favourites| == 0);
    assert h.title[12..|h.title| - 1] == count;
    ParseIntOfDecimal(|favourites|, count);
    h
  }

  /** The clickable elements of the panel: entry k, the remove button of entry k, and Clear All. */
  datatype Target = Item(k: nat) | RemoveButton(k: nat) | ClearAll

  /** Whether the element is on screen: entries exist for each favourite, Clear All only when the list is non-empty. */
  predicate Rendered(favourites: seq<Property>, target: Target) {
    match target
    case Item(k) => k < |favourites|
    case RemoveButton(k) => k < |favourites|
    case ClearAll => |favourites| > 0
  }

  /** An entry's onClick (line 65): it opens the favourite and lets the click bubble on. */
  function ItemClick(property: Property): (r: HandlerResult)
    ensures r.calls == [OnPropertyClick(property)]
    ensures !r.stopPropagation
  {
    HandlerResult([OnPropertyClick(property)], false)
  }

  /** The remove button's onClick (lines 79-82): stops propagation, then removes by id. */
  function RemoveClick(property: Property): (r: HandlerResult)
    ensures r.stopPropagation
    ensures r.calls == [OnRemoveFromFavourites(property.id)]
  {
    HandlerResult([OnRemoveFromFavourites(property.id)], true)
  }

  /** The callbacks one click invokes; the remove button sits inside its entry, Clear All inside no clickable element. */
  function Click(favourites: seq<Property>, target: Target): (r: seq<Callback>)
    requires Rendered(favourites, target)
    ensures target.Item? ==> r == [OnPropertyClick(favourites[target.k])]
    ensures target.RemoveButton? ==> r == [OnRemoveFromFavourites(favourites[target.k].id)]
    ensures target.ClearAll? ==> r == [OnClearFavourites]
  {
    match target
    case Item(k) => ItemClick(favourites[k]).calls
    case RemoveButton(k) => Bubble(RemoveClick(favourites[k]), ItemClick(favourites[k]))
    case ClearAll => [OnClearFavourites]
  }

  /** Dragging a property card onto the panel is accepted; items of any other type are ignored. */
  lemma AcceptsExactlyPropertyCards(property: Property, item: PropertyCard.DragItem)
    ensures Accepts(PropertyCard.DragSource(property))
    ensures item.itemType != PropertyCard.DragType ==> forall favourites :: Drop(favourites, item) == []
  {
  }

  /** Dropping a card and clicking its heart end in the same state: the one addToFavourites produces. */
  lemma DropAgreesWithHeart(s: Snapshot, property: Property)
    ensures StepAll(s, Drop(s.favourites, PropertyCard.DragSource(property)))
            == StepAll(s, PropertyCard.Click(property, IsFavourite(s.favourites, property.id), PropertyCard.HeartButton))
    ensures StepAll(s, Drop(s.favourites, PropertyCard.DragSource(property)))
            == Step(s, OnAddToFavourites(property))
  {
  }

  /** Dropping the same card a second time changes nothing. */
  lemma SecondDropIsIgnored(s: Snapshot, property: Property)
    ensures var t := StepAll(s, Drop(s.favourites, PropertyCard.DragSource(property)));
            StepAll(t, Drop(t.favourites, PropertyCard.DragSource(property))) == t
  {
  }

  /** Removing entry k drops exactly that entry and does not open it. */
  lemma RemoveButtonDropsEntry(s: Snapshot, k: nat)
    requires Consistent(s) && k < |s.favourites|
    ensures StepAll(s, Click(s.favourites, RemoveButton(k)))
            == s.(favourites := s.favourites[..k] + s.favourites[k + 1..])
  {
    var cb := OnRemoveFromFavourites(s.favourites[k].id);
    assert Click(s.favourites, RemoveButton(k)) == [cb];
    StepAllOne(s, cb);
    assert Removed(s.favourites, s.favourites[k].id) == s.favourites[..k] + s.favourites[k + 1..] by {
      RemoveEntry(s.favourites, k);
    }
  }

  /** Clicking entry k opens that property and keeps the list. */
  lemma ItemClickOpensEntry(s: Snapshot, k: nat)
    requires k < |s.favourites|
    ensures StepAll(s, Click(s.favourites, Item(k)))
            == s.(currentView := PropertyView, selectedProperty := Some(s.favourites[k]))
  {
  }

  /** After Clear All the panel shows the empty hint and no Clear All button. */
  lemma ClearAllEmptiesPanel(s: Snapshot)
    requires s.favourites != []
    ensures var t := StepAll(s, Click(s.favourites, ClearAll));
            t.favourites == [] && RenderHeader(t.favourites).emptyHintShown
            && !RenderHeader(t.favourites).clearAllShown
            && t.currentView == s.currentView
  {
  }

  /** A drop on the panel, applied to the application state. */
  method DropOnPanel(app: AppStore, item: PropertyCard.DragItem)
    requires app.Valid()
    modifies app
    ensures app.Valid()
    ensures app.favourites == if Accepts(item) then Added(old(app.favourites), item.property) else old(app.favourites)
    ensures app.currentView == old(app.currentView) && app.selectedProperty == old(app.selectedProperty)
  {
    app.InvokeAll(Drop(app.favourites, item));
  }

  /** A click on the remove button of entry k, applied to the application state. */
  method ClickRemove(app: AppStore, k: nat)
    requires app.Valid() && k < |app.favourites|
    modifies app
    ensures app.Valid()
    ensures app.favourites == old(app.favourites[..k] + app.favourites[k + 1..])
    ensures app.currentView == old(app.currentView) && app.selectedProperty == old(app.selectedProperty)
  {
    RemoveButtonDropsEntry(app.State(), k);
    app.InvokeAll(Click(app.favourites, RemoveButton(k)));
  }
}
