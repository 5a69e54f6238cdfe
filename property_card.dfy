/**
 * frontend/src/components/PropertyCard.jsx: the card that shows one
 * property in the search results. It is a drag source for the favourites
 * drop zone, opens the property when clicked, and has a heart button that
 * adds the property to the favourites without opening it.
 */
module PropertyCard {
  import opened Wrappers
  import opened Listing
  import opened JsText
  import opened Favourites
  import opened Events
  import opened App
  import SearchUtils

  /** The react-dnd item type the card is dragged under. */
  const DragType := "PROPERTY"

  /** What a drag from the card carries to a drop target: its type and `{ property }`. */
  datatype DragItem = DragItem(itemType: string, property: Property)

  /** The useDrag source (lines 5-11): a card is dragged as type 'PROPERTY' carrying its own property. */
  function DragSource(property: Property): (item: DragItem)
    ensures item.itemType == "PROPERTY"
    ensures item.property == property
  {
    DragItem(DragType, property)
  }

  /** handleFavouriteClick (lines 21-26): stops propagation, and adds the property only when it is not yet a favourite. */
  function HeartClick(property: Property, isFavourite: bool): (r: HandlerResult)
    ensures r.stopPropagation
    ensures r.calls == [] || r.calls == [OnAddToFavourites(property)]
    ensures r.calls == [] <==> isFavourite
  {
    HandlerResult(if isFavourite then [] else [OnAddToFavourites(property)], true)
  }

  /** The card's own onClick (line 32): it opens the property and lets the click bubble on. */
  function CardClick(property: Property): (r: HandlerResult)
    ensures r.calls == [OnPropertyClick(property)]
    ensures !r.stopPropagation
  {
    HandlerResult([OnPropertyClick(property)], false)
  }

  /** Where on the card a click lands. */
  datatype Target = CardBody | HeartButton

  /**
   * The callbacks one click on the card invokes once bubbling is accounted
   * for. The card body opens the property and does nothing else; the heart
   * never opens it, and calls addToFavourites with the card's property
   * exactly when the card is not a favourite.
   */
  function Click(property: Property, isFavourite: bool, target: Target): (r: seq<Callback>)
    ensures target == CardBody ==> r == [OnPropertyClick(property)]
    ensures target == HeartButton ==> r == [] || r == [OnAddToFavourites(property)]
    ensures target == HeartButton ==> (r == [] <==> isFavourite)
  {
    match target
    case CardBody => CardClick(property).calls
    case HeartButton => Bubble(HeartClick(property, isFavourite), CardClick(property))
  }

  /** The heart button's class list (line 41): it contains "active" exactly when the card is a favourite. */
  function HeartClass(isFavourite: bool): (r: string)
    ensures Includes(r, "active") <==> isFavourite
  {
    var r := "favourite-btn " + (if isFavourite then "active" else "");
    assert isFavourite ==> OccursAt(r, "active", 14);
    assert !isFavourite ==> forall k :: 0 <= k < |r| ==> r[k] != 'c';
    assert !isFavourite ==> forall k :: OccursAt(r, "active", k) ==> r[k + 1] == 'c';
    r
  }

  /**
   * The "Added:" line of the card (line 65). It writes the date inline in
   * the same "Month Day, Year" form as formatPropertyDate, so the text after
   * the prefix reads back as the stored date when the month name has no space.
   */
  function AddedLabel(added: AddedDate): (r: string)
    ensures |r| >= 7 && r[..7] == "Added: "
    ensures r[7..] == SearchUtils.FormatPropertyDate(added)
    ensures ' ' !in added.month ==> SearchUtils.ParsePropertyDate(r[7..]) == Some(added)
  {
    var date := added.month + " " + IntToString(added.day) + ", " + IntToString(added.year);
    var r := "Added: " + date;
    assert r[7..] == date == SearchUtils.FormatPropertyDate(added);
    r
  }

  /**
   * A click on the heart of a card rendered for the current favourites
   * (SearchPage passes `isFavourite` from the same list) leaves the view
   * alone and stores exactly the list addToFavourites computes; a second
   * click changes nothing.
   */
  method ClickHeart(app: AppStore, property: Property)
    requires app.Valid()
    modifies app
    ensures app.Valid()
    ensures app.favourites == Added(old(app.favourites), property)
    ensures app.currentView == old(app.currentView) && app.selectedProperty == old(app.selectedProperty)
  {
    var isFavourite := IsFavourite(app.favourites, property.id);
    app.InvokeAll(Click(property, isFavourite, HeartButton));
  }

}
