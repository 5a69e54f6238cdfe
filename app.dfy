/**
 * The application state of frontend/src/App.jsx: which view is shown, the
 * property the detail view shows, and the favourites list, together with
 * the five handlers that change them.
 */
module App {
  import opened Wrappers
  import opened Listing
  import opened Favourites
  import opened Events

  /** `currentView`, the strings 'search' and 'property'. */
  datatype View = SearchView | PropertyView

  /** The three pieces of React state App holds. */
  datatype Snapshot = Snapshot(currentView: View, selectedProperty: Option<Property>, favourites: seq<Property>)

  /** The useState initial values (lines 9-11). */
  const InitialSnapshot := Snapshot(SearchView, None, [])

  /**
   * The state after one callback, as each handler's setters leave it. The
   * two navigation handlers leave the favourites alone, the three list
   * handlers leave the view and the selection alone.
   */
  function Step(s: Snapshot, cb: Callback): (r: Snapshot)
    ensures cb.OnPropertyClick? ==> r.currentView == PropertyView && r.selectedProperty == Some(cb.property)
    ensures cb.OnBackToSearch? ==> r.currentView == SearchView && r.selectedProperty == None
    ensures cb.OnPropertyClick? || cb.OnBackToSearch? ==> r.favourites == s.favourites
    ensures !(cb.OnPropertyClick? || cb.OnBackToSearch?) ==>
              r.currentView == s.currentView && r.selectedProperty == s.selectedProperty
    ensures cb.OnAddToFavourites? ==> r.favourites == Added(s.favourites, cb.property)
    ensures cb.OnAddToFavourites? ==> IsFavourite(r.favourites, cb.property.id)
    ensures cb.OnRemoveFromFavourites? ==> r.favourites == Removed(s.favourites, cb.propertyId)
    ensures cb.OnRemoveFromFavourites? ==> !IsFavourite(r.favourites, cb.propertyId)
    ensures cb.OnClearFavourites? ==> r.favourites == []
  {
    match cb
    case OnPropertyClick(property) => s.(selectedProperty := Some(property), currentView := PropertyView)
    case OnBackToSearch => s.(currentView := SearchView, selectedProperty := None)
    case OnAddToFavourites(property) => s.(favourites := Added(s.favourites, property))
    case OnRemoveFromFavourites(propertyId) => s.(favourites := Removed(s.favourites, propertyId))
    case OnClearFavourites => s.(favourites := [])
  }

  /** The state after the callbacks in order, each one seeing the state the previous left. */
  function StepAll(s: Snapshot, cbs: seq<Callback>): Snapshot
    decreases |cbs|
  {
    if cbs == [] then s else StepAll(Step(s, cbs[0]), cbs[1..])
  }

  /**
   * What the handlers keep true: the favourites never hold two entries with
   * one id, and the detail view is shown exactly when a property is selected.
   */
  ghost predicate Consistent(s: Snapshot) {
    && UniqueIds(s.favourites)
    && (s.currentView == PropertyView <==> s.selectedProperty.Some?)
  }

  lemma StepKeepsConsistency(s: Snapshot, cb: Callback)
    requires Consistent(s)
    ensures Consistent(Step(s, cb))
  {
    match cb
    case OnAddToFavourites(property) => AddKeepsIdsUnique(s.favourites, property);
    case OnRemoveFromFavourites(propertyId) => RemoveKeepsIdsUnique(s.favourites, propertyId);
    case _ =>
  }

  lemma {:induction false} StepAllKeepsConsistency(s: Snapshot, cbs: seq<Callback>)
    requires Consistent(s)
    ensures Consistent(StepAll(s, cbs))
    decreases |cbs|
  {
    if cbs != [] {
      StepKeepsConsistency(s, cbs[0]);
      StepAllKeepsConsistency(Step(s, cbs[0]), cbs[1..]);
    }
  }

  lemma StepAllOne(s: Snapshot, cb: Callback)
    ensures StepAll(s, [cb]) == Step(s, cb)
  {
    assert [cb][1..] == [];
  }

  /** What App renders (lines 41-57). */
  datatype Page = SearchPage | PropertyPage(property: Property, isFavourite: bool) | Nothing

  /**
   * The search page shows in the search view; the property page shows the
   * selected property, flagged as a favourite exactly when some favourite
   * has its id; nothing shows in the property view without a selection.
   */
  function Rendered(s: Snapshot): (r: Page)
    ensures r.SearchPage? <==> s.currentView == SearchView
    ensures r.Nothing? <==> s.currentView.PropertyView? && s.selectedProperty.None?
    ensures r.PropertyPage? ==>
              && s.selectedProperty == Some(r.property)
              && (r.isFavourite <==> exists k :: 0 <= k < |s.favourites| && s.favourites[k].id == r.property.id)
  {
    if s.currentView == SearchView then SearchPage
    else if s.selectedProperty.Some? then
      PropertyPage(s.selectedProperty.value, IsFavourite(s.favourites, s.selectedProperty.value.id))
    else Nothing
  }

  /** In every state the handlers can reach, App renders one of its two pages, never an empty container. */
  lemma ConsistentStateRendersAPage(s: Snapshot)
    requires Consistent(s)
    ensures Rendered(s) != Nothing
    ensures s.currentView == PropertyView ==>
              Rendered(s) == PropertyPage(s.selectedProperty.value,
                                          exists k :: 0 <= k < |s.favourites| && s.favourites[k].id == s.selectedProperty.value.id)
  {
  }

  /** Opening a property shows its detail page, flagged as a favourite iff its id is in the list; going back shows the search page. */
  lemma NavigationRenders(s: Snapshot, property: Property)
    ensures Rendered(Step(s, OnPropertyClick(property))) == PropertyPage(property, IsFavourite(s.favourites, property.id))
    ensures Rendered(Step(s, OnBackToSearch)) == SearchPage
    ensures Step(Step(s, OnPropertyClick(property)), OnBackToSearch).favourites == s.favourites
  {
  }

  /** The App component's state, updated in place by its handlers. */
  class AppStore {
    var currentView: View
    var selectedProperty: Option<Property>
    var favourites: seq<Property>

    function State(): Snapshot
      reads this
    {
      Snapshot(currentView, selectedProperty, favourites)
    }

    ghost predicate Valid()
      reads this
    {
      Consistent(State())
    }

    constructor ()
      ensures State() == InitialSnapshot
      ensures Valid()
    {
      currentView := SearchView;
      selectedProperty := None;
      favourites := [];
    }

    /** handlePropertyClick (lines 13-16). */
    method HandlePropertyClick(property: Property)
      requires Valid()
      modifies this
      ensures Valid()
      ensures selectedProperty == Some(property) && currentView == PropertyView
      ensures favourites == old(favourites)
    {
      selectedProperty := Some(property);
      currentView := PropertyView;
    }

    /** handleBackToSearch (lines 18-21). */
    method HandleBackToSearch()
      requires Valid()
      modifies this
      ensures Valid()
      ensures currentView == SearchView && selectedProperty == None
      ensures favourites == old(favourites)
    {
      currentView := SearchView;
      selectedProperty := None;
    }

    /** addToFavourites (lines 23-28): appends the property unless an entry already has its id. */
    method AddToFavourites(property: Property)
      requires Valid()
      modifies this
      ensures Valid()
      ensures favourites == Added(old(favourites), property)
      ensures currentView == old(currentView) && selectedProperty == old(selectedProperty)
    {
      if !IsFavourite(favourites, property.id) {
        AddKeepsIdsUnique(favourites, property);
        favourites := favourites + [property];
      }
    }

    /** removeFromFavourites (lines 30-32). */
    method RemoveFromFavourites(propertyId: string)
      requires Valid()
      modifies this
      ensures Valid()
      ensures favourites == Removed(old(favourites), propertyId)
      ensures currentView == old(currentView) && selectedProperty == old(selectedProperty)
    {
      RemoveKeepsIdsUnique(favourites, propertyId);
      favourites := Removed(favourites, propertyId);
    }

    /** clearFavourites (lines 34-36). */
    method ClearFavourites()
      requires Valid()
      modifies this
      ensures Valid()
      ensures favourites == []
      ensures currentView == old(currentView) && selectedProperty == old(selectedProperty)
    {
      favourites := [];
    }

    /** Invoking one callback prop runs the handler it is bound to. */
    method Invoke(cb: Callback)
      requires Valid()
      modifies this
      ensures Valid()
      ensures State() == Step(old(State()), cb)
    {
      match cb
      case OnPropertyClick(property) => HandlePropertyClick(property);
      case OnBackToSearch => HandleBackToSearch();
      case OnAddToFavourites(property) => AddToFavourites(property);
      case OnRemoveFromFavourites(propertyId) => RemoveFromFavourites(propertyId);
      case OnClearFavourites => ClearFavourites();
    }

    /** Invoking the callbacks one event produced, in order. */
    method InvokeAll(cbs: seq<Callback>)
      requires Valid()
      modifies this
      ensures Valid()
      ensures State() == StepAll(old(State()), cbs)
      decreases |cbs|
    {
      if cbs != [] {
        Invoke(cbs[0]);
        InvokeAll(cbs[1..]);
      }
    }
  }
}
