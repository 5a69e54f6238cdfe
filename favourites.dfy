/**
 * The favourites list of frontend/src/App.jsx as values: the membership
 * test and the new lists that addToFavourites and removeFromFavourites
 * compute (line 26's spread and line 31's filter).
 */
module Favourites {
  import opened Listing

  /** `favourites.some(fav => fav.id === id)`, and the truthiness of the same `find`. */
  function IsFavourite(favourites: seq<Property>, id: string): (b: bool)
    ensures b <==> exists k :: 0 <= k < |favourites| && favourites[k].id == id
  {
    if favourites == [] then false
    else if favourites[0].id == id then true
    else
      var rest := IsFavourite(favourites[1..], id);
      assert forall k :: 1 <= k < |favourites| ==> favourites[k] == favourites[1..][k - 1];
      rest
  }

  /** No two entries share an id. */
  ghost predicate UniqueIds(favourites: seq<Property>) {
    forall k, l :: 0 <= k < l < |favourites| ==> favourites[k].id != favourites[l].id
  }

  /**
   * The list addToFavourites stores: `[...favourites, property]` unless the
   * id is present, in which case the list is unchanged. The old entries stay
   * in place, the id is present
   * afterwards, the ids are the old ones plus the new one, and the list
   * grows by one exactly when the id was absent.
   */
  function Added(favourites: seq<Property>, property: Property): (r: seq<Property>)
    ensures !IsFavourite(favourites, property.id) ==> r == favourites + [property]
    ensures IsFavourite(favourites, property.id) ==> r == favourites
    ensures |r| == |favourites| + (if IsFavourite(favourites, property.id) then 0 else 1)
    ensures r[..|favourites|] == favourites
    ensures IsFavourite(r, property.id)
    ensures forall id :: IsFavourite(r, id) <==> IsFavourite(favourites, id) || id == property.id
  {
    if IsFavourite(favourites, property.id) then favourites
    else
      var r := favourites + [property];
      assert r[|favourites|] == property;
      assert r[..|favourites|] == favourites;
      assert forall id :: IsFavourite(r, id) <==> IsFavourite(favourites, id) || id == property.id by {
        forall id ensures IsFavourite(r, id) <==> IsFavourite(favourites, id) || id == property.id {
          if IsFavourite(favourites, id) {
            var k :| 0 <= k < |favourites| && favourites[k].id == id;
            assert r[k] == favourites[k];
          }
        }
      }
      r
  }

  /** The list removeFromFavourites stores: `favourites.filter(fav => fav.id !== propertyId)`. */
  function Removed(favourites: seq<Property>, propertyId: string): (r: seq<Property>)
    ensures |r| <= |favourites|
    ensures !IsFavourite(r, propertyId)
    ensures forall x :: x in r ==> x in favourites && x.id != propertyId
    ensures forall k :: 0 <= k < |favourites| && favourites[k].id != propertyId ==> favourites[k] in r
  {
    if favourites == [] then []
    else if favourites[0].id == propertyId then Removed(favourites[1..], propertyId)
    else [favourites[0]] + Removed(favourites[1..], propertyId)
  }

  /** Adding the same property twice is adding it once. */
  lemma AddIsIdempotent(favourites: seq<Property>, property: Property)
    ensures Added(Added(favourites, property), property) == Added(favourites, property)
  {
  }

  lemma AddKeepsIdsUnique(favourites: seq<Property>, property: Property)
    requires UniqueIds(favourites)
    ensures UniqueIds(Added(favourites, property))
  {
  }

  lemma {:induction false} RemoveKeepsIdsUnique(favourites: seq<Property>, propertyId: string)
    requires UniqueIds(favourites)
    ensures UniqueIds(Removed(favourites, propertyId))
  {
    if favourites != [] {
      var tail := favourites[1..];
      assert UniqueIds(tail) by {
        forall k, l | 0 <= k < l < |tail| ensures tail[k].id != tail[l].id {
          assert tail[k] == favourites[k + 1] && tail[l] == favourites[l + 1];
        }
      }
      RemoveKeepsIdsUnique(tail, propertyId);
      if favourites[0].id != propertyId {
        var r := Removed(tail, propertyId);
        forall l | 0 <= l < |r| ensures r[l].id != favourites[0].id {
          assert r[l] in tail;
          var m :| 0 <= m < |tail| && tail[m] == r[l];
          assert tail[m] == favourites[m + 1];
        }
        assert Removed(favourites, propertyId) == [favourites[0]] + r;
      }
    }
  }

  /** Removing an id that no entry has leaves the list as it was. */
  lemma {:induction false} RemoveAbsentIsNoOp(favourites: seq<Property>, propertyId: string)
    requires !IsFavourite(favourites, propertyId)
    ensures Removed(favourites, propertyId) == favourites
  {
    if favourites != [] {
      RemoveAbsentIsNoOp(favourites[1..], propertyId);
    }
  }

  lemma {:induction false} RemoveDistributes(a: seq<Property>, b: seq<Property>, propertyId: string)
    ensures Removed(a + b, propertyId) == Removed(a, propertyId) + Removed(b, propertyId)
  {
    if a == [] {
      assert a + b == b;
    } else {
      assert (a + b)[1..] == a[1..] + b;
      RemoveDistributes(a[1..], b, propertyId);
    }
  }

  /** Removing a property right after adding it (when it was absent) restores the list. */
  lemma RemoveUndoesAdd(favourites: seq<Property>, property: Property)
    requires !IsFavourite(favourites, property.id)
    ensures Removed(Added(favourites, property), property.id) == favourites
  {
    RemoveDistributes(favourites, [property], property.id);
    RemoveAbsentIsNoOp(favourites, property.id);
    assert Removed([property], property.id) == [];
  }

  /** Removing the id of an entry whose id occurs nowhere else drops exactly that entry. */
  lemma RemoveSoleEntry(a: seq<Property>, x: Property, b: seq<Property>)
    requires !IsFavourite(a, x.id) && !IsFavourite(b, x.id)
    ensures Removed(a + [x] + b, x.id) == a + b
  {
    var c := a + [x];
    assert Added(a, x) == c;
    RemoveUndoesAdd(a, x);
    RemoveDistributes(c, b, x.id);
    RemoveAbsentIsNoOp(b, x.id);
  }

  /** With unique ids, removing the id of entry k drops exactly that entry. */
  lemma RemoveEntry(favourites: seq<Property>, k: nat)
    requires UniqueIds(favourites) && k < |favourites|
    ensures Removed(favourites, favourites[k].id) == favourites[..k] + favourites[k + 1..]
  {
    var a, x, b := favourites[..k], favourites[k], favourites[k + 1..];
    assert favourites == a + [x] + b;
    assert forall m :: 0 <= m < |b| ==> b[m] == favourites[k + 1 + m];
    RemoveSoleEntry(a, x, b);
  }
}
