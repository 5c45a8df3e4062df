/** The two pages that show a stored list of ids (src/pages/ComparePage.tsx and
    src/pages/FavoritesPage.tsx): each id is looked up in the catalogue, ids with no record are
    dropped, and the page shows either its empty state or a count line followed by the phones. */
module SavedPages {
  import opened Common
  import opened Catalog
  import opened CompareTable
  import opened CatalogPage

  /** `ids.map(getPhoneById).filter(p => p !== null)`. */
  function Resolve(catalogue: seq<Phone>, ids: seq<string>): (r: seq<Phone>)
    ensures |r| <= |ids|
    ensures forall i :: 0 <= i < |r| ==> r[i].id in ids && r[i] in catalogue
  {
    if ids == [] then []
    else
      var rest := Resolve(catalogue, ids[1..]);
      match GetPhoneById(catalogue, ids[0])
      case Some(p) => [p] + rest
      case None => rest
  }

  /** Resolution works id by id, so it distributes over concatenation: the order of the ids is the
      order of the phones. */
  lemma {:induction false} ResolveConcat(catalogue: seq<Phone>, a: seq<string>, b: seq<string>)
    ensures Resolve(catalogue, a + b) == Resolve(catalogue, a) + Resolve(catalogue, b)
  {
    if a == [] {
      assert a + b == b;
    } else {
      assert (a + b)[0] == a[0];
      assert (a + b)[1..] == a[1..] + b;
      ResolveConcat(catalogue, a[1..], b);
    }
  }

  /** The id names a record of the catalogue. */
  predicate Known(catalogue: seq<Phone>, id: string)
  {
    GetPhoneById(catalogue, id).Some?
  }

  /** When every id names a record, nothing is dropped: the page shows one phone per id, position by
      position. */
  lemma {:induction false} ResolveAllFound(catalogue: seq<Phone>, ids: seq<string>)
    requires forall i :: 0 <= i < |ids| ==> Known(catalogue, ids[i])
    ensures |Resolve(catalogue, ids)| == |ids|
    ensures forall i :: 0 <= i < |ids| ==> GetPhoneById(catalogue, ids[i]) == Some(Resolve(catalogue, ids)[i])
  {
    if ids != [] {
      assert Known(catalogue, ids[0]);
      assert forall i :: 0 <= i < |ids[1..]| ==> Known(catalogue, ids[1..][i]) by {
        forall i | 0 <= i < |ids[1..]| ensures Known(catalogue, ids[1..][i]) {
          assert ids[1..][i] == ids[i + 1];
        }
      }
      ResolveAllFound(catalogue, ids[1..]);
      var r := Resolve(catalogue, ids);
      forall i | 0 <= i < |ids| ensures GetPhoneById(catalogue, ids[i]) == Some(r[i]) {
        if i > 0 {
          assert r[i] == Resolve(catalogue, ids[1..])[i - 1];
          assert ids[1..][i - 1] == ids[i];
        }
      }
    }
  }

  /** The resolved list is empty exactly when no stored id names a record. */
  lemma {:induction false} ResolveEmptyIff(catalogue: seq<Phone>, ids: seq<string>)
    ensures Resolve(catalogue, ids) == [] <==> forall i :: 0 <= i < |ids| ==> !Known(catalogue, ids[i])
  {
    if ids != [] {
      ResolveEmptyIff(catalogue, ids[1..]);
      if forall i :: 0 <= i < |ids[1..]| ==> !Known(catalogue, ids[1..][i]) {
        forall i | 0 <= i < |ids| ensures !Known(catalogue, ids[i]) || i == 0 {
          if i > 0 {
            assert ids[1..][i - 1] == ids[i];
          }
        }
      } else {
        var i :| 0 <= i < |ids[1..]| && Known(catalogue, ids[1..][i]);
        assert ids[1..][i] == ids[i + 1];
      }
    }
  }

  /** What the comparison page shows under its heading. */
  datatype ComparePageView =
    | CompareEmpty
    | Comparing(count: nat, noun: string, table: CompareView)

  /** What the favourites page shows under its heading. */
  datatype FavoritesPageView =
    | FavoritesEmpty
    | Favorites(count: nat, noun: string, phones: seq<Phone>)

  /** ComparePage: the stored ids resolved, then the empty state or "Сравниваем N <noun>" and the
      comparison table of exactly those phones. */
  function ComparePage(catalogue: seq<Phone>, compareItems: seq<string>): (v: ComparePageView)
    ensures v.CompareEmpty? <==> forall i :: 0 <= i < |compareItems| ==> !Known(catalogue, compareItems[i])
    ensures v.Comparing? ==> v.count <= |compareItems| && v.table.Table? && |v.table.headers| == v.count
    ensures v.Comparing? ==> v.count == |Resolve(catalogue, compareItems)| && v.noun == PhoneCountText(v.count)
    ensures v.Comparing? ==> v.table == Render(Resolve(catalogue, compareItems))
  {
    ResolveEmptyIff(catalogue, compareItems);
    var phones := Resolve(catalogue, compareItems);
    if |phones| == 0 then CompareEmpty
    else Comparing(|phones|, PhoneCountText(|phones|), Render(phones))
  }

  /** FavoritesPage: the stored ids resolved, then the empty state or "В избранном: N <noun>" and one
      card per phone, in the order of the stored ids. */
  function FavoritesPage(catalogue: seq<Phone>, favorites: seq<string>): (v: FavoritesPageView)
    ensures v.FavoritesEmpty? <==> forall i :: 0 <= i < |favorites| ==> !Known(catalogue, favorites[i])
    ensures v.Favorites? ==> v.count == |v.phones| <= |favorites|
    ensures v.Favorites? ==> forall i :: 0 <= i < |v.phones| ==> v.phones[i].id in favorites
    ensures v.Favorites? ==> v.phones == Resolve(catalogue, favorites) && v.noun == PhoneCountText(v.count)
  {
    ResolveEmptyIff(catalogue, favorites);
    var phones := Resolve(catalogue, favorites);
    if |phones| == 0 then FavoritesEmpty
    else Favorites(|phones|, PhoneCountText(|phones|), phones)
  }

  /** When every stored id names a record, both pages show all of them: the count is the number of
      ids and the favourites page lists, position by position, the phone each id names. */
  lemma {:induction false} PagesShowEveryKnownId(catalogue: seq<Phone>, ids: seq<string>)
    requires ids != [] && forall i :: 0 <= i < |ids| ==> Known(catalogue, ids[i])
    ensures ComparePage(catalogue, ids).Comparing? && ComparePage(catalogue, ids).count == |ids|
    ensures FavoritesPage(catalogue, ids).Favorites? && FavoritesPage(catalogue, ids).count == |ids|
    ensures forall i :: 0 <= i < |ids| ==> GetPhoneById(catalogue, ids[i]) == Some(FavoritesPage(catalogue, ids).phones[i])
  {
    ResolveAllFound(catalogue, ids);
  }
}
