/** The catalogue page (src/pages/CatalogPage.tsx): the query string is the single source of truth.
    Reading it yields the search text, the filter criteria and the sort key; the page shows
    `sortPhones(filterPhones(base, criteria), sort)`. Applying the filter panel writes a new query
    string, from which the same criteria are read back. */
module CatalogPage {
  import opened Common
  import opened Text
  import opened Catalog
  import opened Sorting
  import opened PhoneUtils
  import opened UrlParams

  // ---------------------------------------------------------------- query string -> criteria

  /** A parameter read with `get` and tested for truthiness: present and not the empty string. */
  function NonEmpty(v: Option<string>): (r: Option<string>)
    ensures r.Some? <==> v.Some? && v.value != ""
    ensures r.Some? ==> r == v
  {
    if v.Some? && v.value != "" then v else None
  }

  /** The criteria record the page builds from its query string. */
  function CriteriaFromParams(ps: Params): Criteria
  {
    var lists := map k | k in ListCategories && GetAll(ps, k) != [] :: Values(GetAll(ps, k));
    var price := NonEmpty(Get(ps, "priceRange"));
    if price.Some? then lists["priceRange" := Scalar(price.value)] else lists
  }

  /** The criteria read from a query string hold each list category that has at least one value, with
      all its values in order, and `priceRange` when its first value is not empty; nothing else. */
  lemma CriteriaFromParamsSpec(ps: Params)
    ensures var c := CriteriaFromParams(ps);
      && (forall k :: k in c ==> k in ListCategories || k == "priceRange")
      && (forall k :: k in ListCategories ==> (k in c <==> GetAll(ps, k) != []))
      && (forall k :: k in ListCategories && k in c ==> c[k] == Values(GetAll(ps, k)))
      && ("priceRange" in c <==> NonEmpty(Get(ps, "priceRange")).Some?)
      && ("priceRange" in c ==> c["priceRange"] == Scalar(Get(ps, "priceRange").value))
  {
    assert "priceRange" !in ListCategories;
  }

  // ---------------------------------------------------------------- sorting

  /** The sort key of the `<select>`; an unknown key falls back to popularity. */
  function ParseSortOption(sortBy: string): Ordering
  {
    if sortBy == "price-asc" then PriceAscending
    else if sortBy == "price-desc" then PriceDescending
    else if sortBy == "name-asc" then NameAscending
    else if sortBy == "name-desc" then NameDescending
    else if sortBy == "newest" then Newest
    else MostPopular
  }

  /** `sortPhones`: a sorted copy; the input sequence is a value and stays as it was. */
  function SortPhones(phones: seq<Phone>, sortBy: string): (r: seq<Phone>)
    ensures |r| == |phones| && multiset(r) == multiset(phones)
  {
    SortBy(ParseSortOption(sortBy), phones)
  }

  /** The sorted copy is ordered by the key, keeps tied phones in input order, and is the only
      sequence with these properties. */
  lemma SortPhonesSpec(phones: seq<Phone>, sortBy: string, r: seq<Phone>)
    ensures Sorted(ParseSortOption(sortBy), SortPhones(phones, sortBy))
    ensures forall x :: Ties(ParseSortOption(sortBy), x, SortPhones(phones, sortBy)) == Ties(ParseSortOption(sortBy), x, phones)
    ensures multiset(r) == multiset(phones) && Sorted(ParseSortOption(sortBy), r)
              && (forall x :: Ties(ParseSortOption(sortBy), x, r) == Ties(ParseSortOption(sortBy), x, phones))
              ==> r == SortPhones(phones, sortBy)
  {
    var o := ParseSortOption(sortBy);
    SortBySorted(o, phones);
    forall x ensures Ties(o, x, SortBy(o, phones)) == Ties(o, x, phones) {
      SortByStable(o, x, phones);
    }
    if multiset(r) == multiset(phones) && Sorted(o, r) && (forall x :: Ties(o, x, r) == Ties(o, x, phones)) {
      SortByIsTheStableSort(o, phones, r);
    }
  }

  /** What each key orders by; every key other than the five named ones orders by popularity. */
  lemma SortPhonesByKey(phones: seq<Phone>, sortBy: string)
    ensures var r := SortPhones(phones, sortBy);
      && (sortBy == "price-asc" ==> forall i, j :: 0 <= i < j < |r| ==> r[i].price <= r[j].price)
      && (sortBy == "price-desc" ==> forall i, j :: 0 <= i < j < |r| ==> r[i].price >= r[j].price)
      && (sortBy == "name-asc" ==> forall i, j :: 0 <= i < j < |r| ==> LexCompare(r[i].name, r[j].name) <= 0)
      && (sortBy == "name-desc" ==> forall i, j :: 0 <= i < j < |r| ==> LexCompare(r[j].name, r[i].name) <= 0)
      && (sortBy == "newest" ==> forall i, j :: 0 <= i < j < |r| ==> r[i].releaseYear >= r[j].releaseYear)
      && (sortBy !in {"price-asc", "price-desc", "name-asc", "name-desc", "newest"} ==>
            forall i, j :: 0 <= i < j < |r| ==> r[i].popularity >= r[j].popularity)
  {
    var o := ParseSortOption(sortBy);
    var r := SortPhones(phones, sortBy);
    SortBySorted(o, phones);
    forall i, j | 0 <= i < j < |r| ensures Compare(o, r[i], r[j]) <= 0 {
      assert Le(o, r[i], r[j]);
    }
  }

  // ---------------------------------------------------------------- the search -> filter -> sort pipeline

  /** The phones the page starts from: the search results when `search` is non-empty, else all. */
  function BaseList(catalogue: seq<Phone>, ps: Params): seq<Phone>
  {
    var q := NonEmpty(Get(ps, "search"));
    if q.Some? then SearchPhones(catalogue, q.value) else catalogue
  }

  /** The sort key in force: the `sort` parameter when non-empty, else the current option. */
  function EffectiveSort(ps: Params, current: string): string
  {
    var s := NonEmpty(Get(ps, "sort"));
    if s.Some? then s.value else current
  }

  /** The list the page shows for a query string. */
  function CatalogResults(catalogue: seq<Phone>, ps: Params, current: string): seq<Phone>
  {
    SortPhones(FilterPhones(BaseList(catalogue, ps), CriteriaFromParams(ps)), EffectiveSort(ps, current))
  }

  /** The page shows exactly the phones of the base list that pass the criteria, each as often as in
      the base list, ordered by the sort key in force; with a search, each of them matches it. */
  lemma CatalogResultsSpec(catalogue: seq<Phone>, ps: Params, current: string, p: Phone)
    ensures var r, base := CatalogResults(catalogue, ps, current), BaseList(catalogue, ps);
      && multiset(r) == multiset(FilterPhones(base, CriteriaFromParams(ps)))
      && (p in r <==> p in base && Passes(CriteriaFromParams(ps), p))
      && Sorted(ParseSortOption(EffectiveSort(ps, current)), r)
      && (NonEmpty(Get(ps, "search")).Some? && p in r ==>
            p in catalogue && MatchesQuery(p, NormalizeQuery(Get(ps, "search").value)))
  {
    var c := CriteriaFromParams(ps);
    var base := BaseList(catalogue, ps);
    var filtered := FilterPhones(base, c);
    var r := CatalogResults(catalogue, ps, current);
    assert p in r <==> p in multiset(filtered);
    FilterPhonesSpec(base, c, p);
    SortPhonesSpec(filtered, EffectiveSort(ps, current), r);
    var q := NonEmpty(Get(ps, "search"));
    if q.Some? {
      SearchPhonesSpec(catalogue, q.value, p);
    }
  }

  // ---------------------------------------------------------------- criteria -> query string

  /** The query-string values one entry of a criteria record turns into. */
  function EntryValues(v: FilterValue): seq<string>
  {
    match v
    case Values(vs) => vs
    case Scalar(s) => if s == "" then [] else [s]
  }

  /** `value.forEach(v => params.append(key, v))`. */
  function AppendAll(ps: Params, key: string, vs: seq<string>): Params
  {
    if vs == [] then ps else Append(AppendAll(ps, key, vs[..|vs| - 1]), key, vs[|vs| - 1])
  }

  /** One entry: a list is appended value by value; a non-empty string is `set`; an empty one is skipped. */
  function AddEntry(ps: Params, key: string, v: FilterValue): Params
  {
    match v
    case Values(vs) => AppendAll(ps, key, vs)
    case Scalar(s) => if s != "" then Set(ps, key, s) else ps
  }

  /** The entries of `f`, taken in the order `order` (the `Object.entries` order). */
  function AddEntries(ps: Params, f: Criteria, order: seq<string>): Params
    requires forall k :: k in order ==> k in f
  {
    if order == [] then ps
    else
      var last := order[|order| - 1];
      assert last in order;
      AddEntry(AddEntries(ps, f, order[..|order| - 1]), last, f[last])
  }

  /** The two parameters written before the filters: the current non-empty search, then the sort. */
  function BaseParams(search: Option<string>, sortOption: string): Params
  {
    var ps := if NonEmpty(search).Some? then Set([], "search", search.value) else [];
    Set(ps, "sort", sortOption)
  }

  /** The query string `handleApplyFilters` builds. */
  function SerializeFilters(search: Option<string>, sortOption: string, f: Criteria, order: seq<string>): Params
    requires forall k :: k in order ==> k in f
  {
    AddEntries(BaseParams(search, sortOption), f, order)
  }

  /** `order` lists every key of `f` exactly once, as `Object.entries` does. */
  ghost predicate EntryOrder(f: Criteria, order: seq<string>)
  {
    (forall k :: k in f <==> k in order) && NoDuplicates(order)
  }

  /** The shape the filter panel produces: lists under the list categories, a string under `priceRange`. */
  ghost predicate WellShaped(f: Criteria)
  {
    forall k :: k in f ==> (k in ListCategories && f[k].Values?) || (k == "priceRange" && f[k].Scalar?)
  }

  /** `f` without its empty lists and empty strings. */
  function Pruned(f: Criteria): (g: Criteria)
    ensures forall k :: k in g <==> k in f && EntryValues(f[k]) != []
    ensures forall k :: k in g ==> g[k] == f[k]
  {
    map k | k in f && EntryValues(f[k]) != [] :: f[k]
  }

  lemma {:induction false} AppendAllEffect(ps: Params, key: string, vs: seq<string>, other: string)
    ensures GetAll(AppendAll(ps, key, vs), key) == GetAll(ps, key) + vs
    ensures other != key ==> GetAll(AppendAll(ps, key, vs), other) == GetAll(ps, other)
  {
    if vs != [] {
      var init := vs[..|vs| - 1];
      AppendAllEffect(ps, key, init, other);
      AppendEffect(AppendAll(ps, key, init), key, vs[|vs| - 1], other);
      assert init + [vs[|vs| - 1]] == vs;
    }
  }

  /** Adding one entry to a query string with no value under its key leaves exactly the entry's
      values there. */
  lemma AddEntryOwn(ps: Params, key: string, v: FilterValue)
    requires GetAll(ps, key) == []
    ensures GetAll(AddEntry(ps, key, v), key) == EntryValues(v)
  {
    match v
    case Values(vs) => AppendAllEffect(ps, key, vs, key);
    case Scalar(s) => if s != "" { SetEffect(ps, key, s, key); }
  }

  /** Adding one entry leaves every other key as it was. */
  lemma AddEntryOther(ps: Params, key: string, v: FilterValue, other: string)
    requires other != key
    ensures GetAll(AddEntry(ps, key, v), other) == GetAll(ps, other)
  {
    match v
    case Values(vs) => AppendAllEffect(ps, key, vs, other);
    case Scalar(s) => if s != "" { SetEffect(ps, key, s, other); }
  }

  /** After the entries, a key holds what it held before followed by its entry's values, provided a
      key that has an entry held nothing before. */
  lemma {:induction false} AddEntriesGetAll(ps: Params, f: Criteria, order: seq<string>, k: string)
    requires forall key :: key in order ==> key in f
    requires NoDuplicates(order)
    requires k in order ==> GetAll(ps, k) == []
    ensures GetAll(AddEntries(ps, f, order), k) == GetAll(ps, k) + (if k in order then EntryValues(f[k]) else [])
  {
    if order != [] {
      var last, init := order[|order| - 1], order[..|order| - 1];
      assert order == init + [last];
      assert NoDuplicates(init);
      assert k in order <==> k in init || k == last;
      var before := AddEntries(ps, f, init);
      if k == last {
        assert k !in init by {
          forall i | 0 <= i < |init| ensures init[i] != k {
            assert init[i] == order[i];
          }
        }
        AddEntriesGetAll(ps, f, init, k);
        AddEntryOwn(before, k, f[k]);
      } else {
        AddEntriesGetAll(ps, f, init, k);
        AddEntryOther(before, last, f[last], k);
      }
    }
  }

  /** The two leading parameters read back as written and hold nothing under any other name. */
  lemma BaseParamsEffect(search: Option<string>, sortOption: string, k: string)
    ensures GetAll(BaseParams(search, sortOption), "sort") == [sortOption]
    ensures GetAll(BaseParams(search, sortOption), "search") == if NonEmpty(search).Some? then [search.value] else []
    ensures k != "search" && k != "sort" ==> GetAll(BaseParams(search, sortOption), k) == []
  {
    var ps: Params := if NonEmpty(search).Some? then Set([], "search", search.value) else [];
    if NonEmpty(search).Some? {
      SetEffect([], "search", search.value, k);
      SetEffect([], "search", search.value, "sort");
    }
    SetEffect(ps, "sort", sortOption, k);
    SetEffect(ps, "sort", sortOption, "search");
  }

  /** What the built query string holds under each name other than `search` and `sort`: the
      values of that name's entry, or nothing. */
  lemma SerializedValues(search: Option<string>, sortOption: string, f: Criteria, order: seq<string>, k: string)
    requires EntryOrder(f, order)
    requires k != "search" && k != "sort"
    ensures GetAll(SerializeFilters(search, sortOption, f, order), k) == if k in f then EntryValues(f[k]) else []
  {
    BaseParamsEffect(search, sortOption, k);
    AddEntriesGetAll(BaseParams(search, sortOption), f, order, k);
  }

  /** The built query string holds the sort option under `sort` and the non-empty search under
      `search`, provided the record has no entry of either name. */
  lemma SerializedSearchAndSort(search: Option<string>, sortOption: string, f: Criteria, order: seq<string>)
    requires EntryOrder(f, order)
    requires "search" !in f && "sort" !in f
    ensures Get(SerializeFilters(search, sortOption, f, order), "sort") == Some(sortOption)
    ensures NonEmpty(Get(SerializeFilters(search, sortOption, f, order), "search")) == NonEmpty(search)
  {
    var base := BaseParams(search, sortOption);
    var ps := SerializeFilters(search, sortOption, f, order);
    assert "sort" !in order && "search" !in order;
    BaseParamsEffect(search, sortOption, "sort");
    AddEntriesGetAll(base, f, order, "sort");
    assert GetAll(ps, "sort") == [sortOption];
    AddEntriesGetAll(base, f, order, "search");
    assert GetAll(ps, "search") == if NonEmpty(search).Some? then [search.value] else [];
  }

  /** Reading back a query string whose category values are those of a well-shaped record gives the
      record without its empty entries. */
  lemma CriteriaFromValues(ps: Params, f: Criteria)
    requires WellShaped(f)
    requires forall k :: k in ListCategories || k == "priceRange" ==>
               GetAll(ps, k) == if k in f then EntryValues(f[k]) else []
    ensures CriteriaFromParams(ps) == Pruned(f)
  {
    forall k ensures k in CriteriaFromParams(ps) <==> k in Pruned(f)
      ensures k in CriteriaFromParams(ps) ==> CriteriaFromParams(ps)[k] == Pruned(f)[k]
    {
      CriteriaFromValuesAt(ps, f, k);
    }
  }

  /** `CriteriaFromValues` for one key. */
  lemma CriteriaFromValuesAt(ps: Params, f: Criteria, k: string)
    requires k in f ==> (k in ListCategories && f[k].Values?) || (k == "priceRange" && f[k].Scalar?)
    requires k in ListCategories || k == "priceRange" ==> GetAll(ps, k) == if k in f then EntryValues(f[k]) else []
    ensures k in CriteriaFromParams(ps) <==> k in Pruned(f)
    ensures k in CriteriaFromParams(ps) ==> CriteriaFromParams(ps)[k] == Pruned(f)[k]
  {
    CriteriaFromParamsSpec(ps);
    assert "priceRange" !in ListCategories;
  }

  /** Round trip: reading back the query string `handleApplyFilters` builds from a well-shaped record
      gives that record without its empty entries, the search it kept and the sort it set. */
  lemma ParamsRoundTrip(search: Option<string>, sortOption: string, f: Criteria, order: seq<string>)
    requires WellShaped(f) && EntryOrder(f, order)
    ensures CriteriaFromParams(SerializeFilters(search, sortOption, f, order)) == Pruned(f)
    ensures Get(SerializeFilters(search, sortOption, f, order), "sort") == Some(sortOption)
    ensures NonEmpty(Get(SerializeFilters(search, sortOption, f, order), "search")) == NonEmpty(search)
  {
    var ps := SerializeFilters(search, sortOption, f, order);
    forall k | k in ListCategories || k == "priceRange"
      ensures GetAll(ps, k) == if k in f then EntryValues(f[k]) else []
    {
      SerializedValues(search, sortOption, f, order, k);
    }
    CriteriaFromValues(ps, f);
    SerializedSearchAndSort(search, sortOption, f, order);
  }

  // ---------------------------------------------------------------- count text

  /** `getPhoneCountText`: the form of "телефон" that follows a count. */
  function PhoneCountText(count: nat): string
  {
    if count == 0 then "телефонов"
    else
      var lastDigit, lastTwoDigits := count % 10, count % 100;
      if 11 <= lastTwoDigits <= 19 then "телефонов"
      else if lastDigit == 1 then "телефон"
      else if 2 <= lastDigit <= 4 then "телефона"
      else "телефонов"
  }

  /** The plural categories of Russian cardinals for whole numbers. */
  datatype PluralForm = One | Few | Many

  /** The CLDR plural rule for Russian whole numbers: "one" for ...1 except ...11, "few" for ...2-...4
      except ...12-...14, "many" otherwise. */
  function RussianPluralForm(n: nat): PluralForm
  {
    if n % 10 == 1 && n % 100 != 11 then One
    else if 2 <= n % 10 <= 4 && !(12 <= n % 100 <= 14) then Few
    else Many
  }

  function PhoneNoun(form: PluralForm): string
  {
    match form
    case One => "телефон"
    case Few => "телефона"
    case Many => "телефонов"
  }

  /** The count text agrees with the Russian plural rule for every count. */
  lemma PhoneCountTextIsPluralRule(count: nat)
    ensures PhoneCountText(count) == PhoneNoun(RussianPluralForm(count))
  {
  }

  /** `shown` is drawn from `base`, passes the criteria `c` and is ordered by the sort key `sortBy`. */
  ghost predicate ShownConsistent(base: seq<Phone>, shown: seq<Phone>, c: Criteria, sortBy: string)
  {
    && multiset(shown) <= multiset(base)
    && (forall i :: 0 <= i < |shown| ==> Passes(c, shown[i]))
    && Sorted(ParseSortOption(sortBy), shown)
  }

  /** The shown list is drawn from the base list, passes the criteria and is ordered by the sort in force. */
  lemma ResultsConsistent(catalogue: seq<Phone>, ps: Params, current: string)
    ensures ShownConsistent(BaseList(catalogue, ps), CatalogResults(catalogue, ps, current),
                            CriteriaFromParams(ps), EffectiveSort(ps, current))
  {
    var c := CriteriaFromParams(ps);
    var base := BaseList(catalogue, ps);
    var filtered := FilterPhones(base, c);
    var r := CatalogResults(catalogue, ps, current);
    SortPhonesSpec(filtered, EffectiveSort(ps, current), r);
    forall i | 0 <= i < |r| ensures Passes(c, r[i]) {
      assert r[i] in multiset(filtered);
      FilterMembership(p => Passes(c, p), base, r[i]);
    }
  }

  /** Re-sorting a consistent list by a new key keeps it consistent under that key. */
  lemma ResortConsistent(base: seq<Phone>, shown: seq<Phone>, c: Criteria, oldSort: string, newSort: string)
    requires ShownConsistent(base, shown, c, oldSort)
    ensures ShownConsistent(base, SortPhones(shown, newSort), c, newSort)
  {
    var r := SortPhones(shown, newSort);
    SortPhonesSpec(shown, newSort, r);
    forall i | 0 <= i < |r| ensures Passes(c, r[i]) {
      assert r[i] in multiset(shown);
      var k :| 0 <= k < |shown| && shown[k] == r[i];
    }
  }

  // ---------------------------------------------------------------- the page state

  /** The page's state: the query string and the four state fields the page keeps. */
  class CatalogView {
    const catalogue: seq<Phone>
    var params: Params
    var phones: seq<Phone>
    var filteredPhones: seq<Phone>
    var activeFilters: Criteria
    var sortOption: string

    /** What is shown is drawn from the base list, passes the criteria in force, and is ordered by the
        sort option in force. */
    ghost predicate Consistent()
      reads this
    {
      ShownConsistent(phones, filteredPhones, activeFilters, sortOption)
    }

    /** Mounting: empty lists, sort option "popularity", then the query-string effect. */
    constructor(catalogue: seq<Phone>, params: Params)
      ensures this.catalogue == catalogue && this.params == params
      ensures activeFilters == CriteriaFromParams(params)
      ensures sortOption == EffectiveSort(params, "popularity")
      ensures phones == BaseList(catalogue, params)
      ensures filteredPhones == CatalogResults(catalogue, params, "popularity")
      ensures Consistent()
    {
      this.catalogue := catalogue;
      this.params := params;
      phones := [];
      filteredPhones := [];
      activeFilters := map[];
      sortOption := "popularity";
      new;
      Sync();
    }

    /** The effect that runs whenever the query string changes. */
    method Sync()
      modifies this
      ensures params == old(params)
      ensures activeFilters == CriteriaFromParams(params)
      ensures sortOption == EffectiveSort(params, old(sortOption))
      ensures phones == BaseList(catalogue, params)
      ensures filteredPhones == CatalogResults(catalogue, params, old(sortOption))
      ensures Consistent()
    {
      var searchQuery := Get(params, "search");
      var sort := Get(params, "sort");
      var filters := CriteriaFromParams(params);
      var current := sortOption;
      var allPhones := catalogue;
      if searchQuery.Some? && searchQuery.value != "" {
        allPhones := SearchPhones(catalogue, searchQuery.value);
      }
      var filtered := FilterPhones(allPhones, filters);
      var results := SortPhones(filtered, if sort.Some? && sort.value != "" then sort.value else current);
      assert allPhones == BaseList(catalogue, params);
      assert results == CatalogResults(catalogue, params, current);
      ResultsConsistent(catalogue, params, current);
      activeFilters := filters;
      if sort.Some? && sort.value != "" {
        sortOption := sort.value;
      }
      phones := allPhones;
      filteredPhones := results;
    }

    /** `handleApplyFilters`: a fresh query string holding the current non-empty search, the current
        sort option and the entries of `filters` in `order`; nothing else changes until `Sync`. */
    method ApplyFilters(filters: Criteria, order: seq<string>)
      requires EntryOrder(filters, order)
      modifies this`params
      ensures params == SerializeFilters(Get(old(params), "search"), sortOption, filters, order)
    {
      var ps: Params := [];
      var searchQuery := Get(params, "search");
      if searchQuery.Some? && searchQuery.value != "" {
        ps := Set(ps, "search", searchQuery.value);
      }
      ps := Set(ps, "sort", sortOption);
      var base := ps;
      var i := 0;
      while i < |order|
        invariant 0 <= i <= |order|
        invariant ps == AddEntries(base, filters, order[..i])
      {
        var key := order[i];
        assert key in order;
        match filters[key] {
        case Values(vs) =>
          var before := ps;
          var j := 0;
          while j < |vs|
            invariant 0 <= j <= |vs|
            invariant ps == AppendAll(before, key, vs[..j])
          {
            ps := Append(ps, key, vs[j]);
            assert vs[..j + 1][..j] == vs[..j];
            j := j + 1;
          }
          assert vs[..j] == vs;
        case Scalar(s) =>
          if s != "" {
            ps := Set(ps, key, s);
          }
        }
        assert order[..i + 1][..i] == order[..i];
        i := i + 1;
      }
      assert order[..i] == order;
      params := ps;
    }

    /** `handleSortChange`: the new option is recorded in the state and in the query string, and the
        list on screen is re-sorted as it stands, without filtering again. */
    method SortChange(sortValue: string)
      requires Consistent()
      modifies this`sortOption, this`params, this`filteredPhones
      ensures sortOption == sortValue
      ensures params == Set(old(params), "sort", sortValue)
      ensures filteredPhones == SortPhones(old(filteredPhones), sortValue)
      ensures Consistent()
    {
      sortOption := sortValue;
      params := Set(params, "sort", sortValue);
      ResortConsistent(phones, filteredPhones, activeFilters, old(sortOption), sortValue);
      filteredPhones := SortPhones(filteredPhones, sortValue);
    }
  }
}
