# Phone catalogue storefront — a verified model of its core logic

This project models in Dafny the logic of a single-page phone shop written with React and
TypeScript. It does not model the screens. It covers the following parts:

- **Catalogue queries.** Look-up by id, text search, the five-category filter, the similar-phones
  ranking and the popular and newest lists.
- **Catalogue page.** The page turns the query string into filter criteria, runs search, filter and
  sort, and writes the criteria back into the query string. It also chooses the Russian plural form
  of "телефон".
- **Filter panel.** The draft criteria and the check-box toggle.
- **Comparison table.** Rows are highlighted where the phones disagree.
- **Saved lists.** The comparison list (at most four ids, first in first out), the favourites
  (toggled) and the cart (id and quantity). Each is stored under a key that depends on who is
  signed in.
- **Sign-in.** The local sign-in stub with its stored account list, and the form that validates
  input before calling it.
- **Carousel.** The home-page carousel index.

Code that changes state in place is modelled as classes. These are `CatalogView`, `FilterPanel`,
`CompareList`, `FavoritesList`, `Cart`, `AuthService`, `AuthForm` and `Banner`. Their methods are
proved against pure functions. The properties of those functions are proved as lemmas.

Helper modules model the JavaScript built-ins the code relies on:

- `Common`: `filter` and `slice(0, n)` with a negative end.
- `Text`: `toLowerCase`, `trim`, `includes`, `split`, `Number` and `localeCompare`.
- `Sorting`: `Array.prototype.sort`, which is stable, driven by the source's comparators. It is
  specified as the unique sorted, stable permutation.
- `UrlParams`: `URLSearchParams` `get`, `getAll`, `append` and `set`.

Some inputs become parameters:

- the catalogue, because its data file is not part of this model;
- the order of `Object.entries`;
- the clock-based id of a new account;
- the window width.

Browser storage becomes a map from keys to slots. A slot is empty, parsed or unparseable, and a
missing key is `null`.

Where the code and its description disagree, the model follows the code:

- **Identity change.** When the identity changes and nothing is stored under the new key, the
  comparison list, favourites and cart keep the previous identity's contents. The save effect then
  writes those contents under the new key. So the namespaces of different users are not independent
  in that case. `ChangeIdentity` states exactly this.
- **Plural helpers.** `src/pages/ComparePage.tsx:79-98` and `src/pages/FavoritesPage.tsx:58-77` hold
  copies of `getPhoneCountText`. Both copies are identical to `src/pages/CatalogPage.tsx:182-201`, so
  one function, `CatalogPage.PhoneCountText`, serves all three pages.

## Model

| member | source | states |
|---|---|---|
| `Catalog.GetPhoneById` | src/utils/phoneUtils.ts:8-10 | `None` exactly when no catalogue record has the id; otherwise the first record with that id |
| `Catalog.GetPhoneByIdFindsEach` | src/utils/phoneUtils.ts:8-10 | with unique ids, looking up the id of the k-th record returns that record |
| `PhoneUtils.SearchBlankQuery` | src/utils/phoneUtils.ts:45-47 | a query that is empty or all whitespace after trimming gives `[]` |
| `PhoneUtils.SearchPhonesSpec` | src/utils/phoneUtils.ts:44-58 | `SearchPhones` (`searchPhones`) returns an order-preserving subsequence of the catalogue; a phone is in it iff the trimmed, lower-cased query is non-empty and occurs in the lower-cased name, brand, os, processor name or description, and then it occurs as often as in the catalogue |
| `PhoneUtils.ListConstraint` | src/utils/phoneUtils.ts:66-69 | a list category constrains only when present as a non-empty list, and then by exactly that list |
| `PhoneUtils.PriceConstraint` | src/utils/phoneUtils.ts:158 | `priceRange` constrains only when it is a non-empty string |
| `PhoneUtils.FilterPhonesSpec` | src/utils/phoneUtils.ts:60-182 | `FilterPhones` (`filterPhones`) returns an order-preserving subsequence; a phone is kept iff it passes brand and os membership, some memory token, some screen bucket, some battery bucket and the price band, and a kept phone occurs as often as in the input |
| `PhoneUtils.FilterPhonesNoCriteria` | src/utils/phoneUtils.ts:60-182 | with `{}` every phone is kept, in order |
| `PhoneUtils.FilterPhonesIdempotent` | src/utils/phoneUtils.ts:60-182 | filtering twice with the same criteria equals filtering once |
| `PhoneUtils.FilterPhonesSameVerdicts` | src/utils/phoneUtils.ts:60-182 | criteria that accept the same phones filter every list the same way |
| `PhoneUtils.FilterPhonesEmptyListIsAbsent` | src/utils/phoneUtils.ts:66-70 | a category given as an empty list filters like an absent category |
| `PhoneUtils.FilterPhonesIgnoresMisshapen` | src/utils/phoneUtils.ts:60-182 | a list category given a single string, or `priceRange` given a list or `""`, filters like an absent one |
| `PhoneUtils.ScreenBucketsPartition` | src/utils/phoneUtils.ts:110-121 | every screen size falls in exactly one of small, medium, large and xlarge |
| `PhoneUtils.BatteryBucketsPartition` | src/utils/phoneUtils.ts:138-149 | every capacity falls in exactly one of the four battery buckets |
| `PhoneUtils.PriceBandsPartition` | src/utils/phoneUtils.ts:161-177 | every price falls in exactly one of the five half-open bands at 15000/30000/50000/80000 |
| `PhoneUtils.MemoryTokenMatchesExactly` | src/utils/phoneUtils.ts:91-94 | the token `"<ram>-<storage>"` matches a phone iff its ram and storage are those numbers |
| `PhoneUtils.SimilarPhonesMembers` | src/utils/phoneUtils.ts:24-42 | `GetSimilarPhones` (`getSimilarPhones`) never includes the phone's id, takes phones from the catalogue that share brand or os or differ in price by less than 15000, and returns at most `limit` |
| `PhoneUtils.SimilarPhonesTopRanked` | src/utils/phoneUtils.ts:24-42 | `GetSimilarPhones` returns min(limit, \|candidates\|) of the candidates, and no candidate left out ranks before one taken (brand first, then price distance); every related catalogue phone other than the phone itself is a candidate as often as it occurs |
| `PhoneUtils.SimilarPhonesRanking` | src/utils/phoneUtils.ts:32-40 | same-brand phones come first; within each group the price distance never decreases |
| `PhoneUtils.SimilarPhonesTieOrder` | src/utils/phoneUtils.ts:26-41 | phones that rank equal keep their catalogue order (stable sort) |
| `PhoneUtils.PrefixOfSorted` | src/utils/phoneUtils.ts:41 | a prefix of a sorted list is sorted, and its ties are a prefix of the list's ties |
| `PhoneUtils.TopByOrder` | src/utils/phoneUtils.ts:13-15 | sort-then-slice takes min(limit, n) phones of the input, in order, and no phone left out ranks before a taken one |
| `PhoneUtils.PopularityNonIncreasing` | src/utils/phoneUtils.ts:14 | a list sorted by the popularity comparator has non-increasing popularity |
| `PhoneUtils.ReleaseYearNonIncreasing` | src/utils/phoneUtils.ts:20 | a list sorted by the release comparator has non-increasing release year |
| `PhoneUtils.PopularityDominates` | src/utils/phoneUtils.ts:14 | ranking before in popularity order means at least as popular |
| `PhoneUtils.ReleaseYearDominates` | src/utils/phoneUtils.ts:20 | ranking before in release order means at least as new |
| `PhoneUtils.PopularPhonesSpec` | src/utils/phoneUtils.ts:12-16 | `GetPopularPhones` (`getPopularPhones`) returns min(limit, \|catalogue\|) catalogue phones by non-increasing popularity, none less popular than a phone left out |
| `PhoneUtils.NewPhonesSpec` | src/utils/phoneUtils.ts:18-22 | `GetNewPhones` (`getNewPhones`) returns min(limit, \|catalogue\|) catalogue phones by non-increasing release year, none older than a phone left out |
| `Sorting.SortBy` | src/pages/CatalogPage.tsx:91-107 | sorting a copy gives a permutation of the input of the same length |
| `Sorting.SortBySorted` | src/pages/CatalogPage.tsx:93-107 | the sorted copy is ordered by the comparator |
| `Sorting.SortByStable` | src/pages/CatalogPage.tsx:93-107 | elements the comparator ties keep their input order |
| `Sorting.SortByIsTheStableSort` | src/pages/CatalogPage.tsx:93-107 | any sorted, stable permutation of the input equals the modelled sort |
| `Sorting.LeTotal` | src/pages/CatalogPage.tsx:95-106 | every comparator of the source orders any two phones one way or the other |
| `Sorting.LeTransitive` | src/pages/CatalogPage.tsx:95-106 | every comparator of the source is transitive, including the brand-then-price one of the similar phones |
| `Common.SliceTo` | src/utils/phoneUtils.ts:12-42 | `slice(0, end)` is a prefix of the list, of length `end` capped at the list's length; a negative `end` counts back from the end |
| `Common.Filter` | src/utils/phoneUtils.ts:64 | `filter` returns only elements that pass the predicate, each passing element as often as in the input and no other |
| `Common.FilterMembership` | src/utils/phoneUtils.ts:64 | `filter` keeps an element iff it is in the list and passes the predicate |
| `Common.FilterIsSubsequence` | src/utils/phoneUtils.ts:49 | `filter` keeps the surviving elements in their original order |
| `Common.Without` | src/contexts/CompareContext.tsx:68 | `filter(y => y !== x)` leaves no `x` and every other element as often as in the input |
| `Common.WithoutMembership` | src/contexts/CompareContext.tsx:68 | `filter(y => y !== x)` removes `x` and keeps every other element |
| `Common.WithoutIsSubsequence` | src/contexts/FavoritesContext.tsx:53 | `filter(y => y !== x)` keeps the remaining elements in order |
| `Text.SplitAtFirst` | src/utils/phoneUtils.ts:92 | splitting at the first separator gives the text before it as the first piece |
| `Text.NatStringValue` | src/components/Filters.tsx:163-164 | the decimal text of a number reads back as that number |
| `Text.ToLower` | src/utils/phoneUtils.ts:45-54 | lower-casing keeps the length and maps each character (ASCII and Cyrillic capitals) independently |
| `Text.TrimEmptyIffBlank` | src/utils/phoneUtils.ts:45-47 | trimming gives `""` iff the string is all whitespace |
| `Text.Includes` | src/utils/phoneUtils.ts:50-54 | `includes` holds iff the needle occurs at some position |
| `Text.ParseNatString` | src/utils/phoneUtils.ts:92 | `Number` of a decimal numeral gives back the number |
| `Text.LexCompareAntisymmetric` | src/pages/CatalogPage.tsx:99-101 | swapping the names negates the name comparison |
| `Text.LexCompareTransitive` | src/pages/CatalogPage.tsx:99-101 | the name comparison is transitive |
| `UrlParams.Get` | src/pages/CatalogPage.tsx:18-25 | `get` is `null` iff `getAll` is empty, and otherwise its first value |
| `UrlParams.AppendEffect` | src/pages/CatalogPage.tsx:71 | `append` adds the value at the end of the name's values and leaves other names alone |
| `UrlParams.SetEffect` | src/pages/CatalogPage.tsx:62-84 | after `set` the name has exactly that one value and other names are unchanged |
| `CatalogPage.CriteriaFromParamsSpec` | src/pages/CatalogPage.tsx:17-34 | `CriteriaFromParams`: each list category is present iff it has at least one value, holding all its values in order; `priceRange` is present iff its value is non-empty; no other key appears |
| `CatalogPage.SortPhones` | src/pages/CatalogPage.tsx:90-108 | `sortPhones` returns a permutation of its input |
| `CatalogPage.SortPhonesSpec` | src/pages/CatalogPage.tsx:90-108 | the result is ordered by the key and stable, and it is the only sorted permutation with that tie order |
| `CatalogPage.SortPhonesByKey` | src/pages/CatalogPage.tsx:93-107 | price ascending/descending, name ascending/descending, newest first; every other key orders by popularity descending |
| `CatalogPage.CatalogResultsSpec` | src/pages/CatalogPage.tsx:42-51 | the page lists exactly the base-list phones that pass the criteria, sorted by the key in force; with a search, each matches it |
| `CatalogPage.ParamsRoundTrip` | src/pages/CatalogPage.tsx:17-78 | re-parsing the query string that `handleApplyFilters` builds gives back the criteria without empty entries, the sort key and the search |
| `CatalogPage.SerializedValues` | src/pages/CatalogPage.tsx:69-75 | `SerializeFilters` puts each criterion's values in the query string in order, a scalar only when non-empty |
| `CatalogPage.SerializedSearchAndSort` | src/pages/CatalogPage.tsx:59-66 | the query string keeps a non-empty search and always carries the sort key |
| `CatalogPage.CriteriaFromValues` | src/pages/CatalogPage.tsx:17-34 | query strings whose values per category are a criteria record's parse back to that record without empty entries |
| `CatalogPage.AddEntriesGetAll` | src/pages/CatalogPage.tsx:69-75 | appending the entries of a record in key order leaves exactly each entry's values under its key |
| `CatalogPage.BaseParamsEffect` | src/pages/CatalogPage.tsx:57-66 | the fresh query string holds the search (when non-empty) and the sort key, and nothing else |
| `CatalogPage.AppendAllEffect` | src/pages/CatalogPage.tsx:71 | appending a list of values adds them in order under their key only |
| `CatalogPage.Pruned` | src/pages/CatalogPage.tsx:29-34 | the criteria without empty lists and empty strings, otherwise unchanged |
| `CatalogPage.PhoneCountTextIsPluralRule` | src/pages/CatalogPage.tsx:182-201 | `PhoneCountText` (`getPhoneCountText`) gives the Russian one/few/many form: teens and 0 take "телефонов", last digit 1 "телефон", 2-4 "телефона", else "телефонов" |
| `CatalogPage.ResultsConsistent` | src/pages/CatalogPage.tsx:42-51 | the listed phones are drawn from the base list, all pass the criteria and are sorted by the key |
| `CatalogPage.ResortConsistent` | src/pages/CatalogPage.tsx:80-88 | re-sorting the shown list under a new key keeps it drawn from the base list, passing the criteria, and sorted by the new key |
| `CatalogPage.CatalogView.constructor` | src/pages/CatalogPage.tsx:11-54 | the page after mounting: criteria, sort key, base list and results computed from the query string |
| `CatalogPage.CatalogView.Sync` | src/pages/CatalogPage.tsx:17-54 | the query-string effect sets the criteria, sort key, base list and sorted results, and the shown list stays consistent |
| `CatalogPage.CatalogView.ApplyFilters` | src/pages/CatalogPage.tsx:56-78 | `handleApplyFilters` replaces the query string with the serialised search, sort and criteria |
| `CatalogPage.CatalogView.SortChange` | src/pages/CatalogPage.tsx:80-88 | `handleSortChange` sets the key, sets `sort` in the query string and re-sorts the shown list without re-filtering |
| `FiltersPanel.UpdateFilters` | src/components/Filters.tsx:20-48 | only the changed category differs; a list or single-value change stores the value; a multi-value change always leaves a list |
| `FiltersPanel.ToggleFlipsActive` | src/components/Filters.tsx:33-70 | toggling a value flips `isFilterActive` for it |
| `FiltersPanel.ToggleOverScalar` | src/components/Filters.tsx:27 | a single string in a multi-value category counts as no selection |
| `FiltersPanel.ToggleKeepsOtherValues` | src/components/Filters.tsx:33-43 | toggling one value leaves every other value as active as in the current list |
| `FiltersPanel.ToggleTwice` | src/components/Filters.tsx:33-43 | toggling twice restores membership, and the list itself when the value was absent |
| `FiltersPanel.FilterPanel.constructor` | src/components/Filters.tsx:13-87 | the draft starts as the active criteria and the mount resize sets the screen flags |
| `FiltersPanel.FilterPanel.HandleFilterChange` | src/components/Filters.tsx:20-48 | the draft becomes the updater's result |
| `FiltersPanel.FilterPanel.ApplyFilters` | src/components/Filters.tsx:50-55 | hands over the draft unchanged and collapses the panel on a small screen |
| `FiltersPanel.FilterPanel.ResetFilters` | src/components/Filters.tsx:57-60 | the draft and the applied criteria are both `{}` |
| `FiltersPanel.FilterPanel.Resize` | src/components/Filters.tsx:74-81 | below 768 pixels the panel is small and collapsed, otherwise expanded |
| `FiltersPanel.FilterPanel.ToggleExpanded` | src/components/Filters.tsx:101 | the toggle button flips the expanded flag |
| `CompareTable.IsDifferent` | src/components/PhoneCompareTable.tsx:27-39 | never set for at most one phone |
| `CompareTable.IsDifferentPairwise` | src/components/PhoneCompareTable.tsx:30-38 | set iff some pair of phones disagrees at the path |
| `CompareTable.IsDifferentOrderIndependent` | src/components/PhoneCompareTable.tsx:27-39 | the flag does not depend on the order of the phones nor on the column index |
| `CompareTable.PairDiffersRearranged` | src/components/PhoneCompareTable.tsx:30-38 | a disagreeing pair survives rearranging the phones |
| `CompareTable.RenderRow` | src/components/PhoneCompareTable.tsx:85-275 | a row has one cell per phone with the phone's value and the row's flag |
| `CompareTable.Render` | src/components/PhoneCompareTable.tsx:14-275 | no phones give the empty state; otherwise one header per phone in input order, the fifteen rows, each phone's value, and one flag per row |
| `SavedPages.Resolve` | src/pages/ComparePage.tsx:13-15 | the resolved phones are at most as many as the ids, each from the catalogue with its id among the ids |
| `SavedPages.ResolveConcat` | src/pages/FavoritesPage.tsx:13-15 | resolution goes id by id, in order |
| `SavedPages.ResolveAllFound` | src/pages/ComparePage.tsx:13-15 | when every id is known, one phone per id, position by position |
| `SavedPages.ResolveEmptyIff` | src/pages/FavoritesPage.tsx:13-15 | nothing resolves iff no id is known |
| `SavedPages.ComparePage` | src/pages/ComparePage.tsx:13-48 | the empty state iff no stored id is known; otherwise the count of the resolved phones, its plural form, and the comparison table of exactly those phones |
| `SavedPages.FavoritesPage` | src/pages/FavoritesPage.tsx:13-51 | the empty state iff no stored id is known; otherwise the resolved phones in stored order, their count and its plural form |
| `SavedPages.PagesShowEveryKnownId` | src/pages/FavoritesPage.tsx:13-51 | when every stored id is known, both pages count all of them and the favourites page shows the phone of each id, position by position |
| `Storage.StorageKey` | src/contexts/CompareContext.tsx:25-29 | every key starts with its kind and an underscore |
| `Storage.KindsNeverCollide` | src/contexts/CartContext.tsx:33-37 | compare, favourites and cart keys never coincide, whoever is signed in |
| `Storage.UserKeysDistinct` | src/contexts/FavoritesContext.tsx:22-26 | two users share a key iff their ids are equal |
| `Storage.GuestKeyShared` | src/contexts/CompareContext.tsx:25-29 | a signed-in user shares the guest key iff the id is "guest" |
| `Storage.Reload` | src/contexts/CompareContext.tsx:31-39 | a missing or empty stored value keeps the list; a parsed one replaces it; an unparseable one empties it |
| `Storage.SaveThenReload` | src/contexts/CompareContext.tsx:43-51 | a saved list reads back as itself |
| `Storage.SaveKeepsOtherKeys` | src/contexts/CompareContext.tsx:43-51 | saving under one key leaves what other keys read back |
| `CompareContext.AddToCompare` | src/contexts/CompareContext.tsx:53-65 | an id already listed leaves the list unchanged; a new id goes last, after the previous list, or after it without its first id when 4 or more were listed; a list of at most 4 stays at most 4 |
| `CompareContext.AddToCompareKeeps` | src/contexts/CompareContext.tsx:59-61 | an id already listed is evicted only when it is the oldest and a new id arrives at capacity |
| `CompareContext.AddToCompareNoDuplicates` | src/contexts/CompareContext.tsx:53-65 | a duplicate-free list stays duplicate-free |
| `CompareContext.AddToCompareEvictsOldest` | src/contexts/CompareContext.tsx:59-61 | at capacity, a new id evicts exactly the first (oldest) id of a duplicate-free list; the length stays 4 and every other id stays |
| `CompareContext.RemoveFromCompare` | src/contexts/CompareContext.tsx:67-69 | exactly the other ids remain, in order, each as often as before |
| `CompareContext.RemoveAbsentIsNoOp` | src/contexts/CompareContext.tsx:67-69 | removing an absent id changes nothing |
| `CompareContext.CompareList.constructor` | src/contexts/CompareContext.tsx:19-51 | mounting reloads from the current key and saves the result there |
| `CompareContext.CompareList.Load` | src/contexts/CompareContext.tsx:24-40 | the load effect applies the reload rule to the current key |
| `CompareContext.CompareList.Save` | src/contexts/CompareContext.tsx:43-51 | the save effect writes the whole list under the current key |
| `CompareContext.CompareList.ChangeIdentity` | src/contexts/CompareContext.tsx:23-51 | a new identity reloads from its key, then saves under it |
| `CompareContext.CompareList.Add` | src/contexts/CompareContext.tsx:53-77 | the list becomes the updater's result, the id is in compare, and storage is written unless the id was already there |
| `CompareContext.CompareList.Remove` | src/contexts/CompareContext.tsx:67-69 | the id is no longer in compare and the list is saved |
| `CompareContext.CompareList.Clear` | src/contexts/CompareContext.tsx:71-73 | the list is `[]` and saved |
| `FavoritesContext.ToggleFavorite` | src/contexts/FavoritesContext.tsx:50-58 | membership of the id flips; a present id is removed keeping the order and the multiplicity of the rest; an absent one is appended |
| `FavoritesContext.ToggleKeepsOthers` | src/contexts/FavoritesContext.tsx:50-62 | other ids keep their membership |
| `FavoritesContext.ToggleTwice` | src/contexts/FavoritesContext.tsx:50-58 | toggling twice restores membership, and the list itself when the id was absent |
| `FavoritesContext.FavoritesList.constructor` | src/contexts/FavoritesContext.tsx:19-48 | mounting reloads from the current key and saves the result there |
| `FavoritesContext.FavoritesList.Load` | src/contexts/FavoritesContext.tsx:20-37 | the load effect applies the reload rule to the current key |
| `FavoritesContext.FavoritesList.Save` | src/contexts/FavoritesContext.tsx:39-48 | the save effect writes the whole list under the current key |
| `FavoritesContext.FavoritesList.ChangeIdentity` | src/contexts/FavoritesContext.tsx:19-48 | a new identity reloads from its key, then saves under it |
| `FavoritesContext.FavoritesList.Toggle` | src/contexts/FavoritesContext.tsx:50-62 | the list becomes the updater's result, `isFavorite` flips for the id, and the list is saved |
| `CartContext.Count` | src/contexts/CartContext.tsx:63 | zero iff no entry carries the id |
| `CartContext.AddQuantity` | src/contexts/CartContext.tsx:66-68 | same ids in the same order; entries with the id gain q, others unchanged |
| `CartContext.SetQuantity` | src/contexts/CartContext.tsx:85-87 | same ids in the same order; entries with the id get q, others unchanged |
| `CartContext.AddToCart` | src/contexts/CartContext.tsx:61-73 | an existing id keeps the length and the ids in place and raises that id's quantity by `q`, others unchanged; a new id appends `{id, q}` |
| `CartContext.RemoveFromCart` | src/contexts/CartContext.tsx:75-77 | exactly the entries with other ids remain, in order, each as often as before |
| `CartContext.UpdateQuantity` | src/contexts/CartContext.tsx:79-87 | a quantity of zero or less is `RemoveFromCart`: the id's entries go and the rest stay in order, each as often as before; any other sets the quantity of the id's entries, in place |
| `CartContext.AddQuantityTotal` | src/contexts/CartContext.tsx:29-68 | the total grows by q per entry with the id |
| `CartContext.UniqueCountIsOne` | src/contexts/CartContext.tsx:63-68 | with unique ids a present id occurs once |
| `CartContext.AddToCartTotal` | src/contexts/CartContext.tsx:29-73 | with unique ids `addToCart(id, q)` raises `totalItems` by exactly q |
| `CartContext.AddToCartKeepsUnique` | src/contexts/CartContext.tsx:63-71 | unique ids stay unique |
| `CartContext.UpdateAbsentIsNoOp` | src/contexts/CartContext.tsx:79-88 | updating an absent id changes nothing, it never inserts |
| `CartContext.RemoveNothing` | src/contexts/CartContext.tsx:75-77 | removing an absent id changes nothing |
| `CartContext.TotalConcat` | src/contexts/CartContext.tsx:29 | the total of two lists joined is the sum of their totals |
| `CartContext.Cart.constructor` | src/contexts/CartContext.tsx:24-59 | mounting reloads from the current key and saves the result there |
| `CartContext.Cart.Load` | src/contexts/CartContext.tsx:32-48 | the load effect applies the reload rule to the current key |
| `CartContext.Cart.Save` | src/contexts/CartContext.tsx:51-59 | the save effect writes the whole cart under the current key |
| `CartContext.Cart.ChangeIdentity` | src/contexts/CartContext.tsx:31-59 | a new identity reloads from its key, then saves under it |
| `CartContext.Cart.Add` | src/contexts/CartContext.tsx:61-73 | the cart becomes the updater's result; with unique ids they stay unique and the total grows by the quantity |
| `CartContext.Cart.Remove` | src/contexts/CartContext.tsx:75-77 | the entries with the id go and the cart is saved |
| `CartContext.Cart.Update` | src/contexts/CartContext.tsx:79-88 | a quantity of 0 or less removes like `removeFromCart`; an absent id changes nothing |
| `CartContext.Cart.Clear` | src/contexts/CartContext.tsx:90-92 | the cart is `[]`, its total 0, and it is saved |
| `AuthContext.FindAccount` | src/contexts/AuthContext.tsx:72 | `None` iff no account has both the email and the password; otherwise the first stored account that has both |
| `AuthContext.FindByEmail` | src/contexts/AuthContext.tsx:100 | `None` iff no account has the email; otherwise the first stored account with it |
| `AuthContext.Restore` | src/contexts/AuthContext.tsx:29-41 | signed in iff the stored user parses, and then the session user is the stored one; an unparseable one is removed; the session fields agree |
| `AuthContext.LoginSucceedsIff` | src/contexts/AuthContext.tsx:72-82 | `LoginStep` (`login`) succeeds iff a stored account has that email and password, and the session is then the first such account without password, also stored under `user` |
| `AuthContext.LoginFailureKeepsSession` | src/contexts/AuthContext.tsx:80-82 | a failed login changes only the notification |
| `AuthContext.RegisterTakenEmail` | src/contexts/AuthContext.tsx:100-105 | a known email changes neither the accounts nor the session |
| `AuthContext.RegisterNewEmail` | src/contexts/AuthContext.tsx:85-123 | `RegisterStep` (`register`) with a new email appends exactly one account (to `[]` when the stored list is unreadable), signs it in and keeps emails unique |
| `AuthContext.RegisterThenLogin` | src/contexts/AuthContext.tsx:57-123 | after registering, the same email and password sign in as the new account |
| `AuthContext.FindAccountAppend` | src/contexts/AuthContext.tsx:72 | an appended account with a fresh email is the one found |
| `AuthContext.LogoutClears` | src/contexts/AuthContext.tsx:125-130 | `LogoutStep` (`logout`) clears the user, the flag and the `user` key and keeps the accounts |
| `AuthContext.SessionSurvivesReload` | src/contexts/AuthContext.tsx:29-130 | remounting from what login, register or logout stored gives back the same user |
| `AuthContext.StepsKeepValid` | src/contexts/AuthContext.tsx:57-130 | every action keeps "signed in iff there is a user" |
| `AuthContext.AuthService.constructor` | src/contexts/AuthContext.tsx:24-41 | mounting restores the session from storage |
| `AuthContext.AuthService.Login` | src/contexts/AuthContext.tsx:57-83 | the state becomes the login step's |
| `AuthContext.AuthService.Register` | src/contexts/AuthContext.tsx:85-123 | the state becomes the register step's |
| `AuthContext.AuthService.Logout` | src/contexts/AuthContext.tsx:125-130 | the state becomes the logout step's |
| `AuthContext.AuthService.DismissNotification` | src/contexts/AuthContext.tsx:43-51 | the timer clears the notification and nothing else |
| `AuthPage.CheckSubmit` | src/pages/AuthPage.tsx:26-50 | login is called iff in login mode with email and password filled; register iff in register mode with all filled and a password of 6 or more; the length error only after all fields are filled |
| `AuthPage.AuthForm.constructor` | src/pages/AuthPage.tsx:9-13 | login mode, empty fields, no error |
| `AuthPage.AuthForm.Submit` | src/pages/AuthPage.tsx:26-50 | the error is cleared and set only by a failed check; otherwise exactly one `login` or `register` runs on the provider |
| `AuthPage.AuthForm.ToggleMode` | src/pages/AuthPage.tsx:52-55 | the mode flips and the error is cleared |
| `HomeBanner.NextIndex` | src/components/HomeBanner.tsx:44-46 | on an index in range, one step forward is +1 modulo the slide count |
| `HomeBanner.PrevIndex` | src/components/HomeBanner.tsx:48-50 | on an index in range, one step back is -1 modulo the slide count |
| `HomeBanner.IndexStaysInRange` | src/components/HomeBanner.tsx:42-50 | both steps keep the index in range |
| `HomeBanner.NextPrevInverse` | src/components/HomeBanner.tsx:44-50 | the two steps undo each other |
| `HomeBanner.NextTimesWraps` | src/components/HomeBanner.tsx:44-46 | k ≤ n steps forward land k places on, wrapping once past the last slide |
| `HomeBanner.FullCycle` | src/components/HomeBanner.tsx:44-62 | as many steps as slides return to the start |
| `HomeBanner.Banner.constructor` | src/components/HomeBanner.tsx:42 | the carousel starts at slide 0 |
| `HomeBanner.Banner.Next` | src/components/HomeBanner.tsx:44-46 | `nextSlide` applies the forward step and keeps the index in range |
| `HomeBanner.Banner.Prev` | src/components/HomeBanner.tsx:48-50 | `prevSlide` applies the backward step and keeps the index in range |
| `HomeBanner.Banner.GoTo` | src/components/HomeBanner.tsx:52-114 | `goToSlide` sets exactly the indicator's index, which names a slide |

## Left out

- Rendering, styling, routing, `document.title` and navigation are left out. So are the
  presentation-only components: PhoneDetailContent, PhoneCard, Header, Footer, Layout, App,
  NotFoundPage, FeaturedPhones and HomePage.
- SearchBar is left out. It handles DOM events, focus and navigation; its only logic calls the
  search once the query has two characters.
- The simulated loading delay of PhoneDetailPage is left out.
- Timers: the carousel's six-second interval, the notification's five-second dismissal and the
  Toast component. `Banner.Next` and `AuthService.DismissNotification` are what those timers run.
- React's effect scheduling is collapsed to "reload, then persist". This leaves out the order of the
  load and save effects, and the extra write of the previous list under a new key.
- The catalogue data file `src/data/phones` is not part of this model. The catalogue is a parameter.
- Stored values are seen only as parsed, unparseable or empty. JSON text is not modelled. A parsed
  value is assumed to have the expected shape, so for example a stored `null` user is not modelled.
- Each class holds its own map for storage, instead of one shared `localStorage`. The keys of the
  three lists never collide (`Storage.KindsNeverCollide`). The sign-in stub uses the separate keys
  `user` and `users`.
- `Text.ToLower` folds only ASCII and Cyrillic capitals (with Ё). Other Unicode case mappings of
  `toLowerCase` are left out.
- `Text.LexCompare` models `localeCompare` as code-point order. Locale collation is left out.
- `Text.ParseNumber` reads only decimal digit strings, after trimming. Other forms accepted by
  `Number` are read as NaN, so they never match: signs, decimals, exponents and hexadecimal.
- Quantities and prices are integers, and screen sizes are exact reals, not floating point.
- `AuthPage.CheckSubmit` counts the password's length in characters, not UTF-16 code units.
- The text inputs' change handlers of the sign-in form just assign a field and are left out.
- The new account's id comes from `Date.now()`. It is a parameter of `Register`.
- `Object.entries` order in `handleApplyFilters` is a parameter: a duplicate-free list of the
  record's keys.
- `CatalogPage.CatalogView.SortChange` re-sorts the shown list as the handler does. The model does
  not chain it with the query-string effect that follows, which re-filters and re-sorts the same
  list. That effect is `CatalogView.Sync`.
