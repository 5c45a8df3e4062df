/** The catalogue query engine of src/utils/phoneUtils.ts: text search, multi-category filtering,
    "similar phones" ranking and the top-N lists. Every function takes the catalogue (or a slice of
    it) as a value and returns a new sequence. */
module PhoneUtils {
  import opened Common
  import opened Text
  import opened Catalog
  import opened Sorting

  // ---------------------------------------------------------------- search

  /** The query as the search uses it: lower-cased, then trimmed. */
  function NormalizeQuery(query: string): string
  {
    Trim(ToLower(query))
  }

  /** The normalised query `q` occurs in the name, brand, OS, processor name or description. */
  predicate MatchesQuery(p: Phone, q: string)
  {
    || Includes(ToLower(p.name), q)
    || Includes(ToLower(p.brand), q)
    || Includes(ToLower(p.os), q)
    || Includes(ToLower(p.processor.name), q)
    || Includes(ToLower(p.description), q)
  }

  /** `searchPhones`: a blank query finds nothing; otherwise the matching phones in catalogue order. */
  function SearchPhones(catalogue: seq<Phone>, query: string): seq<Phone>
  {
    var q := NormalizeQuery(query);
    if q == [] then [] else Filter(p => MatchesQuery(p, q), catalogue)
  }

  /** A query made only of white space finds nothing (it is not "no filter"). */
  lemma SearchBlankQuery(catalogue: seq<Phone>, query: string)
    requires forall i :: 0 <= i < |query| ==> IsWhitespace(query[i])
    ensures SearchPhones(catalogue, query) == []
  {
    var lower := ToLower(query);
    forall i | 0 <= i < |lower| ensures IsWhitespace(lower[i]) {
      assert lower[i] == LowerChar(query[i]);
    }
    TrimEmptyIffBlank(lower);
  }

  /** The search result keeps catalogue order, and holds exactly the phones matching the normalised
      query, which must be non-empty. */
  lemma SearchPhonesSpec(catalogue: seq<Phone>, query: string, p: Phone)
    ensures IsSubsequence(SearchPhones(catalogue, query), catalogue)
    ensures p in SearchPhones(catalogue, query) <==>
              NormalizeQuery(query) != [] && p in catalogue && MatchesQuery(p, NormalizeQuery(query))
    ensures multiset(SearchPhones(catalogue, query))[p] ==
              if NormalizeQuery(query) != [] && MatchesQuery(p, NormalizeQuery(query)) then multiset(catalogue)[p] else 0
  {
    var q := NormalizeQuery(query);
    if q != [] {
      FilterIsSubsequence(p => MatchesQuery(p, q), catalogue);
      FilterMembership(p => MatchesQuery(p, q), catalogue, p);
    } else {
      FilterIsSubsequence(p => false, catalogue);
      FilterKeepsNone(p => false, catalogue);
    }
  }

  // ---------------------------------------------------------------- filter

  /** A value of the criteria record: one string, or a list of strings. */
  datatype FilterValue = Scalar(value: string) | Values(values: seq<string>)

  /** `Record<string, string | string[]>`: category name to value. */
  type Criteria = map<string, FilterValue>

  /** The categories whose value is a list of alternatives. */
  const ListCategories: set<string> := {"brand", "os", "memory", "screenSize", "battery"}

  /** The bucket tokens of the filter panel (src/data/filterOptions.ts). */
  const ScreenBuckets: seq<string> := ["small", "medium", "large", "xlarge"]
  const BatteryBuckets: seq<string> := ["small", "medium", "large", "xlarge"]
  const PriceBands: seq<string> := ["under15k", "15k-30k", "30k-50k", "50k-80k", "over80k"]

  /** The alternatives a list category constrains a phone to: only a present, non-empty list counts. */
  function ListConstraint(c: Criteria, category: string): (r: Option<seq<string>>)
    ensures r.Some? <==> category in c && c[category].Values? && c[category].values != []
    ensures r.Some? ==> r.value == c[category].values
  {
    if category in c && c[category].Values? && c[category].values != [] then Some(c[category].values) else None
  }

  /** The price band in force: only a non-empty string counts. */
  function PriceConstraint(c: Criteria): (r: Option<string>)
    ensures r.Some? <==> "priceRange" in c && c["priceRange"].Scalar? && c["priceRange"].value != ""
    ensures r.Some? ==> r.value == c["priceRange"].value
  {
    if "priceRange" in c && c["priceRange"].Scalar? && c["priceRange"].value != "" then Some(c["priceRange"].value) else None
  }

  /** A screen-size token admits a diagonal; unknown tokens admit none. */
  predicate ScreenBucketHolds(bucket: string, size: real)
  {
    if bucket == "small" then size <= 5.5
    else if bucket == "medium" then 5.5 < size <= 6.3
    else if bucket == "large" then 6.3 < size <= 6.7
    else if bucket == "xlarge" then size > 6.7
    else false
  }

  /** A battery token admits a capacity; unknown tokens admit none. */
  predicate BatteryBucketHolds(bucket: string, capacity: int)
  {
    if bucket == "small" then capacity < 3000
    else if bucket == "medium" then 3000 <= capacity < 4000
    else if bucket == "large" then 4000 <= capacity < 5000
    else if bucket == "xlarge" then capacity >= 5000
    else false
  }

  /** A price band admits a price; an unknown band admits every price. */
  predicate PriceBandHolds(band: string, price: int)
  {
    if band == "under15k" then price < 15000
    else if band == "15k-30k" then 15000 <= price < 30000
    else if band == "30k-50k" then 30000 <= price < 50000
    else if band == "50k-80k" then 50000 <= price < 80000
    else if band == "over80k" then price >= 80000
    else true
  }

  /** A `"<ram>-<storage>"` token names exactly the phone's memory: the first two pieces of the
      token, read as numbers, equal the RAM and the storage. */
  predicate MemoryTokenMatches(token: string, m: Memory)
  {
    var parts := Split(token, '-');
    |parts| >= 2
    && var ram, storage := ParseNumber(parts[0]), ParseNumber(parts[1]);
    ram.Some? && storage.Some? && ram.value == m.ram && storage.value == m.storage
  }

  predicate BrandPasses(c: Criteria, p: Phone)
  {
    var l := ListConstraint(c, "brand"); l.None? || p.brand in l.value
  }

  predicate OsPasses(c: Criteria, p: Phone)
  {
    var l := ListConstraint(c, "os"); l.None? || p.os in l.value
  }

  predicate MemoryPasses(c: Criteria, p: Phone)
  {
    var l := ListConstraint(c, "memory"); l.None? || exists t :: t in l.value && MemoryTokenMatches(t, p.memory)
  }

  predicate ScreenPasses(c: Criteria, p: Phone)
  {
    var l := ListConstraint(c, "screenSize"); l.None? || exists b :: b in l.value && ScreenBucketHolds(b, p.screen.size)
  }

  predicate BatteryPasses(c: Criteria, p: Phone)
  {
    var l := ListConstraint(c, "battery"); l.None? || exists b :: b in l.value && BatteryBucketHolds(b, p.battery.capacity)
  }

  predicate PricePasses(c: Criteria, p: Phone)
  {
    var band := PriceConstraint(c); band.None? || PriceBandHolds(band.value, p.price)
  }

  /** A phone passes when it passes every category: AND across categories, OR within one. */
  predicate Passes(c: Criteria, p: Phone)
  {
    BrandPasses(c, p) && OsPasses(c, p) && MemoryPasses(c, p)
    && ScreenPasses(c, p) && BatteryPasses(c, p) && PricePasses(c, p)
  }

  /** `filterPhones`. */
  function FilterPhones(phones: seq<Phone>, c: Criteria): seq<Phone>
  {
    Filter(p => Passes(c, p), phones)
  }

  /** The filter keeps input order, and keeps a phone exactly when it passes every category. */
  lemma FilterPhonesSpec(phones: seq<Phone>, c: Criteria, p: Phone)
    ensures IsSubsequence(FilterPhones(phones, c), phones)
    ensures p in FilterPhones(phones, c) <==> p in phones && Passes(c, p)
    ensures multiset(FilterPhones(phones, c))[p] == if Passes(c, p) then multiset(phones)[p] else 0
  {
    FilterIsSubsequence(p => Passes(c, p), phones);
    FilterMembership(p => Passes(c, p), phones, p);
  }

  /** The empty criteria record `{}` lets every phone through. */
  lemma FilterPhonesNoCriteria(phones: seq<Phone>)
    ensures FilterPhones(phones, map[]) == phones
  {
    FilterKeepsAll(p => Passes(map[], p), phones);
  }

  /** Filtering twice with the same criteria is filtering once. */
  lemma FilterPhonesIdempotent(phones: seq<Phone>, c: Criteria)
    ensures FilterPhones(FilterPhones(phones, c), c) == FilterPhones(phones, c)
  {
    FilterIdempotent(p => Passes(c, p), phones);
  }

  /** Two criteria records that every phone passes alike filter alike. */
  lemma FilterPhonesSameVerdicts(phones: seq<Phone>, c1: Criteria, c2: Criteria)
    requires forall p :: Passes(c1, p) == Passes(c2, p)
    ensures FilterPhones(phones, c1) == FilterPhones(phones, c2)
  {
    FilterAgree(p => Passes(c1, p), p => Passes(c2, p), phones);
  }

  /** A category given as an empty list filters exactly as if it were absent. */
  lemma FilterPhonesEmptyListIsAbsent(phones: seq<Phone>, c: Criteria, k: string)
    ensures FilterPhones(phones, c[k := Values([])]) == FilterPhones(phones, c - {k})
  {
    var c1, c2 := c[k := Values([])], c - {k};
    forall cat | cat in ListCategories ensures ListConstraint(c1, cat) == ListConstraint(c2, cat) {}
    assert PriceConstraint(c1) == PriceConstraint(c2);
    SameConstraintsFilterAlike(phones, c1, c2);
  }

  /** A list category given a single string imposes nothing, and neither does a price range given as a
      list or as the empty string. */
  lemma FilterPhonesIgnoresMisshapen(phones: seq<Phone>, c: Criteria, k: string, v: FilterValue)
    requires (k in ListCategories && v.Scalar?) || (k == "priceRange" && (v.Values? || v.value == ""))
    ensures FilterPhones(phones, c[k := v]) == FilterPhones(phones, c - {k})
  {
    var c1, c2 := c[k := v], c - {k};
    forall cat | cat in ListCategories ensures ListConstraint(c1, cat) == ListConstraint(c2, cat) {
      if cat != k {
        assert cat in c1 <==> cat in c2;
      }
    }
    assert PriceConstraint(c1) == PriceConstraint(c2) by {
      if k != "priceRange" {
        assert "priceRange" in c1 <==> "priceRange" in c2;
      }
    }
    SameConstraintsFilterAlike(phones, c1, c2);
  }

  /** Criteria that put the same constraint on every category filter alike. */
  lemma SameConstraintsFilterAlike(phones: seq<Phone>, c1: Criteria, c2: Criteria)
    requires forall cat :: cat in ListCategories ==> ListConstraint(c1, cat) == ListConstraint(c2, cat)
    requires PriceConstraint(c1) == PriceConstraint(c2)
    ensures FilterPhones(phones, c1) == FilterPhones(phones, c2)
  {
    assert ListConstraint(c1, "brand") == ListConstraint(c2, "brand");
    assert ListConstraint(c1, "os") == ListConstraint(c2, "os");
    assert ListConstraint(c1, "memory") == ListConstraint(c2, "memory");
    assert ListConstraint(c1, "screenSize") == ListConstraint(c2, "screenSize");
    assert ListConstraint(c1, "battery") == ListConstraint(c2, "battery");
    forall p ensures Passes(c1, p) == Passes(c2, p) {}
    FilterPhonesSameVerdicts(phones, c1, c2);
  }

  /** Every screen diagonal falls into exactly one of the four buckets. */
  lemma ScreenBucketsPartition(size: real)
    ensures exists b :: b in ScreenBuckets && ScreenBucketHolds(b, size)
    ensures forall b1, b2 :: (b1 in ScreenBuckets && b2 in ScreenBuckets && ScreenBucketHolds(b1, size)
              && ScreenBucketHolds(b2, size)) ==> b1 == b2
  {
    if size <= 5.5 { assert ScreenBucketHolds(ScreenBuckets[0], size); }
    else if size <= 6.3 { assert ScreenBucketHolds(ScreenBuckets[1], size); }
    else if size <= 6.7 { assert ScreenBucketHolds(ScreenBuckets[2], size); }
    else { assert ScreenBucketHolds(ScreenBuckets[3], size); }
  }

  /** Every battery capacity falls into exactly one of the four buckets. */
  lemma BatteryBucketsPartition(capacity: int)
    ensures exists b :: b in BatteryBuckets && BatteryBucketHolds(b, capacity)
    ensures forall b1, b2 :: (b1 in BatteryBuckets && b2 in BatteryBuckets && BatteryBucketHolds(b1, capacity)
              && BatteryBucketHolds(b2, capacity)) ==> b1 == b2
  {
    if capacity < 3000 { assert BatteryBucketHolds(BatteryBuckets[0], capacity); }
    else if capacity < 4000 { assert BatteryBucketHolds(BatteryBuckets[1], capacity); }
    else if capacity < 5000 { assert BatteryBucketHolds(BatteryBuckets[2], capacity); }
    else { assert BatteryBucketHolds(BatteryBuckets[3], capacity); }
  }

  /** Every price falls into exactly one of the five known bands. */
  lemma PriceBandsPartition(price: int)
    ensures exists b :: b in PriceBands && PriceBandHolds(b, price)
    ensures forall b1, b2 :: (b1 in PriceBands && b2 in PriceBands && PriceBandHolds(b1, price)
              && PriceBandHolds(b2, price)) ==> b1 == b2
  {
    if price < 15000 { assert PriceBandHolds(PriceBands[0], price); }
    else if price < 30000 { assert PriceBandHolds(PriceBands[1], price); }
    else if price < 50000 { assert PriceBandHolds(PriceBands[2], price); }
    else if price < 80000 { assert PriceBandHolds(PriceBands[3], price); }
    else { assert PriceBandHolds(PriceBands[4], price); }
  }

  /** The token the filter panel builds for a memory option: `${ram}-${storage}`. */
  function MemoryToken(ram: nat, storage: nat): string
  {
    NatString(ram) + "-" + NatString(storage)
  }

  /** The panel's token for (ram, storage) matches a phone exactly when the phone has that memory. */
  lemma MemoryTokenMatchesExactly(ram: nat, storage: nat, m: Memory)
    ensures MemoryTokenMatches(MemoryToken(ram, storage), m) <==> m.ram == ram && m.storage == storage
  {
    var a, b := NatString(ram), NatString(storage);
    assert '-' !in a && '-' !in b by {
      assert forall i :: 0 <= i < |a| ==> IsDigit(a[i]);
      assert forall i :: 0 <= i < |b| ==> IsDigit(b[i]);
    }
    SplitAtFirst(a, '-', b);
    SplitNoSeparator(b, '-');
    assert Split(MemoryToken(ram, storage), '-') == [a, b];
    ParseNatString(ram);
    ParseNatString(storage);
  }

  // ---------------------------------------------------------------- similar phones

  /** A candidate for "similar": not the phone itself, and same brand, a price within 15000, or the same OS. */
  predicate IsSimilarCandidate(phone: Phone, p: Phone)
  {
    p.id != phone.id && (p.brand == phone.brand || Abs(p.price - phone.price) < 15000 || p.os == phone.os)
  }

  function SimilarCandidates(catalogue: seq<Phone>, phone: Phone): seq<Phone>
  {
    Filter(p => IsSimilarCandidate(phone, p), catalogue)
  }

  /** `getSimilarPhones` (default limit 4). */
  function GetSimilarPhones(catalogue: seq<Phone>, phone: Phone, limit: int): seq<Phone>
  {
    SliceTo(SortBy(SimilarTo(phone.brand, phone.price), SimilarCandidates(catalogue, phone)), limit)
  }

  /** Taking a prefix of a sorted sequence keeps it sorted and each phone's ties a prefix of the whole's. */
  lemma PrefixOfSorted(o: Ordering, s: seq<Phone>, k: nat, x: Phone)
    requires Sorted(o, s) && k <= |s|
    ensures Sorted(o, s[..k])
    ensures |Ties(o, x, s[..k])| <= |Ties(o, x, s)|
    ensures Ties(o, x, s[..k]) == Ties(o, x, s)[..|Ties(o, x, s[..k])|]
  {
    SortedPrefix(o, s, k);
    assert s == s[..k] + s[k..];
    TiesConcat(o, x, s[..k], s[k..]);
  }

  /** The similar phones: none has the phone's id, each comes from the catalogue and is related to
      the phone, and there are at most `limit` of them. */
  lemma SimilarPhonesMembers(catalogue: seq<Phone>, phone: Phone, limit: int)
    ensures var r := GetSimilarPhones(catalogue, phone, limit);
      && (forall q :: q in r ==> q.id != phone.id && q in catalogue)
      && (forall q :: q in r ==> q.brand == phone.brand || Abs(q.price - phone.price) < 15000 || q.os == phone.os)
      && (limit >= 0 ==> |r| <= limit)
  {
    var o := SimilarTo(phone.brand, phone.price);
    var cands := SimilarCandidates(catalogue, phone);
    var sorted := SortBy(o, cands);
    var r := GetSimilarPhones(catalogue, phone, limit);
    forall q | q in r ensures IsSimilarCandidate(phone, q) && q in catalogue {
      assert r == sorted[..|r|];
      assert q in sorted;
      assert q in multiset(cands);
      FilterMembership(p => IsSimilarCandidate(phone, p), catalogue, q);
    }
  }

  /** The similar phones rank same-brand phones first, and within each group by non-decreasing
      distance from the phone's price. */
  lemma SimilarPhonesRanking(catalogue: seq<Phone>, phone: Phone, limit: int)
    ensures var r := GetSimilarPhones(catalogue, phone, limit);
      && (forall i, j :: 0 <= i < j < |r| && r[j].brand == phone.brand ==> r[i].brand == phone.brand)
      && (forall i, j :: 0 <= i < j < |r| && (r[i].brand == phone.brand <==> r[j].brand == phone.brand)
            ==> Abs(r[i].price - phone.price) <= Abs(r[j].price - phone.price))
  {
    var o := SimilarTo(phone.brand, phone.price);
    var sorted := SortBy(o, SimilarCandidates(catalogue, phone));
    var r := GetSimilarPhones(catalogue, phone, limit);
    SortBySorted(o, SimilarCandidates(catalogue, phone));
    assert r == sorted[..|r|];
    SortedPrefix(o, sorted, |r|);
    SimilarOrderRanks(phone.brand, phone.price, r);
  }

  /** What being sorted by the similar-phones comparator means. */
  lemma SimilarOrderRanks(brand: string, price: int, r: seq<Phone>)
    requires Sorted(SimilarTo(brand, price), r)
    ensures forall i, j :: 0 <= i < j < |r| && r[j].brand == brand ==> r[i].brand == brand
    ensures forall i, j :: 0 <= i < j < |r| && (r[i].brand == brand <==> r[j].brand == brand)
              ==> Abs(r[i].price - price) <= Abs(r[j].price - price)
  {
    forall i, j | 0 <= i < j < |r| ensures Le(SimilarTo(brand, price), r[i], r[j]) {}
  }

  /** The similar phones are the best `limit` candidates: min(limit, |candidates|) of them, taken from
      the candidates, and no candidate left out ranks before one taken (a left-out phone of the
      phone's brand means every taken phone has that brand, and within the same group no left-out
      phone is closer in price); every catalogue phone related to the phone, other than the phone
      itself, is a candidate, as often as it occurs in the catalogue. */
  lemma SimilarPhonesTopRanked(catalogue: seq<Phone>, phone: Phone, limit: int)
    ensures var cands, r := SimilarCandidates(catalogue, phone), GetSimilarPhones(catalogue, phone, limit);
      && (limit >= 0 ==> |r| == if limit < |cands| then limit else |cands|)
      && multiset(r) <= multiset(cands)
      && (forall p, q :: p in r && q in multiset(cands) - multiset(r) && q.brand == phone.brand
            ==> p.brand == phone.brand)
      && (forall p, q :: p in r && q in multiset(cands) - multiset(r) && (p.brand == phone.brand <==> q.brand == phone.brand)
            ==> Abs(p.price - phone.price) <= Abs(q.price - phone.price))
      && forall q :: q in catalogue && IsSimilarCandidate(phone, q) ==> multiset(cands)[q] == multiset(catalogue)[q]
  {
    var o := SimilarTo(phone.brand, phone.price);
    var cands := SimilarCandidates(catalogue, phone);
    var r := GetSimilarPhones(catalogue, phone, limit);
    TopByOrder(o, cands, limit);
    SimilarDominates(phone.brand, phone.price, r, multiset(cands) - multiset(r));
    forall q | q in catalogue && IsSimilarCandidate(phone, q) ensures multiset(cands)[q] == multiset(catalogue)[q] {
      SimilarCandidateCount(catalogue, phone, q);
    }
  }

  /** Phones that may all stand before the ones of `m` in the similar-phones order: a phone of `m`
      of the brand means every phone of `r` has it, and within a group the phones of `r` are closer
      in price. */
  lemma SimilarDominates(brand: string, price: int, r: seq<Phone>, m: multiset<Phone>)
    requires forall p, q :: p in r && q in m ==> Le(SimilarTo(brand, price), p, q)
    ensures forall p, q :: p in r && q in m && q.brand == brand ==> p.brand == brand
    ensures forall p, q :: p in r && q in m && (p.brand == brand <==> q.brand == brand)
              ==> Abs(p.price - price) <= Abs(q.price - price)
  {
  }

  /** A candidate occurs among the candidates as often as in the catalogue. */
  lemma SimilarCandidateCount(catalogue: seq<Phone>, phone: Phone, q: Phone)
    requires q in catalogue && IsSimilarCandidate(phone, q)
    ensures multiset(SimilarCandidates(catalogue, phone))[q] == multiset(catalogue)[q]
  {
  }

  /** Phones that rank equal appear among the similar phones in catalogue order: for every phone `x`,
      the ones tying with it are a prefix of the tying candidates, in candidate (catalogue) order. */
  lemma SimilarPhonesTieOrder(catalogue: seq<Phone>, phone: Phone, limit: int, x: Phone)
    ensures var o, r := SimilarTo(phone.brand, phone.price), GetSimilarPhones(catalogue, phone, limit);
      |Ties(o, x, r)| <= |Ties(o, x, SimilarCandidates(catalogue, phone))|
      && Ties(o, x, r) == Ties(o, x, SimilarCandidates(catalogue, phone))[..|Ties(o, x, r)|]
  {
    var o := SimilarTo(phone.brand, phone.price);
    var cands := SimilarCandidates(catalogue, phone);
    var r := GetSimilarPhones(catalogue, phone, limit);
    SortBySorted(o, cands);
    SortByStable(o, x, cands);
    PrefixOfSorted(o, SortBy(o, cands), |r|, x);
  }

  // ---------------------------------------------------------------- top-N lists

  /** `getPopularPhones` (default limit 8): the catalogue by popularity, highest first, cut to `limit`. */
  function GetPopularPhones(catalogue: seq<Phone>, limit: int): seq<Phone>
  {
    SliceTo(SortBy(MostPopular, catalogue), limit)
  }

  /** `getNewPhones` (default limit 8): the catalogue by release year, newest first, cut to `limit`. */
  function GetNewPhones(catalogue: seq<Phone>, limit: int): seq<Phone>
  {
    SliceTo(SortBy(Newest, catalogue), limit)
  }

  /** The first `limit` of a stable sort: min(limit, |s|) phones of `s`, in order, and none of the
      phones left out may precede a phone that was taken. */
  lemma {:induction false} TopByOrder(o: Ordering, s: seq<Phone>, limit: int)
    ensures var r := SliceTo(SortBy(o, s), limit);
      && (limit >= 0 ==> |r| == if limit < |s| then limit else |s|)
      && Sorted(o, r)
      && multiset(r) <= multiset(s)
      && forall p, q :: p in r && q in multiset(s) - multiset(r) ==> Le(o, p, q)
  {
    var sorted := SortBy(o, s);
    var r := SliceTo(sorted, limit);
    SortBySorted(o, s);
    assert r == sorted[..|r|];
    SortedPrefix(o, sorted, |r|);
    PrefixLeavesRest(sorted, |r|);
    SortedPrefixPrecedesRest(o, sorted, |r|);
  }

  /** Taking a prefix leaves the rest of the multiset for the suffix. */
  lemma PrefixLeavesRest(s: seq<Phone>, k: nat)
    requires k <= |s|
    ensures multiset(s[..k]) <= multiset(s)
    ensures multiset(s) - multiset(s[..k]) == multiset(s[k..])
  {
    assert s == s[..k] + s[k..];
  }

  /** In a sorted list, every phone of a prefix may stand before every phone after it. */
  lemma SortedPrefixPrecedesRest(o: Ordering, sorted: seq<Phone>, k: nat)
    requires Sorted(o, sorted) && k <= |sorted|
    ensures forall p, q :: p in sorted[..k] && q in multiset(sorted[k..]) ==> Le(o, p, q)
  {
    forall p, q | p in sorted[..k] && q in multiset(sorted[k..]) ensures Le(o, p, q) {
      var i :| 0 <= i < k && sorted[..k][i] == p;
      assert q in sorted[k..];
      var j :| 0 <= j < |sorted| - k && sorted[k..][j] == q;
      assert sorted[i] == p && sorted[k + j] == q;
    }
  }

  /** In a list sorted by popularity, popularity never increases. */
  lemma PopularityNonIncreasing(r: seq<Phone>)
    requires Sorted(MostPopular, r)
    ensures forall i, j :: 0 <= i < j < |r| ==> r[i].popularity >= r[j].popularity
  {
    forall i, j | 0 <= i < j < |r| ensures r[i].popularity >= r[j].popularity {
      assert Le(MostPopular, r[i], r[j]);
    }
  }

  /** In a list sorted by release year, the year never increases. */
  lemma ReleaseYearNonIncreasing(r: seq<Phone>)
    requires Sorted(Newest, r)
    ensures forall i, j :: 0 <= i < j < |r| ==> r[i].releaseYear >= r[j].releaseYear
  {
    forall i, j | 0 <= i < j < |r| ensures r[i].releaseYear >= r[j].releaseYear {
      assert Le(Newest, r[i], r[j]);
    }
  }

  /** Phones that may all stand before the ones of `m` in popularity order are at least as popular. */
  lemma PopularityDominates(r: seq<Phone>, m: multiset<Phone>)
    requires forall p, q :: p in r && q in m ==> Le(MostPopular, p, q)
    ensures forall p, q :: p in r && q in m ==> p.popularity >= q.popularity
  {
  }

  /** Phones that may all stand before the ones of `m` in release order are at least as new. */
  lemma ReleaseYearDominates(r: seq<Phone>, m: multiset<Phone>)
    requires forall p, q :: p in r && q in m ==> Le(Newest, p, q)
    ensures forall p, q :: p in r && q in m ==> p.releaseYear >= q.releaseYear
  {
  }

  /** The popular list has min(limit, |catalogue|) phones in non-increasing popularity, and every
      catalogue phone left out is at most as popular as every phone in it. */
  lemma PopularPhonesSpec(catalogue: seq<Phone>, limit: int)
    ensures var r := GetPopularPhones(catalogue, limit);
      && (limit >= 0 ==> |r| == if limit < |catalogue| then limit else |catalogue|)
      && multiset(r) <= multiset(catalogue)
      && (forall i, j :: 0 <= i < j < |r| ==> r[i].popularity >= r[j].popularity)
      && forall p, q :: p in r && q in multiset(catalogue) - multiset(r) ==> p.popularity >= q.popularity
  {
    var r := GetPopularPhones(catalogue, limit);
    TopByOrder(MostPopular, catalogue, limit);
    PopularityNonIncreasing(r);
    PopularityDominates(r, multiset(catalogue) - multiset(r));
  }

  /** The newest list has min(limit, |catalogue|) phones in non-increasing release year, and every
      catalogue phone left out is no newer than every phone in it. */
  lemma NewPhonesSpec(catalogue: seq<Phone>, limit: int)
    ensures var r := GetNewPhones(catalogue, limit);
      && (limit >= 0 ==> |r| == if limit < |catalogue| then limit else |catalogue|)
      && multiset(r) <= multiset(catalogue)
      && (forall i, j :: 0 <= i < j < |r| ==> r[i].releaseYear >= r[j].releaseYear)
      && forall p, q :: p in r && q in multiset(catalogue) - multiset(r) ==> p.releaseYear >= q.releaseYear
  {
    var r := GetNewPhones(catalogue, limit);
    TopByOrder(Newest, catalogue, limit);
    ReleaseYearNonIncreasing(r);
    ReleaseYearDominates(r, multiset(catalogue) - multiset(r));
  }
}
