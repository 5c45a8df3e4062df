/** The orders the catalogue is sorted by and the stable sort they are applied with.
    Every source `sort` call passes a comparator and relies on `Array.prototype.sort` being stable;
    `SortBy` is an insertion sort by that comparator, and the lemmas below show that it returns the
    only sorted, stable permutation of its input, which is what any stable sort returns. */
module Sorting {
  import opened Common
  import opened Text
  import opened Catalog

  /** One comparator per source call site; `SimilarTo` is the ranking of `getSimilarPhones`. */
  datatype Ordering =
    | PriceAscending
    | PriceDescending
    | NameAscending
    | NameDescending
    | Newest
    | MostPopular
    | SimilarTo(brand: string, price: int)

  function Abs(x: int): nat
  {
    if x < 0 then -x else x
  }

  /** The comparator: negative when `a` belongs before `b`, positive when after, zero for a tie. */
  function Compare(o: Ordering, a: Phone, b: Phone): int
  {
    match o
    case PriceAscending => a.price - b.price
    case PriceDescending => b.price - a.price
    case NameAscending => LexCompare(a.name, b.name)
    case NameDescending => LexCompare(b.name, a.name)
    case Newest => b.releaseYear - a.releaseYear
    case MostPopular => b.popularity - a.popularity
    case SimilarTo(brand, price) =>
      if a.brand == brand && b.brand != brand then -1
      else if a.brand != brand && b.brand == brand then 1
      else Abs(a.price - price) - Abs(b.price - price)
  }

  /** `a` may stand before `b`. */
  predicate Le(o: Ordering, a: Phone, b: Phone)
  {
    Compare(o, a, b) <= 0
  }

  /** `a` and `b` compare equal, so a stable sort keeps them in input order. */
  predicate Tie(o: Ordering, a: Phone, b: Phone)
  {
    Le(o, a, b) && Le(o, b, a)
  }

  lemma LeTotal(o: Ordering, a: Phone, b: Phone)
    ensures Le(o, a, b) || Le(o, b, a)
  {
    if o.NameAscending? || o.NameDescending? {
      LexCompareAntisymmetric(a.name, b.name);
    }
  }

  lemma LeTransitive(o: Ordering, a: Phone, b: Phone, c: Phone)
    requires Le(o, a, b) && Le(o, b, c)
    ensures Le(o, a, c)
  {
    match o
    case NameAscending => LexCompareTransitive(a.name, b.name, c.name);
    case NameDescending => LexCompareTransitive(c.name, b.name, a.name);
    case _ =>
  }

  /** Every phone ties with itself. */
  lemma TieReflexive(o: Ordering, a: Phone)
    ensures Tie(o, a, a)
  {
    LeTotal(o, a, a);
  }

  /** Ties form an equivalence: two phones tied with a third are tied with each other. */
  lemma TieTransitive(o: Ordering, a: Phone, b: Phone, c: Phone)
    requires Tie(o, a, b) && Tie(o, a, c)
    ensures Tie(o, b, c)
  {
    LeTransitive(o, b, a, c);
    LeTransitive(o, c, a, b);
  }

  /** Insertion of `x` before the first element it may precede. */
  function Insert(o: Ordering, x: Phone, r: seq<Phone>): (t: seq<Phone>)
    ensures |t| == |r| + 1
    ensures multiset(t) == multiset(r) + multiset{x}
  {
    if r == [] then [x]
    else if Le(o, x, r[0]) then [x] + r
    else
      assert r == [r[0]] + r[1..];
      [r[0]] + Insert(o, x, r[1..])
  }

  /** The stable sort of `s` by the order `o`; `s` itself is a value and stays as it was. */
  function SortBy(o: Ordering, s: seq<Phone>): (r: seq<Phone>)
    ensures |r| == |s|
    ensures multiset(r) == multiset(s)
  {
    if s == [] then []
    else
      assert s == [s[0]] + s[1..];
      Insert(o, s[0], SortBy(o, s[1..]))
  }

  ghost predicate Sorted(o: Ordering, r: seq<Phone>)
  {
    forall i, j :: 0 <= i < j < |r| ==> Le(o, r[i], r[j])
  }

  /** The phones of `s` that tie with `x`, in their order in `s`. */
  function Ties(o: Ordering, x: Phone, s: seq<Phone>): seq<Phone>
  {
    if s == [] then [] else (if Tie(o, x, s[0]) then [s[0]] else []) + Ties(o, x, s[1..])
  }

  /** `Ties` of a sequence with a known first element. */
  lemma TiesCons(o: Ordering, x: Phone, e: Phone, r: seq<Phone>)
    ensures Ties(o, x, [e] + r) == (if Tie(o, x, e) then [e] else []) + Ties(o, x, r)
  {
    assert ([e] + r)[0] == e;
    assert ([e] + r)[1..] == r;
  }

  /** `Ties` distributes over concatenation. */
  lemma {:induction false} TiesConcat(o: Ordering, x: Phone, a: seq<Phone>, b: seq<Phone>)
    ensures Ties(o, x, a + b) == Ties(o, x, a) + Ties(o, x, b)
  {
    if a == [] {
      assert a + b == b;
    } else {
      assert a + b == [a[0]] + (a[1..] + b);
      TiesConcat(o, x, a[1..], b);
      TiesCons(o, x, a[0], a[1..] + b);
    }
  }

  lemma SortedCons(o: Ordering, a: Phone, t: seq<Phone>)
    requires Sorted(o, t)
    requires forall y :: y in t ==> Le(o, a, y)
    ensures Sorted(o, [a] + t)
  {
    forall i, j | 0 <= i < j < |[a] + t| ensures Le(o, ([a] + t)[i], ([a] + t)[j]) {
      if i == 0 {
        assert ([a] + t)[j] == t[j - 1];
        assert t[j - 1] in t;
      } else {
        assert ([a] + t)[i] == t[i - 1] && ([a] + t)[j] == t[j - 1];
      }
    }
  }

  lemma {:induction false} InsertSorted(o: Ordering, x: Phone, r: seq<Phone>)
    requires Sorted(o, r)
    ensures Sorted(o, Insert(o, x, r))
  {
    if r == [] {
    } else if Le(o, x, r[0]) {
      InsertSortedFront(o, x, r);
    } else {
      SortedTail(o, r);
      InsertSorted(o, x, r[1..]);
      InsertSortedLater(o, x, r);
    }
  }

  /** Inserting in front of a sorted sequence whose head `x` may precede keeps it sorted. */
  lemma InsertSortedFront(o: Ordering, x: Phone, r: seq<Phone>)
    requires Sorted(o, r) && r != [] && Le(o, x, r[0])
    ensures Sorted(o, [x] + r)
  {
    forall y | y in r ensures Le(o, x, y) {
      var j :| 0 <= j < |r| && r[j] == y;
      if j > 0 { LeTransitive(o, x, r[0], y); }
    }
    SortedCons(o, x, r);
  }

  /** Inserting past the head keeps the head in front of the sorted rest. */
  lemma InsertSortedLater(o: Ordering, x: Phone, r: seq<Phone>)
    requires Sorted(o, r) && r != [] && !Le(o, x, r[0])
    requires Sorted(o, Insert(o, x, r[1..]))
    ensures Sorted(o, Insert(o, x, r))
  {
    var rest := r[1..];
    LeTotal(o, x, r[0]);
    forall y | y in Insert(o, x, rest) ensures Le(o, r[0], y) {
      assert y in multiset(Insert(o, x, rest));
      if y != x {
        assert y in multiset(rest);
        var j :| 0 <= j < |rest| && rest[j] == y;
        assert r[j + 1] == y;
      }
    }
    SortedCons(o, r[0], Insert(o, x, rest));
  }

  /** The sort's output is ordered by the comparator. */
  lemma {:induction false} SortBySorted(o: Ordering, s: seq<Phone>)
    ensures Sorted(o, SortBy(o, s))
  {
    if s != [] {
      SortBySorted(o, s[1..]);
      InsertSorted(o, s[0], SortBy(o, s[1..]));
    }
  }

  /** Inserting `e` places it ahead of every element it ties with. */
  lemma {:induction false} InsertTies(o: Ordering, x: Phone, e: Phone, r: seq<Phone>)
    ensures Ties(o, x, Insert(o, e, r)) == (if Tie(o, x, e) then [e] else []) + Ties(o, x, r)
  {
    if r == [] {
      TiesCons(o, x, e, []);
    } else if Le(o, e, r[0]) {
      TiesCons(o, x, e, r);
    } else {
      InsertTies(o, x, e, r[1..]);
      InsertTiesLater(o, x, e, r);
    }
  }

  /** When `e` goes past the head, the head cannot tie with `x` if `e` does, since then `e` would
      tie with the head and stop in front of it. */
  lemma InsertTiesLater(o: Ordering, x: Phone, e: Phone, r: seq<Phone>)
    requires r != [] && !Le(o, e, r[0])
    requires Ties(o, x, Insert(o, e, r[1..])) == (if Tie(o, x, e) then [e] else []) + Ties(o, x, r[1..])
    ensures Ties(o, x, Insert(o, e, r)) == (if Tie(o, x, e) then [e] else []) + Ties(o, x, r)
  {
    var rest := r[1..];
    var he: seq<Phone> := if Tie(o, x, e) then [e] else [];
    var h0: seq<Phone> := if Tie(o, x, r[0]) then [r[0]] else [];
    var t := Ties(o, x, rest);
    NotBothTie(o, x, e, r[0]);
    calc {
      Ties(o, x, Insert(o, e, r));
      { assert Insert(o, e, r) == [r[0]] + Insert(o, e, rest);
        TiesCons(o, x, r[0], Insert(o, e, rest)); }
      h0 + Ties(o, x, Insert(o, e, rest));
      h0 + (he + t);
      { SwapEmptyPrefix(he, h0, t); }
      he + (h0 + t);
      { TiesCons(o, x, r[0], rest);
        assert [r[0]] + rest == r; }
      he + Ties(o, x, r);
    }
  }

  /** Two prefixes of which one is empty can be put on in either order. */
  lemma SwapEmptyPrefix<T>(a: seq<T>, b: seq<T>, t: seq<T>)
    requires a == [] || b == []
    ensures b + (a + t) == a + (b + t)
  {
    if a == [] {
      assert a + t == t && a + (b + t) == b + t;
    } else {
      assert b + (a + t) == a + t && b + t == t;
    }
  }

  /** Phones that may not stand in that order do not both tie with a third. */
  lemma NotBothTie(o: Ordering, x: Phone, e: Phone, a: Phone)
    requires !Le(o, e, a)
    ensures !(Tie(o, x, e) && Tie(o, x, a))
  {
    if Tie(o, x, e) && Tie(o, x, a) {
      TieTransitive(o, x, e, a);
    }
  }

  /** Stability: for every phone, the phones tied with it keep their relative input order. */
  lemma {:induction false} SortByStable(o: Ordering, x: Phone, s: seq<Phone>)
    ensures Ties(o, x, SortBy(o, s)) == Ties(o, x, s)
  {
    if s != [] {
      SortByStable(o, x, s[1..]);
      InsertTies(o, x, s[0], SortBy(o, s[1..]));
      assert s == [s[0]] + s[1..];
      TiesCons(o, x, s[0], s[1..]);
    }
  }

  /** Two sorted permutations of each other start with tied phones. */
  lemma SortedHeadsTie(o: Ordering, r: seq<Phone>, t: seq<Phone>)
    requires multiset(r) == multiset(t) && r != [] && t != []
    requires Sorted(o, r) && Sorted(o, t)
    ensures Tie(o, r[0], t[0])
  {
    var a, b := r[0], t[0];
    assert a in multiset(t) && b in multiset(r);
    var ia :| 0 <= ia < |t| && t[ia] == a;
    var ib :| 0 <= ib < |r| && r[ib] == b;
    TieReflexive(o, a);
    TieReflexive(o, b);
    if ia > 0 { assert Le(o, b, a); }
    if ib > 0 { assert Le(o, a, b); }
  }

  /** Sequences with the same ties for every phone whose heads tie have the same head. */
  lemma SameTiesSameHead(o: Ordering, r: seq<Phone>, t: seq<Phone>)
    requires r != [] && t != [] && Tie(o, r[0], t[0])
    requires Ties(o, r[0], r) == Ties(o, r[0], t)
    ensures r[0] == t[0]
  {
    TieReflexive(o, r[0]);
    assert Ties(o, r[0], r) == [r[0]] + Ties(o, r[0], r[1..]);
    assert Ties(o, r[0], t) == [t[0]] + Ties(o, r[0], t[1..]);
    assert Ties(o, r[0], r)[0] == r[0];
  }

  /** Removing the same head keeps the ties of every phone equal. */
  lemma TailTies(o: Ordering, a: Phone, r: seq<Phone>, t: seq<Phone>, x: Phone)
    requires Ties(o, x, [a] + r) == Ties(o, x, [a] + t)
    ensures Ties(o, x, r) == Ties(o, x, t)
  {
    TiesCons(o, x, a, r);
    TiesCons(o, x, a, t);
    var h := if Tie(o, x, a) then [a] else [];
    assert Ties(o, x, r) == (h + Ties(o, x, r))[|h|..];
    assert Ties(o, x, t) == (h + Ties(o, x, t))[|h|..];
  }

  /** A prefix of a sorted sequence is sorted. */
  lemma SortedPrefix(o: Ordering, s: seq<Phone>, k: nat)
    requires Sorted(o, s) && k <= |s|
    ensures Sorted(o, s[..k])
  {
    forall i, j | 0 <= i < j < k ensures Le(o, s[..k][i], s[..k][j]) {
      assert s[..k][i] == s[i] && s[..k][j] == s[j];
    }
  }

  /** The tail of a sorted sequence is sorted. */
  lemma SortedTail(o: Ordering, r: seq<Phone>)
    requires r != [] && Sorted(o, r)
    ensures Sorted(o, r[1..])
  {
    forall i, j | 0 <= i < j < |r| - 1 ensures Le(o, r[1..][i], r[1..][j]) {
      assert r[1..][i] == r[i + 1] && r[1..][j] == r[j + 1];
    }
  }

  /** Permutations with the same head have tails that are permutations. */
  lemma SameHeadTailsPermute(r: seq<Phone>, t: seq<Phone>)
    requires r != [] && t != [] && r[0] == t[0] && multiset(r) == multiset(t)
    ensures multiset(r[1..]) == multiset(t[1..])
  {
    assert r == [r[0]] + r[1..] && t == [t[0]] + t[1..];
    assert multiset(r[1..]) == multiset(r) - multiset{r[0]};
    assert multiset(t[1..]) == multiset(t) - multiset{t[0]};
  }

  /** Sequences with the same head and the same ties for every phone have tails with the same ties. */
  lemma SameHeadTailsTie(o: Ordering, r: seq<Phone>, t: seq<Phone>)
    requires r != [] && t != [] && r[0] == t[0]
    requires forall x :: Ties(o, x, r) == Ties(o, x, t)
    ensures forall x :: Ties(o, x, r[1..]) == Ties(o, x, t[1..])
  {
    assert r == [r[0]] + r[1..] && t == [t[0]] + t[1..];
    forall x ensures Ties(o, x, r[1..]) == Ties(o, x, t[1..]) {
      TailTies(o, r[0], r[1..], t[1..], x);
    }
  }

  /** A sorted, stable permutation is unique: any sort that is stable returns what `SortBy` returns. */
  lemma {:induction false} SortedStableUnique(o: Ordering, r: seq<Phone>, t: seq<Phone>)
    requires multiset(r) == multiset(t)
    requires Sorted(o, r) && Sorted(o, t)
    requires forall x :: Ties(o, x, r) == Ties(o, x, t)
    ensures r == t
    decreases |r|
  {
    assert |r| == |multiset(r)| == |t|;
    if r != [] {
      SortedHeadsTie(o, r, t);
      SameTiesSameHead(o, r, t);
      SameHeadTailsPermute(r, t);
      SortedTail(o, r);
      SortedTail(o, t);
      SameHeadTailsTie(o, r, t);
      SortedStableUnique(o, r[1..], t[1..]);
      assert r == [r[0]] + r[1..] && t == [t[0]] + t[1..];
    }
  }

  /** `SortBy` is characterised by its three properties: any sequence that is a sorted, stable
      permutation of `s` equals `SortBy(o, s)`. */
  lemma SortByIsTheStableSort(o: Ordering, s: seq<Phone>, r: seq<Phone>)
    requires multiset(r) == multiset(s) && Sorted(o, r)
    requires forall x :: Ties(o, x, r) == Ties(o, x, s)
    ensures r == SortBy(o, s)
  {
    SortBySorted(o, s);
    forall x ensures Ties(o, x, r) == Ties(o, x, SortBy(o, s)) {
      SortByStable(o, x, s);
    }
    SortedStableUnique(o, r, SortBy(o, s));
  }
}
