/** The shopping cart (src/contexts/CartContext.tsx): a list of (phone id, quantity) entries, kept in
    storage under a key that depends on who is signed in. */
module CartContext {
  import opened Common
  import opened Storage

  datatype CartItem = CartItem(id: string, quantity: int)

  /** `totalItems`: the sum of all quantities. */
  function Total(items: seq<CartItem>): int
  {
    if items == [] then 0 else items[0].quantity + Total(items[1..])
  }

  /** How many entries carry the id. */
  function Count(items: seq<CartItem>, id: string): (n: nat)
    ensures n <= |items|
    ensures n == 0 <==> forall i :: 0 <= i < |items| ==> items[i].id != id
  {
    if items == [] then 0
    else (if items[0].id == id then 1 else 0) + Count(items[1..], id)
  }

  /** No two entries carry the same id. */
  ghost predicate UniqueIds(items: seq<CartItem>)
  {
    forall i, j :: 0 <= i < j < |items| ==> items[i].id != items[j].id
  }

  /** `prev.find(item => item.id === id)` found an entry. */
  predicate HasItem(items: seq<CartItem>, id: string)
  {
    exists i :: 0 <= i < |items| && items[i].id == id
  }

  /** `prev.map(...)` adding `q` to the quantity of every entry with the id. */
  function AddQuantity(items: seq<CartItem>, id: string, q: int): (r: seq<CartItem>)
    ensures |r| == |items|
    ensures forall i :: 0 <= i < |r| ==> r[i].id == items[i].id
    ensures forall i :: 0 <= i < |r| ==>
              r[i].quantity == if items[i].id == id then items[i].quantity + q else items[i].quantity
  {
    if items == [] then []
    else
      [if items[0].id == id then CartItem(id, items[0].quantity + q) else items[0]]
      + AddQuantity(items[1..], id, q)
  }

  /** `prev.map(...)` setting the quantity of every entry with the id to `q`. */
  function SetQuantity(items: seq<CartItem>, id: string, q: int): (r: seq<CartItem>)
    ensures |r| == |items|
    ensures forall i :: 0 <= i < |r| ==> r[i].id == items[i].id
    ensures forall i :: 0 <= i < |r| ==> r[i].quantity == if items[i].id == id then q else items[i].quantity
  {
    if items == [] then []
    else
      [if items[0].id == id then CartItem(id, q) else items[0]] + SetQuantity(items[1..], id, q)
  }

  /** The `addToCart` updater: an id already in the cart gains `q` in place; a new id is appended
      with quantity `q`. */
  function AddToCart(prev: seq<CartItem>, id: string, q: int): (r: seq<CartItem>)
    ensures HasItem(prev, id) ==> |r| == |prev| && forall i :: 0 <= i < |r| ==> r[i].id == prev[i].id
    ensures HasItem(prev, id) ==> forall i :: 0 <= i < |r| ==>
              r[i].quantity == if prev[i].id == id then prev[i].quantity + q else prev[i].quantity
    ensures !HasItem(prev, id) ==> r == prev + [CartItem(id, q)]
  {
    if HasItem(prev, id) then AddQuantity(prev, id, q) else prev + [CartItem(id, q)]
  }

  /** The `removeFromCart` updater: every entry with the id goes, the rest keep their order. */
  function RemoveFromCart(prev: seq<CartItem>, id: string): (r: seq<CartItem>)
    ensures forall x :: x in r <==> x in prev && x.id != id
    ensures IsSubsequence(r, prev)
    ensures forall x :: x in prev ==> multiset(r)[x] == if x.id == id then 0 else multiset(prev)[x]
  {
    forall x ensures x in Filter((item: CartItem) => item.id != id, prev) <==> x in prev && x.id != id {
      FilterMembership((item: CartItem) => item.id != id, prev, x);
    }
    FilterIsSubsequence((item: CartItem) => item.id != id, prev);
    Filter((item: CartItem) => item.id != id, prev)
  }

  /** `updateQuantity`: a quantity of zero or less removes the entry, any other sets it. */
  function UpdateQuantity(prev: seq<CartItem>, id: string, q: int): (r: seq<CartItem>)
    ensures q <= 0 ==> forall x :: x in r <==> x in prev && x.id != id
    ensures q <= 0 ==> r == RemoveFromCart(prev, id) && IsSubsequence(r, prev)
    ensures q <= 0 ==> forall x :: x in prev ==> multiset(r)[x] == if x.id == id then 0 else multiset(prev)[x]
    ensures q > 0 ==> |r| == |prev| && forall i :: 0 <= i < |r| ==>
              r[i].id == prev[i].id && r[i].quantity == if prev[i].id == id then q else prev[i].quantity
  {
    if q <= 0 then RemoveFromCart(prev, id) else SetQuantity(prev, id, q)
  }

  lemma {:induction false} TotalConcat(a: seq<CartItem>, b: seq<CartItem>)
    ensures Total(a + b) == Total(a) + Total(b)
  {
    if a == [] {
      assert a + b == b;
    } else {
      assert (a + b)[0] == a[0];
      assert (a + b)[1..] == a[1..] + b;
      TotalConcat(a[1..], b);
    }
  }

  /** Adding `q` to every entry with the id raises the total by `q` per such entry. */
  lemma {:induction false} AddQuantityTotal(items: seq<CartItem>, id: string, q: int)
    ensures Total(AddQuantity(items, id, q)) == Total(items) + q * Count(items, id)
  {
    if items != [] {
      var r := AddQuantity(items, id, q);
      var c := Count(items[1..], id);
      AddQuantityTotal(items[1..], id, q);
      assert r[1..] == AddQuantity(items[1..], id, q);
      assert Total(r) == r[0].quantity + Total(items[1..]) + q * c;
      if items[0].id == id {
        assert Count(items, id) == 1 + c;
        MulOnePlus(q, c);
      } else {
        assert Count(items, id) == c;
      }
    }
  }

  /** Distributivity, kept apart so that the induction above stays linear. */
  lemma MulOnePlus(q: int, c: int)
    ensures q * (1 + c) == q + q * c
  {
  }

  /** In a cart with unique ids, an id that is present occurs exactly once. */
  lemma {:induction false} UniqueCountIsOne(items: seq<CartItem>, id: string)
    requires UniqueIds(items) && HasItem(items, id)
    ensures Count(items, id) == 1
  {
    if items[0].id == id {
      assert forall i :: 0 <= i < |items[1..]| ==> items[1..][i].id != id by {
        forall i | 0 <= i < |items[1..]| ensures items[1..][i].id != id {
          assert items[1..][i] == items[i + 1];
        }
      }
    } else {
      var k :| 0 <= k < |items| && items[k].id == id;
      assert items[1..][k - 1].id == id;
      assert UniqueIds(items[1..]) by {
        forall i, j | 0 <= i < j < |items[1..]| ensures items[1..][i].id != items[1..][j].id {
          assert items[1..][i] == items[i + 1] && items[1..][j] == items[j + 1];
        }
      }
      UniqueCountIsOne(items[1..], id);
    }
  }

  /** With unique ids, `addToCart(id, q)` raises `totalItems` by exactly `q`. */
  lemma AddToCartTotal(prev: seq<CartItem>, id: string, q: int)
    requires UniqueIds(prev)
    ensures Total(AddToCart(prev, id, q)) == Total(prev) + q
  {
    if HasItem(prev, id) {
      AddQuantityTotal(prev, id, q);
      UniqueCountIsOne(prev, id);
    } else {
      TotalConcat(prev, [CartItem(id, q)]);
    }
  }

  /** `addToCart` keeps ids unique. */
  lemma AddToCartKeepsUnique(prev: seq<CartItem>, id: string, q: int)
    requires UniqueIds(prev)
    ensures UniqueIds(AddToCart(prev, id, q))
  {
    var r := AddToCart(prev, id, q);
    if !HasItem(prev, id) {
      forall i, j | 0 <= i < j < |r| ensures r[i].id != r[j].id {
        if j < |prev| {
          assert r[i] == prev[i] && r[j] == prev[j];
        } else {
          assert r[i] == prev[i];
        }
      }
    }
  }

  /** `updateQuantity` on an id that is not in the cart changes nothing: it never inserts. */
  lemma UpdateAbsentIsNoOp(prev: seq<CartItem>, id: string, q: int)
    requires !HasItem(prev, id)
    ensures UpdateQuantity(prev, id, q) == prev
  {
    var r := UpdateQuantity(prev, id, q);
    if q <= 0 {
      RemoveNothing(prev, id);
    } else {
      assert forall i :: 0 <= i < |r| ==> r[i] == prev[i];
    }
  }

  /** Removing an id that no entry carries changes nothing. */
  lemma RemoveNothing(prev: seq<CartItem>, id: string)
    requires !HasItem(prev, id)
    ensures RemoveFromCart(prev, id) == prev
  {
    forall x | x in prev ensures x.id != id {
      var i :| 0 <= i < |prev| && prev[i] == x;
    }
    FilterKeepsAll((item: CartItem) => item.id != id, prev);
  }

  /** The cart of one browser tab, with the storage it reads and writes and the identity its key
      depends on. */
  class Cart {
    var cartItems: seq<CartItem>
    var store: Store<seq<CartItem>>
    var isAuthenticated: bool
    var userId: Option<string>

    /** The key the cart is saved under for the current identity. */
    function Key(): string
      reads this
    {
      StorageKey(CartKind, isAuthenticated, userId)
    }

    /** The storage holds the cart under the current key. */
    predicate Persisted()
      reads this
    {
      Lookup(store, Key()) == Some(Parsed(cartItems))
    }

    /** `totalItems`. */
    function TotalItems(): int
      reads this
    {
      Total(cartItems)
    }

    /** Mounting the provider: the cart starts empty, is reloaded from the current key, and is then
        saved under it. */
    constructor(store: Store<seq<CartItem>>, isAuthenticated: bool, userId: Option<string>)
      ensures this.isAuthenticated == isAuthenticated && this.userId == userId
      ensures cartItems == Reload([], Lookup(store, Key()))
      ensures this.store == store[Key() := Parsed(cartItems)]
      ensures Persisted()
    {
      this.isAuthenticated := isAuthenticated;
      this.userId := userId;
      this.store := store;
      cartItems := [];
      new;
      Load();
      Save();
    }

    /** The load effect. */
    method Load()
      modifies this`cartItems
      ensures cartItems == Reload(old(cartItems), Lookup(store, Key()))
    {
      var stored := Lookup(store, Key());
      match stored {
        case None =>
        case Some(Blank) =>
        case Some(Parsed(v)) => cartItems := v;
        case Some(Unparseable) => cartItems := [];
      }
    }

    /** The save effect: the whole cart is written under the current key. */
    method Save()
      modifies this`store
      ensures store == old(store)[Key() := Parsed(cartItems)]
      ensures Persisted()
    {
      store := store[Key() := Parsed(cartItems)];
    }

    /** The identity changes: the cart is reloaded from the new key, then saved under it. */
    method ChangeIdentity(isAuthenticated: bool, userId: Option<string>)
      modifies this
      ensures this.isAuthenticated == isAuthenticated && this.userId == userId
      ensures cartItems == Reload(old(cartItems), Lookup(old(store), Key()))
      ensures store == old(store)[Key() := Parsed(cartItems)]
      ensures Persisted()
    {
      this.isAuthenticated := isAuthenticated;
      this.userId := userId;
      Load();
      Save();
    }

    /** `addToCart(id, quantity = 1)`. */
    method Add(id: string, quantity: int := 1)
      modifies this`cartItems, this`store
      ensures cartItems == AddToCart(old(cartItems), id, quantity)
      ensures UniqueIds(old(cartItems)) ==> UniqueIds(cartItems) && TotalItems() == old(TotalItems()) + quantity
      ensures store == old(store)[Key() := Parsed(cartItems)]
      ensures Persisted()
    {
      if UniqueIds(cartItems) {
        AddToCartTotal(cartItems, id, quantity);
        AddToCartKeepsUnique(cartItems, id, quantity);
      }
      var found := HasItem(cartItems, id);
      if found {
        cartItems := AddQuantity(cartItems, id, quantity);
      } else {
        cartItems := cartItems + [CartItem(id, quantity)];
      }
      Save();
    }

    /** `removeFromCart`. */
    method Remove(id: string)
      modifies this`cartItems, this`store
      ensures cartItems == RemoveFromCart(old(cartItems), id)
      ensures store == old(store)[Key() := Parsed(cartItems)]
      ensures Persisted()
    {
      cartItems := RemoveFromCart(cartItems, id);
      Save();
    }

    /** `updateQuantity`: zero or less removes the entry, as `removeFromCart` would. */
    method Update(id: string, quantity: int)
      modifies this`cartItems, this`store
      ensures cartItems == UpdateQuantity(old(cartItems), id, quantity)
      ensures quantity <= 0 ==> cartItems == RemoveFromCart(old(cartItems), id)
      ensures !HasItem(old(cartItems), id) ==> cartItems == old(cartItems)
      ensures store == old(store)[Key() := Parsed(cartItems)]
      ensures Persisted()
    {
      if !HasItem(cartItems, id) {
        UpdateAbsentIsNoOp(cartItems, id, quantity);
      }
      if quantity <= 0 {
        Remove(id);
        return;
      }
      cartItems := SetQuantity(cartItems, id, quantity);
      Save();
    }

    /** `clearCart`. */
    method Clear()
      modifies this`cartItems, this`store
      ensures cartItems == [] && TotalItems() == 0
      ensures store == old(store)[Key() := Parsed([])]
      ensures Persisted()
    {
      cartItems := [];
      Save();
    }
  }
}
