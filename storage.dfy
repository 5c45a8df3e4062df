/** What the three saved lists (compare, favourites, cart) share: the key a list is stored under and
    the rule by which a stored value is read back (src/contexts/CompareContext.tsx,
    src/contexts/FavoritesContext.tsx, src/contexts/CartContext.tsx). Browser storage is a map from
    keys to stored values, and a stored value is seen only through what `JSON.parse` makes of it. */
module Storage {
  import opened Common

  /** A stored string: empty (falsy, so never parsed), parsed to a value, or rejected by `JSON.parse`. */
  datatype Slot<T> = Blank | Parsed(value: T) | Unparseable

  type Store<T> = map<string, Slot<T>>

  /** `localStorage.getItem(key)`: `None` is `null`, a key never written. */
  function Lookup<T>(store: Store<T>, key: string): Option<Slot<T>>
  {
    if key in store then Some(store[key]) else None
  }

  /** The key of a list: `<kind>_<user.id>` when authenticated with a user, `<kind>_guest` otherwise. */
  function StorageKey(kind: string, isAuthenticated: bool, userId: Option<string>): (key: string)
    ensures |key| > |kind| && key[..|kind| + 1] == kind + "_"
  {
    if isAuthenticated && userId.Some? then kind + "_" + userId.value else kind + "_guest"
  }

  /** The three kinds of saved list. */
  const CompareKind: string := "compare"
  const FavoritesKind: string := "favorites"
  const CartKind: string := "cart"

  /** Lists of different kinds never share a key, whoever is signed in. */
  lemma KindsNeverCollide(kind1: string, kind2: string, auth1: bool, auth2: bool, user1: Option<string>, user2: Option<string>)
    requires kind1 in [CompareKind, FavoritesKind, CartKind] && kind2 in [CompareKind, FavoritesKind, CartKind]
    requires kind1 != kind2
    ensures StorageKey(kind1, auth1, user1) != StorageKey(kind2, auth2, user2)
  {
    var k1 := StorageKey(kind1, auth1, user1);
    var k2 := StorageKey(kind2, auth2, user2);
    assert k1[0] == kind1[0] && k1[1] == kind1[1] by {
      assert k1[..|kind1| + 1] == kind1 + "_";
    }
    assert k2[0] == kind2[0] && k2[1] == kind2[1] by {
      assert k2[..|kind2| + 1] == kind2 + "_";
    }
    assert kind1[0] != kind2[0] || kind1[1] != kind2[1];
  }

  /** Two signed-in users share a key exactly when their ids are equal. */
  lemma UserKeysDistinct(kind: string, id1: string, id2: string)
    ensures StorageKey(kind, true, Some(id1)) == StorageKey(kind, true, Some(id2)) <==> id1 == id2
  {
    var k1 := StorageKey(kind, true, Some(id1));
    var k2 := StorageKey(kind, true, Some(id2));
    if k1 == k2 {
      assert id1 == k1[|kind| + 1..] && id2 == k2[|kind| + 1..];
    }
  }

  /** A signed-in user shares the guest's key exactly when the user's id is the text "guest". */
  lemma GuestKeyShared(kind: string, id: string, userId: Option<string>)
    ensures StorageKey(kind, true, Some(id)) == StorageKey(kind, false, userId) <==> id == "guest"
  {
    var k1 := StorageKey(kind, true, Some(id));
    var k2 := StorageKey(kind, false, userId);
    if k1 == k2 {
      assert id == k1[|kind| + 1..] && "guest" == k2[|kind| + 1..];
    }
  }

  /** The load step: a parsed value replaces the list, a parse failure empties it, and a missing or
      empty stored value leaves the list as it is. */
  function Reload<T>(items: seq<T>, stored: Option<Slot<seq<T>>>): (r: seq<T>)
    ensures stored.None? || stored.value.Blank? ==> r == items
    ensures stored.Some? && stored.value.Unparseable? ==> r == []
    ensures stored.Some? && stored.value.Parsed? ==> r == stored.value.value
  {
    match stored
    case None => items
    case Some(Blank) => items
    case Some(Parsed(v)) => v
    case Some(Unparseable) => []
  }

  /** A list written under a key reads back as itself, whatever was in memory before. */
  lemma SaveThenReload<T>(store: Store<seq<T>>, key: string, items: seq<T>, before: seq<T>)
    ensures Reload(before, Lookup(store[key := Parsed(items)], key)) == items
  {
  }

  /** Writing under one key does not change what another key reads back. */
  lemma SaveKeepsOtherKeys<T>(store: Store<seq<T>>, key: string, other: string, items: seq<T>, before: seq<T>)
    requires other != key
    ensures Reload(before, Lookup(store[key := Parsed(items)], other)) == Reload(before, Lookup(store, other))
  {
  }
}
