/** The favourites list (src/contexts/FavoritesContext.tsx): phone ids switched on and off one at a
    time, kept in storage under a key that depends on who is signed in. */
module FavoritesContext {
  import opened Common
  import opened Storage

  /** The `toggleFavorite` updater: a present id is removed everywhere it occurs, an absent one is
      appended. */
  function ToggleFavorite(prev: seq<string>, id: string): (r: seq<string>)
    ensures (id in r) == (id !in prev)
    ensures id in prev ==> IsSubsequence(r, prev)
    ensures id in prev ==> forall x :: x in prev ==> multiset(r)[x] == if x == id then 0 else multiset(prev)[x]
    ensures id !in prev ==> r == prev + [id]
  {
    if id in prev then
      WithoutIsSubsequence(prev, id);
      Without(prev, id)
    else prev + [id]
  }

  /** A toggle leaves the membership of every other id as it was. */
  lemma ToggleKeepsOthers(prev: seq<string>, id: string, other: string)
    requires other != id
    ensures (other in ToggleFavorite(prev, id)) == (other in prev)
  {
    WithoutMembership(prev, id, other);
  }

  /** Toggling twice restores which ids are favourites; when the id was not a favourite, it restores
      the list exactly. */
  lemma ToggleTwice(prev: seq<string>, id: string, x: string)
    ensures (x in ToggleFavorite(ToggleFavorite(prev, id), id)) == (x in prev)
    ensures id !in prev ==> ToggleFavorite(ToggleFavorite(prev, id), id) == prev
  {
    if id in prev {
      var once := Without(prev, id);
      WithoutMembership(prev, id, x);
      assert ToggleFavorite(once, id) == once + [id];
    } else {
      WithoutAppend(prev, id);
    }
  }

  /** The favourites of one browser tab, with the storage it reads and writes and the identity its
      key depends on. */
  class FavoritesList {
    var favorites: seq<string>
    var store: Store<seq<string>>
    var isAuthenticated: bool
    var userId: Option<string>

    /** The key the list is saved under for the current identity. */
    function Key(): string
      reads this
    {
      StorageKey(FavoritesKind, isAuthenticated, userId)
    }

    /** The storage holds the list under the current key. */
    predicate Persisted()
      reads this
    {
      Lookup(store, Key()) == Some(Parsed(favorites))
    }

    /** `isFavorite`. */
    function IsFavorite(id: string): bool
      reads this
    {
      id in favorites
    }

    /** Mounting the provider: the list starts empty, is reloaded from the current key, and is then
        saved under it. */
    constructor(store: Store<seq<string>>, isAuthenticated: bool, userId: Option<string>)
      ensures this.isAuthenticated == isAuthenticated && this.userId == userId
      ensures favorites == Reload([], Lookup(store, Key()))
      ensures this.store == store[Key() := Parsed(favorites)]
      ensures Persisted()
    {
      this.isAuthenticated := isAuthenticated;
      this.userId := userId;
      this.store := store;
      favorites := [];
      new;
      Load();
      Save();
    }

    /** The load effect. */
    method Load()
      modifies this`favorites
      ensures favorites == Reload(old(favorites), Lookup(store, Key()))
    {
      var stored := Lookup(store, Key());
      match stored {
        case None =>
        case Some(Blank) =>
        case Some(Parsed(v)) => favorites := v;
        case Some(Unparseable) => favorites := [];
      }
    }

    /** The save effect: the whole list is written under the current key. */
    method Save()
      modifies this`store
      ensures store == old(store)[Key() := Parsed(favorites)]
      ensures Persisted()
    {
      store := store[Key() := Parsed(favorites)];
    }

    /** The identity changes: the list is reloaded from the new key, then saved under it. */
    method ChangeIdentity(isAuthenticated: bool, userId: Option<string>)
      modifies this
      ensures this.isAuthenticated == isAuthenticated && this.userId == userId
      ensures favorites == Reload(old(favorites), Lookup(old(store), Key()))
      ensures store == old(store)[Key() := Parsed(favorites)]
      ensures Persisted()
    {
      this.isAuthenticated := isAuthenticated;
      this.userId := userId;
      Load();
      Save();
    }

    /** `toggleFavorite`: always a new list, so always saved; the id's favourite flag flips. */
    method Toggle(id: string)
      modifies this`favorites, this`store
      ensures favorites == ToggleFavorite(old(favorites), id)
      ensures IsFavorite(id) == !old(IsFavorite(id))
      ensures store == old(store)[Key() := Parsed(favorites)]
      ensures Persisted()
    {
      favorites := ToggleFavorite(favorites, id);
      Save();
    }
  }
}
