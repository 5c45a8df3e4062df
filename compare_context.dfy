/** The comparison list (src/contexts/CompareContext.tsx): up to four phone ids, the oldest evicted
    when a fifth arrives, kept in storage under a key that depends on who is signed in. */
module CompareContext {
  import opened Common
  import opened Storage

  const MaxCompareItems: nat := 4

  /** The `addToCompare` updater: an id already present changes nothing; otherwise the id goes at the
      end, after dropping the first (oldest) id when the list is full. */
  function AddToCompare(prev: seq<string>, id: string): (r: seq<string>)
    ensures id in r
    ensures |prev| <= MaxCompareItems ==> |r| <= MaxCompareItems
    ensures forall x :: x in r ==> x in prev || x == id
    ensures id in prev ==> r == prev
    ensures id !in prev ==> |r| > 0 && r[|r| - 1] == id
    ensures id !in prev ==> r[..|r| - 1] == if |prev| >= MaxCompareItems then prev[1..] else prev
  {
    if id in prev then prev
    else if |prev| >= MaxCompareItems then prev[1..] + [id]
    else prev + [id]
  }

  /** Only the oldest id can be evicted, and only when the list was full and the id new. */
  lemma AddToCompareKeeps(prev: seq<string>, id: string, x: string)
    requires x in prev
    ensures x in AddToCompare(prev, id) <==> (x in prev[1..] || x == id || id in prev || |prev| < MaxCompareItems)
  {
  }

  /** Adding an id to a duplicate-free list keeps it duplicate-free. */
  lemma AddToCompareNoDuplicates(prev: seq<string>, id: string)
    requires NoDuplicates(prev)
    ensures NoDuplicates(AddToCompare(prev, id))
  {
    if id !in prev {
      var kept := if |prev| >= MaxCompareItems then prev[1..] else prev;
      assert NoDuplicates(kept) by {
        forall i, j | 0 <= i < j < |kept| ensures kept[i] != kept[j] {
          if |prev| >= MaxCompareItems {
            assert kept[i] == prev[i + 1] && kept[j] == prev[j + 1];
          }
        }
      }
      assert id !in kept;
      AppendFreshNoDuplicates(kept, id);
    }
  }

  /** Appending an element not yet present keeps a sequence duplicate-free. */
  lemma AppendFreshNoDuplicates(s: seq<string>, x: string)
    requires NoDuplicates(s) && x !in s
    ensures NoDuplicates(s + [x])
  {
    forall i, j | 0 <= i < j < |s + [x]| ensures (s + [x])[i] != (s + [x])[j] {
      assert (s + [x])[i] == s[i];
      if j < |s| {
        assert (s + [x])[j] == s[j];
      }
    }
  }

  /** First in, first out: when a full, duplicate-free list receives a new id, exactly the first
      (oldest) id is evicted, every other id stays in its order, and the new id goes last. */
  lemma AddToCompareEvictsOldest(prev: seq<string>, id: string)
    requires NoDuplicates(prev) && |prev| == MaxCompareItems && id !in prev
    ensures AddToCompare(prev, id) == prev[1..] + [id]
    ensures |AddToCompare(prev, id)| == MaxCompareItems
    ensures prev[0] !in AddToCompare(prev, id)
    ensures forall x :: x in prev && x != prev[0] ==> x in AddToCompare(prev, id)
  {
    var r := AddToCompare(prev, id);
    assert r == prev[1..] + [id];
    forall i | 0 <= i < |prev[1..]| ensures prev[1..][i] != prev[0] {
      assert prev[1..][i] == prev[i + 1];
    }
    assert prev[0] != id;
    forall x | x in prev && x != prev[0] ensures x in r {
      var k :| 0 <= k < |prev| && prev[k] == x;
      assert k > 0 && r[k - 1] == x;
    }
  }

  /** The `removeFromCompare` updater: every occurrence of the id goes, the rest keep their order. */
  function RemoveFromCompare(prev: seq<string>, id: string): (r: seq<string>)
    ensures forall x :: x in r <==> x in prev && x != id
    ensures IsSubsequence(r, prev)
    ensures forall x :: x in prev ==> multiset(r)[x] == if x == id then 0 else multiset(prev)[x]
  {
    forall x ensures x in Without(prev, id) <==> x in prev && x != id {
      WithoutMembership(prev, id, x);
    }
    WithoutIsSubsequence(prev, id);
    Without(prev, id)
  }

  /** Removing an id that is not in the list changes nothing. */
  lemma RemoveAbsentIsNoOp(prev: seq<string>, id: string)
    requires id !in prev
    ensures RemoveFromCompare(prev, id) == prev
  {
    WithoutAbsent(prev, id);
  }

  /** The comparison list of one browser tab, with the storage it reads and writes and the
      identity its key depends on. */
  class CompareList {
    var items: seq<string>
    var store: Store<seq<string>>
    var isAuthenticated: bool
    var userId: Option<string>

    /** The key the list is saved under for the current identity. */
    function Key(): string
      reads this
    {
      StorageKey(CompareKind, isAuthenticated, userId)
    }

    /** The storage holds the list under the current key. */
    predicate Persisted()
      reads this
    {
      Lookup(store, Key()) == Some(Parsed(items))
    }

    /** `isInCompare`. */
    function IsInCompare(id: string): bool
      reads this
    {
      id in items
    }

    /** Mounting the provider: the list starts empty, is reloaded from the current key, and is then
        saved under it. */
    constructor(store: Store<seq<string>>, isAuthenticated: bool, userId: Option<string>)
      ensures this.isAuthenticated == isAuthenticated && this.userId == userId
      ensures items == Reload([], Lookup(store, Key()))
      ensures this.store == store[Key() := Parsed(items)]
      ensures Persisted()
    {
      this.isAuthenticated := isAuthenticated;
      this.userId := userId;
      this.store := store;
      items := [];
      new;
      Load();
      Save();
    }

    /** The load effect. */
    method Load()
      modifies this`items
      ensures items == Reload(old(items), Lookup(store, Key()))
    {
      var stored := Lookup(store, Key());
      match stored {
        case None =>
        case Some(Blank) =>
        case Some(Parsed(v)) => items := v;
        case Some(Unparseable) => items := [];
      }
    }

    /** The save effect: the whole list is written under the current key. */
    method Save()
      modifies this`store
      ensures store == old(store)[Key() := Parsed(items)]
      ensures Persisted()
    {
      store := store[Key() := Parsed(items)];
    }

    /** The identity changes (sign-in or sign-out): the list is reloaded from the new key, then saved
        under it. With nothing stored under the new key, the previous identity's list is kept and
        saved there. */
    method ChangeIdentity(isAuthenticated: bool, userId: Option<string>)
      modifies this
      ensures this.isAuthenticated == isAuthenticated && this.userId == userId
      ensures items == Reload(old(items), Lookup(old(store), Key()))
      ensures store == old(store)[Key() := Parsed(items)]
      ensures Persisted()
    {
      this.isAuthenticated := isAuthenticated;
      this.userId := userId;
      Load();
      Save();
    }

    /** `addToCompare`. An id already present returns the same list, so nothing is saved. */
    method Add(id: string)
      modifies this`items, this`store
      ensures items == AddToCompare(old(items), id)
      ensures IsInCompare(id)
      ensures store == if id in old(items) then old(store) else old(store)[Key() := Parsed(items)]
      ensures old(Persisted()) ==> Persisted()
    {
      if id !in items {
        items := AddToCompare(items, id);
        Save();
      }
    }

    /** `removeFromCompare`: always a new list, so always saved. */
    method Remove(id: string)
      modifies this`items, this`store
      ensures items == RemoveFromCompare(old(items), id)
      ensures !IsInCompare(id)
      ensures store == old(store)[Key() := Parsed(items)]
      ensures Persisted()
    {
      items := RemoveFromCompare(items, id);
      Save();
    }

    /** `clearCompare`. */
    method Clear()
      modifies this`items, this`store
      ensures items == []
      ensures store == old(store)[Key() := Parsed([])]
      ensures Persisted()
    {
      items := [];
      Save();
    }
  }
}
