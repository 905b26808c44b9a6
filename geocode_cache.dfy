/** src/utils/geocodeCache.js: the module-level `memoryCache` (a `Map` from
    "lat,lng" keys to formatted addresses, loaded once from storage) and its
    write-through to `localStorage` under `geocode_cache`. */
module GeocodeCache {
  import opened Wrappers

  const CacheKey := "geocode_cache"

  /** A `Map`'s entries in insertion order. */
  type Entries = seq<(string, string)>

  predicate DistinctKeys(es: Entries) {
    forall i, j :: 0 <= i < j < |es| ==> es[i].0 != es[j].0
  }

  /** `Map.prototype.get`: the value stored under `k`, if any. */
  function Lookup(es: Entries, k: string): (r: Option<string>)
    ensures r.None? <==> forall i :: 0 <= i < |es| ==> es[i].0 != k
  {
    if es == [] then None
    else if es[0].0 == k then Some(es[0].1)
    else Lookup(es[1..], k)
  }

  /** `Map.prototype.set`: an existing key keeps its position and takes the
      new value; a new key goes last. */
  function MapSet(es: Entries, k: string, v: string): (r: Entries)
    ensures Lookup(es, k).Some? ==>
      |r| == |es| && forall i :: 0 <= i < |es| ==> r[i] == (if FirstKeyAt(es, k, i) then (k, v) else es[i])
    ensures Lookup(es, k).None? ==> r == es + [(k, v)]
  {
    if es == [] then [(k, v)]
    else if es[0].0 == k then [(k, v)] + es[1..]
    else
      assert forall i :: 1 <= i < |es| ==> (FirstKeyAt(es, k, i) <==> FirstKeyAt(es[1..], k, i - 1));
      [es[0]] + MapSet(es[1..], k, v)
  }

  /** Entry `i` is the first one with key `k`. */
  predicate FirstKeyAt(es: Entries, k: string, i: nat)
    requires i < |es|
  {
    es[i].0 == k && forall j :: 0 <= j < i ==> es[j].0 != k
  }

  /** After a set, the key reads back the new value and every other key
      reads as before. */
  lemma {:induction false} LookupAfterSet(es: Entries, k: string, v: string, k': string)
    ensures Lookup(MapSet(es, k, v), k') == if k' == k then Some(v) else Lookup(es, k')
  {
    if es != [] && es[0].0 != k {
      LookupAfterSet(es[1..], k, v, k');
      assert MapSet(es, k, v)[1..] == MapSet(es[1..], k, v);
    }
  }

  /** A set keeps the keys distinct, and a new key is appended. */
  lemma {:induction false} SetKeepsDistinct(es: Entries, k: string, v: string)
    requires DistinctKeys(es)
    ensures DistinctKeys(MapSet(es, k, v))
    ensures Lookup(es, k).None? ==> MapSet(es, k, v) == es + [(k, v)]
  {
    if es != [] {
      SetKeepsDistinct(es[1..], k, v);
      var r := MapSet(es, k, v);
      if es[0].0 != k {
        forall i | 0 < i < |r| ensures r[i].0 != r[0].0 {
          LookupAfterSet(es[1..], k, v, es[0].0);
          assert r[i] == MapSet(es[1..], k, v)[i - 1];
        }
      }
    }
  }

  /** The `forEach` over `Object.entries(parsed)`: each entry set in turn. */
  function FromEntries(m: Entries, es: Entries): Entries {
    if es == [] then m
    else MapSet(FromEntries(m, es[..|es| - 1]), es[|es| - 1].0, es[|es| - 1].1)
  }

  /** The value of the last entry with key `k`. */
  function LastValue(es: Entries, k: string): Option<string> {
    if es == [] then None
    else if es[|es| - 1].0 == k then Some(es[|es| - 1].1)
    else LastValue(es[..|es| - 1], k)
  }

  /** Loading entries: a key they hold reads as its last value there; any
      other key reads as before. */
  lemma {:induction false} LookupFromEntries(m: Entries, es: Entries, k: string)
    ensures Lookup(FromEntries(m, es), k) ==
      if LastValue(es, k).Some? then LastValue(es, k) else Lookup(m, k)
  {
    if es != [] {
      var last := es[|es| - 1];
      LookupFromEntries(m, es[..|es| - 1], k);
      LookupAfterSet(FromEntries(m, es[..|es| - 1]), last.0, last.1, k);
    }
  }

  lemma {:induction false} FromEntriesDistinct(m: Entries, es: Entries)
    requires DistinctKeys(m)
    ensures DistinctKeys(FromEntries(m, es))
  {
    if es != [] {
      FromEntriesDistinct(m, es[..|es| - 1]);
      SetKeepsDistinct(FromEntries(m, es[..|es| - 1]), es[|es| - 1].0, es[|es| - 1].1);
    }
  }

  /** Persisting and reloading loses nothing: loading a cache's own entries
      into an empty cache rebuilds it, order included. */
  lemma {:induction false} ReloadRoundTrip(m: Entries)
    requires DistinctKeys(m)
    ensures FromEntries([], m) == m
  {
    if m != [] {
      var init := m[..|m| - 1];
      assert DistinctKeys(init);
      ReloadRoundTrip(init);
      assert Lookup(init, m[|m| - 1].0).None? by {
        forall i | 0 <= i < |init| ensures init[i].0 != m[|m| - 1].0 {
          assert init[i] == m[i];
        }
      }
      SetKeepsDistinct(init, m[|m| - 1].0, m[|m| - 1].1);
    }
  }

  /** `getFromCache`: `memoryCache.get(key) || null`, so an absent key and an
      empty stored address both read as `null`. */
  function Get(m: Entries, key: string): (r: Option<string>)
    ensures r.Some? <==> Lookup(m, key).Some? && Lookup(m, key).value != ""
    ensures r.Some? ==> r == Lookup(m, key)
  {
    match Lookup(m, key)
    case Some(v) => if v != "" then Some(v) else None
    case None => None
  }

  /** What `localStorage.getItem(CACHE_KEY)` holds, as far as loading is
      concerned: nothing (or the falsy empty text), text that does not
      parse, or a parsed value with these `Object.entries`. */
  datatype StoredItem = Missing | Unparsable | Parsed(entries: Entries)

  /** The cache contents `loadFromStorage` leaves, starting from `m`: a
      missing item or a parse failure (caught) adds nothing. */
  function Loaded(m: Entries, stored: StoredItem): Entries {
    match stored
    case Parsed(es) => FromEntries(m, es)
    case _ => m
  }

  /** Loading into the empty cache: a key reads as the stored object's value
      for it, and nothing else is present. */
  lemma InitialContents(stored: StoredItem, k: string)
    ensures stored.Parsed? ==> Lookup(Loaded([], stored), k) == LastValue(stored.entries, k)
    ensures !stored.Parsed? ==> Loaded([], stored) == []
  {
    if stored.Parsed? {
      LookupFromEntries([], stored.entries, k);
    }
  }

  /** The module's state: `memoryCache` and the stored item. */
  class Cache {
    var memory: Entries
    var storage: StoredItem

    ghost predicate Valid()
      reads this
    {
      DistinctKeys(memory)
    }

    /** Module initialisation: an empty `memoryCache`, then
        `loadFromStorage()`. */
    constructor (stored: StoredItem)
      ensures Valid()
      ensures storage == stored && memory == Loaded([], stored)
    {
      memory := [];
      storage := stored;
      new;
      LoadFromStorage();
    }

    /** `loadFromStorage`: the stored object's entries set one by one. */
    method LoadFromStorage()
      requires Valid()
      modifies this`memory
      ensures Valid()
      ensures memory == Loaded(old(memory), storage)
    {
      if storage.Parsed? {
        var es := storage.entries;
        var i := 0;
        while i < |es|
          invariant 0 <= i <= |es|
          invariant memory == FromEntries(old(memory), es[..i])
          invariant DistinctKeys(memory)
        {
          assert es[..i + 1][..i] == es[..i];
          SetKeepsDistinct(memory, es[i].0, es[i].1);
          memory := MapSet(memory, es[i].0, es[i].1);
          i := i + 1;
        }
        assert es[..|es|] == es;
      }
    }

    /** `setInCache`: the memory is updated first; the whole map is then
        written to storage, and a failed write (`writeOk` false, caught)
        leaves storage as it was but keeps the memory update. */
    method SetInCache(key: string, value: string, writeOk: bool)
      requires Valid()
      modifies this
      ensures Valid()
      ensures memory == MapSet(old(memory), key, value)
      ensures storage == if writeOk then Parsed(memory) else old(storage)
    {
      SetKeepsDistinct(memory, key, value);
      memory := MapSet(memory, key, value);
      if writeOk {
        storage := Parsed(memory);
      }
    }
  }

  /** After `setInCache(k, v)` with a non-empty `v`, `getFromCache(k)` is
      `v`; an empty `v` reads back as `null`; other keys are unaffected. */
  lemma GetAfterSet(m: Entries, k: string, v: string, k': string)
    ensures Get(MapSet(m, k, v), k) == if v != "" then Some(v) else None
    ensures k' != k ==> Get(MapSet(m, k, v), k') == Get(m, k')
  {
    LookupAfterSet(m, k, v, k);
    LookupAfterSet(m, k, v, k');
  }

  /** A successful write persists exactly the memory: a later load from
      that storage into a fresh module restores it. */
  lemma PersistedReloads(m: Entries)
    requires DistinctKeys(m)
    ensures Loaded([], Parsed(m)) == m
  {
    ReloadRoundTrip(m);
  }
}
