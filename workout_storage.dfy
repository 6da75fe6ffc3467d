/** hooks/useWorkoutStorage.ts: drafts of in-progress workouts kept in
    localStorage under `workout-<id>`, each stamped with the time it was
    saved and dropped after 14 days. localStorage is a `Store`: its keys in
    the order `localStorage.key(i)` lists them and their values. The clock
    readings are parameters, `JSON.parse` is the parameter `parse`, and
    `JSON.stringify` the parameter `serialize`. */
module WorkoutStorage {
  import opened Wrappers
  import opened Text
  import opened Collections

  datatype LoggedSet = LoggedSet(
    exerciseId: string,
    setNumber: int,
    reps: int,
    weight: real,
    weightUnit: string,
    rpe: Option<int>,
    rir: Option<int>)

  /** What the hook reads from `JSON.parse(stored)`: `Unreadable` when the
      parse throws or yields a value that cannot be destructured (null);
      otherwise the `loggedSets` field, `None` when absent or not a list,
      and the number `now - timestamp` subtracts. The subtraction coerces
      the field with `Number`: null and false give 0, true gives 1, a
      numeric string its value, and these are `Some`; `None` is a
      timestamp whose coercion is NaN (absent, a non-numeric string, an
      object), which makes every age NaN. */
  datatype Parsed = Unreadable | Parsed(loggedSets: Option<seq<LoggedSet>>, timestamp: Option<int>)

  datatype StoredData = StoredData(loggedSets: seq<LoggedSet>, timestamp: int, workoutId: string, lastModified: int)

  const KeyPrefix := "workout-"

  /** `WORKOUT_STORAGE_TTL`, 14 days in milliseconds: 1209600000. */
  const Ttl := 14 * 24 * 60 * 60 * 1000

  /** `getStorageKey`. */
  function StorageKey(id: string): (k: string)
    ensures StartsWith(k, KeyPrefix)
  {
    KeyPrefix + id
  }

  /** Different workouts have different keys. */
  lemma StorageKeyInjective(a: string, b: string)
    ensures StorageKey(a) == StorageKey(b) <==> a == b
  {
    if StorageKey(a) == StorageKey(b) {
      assert a == StorageKey(a)[|KeyPrefix|..];
      assert b == StorageKey(b)[|KeyPrefix|..];
    }
  }

  // -------------------------------------------------------------- store

  datatype Store = Store(keys: seq<string>, values: map<string, string>)

  /** Every key is listed once, and the listed keys are the stored ones. */
  predicate WellFormed(st: Store) {
    && Distinct(st.keys)
    && (forall k :: k in st.keys ==> k in st.values)
    && (forall k :: k in st.values ==> k in st.keys)
  }

  /** `setItem`. */
  function Put(st: Store, k: string, v: string): (r: Store)
    ensures WellFormed(st) ==> WellFormed(r)
    ensures r.values == st.values[k := v]
  {
    Store(Adjoin(st.keys, k), st.values[k := v])
  }

  /** `removeItem`. */
  function Remove(st: Store, k: string): (r: Store)
    ensures WellFormed(st) ==> WellFormed(r)
    ensures r.values == st.values - {k}
  {
    Store(Without(st.keys, k), st.values - {k})
  }

  /** Removing each key of `ks` in turn. */
  function RemoveAll(st: Store, ks: seq<string>): Store {
    if ks == [] then st else Remove(RemoveAll(st, ks[..|ks| - 1]), ks[|ks| - 1])
  }

  lemma {:induction false} RemoveAllEffect(st: Store, ks: seq<string>)
    ensures WellFormed(st) ==> WellFormed(RemoveAll(st, ks))
    ensures forall k :: k in RemoveAll(st, ks).values <==> k in st.values && k !in ks
    ensures forall k :: k in RemoveAll(st, ks).values ==> RemoveAll(st, ks).values[k] == st.values[k]
  {
    if ks != [] {
      RemoveAllEffect(st, ks[..|ks| - 1]);
      assert forall k :: k in ks <==> k in ks[..|ks| - 1] || k == ks[|ks| - 1] by {
        assert ks == ks[..|ks| - 1] + [ks[|ks| - 1]];
      }
    }
  }

  // -------------------------------------------------------------- sweep

  /** The sweep's test for one stored value: a non-empty value that does
      not parse, or whose age is more than the TTL. */
  predicate Expired(v: string, now: int, parse: string -> Parsed) {
    v != "" && (parse(v).Unreadable? || (parse(v).timestamp.Some? && now - parse(v).timestamp.value > Ttl))
  }

  /** A key the sweep removes. */
  predicate Doomed(st: Store, k: string, now: int, parse: string -> Parsed) {
    StartsWith(k, KeyPrefix) && k in st.values && Expired(st.values[k], now, parse)
  }

  /** `keysToRemove` after scanning `ks` in order. */
  function Collect(st: Store, ks: seq<string>, now: int, parse: string -> Parsed): seq<string> {
    if ks == [] then []
    else
      var k := ks[|ks| - 1];
      Collect(st, ks[..|ks| - 1], now, parse) + (if Doomed(st, k, now, parse) then [k] else [])
  }

  lemma {:induction false} CollectMembers(st: Store, ks: seq<string>, now: int, parse: string -> Parsed)
    ensures forall k :: k in Collect(st, ks, now, parse) <==> k in ks && Doomed(st, k, now, parse)
  {
    if ks != [] {
      CollectMembers(st, ks[..|ks| - 1], now, parse);
      assert forall k :: k in ks <==> k in ks[..|ks| - 1] || k == ks[|ks| - 1] by {
        assert ks == ks[..|ks| - 1] + [ks[|ks| - 1]];
      }
    }
  }

  /** The store after `cleanupExpiredWorkouts`. */
  function Sweep(st: Store, now: int, parse: string -> Parsed): Store {
    RemoveAll(st, Collect(st, st.keys, now, parse))
  }

  /** The sweep removes exactly the `workout-` keys whose value does not
      parse or is older than the TTL; every other key keeps its value, and
      keys without the prefix are never touched. */
  lemma SweepEffect(st: Store, now: int, parse: string -> Parsed)
    requires WellFormed(st)
    ensures WellFormed(Sweep(st, now, parse))
    ensures forall k :: k in Sweep(st, now, parse).values <==> k in st.values && !Doomed(st, k, now, parse)
    ensures forall k :: k in Sweep(st, now, parse).values ==> Sweep(st, now, parse).values[k] == st.values[k]
    ensures forall k :: k in st.values && !StartsWith(k, KeyPrefix) ==> k in Sweep(st, now, parse).values
  {
    CollectMembers(st, st.keys, now, parse);
    RemoveAllEffect(st, Collect(st, st.keys, now, parse));
  }

  // --------------------------------------------------------- load, save

  /** The load step after the sweep: a readable value whose age is at most
      the TTL is restored (a missing set list as no sets); an unreadable or
      older one is removed; an absent or empty value is left alone. */
  function LoadFrom(st: Store, key: string, now: int, parse: string -> Parsed): (Store, Option<seq<LoggedSet>>) {
    if key !in st.values || st.values[key] == "" then (st, None)
    else
      match parse(st.values[key])
      case Unreadable => (Remove(st, key), None)
      case Parsed(sets, timestamp) =>
        if timestamp.Some? && now - timestamp.value <= Ttl then (st, Some(sets.GetOr([])))
        else (Remove(st, key), None)
  }

  /** The load never removes any key but the workout's own, and a restored
      draft leaves the store as it was. */
  lemma LoadFromEffect(st: Store, key: string, now: int, parse: string -> Parsed)
    ensures var (r, sets) := LoadFrom(st, key, now, parse);
      && (sets.Some? ==> r == st)
      && (sets.None? ==> r == st || r == Remove(st, key))
  {
  }

  /** At exactly the TTL a draft survives both the sweep (`>`) and the load
      (`<=`); one millisecond later the sweep removes it. */
  lemma ExpiryBoundary(st: Store, key: string, ts: int, sets: Option<seq<LoggedSet>>, parse: string -> Parsed)
    requires StartsWith(key, KeyPrefix) && key in st.values && st.values[key] != ""
    requires parse(st.values[key]) == Parsed(sets, Some(ts))
    ensures !Doomed(st, key, ts + Ttl, parse)
    ensures LoadFrom(st, key, ts + Ttl, parse) == (st, Some(sets.GetOr([])))
    ensures Doomed(st, key, ts + Ttl + 1, parse)
  {
  }

  /** A value whose timestamp coerces to NaN survives the sweep, since a
      NaN age is not greater than the TTL, but the load removes it, since
      it is not at most the TTL either. */
  lemma NaNAge(st: Store, key: string, sets: Option<seq<LoggedSet>>, now: int, parse: string -> Parsed)
    requires key in st.values && st.values[key] != ""
    requires parse(st.values[key]) == Parsed(sets, None)
    ensures !Doomed(st, key, now, parse)
    ensures LoadFrom(st, key, now, parse) == (Remove(st, key), None)
  {
  }

  /** The save effect's writes: the serialized draft under the key, and on
      a rejected write a sweep and a second attempt. `rejected` is how many
      of the attempts throw (0, 1, or both). */
  function SaveTo(st: Store, key: string, v: string, rejected: nat, retryNow: int, parse: string -> Parsed): Store {
    if rejected == 0 then Put(st, key, v)
    else
      var swept := Sweep(st, retryNow, parse);
      if rejected == 1 then Put(swept, key, v) else swept
  }

  /** Saving then loading within the TTL restores the same sets, provided
      `parse` reads back what `serialize` wrote. */
  lemma SaveThenLoad(st: Store, key: string, d: StoredData, v: string, sweepNow: int, loadNow: int,
                     parse: string -> Parsed)
    requires WellFormed(st) && StartsWith(key, KeyPrefix)
    requires v != "" && parse(v) == Parsed(Some(d.loggedSets), Some(d.timestamp))
    requires sweepNow - d.timestamp <= Ttl && loadNow - d.timestamp <= Ttl
    ensures LoadFrom(Sweep(Put(st, key, v), sweepNow, parse), key, loadNow, parse).1 == Some(d.loggedSets)
  {
    var saved := Put(st, key, v);
    SweepEffect(saved, sweepNow, parse);
  }

  // ------------------------------------------------------- localStorage

  class LocalStorage {
    var store: Store

    ghost predicate Valid()
      reads this
    {
      WellFormed(store)
    }

    constructor(initial: Store)
      requires WellFormed(initial)
      ensures Valid() && store == initial
    {
      store := initial;
    }

    function Length(): nat
      reads this
    {
      |store.keys|
    }

    /** `key(i)` for an index below the length. */
    function Key(i: nat): string
      requires i < |store.keys|
      reads this
    {
      store.keys[i]
    }

    /** `getItem`, with `None` for null. */
    function GetItem(k: string): Option<string>
      reads this
    {
      if k in store.values then Some(store.values[k]) else None
    }

    method SetItem(k: string, v: string)
      requires Valid()
      modifies this
      ensures Valid() && store == Put(old(store), k, v)
    {
      store := Put(store, k, v);
    }

    method RemoveItem(k: string)
      requires Valid()
      modifies this
      ensures Valid() && store == Remove(old(store), k)
    {
      store := Remove(store, k);
    }
  }

  /** `cleanupExpiredWorkouts`: scan every key, collecting the ones to
      remove, then remove them. */
  method CleanupExpiredWorkouts(storage: LocalStorage, now: int, parse: string -> Parsed)
    requires storage.Valid()
    modifies storage
    ensures storage.Valid() && storage.store == Sweep(old(storage.store), now, parse)
  {
    var keysToRemove := CollectExpired(storage, now, parse);
    RemoveKeys(storage, keysToRemove);
  }

  /** The scan of `cleanupExpiredWorkouts`: the `workout-` keys, in storage
      order, whose value is present and does not parse or is past the TTL. */
  method CollectExpired(storage: LocalStorage, now: int, parse: string -> Parsed) returns (keysToRemove: seq<string>)
    ensures keysToRemove == Collect(storage.store, storage.store.keys, now, parse)
  {
    var st := storage.store;
    keysToRemove := [];
    for i := 0 to storage.Length()
      invariant keysToRemove == Collect(st, st.keys[..i], now, parse)
    {
      var key := storage.Key(i);
      PrefixSnoc(st.keys, i);
      if StartsWith(key, KeyPrefix) {
        var stored := storage.GetItem(key);
        if stored.Some? && stored.value != "" {
          var parsed := parse(stored.value);
          if parsed.Unreadable? || (parsed.timestamp.Some? && now - parsed.timestamp.value > Ttl) {
            keysToRemove := keysToRemove + [key];
          }
        }
      }
    }
    assert st.keys[..|st.keys|] == st.keys;
  }

  /** The removal loop of `cleanupExpiredWorkouts`, one `removeItem` per
      key, in order. */
  method RemoveKeys(storage: LocalStorage, keys: seq<string>)
    requires storage.Valid()
    modifies storage
    ensures storage.Valid() && storage.store == RemoveAll(old(storage.store), keys)
  {
    ghost var st := storage.store;
    for j := 0 to |keys|
      invariant storage.Valid()
      invariant storage.store == RemoveAll(st, keys[..j])
    {
      PrefixSnoc(keys, j);
      storage.RemoveItem(keys[j]);
    }
    assert keys[..|keys|] == keys;
  }

  // ------------------------------------------------------------ the hook

  class WorkoutDraft {
    const workoutId: string
    var loggedSets: seq<LoggedSet>
    var isLoaded: bool

    constructor(id: string)
      ensures workoutId == id && loggedSets == [] && !isLoaded
    {
      workoutId := id;
      loggedSets := [];
      isLoaded := false;
    }

    /** The mount effect's `loadData`: sweep, then restore or evict this
        workout's draft, then mark the hook loaded. The body has no `await`,
        so the component is still mounted throughout. */
    method Load(storage: LocalStorage, sweepNow: int, loadNow: int, parse: string -> Parsed)
      requires storage.Valid()
      modifies this, storage
      ensures storage.Valid()
      ensures var (st, sets) := LoadFrom(Sweep(old(storage.store), sweepNow, parse), StorageKey(workoutId), loadNow, parse);
        && storage.store == st
        && loggedSets == sets.GetOr(old(loggedSets))
      ensures isLoaded
    {
      CleanupExpiredWorkouts(storage, sweepNow, parse);
      var key := StorageKey(workoutId);
      var stored := storage.GetItem(key);
      if stored.Some? && stored.value != "" {
        var parsed := parse(stored.value);
        if parsed.Parsed? && parsed.timestamp.Some? && loadNow - parsed.timestamp.value <= Ttl {
          loggedSets := parsed.loggedSets.GetOr([]);
        } else {
          storage.RemoveItem(key);
        }
      }
      isLoaded := true;
    }

    /** `setLoggedSets`. */
    method SetLoggedSets(sets: seq<LoggedSet>)
      modifies this
      ensures loggedSets == sets && isLoaded == old(isLoaded)
    {
      loggedSets := sets;
    }

    /** The save effect, run after `loggedSets` changes: nothing before the
        load or for an empty list; otherwise write the draft stamped with
        `now`. */
    method Save(storage: LocalStorage, now: int, serialize: StoredData -> string, rejected: nat, retryNow: int,
                parse: string -> Parsed)
      requires storage.Valid()
      modifies storage
      ensures storage.Valid()
      ensures !isLoaded || loggedSets == [] ==> storage.store == old(storage.store)
      ensures isLoaded && loggedSets != [] ==>
        storage.store == SaveTo(old(storage.store), StorageKey(workoutId),
          serialize(StoredData(loggedSets, now, workoutId, now)), rejected, retryNow, parse)
    {
      if !isLoaded || |loggedSets| == 0 {
        return;
      }
      var key := StorageKey(workoutId);
      var v := serialize(StoredData(loggedSets, now, workoutId, now));
      if rejected == 0 {
        storage.SetItem(key, v);
      } else {
        CleanupExpiredWorkouts(storage, retryNow, parse);
        if rejected == 1 {
          storage.SetItem(key, v);
        }
      }
    }

    /** `clearStoredWorkout`. */
    method ClearStoredWorkout(storage: LocalStorage)
      requires storage.Valid()
      modifies storage
      ensures storage.Valid() && storage.store == Remove(old(storage.store), StorageKey(workoutId))
    {
      storage.RemoveItem(StorageKey(workoutId));
    }
  }
}
