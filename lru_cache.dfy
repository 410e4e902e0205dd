/**
 * A memoising wrapper around a function: results are kept in a bounded cache
 * that evicts its least-recently-used entry once it holds more than
 * `maxsize` entries, and the wrapper counts its hits and misses.
 *
 * The cache is an ordered dictionary. Its contents are modelled as a value
 * `Dict`: a duplicate-free sequence of keys from least to most recently used,
 * and a map from each key to its stored result. `Added` and `Call` are the
 * specification functions of `add_to_cache` and of the wrapper `inner`; the
 * class `Cache` holds the state the wrapper closes over and its methods are
 * proved to follow those functions.
 */
module LruCache {
  import opened Sequences

  /** The capacity used when the caller names none. */
  const DefaultMaxsize: int := 128

  datatype Option<T> = None | Some(value: T)

  /** The contents of the ordered dictionary: keys, least recently used first, and their values. */
  datatype Dict<K, V> = Dict(order: seq<K>, storage: map<K, V>)

  /** Everything the wrapper closes over that changes: the cache and the two counters. */
  datatype CallState<K, V> = CallState(cache: Dict<K, V>, hits: nat, misses: nat)

  /** The snapshot returned by `cache_info`. */
  datatype CacheInfo = Info(hits: nat, misses: nat, maxsize: int, currsize: nat)

  /** The recency order lists exactly the stored keys, each once. */
  ghost predicate Wellformed<K, V>(d: Dict<K, V>)
  {
    Distinct(d.order) && d.storage.Keys == Elements(d.order)
  }

  /**
   * The cache never holds more than `maxsize` entries; when `maxsize` is not
   * positive it stays empty, since every insertion is popped again at once.
   */
  ghost predicate WithinBound<K, V>(d: Dict<K, V>, maxsize: int)
  {
    |d.order| <= maxsize || d.order == []
  }

  ghost predicate ValidState<K, V>(s: CallState<K, V>, maxsize: int)
  {
    Wellformed(s.cache) && WithinBound(s.cache, maxsize)
  }

  /** The state of a freshly wrapped function: an empty cache and zero counters. */
  function Initial<K, V>(): (r: CallState<K, V>)
    ensures forall maxsize: int :: ValidState(r, maxsize)
    ensures |r.cache.storage| == 0 && r.hits + r.misses == 0
  {
    CallState(Dict([], map[]), 0, 0)
  }

  /**
   * `add_to_cache`: store `value` under `key` (a new key goes to the end, an
   * existing one keeps its place), move `key` to the most-recent end, and pop
   * the first entry if the cache now holds more than `maxsize` entries.
   */
  function Added<K, V>(d: Dict<K, V>, maxsize: int, key: K, value: V): (r: Dict<K, V>)
    ensures key in r.storage ==> r.storage[key] == value
    ensures |r.storage| <= |d.storage| + 1
  {
    var order := Remove(d.order, key) + [key];
    var storage := d.storage[key := value];
    if |storage| > maxsize then Dict(order[1..], storage - {order[0]})
    else Dict(order, storage)
  }

  /**
   * One call of the wrapper with positional arguments `args`. Only the first
   * argument is the key, while `func` receives all of them; with no
   * arguments nothing happens and the result is None.
   */
  function Call<K, V>(s: CallState<K, V>, maxsize: int, func: seq<K> -> V, args: seq<K>): (r: (CallState<K, V>, Option<V>))
    ensures r.1 == None <==> |args| == 0
    ensures |args| > 0 && args[0] in s.cache.storage ==> r.1 == Some(s.cache.storage[args[0]])
    ensures |args| > 0 && args[0] !in s.cache.storage ==> r.1 == Some(func(args))
    ensures r.0.hits >= s.hits && r.0.misses >= s.misses
    ensures r.0.hits + r.0.misses == s.hits + s.misses + (if |args| == 0 then 0 else 1)
  {
    if |args| == 0 then (s, None)
    else
      var key := args[0];
      if key !in s.cache.storage then
        var result := func(args);
        (CallState(Added(s.cache, maxsize, key, result), s.hits, s.misses + 1), Some(result))
      else
        var result := s.cache.storage[key];
        (CallState(Added(s.cache, maxsize, key, result), s.hits + 1, s.misses), Some(result))
  }

  /** The state after the calls in `calls`, made one after the other from `s`. */
  function Run<K, V>(s: CallState<K, V>, maxsize: int, func: seq<K> -> V, calls: seq<seq<K>>): (r: CallState<K, V>)
    ensures r.hits >= s.hits && r.misses >= s.misses
    ensures r.hits + r.misses == s.hits + s.misses + KeyedCalls(calls)
  {
    if calls == [] then s
    else Call(Run(s, maxsize, func, calls[..|calls| - 1]), maxsize, func, calls[|calls| - 1]).0
  }

  /** The number of calls in `calls` that have at least one argument. */
  function KeyedCalls<K>(calls: seq<seq<K>>): nat
  {
    if calls == [] then 0
    else KeyedCalls(calls[..|calls| - 1]) + (if calls[|calls| - 1] == [] then 0 else 1)
  }

  /** In a well-formed dictionary the number of entries is the length of the recency order. */
  lemma WellformedSize<K, V>(d: Dict<K, V>)
    requires Wellformed(d)
    ensures |d.storage| == |d.order|
  {
    DistinctCardinality(d.order);
    assert |d.storage| == |d.storage.Keys|;
  }

  /** Moving `key` to the end of a well-formed order lists the old keys and `key`, each once. */
  lemma MovedToEnd<K, V>(d: Dict<K, V>, key: K)
    requires Wellformed(d)
    ensures var order := Remove(d.order, key) + [key];
            && Distinct(order)
            && Elements(order) == d.storage.Keys + {key}
            && |order| == if key in d.storage then |d.order| else |d.order| + 1
  {
    var rest := Remove(d.order, key);
    RemoveDistinct(d.order, key);
    RemoveElements(d.order, key);
    DistinctAppend(rest, key);
    assert Elements(rest + [key]) == Elements(rest) + {key};
  }

  /** Popping the first key of a well-formed dictionary leaves it well-formed. */
  lemma PoppedFirst<K, V>(d: Dict<K, V>)
    requires Wellformed(d) && d.order != []
    ensures Wellformed(Dict(d.order[1..], d.storage - {d.order[0]}))
  {
  }

  /**
   * No eviction: when the key is resident or the cache has room, every entry
   * stays, only `key`'s value changes and only `key` moves (to the end).
   */
  lemma AddedEvictsNothing<K, V>(d: Dict<K, V>, maxsize: int, key: K, value: V)
    requires Wellformed(d) && WithinBound(d, maxsize)
    requires key in d.storage || |d.order| < maxsize
    ensures var r := Added(d, maxsize, key, value);
            && r.order == Remove(d.order, key) + [key]
            && r.storage == d.storage[key := value]
            && r.storage.Keys == d.storage.Keys + {key}
            && Wellformed(r)
  {
    WellformedSize(d);
    MovedToEnd(d, key);
    assert |d.storage[key := value]| == if key in d.storage then |d.storage| else |d.storage| + 1;
  }

  /** The result of `add_to_cache` when a new key arrives at a full, non-empty cache. */
  lemma AddedWhenFull<K, V>(d: Dict<K, V>, maxsize: int, key: K, value: V)
    requires Wellformed(d) && WithinBound(d, maxsize)
    requires key !in d.storage && |d.order| >= maxsize && d.order != []
    ensures Added(d, maxsize, key, value) == Dict(d.order[1..] + [key], (d.storage - {d.order[0]})[key := value])
  {
    WellformedSize(d);
    assert key !in Elements(d.order);
    RemoveAbsent(d.order, key);
    var storage := d.storage[key := value];
    assert |storage| == |d.storage| + 1;
    DropFirstAppend(d.order, key);
    assert d.order[0] in Elements(d.order);
    assert storage - {d.order[0]} == (d.storage - {d.order[0]})[key := value];
  }

  /**
   * Eviction: a new key arriving at a full cache removes exactly the least
   * recently used entry; every other entry keeps its value and its place in
   * the order, and the new key goes last.
   */
  lemma AddedEvictsFirst<K, V>(d: Dict<K, V>, maxsize: int, key: K, value: V)
    requires Wellformed(d) && WithinBound(d, maxsize) && maxsize >= 1
    requires key !in d.storage && |d.order| == maxsize
    ensures var r := Added(d, maxsize, key, value);
            && r.order == d.order[1..] + [key]
            && r.storage == (d.storage - {d.order[0]})[key := value]
            && d.order[0] !in r.storage
            && Wellformed(r)
  {
    var r := Dict(d.order[1..] + [key], (d.storage - {d.order[0]})[key := value]);
    assert Wellformed(r) by {
      PoppedFirst(d);
      assert key !in d.order[1..];
      DistinctAppend(d.order[1..], key);
      assert Elements(r.order) == Elements(d.order[1..]) + {key};
    }
    assert d.order[0] != key by {
      assert d.order[0] in Elements(d.order);
    }
    AddedWhenFull(d, maxsize, key, value);
  }

  /** With a `maxsize` that is not positive, the cache stays empty: the inserted entry is popped at once. */
  lemma AddedNonPositiveMaxsize<K, V>(maxsize: int, key: K, value: V)
    requires maxsize <= 0
    ensures Added(Dict([], map[]), maxsize, key, value) == Dict([], map[])
  {
  }

  /** `add_to_cache` keeps the dictionary well-formed and within its bound, and grows it by at most one entry. */
  lemma AddedKeepsBound<K, V>(d: Dict<K, V>, maxsize: int, key: K, value: V)
    requires Wellformed(d) && WithinBound(d, maxsize)
    ensures var r := Added(d, maxsize, key, value);
            Wellformed(r) && WithinBound(r, maxsize) && |r.order| <= |d.order| + 1
  {
    if key in d.storage || |d.order| < maxsize {
      AddedEvictsNothing(d, maxsize, key, value);
      MovedToEnd(d, key);
    } else if d.order != [] {
      AddedEvictsFirst(d, maxsize, key, value);
    } else {
      AddedNonPositiveMaxsize(maxsize, key, value);
    }
  }

  /** After `add_to_cache` with a positive `maxsize`, `key` holds `value` and is the most recently used key. */
  lemma AddedMakesMostRecent<K, V>(d: Dict<K, V>, maxsize: int, key: K, value: V)
    requires Wellformed(d) && WithinBound(d, maxsize) && maxsize >= 1
    ensures var r := Added(d, maxsize, key, value);
            key in r.storage && r.storage[key] == value && |r.order| > 0 && r.order[|r.order| - 1] == key
  {
    if key in d.storage || |d.order| < maxsize {
      AddedEvictsNothing(d, maxsize, key, value);
    } else {
      AddedEvictsFirst(d, maxsize, key, value);
    }
  }

  /** Adding a key that is already resident never changes the size of the cache. */
  lemma AddedResidentKeepsSize<K, V>(d: Dict<K, V>, maxsize: int, key: K, value: V)
    requires Wellformed(d) && WithinBound(d, maxsize) && key in d.storage
    ensures var r := Added(d, maxsize, key, value);
            |r.order| == |d.order| && r.storage.Keys == d.storage.Keys
  {
    AddedEvictsNothing(d, maxsize, key, value);
    MovedToEnd(d, key);
  }

  /**
   * A miss: the key is the first argument and is not resident. `func` is
   * applied to all the arguments, its result is returned and stored, the
   * miss counter goes up by one and the hit counter stays.
   */
  lemma CallMiss<K, V>(s: CallState<K, V>, maxsize: int, func: seq<K> -> V, args: seq<K>)
    requires ValidState(s, maxsize) && |args| > 0 && args[0] !in s.cache.storage
    ensures var (t, result) := Call(s, maxsize, func, args);
            && result == Some(func(args))
            && t.hits == s.hits && t.misses == s.misses + 1
            && ValidState(t, maxsize)
            && (maxsize >= 1 ==> args[0] in t.cache.storage && t.cache.storage[args[0]] == func(args)
                                 && t.cache.order[|t.cache.order| - 1] == args[0])
  {
    AddedKeepsBound(s.cache, maxsize, args[0], func(args));
    if maxsize >= 1 {
      AddedMakesMostRecent(s.cache, maxsize, args[0], func(args));
    }
  }

  /**
   * A hit: the first argument is resident. The stored value is returned, the
   * hit counter goes up by one and the miss counter stays; the stored values
   * and the size are unchanged and the key becomes the most recently used.
   */
  lemma CallHit<K, V>(s: CallState<K, V>, maxsize: int, func: seq<K> -> V, args: seq<K>)
    requires ValidState(s, maxsize) && |args| > 0 && args[0] in s.cache.storage
    ensures var (t, result) := Call(s, maxsize, func, args);
            && result == Some(s.cache.storage[args[0]])
            && t.hits == s.hits + 1 && t.misses == s.misses
            && ValidState(t, maxsize)
            && t.cache.storage == s.cache.storage
            && t.cache.order == Remove(s.cache.order, args[0]) + [args[0]]
            && |t.cache.order| == |s.cache.order|
  {
    var key := args[0];
    AddedKeepsBound(s.cache, maxsize, key, s.cache.storage[key]);
    AddedEvictsNothing(s.cache, maxsize, key, s.cache.storage[key]);
    AddedResidentKeepsSize(s.cache, maxsize, key, s.cache.storage[key]);
    assert s.cache.storage[key := s.cache.storage[key]] == s.cache.storage;
  }

  /** A miss while the cache has room appends the first argument, holding `func(args)`, and evicts nothing. */
  lemma CallMissWithRoom<K, V>(s: CallState<K, V>, maxsize: int, func: seq<K> -> V, args: seq<K>)
    requires ValidState(s, maxsize) && |args| > 0 && args[0] !in s.cache.storage
    requires |s.cache.order| < maxsize
    ensures Call(s, maxsize, func, args)
         == (CallState(Dict(s.cache.order + [args[0]], s.cache.storage[args[0] := func(args)]), s.hits, s.misses + 1),
             Some(func(args)))
  {
    AddedEvictsNothing(s.cache, maxsize, args[0], func(args));
    assert args[0] !in Elements(s.cache.order);
    RemoveAbsent(s.cache.order, args[0]);
  }

  /**
   * A miss on a full cache evicts the least recently used key and appends
   * the first argument, holding `func(args)`.
   */
  lemma CallMissWhenFull<K, V>(s: CallState<K, V>, maxsize: int, func: seq<K> -> V, args: seq<K>)
    requires ValidState(s, maxsize) && |args| > 0 && args[0] !in s.cache.storage
    requires maxsize >= 1 && |s.cache.order| == maxsize
    ensures Call(s, maxsize, func, args)
         == (CallState(Dict(s.cache.order[1..] + [args[0]], (s.cache.storage - {s.cache.order[0]})[args[0] := func(args)]),
                       s.hits, s.misses + 1),
             Some(func(args)))
  {
    AddedEvictsFirst(s.cache, maxsize, args[0], func(args));
  }

  /** On a hit the wrapped function is not consulted: any other function gives the same outcome. */
  lemma HitIgnoresFunc<K, V>(s: CallState<K, V>, maxsize: int, func: seq<K> -> V, other: seq<K> -> V, args: seq<K>)
    requires |args| > 0 && args[0] in s.cache.storage
    ensures Call(s, maxsize, func, args) == Call(s, maxsize, other, args)
  {
  }

  /** A call without arguments changes nothing and returns None. */
  lemma CallWithoutArguments<K, V>(s: CallState<K, V>, maxsize: int, func: seq<K> -> V)
    ensures Call(s, maxsize, func, []) == (s, None)
  {
  }

  /** Every call keeps the cache valid and adds one to `hits + misses` exactly when it has an argument. */
  lemma CallPreservesValid<K, V>(s: CallState<K, V>, maxsize: int, func: seq<K> -> V, args: seq<K>)
    requires ValidState(s, maxsize)
    ensures var t := Call(s, maxsize, func, args).0;
            && ValidState(t, maxsize)
            && t.hits >= s.hits && t.misses >= s.misses
            && t.hits + t.misses == s.hits + s.misses + (if args == [] then 0 else 1)
  {
    if args != [] {
      if args[0] in s.cache.storage {
        CallHit(s, maxsize, func, args);
      } else {
        CallMiss(s, maxsize, func, args);
      }
    }
  }

  /**
   * Over any sequence of calls the cache stays within its bound, the
   * counters never decrease, and `hits + misses` grows by the number of
   * calls that had an argument.
   */
  lemma {:induction false} RunPreservesValid<K, V>(s: CallState<K, V>, maxsize: int, func: seq<K> -> V, calls: seq<seq<K>>)
    requires ValidState(s, maxsize)
    ensures var t := Run(s, maxsize, func, calls);
            && ValidState(t, maxsize)
            && t.hits >= s.hits && t.misses >= s.misses
            && t.hits + t.misses == s.hits + s.misses + KeyedCalls(calls)
  {
    if calls != [] {
      var prefix := calls[..|calls| - 1];
      RunPreservesValid(s, maxsize, func, prefix);
      CallPreservesValid(Run(s, maxsize, func, prefix), maxsize, func, calls[|calls| - 1]);
    }
  }

  /**
   * Only the first argument is the key: after a call with arguments `first`,
   * a call whose first argument is the same is a hit and returns the result
   * computed for `first`, whatever its other arguments are.
   */
  lemma SameFirstArgumentHits<K, V>(s: CallState<K, V>, maxsize: int, func: seq<K> -> V, first: seq<K>, second: seq<K>)
    requires ValidState(s, maxsize) && maxsize >= 1
    requires |first| > 0 && |second| > 0 && first[0] == second[0]
    ensures var (t, r1) := Call(s, maxsize, func, first);
            var (u, r2) := Call(t, maxsize, func, second);
            r2 == r1 && u.hits == t.hits + 1
  {
    var key := first[0];
    var (t, r1) := Call(s, maxsize, func, first);
    if key in s.cache.storage {
      CallHit(s, maxsize, func, first);
      AddedMakesMostRecent(s.cache, maxsize, key, s.cache.storage[key]);
    } else {
      CallMiss(s, maxsize, func, first);
    }
    CallHit(t, maxsize, func, second);
  }

  /**
   * A hit on the least recently used key moves it to the end and changes
   * nothing else in the cache. This is `CallHit` for the first key of the
   * order, stated without `Remove`, so that `HitProtectsFromEviction` stays
   * cheap to prove.
   */
  lemma HitOnOldest<K, V>(s: CallState<K, V>, maxsize: int, func: seq<K> -> V, args: seq<K>)
    requires ValidState(s, maxsize) && s.cache.order != []
    requires |args| > 0 && args[0] == s.cache.order[0]
    ensures var t := Call(s, maxsize, func, args).0;
            && ValidState(t, maxsize)
            && t.cache.storage == s.cache.storage
            && t.cache.order == s.cache.order[1..] + [args[0]]
            && t.hits == s.hits + 1 && t.misses == s.misses
  {
    var order := s.cache.order;
    assert args[0] in Elements(order);
    CallHit(s, maxsize, func, args);
    assert args[0] !in order[1..];
    RemoveAbsent(order[1..], args[0]);
  }

  /**
   * A miss on a full cache keeps every key but the oldest, appends the new
   * key, and counts one miss. These are the facts of `CallMissWhenFull` that
   * `HitProtectsFromEviction` uses, stated as plain conjunctions so that its
   * proof stays cheap.
   */
  lemma MissOnFull<K, V>(s: CallState<K, V>, maxsize: int, func: seq<K> -> V, args: seq<K>)
    requires ValidState(s, maxsize) && maxsize >= 1 && |s.cache.order| == maxsize
    requires |args| > 0 && args[0] !in s.cache.storage
    ensures var t := Call(s, maxsize, func, args).0;
            && t.cache.order == s.cache.order[1..] + [args[0]]
            && s.cache.order[0] !in t.cache.storage
            && t.cache.storage.Keys == Elements(t.cache.order)
            && t.hits == s.hits && t.misses == s.misses + 1
  {
    AddedEvictsFirst(s.cache, maxsize, args[0], func(args));
  }

  /**
   * Recency protects from eviction: in a full cache, a hit on the least
   * recently used key followed by a miss on a new key evicts the second
   * oldest key instead, and keeps the refreshed one.
   */
  lemma HitProtectsFromEviction<K, V>(s: CallState<K, V>, maxsize: int, func: seq<K> -> V, old_args: seq<K>, new_args: seq<K>)
    requires ValidState(s, maxsize) && maxsize >= 2 && |s.cache.order| == maxsize
    requires |old_args| > 0 && old_args[0] == s.cache.order[0]
    requires |new_args| > 0 && new_args[0] !in s.cache.storage
    ensures var t := Call(s, maxsize, func, old_args).0;
            var u := Call(t, maxsize, func, new_args).0;
            && u.cache.order == s.cache.order[2..] + [old_args[0], new_args[0]]
            && old_args[0] in u.cache.storage
            && s.cache.order[1] !in u.cache.storage
            && u.hits == s.hits + 1 && u.misses == s.misses + 1
  {
    var order := s.cache.order;
    var x, z := old_args[0], new_args[0];
    var t := Call(s, maxsize, func, old_args).0;
    HitOnOldest(s, maxsize, func, old_args);
    assert x != order[1] by {
      assert x !in order[1..];
    }
    RotatedTwice(order, x, z);
    MissOnFull(t, maxsize, func, new_args);
  }

  /** With `maxsize` 1, a miss leaves exactly the new key resident, holding `func(args)`. */
  lemma SingleEntryKeepsLatest<K, V>(s: CallState<K, V>, func: seq<K> -> V, args: seq<K>)
    requires ValidState(s, 1) && |args| > 0 && args[0] !in s.cache.storage
    ensures Call(s, 1, func, args).0.cache == Dict([args[0]], map[args[0] := func(args)])
  {
    if s.cache.order == [] {
      assert s.cache.storage == map[];
      CallMissWithRoom(s, 1, func, args);
    } else {
      CallMissWhenFull(s, 1, func, args);
      assert s.cache.order == [s.cache.order[0]];
      assert s.cache.storage.Keys == {s.cache.order[0]};
      assert s.cache.storage - {s.cache.order[0]} == map[];
    }
  }

  /**
   * Every stored value is a result of `func` for some argument list whose
   * first argument is the value's key.
   */
  ghost predicate Coherent<K(!new), V>(d: Dict<K, V>, func: seq<K> -> V)
  {
    forall k :: k in d.storage ==> exists a: seq<K> :: |a| > 0 && a[0] == k && d.storage[k] == func(a)
  }

  /** `func` looks only at its first argument. */
  ghost predicate DependsOnFirst<K(!new), V>(func: seq<K> -> V)
  {
    forall a: seq<K>, b: seq<K> :: |a| > 0 && |b| > 0 && a[0] == b[0] ==> func(a) == func(b)
  }

  /** Every entry after `add_to_cache` is either `key` holding `value` or an old entry with its old value. */
  lemma AddedKeepsOldValues<K, V>(d: Dict<K, V>, maxsize: int, key: K, value: V)
    ensures var r := Added(d, maxsize, key, value);
            forall k :: k in r.storage ==> (k == key && r.storage[k] == value) || (k in d.storage && r.storage[k] == d.storage[k])
  {
    var r := Added(d, maxsize, key, value);
    var storage := d.storage[key := value];
    assert forall k :: k in r.storage ==> k in storage && r.storage[k] == storage[k];
  }

  /** A call stores only results of `func`: a miss stores `func(args)` under `args[0]`, a hit re-stores a value already there. */
  lemma CallKeepsCoherent<K(!new), V>(s: CallState<K, V>, maxsize: int, func: seq<K> -> V, args: seq<K>)
    requires Coherent(s.cache, func)
    ensures Coherent(Call(s, maxsize, func, args).0.cache, func)
  {
    if |args| > 0 {
      var key := args[0];
      var value := if key in s.cache.storage then s.cache.storage[key] else func(args);
      var r := Added(s.cache, maxsize, key, value);
      AddedKeepsOldValues(s.cache, maxsize, key, value);
      forall k | k in r.storage
        ensures exists a: seq<K> :: |a| > 0 && a[0] == k && r.storage[k] == func(a)
      {
        if k == key && key !in s.cache.storage {
          assert |args| > 0 && args[0] == k && r.storage[k] == func(args);
        } else {
          var a: seq<K> :| |a| > 0 && a[0] == k && s.cache.storage[k] == func(a);
          assert r.storage[k] == s.cache.storage[k];
        }
      }
    }
  }

  /** Starting from a fresh wrapper, every value ever stored is a result of `func`. */
  lemma {:induction false} RunKeepsCoherent<K(!new), V>(maxsize: int, func: seq<K> -> V, calls: seq<seq<K>>)
    ensures Coherent(Run(Initial(), maxsize, func, calls).cache, func)
  {
    if calls != [] {
      var prefix := calls[..|calls| - 1];
      RunKeepsCoherent(maxsize, func, prefix);
      CallKeepsCoherent(Run(Initial(), maxsize, func, prefix), maxsize, func, calls[|calls| - 1]);
    }
  }

  /**
   * The wrapper memoises `func`: when `func` looks only at its first
   * argument and every stored value came from `func`, a call with arguments
   * returns `func(args)`, whether it hits or misses.
   */
  lemma CallReturnsFunc<K(!new), V>(s: CallState<K, V>, maxsize: int, func: seq<K> -> V, args: seq<K>)
    requires Coherent(s.cache, func) && DependsOnFirst(func) && |args| > 0
    ensures Call(s, maxsize, func, args).1 == Some(func(args))
  {
    var key := args[0];
    if key in s.cache.storage {
      var a: seq<K> :| |a| > 0 && a[0] == key && s.cache.storage[key] == func(a);
      assert func(a) == func(args);
    }
  }

  /**
   * After any sequence of calls on a fresh wrapper, the next call with
   * arguments returns `func(args)`, provided `func` looks only at its first
   * argument.
   */
  lemma MemoisedResult<K(!new), V>(maxsize: int, func: seq<K> -> V, calls: seq<seq<K>>, args: seq<K>)
    requires DependsOnFirst(func) && |args| > 0
    ensures Call(Run(Initial(), maxsize, func, calls), maxsize, func, args).1 == Some(func(args))
  {
    RunKeepsCoherent(maxsize, func, calls);
    CallReturnsFunc(Run(Initial(), maxsize, func, calls), maxsize, func, args);
  }

  /** The keys the calls in `calls` used, in order: the first argument of each call that has one. */
  function Keys<K>(calls: seq<seq<K>>): seq<K>
  {
    if calls == [] then []
    else Keys(calls[..|calls| - 1]) + (if calls[|calls| - 1] == [] then [] else [calls[|calls| - 1][0]])
  }

  /**
   * One call keeps the order equal to the last `maxsize` keys of the
   * recency order `r` of the history: the call's key moves to the end of `r`.
   */
  lemma StepIsLatest<K, V>(s: CallState<K, V>, maxsize: int, func: seq<K> -> V, args: seq<K>, r: seq<K>)
    requires ValidState(s, maxsize) && maxsize >= 1
    requires Distinct(r) && s.cache.order == Suffix(r, maxsize)
    requires |args| > 0
    ensures Call(s, maxsize, func, args).0.cache.order == Suffix(Remove(r, args[0]) + [args[0]], maxsize)
  {
    var c, k := s.cache.order, args[0];
    SuffixMoveToEnd(r, maxsize, k);
    assert k in c <==> k in s.cache.storage by {
      assert k in c <==> k in Elements(c);
    }
    var value := if k in s.cache.storage then s.cache.storage[k] else func(args);
    assert Call(s, maxsize, func, args).0.cache == Added(s.cache, maxsize, k, value);
    if k in s.cache.storage || |c| < maxsize {
      AddedEvictsNothing(s.cache, maxsize, k, value);
      if k !in c {
        RemoveAbsent(c, k);
      }
    } else {
      AddedEvictsFirst(s.cache, maxsize, k, value);
    }
  }

  /**
   * The cache keeps the results of the most recent calls: after any sequence
   * of calls on a fresh wrapper, the recency order is the last `maxsize`
   * distinct keys used, ordered by their last use (and empty when `maxsize`
   * is not positive).
   */
  lemma {:induction false} RunIsLatest<K, V>(maxsize: int, func: seq<K> -> V, calls: seq<seq<K>>)
    ensures Run(Initial(), maxsize, func, calls).cache.order == Suffix(Recency(Keys(calls)), maxsize)
  {
    var t := Run(Initial(), maxsize, func, calls);
    if maxsize <= 0 {
      RunPreservesValid(Initial(), maxsize, func, calls);
    } else if calls != [] {
      var prefix, args := calls[..|calls| - 1], calls[|calls| - 1];
      var s := Run(Initial(), maxsize, func, prefix);
      RunIsLatest(maxsize, func, prefix);
      RunPreservesValid(Initial(), maxsize, func, prefix);
      var ks := Keys(prefix);
      RecencyDistinct(ks);
      if args == [] {
        assert Keys(calls) == ks;
      } else {
        StepIsLatest(s, maxsize, func, args, Recency(ks));
        var ks' := Keys(calls);
        assert ks' == ks + [args[0]];
        assert ks'[..|ks'| - 1] == ks && ks'[|ks'| - 1] == args[0];
      }
    }
  }

  /**
   * The wrapper returned for `func`: the cache and the counters it closes
   * over, and its two entry points, the call itself and `cache_info`.
   */
  class Cache<K(==), V> {
    const func: seq<K> -> V
    const maxsize: int
    var storage: map<K, V>
    var order: seq<K>
    var hits: nat
    var misses: nat

    function Snapshot(): Dict<K, V>
      reads this
    {
      Dict(order, storage)
    }

    function State(): CallState<K, V>
      reads this
    {
      CallState(Snapshot(), hits, misses)
    }

    ghost predicate Valid()
      reads this
    {
      ValidState(State(), maxsize)
    }

    constructor (func: seq<K> -> V, maxsize: int)
      ensures Valid()
      ensures this.func == func && this.maxsize == maxsize
      ensures State() == Initial()
    {
      this.func := func;
      this.maxsize := maxsize;
      storage := map[];
      order := [];
      hits := 0;
      misses := 0;
    }

    /** Wrapping with the default capacity of 128 entries. */
    constructor WithDefaultMaxsize(func: seq<K> -> V)
      ensures Valid()
      ensures this.func == func && maxsize == DefaultMaxsize
      ensures State() == Initial()
    {
      this.func := func;
      maxsize := DefaultMaxsize;
      storage := map[];
      order := [];
      hits := 0;
      misses := 0;
    }

    /** `add_to_cache`, applied to this wrapper's cache. */
    method AddToCache(key: K, value: V)
      requires Valid()
      modifies this`storage, this`order
      ensures Valid()
      ensures Snapshot() == Added(old(Snapshot()), maxsize, key, value)
    {
      ghost var before := Snapshot();
      AddedKeepsBound(before, maxsize, key, value);
      // item assignment: a new key is appended, an existing one keeps its place
      if key !in storage {
        order := order + [key];
        RemoveAppended(before.order, key);
      }
      storage := storage[key := value];
      // move_to_end
      order := Remove(order, key) + [key];
      // evict the least recently used entry when over capacity
      if |storage| > maxsize {
        storage := storage - {order[0]};
        order := order[1..];
      }
    }

    /**
     * The wrapper itself. Its loop over the arguments returns during the
     * first iteration, so only the first argument serves as the key.
     */
    method Inner(args: seq<K>) returns (result: Option<V>)
      requires Valid()
      modifies this
      ensures Valid()
      ensures (State(), result) == Call(old(State()), maxsize, func, args)
    {
      CallPreservesValid(State(), maxsize, func, args);
      for i := 0 to |args|
        invariant i == 0
        invariant State() == old(State())
      {
        var key := args[i];
        var value;
        if key !in storage {
          misses := misses + 1;
          value := func(args);
          AddToCache(key, value);
        } else {
          hits := hits + 1;
          value := storage[key];
          AddToCache(key, value);
        }
        return Some(value);
      }
      return None;
    }

    /** `cache_info`: the counters, the capacity and the current number of entries; nothing changes. */
    method CacheInfo() returns (info: CacheInfo)
      requires Valid()
      ensures info.hits == hits && info.misses == misses && info.maxsize == maxsize
      ensures info.currsize == |order|
      ensures info.currsize <= maxsize || info.currsize == 0
    {
      WellformedSize(Snapshot());
      info := Info(hits, misses, maxsize, |storage|);
    }
  }
}
