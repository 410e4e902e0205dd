# LRU cache wrapper, modelled in Dafny

`lru_cache(func, maxsize=128)` wraps a function so that its results are
memoised in an ordered dictionary. The dictionary keeps keys from least to
most recently used. Each call of the wrapper (`inner`) is one of three things:

- a miss: the key is absent, so `misses` goes up, `func` is called and its
  result is stored;
- a hit: the key is present, so `hits` goes up and the stored result is
  returned;
- with no arguments, nothing: the result is None and no counter changes.

After a miss or a hit, `add_to_cache` stores the result, moves the key to the
most-recent end, and pops the least recently used entry if the dictionary now
holds more than `maxsize` entries.

`cache_info()` reports `(hits, misses, maxsize, currsize)`.

The project has two modules:

- `Sequences` (`sequences.dfy`) holds the recency-order helpers. `Remove`
  takes a key out of a sequence, which is the first half of `move_to_end`.
  `Distinct` says a sequence has no duplicates. The lemmas here are about
  these two.
- `LruCache` (`lru_cache.dfy`) holds the cache itself.
  - `Dict` is the ordered dictionary as a value: the recency order
    `order: seq<K>` and the stored results `storage: map<K, V>`.
  - `Added` is the specification of `add_to_cache`.
  - `Call` is the specification of one call of `inner`.
  - `Run` is a sequence of calls.
  - `Wellformed` and `WithinBound` state the invariant: `order` lists exactly
    the stored keys, each once, and there are at most `maxsize` of them, and
    none when `maxsize <= 0`.
  - The class `Cache` holds the state the wrapper closes over: `storage`,
    `order`, `hits` and `misses`, plus the constants `func` and `maxsize`.
    Its methods `AddToCache`, `Inner` and `CacheInfo` work on those fields
    in place. They are proved to follow `Added` and `Call` and to keep the
    invariant.

Behaviour kept as the code has it:

- Only the first positional argument is the key, while `func` receives all
  the arguments. The `for key in args` loop returns during its first
  iteration. `Inner` keeps that loop.
- A call with no arguments returns None, changes nothing and is not counted.
  So `hits + misses` counts the calls that had an argument (`RunPreservesValid`).
- `maxsize` is not validated. With `maxsize <= 0` every inserted entry is
  popped again at once, so the cache stays empty (`AddedNonPositiveMaxsize`).
  No positive capacity is required.
- `misses` goes up before `func` is called. In the model `func` is a total
  function that cannot call back into the wrapper, so the model cannot
  observe that order (see "Left out").

The wrapper memoises `func`. Every stored value is a result of `func` for
some argument list that starts with the value's key (`Coherent`, kept by
`CallKeepsCoherent` and `RunKeepsCoherent`). So when `func` looks only at its
first argument, every call with arguments returns `func(args)`, whether it
hits or misses (`CallReturnsFunc`, `MemoisedResult`). This holds for results
as immutable values and for a deterministic `func` without side effects; see
"Left out". When `func` looks at the other arguments too, a hit returns the
result computed for the earlier arguments.

The cache keeps the results of the most recent calls. `Keys(calls)` is the
history of keys used: the first argument of each call that had one.
`Recency(ks)` lists the distinct keys of a history by their last use, least
recent first. `RecencyLastUse` reads it from the end: the key used last comes
last, and before it come the other keys in the recency order of the earlier
history with that key forgotten. `Recency` knows nothing of the cache's
capacity or storage. `RunIsLatest` proves that after any sequence of calls
on a fresh wrapper, the cache's order is exactly the last `maxsize` entries
of `Recency(Keys(calls))`, and empty when `maxsize <= 0`. So the first key of
the order, the one `popitem(last=False)` evicts, is the least recently used
resident key.

`SameFirstArgumentHits` shows the first-argument behaviour. When
`maxsize >= 1`, two calls in a row whose first arguments are equal return the
same result, whatever the other arguments are: the second call is a hit. With
`maxsize <= 0` the first result is popped at once, so the second call is a
miss.

## Model

| member | source | states |
|---|---|---|
| `LruCache.Cache.constructor` | lru_cache.py:22-25 | a new wrapper has an empty cache, zero hits and misses, and the given `func` and `maxsize`; the invariant holds |
| `LruCache.Cache.WithDefaultMaxsize` | lru_cache.py:4 | without an explicit capacity, `maxsize` is 128; otherwise as the constructor |
| `LruCache.Cache.AddToCache` | lru_cache.py:68-82 | assignment, move-to-end and conditional pop-first, done in place on `storage` and `order`; the new contents are `Added` of the old ones and the invariant is kept |
| `LruCache.Cache.Inner` | lru_cache.py:27-52 | the call loop in place on the fields: the new state and the result are exactly `Call` of the old state; the invariant is kept |
| `LruCache.Cache.CacheInfo` | lru_cache.py:54-62 | returns the current hits, misses and maxsize, and as currsize the number of resident keys, which is at most `maxsize` (or 0); changes nothing |
| `LruCache.Initial` | lru_cache.py:23-25 | the starting state is valid for every `maxsize`: no entries and no hits or misses |
| `LruCache.Added` | lru_cache.py:79-82 | `add_to_cache` as a function on the dictionary: if `key` is still resident afterwards it holds `value`, and the dictionary grows by at most one entry |
| `LruCache.Call` | lru_cache.py:43-52 | one call of `inner` as a function on the state: `None` stands for the implicit return after the empty loop and `Some(v)` for every result of `func` or of the cache, Python's None included; so the result is `None` exactly when there are no arguments, a hit returns the stored value, a miss returns `func(args)`, and `hits + misses` goes up by one exactly when there is an argument, with neither counter decreasing |
| `LruCache.Run` | lru_cache.py:27-52 | a sequence of calls made one after the other: neither counter decreases, and `hits + misses` grows by the number of calls that had an argument |
| `LruCache.WellformedSize` | lru_cache.py:81 | `len(cache)` equals the length of the recency order whenever the order lists the stored keys once each |
| `LruCache.MovedToEnd` | lru_cache.py:79-80 | after assignment and `move_to_end` the order is duplicate-free, lists the old keys plus `key`, and grows by one only when `key` was new |
| `LruCache.PoppedFirst` | lru_cache.py:82 | popping the first entry of a well-formed dictionary removes its key from both the order and the storage and keeps it well-formed |
| `LruCache.AddedEvictsNothing` | lru_cache.py:79-82 | when the key is resident or the cache has room, nothing is evicted: the storage is the old one with `key` set to `value`, and the order is the old one with `key` moved to the end |
| `LruCache.AddedWhenFull` | lru_cache.py:79-82 | a new key arriving at a full non-empty cache gives the old order minus its first key, plus `key`; the first key's entry is gone and `key` holds `value` |
| `LruCache.AddedEvictsFirst` | lru_cache.py:81-82 | eviction removes exactly the first key of the order (the least recently used one, by `RunIsLatest`); all others keep their values and relative order, the new key goes last, and the result is well-formed |
| `LruCache.AddedNonPositiveMaxsize` | lru_cache.py:81-82 | with `maxsize <= 0` the entry just inserted is popped again, so an empty cache stays empty |
| `LruCache.AddedKeepsBound` | lru_cache.py:79-82 | `add_to_cache` keeps the dictionary well-formed and within `maxsize` and grows it by at most one entry |
| `LruCache.AddedMakesMostRecent` | lru_cache.py:79-82 | with `maxsize >= 1`, afterwards `key` is resident with exactly `value` and is the last (most recent) key of the order |
| `LruCache.AddedResidentKeepsSize` | lru_cache.py:79-82 | adding an already resident key never changes the size or the set of keys |
| `LruCache.CallMiss` | lru_cache.py:44-47 | on a miss the result is `func` applied to all the arguments; misses goes up by one and hits stays; the invariant holds; with `maxsize >= 1` the result is stored under the first argument, which becomes most recent |
| `LruCache.CallHit` | lru_cache.py:48-52 | on a hit the stored value is returned; hits goes up by one and misses stays; the stored values and the size are unchanged and the key moves to the end of the order |
| `LruCache.CallMissWithRoom` | lru_cache.py:44-47 | a miss while the cache has room appends the key, holding `func(args)`, and evicts nothing |
| `LruCache.CallMissWhenFull` | lru_cache.py:44-47 | a miss on a full cache drops the first key of the order (the least recently used, by `RunIsLatest`) and appends the new one, holding `func(args)` |
| `LruCache.HitIgnoresFunc` | lru_cache.py:48-51 | on a hit the outcome does not depend on `func`, so `func` is not invoked |
| `LruCache.CallWithoutArguments` | lru_cache.py:43 | a call with no arguments returns None and leaves the cache and the counters unchanged |
| `LruCache.CallPreservesValid` | lru_cache.py:27-52 | every call keeps the invariant, never decreases a counter, and adds exactly one to `hits + misses` when it has an argument |
| `LruCache.RunPreservesValid` | lru_cache.py:27-52 | over any sequence of calls the size stays within `maxsize`, the counters never decrease, and `hits + misses` grows by the number of calls that had an argument |
| `LruCache.SameFirstArgumentHits` | lru_cache.py:43-52 | only the first argument is the key: with `maxsize >= 1`, a call right after another with the same first argument is a hit and returns the earlier result |
| `LruCache.HitProtectsFromEviction` | lru_cache.py:44-51 | with `maxsize >= 2`, in a full cache, a hit on the first key of the order and then a miss on a new key evicts the second key of the order; the refreshed key stays resident |
| `LruCache.SingleEntryKeepsLatest` | lru_cache.py:79-82 | with `maxsize` 1, a miss leaves exactly the new key resident, holding `func(args)` |
| `LruCache.HitOnOldest` | lru_cache.py:48-51 | a hit on the first key of the order moves it to the end, leaves the stored values as they were, and counts one hit |
| `LruCache.MissOnFull` | lru_cache.py:44-47 | with `maxsize >= 1`, a miss on a full cache drops the first key of the order, appends the new one, keeps the order listing exactly the stored keys, and counts one miss |
| `LruCache.AddedKeepsOldValues` | lru_cache.py:79-82 | after `add_to_cache` every entry is either `key` holding `value` or an entry that was already there, holding its old value |
| `LruCache.CallKeepsCoherent` | lru_cache.py:43-52 | if every stored value is `func` of some arguments starting with its key, that stays true after a call: a miss stores `func(args)` under `args[0]`, and a hit stores again a value that was already there |
| `LruCache.RunKeepsCoherent` | lru_cache.py:22-52 | from a fresh wrapper, after any sequence of calls, every stored value is `func` of some arguments starting with its key |
| `LruCache.CallReturnsFunc` | lru_cache.py:36-52 | the wrapper returns the result of `func`: when `func` looks only at its first argument and the stored values came from `func`, a call with arguments returns `func(args)`, on a hit as on a miss |
| `LruCache.MemoisedResult` | lru_cache.py:22-52 | after any sequence of calls on a fresh wrapper whose `func` looks only at its first argument, the next call with arguments returns `func(args)` |
| `Sequences.RemoveElements` | lru_cache.py:80 | taking a key out of the order, as `move_to_end` does before re-appending it, keeps every other key and only those |
| `Sequences.RemoveDistinct` | lru_cache.py:80 | taking a key out of a duplicate-free order keeps it duplicate-free and shortens it by one exactly when the key was there |
| `Sequences.RemoveAbsent` | lru_cache.py:80 | taking out a key that is not in the order changes nothing |
| `Sequences.RemoveAppended` | lru_cache.py:79-80 | appending a new key at assignment and then moving it to the end is the same as appending it once |
| `Sequences.DistinctCardinality` | lru_cache.py:81 | a duplicate-free order has as many keys as its set of keys |
| `LruCache.StepIsLatest` | lru_cache.py:43-52 | if the order is the last `maxsize` keys of a duplicate-free recency order `r`, then after a call with arguments it is the last `maxsize` keys of `r` with the call's key moved to the end, on a hit, a miss with room and a miss on a full cache alike |
| `LruCache.RunIsLatest` | lru_cache.py:7-8 | after any sequence of calls on a fresh wrapper, the order is the `maxsize` most recently used distinct keys, least recent first, against the independent `Recency` of the key history; empty when `maxsize <= 0` |
| `Sequences.SuffixMoveToEnd` | lru_cache.py:79-82 | moving a key to the end of a duplicate-free history and keeping the last `n`: a key among the last `n` moves to their end, otherwise it is appended, and the first one falls off when there were already `n` |
| `Sequences.RecencyDistinct` | lru_cache.py:80 | the recency order of a history lists every key of the history exactly once |
| `Sequences.RecencyRemove` | lru_cache.py:80 | forgetting a key in the history forgets it in the recency order and changes nothing else |
| `Sequences.RecencyLastUse` | lru_cache.py:7-8 | read from the end, the recency order is the last key used, preceded by the recency order of the earlier history with that key forgotten |
| `Sequences.RemoveConcat` | lru_cache.py:80 | taking a key out of a concatenation takes it out of both parts |
| `Sequences.RemoveCommutes` | lru_cache.py:80 | taking out two keys gives the same order whichever goes first |
| `Sequences.DistinctAppend` | lru_cache.py:80 | appending a key that is not yet in a duplicate-free order keeps it duplicate-free |

## Left out

- `Coherent`, `CallReturnsFunc`, `MemoisedResult`: results are immutable
  values and `func` is deterministic and free of side effects. In the code a
  hit returns the stored object itself (line 50), so a caller that mutates a
  returned list or dict changes what later hits return. A `func` that is
  random or has side effects gets an earlier result back on a hit, not a
  fresh `func(*args)` (line 46). These lemmas assume neither happens.

- Exceptions from `func` are not modelled. `func` is a total Dafny function
  `seq<K> -> V`. In the code, a raising `func` leaves `misses` incremented
  (line 45) and the cache untouched.
- `Call`, `Inner`: `func` is assumed not to call the wrapper or
  `cache_info`. A re-entrant `func`, such as a memoised recursive function,
  would change `cache`, `hits` and `misses` between lines 45 and 47, and
  line 47 would then add to the changed cache. Such nested calls are not
  modelled. Nor is the fact that a nested `cache_info()` sees the miss that
  line 45 counts before `func` runs. `CallMiss` and `RunPreservesValid`
  hold only for a `func` that does not call back.
- Python's heterogeneous positional arguments are not modelled. All arguments
  have one key type `K`, and keys are compared by Dafny equality, not by
  Python hashing.
- `maxsize` is an integer. Python values such as `None`, which would make
  line 81 raise, are not modelled.
- Closure and `nonlocal` mechanics are not modelled; they become fields of
  `Cache`. The same goes for the function attribute `inner.cache_info`
  (line 64), which becomes the method `CacheInfo`, and the `namedtuple`
  (line 22), which becomes the datatype `CacheInfo`.
- `OrderedDict`'s constant-time operations are not modelled. The order is a
  `seq` and `move_to_end` is remove-then-append.
- The `KeyError` paths of `move_to_end` and `popitem` are not modelled.
  `add_to_cache` never reaches them: the key was just assigned, and the
  dictionary is not empty when it is popped.
- Thread safety is not modelled; the code has none.
