/**
 * The in-memory TTL cache (`CacheEntry`, `SimpleCache`) and its specialisation to generated
 * content (`ContentCache`).
 *
 * `SimpleCache.get`/`set`/`delete` first hash the key with MD5. The hash is treated as an
 * injective function, so the model keys its dictionary by the key itself; the value used as
 * key is generic (`K`), and `ContentCache` uses the canonical parameter tuple `ContentKey`
 * in place of the JSON text that the source hashes.
 */
module Cache {
  import opened Wrappers
  import opened Time
  import opened Seqs
  import opened Dicts
  import Sorting
  import Text

  /** One stored value with the instants at which it was made and after which it is stale */
  datatype CacheEntry<V> = CacheEntry(value: V, createdAt: Instant, expiresAt: Instant)
  {
    /** `is_expired`: strictly after the expiry instant */
    predicate IsExpired(now: Instant)
    {
      now > expiresAt
    }
  }

  /** `CacheEntry(value, ttl_seconds)` constructed at `now` */
  function NewEntry<V>(value: V, ttlSeconds: int, now: Instant): (e: CacheEntry<V>)
    ensures e.value == value && e.createdAt == now
    ensures e.expiresAt == e.createdAt + Seconds(ttlSeconds)
    ensures forall t :: e.IsExpired(t) <==> t - e.createdAt > Seconds(ttlSeconds)
    ensures !e.IsExpired(now) <==> ttlSeconds >= 0
  {
    CacheEntry(value, now, now + Seconds(ttlSeconds))
  }

  /** `ttl or self.default_ttl`: both a missing ttl and a ttl of 0 select the default */
  function EffectiveTtl(ttl: Option<int>, defaultTtl: int): (t: int)
    ensures ttl == None || ttl == Some(0) ==> t == defaultTtl
    ensures ttl.Some? && ttl.value != 0 ==> t == ttl.value
  {
    match ttl
    case None => defaultTtl
    case Some(s) => if s == 0 then defaultTtl else s
  }

  /** `max(1, max_size // 10)`: how many entries one eviction removes */
  function EvictCount(maxSize: int): (n: nat)
    ensures n >= 1
    ensures maxSize >= 1 ==> n <= maxSize
    ensures maxSize >= 10 ==> n == maxSize / 10
  {
    if maxSize / 10 > 1 then maxSize / 10 else 1
  }

  // ---------------------------------------------------------------------------------------
  // The dictionary `self.cache` and the functions that specify what the methods do to it

  type Store<K, V> = Dict<K, CacheEntry<V>>

  /** What `get` returns: the value of a present entry that has not expired */
  function Lookup<K, V>(d: Store<K, V>, key: K, now: Instant): (r: Option<V>)
    ensures r.Some? <==> key in d.items && !d.items[key].IsExpired(now)
    ensures r.Some? ==> r.value == d.items[key].value
  {
    if key in d.items && !d.items[key].IsExpired(now) then Some(d.items[key].value) else None
  }

  /** The keys of the entries that are expired at `now` */
  function ExpiredSet<K, V>(d: Store<K, V>, now: Instant): set<K>
  {
    set k | k in d.items && d.items[k].IsExpired(now)
  }

  /** The dictionary after `_cleanup_expired`: every expired entry gone, the rest untouched */
  function Purge<K, V>(d: Store<K, V>, now: Instant): (p: Store<K, V>)
    requires d.Valid()
    ensures p.Valid()
    ensures forall k | k in p.items :: k in d.items && !d.items[k].IsExpired(now)
    ensures forall k | k in d.items && !d.items[k].IsExpired(now) :: k in p.items
    ensures forall k | k in p.items :: p.items[k] == d.items[k]
    ensures p.Len() <= d.Len()
  {
    var p := d.RemoveKeys(ExpiredSet(d, now));
    assert ExpiredSet(d, now) <= d.items.Keys;
    p
  }

  /** `expired_keys` of `_cleanup_expired`: the keys of expired entries, in dictionary order */
  function ExpiredAmong<K, V>(keys: seq<K>, items: map<K, CacheEntry<V>>, now: Instant): (r: seq<K>)
    requires forall k | k in keys :: k in items
    ensures forall k | k in r :: k in keys && items[k].IsExpired(now)
    ensures forall k | k in keys && items[k].IsExpired(now) :: k in r
  {
    if keys == [] then []
    else (if items[keys[0]].IsExpired(now) then [keys[0]] else []) + ExpiredAmong(keys[1..], items, now)
  }

  /** Scanning the dictionary in order finds exactly the expired keys. */
  lemma ExpiredAmongOrder<K, V>(d: Store<K, V>, now: Instant)
    requires d.Valid()
    ensures Elements(ExpiredAmong(d.order, d.items, now)) == ExpiredSet(d, now)
  {
  }

  /** The sort key of `_evict_oldest`: creation time */
  predicate OlderOrSame<K, V>(p: (K, CacheEntry<V>), q: (K, CacheEntry<V>))
  {
    p.1.createdAt <= q.1.createdAt
  }

  /** `sorted(self.cache.items(), key=lambda x: x[1].created_at)` */
  function ByAge<K, V>(d: Store<K, V>): seq<(K, CacheEntry<V>)>
    requires d.Valid()
  {
    Sorting.SortBy(d.Items(), OlderOrSame)
  }

  function Keys<K, V>(ps: seq<(K, V)>): (ks: seq<K>)
    ensures |ks| == |ps|
    ensures forall i | 0 <= i < |ps| :: ks[i] == ps[i].0
  {
    seq(|ps|, i requires 0 <= i < |ps| => ps[i].0)
  }

  /** The keys of `sorted_entries[:n]`: the `n` oldest entries, or all of them if fewer */
  function Victims<K, V>(d: Store<K, V>, n: nat): seq<K>
    requires d.Valid()
  {
    var s := ByAge(d);
    Keys(s[..if n <= |s| then n else |s|])
  }

  /** The dictionary after `_evict_oldest` */
  function Evict<K, V>(d: Store<K, V>, maxSize: int): (e: Store<K, V>)
    requires d.Valid()
    ensures e.Valid()
  {
    if d.Len() >= maxSize then d.RemoveKeys(Elements(Victims(d, EvictCount(maxSize)))) else d
  }

  /** The dictionary after `set(key, value, ttl)` at `now` */
  function AfterSet<K, V>(d: Store<K, V>, key: K, value: V, ttlSeconds: int, maxSize: int, now: Instant): (r: Store<K, V>)
    requires d.Valid()
    ensures r.Valid()
  {
    Evict(Purge(d, now), maxSize).Put(key, NewEntry(value, ttlSeconds, now))
  }

  /** The dictionary after `get(key)` at `now`: an expired entry for `key` is dropped */
  function AfterGet<K, V>(d: Store<K, V>, key: K, now: Instant): (r: Store<K, V>)
    requires d.Valid()
    ensures r.Valid()
    ensures forall k | k in r.items :: k in d.items
    ensures forall k | k in d.items && k != key :: k in r.items
    ensures forall k | k in r.items :: r.items[k] == d.items[k]
    ensures key in r.items <==> Lookup(d, key, now).Some?
  {
    if key in d.items && d.items[key].IsExpired(now) then d.Del(key) else d
  }

  /** `hit_rate` of `get_stats`: a percentage, 0 before the first request */
  function HitRate(hits: nat, misses: nat): (r: real)
    ensures 0.0 <= r <= 100.0
    ensures hits + misses == 0 ==> r == 0.0
    ensures hits > 0 && misses == 0 ==> r == 100.0
    ensures hits == 0 ==> r == 0.0
  {
    if hits + misses > 0 then (hits as real / (hits + misses) as real) * 100.0 else 0.0
  }

  /** What `get_stats` reports */
  datatype Stats = Stats(size: nat, maxSize: int, hitCount: nat, missCount: nat,
                         hitRatePercent: real, totalRequests: nat)

  // ---------------------------------------------------------------------------------------
  // Properties of the specification

  /** Each sorted pair is an entry of the dictionary. */
  lemma ByAgeEntries<K, V>(d: Store<K, V>)
    requires d.Valid()
    ensures forall i | 0 <= i < |ByAge(d)| :: ByAge(d)[i].0 in d.items && ByAge(d)[i].1 == d.items[ByAge(d)[i].0]
  {
    var s := ByAge(d);
    forall i | 0 <= i < |s| ensures s[i].0 in d.items && s[i].1 == d.items[s[i].0] {
      assert s[i] in multiset(d.Items());
    }
  }

  /** Each key of the dictionary is among the sorted keys. */
  lemma ByAgeCovers<K, V>(d: Store<K, V>)
    requires d.Valid()
    ensures forall k | k in d.items :: k in Keys(ByAge(d))
  {
    var s := ByAge(d);
    forall k | k in d.items ensures k in Keys(s) {
      assert (k, d.items[k]) in multiset(d.Items());
      var i :| 0 <= i < |s| && s[i] == (k, d.items[k]);
      assert Keys(s)[i] == k;
    }
  }

  /** The sorted items are the dictionary's entries, each once, oldest first. */
  lemma ByAgeFacts<K, V>(d: Store<K, V>)
    requires d.Valid()
    ensures |ByAge(d)| == d.Len()
    ensures Sorting.SortedBy(OlderOrSame, ByAge(d))
    ensures forall i | 0 <= i < |ByAge(d)| :: ByAge(d)[i].0 in d.items && ByAge(d)[i].1 == d.items[ByAge(d)[i].0]
    ensures forall k | k in d.items :: k in Keys(ByAge(d))
    ensures Distinct(Keys(ByAge(d)))
  {
    var ps := d.Items();
    var s := ByAge(d);
    LenIsOrderLength(d);
    assert |s| == |multiset(s)| == |multiset(ps)| == |ps|;
    Sorting.SortBySorted(ps, OlderOrSame);
    Sorting.SortByDistinct(ps, OlderOrSame);
    ByAgeEntries(d);
    ByAgeCovers(d);
  }

  /** The victims are distinct present keys, `min(n, len)` of them. */
  lemma VictimsShape<K, V>(d: Store<K, V>, n: nat)
    requires d.Valid()
    ensures var vs := Victims(d, n);
      && Distinct(vs)
      && |vs| == (if n <= d.Len() then n else d.Len())
      && Elements(vs) <= d.items.Keys
  {
    ByAgeFacts(d);
    var s := ByAge(d);
    var m := if n <= |s| then n else |s|;
    assert forall i | 0 <= i < m :: Victims(d, n)[i] == Keys(s)[i];
  }

  /** In a sequence of entries sorted by age, a key in the first `m` is no younger than a key
      outside them. */
  lemma PrefixIsOlder<K, V>(items: map<K, CacheEntry<V>>, s: seq<(K, CacheEntry<V>)>, m: nat)
    requires m <= |s|
    requires Sorting.SortedBy(OlderOrSame, s)
    requires forall i | 0 <= i < |s| :: s[i].0 in items && s[i].1 == items[s[i].0]
    ensures forall v, k | v in Keys(s[..m]) && k in Keys(s) && k !in Keys(s[..m]) ::
      items[v].createdAt <= items[k].createdAt
  {
    var vs := Keys(s[..m]);
    assert forall j | 0 <= j < m :: vs[j] == Keys(s)[j];
    forall v, k | v in vs && k in Keys(s) && k !in vs
      ensures items[v].createdAt <= items[k].createdAt
    {
      var i :| 0 <= i < m && vs[i] == v;
      var j :| 0 <= j < |s| && Keys(s)[j] == k;
      assert OlderOrSame(s[i], s[j]);
    }
  }

  /** No victim is younger than an entry that stays. */
  lemma VictimsOldest<K, V>(d: Store<K, V>, n: nat)
    requires d.Valid()
    ensures var vs := Victims(d, n);
      forall v, k | v in vs && v in d.items && k in d.items && k !in vs ::
        d.items[v].createdAt <= d.items[k].createdAt
  {
    var s := ByAge(d);
    ByAgeFacts(d);
    PrefixIsOlder(d.items, s, if n <= |s| then n else |s|);
  }

  /** A full dictionary loses `min(max(1, max_size // 10), len)` entries to `_evict_oldest`. */
  lemma EvictLen<K, V>(d: Store<K, V>, maxSize: int)
    requires d.Valid() && d.Len() >= maxSize
    ensures Evict(d, maxSize).Len() == d.Len() - (if EvictCount(maxSize) <= d.Len() then EvictCount(maxSize) else d.Len())
  {
    var vs := Victims(d, EvictCount(maxSize));
    VictimsShape(d, EvictCount(maxSize));
    DistinctCard(vs);
  }

  /** `_evict_oldest` on a full dictionary keeps a subset of the entries, unchanged, and no
      entry that stays is older than one that went. */
  lemma EvictRemovesOldest<K, V>(d: Store<K, V>, maxSize: int)
    requires d.Valid() && d.Len() >= maxSize
    ensures var e := Evict(d, maxSize);
      && e.items.Keys <= d.items.Keys
      && (forall k | k in e.items :: e.items[k] == d.items[k])
      && forall v, k | v in d.items && v !in e.items && k in e.items :: d.items[v].createdAt <= d.items[k].createdAt
  {
    VictimsShape(d, EvictCount(maxSize));
    VictimsOldest(d, EvictCount(maxSize));
  }

  /** Below capacity nothing is evicted. */
  lemma EvictBelowCapacity<K, V>(d: Store<K, V>, maxSize: int)
    requires d.Valid() && d.Len() < maxSize
    ensures Evict(d, maxSize) == d
  {
  }

  /** The size bound: with `max_size >= 1`, a dictionary within bounds stays within bounds
      across `set`, whether or not the key was already present. */
  lemma SetKeepsBound<K, V>(d: Store<K, V>, key: K, value: V, ttlSeconds: int, maxSize: int, now: Instant)
    requires d.Valid() && maxSize >= 1 && d.Len() <= maxSize
    ensures AfterSet(d, key, value, ttlSeconds, maxSize, now).Len() <= maxSize
  {
    var p := Purge(d, now);
    if p.Len() >= maxSize {
      EvictLen(p, maxSize);
    }
  }

  /** `get` right after `set` at the same instant returns the stored value exactly when the
      effective ttl is not negative. */
  lemma GetAfterSet<K, V>(d: Store<K, V>, key: K, value: V, ttlSeconds: int, maxSize: int, now: Instant)
    requires d.Valid()
    ensures var s := AfterSet(d, key, value, ttlSeconds, maxSize, now);
      Lookup(s, key, now) == (if ttlSeconds >= 0 then Some(value) else None)
  {
  }

  /** `set` only ever drops expired entries and, when full, the oldest ones; other keys keep
      their values. */
  lemma SetKeepsOthers<K, V>(d: Store<K, V>, key: K, value: V, ttlSeconds: int, maxSize: int, now: Instant)
    requires d.Valid()
    ensures var s := AfterSet(d, key, value, ttlSeconds, maxSize, now);
      && key in s.items
      && forall k | k in s.items && k != key :: k in d.items && s.items[k] == d.items[k] && !d.items[k].IsExpired(now)
  {
  }

  // ---------------------------------------------------------------------------------------
  // SimpleCache

  class SimpleCache<K(==), V> {
    var cache: Store<K, V>
    const defaultTtl: int
    const maxSize: int
    var hitCount: nat
    var missCount: nat

    ghost predicate Valid()
      reads this
    {
      cache.Valid()
    }

    constructor (defaultTtl: int := 3600, maxSize: int := 1000)
      ensures Valid()
      ensures this.defaultTtl == defaultTtl && this.maxSize == maxSize
      ensures cache.Len() == 0 && hitCount == 0 && missCount == 0
    {
      this.defaultTtl := defaultTtl;
      this.maxSize := maxSize;
      cache := Dict([], map[]);
      hitCount := 0;
      missCount := 0;
    }

    /** `_cleanup_expired` */
    method CleanupExpired(now: Instant)
      requires Valid()
      modifies this`cache
      ensures Valid()
      ensures cache == Purge(old(cache), now)
    {
      var expired := ExpiredAmong(cache.order, cache.items, now);
      ghost var d0 := cache;
      RemovePrefixNone(d0, expired);
      for i := 0 to |expired|
        invariant cache == d0.RemoveKeys(Elements(expired[..i]))
      {
        RemovePrefixStep(d0, expired, i);
        cache := cache.Del(expired[i]);
      }
      RemovePrefixAll(d0, expired);
      ExpiredAmongOrder(d0, now);
    }

    /** `_evict_oldest` */
    method EvictOldest()
      requires Valid()
      modifies this`cache
      ensures Valid()
      ensures cache == Evict(old(cache), maxSize)
    {
      if cache.Len() >= maxSize {
        var victims := Victims(cache, EvictCount(maxSize));
        ghost var d0 := cache;
        RemovePrefixNone(d0, victims);
        for i := 0 to |victims|
          invariant cache == d0.RemoveKeys(Elements(victims[..i]))
        {
          RemovePrefixStep(d0, victims, i);
          cache := cache.Del(victims[i]);
        }
        RemovePrefixAll(d0, victims);
      }
    }

    /** `get(key)` */
    method Get(key: K, now: Instant) returns (r: Option<V>)
      requires Valid()
      modifies this`cache, this`hitCount, this`missCount
      ensures Valid()
      ensures r == Lookup(old(cache), key, now)
      ensures cache == AfterGet(old(cache), key, now)
      ensures r.Some? ==> hitCount == old(hitCount) + 1 && missCount == old(missCount)
      ensures r.None? ==> missCount == old(missCount) + 1 && hitCount == old(hitCount)
    {
      if key !in cache.items {
        missCount := missCount + 1;
        return None;
      }
      var entry := cache.items[key];
      if entry.IsExpired(now) {
        cache := cache.Del(key);
        missCount := missCount + 1;
        return None;
      }
      hitCount := hitCount + 1;
      return Some(entry.value);
    }

    /** `set(key, value, ttl)` */
    method Set(key: K, value: V, ttl: Option<int>, now: Instant)
      requires Valid()
      modifies this`cache
      ensures Valid()
      ensures cache == AfterSet(old(cache), key, value, EffectiveTtl(ttl, defaultTtl), maxSize, now)
    {
      var ttlSeconds := EffectiveTtl(ttl, defaultTtl);
      CleanupExpired(now);
      EvictOldest();
      cache := cache.Put(key, NewEntry(value, ttlSeconds, now));
    }

    /** `delete(key)` */
    method Delete(key: K) returns (existed: bool)
      requires Valid()
      modifies this`cache
      ensures Valid()
      ensures existed <==> key in old(cache).items
      ensures cache.items == old(cache).items - {key}
      ensures cache == old(cache).Del(key)
    {
      existed := key in cache.items;
      if existed {
        cache := cache.Del(key);
      } else {
        FilterOutAbsent(cache.order, {key});
        assert cache.items - {key} == cache.items;
        assert cache.Del(key) == cache;
      }
    }

    /** `clear()` */
    method Clear()
      requires Valid()
      modifies this`cache, this`hitCount, this`missCount
      ensures Valid()
      ensures cache.Len() == 0 && hitCount == 0 && missCount == 0
    {
      cache := Dict([], map[]);
      hitCount := 0;
      missCount := 0;
    }

    /** `get_stats()` at `now` (the rounding of the rate to two places is not modelled) */
    method GetStats(now: Instant) returns (s: Stats)
      requires Valid()
      modifies this`cache
      ensures Valid()
      ensures cache == Purge(old(cache), now)
      ensures s.size == cache.Len()
      ensures forall k | k in cache.items :: !cache.items[k].IsExpired(now)
      ensures s.maxSize == maxSize && s.hitCount == hitCount && s.missCount == missCount
      ensures s.totalRequests == hitCount + missCount
      ensures s.hitRatePercent == HitRate(hitCount, missCount)
    {
      CleanupExpired(now);
      var total := hitCount + missCount;
      s := Stats(cache.Len(), maxSize, hitCount, missCount, HitRate(hitCount, missCount), total);
    }
  }

  /** `get` right after `set` at the same instant, with a positive ttl, hits: it returns the
      value and only the hit counter moves. */
  method SetThenGet<K(==), V>(c: SimpleCache<K, V>, key: K, value: V, ttl: int, now: Instant) returns (r: Option<V>)
    requires c.Valid() && ttl > 0
    modifies c
    ensures c.Valid()
    ensures r == Some(value)
    ensures c.hitCount == old(c.hitCount) + 1 && c.missCount == old(c.missCount)
  {
    c.Set(key, value, Some(ttl), now);
    GetAfterSet(old(c.cache), key, value, ttl, c.maxSize, now);
    r := c.Get(key, now);
  }

  // ---------------------------------------------------------------------------------------
  // ContentCache

  /** The canonical form of the generation parameters that `generate_content_key` serialises:
      all five fields, with the keywords sorted. */
  datatype ContentKey = ContentKey(prompt: string, tone: string, length: int,
                                   keywords: seq<string>, platform: Option<string>)

  /** `sorted(keywords)` */
  function SortedKeywords(keywords: seq<string>): (r: seq<string>)
    ensures multiset(r) == multiset(keywords)
    ensures Sorting.SortedBy(Text.StrLe, r)
  {
    StrLeIsTotalOrder(keywords);
    Sorting.SortBySorted(keywords, Text.StrLe);
    Sorting.SortBy(keywords, Text.StrLe)
  }

  lemma StrLeIsTotalOrder(s: seq<string>)
    ensures Sorting.TotalOn(Text.StrLe, s)
    ensures Sorting.TransitiveOn(Text.StrLe, s)
    ensures Sorting.AntisymmetricOn(Text.StrLe, s)
  {
    forall a, b | a in s && b in s ensures Text.StrLe(a, b) || Text.StrLe(b, a) {
      Text.StrLeTotal(a, b);
    }
    forall a, b, c | a in s && b in s && c in s && Text.StrLe(a, b) && Text.StrLe(b, c)
      ensures Text.StrLe(a, c)
    {
      Text.StrLeTransitive(a, b, c);
    }
    forall a, b | a in s && b in s && Text.StrLe(a, b) && Text.StrLe(b, a) ensures a == b {
      Text.StrLeAntisymmetric(a, b);
    }
  }

  /** Sorting depends only on which keywords there are and how often. */
  lemma SortedKeywordsPermutation(a: seq<string>, b: seq<string>)
    ensures SortedKeywords(a) == SortedKeywords(b) <==> multiset(a) == multiset(b)
  {
    if multiset(a) == multiset(b) {
      StrLeIsTotalOrder(SortedKeywords(a));
      Sorting.SortedUnique(SortedKeywords(a), SortedKeywords(b), Text.StrLe);
    }
  }

  /** `generate_content_key(prompt, tone, length, keywords, platform)` */
  function GenerateContentKey(prompt: string, tone: string, length: int,
                              keywords: Option<seq<string>>, platform: Option<string>): ContentKey
  {
    ContentKey(prompt, tone, length, SortedKeywords(keywords.GetOr([])), platform)
  }

  /** Two requests share a key exactly when they agree on prompt, tone, length and platform and
      their keyword lists are permutations of each other; no keyword list counts as `[]`. */
  lemma ContentKeyEquality(p1: string, t1: string, l1: int, k1: Option<seq<string>>, pl1: Option<string>,
                           p2: string, t2: string, l2: int, k2: Option<seq<string>>, pl2: Option<string>)
    ensures GenerateContentKey(p1, t1, l1, k1, pl1) == GenerateContentKey(p2, t2, l2, k2, pl2)
        <==> p1 == p2 && t1 == t2 && l1 == l2 && pl1 == pl2 && multiset(k1.GetOr([])) == multiset(k2.GetOr([]))
  {
    SortedKeywordsPermutation(k1.GetOr([]), k2.GetOr([]));
  }

  lemma ContentKeyNoKeywords(prompt: string, tone: string, length: int, platform: Option<string>)
    ensures GenerateContentKey(prompt, tone, length, None, platform)
         == GenerateContentKey(prompt, tone, length, Some([]), platform)
  {
  }

  class ContentCache<V> {
    const cache: SimpleCache<ContentKey, V>

    ghost predicate Valid()
      reads this, cache
    {
      cache.Valid() && cache.maxSize == 500
    }

    constructor (ttl: int := 3600)
      ensures Valid() && fresh(cache)
      ensures cache.defaultTtl == ttl && cache.maxSize == 500
      ensures cache.cache.Len() == 0 && cache.hitCount == 0 && cache.missCount == 0
    {
      cache := new SimpleCache(ttl, 500);
    }

    /** `get_content(...)` */
    method GetContent(prompt: string, tone: string, length: int, keywords: Option<seq<string>>,
                      platform: Option<string>, now: Instant) returns (r: Option<V>)
      requires Valid()
      modifies cache
      ensures Valid()
      ensures var key := GenerateContentKey(prompt, tone, length, keywords, platform);
        && r == Lookup(old(cache.cache), key, now)
        && cache.cache == AfterGet(old(cache.cache), key, now)
      ensures r.Some? ==> cache.hitCount == old(cache.hitCount) + 1 && cache.missCount == old(cache.missCount)
      ensures r.None? ==> cache.missCount == old(cache.missCount) + 1 && cache.hitCount == old(cache.hitCount)
    {
      var key := GenerateContentKey(prompt, tone, length, keywords, platform);
      r := cache.Get(key, now);
    }

    /** `cache_content(...)` */
    method CacheContent(prompt: string, tone: string, length: int, contentData: V,
                        keywords: Option<seq<string>>, platform: Option<string>, ttl: Option<int>, now: Instant)
      requires Valid()
      modifies cache
      ensures Valid()
      ensures cache.cache == AfterSet(old(cache.cache), GenerateContentKey(prompt, tone, length, keywords, platform),
                                      contentData, EffectiveTtl(ttl, cache.defaultTtl), cache.maxSize, now)
      ensures cache.hitCount == old(cache.hitCount) && cache.missCount == old(cache.missCount)
    {
      var key := GenerateContentKey(prompt, tone, length, keywords, platform);
      cache.Set(key, contentData, ttl, now);
    }

    /** `get_stats()` */
    method GetStats(now: Instant) returns (s: Stats)
      requires Valid()
      modifies cache
      ensures Valid()
      ensures cache.cache == Purge(old(cache.cache), now)
      ensures s.size == cache.cache.Len() && s.maxSize == 500
      ensures cache.hitCount == old(cache.hitCount) && cache.missCount == old(cache.missCount)
      ensures forall k | k in cache.cache.items :: !cache.cache.items[k].IsExpired(now)
      ensures s.hitCount == cache.hitCount && s.missCount == cache.missCount
      ensures s.totalRequests == cache.hitCount + cache.missCount
      ensures s.hitRatePercent == HitRate(cache.hitCount, cache.missCount)
    {
      s := cache.GetStats(now);
    }

    /** `clear()` */
    method Clear()
      requires Valid()
      modifies cache
      ensures Valid()
      ensures cache.cache.Len() == 0 && cache.hitCount == 0 && cache.missCount == 0
    {
      cache.Clear();
    }
  }

  /** Content cached for one keyword order is served for any permutation of it. */
  method CachedContentIsServedForPermutedKeywords<V>(c: ContentCache<V>, prompt: string, tone: string, length: int,
                                                         data: V, stored: seq<string>, asked: seq<string>,
                                                         platform: Option<string>, ttl: int, now: Instant)
      returns (r: Option<V>)
    requires c.Valid() && ttl > 0
    requires multiset(stored) == multiset(asked)
    modifies c.cache
    ensures c.Valid()
    ensures r == Some(data)
  {
    c.CacheContent(prompt, tone, length, data, Some(stored), platform, Some(ttl), now);
    ContentKeyEquality(prompt, tone, length, Some(stored), platform, prompt, tone, length, Some(asked), platform);
    GetAfterSet(old(c.cache.cache), GenerateContentKey(prompt, tone, length, Some(stored), platform),
                data, ttl, c.cache.maxSize, now);
    r := c.GetContent(prompt, tone, length, Some(asked), platform, now);
  }
}
