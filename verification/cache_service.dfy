/**
 * The TTL key-value cache over browser storage (`cacheService` and
 * `generateCacheKey`). Storage is a map from storage keys to slots; a slot is a
 * parsed cache entry or a value that does not parse. The clock is the `now`
 * parameter; expiry is checked lazily on read.
 */
module CacheService {
  import opened Opt
  import Text

  const CachePrefix: string := "lol-app-cache-"
  /** Five minutes, in milliseconds. */
  const DefaultCacheDuration: int := 5 * 60 * 1000

  /** What one storage key holds: an entry written by `set`, or text that `JSON.parse` rejects. */
  datatype Slot<V> = Entry(data: V, timestamp: int, expiry: int) | Corrupt

  type Storage<V> = map<string, Slot<V>>

  /** The result of a read: the value, if any, and the storage after the read. */
  datatype Read<V> = Read(value: Option<V>, storage: Storage<V>)

  function StorageKey(key: string): string {
    CachePrefix + key
  }

  /** A storage key and a storage map agree on `k`. */
  ghost predicate SameAt<V>(s: Storage<V>, s': Storage<V>, k: string) {
    (k in s <==> k in s') && (k in s ==> s[k] == s'[k])
  }

  /** The cache holds a live entry for `key` at time `now`. */
  predicate Live<V>(s: Storage<V>, key: string, now: int) {
    StorageKey(key) in s && s[StorageKey(key)].Entry? && now <= s[StorageKey(key)].expiry
  }

  // ---------------------------------------------------------------------------
  // Operations

  /** `set(key, data, duration)` at time `now`. */
  function Set<V>(s: Storage<V>, key: string, data: V, duration: int, now: int): (s': Storage<V>)
    ensures s'.Keys == s.Keys + {StorageKey(key)}
    ensures s'[StorageKey(key)] == Entry(data, now, now + duration)
    ensures forall k :: k != StorageKey(key) ==> SameAt(s, s', k)
  {
    s[StorageKey(key) := Entry(data, now, now + duration)]
  }

  /**
   * `get(key)` at time `now`. A missing key and an unparsable slot read as a
   * miss and leave the storage alone; an entry read strictly after its expiry
   * reads as a miss and is deleted; otherwise its data is returned.
   */
  function Get<V>(s: Storage<V>, key: string, now: int): (r: Read<V>)
    ensures r.value.Some? <==> Live(s, key, now)
    ensures r.value.Some? ==> r.value.value == s[StorageKey(key)].data
    ensures Expired(s, key, now) ==> r.storage == s - {StorageKey(key)}
    ensures !Expired(s, key, now) ==> r.storage == s
  {
    var k := StorageKey(key);
    if k !in s then Read(None, s)
    else match s[k]
      case Corrupt => Read(None, s)
      case Entry(data, _, expiry) =>
        if now > expiry then Read(None, s - {k}) else Read(Some(data), s)
  }

  predicate Expired<V>(s: Storage<V>, key: string, now: int) {
    StorageKey(key) in s && s[StorageKey(key)].Entry? && now > s[StorageKey(key)].expiry
  }

  /** `remove(key)`. */
  function Remove<V>(s: Storage<V>, key: string): (s': Storage<V>)
    ensures s'.Keys == s.Keys - {StorageKey(key)}
    ensures forall k :: k in s' ==> s'[k] == s[k]
  {
    s - {StorageKey(key)}
  }

  /** `clearAll()`: drops every storage key that starts with the prefix. */
  function ClearAll<V>(s: Storage<V>): (s': Storage<V>)
    ensures forall k :: k in s' <==> k in s && !Text.StartsWith(k, CachePrefix)
    ensures forall k :: k in s' ==> s'[k] == s[k]
  {
    map k | k in s && !Text.StartsWith(k, CachePrefix) :: s[k]
  }

  /** `generateCacheKey(type, ...params)`. */
  function GenerateCacheKey(kind: string, params: seq<string>): string {
    kind + "-" + Text.JoinDash(params)
  }

  // ---------------------------------------------------------------------------
  // Properties

  /** A value written at `now` with duration `d` is read back at any time up to `now + d`. */
  lemma SetThenGet<V>(s: Storage<V>, key: string, v: V, d: int, now: int, later: int)
    requires later <= now + d
    ensures Get(Set(s, key, v, d, now), key, later) == Read(Some(v), Set(s, key, v, d, now))
  {
  }

  /** Read strictly after the expiry, an entry is gone and the key is deleted; exactly at expiry it is still there. */
  lemma GetAroundExpiry<V>(s: Storage<V>, key: string, v: V, d: int, now: int)
    ensures Get(Set(s, key, v, d, now), key, now + d).value == Some(v)
    ensures Get(Set(s, key, v, d, now), key, now + d + 1) == Read(None, s - {StorageKey(key)})
  {
    var s' := Set(s, key, v, d, now);
    assert s' - {StorageKey(key)} == s - {StorageKey(key)};
  }

  /** A missing key reads as absent and the storage is unchanged. */
  lemma GetAbsent<V>(s: Storage<V>, key: string, now: int)
    requires StorageKey(key) !in s
    ensures Get(s, key, now) == Read(None, s)
  {
  }

  /** An unparsable slot reads as absent and is left in place. */
  lemma GetCorrupt<V>(s: Storage<V>, key: string, now: int)
    requires StorageKey(key) in s && s[StorageKey(key)] == Corrupt
    ensures Get(s, key, now) == Read(None, s)
  {
  }

  /** After `remove(key)`, `get(key)` is a miss at any time. */
  lemma RemoveThenGet<V>(s: Storage<V>, key: string, now: int)
    ensures Get(Remove(s, key), key, now) == Read(None, Remove(s, key))
  {
  }

  /** After `clearAll()`, every key read through the cache is a miss. */
  lemma ClearAllThenGet<V>(s: Storage<V>, key: string, now: int)
    ensures Get(ClearAll(s), key, now) == Read(None, ClearAll(s))
  {
    var k := StorageKey(key);
    assert k[..|CachePrefix|] == CachePrefix;
    assert k !in ClearAll(s);
  }

  /** Writing one key never changes what another key reads. */
  lemma SetOtherKey<V>(s: Storage<V>, key: string, other: string, v: V, d: int, now: int, t: int)
    requires key != other
    ensures Get(Set(s, key, v, d, now), other, t).value == Get(s, other, t).value
  {
    assert StorageKey(key)[|CachePrefix|..] == key;
    assert StorageKey(other)[|CachePrefix|..] == other;
  }

  /** A cache key starts with its type tag followed by `-`; the parameters follow, joined by `-`, case as given. */
  lemma CacheKeyShape(kind: string, params: seq<string>)
    ensures Text.StartsWith(GenerateCacheKey(kind, params), kind + "-")
    ensures GenerateCacheKey(kind, params)[|kind| + 1..] == Text.JoinDash(params)
  {
    var k := GenerateCacheKey(kind, params);
    assert k[..|kind| + 1] == kind + "-";
  }

  /** Position of the first `-` in `s` (or `|s|`). */
  function FirstDash(s: string): (r: nat)
    ensures r <= |s|
  {
    if |s| == 0 || s[0] == '-' then 0 else 1 + FirstDash(s[1..])
  }

  lemma {:induction false} FirstDashAfter(x: string, rest: string)
    requires Text.DashFree(x)
    ensures FirstDash(x + "-" + rest) == |x|
  {
    if |x| > 0 {
      FirstDashAfter(x[1..], rest);
      assert (x + "-" + rest)[1..] == x[1..] + "-" + rest;
    }
  }

  /** Keys built from two different dash-free type tags never collide. */
  lemma CacheKeyKindsDisjoint(kind1: string, kind2: string, p1: seq<string>, p2: seq<string>)
    requires kind1 != kind2 && Text.DashFree(kind1) && Text.DashFree(kind2)
    ensures GenerateCacheKey(kind1, p1) != GenerateCacheKey(kind2, p2)
  {
    FirstDashAfter(kind1, Text.JoinDash(p1));
    FirstDashAfter(kind2, Text.JoinDash(p2));
    assert GenerateCacheKey(kind1, p1)[..|kind1|] == kind1;
    assert GenerateCacheKey(kind2, p2)[..|kind2|] == kind2;
  }

  /** The same holds for the prefixed storage keys. */
  lemma StorageKeysOfKindsDiffer(kind1: string, kind2: string, p1: seq<string>, p2: seq<string>)
    requires kind1 != kind2 && Text.DashFree(kind1) && Text.DashFree(kind2)
    ensures StorageKey(GenerateCacheKey(kind1, p1)) != StorageKey(GenerateCacheKey(kind2, p2))
  {
    CacheKeyKindsDisjoint(kind1, kind2, p1, p2);
    assert StorageKey(GenerateCacheKey(kind1, p1))[|CachePrefix|..] == GenerateCacheKey(kind1, p1);
    assert StorageKey(GenerateCacheKey(kind2, p2))[|CachePrefix|..] == GenerateCacheKey(kind2, p2);
  }

  /** Two dash-free strings followed by `-` split a string the same way. */
  lemma DashSplit(x: string, y: string, r1: string, r2: string)
    requires Text.DashFree(x) && Text.DashFree(y)
    requires x + "-" + r1 == y + "-" + r2
    ensures x == y && r1 == r2
  {
    var a := x + "-" + r1;
    FirstDashAfter(x, r1);
    FirstDashAfter(y, r2);
    assert x == a[..|x|];
    assert r1 == a[|x| + 1..];
    assert y == (y + "-" + r2)[..|y|];
    assert r2 == (y + "-" + r2)[|y| + 1..];
  }

  /**
   * With dash-free parameters, equal keys mean equal parameter lists: the key
   * is case-preserving, so names differing only in case get different entries.
   */
  lemma {:induction false} JoinDashInjective(p1: seq<string>, p2: seq<string>)
    requires |p1| == |p2|
    requires forall i :: 0 <= i < |p1| ==> Text.DashFree(p1[i])
    requires forall i :: 0 <= i < |p2| ==> Text.DashFree(p2[i])
    requires Text.JoinDash(p1) == Text.JoinDash(p2)
    ensures p1 == p2
  {
    if |p1| == 1 {
    } else if |p1| > 1 {
      DashSplit(p1[0], p2[0], Text.JoinDash(p1[1..]), Text.JoinDash(p2[1..]));
      JoinDashInjective(p1[1..], p2[1..]);
      assert p1 == [p1[0]] + p1[1..];
      assert p2 == [p2[0]] + p2[1..];
    }
  }

  /** When a parameter contains `-`, two different identities share one key. */
  lemma CacheKeyAmbiguousWithDash()
    ensures GenerateCacheKey("account", ["a-b", "c"]) == GenerateCacheKey("account", ["a", "b-c"])
  {
  }
}
