/** The fixed-window limiter: `CacheRateLimitStore` of app/core/rate_limit.py over the counter of
    app/cache/redis.py. Times are seconds; a key is gone once its expiry is reached. */
module RateLimit {
  import opened Arithmetic
  import opened Options

  datatype Entry = Entry(count: nat, expiresAt: Option<nat>)
  datatype RateLimitResult = RateLimitResult(allowed: bool, retryAfter: int)

  type Entries = map<string, Entry>

  predicate IsLive(entries: Entries, key: string, now: nat) {
    key in entries && (entries[key].expiresAt.Some? ==> now < entries[key].expiresAt.value)
  }

  function CountOf(entries: Entries, key: string, now: nat): nat {
    if IsLive(entries, key, now) then entries[key].count else 0
  }

  /** INCR, and EXPIRE on the first count. */
  function Incremented(entries: Entries, key: string, ttl: Option<nat>, now: nat): Entries {
    var count := CountOf(entries, key, now) + 1;
    var kept := if IsLive(entries, key, now) then entries[key].expiresAt else None;
    entries[key := Entry(count, if count == 1 && ttl.Some? then Some(now + ttl.value) else kept)]
  }

  /** Redis TTL: -2 without a key, -1 without an expiry. */
  function TtlOf(entries: Entries, key: string, now: nat): int {
    if !IsLive(entries, key, now) then -2
    else if entries[key].expiresAt.None? then -1
    else entries[key].expiresAt.value - now
  }

  class RedisCache {
    var entries: Entries

    constructor ()
      ensures entries == map[]
    {
      entries := map[];
    }

    method Increment(key: string, ttl: Option<nat>, now: nat) returns (count: nat)
      modifies this
      ensures entries == Incremented(old(entries), key, ttl, now)
      ensures count == CountOf(old(entries), key, now) + 1
    {
      if IsLive(entries, key, now) {
        entries := entries[key := entries[key].(count := entries[key].count + 1)];
      } else {
        entries := entries[key := Entry(1, None)];
      }
      count := entries[key].count;
      if count == 1 && ttl.Some? {
        entries := entries[key := entries[key].(expiresAt := Some(now + ttl.value))];
      }
    }

    method Ttl(key: string, now: nat) returns (seconds: int)
      ensures seconds == TtlOf(entries, key, now)
    {
      if !IsLive(entries, key, now) {
        return -2;
      }
      return if entries[key].expiresAt.None? then -1 else entries[key].expiresAt.value - now;
    }
  }

  class CacheRateLimitStore {
    const cache: RedisCache

    constructor (cache: RedisCache)
      ensures this.cache == cache
    {
      this.cache := cache;
    }

    /** Asks without counting: allowed exactly if the next hit would be. */
    method Check(key: string, limit: int, window: nat, now: nat) returns (result: RateLimitResult)
      ensures result.allowed <==> CountOf(cache.entries, key, now) < limit
      ensures result.retryAfter == if result.allowed then 0 else Max(1, TtlOf(cache.entries, key, now))
    {
      var count := if IsLive(cache.entries, key, now) then cache.entries[key].count else 0;
      if count >= limit {
        var ttl := cache.Ttl(key, now);
        return RateLimitResult(false, Max(1, ttl));
      }
      return RateLimitResult(true, 0);
    }

    method Hit(key: string, limit: int, window: nat, now: nat) returns (result: RateLimitResult)
      modifies cache
      ensures cache.entries == Incremented(old(cache.entries), key, Some(window), now)
      ensures result.allowed <==> CountOf(old(cache.entries), key, now) < limit
      ensures result.retryAfter ==
        if CountOf(old(cache.entries), key, now) + 1 < limit then 0 else Max(1, TtlOf(cache.entries, key, now))
    {
      var count := cache.Increment(key, Some(window), now);
      if count >= limit {
        var ttl := cache.Ttl(key, now);
        return RateLimitResult(count == limit, Max(1, ttl));
      }
      return RateLimitResult(true, 0);
    }
  }

  /** A key without an entry, or at or past its expiry, starts again at 1 with a new expiry, or with none;
      otherwise the count grows by one and the expiry stays. Other keys keep their entries. */
  lemma IncrementLaw(entries: Entries, key: string, ttl: Option<nat>, now: nat)
    ensures
      var after := Incremented(entries, key, ttl, now);
      && key in after && after.Keys == entries.Keys + {key}
      && (forall k :: k in entries && k != key ==> after[k] == entries[k])
      && (key !in entries ==> after[key] == Entry(1, if ttl.Some? then Some(now + ttl.value) else None))
      && (key in entries && entries[key].count > 0 ==>
            after[key] == match entries[key].expiresAt
              case None => Entry(entries[key].count + 1, None)
              case Some(end) =>
                if now < end then Entry(entries[key].count + 1, Some(end))
                else Entry(1, if ttl.Some? then Some(now + ttl.value) else None))
  {
  }

  /** The time left of a live key, -1 for one that never expires, and -2 for no live key. */
  lemma TtlLaw(entries: Entries, key: string, now: nat)
    ensures TtlOf(entries, key, now) == -2 <==>
      key !in entries || (entries[key].expiresAt.Some? && entries[key].expiresAt.value <= now)
    ensures TtlOf(entries, key, now) == -1 <==> key in entries && entries[key].expiresAt.None?
    ensures TtlOf(entries, key, now) >= 0 ==>
      && key in entries && entries[key].expiresAt == Some(now + TtlOf(entries, key, now))
      && TtlOf(entries, key, now) > 0
  {
  }

  // ----- Sequences of hits -----

  datatype Hit = Hit(key: string, at: nat)

  predicate InOrder(hits: seq<Hit>) {
    forall i, j :: 0 <= i <= j < |hits| ==> hits[i].at <= hits[j].at
  }

  /** An empty cache after the hits. */
  function After(hits: seq<Hit>, window: nat): Entries {
    if hits == [] then map[]
    else
      var last := hits[|hits| - 1];
      Incremented(After(hits[..|hits| - 1], window), last.key, Some(window), last.at)
  }

  /** The count that hit number i is given. */
  function CountAt(hits: seq<Hit>, window: nat, i: nat): nat
    requires i < |hits|
  {
    CountOf(After(hits[..i], window), hits[i].key, hits[i].at) + 1
  }

  predicate IsAllowed(hits: seq<Hit>, limit: int, window: nat, i: nat)
    requires i < |hits|
  {
    CountAt(hits, window, i) <= limit
  }

  /** What `CacheRateLimitStore.Hit` does to the cache and answers is one more hit of the sequence. */
  lemma HitIsTheNext(hits: seq<Hit>, limit: int, window: nat, next: Hit)
    ensures After(hits + [next], window) == Incremented(After(hits, window), next.key, Some(window), next.at)
    ensures IsAllowed(hits + [next], limit, window, |hits|) <==> CountOf(After(hits, window), next.key, next.at) < limit
  {
    assert (hits + [next])[..|hits|] == hits;
  }

  function HitsOf(hits: seq<Hit>, key: string): nat {
    if hits == [] then 0 else HitsOf(hits[..|hits| - 1], key) + if hits[|hits| - 1].key == key then 1 else 0
  }

  // ----- Lifetimes -----

  /** Hit number j began the lifetime in which the key stands after the hits. */
  ghost predicate Began(hits: seq<Hit>, window: nat, key: string, j: nat) {
    && j < |hits| && hits[j].key == key && CountAt(hits, window, j) == 1
    && key in After(hits, window)
    && After(hits, window)[key] == Entry(HitsOf(hits[j..], key), Some(hits[j].at + window))
    && forall k :: j < k < |hits| && hits[k].key == key ==> hits[k].at < hits[j].at + window
  }

  /** What the last hit does to the entry of a key. */
  lemma LastHit(hits: seq<Hit>, window: nat, key: string)
    requires hits != []
    ensures var n := |hits| - 1;
      var before, now := After(hits[..n], window), After(hits, window);
      if hits[n].key != key then (key in now <==> key in before) && (key in now ==> now[key] == before[key])
      else if CountAt(hits, window, n) == 1 then key in now && now[key] == Entry(1, Some(hits[n].at + window))
      else IsLive(before, key, hits[n].at) && key in now && now[key] == before[key].(count := before[key].count + 1)
  {
  }

  lemma HitsOfLast(hits: seq<Hit>, key: string, j: nat)
    requires j < |hits|
    ensures var n := |hits| - 1;
      HitsOf(hits[j..], key) == HitsOf(hits[..n][j..], key) + if hits[n].key == key then 1 else 0
  {
    var n := |hits| - 1;
    assert hits[j..][..n - j] == hits[..n][j..];
  }

  lemma {:induction false} EveryKeyBegan(hits: seq<Hit>, window: nat, key: string) returns (j: nat)
    requires window > 0 && InOrder(hits) && key in After(hits, window)
    ensures Began(hits, window, key, j)
  {
    hide After, HitsOf;
    AfterNone(window);
    LastHit(hits, window, key);
    var n := |hits| - 1;
    var rest := hits[..n];
    if hits[n].key == key && CountAt(hits, window, n) == 1 {
      j := n;
      HitsOfLast(hits, key, n);
      NoHits(rest[n..], key);
    } else {
      j := EveryKeyBegan(rest, window, key);
      assert rest[..j] == hits[..j];
      HitsOfLast(hits, key, j);
      assert forall k :: 0 <= k < n ==> rest[k] == hits[k];
    }
  }

  lemma AfterNone(window: nat)
    ensures After([], window) == map[]
  {
  }

  lemma NoHits(hits: seq<Hit>, key: string)
    requires hits == []
    ensures HitsOf(hits, key) == 0
  {
  }

  /** Each hit belongs to a lifetime that a hit with count 1 began at most a window before, and its
      count is its place in it; so exactly the first `limit` hits of a lifetime are allowed. */
  lemma HitsAreCountedByLifetime(hits: seq<Hit>, limit: int, window: nat, i: nat) returns (j: nat)
    requires window > 0 && InOrder(hits) && i < |hits|
    ensures j <= i && hits[j].key == hits[i].key && CountAt(hits, window, j) == 1
    ensures hits[i].at < hits[j].at + window
    ensures CountAt(hits, window, i) == HitsOf(hits[j..i + 1], hits[i].key)
    ensures IsAllowed(hits, limit, window, i) <==> HitsOf(hits[j..i + 1], hits[i].key) <= limit
  {
    var upto := hits[..i + 1];
    assert upto[..i] == hits[..i];
    j := EveryKeyBegan(upto, window, hits[i].key);
    assert upto[j..] == hits[j..i + 1] && upto[..j] == hits[..j];
  }

  /** Lifetimes of one key are disjoint and last the full window. */
  lemma LifetimesAreDisjoint(hits: seq<Hit>, window: nat, i: nat, j: nat)
    requires window > 0 && InOrder(hits) && i < j < |hits| && hits[i].key == hits[j].key
    requires CountAt(hits, window, i) == 1 && CountAt(hits, window, j) == 1
    ensures hits[i].at + window <= hits[j].at
    decreases j, 1
  {
    var key := hits[i].key;
    KeyIsKnown(hits[..j], window, key, i);
    var b := EveryKeyBegan(hits[..j], window, key);
    StartsBefore(hits, window, i, j, b);
  }

  lemma {:induction false} KeyIsKnown(hits: seq<Hit>, window: nat, key: string, i: nat)
    requires i < |hits| && hits[i].key == key
    ensures key in After(hits, window)
  {
    if i < |hits| - 1 { KeyIsKnown(hits[..|hits| - 1], window, key, i); }
  }

  lemma StartsBefore(hits: seq<Hit>, window: nat, i: nat, j: nat, b: nat)
    requires window > 0 && InOrder(hits) && i < j < |hits| && hits[i].key == hits[j].key
    requires CountAt(hits, window, i) == 1 && CountAt(hits, window, j) == 1
    requires Began(hits[..j], window, hits[i].key, b)
    ensures hits[i].at + window <= hits[j].at
    decreases j, 0
  {
    var key := hits[i].key;
    HitsOfIsPositive(hits[..j][b..], key);
    assert hits[b].at + window <= hits[j].at;
    if i > b {
      assert hits[..j][i] == hits[i] && hits[..j][b] == hits[b];
      assert hits[..j][..b] == hits[..b];
      assert hits[i].at < hits[b].at + window;
      LifetimesAreDisjoint(hits, window, b, i);
    }
  }

  lemma HitsOfIsPositive(hits: seq<Hit>, key: string)
    requires hits != [] && hits[0].key == key
    ensures HitsOf(hits, key) >= 1
  {
  }

  // ----- Spans of one window length -----

  /** The allowed hits of the key in the span of one window that starts at `from`. */
  function AllowedWithin(hits: seq<Hit>, limit: nat, window: nat, key: string, from: nat): nat {
    if hits == [] then 0
    else
      var n := |hits| - 1;
      var counts := hits[n].key == key && from <= hits[n].at < from + window && IsAllowed(hits, limit, window, n);
      AllowedWithin(hits[..n], limit, window, key, from) + if counts then 1 else 0
  }

  /** What the lifetime in which the key stands leaves for the span: its first hit lies before the
      span, or in it, or after it. */
  function SpanBound(count: nat, expiresAt: nat, limit: nat, window: nat, from: nat): int {
    if expiresAt < from + window then Max(0, Min(count, limit) - 1)
    else if expiresAt < from + 2 * window then Max(0, limit - 1) + Min(count, limit)
    else Max(0, 2 * limit - 1)
  }

  /** The induction over the hits behind `SpanAdmitsFewerThanTwoLimits`. */
  lemma {:induction false} SpanIsBounded(hits: seq<Hit>, limit: nat, window: nat, key: string, from: nat)
    requires window > 0 && InOrder(hits)
    ensures AllowedWithin(hits, limit, window, key, from) > 0 ==> from <= hits[|hits| - 1].at
    ensures key !in After(hits, window) ==> AllowedWithin(hits, limit, window, key, from) == 0
    ensures key in After(hits, window) ==>
      var entry := After(hits, window)[key];
      && entry.count > 0 && entry.expiresAt.Some?
      && window <= entry.expiresAt.value <= hits[|hits| - 1].at + window
      && AllowedWithin(hits, limit, window, key, from)
           <= SpanBound(entry.count, entry.expiresAt.value, limit, window, from)
  {
    if hits != [] {
      SpanIsBounded(hits[..|hits| - 1], limit, window, key, from);
    }
  }

  /** Any span of one window length admits at most 2 * limit - 1 hits of a key. */
  lemma SpanAdmitsFewerThanTwoLimits(hits: seq<Hit>, limit: nat, window: nat, key: string, from: nat)
    requires window > 0 && InOrder(hits)
    ensures AllowedWithin(hits, limit, window, key, from) <= Max(0, 2 * limit - 1)
  {
    SpanIsBounded(hits, limit, window, key, from);
  }

  function Burst(key: string, at: nat, n: nat): seq<Hit> {
    seq(n, _ => Hit(key, at))
  }

  /** The bound is sharp: one hit, limit - 1 at the end of its lifetime, and limit in the next. */
  function WorstCase(key: string, limit: nat, window: nat): seq<Hit>
    requires limit > 0 && window > 1
  {
    [Hit(key, 0)] + Burst(key, window - 1, limit - 1) + Burst(key, window, limit)
  }

  /** A burst inside a lifetime with room for it is admitted whole. */
  lemma {:induction false} BurstIsAdmitted(hits: seq<Hit>, limit: nat, window: nat, key: string, from: nat,
                                           at: nat, n: nat, count: nat, expiresAt: nat)
    requires from <= at < from + window && at < expiresAt && 0 < count && count + n <= limit
    requires key in After(hits, window) && After(hits, window)[key] == Entry(count, Some(expiresAt))
    ensures var all := hits + Burst(key, at, n);
      && key in After(all, window) && After(all, window)[key] == Entry(count + n, Some(expiresAt))
      && AllowedWithin(all, limit, window, key, from) == AllowedWithin(hits, limit, window, key, from) + n
  {
    hide After, AllowedWithin;
    if n == 0 {
      assert hits + Burst(key, at, 0) == hits;
    } else {
      BurstIsAdmitted(hits, limit, window, key, from, at, n - 1, count, expiresAt);
      var all := hits + Burst(key, at, n);
      var rest := hits + Burst(key, at, n - 1);
      assert all[..|all| - 1] == rest && all[|all| - 1] == Hit(key, at);
      LastHit(all, window, key);
      assert CountAt(all, window, |all| - 1) == count + n;
      LastAllowed(all, limit, window, key, from);
    }
  }

  lemma LastAllowed(hits: seq<Hit>, limit: nat, window: nat, key: string, from: nat)
    requires hits != [] && hits[|hits| - 1].key == key && IsAllowed(hits, limit, window, |hits| - 1)
    ensures AllowedWithin(hits, limit, window, key, from)
      == AllowedWithin(hits[..|hits| - 1], limit, window, key, from)
         + if from <= hits[|hits| - 1].at < from + window then 1 else 0
  {
  }

  lemma TheBoundIsSharp(key: string, limit: nat, window: nat)
    requires limit > 0 && window > 1
    ensures InOrder(WorstCase(key, limit, window))
    ensures AllowedWithin(WorstCase(key, limit, window), limit, window, key, window - 1) == 2 * limit - 1
  {
    hide After, AllowedWithin;
    var first := [Hit(key, 0)];
    OneHit(limit, window, key);
    BurstIsAdmitted(first, limit, window, key, window - 1, window - 1, limit - 1, 1, window);
    var two := first + Burst(key, window - 1, limit - 1);
    var next := two + [Hit(key, window)];
    assert next[..|next| - 1] == two;
    LastHit(next, window, key);
    assert CountAt(next, window, |next| - 1) == 1;
    LastAllowed(next, limit, window, key, window - 1);
    BurstIsAdmitted(next, limit, window, key, window - 1, window, limit - 1, 1, 2 * window);
    assert next + Burst(key, window, limit - 1) == WorstCase(key, limit, window);
  }

  lemma OneHit(limit: nat, window: nat, key: string)
    requires window > 1
    ensures After([Hit(key, 0)], window) == map[key := Entry(1, Some(window))]
    ensures AllowedWithin([Hit(key, 0)], limit, window, key, window - 1) == 0
  {
    var first := [Hit(key, 0)];
    assert first[..0] == [];
  }
}
