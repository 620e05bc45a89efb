/**
 * The in-memory limiter of `rate_limit.py`: `RateLimitConfig`, `RateLimitResult`,
 * `InMemoryRateLimiter._key` and `InMemoryRateLimiter.hit`.
 *
 * The limiter keeps, per key, the timestamps of the hits still inside the window.
 * Time is an explicit integer number of seconds (`now`) instead of `time.time()`,
 * and the `asyncio.Lock` is dropped: the locked body runs as one sequential step.
 */
module RateLimit {
  import opened Text

  /** At most `amount` hits per `windowSeconds` seconds. */
  datatype RateLimitConfig = RateLimitConfig(amount: int, windowSeconds: int)

  /** The verdict of one hit: whether it is allowed, how many hits the window now holds,
      and when (epoch milliseconds) the oldest of them leaves the window. */
  datatype RateLimitResult = RateLimitResult(allowed: bool, count: int, resetEpochMs: int)

  /** `InMemoryRateLimiter._key`: `"{amount}:{window_seconds}:{identifier}"`. */
  function Key(config: RateLimitConfig, identifier: string): (k: string)
    ensures |k| > |identifier| && k[|k| - |identifier|..] == identifier
    ensures IsPrefix(IntToString(config.amount) + ":", k)
  {
    var a := IntToString(config.amount) + ":";
    var k := a + (IntToString(config.windowSeconds) + ":" + identifier);
    assert k[..|a|] == a;
    assert k[|k| - |identifier|..] == identifier;
    assert k == IntToString(config.amount) + ":" + IntToString(config.windowSeconds) + ":" + identifier;
    k
  }

  /** Two hits share a window only when they have the same config and the same identifier. */
  lemma KeyInjective(c1: RateLimitConfig, id1: string, c2: RateLimitConfig, id2: string)
    requires Key(c1, id1) == Key(c2, id2)
    ensures c1 == c2 && id1 == id2
  {
    var a1, w1 := IntToString(c1.amount), IntToString(c1.windowSeconds);
    var a2, w2 := IntToString(c2.amount), IntToString(c2.windowSeconds);
    assert Key(c1, id1) == a1 + [':'] + (w1 + [':'] + id1);
    assert Key(c2, id2) == a2 + [':'] + (w2 + [':'] + id2);
    SplitAtFirst(a1, w1 + [':'] + id1, a2, w2 + [':'] + id2, ':');
    SplitAtFirst(w1, id1, w2, id2, ':');
    IntToStringInjective(c1.amount, c2.amount);
    IntToStringInjective(c1.windowSeconds, c2.windowSeconds);
  }

  predicate Sorted(s: seq<int>) {
    forall i, j :: 0 <= i < j < |s| ==> s[i] <= s[j]
  }

  /** How many leading timestamps the `popleft` loop of `hit` drops: those at or before
      `windowStart`, up to the first one after it. */
  function Dropped(entries: seq<int>, windowStart: int): (d: nat)
    ensures d <= |entries|
    ensures forall i :: 0 <= i < d ==> entries[i] <= windowStart
    ensures d < |entries| ==> entries[d] > windowStart
  {
    if entries != [] && entries[0] <= windowStart then 1 + Dropped(entries[1..], windowStart)
    else 0
  }

  /** What the `popleft` loop leaves of a window. */
  function Evict(entries: seq<int>, windowStart: int): (r: seq<int>)
    ensures |r| <= |entries|
    ensures r != [] ==> r[0] > windowStart
  {
    entries[Dropped(entries, windowStart)..]
  }

  /** A key's window after a hit at `now`: evict, then record `now`, whether or not the hit
      is allowed. */
  function WindowAfterHit(entries: seq<int>, config: RateLimitConfig, now: int): (w: seq<int>)
    ensures 1 <= |w| <= |entries| + 1 && w[|w| - 1] == now
  {
    Evict(entries, now - config.windowSeconds) + [now]
  }

  /** Eviction keeps a suffix of the window and drops only timestamps at or before
      `windowStart`. */
  lemma EvictKeepsSuffix(entries: seq<int>, windowStart: int)
    ensures var r := Evict(entries, windowStart);
      && r == entries[|entries| - |r|..]
      && forall i :: 0 <= i < |entries| - |r| ==> entries[i] <= windowStart
  {
  }

  /** `reset` as `hit` computes it from the window after the append, fallback branch included. */
  function ResetOf(window: seq<int>, config: RateLimitConfig, now: int): int {
    if window != [] then (window[0] + config.windowSeconds) * 1000
    else (now + config.windowSeconds) * 1000
  }

  /** The limiter's state: the window of each key (`self._windows`). Absent keys have an
      empty window, as with the `defaultdict(deque)`. */
  function WindowIn(windows: map<string, seq<int>>, key: string): seq<int> {
    if key in windows then windows[key] else []
  }

  /** The state after `hit(config, identifier)` at `now`: only the hit's own key changes. */
  function HitState(windows: map<string, seq<int>>, config: RateLimitConfig, identifier: string, now: int)
    : (after: map<string, seq<int>>)
    ensures after.Keys == windows.Keys + {Key(config, identifier)}
    ensures forall k :: k != Key(config, identifier) ==> WindowIn(after, k) == WindowIn(windows, k)
  {
    var key := Key(config, identifier);
    windows[key := WindowAfterHit(WindowIn(windows, key), config, now)]
  }

  /** The result of `hit(config, identifier)` at `now` in state `windows`. */
  function HitResult(windows: map<string, seq<int>>, config: RateLimitConfig, identifier: string, now: int)
    : (r: RateLimitResult)
    ensures var w := WindowIn(HitState(windows, config, identifier, now), Key(config, identifier));
      && r.count == |w| >= 1
      && w[|w| - 1] == now
      && (r.allowed <==> r.count <= config.amount)
  {
    var window := WindowAfterHit(WindowIn(windows, Key(config, identifier)), config, now);
    RateLimitResult(|window| <= config.amount, |window|, ResetOf(window, config, now))
  }

  /** The window is never empty after the append, so `reset` is always the oldest kept
      timestamp plus the window, in milliseconds; the fallback branch is never taken. */
  lemma ResetFromOldest(windows: map<string, seq<int>>, config: RateLimitConfig, identifier: string, now: int)
    ensures var w := WindowIn(HitState(windows, config, identifier, now), Key(config, identifier));
      HitResult(windows, config, identifier, now).resetEpochMs == (w[0] + config.windowSeconds) * 1000
  {
  }

  /** A sorted window whose timestamps are not later than `now` stays sorted after a hit,
      and everything it keeps lies strictly inside the window `(now - windowSeconds, now]`. */
  lemma {:induction false} WindowAfterHitOrdered(entries: seq<int>, config: RateLimitConfig, now: int)
    requires Sorted(entries)
    requires forall i :: 0 <= i < |entries| ==> entries[i] <= now
    requires config.windowSeconds > 0
    ensures var w := WindowAfterHit(entries, config, now);
      && Sorted(w)
      && forall i :: 0 <= i < |w| ==> now - config.windowSeconds < w[i] <= now
  {
    var ws := now - config.windowSeconds;
    var kept := Evict(entries, ws);
    SuffixOrdered(entries, Dropped(entries, ws), now);
    var w := kept + [now];
    assert w == WindowAfterHit(entries, config, now);
    forall i | 0 <= i < |kept|
      ensures ws < kept[i]
    {
      assert kept[0] <= kept[i];
    }
    forall i, j | 0 <= i < j < |w|
      ensures w[i] <= w[j]
    {
      if j < |kept| {
        assert w[i] == kept[i] && w[j] == kept[j];
      }
    }
  }

  /** A suffix of a sorted, bounded window is sorted and bounded. */
  lemma SuffixOrdered(s: seq<int>, d: nat, bound: int)
    requires d <= |s| && Sorted(s)
    requires forall i :: 0 <= i < |s| ==> s[i] <= bound
    ensures Sorted(s[d..]) && forall i :: 0 <= i < |s| - d ==> s[d..][i] <= bound
  {
    forall i | 0 <= i < |s| - d
      ensures s[d..][i] == s[d + i]
    {
    }
  }

  /** The invariant the limiter keeps while the clock does not go backwards: every
      window is sorted and holds no timestamp later than the last `now`. */
  ghost predicate OrderedUpTo(windows: map<string, seq<int>>, now: int) {
    forall k :: k in windows ==>
      Sorted(windows[k]) && forall i :: 0 <= i < |windows[k]| ==> windows[k][i] <= now
  }

  lemma HitPreservesOrder(windows: map<string, seq<int>>, config: RateLimitConfig, identifier: string,
                          before: int, now: int)
    requires OrderedUpTo(windows, before) && before <= now
    requires config.windowSeconds > 0
    ensures OrderedUpTo(HitState(windows, config, identifier, now), now)
  {
    var key := Key(config, identifier);
    WindowAfterHitOrdered(WindowIn(windows, key), config, now);
  }

  /** With the clock moving forward, the reported reset lies after `now`. */
  lemma ResetAfterNow(windows: map<string, seq<int>>, config: RateLimitConfig, identifier: string, now: int)
    requires OrderedUpTo(windows, now)
    requires config.windowSeconds > 0
    ensures HitResult(windows, config, identifier, now).resetEpochMs > now * 1000
  {
    var key := Key(config, identifier);
    WindowAfterHitOrdered(WindowIn(windows, key), config, now);
  }

  /** The `popleft` loop of `hit`: drop timestamps from the front of the window while the
      oldest lies at or before `windowStart`. */
  method EvictExpired(entries: seq<int>, windowStart: int) returns (kept: seq<int>)
    ensures kept == Evict(entries, windowStart)
  {
    kept := entries;
    while kept != [] && kept[0] <= windowStart
      invariant Evict(kept, windowStart) == Evict(entries, windowStart)
      decreases |kept|
    {
      kept := kept[1..];
    }
    assert Dropped(kept, windowStart) == 0;
  }

  /** `InMemoryRateLimiter`: a map from key to the timestamps of its recent hits. */
  class InMemoryRateLimiter {
    var windows: map<string, seq<int>>

    constructor ()
      ensures windows == map[]
    {
      windows := map[];
    }

    /** `hit`: evict the timestamps at or before `now - window_seconds`, record `now`,
        and report the count, the verdict and the reset time. */
    method Hit(config: RateLimitConfig, identifier: string, now: int) returns (r: RateLimitResult)
      modifies this
      ensures windows == HitState(old(windows), config, identifier, now)
      ensures r == HitResult(old(windows), config, identifier, now)
    {
      var key := Key(config, identifier);
      var windowStart := now - config.windowSeconds;
      var entries := if key in windows then windows[key] else [];
      ghost var before, original := windows, entries;
      assert original == WindowIn(before, key);
      entries := EvictExpired(entries, windowStart);
      entries := entries + [now];
      assert entries == WindowAfterHit(original, config, now);
      windows := windows[key := entries];
      assert windows == HitState(before, config, identifier, now);
      var count := |entries|;
      var allowed := count <= config.amount;
      var reset := if entries != [] then (entries[0] + config.windowSeconds) * 1000
                   else (now + config.windowSeconds) * 1000;
      r := RateLimitResult(allowed, count, reset);
      assert r == RateLimitResult(|entries| <= config.amount, |entries|, ResetOf(entries, config, now));
    }
  }

  /** Three hits for one client with `amount=2, window=60`, all within one window: the first
      two pass, the third is refused and reports three hits and a positive reset time. */
  method ThreeHitsForOneClient(t0: int, t1: int, t2: int)
    returns (r1: RateLimitResult, r2: RateLimitResult, r3: RateLimitResult)
    requires 0 <= t0 <= t1 <= t2 < t0 + 60
    ensures r1.allowed && r2.allowed
    ensures !r3.allowed && r3.count == 3 && r3.resetEpochMs > 0
  {
    var limiter := new InMemoryRateLimiter();
    var config := RateLimitConfig(2, 60);
    var key := Key(config, "client");
    r1 := limiter.Hit(config, "client", t0);
    assert WindowIn(limiter.windows, key) == [t0];
    r2 := limiter.Hit(config, "client", t1);
    assert Dropped([t0], t1 - 60) == 0;
    assert WindowIn(limiter.windows, key) == [t0, t1];
    r3 := limiter.Hit(config, "client", t2);
    assert Dropped([t0, t1], t2 - 60) == 0;
    assert WindowIn(limiter.windows, key) == [t0, t1, t2];
  }
}
