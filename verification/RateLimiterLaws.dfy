/** What the pruning limiter decides after any history of calls. */
module RateLimiterLaws {
  import opened RateLimiter

  /** Clock readings lag the latest one by at most `d`; with `d` zero they never decrease. */
  ghost predicate LagAtMost(history: seq<Call>, d: real) {
    forall i, j | 0 <= i < j < |history| :: history[j].now >= history[i].now - d
  }

  lemma LagPrefix(history: seq<Call>, call: Call, d: real)
    requires LagAtMost(history + [call], d)
    ensures LagAtMost(history, d)
    ensures forall i | 0 <= i < |history| :: call.now >= history[i].now - d
  {
    var all := history + [call];
    forall i | 0 <= i < |history| ensures call.now >= history[i].now - d {
      assert all[|history|].now >= all[i].now - d;
    }
    forall i, j | 0 <= i < j < |history| ensures history[j].now >= history[i].now - d {
      assert all[j].now >= all[i].now - d;
    }
  }

  /** Splits a non-empty history into its last call and what came before. */
  lemma SplitLast(history: seq<Call>, d: real)
    requires history != [] && LagAtMost(history, d)
    ensures history == history[..|history| - 1] + [history[|history| - 1]]
    ensures LagAtMost(history[..|history| - 1], d)
    ensures forall i | 0 <= i < |history| - 1 :: history[|history| - 1].now >= history[i].now - d
  {
    assert history == history[..|history| - 1] + [history[|history| - 1]];
    LagPrefix(history[..|history| - 1], history[|history| - 1], d);
  }

  // ---- Arithmetic of the refill ----

  lemma GainMonotone(l: Limits, a: real, b: real)
    requires a <= b && l.refillRate >= 0.0
    ensures Gain(l, a) <= Gain(l, b)
  {
    GainSplit(l, 0.0, a, b);
    assert (b - a) * l.refillRate >= 0.0;
  }

  lemma GainStrict(l: Limits, a: real, b: real)
    requires a < b && l.refillRate > 0.0
    ensures Gain(l, a) < Gain(l, b)
  {
    GainSplit(l, 0.0, a, b);
    assert (b - a) * l.refillRate > 0.0;
  }

  lemma GainOfNothing(l: Limits)
    ensures Gain(l, 0.0) == 0.0
  {
  }

  /** The gain of a window is the sum of the gains of its two parts. */
  lemma GainSplit(l: Limits, start: real, mid: real, end: real)
    ensures Gain(l, end - start) == Gain(l, mid - start) + Gain(l, end - mid)
  {
  }

  /** The idle time in which `tokens` tokens accrue. */
  function TimeFor(l: Limits, tokens: real): real
    requires l.refillRate > 0.0
  {
    tokens / l.refillRate
  }

  lemma GainInTime(l: Limits, tokens: real)
    requires l.refillRate > 0.0
    ensures Gain(l, TimeFor(l, tokens)) == tokens
    ensures tokens > 0.0 ==> TimeFor(l, tokens) > 0.0
  {
  }

  lemma RefillKeepsNonNegative(l: Limits, b: Bucket, now: real)
    requires l.capacity >= 0.0 && l.refillRate >= 0.0 && b.tokens >= 0.0
    ensures Refilled(l, b, now).tokens >= 0.0
  {
    if now - b.last > 0.0 {
      GainMonotone(l, 0.0, now - b.last);
      GainOfNothing(l);
    }
    hide Gain;
  }

  /** No bucket ever holds more than the capacity. */
  lemma {:induction false} TokensBound(l: Limits, h: seq<Call>, key: string, prune: bool)
    ensures key in Buckets(l, h, prune) ==> Buckets(l, h, prune)[key].tokens <= l.capacity
  {
    if h != [] {
      TokensBound(l, h[..|h| - 1], key, prune);
    }
  }

  /** With non-decreasing readings no bucket was refilled after the latest call. */
  lemma {:induction false} LastIsPast(l: Limits, h: seq<Call>, key: string, now: real, prune: bool)
    requires LagAtMost(h, 0.0) && (forall i | 0 <= i < |h| :: h[i].now <= now)
    ensures key in Buckets(l, h, prune) ==> Buckets(l, h, prune)[key].last <= now
  {
    if h != [] {
      SplitLast(h, 0.0);
      LastIsPast(l, h[..|h| - 1], key, now, prune);
    }
  }

  // ---- Key isolation ----

  function Filter(history: seq<Call>, key: string): seq<Call> {
    if history == [] then []
    else
      var rest := Filter(history[..|history| - 1], key);
      if history[|history| - 1].key == key then rest + [history[|history| - 1]] else rest
  }

  /** Some call of the history came more than `ttl` after `last`. */
  ghost predicate OutlivedBy(history: seq<Call>, last: real, ttl: real) {
    exists i :: 0 <= i < |history| && history[i].now - last > ttl
  }

  ghost predicate SameBucket(l: Limits, history: seq<Call>, key: string) {
    var all, own := Buckets(l, history, true), Buckets(l, Filter(history, key), true);
    && (key in all ==> key in own && all[key] == own[key])
    && (key in own && key !in all ==> OutlivedBy(history, own[key].last, l.ttl))
  }

  lemma FilterStep(h: seq<Call>, call: Call, key: string)
    ensures Filter(h + [call], key) == if call.key == key then Filter(h, key) + [call] else Filter(h, key)
  {
    assert (h + [call])[..|h|] == h;
  }

  lemma OutlivedLonger(h: seq<Call>, call: Call, last: real, ttl: real)
    ensures OutlivedBy(h, last, ttl) || call.now - last > ttl ==> OutlivedBy(h + [call], last, ttl)
  {
    var all := h + [call];
    assert all[|h|] == call;
    if OutlivedBy(h, last, ttl) {
      var i :| 0 <= i < |h| && h[i].now - last > ttl;
      assert all[i] == h[i];
    }
  }

  /** A call is served from the same bucket whether or not the limiter saw the calls of other keys. */
  lemma SameBucketReady(l: Limits, h: seq<Call>, call: Call)
    requires SameBucket(l, h, call.key) && (forall i | 0 <= i < |h| :: call.now >= h[i].now)
    ensures ReadyAfter(l, h, call, true) == ReadyAfter(l, Filter(h, call.key), call, true)
  {
    hide Refilled;
    hide Buckets;
    hide Filter;
    var own := Buckets(l, Filter(h, call.key), true);
    if call.key in own && OutlivedBy(h, own[call.key].last, l.ttl) {
      var i :| 0 <= i < |h| && h[i].now - own[call.key].last > l.ttl;
      assert call.now - own[call.key].last > l.ttl;
    }
  }

  lemma IsolatedOwnCall(l: Limits, h: seq<Call>, call: Call)
    requires SameBucket(l, h, call.key) && (forall i | 0 <= i < |h| :: call.now >= h[i].now)
    ensures SameBucket(l, h + [call], call.key)
  {
    SameBucketReady(l, h, call);
    FilterStep(h, call, call.key);
    BucketsAfter(l, h, call, true);
    BucketsAfter(l, Filter(h, call.key), call, true);
    hide Buckets;
    hide Filter;
    hide ReadyAfter;
    hide Kept;
    hide Taken;
  }

  lemma IsolatedOtherCall(l: Limits, h: seq<Call>, call: Call, key: string)
    requires SameBucket(l, h, key) && call.key != key
    ensures SameBucket(l, h + [call], key)
  {
    FilterStep(h, call, key);
    BucketsAfter(l, h, call, true);
    var own := Buckets(l, Filter(h, key), true);
    if key in own {
      OutlivedLonger(h, call, own[key].last, l.ttl);
    }
    hide Buckets;
    hide Filter;
    hide ReadyAfter;
    hide Taken;
    hide OutlivedBy;
  }

  lemma {:induction false} IsolatedBuckets(l: Limits, history: seq<Call>, key: string)
    requires LagAtMost(history, 0.0)
    ensures SameBucket(l, history, key)
  {
    if history != [] {
      var h, call := history[..|history| - 1], history[|history| - 1];
      SplitLast(history, 0.0);
      IsolatedBuckets(l, h, key);
      hide SameBucket;
      if call.key == key {
        IsolatedOwnCall(l, h, call);
      } else {
        IsolatedOtherCall(l, h, call, key);
      }
    }
  }

  lemma IsolatedReady(l: Limits, history: seq<Call>, call: Call)
    requires LagAtMost(history + [call], 0.0)
    ensures ReadyAfter(l, history, call, true) == ReadyAfter(l, Filter(history, call.key), call, true)
  {
    LagPrefix(history, call, 0.0);
    IsolatedBuckets(l, history, call.key);
    SameBucketReady(l, history, call);
  }

  /**
   Key isolation. With clock readings that never decrease, a call gets the decision that it would get if the
   limiter had only ever seen the calls of its own key, although every call may delete other keys' buckets.
   This holds for any capacity, rate and ttl.
   */
  lemma {:induction false} KeyIsolation(l: Limits, history: seq<Call>, call: Call)
    requires LagAtMost(history + [call], 0.0)
    ensures DecideAfter(l, history, call, true) == DecideAfter(l, Filter(history, call.key), call, true)
  {
    IsolatedReady(l, history, call);
  }

  // ---- Pruning is invisible ----

  ghost predicate Synced(l: Limits, history: seq<Call>) {
    var pruned, full := Buckets(l, history, true), Buckets(l, history, false);
    && (forall k | k in pruned :: k in full && pruned[k] == full[k])
    && (forall k | k in full :: full[k].tokens >= 0.0)
    && (forall k | k in full && k !in pruned :: OutlivedBy(history, full[k].last, l.ttl))
  }

  /** An idle time of more than `ttl - d` fills a bucket completely. */
  lemma LongIdleFills(l: Limits, b: Bucket, now: real, d: real)
    requires l.capacity > 0.0 && l.refillRate >= 0.0 && Gain(l, l.ttl - d) >= l.capacity
    requires b.tokens >= 0.0 && now - b.last > l.ttl - d
    ensures Refilled(l, b, now) == Bucket(l.capacity, now)
  {
    hide Gain;
    GainOfNothing(l);
    if l.ttl - d <= 0.0 {
      GainMonotone(l, l.ttl - d, 0.0);
    }
    GainMonotone(l, l.ttl - d, now - b.last);
  }

  lemma SameReady(l: Limits, history: seq<Call>, call: Call, d: real)
    requires l.capacity > 0.0 && l.refillRate >= 0.0 && Gain(l, l.ttl - d) >= l.capacity
    requires Synced(l, history) && LagAtMost(history + [call], d) && d >= 0.0
    ensures ReadyAfter(l, history, call, true) == ReadyAfter(l, history, call, false)
    ensures ReadyAfter(l, history, call, false).tokens >= 0.0
  {
    hide Gain;
    LagPrefix(history, call, d);
    var pruned, full := Buckets(l, history, true), Buckets(l, history, false);
    var kept := Kept(l, history, call.now, true);
    if call.key in full {
      var b := full[call.key];
      if call.key !in kept {
        if call.key !in pruned {
          var i :| 0 <= i < |history| && history[i].now - b.last > l.ttl;
          assert call.now >= history[i].now - d;
        }
        LongIdleFills(l, b, call.now, d);
      }
      RefillKeepsNonNegative(l, b, call.now);
    }
  }

  lemma SyncedStep(l: Limits, h: seq<Call>, call: Call)
    requires Synced(l, h) && ReadyAfter(l, h, call, true) == ReadyAfter(l, h, call, false)
    requires ReadyAfter(l, h, call, false).tokens >= 0.0
    ensures Synced(l, h + [call])
  {
    BucketsAfter(l, h, call, true);
    BucketsAfter(l, h, call, false);
    var full := Buckets(l, h, false);
    forall k | k in full {
      OutlivedLonger(h, call, full[k].last, l.ttl);
    }
    hide Buckets;
    hide ReadyAfter;
    hide OutlivedBy;
  }

  lemma {:induction false} SyncedAlways(l: Limits, history: seq<Call>, d: real)
    requires l.capacity > 0.0 && l.refillRate >= 0.0 && Gain(l, l.ttl - d) >= l.capacity
    requires LagAtMost(history, d) && d >= 0.0
    ensures Synced(l, history)
  {
    if history != [] {
      hide Gain;
      hide LagAtMost;
      var h, call := history[..|history| - 1], history[|history| - 1];
      SplitLast(history, d);
      SyncedAlways(l, h, d);
      hide Synced;
      SameReady(l, h, call, d);
      SyncedStep(l, h, call);
    }
  }

  /**
   Pruning is invisible, even with out-of-order clock readings: when they lag by at most `d` and an idle
   time of `ttl - d` fills a bucket, every decision, wait included, is that of a limiter that never prunes.
   */
  lemma {:induction false} PruningInvisible(l: Limits, history: seq<Call>, call: Call, d: real)
    requires l.capacity > 0.0 && l.refillRate >= 0.0 && Gain(l, l.ttl - d) >= l.capacity
    requires LagAtMost(history + [call], d) && d >= 0.0
    ensures DecideAfter(l, history, call, true) == DecideAfter(l, history, call, false)
  {
    hide Gain;
    LagPrefix(history, call, d);
    SyncedAlways(l, history, d);
    SameReady(l, history, call, d);
  }

  // ---- Key isolation with readings out of order ----

  /** Without pruning a key's bucket depends on its own calls only, whatever the readings. */
  lemma {:induction false} UnprunedIsolation(l: Limits, history: seq<Call>, key: string)
    ensures
      var all, own := Buckets(l, history, false), Buckets(l, Filter(history, key), false);
      (key in all <==> key in own) && (key in all ==> all[key] == own[key])
  {
    if history != [] {
      var h, call := history[..|history| - 1], history[|history| - 1];
      assert history == h + [call];
      UnprunedIsolation(l, h, key);
      FilterStep(h, call, key);
      BucketsAfter(l, h, call, false);
      BucketsAfter(l, Filter(h, key), call, false);
      hide Buckets;
      hide Filter;
      hide Refilled;
      hide Taken;
    }
  }

  lemma {:induction false} FilterLag(history: seq<Call>, key: string, now: real, d: real)
    requires LagAtMost(history, d) && forall i | 0 <= i < |history| :: now >= history[i].now - d
    ensures LagAtMost(Filter(history, key), d)
    ensures forall i | 0 <= i < |Filter(history, key)| :: now >= Filter(history, key)[i].now - d
  {
    if history != [] {
      var h, call := history[..|history| - 1], history[|history| - 1];
      SplitLast(history, d);
      FilterLag(h, key, call.now, d);
      FilterLag(h, key, now, d);
      FilterStep(h, call, key);
      hide Filter;
    }
  }

  /**
   Key isolation with readings that lag by at most `d`: under the condition that makes pruning invisible, a call
   again gets the decision that it would get if the limiter had only ever seen the calls of its own key.
   */
  lemma {:induction false} LaggedKeyIsolation(l: Limits, history: seq<Call>, call: Call, d: real)
    requires l.capacity > 0.0 && l.refillRate >= 0.0 && d >= 0.0 && Gain(l, l.ttl - d) >= l.capacity
    requires LagAtMost(history + [call], d)
    ensures DecideAfter(l, history, call, true) == DecideAfter(l, Filter(history, call.key), call, true)
  {
    hide Gain;
    hide Refilled;
    var own := Filter(history, call.key);
    LagPrefix(history, call, d);
    FilterLag(history, call.key, call.now, d);
    LagAppend(own, call, d);
    PruningInvisible(l, history, call, d);
    PruningInvisible(l, own, call, d);
    UnprunedIsolation(l, history, call.key);
    hide Filter;
    hide Buckets;
    hide LagAtMost;
  }

  lemma LagAppend(history: seq<Call>, call: Call, d: real)
    requires LagAtMost(history, d) && forall i | 0 <= i < |history| :: call.now >= history[i].now - d
    ensures LagAtMost(history + [call], d)
  {
  }
}
