/**
 The exact condition under which pruning can be observed: whenever an idle time of `ttl - d` does not fill a
 bucket, some sequence of calls with readings that lag by at most `d` is answered differently.
 */
module PruningExact {
  import opened RateLimiter
  import opened RateLimiterLaws

  /** Some continuation of a history is answered differently with and without pruning. */
  ghost predicate Observable(l: Limits, d: real) {
    exists history: seq<Call>, call: Call ::
      && LagAtMost(history + [call], d)
      && DecideAfter(l, history, call, true).allowed != DecideAfter(l, history, call, false).allowed
  }

  /** A later call with the same lag behind everything that came before. */
  lemma LagLater(history: seq<Call>, call: Call, later: Call, d: real)
    requires LagAtMost(history + [call], d) && later.now >= call.now && d >= 0.0
    ensures LagAtMost(history + [call] + [later], d)
    ensures LagAtMost(history + [later], d)
  {
    LagPrefix(history, call, d);
    LagAppend(history, later, d);
    LagAppend(history + [call], later, d);
  }

  /** The two limiters serve a call from different buckets. */
  ghost predicate Diverged(l: Limits, history: seq<Call>, call: Call) {
    var x, y := ReadyAfter(l, history, call, false), ReadyAfter(l, history, call, true);
    && x.tokens < y.tokens <= l.capacity
    && y.last <= x.last
    && call.now <= y.last
  }

  lemma ShowObservable(l: Limits, history: seq<Call>, call: Call, d: real)
    requires l.capacity > 0.0 && LagAtMost(history + [call], d)
    requires (ReadyAfter(l, history, call, true).tokens >= 1.0) != (ReadyAfter(l, history, call, false).tokens >= 1.0)
    ensures Observable(l, d)
  {
    assert DecideAfter(l, history, call, true).allowed != DecideAfter(l, history, call, false).allowed;
  }

  /** A second call at the same time is served from what the first one left. */
  lemma SameTimeReady(l: Limits, history: seq<Call>, call: Call, prune: bool)
    requires l.ttl >= 0.0 && call.now <= ReadyAfter(l, history, call, prune).last
    ensures ReadyAfter(l, history + [call], call, prune) == Taken(ReadyAfter(l, history, call, prune))
  {
    BucketsAfter(l, history, call, prune);
  }

  /** A difference in tokens can be turned into a difference in decisions. */
  lemma {:induction false} Distinguish(l: Limits, history: seq<Call>, call: Call, d: real)
    requires l.capacity >= 1.0 && l.refillRate >= 0.0 && l.ttl >= 0.0 && d >= 0.0
    requires LagAtMost(history + [call], d) && Diverged(l, history, call)
    ensures Observable(l, d)
    decreases
      var x := ReadyAfter(l, history, call, false).tokens;
      if x >= 1.0 then x.Floor else 0
  {
    var x, y := ReadyAfter(l, history, call, false), ReadyAfter(l, history, call, true);
    SameTimeReady(l, history, call, false);
    SameTimeReady(l, history, call, true);
    if x.tokens >= 1.0 {
      LagLater(history, call, call, d);
      Distinguish(l, history + [call], call, d);
    } else if y.tokens >= 1.0 {
      ShowObservable(l, history, call, d);
    } else {
      WaitToDistinguish(l, history, call, d);
    }
  }

  /** How long to wait until only the fuller of two buckets below one token serves a call. */
  function Wait(l: Limits, x: real, y: real): real
    requires l.refillRate >= 0.0
  {
    if l.refillRate == 0.0 then l.ttl + 1.0
    else if Gain(l, l.ttl) >= 1.0 - y then TimeFor(l, 1.0 - y)
    else l.ttl + TimeFor(l, (y - x) / 2.0)
  }

  lemma WaitSeparates(l: Limits, x: real, y: real)
    requires l.capacity >= 1.0 && l.refillRate >= 0.0 && l.ttl >= 0.0 && x < y < 1.0
    ensures
      var w := Wait(l, x, y);
      && w > 0.0
      && x + Gain(l, w) < 1.0
      && (w > l.ttl || y + Gain(l, w) >= 1.0)
  {
    var w := Wait(l, x, y);
    if l.refillRate == 0.0 {
      NoGain(l, w);
    } else {
      hide Gain;
      hide TimeFor;
      GainInTime(l, 1.0 - y);
      GainInTime(l, (y - x) / 2.0);
      GainSplit(l, 0.0, l.ttl, w);
    }
  }

  lemma PoorStaysPoor(l: Limits, x: Bucket, now: real, w: real)
    requires l.refillRate >= 0.0 && w > 0.0 && now - x.last <= w
    requires x.tokens < 1.0 && x.tokens + Gain(l, w) < 1.0
    ensures Refilled(l, x, now).tokens < 1.0
  {
    hide Gain;
    if now - x.last > 0.0 {
      GainMonotone(l, now - x.last, w);
    }
  }

  lemma RichServes(l: Limits, y: Bucket, w: real)
    requires l.capacity >= 1.0 && w > 0.0
    ensures y.tokens + Gain(l, w) >= 1.0 ==> Refilled(l, y, y.last + w).tokens >= 1.0
  {
    hide Gain;
    assert y.last + w - y.last == w;
  }

  lemma FreshIsFull(l: Limits, now: real)
    ensures Refilled(l, Bucket(l.capacity, now), now) == Bucket(l.capacity, now)
  {
  }

  /** The bucket that serves the next call of a key whose last call was rejected. */
  lemma ReadyLater(l: Limits, history: seq<Call>, call: Call, later: Call, prune: bool)
    requires later.key == call.key && ReadyAfter(l, history, call, prune).tokens < 1.0
    ensures
      var b := ReadyAfter(l, history, call, prune);
      ReadyAfter(l, history + [call], later, prune)
      == Refilled(l, if prune && later.now - b.last > l.ttl then Bucket(l.capacity, later.now) else b, later.now)
  {
    hide Refilled;
    BucketsAfter(l, history, call, prune);
  }

  /** After a separating wait, only the limiter that prunes serves the next call. */
  lemma OnlyPrunedServes(l: Limits, history: seq<Call>, call: Call, later: Call, w: real)
    requires l.capacity >= 1.0 && l.refillRate >= 0.0 && w > 0.0 && later.key == call.key
    requires Diverged(l, history, call) && ReadyAfter(l, history, call, true).tokens < 1.0
    requires later.now == ReadyAfter(l, history, call, true).last + w
    requires ReadyAfter(l, history, call, false).tokens + Gain(l, w) < 1.0
    requires w > l.ttl || ReadyAfter(l, history, call, true).tokens + Gain(l, w) >= 1.0
    ensures ReadyAfter(l, history + [call], later, false).tokens < 1.0
    ensures ReadyAfter(l, history + [call], later, true).tokens >= 1.0
  {
    hide Refilled;
    var x, y := ReadyAfter(l, history, call, false), ReadyAfter(l, history, call, true);
    ReadyLater(l, history, call, later, false);
    ReadyLater(l, history, call, later, true);
    PoorStaysPoor(l, x, later.now, w);
    RichServes(l, y, w);
    FreshIsFull(l, later.now);
  }

  lemma WaitToDistinguish(l: Limits, history: seq<Call>, call: Call, d: real)
    requires l.capacity >= 1.0 && l.refillRate >= 0.0 && l.ttl >= 0.0 && d >= 0.0
    requires LagAtMost(history + [call], d) && Diverged(l, history, call)
    requires ReadyAfter(l, history, call, true).tokens < 1.0
    ensures Observable(l, d)
  {
    hide Wait;
    hide ReadyAfter;
    var x, y := ReadyAfter(l, history, call, false), ReadyAfter(l, history, call, true);
    var w := Wait(l, x.tokens, y.tokens);
    WaitSeparates(l, x.tokens, y.tokens);
    var later := Call(call.key, y.last + w);
    LagLater(history, call, later, d);
    OnlyPrunedServes(l, history, call, later, w);
    ShowObservable(l, history + [call], later, d);
  }

  // ---- Reaching a divergence ----

  function Burst(key: string, n: nat): (calls: seq<Call>)
    ensures |calls| == n
  {
    seq(n, _ => Call(key, 0.0))
  }

  /** `n` calls at time zero empty a bucket down to `capacity - n`. */
  lemma {:induction false} Drained(l: Limits, key: string, n: nat, prune: bool)
    requires l.capacity >= n as real && n > 0 && l.ttl >= 0.0
    ensures Buckets(l, Burst(key, n), prune) == map[key := Bucket(l.capacity - n as real, 0.0)]
  {
    var before, call := Burst(key, n - 1), Call(key, 0.0);
    assert Burst(key, n) == before + [call];
    BucketsAfter(l, before, call, prune);
    if n > 1 {
      Drained(l, key, n - 1, prune);
    }
    assert Buckets(l, Burst(key, n), prune).Keys == {key};
  }

  /** Both limiters hold the same bucket for a key, and no call came after its last refill. */
  ghost predicate Settled(l: Limits, history: seq<Call>, key: string, b: Bucket, d: real) {
    && LagAtMost(history, d)
    && (forall i | 0 <= i < |history| :: history[i].now <= b.last)
    && (forall prune: bool :: key in Buckets(l, history, prune) && Buckets(l, history, prune)[key] == b)
  }

  /** An idle time just above `ttl`, short enough not to fill a bucket with `tokens` tokens. */
  function Excess(l: Limits, tokens: real, d: real): real
    requires l.refillRate >= 0.0
  {
    if l.refillRate == 0.0 then 1.0
    else TimeFor(l, (l.capacity - tokens - Gain(l, l.ttl - d)) / 2.0)
  }

  lemma NoGain(l: Limits, idle: real)
    requires l.refillRate == 0.0
    ensures Gain(l, idle) == 0.0
  {
    assert idle * 0.0 == 0.0;
  }

  lemma ExcessIsSmall(l: Limits, b: Bucket, d: real)
    requires l.refillRate >= 0.0 && b.tokens + Gain(l, l.ttl - d) < l.capacity && b.tokens < l.capacity
    ensures Excess(l, b.tokens, d) > 0.0
    ensures Refilled(l, b, b.last + (l.ttl + Excess(l, b.tokens, d) - d)).tokens < l.capacity
  {
    var e := Excess(l, b.tokens, d);
    var idle := l.ttl + e - d;
    if l.refillRate == 0.0 {
      NoGain(l, idle);
      NoGain(l, l.ttl - d);
    } else {
      GainInTime(l, (l.capacity - b.tokens - Gain(l, l.ttl - d)) / 2.0);
      hide TimeFor;
      hide Gain;
      GainSplit(l, d, l.ttl, l.ttl + e);
      assert l.ttl + e - l.ttl == e;
    }
    assert b.tokens + Gain(l, idle) < l.capacity;
    hide Gain;
    assert b.last + idle - b.last == idle;
  }

  /** A call of another key prunes the settled bucket; the next call of its own key is then served from a full one. */
  lemma PrunedByOther(l: Limits, h: seq<Call>, key: string, b: Bucket, other: Call, call: Call, d: real)
    requires Settled(l, h, key, b, d) && other.key != key && call.key == key
    requires other.now - b.last > l.ttl
    ensures ReadyAfter(l, h + [other], call, true) == Refilled(l, Bucket(l.capacity, call.now), call.now)
    ensures ReadyAfter(l, h + [other], call, false) == Refilled(l, b, call.now)
  {
    hide Refilled;
    BucketsAfter(l, h, other, true);
    BucketsAfter(l, h, other, false);
    assert key in Buckets(l, h, true) && Buckets(l, h, true)[key] == b;
    assert key in Buckets(l, h, false) && Buckets(l, h, false)[key] == b;
  }

  lemma DivergeByPruning(l: Limits, h: seq<Call>, key: string, b: Bucket, d: real)
    requires l.capacity >= 1.0 && l.refillRate >= 0.0 && l.ttl >= 0.0 && d >= 0.0
    requires Settled(l, h, key, b, d) && b.tokens < 1.0
    requires b.tokens + Gain(l, l.ttl - d) < l.capacity
    ensures Observable(l, d)
  {
    hide Excess;
    var e := Excess(l, b.tokens, d);
    ExcessIsSmall(l, b, d);
    var other := Call(key + "'", b.last + l.ttl + e);
    var call := Call(key, b.last + (l.ttl + e - d));
    PrunedByOther(l, h, key, b, other, call, d);
    assert LagAtMost(h + [other] + [call], d) by {
      LagAppend(h, other, d);
      LagAppend(h + [other], call, d);
    }
    Distinguish(l, h + [other], call, d);
  }

  lemma RefillToOne(l: Limits, b: Bucket, w: real)
    requires l.capacity >= 1.0 && w > 0.0 && b.tokens + Gain(l, w) == 1.0
    ensures Refilled(l, b, b.last + w) == Bucket(1.0, b.last + w)
  {
    hide Gain;
    assert b.last + w - b.last == w;
  }

  /** One more call when the bucket holds exactly one token leaves it empty. */
  lemma TakeLastToken(l: Limits, h: seq<Call>, key: string, b: Bucket, d: real, w: real)
    requires l.capacity >= 1.0 && d >= 0.0
    requires Settled(l, h, key, b, d) && w > 0.0 && w <= l.ttl && b.tokens + Gain(l, w) == 1.0
    ensures Settled(l, h + [Call(key, b.last + w)], key, Bucket(0.0, b.last + w), d)
  {
    var call := Call(key, b.last + w);
    LagAppend(h, call, d);
    assert call.now - b.last == w;
    RefillToOne(l, b, w);
    hide Refilled;
    forall prune: bool
      ensures key in Buckets(l, h + [call], prune)
      ensures Buckets(l, h + [call], prune)[key] == Bucket(0.0, b.last + w)
    {
      assert key in Buckets(l, h, prune) && Buckets(l, h, prune)[key] == b;
      BucketsAfter(l, h, call, prune);
    }
  }

  lemma BurstSettled(l: Limits, key: string, n: nat, d: real)
    requires l.capacity >= n as real && n > 0 && l.ttl >= 0.0 && d >= 0.0
    ensures Settled(l, Burst(key, n), key, Bucket(l.capacity - n as real, 0.0), d)
  {
    Drained(l, key, n, true);
    Drained(l, key, n, false);
  }

  lemma RateIsPositive(l: Limits, idle: real)
    requires l.refillRate >= 0.0 && Gain(l, idle) > 0.0
    ensures l.refillRate > 0.0
  {
  }

  /** When an idle time of `ttl - d` does not fill a bucket, pruning can be observed. */
  lemma {:induction false} PruningObserved(l: Limits, d: real)
    requires l.capacity >= 1.0 && l.refillRate >= 0.0 && l.ttl >= 0.0 && d >= 0.0
    requires Gain(l, l.ttl - d) < l.capacity
    ensures Observable(l, d)
  {
    var n := l.capacity.Floor;
    var b := Bucket(l.capacity - n as real, 0.0);
    BurstSettled(l, "a", n, d);
    if b.tokens + Gain(l, l.ttl - d) < l.capacity {
      DivergeByPruning(l, Burst("a", n), "a", b, d);
    } else {
      RateIsPositive(l, l.ttl - d);
      var w := TimeFor(l, 1.0 - b.tokens);
      FillTime(l, b.tokens, d);
      TakeLastToken(l, Burst("a", n), "a", b, d, w);
      DivergeByPruning(l, Burst("a", n) + [Call("a", w)], "a", Bucket(0.0, w), d);
    }
  }

  /** When `ttl - d` gains at least one token, the missing part of a token accrues within `ttl`. */
  lemma FillTime(l: Limits, tokens: real, d: real)
    requires l.refillRate > 0.0 && d >= 0.0 && 0.0 <= tokens < 1.0 && Gain(l, l.ttl - d) >= 1.0
    ensures
      var w := TimeFor(l, 1.0 - tokens);
      0.0 < w <= l.ttl && tokens + Gain(l, w) == 1.0
  {
    hide Gain;
    hide TimeFor;
    var w := TimeFor(l, 1.0 - tokens);
    GainInTime(l, 1.0 - tokens);
    if w > l.ttl - d {
      GainStrict(l, l.ttl - d, w);
    }
  }

  /**
   Exactly when pruning is invisible. For clock readings that lag by at most `d` (none at all for `d` zero),
   a limiter with a positive capacity answers every sequence of calls like one that never prunes if and only
   if it admits nothing anyway or an idle time of `ttl - d` fills a bucket.
   */
  lemma {:induction false} PruningInvisibleExactly(l: Limits, d: real)
    requires l.capacity > 0.0 && l.refillRate >= 0.0 && l.ttl >= 0.0 && d >= 0.0
    ensures !Observable(l, d) <==> l.capacity < 1.0 || Gain(l, l.ttl - d) >= l.capacity
  {
    if l.capacity >= 1.0 && Gain(l, l.ttl - d) < l.capacity {
      PruningObserved(l, d);
    } else if Observable(l, d) {
      var history: seq<Call>, call: Call :|
        && LagAtMost(history + [call], d)
        && DecideAfter(l, history, call, true).allowed != DecideAfter(l, history, call, false).allowed;
      if l.capacity < 1.0 {
        NothingAdmitted(l, history, call, true);
        NothingAdmitted(l, history, call, false);
      } else {
        PruningInvisible(l, history, call, d);
      }
    }
  }

  lemma NothingAdmitted(l: Limits, history: seq<Call>, call: Call, prune: bool)
    requires 0.0 < l.capacity < 1.0
    ensures !DecideAfter(l, history, call, prune).allowed
  {
    BucketsAfter(l, history, call, prune);
    TokensBound(l, history, call.key, prune);
  }

  /** What the flags mean: tokens per minute, up to the burst, in buckets that live for ten minutes. */
  lemma {:induction false} ConfiguredLimits(burst: real, perMinute: real, minutes: real)
    ensures NewLimits(burst, perMinute).capacity == burst && NewLimits(burst, perMinute).ttl == 600.0
    ensures Gain(NewLimits(burst, perMinute), 60.0 * minutes) == perMinute * minutes
  {
    var rate := perMinute / 60.0;
    assert rate * 60.0 == perMinute;
    assert 60.0 * minutes * rate == (rate * 60.0) * minutes;
  }

  /** Hence a configured burst is safe exactly when ten minutes fill it, or if it admits nothing anyway. */
  lemma {:induction false} ConfiguredInvisible(burst: real, perMinute: real)
    requires burst > 0.0 && perMinute >= 0.0
    ensures !Observable(NewLimits(burst, perMinute), 0.0) <==> burst < 1.0 || 10.0 * perMinute >= burst
  {
    var l := NewLimits(burst, perMinute);
    ConfiguredLimits(burst, perMinute, 10.0);
    assert l.ttl - 0.0 == 60.0 * 10.0;
    PruningInvisibleExactly(l, 0.0);
  }

  /** The default limits (burst 5, 10 per minute) are on the invisible side exactly for lags up to 9.5 minutes. */
  lemma {:induction false} DefaultsInvisible(d: real)
    requires 0.0 <= d
    ensures !Observable(NewLimits(5.0, 10.0), d) <==> d <= 570.0
  {
    var l := NewLimits(5.0, 10.0);
    ConfiguredLimits(5.0, 10.0, (l.ttl - d) / 60.0);
    assert 60.0 * ((l.ttl - d) / 60.0) == l.ttl - d;
    PruningInvisibleExactly(l, d);
  }
}
