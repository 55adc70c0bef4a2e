/**
 The per-client token-bucket limiter of api/ratelimit.go. Tokens and times (in seconds) are exact reals; a
 `Duration` is an integer number of nanoseconds, truncated as the code does.
 */
module RateLimiter {
  import opened Wrappers

  datatype Bucket = Bucket(tokens: real, last: real)

  datatype Limits = Limits(capacity: real, refillRate: real, ttl: real)

  /** `retryAfter` is in nanoseconds. */
  datatype Decision = Decision(allowed: bool, retryAfter: int)

  const SECOND := 1_000_000_000
  const SECOND_REAL := 1000000000.0

  /** Idle buckets live for ten minutes. */
  const DEFAULT_TTL := 600.0

  function NewLimits(burst: real, perMinute: real): Limits {
    Limits(burst, perMinute / 60.0, DEFAULT_TTL)
  }

  function MinF(a: real, b: real): real {
    if a < b then a else b
  }

  /** Conversion of a float to a `Duration`: truncation toward zero. */
  function Truncate(x: real): int {
    if x >= 0.0 then x.Floor else -(-x).Floor
  }

  /** How long a client with fewer than one token is told to wait. */
  function RetryAfter(l: Limits, tokens: real): int {
    if l.refillRate > 0.0 then Truncate((1.0 - tokens) / l.refillRate * SECOND_REAL) + SECOND else 0
  }

  /** The `Retry-After` header: whole seconds, sent only for a positive wait (api/server.go, api/agent.go). */
  function RetryHeader(d: Decision): Option<int> {
    if d.retryAfter > 0 then Some(d.retryAfter / SECOND) else None
  }

  /** The buckets that survive a call at time `now`. */
  function Pruned(buckets: map<string, Bucket>, ttl: real, now: real): map<string, Bucket> {
    map k | k in buckets && !(now - buckets[k].last > ttl) :: buckets[k]
  }

  /** Tokens that accrue in an idle time. */
  function Gain(l: Limits, idle: real): real {
    idle * l.refillRate
  }

  /** Lazy refill; a clock reading that is not later than the last one changes nothing. */
  function Refilled(l: Limits, b: Bucket, now: real): Bucket {
    if now - b.last > 0.0 then Bucket(MinF(l.capacity, b.tokens + Gain(l, now - b.last)), now) else b
  }

  /** The bucket from which a call at time `now` is served. */
  function Ready(l: Limits, buckets: map<string, Bucket>, key: string, now: real): Bucket {
    Refilled(l, if key in buckets then buckets[key] else Bucket(l.capacity, now), now)
  }

  function Verdict(l: Limits, b: Bucket): Decision {
    if b.tokens >= 1.0 then Decision(true, 0) else Decision(false, RetryAfter(l, b.tokens))
  }

  function Taken(b: Bucket): Bucket {
    if b.tokens >= 1.0 then b.(tokens := b.tokens - 1.0) else b
  }

  // ---- Histories ----

  // A history is the list of earlier calls in the order in which they got the lock; because the clock is
  // read before the lock is taken, the readings may be out of order.
  datatype Call = Call(key: string, now: real)

  /** The buckets after a history; with `prune` false, those of a limiter that never deletes a bucket. */
  function Buckets(l: Limits, history: seq<Call>, prune: bool): map<string, Bucket>
    decreases history, 0
  {
    if history == [] then map[]
    else
      var call := history[|history| - 1];
      var kept := Kept(l, history[..|history| - 1], call.now, prune);
      kept[call.key := Taken(Ready(l, kept, call.key, call.now))]
  }

  /** The buckets that a call at time `now` finds after pruning. */
  function Kept(l: Limits, history: seq<Call>, now: real, prune: bool): map<string, Bucket>
    decreases history, 1
  {
    var buckets := Buckets(l, history, prune);
    if prune then Pruned(buckets, l.ttl, now) else buckets
  }

  /** The bucket that serves a call made after a history. */
  function ReadyAfter(l: Limits, history: seq<Call>, call: Call, prune: bool): Bucket {
    Ready(l, Kept(l, history, call.now, prune), call.key, call.now)
  }

  /** A capacity of at most zero disables the limiter. */
  function DecideAfter(l: Limits, history: seq<Call>, call: Call, prune: bool): Decision {
    if l.capacity <= 0.0 then Decision(true, 0) else Verdict(l, ReadyAfter(l, history, call, prune))
  }

  lemma BucketsAfter(l: Limits, history: seq<Call>, call: Call, prune: bool)
    ensures Buckets(l, history + [call], prune)
            == Kept(l, history, call.now, prune)[call.key := Taken(ReadyAfter(l, history, call, prune))]
  {
    assert (history + [call])[..|history|] == history;
  }

  /** One more call of the limiter that prunes, in terms of the buckets that it finds. */
  lemma PruningCall(l: Limits, history: seq<Call>, call: Call)
    ensures
      var kept := Pruned(Buckets(l, history, true), l.ttl, call.now);
      && ReadyAfter(l, history, call, true) == Ready(l, kept, call.key, call.now)
      && Buckets(l, history + [call], true) == kept[call.key := Taken(Ready(l, kept, call.key, call.now))]
  {
    BucketsAfter(l, history, call, true);
    hide Ready;
    hide Taken;
  }

  class Limiter {
    const limits: Limits
    var buckets: map<string, Bucket>
    ghost var history: seq<Call>

    ghost predicate Valid()
      reads this
    {
      buckets == Buckets(limits, history, true)
    }

    constructor (limits: Limits)
      ensures this.limits == limits && history == [] && Valid()
    {
      this.limits := limits;
      buckets, history := map[], [];
    }

    /** `pruneLocked`: afterwards every bucket was refilled within `ttl`. */
    method PruneLocked(now: real)
      modifies this`buckets
      ensures buckets == Pruned(old(buckets), limits.ttl, now)
      ensures forall k | k in old(buckets) :: k in buckets <==> now - old(buckets)[k].last <= limits.ttl
      ensures forall k | k in buckets :: k in old(buckets) && buckets[k] == old(buckets)[k]
    {
      var before := buckets;
      var todo := buckets.Keys;
      while todo != {}
        invariant todo <= before.Keys
        invariant forall k :: k in buckets <==> k in before && (k in todo || !(now - before[k].last > limits.ttl))
        invariant forall k | k in buckets :: buckets[k] == before[k]
        decreases todo
      {
        var k :| k in todo;
        if now - before[k].last > limits.ttl {
          buckets := buckets - {k};
        }
        todo := todo - {k};
      }
    }

    /** The lazy refill inside `Allow`. */
    method Refill(b: Bucket, now: real) returns (r: Bucket)
      ensures r == Refilled(limits, b, now)
    {
      r := b;
      var elapsed := now - b.last;
      if elapsed > 0.0 {
        r := Bucket(MinF(limits.capacity, b.tokens + elapsed * limits.refillRate), now);
      }
    }

    /** The end of `Allow`: stores the refilled bucket, one token less if the call is admitted. */
    method TakeToken(key: string, b: Bucket) returns (d: Decision)
      modifies this`buckets
      ensures d == Verdict(limits, b)
      ensures buckets == old(buckets)[key := Taken(b)]
    {
      if b.tokens >= 1.0 {
        buckets := buckets[key := b.(tokens := b.tokens - 1.0)];
        return Decision(true, 0);
      }
      buckets := buckets[key := b];
      var deficit := 1.0 - b.tokens;
      var retry := 0;
      if limits.refillRate > 0.0 {
        retry := Truncate(deficit / limits.refillRate * SECOND_REAL) + SECOND;
      }
      return Decision(false, retry);
    }

    /** What `Allow` does under the lock. */
    method AllowLocked(key: string, now: real) returns (d: Decision)
      modifies this`buckets
      ensures var kept := Pruned(old(buckets), limits.ttl, now);
              var ready := Ready(limits, kept, key, now);
              && d == Verdict(limits, ready)
              && buckets == kept[key := Taken(ready)]
      ensures forall k | k in old(buckets) && k != key :: k in buckets <==> now - old(buckets)[k].last <= limits.ttl
      ensures forall k | k in buckets && k != key :: k in old(buckets) && buckets[k] == old(buckets)[k]
    {
      hide Pruned;
      hide Refilled;
      hide Verdict;
      hide Taken;
      PruneLocked(now);
      var b := if key in buckets then buckets[key] else Bucket(limits.capacity, now);
      b := Refill(b, now);
      d := TakeToken(key, b);
    }

    /** `Allow`, at the clock reading `now` that was taken before the lock. */
    method Allow(key: string, now: real) returns (d: Decision)
      requires Valid()
      modifies this
      ensures Valid()
      ensures d == DecideAfter(limits, old(history), Call(key, now), true)
      ensures limits.capacity <= 0.0 ==> buckets == old(buckets) && history == old(history)
      ensures limits.capacity > 0.0 ==>
                && history == old(history) + [Call(key, now)]
                && key in buckets
                && (forall k | k in old(buckets) && k != key ::
                      k in buckets <==> now - old(buckets)[k].last <= limits.ttl)
                && (forall k | k in buckets && k != key :: k in old(buckets) && buckets[k] == old(buckets)[k])
    {
      if limits.capacity <= 0.0 {
        return Decision(true, 0);
      }
      PruningCall(limits, history, Call(key, now));
      hide Buckets;
      hide ReadyAfter;
      hide Ready;
      hide Pruned;
      hide Verdict;
      hide Taken;
      d := AllowLocked(key, now);
      history := history + [Call(key, now)];
    }
  }
}
