/** The announced wait (delay-seconds, section 10.2.3 of RFC 9110) is enough and nearly tight. */
module RetryLaws {
  import opened RateLimiter
  import opened RateLimiterLaws

  /** The exact wait until a bucket with fewer than one token holds one. */
  function ExactWait(l: Limits, tokens: real): real
    requires l.refillRate > 0.0
  {
    TimeFor(l, 1.0 - tokens)
  }

  lemma WaitRefills(l: Limits, tokens: real, wait: real)
    requires l.refillRate > 0.0
    ensures wait >= ExactWait(l, tokens) <==> tokens + Gain(l, wait) >= 1.0
  {
    hide Gain;
    hide TimeFor;
    var exact := ExactWait(l, tokens);
    GainInTime(l, 1.0 - tokens);
    if wait >= exact {
      GainMonotone(l, exact, wait);
    } else {
      GainStrict(l, wait, exact);
    }
  }

  /** Both truncations together round a positive wait down to whole seconds, and then one second is added. */
  lemma {:induction false} WholeSeconds(wait: real)
    requires wait > 0.0
    ensures
      var header := (Truncate(wait * SECOND_REAL) + SECOND) / SECOND;
      header as real - 1.0 <= wait < header as real
  {
    var nanos := (wait * SECOND_REAL).Floor;
    var m, r := nanos / SECOND, nanos % SECOND;
    assert nanos == m * SECOND + r;
    assert (nanos + SECOND) / SECOND == m + 1;
    assert nanos as real <= wait * SECOND_REAL < nanos as real + 1.0;
    assert nanos as real == m as real * SECOND_REAL + r as real;
  }

  /** The conversion to a duration cuts off the fraction, on either side of zero. */
  lemma {:induction false} TowardZero(x: real)
    ensures x >= 0.0 ==> Truncate(x) as real <= x < Truncate(x) as real + 1.0
    ensures Truncate(-x) == -Truncate(x)
  {
    if x < 0.0 {
      assert -(-x) == x;
    } else if x == 0.0 {
      assert Truncate(0.0) == 0;
    }
  }

  lemma HeaderBounds(l: Limits, b: Bucket)
    requires l.refillRate > 0.0 && b.tokens < 1.0
    ensures
      var header := RetryHeader(Verdict(l, b));
      && header.Some?
      && header.value as real - 1.0 <= ExactWait(l, b.tokens) < header.value as real
  {
    var wait := ExactWait(l, b.tokens);
    assert wait > 0.0 by {
      GainOfNothing(l);
      WaitRefills(l, b.tokens, 0.0);
    }
    WholeSeconds(wait);
  }

  /** What a bucket that was refilled at `b.last` decides later, with no call on its key in between. */
  lemma LaterVerdict(l: Limits, buckets: map<string, Bucket>, key: string, now: real)
    requires l.refillRate > 0.0 && key in buckets && buckets[key].tokens < 1.0 && buckets[key].last <= now
    requires buckets[key].tokens <= l.capacity
    ensures
      var b := buckets[key];
      var ready := Ready(l, Pruned(buckets, l.ttl, now), key, now);
      ready.tokens >= 1.0 <==> l.capacity >= 1.0 && (now - b.last > l.ttl || now - b.last >= ExactWait(l, b.tokens))
  {
    hide Gain;
    hide ExactWait;
    GainOfNothing(l);
    var b := buckets[key];
    WaitRefills(l, b.tokens, now - b.last);
  }

  lemma {:induction false} FilterConcat(a: seq<Call>, b: seq<Call>, key: string)
    ensures Filter(a + b, key) == Filter(a, key) + Filter(b, key)
  {
    if b == [] {
      assert a + b == a;
    } else {
      assert (a + b)[..|a + b| - 1] == a + b[..|b| - 1];
      FilterConcat(a, b[..|b| - 1], key);
    }
  }

  lemma {:induction false} FilterOthers(calls: seq<Call>, key: string)
    requires forall i | 0 <= i < |calls| :: calls[i].key != key
    ensures Filter(calls, key) == []
  {
    if calls != [] {
      FilterOthers(calls[..|calls| - 1], key);
    }
  }

  lemma OwnCalls(history: seq<Call>, call: Call, others: seq<Call>)
    requires forall i | 0 <= i < |others| :: others[i].key != call.key
    ensures Filter(history + [call] + others, call.key) == Filter(history, call.key) + [call]
  {
    FilterConcat(history + [call], others, call.key);
    FilterConcat(history, [call], call.key);
    FilterOthers(others, call.key);
    assert [call][..0] == [];
  }

  /** A rejected call leaves a bucket that was refilled at the time of the call. */
  lemma RejectedBucket(l: Limits, own: seq<Call>, call: Call)
    requires LagAtMost(own, 0.0) && (forall i | 0 <= i < |own| :: own[i].now <= call.now)
    requires ReadyAfter(l, own, call, true).tokens < 1.0
    ensures
      var buckets := Buckets(l, own + [call], true);
      && call.key in buckets
      && buckets[call.key] == ReadyAfter(l, own, call, true)
      && buckets[call.key].last == call.now
      && buckets[call.key].tokens <= l.capacity
  {
    BucketsAfter(l, own, call, true);
    LastIsPast(l, own, call.key, call.now, true);
    TokensBound(l, own + [call], call.key, true);
  }

  /**
   Retry-After is enough and nearly tight. A rejected client that comes back after the announced number of
   seconds, with calls of other clients but none of its own in between, is admitted exactly when the capacity
   is at least one token; the announced value exceeds the exact wait by at most one second; and a client that
   comes back before the exact wait (and before its bucket is pruned) is rejected again.
   */
  lemma {:induction false} RetryAfterIsEnough(l: Limits, history: seq<Call>, call: Call, others: seq<Call>, again: Call)
    requires l.refillRate > 0.0
    requires !DecideAfter(l, history, call, true).allowed
    requires again.key == call.key && (forall i | 0 <= i < |others| :: others[i].key != call.key)
    requires LagAtMost(history + [call] + others + [again], 0.0)
    ensures
      var header := RetryHeader(DecideAfter(l, history, call, true));
      var exact := ExactWait(l, ReadyAfter(l, history, call, true).tokens);
      var later := DecideAfter(l, history + [call] + others, again, true);
      && header.Some?
      && header.value as real - 1.0 <= exact < header.value as real
      && (again.now >= call.now + header.value as real ==> (later.allowed <==> l.capacity >= 1.0))
      && (again.now - call.now < exact && again.now - call.now <= l.ttl ==> !later.allowed)
  {
    var all := history + [call] + others;
    LagPrefix(all, again, 0.0);
    assert all[|history|] == call;
    EarlierPart(history + [call], others, 0.0);
    LagPrefix(history, call, 0.0);
    IsolatedReady(l, history, call);
    IsolatedReady(l, all, again);
    OwnCalls(history, call, others);
    var own := Filter(history, call.key);
    FilterLag(history, call.key, call.now, 0.0);
    RejectedBucket(l, own, call);
    HeaderBounds(l, ReadyAfter(l, own, call, true));
    LaterVerdict(l, Buckets(l, own + [call], true), call.key, again.now);
  }

  /** A wait is announced exactly to a rejected client for whom tokens accrue at all. */
  lemma {:induction false} HeaderOnlyWhenUseful(l: Limits, history: seq<Call>, call: Call, prune: bool)
    ensures
      var d := DecideAfter(l, history, call, prune);
      RetryHeader(d).Some? <==> !d.allowed && l.refillRate > 0.0
  {
    var b := ReadyAfter(l, history, call, prune);
    if l.refillRate > 0.0 && b.tokens < 1.0 {
      HeaderBounds(l, b);
    }
    hide ReadyAfter;
  }

  lemma EarlierPart(a: seq<Call>, b: seq<Call>, d: real)
    requires LagAtMost(a + b, d)
    ensures LagAtMost(a, d)
  {
    forall i, j | 0 <= i < j < |a| ensures a[j].now >= a[i].now - d {
      assert (a + b)[j].now >= (a + b)[i].now - d;
    }
  }
}
