/** The closed form of the limiter: which calls are admitted, and how many a window can hold. */
module AdmissionLaws {
  import opened RateLimiter
  import opened RateLimiterLaws

  /** Admitted calls of a key at the positions `i`, `i + 1`, ... of a history. */
  function Admitted(l: Limits, history: seq<Call>, key: string, i: nat, prune: bool): nat {
    if |history| <= i then 0
    else
      var h, call := history[..|history| - 1], history[|history| - 1];
      Admitted(l, h, key, i, prune)
      + if call.key == key && DecideAfter(l, h, call, prune).allowed then 1 else 0
  }

  // ---- Clock readings ----

  // The clock is read before the lock is taken, so that a key's readings may go back; a bucket ignores a
  // reading that is not later than the latest one of its key.

  /** The latest of `now` and the readings of a key's calls. */
  function Latest(h: seq<Call>, key: string, now: real): real {
    if h == [] then now
    else
      var latest, call := Latest(h[..|h| - 1], key, now), h[|h| - 1];
      if call.key == key && call.now > latest then call.now else latest
  }

  /** The latest reading of its key when call `i` was made. */
  function ReadingAt(history: seq<Call>, i: nat): real
    requires i < |history|
  {
    Latest(history[..i], history[i].key, history[i].now)
  }

  lemma LatestStep(h: seq<Call>, call: Call, key: string, now: real)
    ensures Latest(h + [call], key, now)
            == if call.key == key && call.now > Latest(h, key, now) then call.now else Latest(h, key, now)
  {
    assert (h + [call])[..|h|] == h;
  }

  lemma {:induction false} LatestBounds(h: seq<Call>, key: string, now: real, end: real)
    requires now <= end && forall i | 0 <= i < |h| && h[i].key == key :: h[i].now <= end
    ensures now <= Latest(h, key, now) <= end
  {
    if h != [] {
      LatestBounds(h[..|h| - 1], key, now, end);
    }
  }

  /** With readings that never decrease, the latest one is that of the call itself. */
  lemma ReadingInOrder(history: seq<Call>, i: nat)
    requires LagAtMost(history, 0.0) && i < |history|
    ensures ReadingAt(history, i) == history[i].now
  {
    LatestBounds(history[..i], history[i].key, history[i].now, history[i].now);
  }

  /** A bucket was last refilled at the latest reading of its key. */
  lemma {:induction false} LastIsLatest(l: Limits, h: seq<Call>, key: string, now: real)
    ensures var buckets := Buckets(l, h, false);
            Latest(h, key, now) == if key in buckets && buckets[key].last > now then buckets[key].last else now
  {
    if h != [] {
      LastIsLatest(l, h[..|h| - 1], key, now);
      hide Gain;
    }
  }

  // ---- Windows ----

  /** The tokens that remain possible at time `at` if only the window that starts at call `i` counts. */
  function WindowLeft(l: Limits, history: seq<Call>, key: string, i: nat, at: real): real
    requires i < |history|
  {
    l.capacity + Gain(l, at - ReadingAt(history, i)) - Admitted(l, history, key, i, false) as real
  }

  lemma AdmittedStep(l: Limits, h: seq<Call>, call: Call, key: string, i: nat)
    requires i <= |h|
    ensures Admitted(l, h + [call], key, i, false)
            == Admitted(l, h, key, i, false)
               + if call.key == key && DecideAfter(l, h, call, false).allowed then 1 else 0
  {
    assert (h + [call])[..|h|] == h;
  }

  lemma WindowStep(l: Limits, h: seq<Call>, call: Call, key: string, i: nat, at: real)
    requires i < |h|
    ensures WindowLeft(l, h + [call], key, i, at)
            == WindowLeft(l, h, key, i, at)
               - (if call.key == key && DecideAfter(l, h, call, false).allowed then 1.0 else 0.0)
  {
    hide Gain;
    AdmittedStep(l, h, call, key, i);
    assert (h + [call])[i] == h[i] && (h + [call])[..i] == h[..i];
  }

  lemma WindowStart(l: Limits, h: seq<Call>, call: Call)
    ensures WindowLeft(l, h + [call], call.key, |h|, Latest(h, call.key, call.now))
            == l.capacity - (if DecideAfter(l, h, call, false).allowed then 1.0 else 0.0)
  {
    hide Gain;
    GainOfNothing(l);
    AdmittedStep(l, h, call, call.key, |h|);
    assert (h + [call])[|h|] == call && (h + [call])[..|h|] == h;
  }

  /** A bucket holds the least of what its windows leave. */
  ghost predicate Level(l: Limits, history: seq<Call>, key: string) {
    var buckets := Buckets(l, history, false);
    && (key in buckets <==> exists i :: 0 <= i < |history| && history[i].key == key)
    && (key in buckets ==>
          var b := buckets[key];
          && (forall i | 0 <= i < |history| && history[i].key == key ::
                b.tokens <= WindowLeft(l, history, key, i, b.last))
          && (exists i :: 0 <= i < |history| && history[i].key == key
                          && b.tokens == WindowLeft(l, history, key, i, b.last)))
  }

  lemma WindowShift(l: Limits, h: seq<Call>, key: string, i: nat, last: real, at: real)
    requires i < |h|
    ensures WindowLeft(l, h, key, i, at) == WindowLeft(l, h, key, i, last) + Gain(l, at - last)
  {
    hide Gain;
    GainSplit(l, ReadingAt(h, i), last, at);
  }

  /** The refilled bucket of a known key. */
  lemma ReadyTokens(l: Limits, h: seq<Call>, call: Call)
    requires call.key in Buckets(l, h, false)
    ensures
      var b, at := Buckets(l, h, false)[call.key], Latest(h, call.key, call.now);
      && b.tokens <= l.capacity
      && ReadyAfter(l, h, call, false) == Bucket(MinF(l.capacity, b.tokens + Gain(l, at - b.last)), at)
  {
    hide Gain;
    GainOfNothing(l);
    TokensBound(l, h, call.key, false);
    LastIsLatest(l, h, call.key, call.now);
    hide Latest;
  }

  /** The tokens that serve a call are the least that any window ending at the call leaves. */
  lemma ReadyLevel(l: Limits, h: seq<Call>, call: Call)
    requires Level(l, h, call.key)
    ensures IsLeastWindow(l, h, call, ReadyAfter(l, h, call, false))
  {
    hide Gain;
    hide WindowLeft;
    var buckets := Buckets(l, h, false);
    if call.key in buckets {
      hide Refilled;
      var b, at := buckets[call.key], Latest(h, call.key, call.now);
      ReadyTokens(l, h, call);
      forall i | 0 <= i < |h| && h[i].key == call.key
        ensures WindowLeft(l, h, call.key, i, at) == WindowLeft(l, h, call.key, i, b.last) + Gain(l, at - b.last)
      {
        WindowShift(l, h, call.key, i, b.last, at);
      }
    } else {
      LastIsLatest(l, h, call.key, call.now);
    }
  }

  ghost predicate IsLeastWindow(l: Limits, h: seq<Call>, call: Call, ready: Bucket) {
    && ready.last == Latest(h, call.key, call.now)
    && ready.tokens <= l.capacity
    && (forall i | 0 <= i < |h| && h[i].key == call.key ::
          ready.tokens <= WindowLeft(l, h, call.key, i, ready.last))
    && (ready.tokens == l.capacity
        || exists i :: 0 <= i < |h| && h[i].key == call.key
                       && ready.tokens == WindowLeft(l, h, call.key, i, ready.last))
  }

  lemma {:induction false} LevelAlways(l: Limits, history: seq<Call>, key: string)
    requires l.capacity > 0.0
    ensures Level(l, history, key)
  {
    if history != [] {
      var h, call := history[..|history| - 1], history[|history| - 1];
      assert history == h + [call];
      LevelAlways(l, h, key);
      hide Level;
      if call.key == key {
        ReadyLevel(l, h, call);
        LevelAfterOwnCall(l, h, call);
      } else {
        LevelAfterOtherCall(l, h, call, key);
      }
    }
  }

  lemma {:induction false} LevelAfterOwnCall(l: Limits, h: seq<Call>, call: Call)
    requires l.capacity > 0.0
    requires IsLeastWindow(l, h, call, ReadyAfter(l, h, call, false))
    ensures Level(l, h + [call], call.key)
  {
    var all := h + [call];
    var ready := ReadyAfter(l, h, call, false);
    var b := Taken(ready);
    BucketsAfter(l, h, call, false);
    assert all[|h|] == call;
    WindowStart(l, h, call);
    forall i | 0 <= i < |h| && h[i].key == call.key
      ensures WindowLeft(l, all, call.key, i, ready.last)
              == WindowLeft(l, h, call.key, i, ready.last) - (if ready.tokens >= 1.0 then 1.0 else 0.0)
    {
      WindowStep(l, h, call, call.key, i, ready.last);
    }
    hide WindowLeft;
    hide Latest;
    hide ReadyAfter;
    hide Buckets;
    if ready.tokens == l.capacity {
      assert all[|h|].key == call.key && b.tokens == WindowLeft(l, all, call.key, |h|, b.last);
    } else {
      var i :| 0 <= i < |h| && h[i].key == call.key && ready.tokens == WindowLeft(l, h, call.key, i, ready.last);
      assert all[i].key == call.key && b.tokens == WindowLeft(l, all, call.key, i, b.last);
    }
  }

  lemma LevelAfterOtherCall(l: Limits, h: seq<Call>, call: Call, key: string)
    requires Level(l, h, key) && call.key != key
    ensures Level(l, h + [call], key)
  {
    var all := h + [call];
    BucketsAfter(l, h, call, false);
    assert forall i | 0 <= i < |h| :: all[i] == h[i];
    var buckets := Buckets(l, h, false);
    if key in buckets {
      var b := buckets[key];
      forall i | 0 <= i < |h|
        ensures WindowLeft(l, all, key, i, b.last) == WindowLeft(l, h, key, i, b.last)
      {
        WindowStep(l, h, call, key, i, b.last);
      }
      hide WindowLeft;
      hide ReadyAfter;
      var i :| 0 <= i < |h| && h[i].key == key && b.tokens == WindowLeft(l, h, key, i, b.last);
      assert all[i].key == key && b.tokens == WindowLeft(l, all, key, i, b.last);
    } else {
      assert forall i | 0 <= i < |all| :: all[i].key != key;
    }
  }

  // ---- The exact admission law ----

  /** One more token fits into the window that starts at call `i` of the history. */
  ghost predicate Fits(l: Limits, history: seq<Call>, call: Call, i: nat, prune: bool)
    requires i < |history|
  {
    Admitted(l, history, call.key, i, prune) as real + 1.0
    <= l.capacity + Gain(l, Latest(history, call.key, call.now) - ReadingAt(history, i))
  }

  /** A call fits into its own window and into every window that starts at an earlier call of its key. */
  ghost predicate FitsAll(l: Limits, history: seq<Call>, call: Call, prune: bool) {
    && 1.0 <= l.capacity
    && forall i | 0 <= i < |history| && history[i].key == call.key :: Fits(l, history, call, i, prune)
  }

  lemma FitsLeft(l: Limits, history: seq<Call>, call: Call, i: nat)
    requires i < |history|
    ensures Fits(l, history, call, i, false)
            <==> WindowLeft(l, history, call.key, i, Latest(history, call.key, call.now)) >= 1.0
  {
    hide Gain;
    hide Latest;
  }

  /**
   Exact admission law of the limiter that never prunes, for any capacity and rate and for clock readings in
   any order: a call is admitted exactly when the limiter is disabled or the call fits into every window.
   */
  lemma {:induction false} UnprunedAdmission(l: Limits, history: seq<Call>, call: Call)
    ensures DecideAfter(l, history, call, false).allowed <==> l.capacity <= 0.0 || FitsAll(l, history, call, false)
  {
    hide Gain;
    hide WindowLeft;
    hide Fits;
    hide Refilled;
    hide Latest;
    if l.capacity > 0.0 {
      LevelAlways(l, history, call.key);
      ReadyLevel(l, history, call);
      forall i | 0 <= i < |history|
        ensures Fits(l, history, call, i, false)
                <==> WindowLeft(l, history, call.key, i, Latest(history, call.key, call.now)) >= 1.0
      {
        FitsLeft(l, history, call, i);
      }
    }
  }

  /** Under the condition that makes pruning invisible, both limiters admit the same calls. */
  lemma {:induction false} SameAdmitted(l: Limits, history: seq<Call>, key: string, i: nat, d: real)
    requires l.capacity > 0.0 && l.refillRate >= 0.0 && d >= 0.0 && Gain(l, l.ttl - d) >= l.capacity
    requires LagAtMost(history, d)
    ensures Admitted(l, history, key, i, true) == Admitted(l, history, key, i, false)
  {
    hide DecideAfter;
    hide Gain;
    if |history| > i {
      var n := |history| - 1;
      SplitLast(history, d);
      SameAdmitted(l, history[..n], key, i, d);
      PruningInvisible(l, history[..n], history[n], d);
    }
  }

  /**
   Exact admission law of the real limiter, for clock readings that lag by at most `d`: it admits a call exactly
   when, for every earlier call `i` of the same key, the calls that it admitted since `i` plus this one are at
   most capacity + rate * elapsed, where each time is the latest reading of the key so far.
   */
  lemma {:induction false} AdmissionLaw(l: Limits, history: seq<Call>, call: Call, d: real)
    requires l.capacity > 0.0 && l.refillRate >= 0.0 && d >= 0.0 && Gain(l, l.ttl - d) >= l.capacity
    requires LagAtMost(history + [call], d)
    ensures DecideAfter(l, history, call, true).allowed <==> FitsAll(l, history, call, true)
  {
    hide DecideAfter;
    hide Gain;
    hide Latest;
    LagPrefix(history, call, d);
    PruningInvisible(l, history, call, d);
    UnprunedAdmission(l, history, call);
    forall i | 0 <= i < |history| ensures Fits(l, history, call, i, true) <==> Fits(l, history, call, i, false) {
      SameAdmitted(l, history, call.key, i, d);
    }
  }

  /** With readings that never decrease, the times are those of the calls themselves. */
  lemma {:induction false} InOrderAdmission(l: Limits, history: seq<Call>, call: Call)
    requires l.capacity > 0.0 && l.refillRate >= 0.0 && Gain(l, l.ttl) >= l.capacity
    requires LagAtMost(history + [call], 0.0)
    ensures DecideAfter(l, history, call, true).allowed <==>
              && 1.0 <= l.capacity
              && (forall i | 0 <= i < |history| && history[i].key == call.key ::
                    Admitted(l, history, call.key, i, true) as real + 1.0
                    <= l.capacity + Gain(l, call.now - history[i].now))
  {
    hide DecideAfter;
    hide Gain;
    assert l.ttl - 0.0 == l.ttl;
    AdmissionLaw(l, history, call, 0.0);
    LagPrefix(history, call, 0.0);
    LatestBounds(history, call.key, call.now, call.now);
    forall i | 0 <= i < |history| ensures ReadingAt(history, i) == history[i].now {
      ReadingInOrder(history, i);
    }
    hide ReadingAt;
    hide Latest;
    hide Admitted;
  }

  /**
   The limiter as it is configured. With a burst that ten minutes fill, a call is admitted exactly when in no window of
   its key's calls, itself included, more were admitted than the burst and the tokens of the minutes in between.
   */
  lemma {:induction false} ConfiguredAdmission(burst: real, perMinute: real, history: seq<Call>, call: Call)
    requires burst > 0.0 && perMinute >= 0.0 && 10.0 * perMinute >= burst
    requires LagAtMost(history + [call], 0.0)
    ensures
      var l := NewLimits(burst, perMinute);
      DecideAfter(l, history, call, true).allowed <==>
        && 1.0 <= burst
        && (forall i | 0 <= i < |history| && history[i].key == call.key ::
              Admitted(l, history, call.key, i, true) as real + 1.0
              <= burst + perMinute * ((call.now - history[i].now) / 60.0))
  {
    var l := NewLimits(burst, perMinute);
    MinuteGain(burst, perMinute, 600.0);
    assert perMinute * (600.0 / 60.0) == 10.0 * perMinute;
    InOrderAdmission(l, history, call);
    forall i | 0 <= i < |history|
      ensures Gain(l, call.now - history[i].now) == perMinute * ((call.now - history[i].now) / 60.0)
    {
      MinuteGain(burst, perMinute, call.now - history[i].now);
    }
    hide Gain;
    hide Admitted;
    hide DecideAfter;
  }

  lemma MinuteGain(burst: real, perMinute: real, idle: real)
    ensures Gain(NewLimits(burst, perMinute), idle) == perMinute * (idle / 60.0)
  {
    assert idle * (perMinute / 60.0) == perMinute * (idle / 60.0);
  }

  // ---- Windows of any length ----

  /** `n` admitted calls fit into a window of the given length. */
  predicate WithinBound(l: Limits, n: nat, start: real, end: real) {
    n as real <= l.capacity + Gain(l, end - start)
  }

  lemma WiderWindow(l: Limits, n: nat, start: real, end: real, earlier: real, later: real)
    requires l.refillRate >= 0.0 && earlier <= start && end <= later && WithinBound(l, n, start, end)
    ensures WithinBound(l, n, earlier, later)
  {
    hide Gain;
    GainMonotone(l, end - start, later - earlier);
  }

  /** No own reading is later than `end`. */
  ghost predicate Before(history: seq<Call>, key: string, end: real) {
    forall j | 0 <= j < |history| && history[j].key == key :: history[j].now <= end
  }

  /** An admitted call and the admitted calls before it fit together into every window that contains it. */
  lemma AdmittedFits(l: Limits, h: seq<Call>, call: Call, i: nat, end: real)
    requires l.capacity > 0.0 && l.refillRate >= 0.0 && DecideAfter(l, h, call, false).allowed
    requires i < |h| && h[i].key == call.key && call.now <= end && Before(h, call.key, end)
    ensures WithinBound(l, Admitted(l, h, call.key, i, false) + 1, h[i].now, end)
  {
    UnprunedAdmission(l, h, call);
    hide DecideAfter;
    hide Gain;
    hide Admitted;
    assert Fits(l, h, call, i, false);
    LatestBounds(h, call.key, call.now, end);
    LatestBounds(h[..i], call.key, h[i].now, end);
    WiderWindow(l, Admitted(l, h, call.key, i, false) + 1, ReadingAt(h, i), Latest(h, call.key, call.now),
                h[i].now, end);
  }

  lemma OwnWindow(l: Limits, h: seq<Call>, call: Call)
    requires l.capacity > 0.0
    ensures WithinBound(l, Admitted(l, h + [call], call.key, |h|, false), call.now, call.now)
  {
    UnprunedAdmission(l, h, call);
    hide Gain;
    hide DecideAfter;
    hide Fits;
    GainOfNothing(l);
    AdmittedStep(l, h, call, call.key, |h|);
  }

  lemma {:induction false} UnprunedWindowBound(l: Limits, history: seq<Call>, key: string, i: nat, end: real)
    requires l.capacity > 0.0 && l.refillRate >= 0.0
    requires i < |history| && history[i].key == key && Before(history, key, end)
    ensures WithinBound(l, Admitted(l, history, key, i, false), history[i].now, end)
  {
    hide WithinBound;
    hide DecideAfter;
    hide Gain;
    var n := |history| - 1;
    var h, call := history[..n], history[n];
    assert history == h + [call];
    AdmittedStep(l, h, call, key, i);
    if i == n {
      OwnWindow(l, h, call);
      WiderWindow(l, Admitted(l, history, key, i, false), call.now, call.now, call.now, end);
    } else if call.key == key && DecideAfter(l, h, call, false).allowed {
      AdmittedFits(l, h, call, i, end);
    } else {
      UnprunedWindowBound(l, h, key, i, end);
    }
  }

  /**
   In every window that starts at a call of a key, the calls of that key that the real limiter admits are at
   most capacity + rate * length, even with clock readings that lag by at most `d`.
   */
  lemma {:induction false} WindowBound(l: Limits, history: seq<Call>, key: string, i: nat, end: real, d: real)
    requires l.capacity > 0.0 && l.refillRate >= 0.0 && d >= 0.0 && Gain(l, l.ttl - d) >= l.capacity
    requires LagAtMost(history, d) && i < |history| && history[i].key == key && Before(history, key, end)
    ensures WithinBound(l, Admitted(l, history, key, i, true), history[i].now, end)
  {
    hide WithinBound;
    hide DecideAfter;
    hide Gain;
    SameAdmitted(l, history, key, i, d);
    UnprunedWindowBound(l, history, key, i, end);
  }
}
