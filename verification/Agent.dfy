/**
 The poll loop of the one-call agent run (api/agent.go). The environment is given by functions: `snap(i)` is
 the i-th snapshot of the run, `lookup(i, id)` what the receipt store returns for an ID right after it,
 `clock(i)` the time of the i-th deadline check in milliseconds, and `gone(i)` whether the client left during
 the i-th wait.
 */
module Agent {
  import opened RunBus
  import opened Runs
  import opened Wrappers
  import opened ReceiptStore

  const TIMEOUT: int := 90_000
  const POLL_INTERVAL: int := 150

  datatype Reply =
    | RunFailed(msg: string)
    | NoProof
    | Proof(receiptId: string, bundle: string)
    | TimedOut
    | ClientGone

  /** The answer to a snapshot in a terminal state. */
  function Answer(snap: Snapshot, stored: Option<StoredRun>): Reply {
    if snap.state == Failed then RunFailed("run failed: " + snap.errMsg)
    else if stored.None? then NoProof
    else Proof(stored.value.id, stored.value.bundle)
  }

  /**
   What the loop did: it went on only while the run was not over, the deadline had not passed and the client
   was there; the reply is the answer to the first terminal snapshot and to a lookup of the receipt ID in it,
   and a timeout is only reported when no poll saw one.
   */
  ghost predicate Polled(snap: nat -> Snapshot, lookup: (nat, string) -> Option<StoredRun>, clock: nat -> int,
                         gone: nat -> bool, start: int, reply: Reply, polls: nat)
  {
    && polls >= 1
    && (forall i | 0 <= i < polls - 1 :: !snap(i).state.Terminal() && clock(i) <= start + 90_000 && !gone(i))
    && var last := snap(polls - 1);
       && (last.state.Terminal() <==> !reply.TimedOut? && !reply.ClientGone?)
       && (last.state.Terminal() ==> reply == Answer(last, lookup(polls - 1, last.receiptId)))
       && (reply.TimedOut? ==> clock(polls - 1) > start + 90_000)
       && (reply.ClientGone? ==> clock(polls - 1) <= start + 90_000 && gone(polls - 1))
  }

  /** The wait of at least 150 ms between two polls bounds their number. */
  method PollToCompletion(snap: nat -> Snapshot, lookup: (nat, string) -> Option<StoredRun>, clock: nat -> int,
                          gone: nat -> bool, start: int)
    returns (reply: Reply, polls: nat)
    requires start <= clock(0)
    requires forall i: nat :: clock(i + 1) >= clock(i) + 150
    ensures polls <= 602 && Polled(snap, lookup, clock, gone, start, reply, polls)
  {
    var deadline := start + TIMEOUT;
    var i := 0;
    while true
      invariant clock(i) >= start + POLL_INTERVAL * i
      invariant i <= 601
      invariant forall j | 0 <= j < i :: !snap(j).state.Terminal() && clock(j) <= deadline && !gone(j)
      decreases deadline - clock(i)
    {
      var s := snap(i);
      if s.state.Terminal() {
        if s.state == Failed {
          return RunFailed("run failed: " + s.errMsg), i + 1;
        }
        var stored := lookup(i, s.receiptId);
        if stored.None? {
          return NoProof, i + 1;
        }
        return Proof(stored.value.id, stored.value.bundle), i + 1;
      }
      if clock(i) > deadline {
        return TimedOut, i + 1;
      }
      if gone(i) {
        return ClientGone, i + 1;
      }
      i := i + 1;
    }
  }
}
