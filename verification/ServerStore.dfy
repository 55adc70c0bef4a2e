/**
 The receipts of `ServerLaws` are those of the class `ReceiptStore.Store`: in every interleaving, what the locked
 halves of `Put` and `Cleanup` make of the map in memory is what the server's store says, entry by entry.
 */
module ServerStore {
  import opened ReceiptStore
  import opened RunBus
  import opened ServerLaws
  import opened Wrappers

  /** `put(r)` is the record that run `r` hands to the store; the map holds the records that the entries stand for. */
  ghost predicate Mirrors<C>(runs: map<string, StoredRun>, s: Server<C>, put: nat -> StoredRun) {
    && runs.Keys == s.store.Keys
    && forall id | id in runs ::
         && runs[id] == put(s.store[id].run)
         && runs[id].createdAt == Some(s.store[id].createdAt)
  }

  /** A record carries the receipt ID of its run and the time at which the run was stamped. */
  ghost predicate Stamped<C>(s: Server<C>, r: nat, put: nat -> StoredRun)
    requires r < |s.insts|
  {
    put(r).id == StoredId(s.insts[r].outcome) && put(r).createdAt == Some(s.insts[r].stampedAt)
  }

  /** Whatever cleanup keeps exactly the runs within the retention window is a sweep of the server. */
  lemma {:induction false} CleanupMirrors<C>(before: map<string, StoredRun>, after: map<string, StoredRun>,
                                             s: Server<C>, put: nat -> StoredRun, retention: int)
    requires Mirrors(before, s, put)
    requires forall id, t | id in before && before[id].createdAt == Some(t) :: id in after <==> t >= s.now - retention
    requires forall id | id in after :: id in before && after[id] == before[id]
    ensures Mirrors(after, Next(s, Sweep, retention), put)
  {
    var swept := Next(s, Sweep, retention);
    forall id ensures id in after <==> id in swept.store {
      if id in before {
        assert before[id].createdAt == Some(s.store[id].createdAt);
      }
    }
  }

  /** The cleanup job on the store itself. */
  method CleanupIsSweep<C>(store: Store, now: int, retention: int, stuck: set<string>,
                           ghost s: Server<C>, ghost put: nat -> StoredRun)
    returns (count: nat)
    requires Mirrors(store.runs, s, put) && s.now == now
    modifies store`runs, store.disk
    ensures Mirrors(store.runs, Next(s, Sweep, retention), put)
    ensures count == |s.store| - |Next(s, Sweep, retention).store|
  {
    ghost var before := store.runs;
    count := store.Cleanup(now, retention, stuck);
    CleanupMirrors(before, store.runs, s, put, retention);
    assert before.Keys == s.store.Keys && store.runs.Keys == Next(s, Sweep, retention).store.Keys;
    assert |before| == |before.Keys| && |store.runs| == |store.runs.Keys|;
  }

  /** A run that is inserted at its store section. */
  lemma {:induction false} InsertMirrors<C>(runs: map<string, StoredRun>, s: Server<C>, put: nat -> StoredRun, r: nat,
                                            retention: int)
    requires Mirrors(runs, s, put) && StoresNext(s, r) && Stamped(s, r, put)
    ensures Mirrors(runs[put(r).id := put(r)], Next(s, Advance(r), retention), put)
  {
    AtTheEnd(s.insts[r].outcome);
    DriveStore(s, r);
    hide Script;
  }

  /** No other move touches the store. */
  lemma {:induction false} OtherMoves<C>(s: Server<C>, e: Move<C>, retention: int)
    requires !e.Sweep? && !(e.Advance? && StoresNext(s, e.run))
    ensures Next(s, e, retention).store == s.store
  {
    if e.Advance? && e.run < |s.insts| && s.insts[e.run].Sys().pc < |Script(s.insts[e.run].outcome)| {
      DriveStore(s, e.run);
    }
  }

  /** What a move does to the map in memory: a run that stores is inserted, a sweep removes the expired runs. */
  ghost function NextRuns<C>(runs: map<string, StoredRun>, s: Server<C>, e: Move<C>, retention: int,
                             put: nat -> StoredRun): map<string, StoredRun>
  {
    if e.Sweep? then runs - Expired(runs, s.now - retention)
    else if e.Advance? && StoresNext(s, e.run) then runs[put(e.run).id := put(e.run)]
    else runs
  }

  /** The map in memory after some moves. */
  ghost function RunsAfter<C>(moves: seq<Move<C>>, retention: int, put: nat -> StoredRun): map<string, StoredRun> {
    if moves == [] then map[]
    else
      var before := moves[..|moves| - 1];
      NextRuns(RunsAfter(before, retention, put), Serve(before, retention), moves[|moves| - 1], retention, put)
  }

  lemma {:induction false} NextMirrors<C>(runs: map<string, StoredRun>, s: Server<C>, e: Move<C>, retention: int,
                                          put: nat -> StoredRun)
    requires Mirrors(runs, s, put)
    requires e.Advance? && StoresNext(s, e.run) ==> Stamped(s, e.run, put)
    ensures Mirrors(NextRuns(runs, s, e, retention, put), Next(s, e, retention), put)
  {
    hide Next;
    hide Mirrors;
    hide Stamped;
    hide Expired;
    hide Script;
    if e.Sweep? {
      WithoutExpired(runs, s.now - retention);
      CleanupMirrors(runs, runs - Expired(runs, s.now - retention), s, put, retention);
    } else if e.Advance? && StoresNext(s, e.run) {
      InsertMirrors(runs, s, put, e.run, retention);
    } else {
      OtherMoves(s, e, retention);
      SameStore(runs, s, Next(s, e, retention), put);
    }
  }

  /** Every run that has stored its receipt handed over a record with its ID and its stamp. */
  ghost predicate AllStamped<C>(s: Server<C>, put: nat -> StoredRun) {
    forall r: nat | HasStored(s, r) :: Stamped(s, r, put)
  }

  /** Once a run has stored its receipt, its stamp stays. */
  lemma StampStays<C>(s: Server<C>, e: Move<C>, r: nat, retention: int)
    requires r < |s.insts| && s.insts[r].Sys().pc > |s.insts[r].outcome.steps| + 2
    ensures
      var s' := Next(s, e, retention);
      r < |s'.insts| && s'.insts[r].stampedAt == s.insts[r].stampedAt && s'.insts[r].outcome == s.insts[r].outcome
  {
    if e.Advance? && e.run < |s.insts| && s.insts[e.run].Sys().pc < |Script(s.insts[e.run].outcome)| {
      DriveFrame(s, e.run);
      DriveStore(s, e.run);
    }
    hide Script;
  }

  /** What was stamped when it was stored is so before the move, and before it is stored. */
  lemma StampedBefore<C>(s: Server<C>, e: Move<C>, retention: int, put: nat -> StoredRun)
    requires AllStamped(Next(s, e, retention), put)
    ensures AllStamped(s, put)
    ensures e.Advance? && StoresNext(s, e.run) ==> Stamped(s, e.run, put)
  {
    forall r: nat | HasStored(s, r) ensures Stamped(s, r, put) {
      StampStays(s, e, r, retention);
      NextAdvances(s, e, r, retention);
      assert HasStored(Next(s, e, retention), r);
    }
    if e.Advance? && StoresNext(s, e.run) {
      AtTheEnd(s.insts[e.run].outcome);
      StampStays(s, e, e.run, retention);
      DriveFrame(s, e.run);
      assert HasStored(Next(s, e, retention), e.run);
    }
    hide Script;
  }

  /**
   In every interleaving of runs, clients, the clock and the cleanup job, the map in memory holds the records that
   the server's entries stand for.
   */
  lemma {:induction false} StoreRefined<C>(moves: seq<Move<C>>, retention: int, put: nat -> StoredRun)
    requires AllStamped(Serve(moves, retention), put)
    ensures Mirrors(RunsAfter(moves, retention, put), Serve(moves, retention), put)
  {
    if moves != [] {
      hide Next;
      hide AllStamped;
      hide Stamped;
      hide StoresNext;
      hide Mirrors;
      hide NextRuns;
      var before, e := moves[..|moves| - 1], moves[|moves| - 1];
      StampedBefore(Serve(before, retention), e, retention, put);
      StoreRefined(before, retention, put);
      NextMirrors(RunsAfter(before, retention, put), Serve(before, retention), e, retention, put);
    }
  }

  lemma SameStore<C>(runs: map<string, StoredRun>, s: Server<C>, s': Server<C>, put: nat -> StoredRun)
    requires Mirrors(runs, s, put) && s'.store == s.store
    ensures Mirrors(runs, s', put)
  {
  }
}
