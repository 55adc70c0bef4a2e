/** The one-call agent run on a server with any number of other runs, clients and sweeps. */
module AgentLaws {
  import opened Agent
  import opened ReceiptStore
  import opened RunBus
  import opened RunBusLaws
  import opened RunLaws
  import opened RunManager
  import opened Runs
  import opened ServerLaws
  import opened ServerStore
  import opened Worker
  import opened Wrappers

  /** What the store returns for an ID, given what each run has put into it. */
  ghost function Found<C>(s: Server<C>, id: string, put: nat -> StoredRun): Option<StoredRun> {
    if id in s.store then Some(put(s.store[id].run)) else None
  }

  /**
   The polls of an agent that started run `r` sample one execution of the server: poll `i` reads the run after
   `snapAt(i)` moves and looks into the store after `lookAt(i)` moves.
   */
  ghost predicate Sampled<C>(moves: seq<Move<C>>, retention: int, r: nat, put: nat -> StoredRun,
                             snapAt: nat -> nat, lookAt: nat -> nat,
                             snap: nat -> Snapshot, lookup: (nat, string) -> Option<StoredRun>, polls: nat)
  {
    forall i: nat | i < polls ::
      && snapAt(i) <= lookAt(i) <= |moves|
      && var s := Serve(moves[..snapAt(i)], retention);
         && r < |s.insts|
         && snap(i) == SnapshotOf(s.insts[r].Sys().bus, snap(i).id, snap(i).mode)
         && forall id :: lookup(i, id) == Found(Serve(moves[..lookAt(i)], retention), id, put)
  }

  /**
   What an agent must be told when the run is over at the moment of its lookup, `last` being the last run that
   stored a receipt under the ID of a completed run.
   */
  ghost predicate Told<C>(s: Server<C>, r: nat, last: Option<nat>, retention: int, put: nat -> StoredRun, reply: Reply)
    requires r < |s.insts|
  {
    var o := s.insts[r].outcome;
    if o.Completed? then
      && last.Some? && last.value < |s.insts|
      && (last.value == r || Collides(s, r))
      && (|| reply == Proof(put(last.value).id, put(last.value).bundle)
          || (reply == NoProof && s.now - s.insts[last.value].stampedAt > retention))
    else
      reply == RunFailed("run failed: " + o.msg)
  }

  lemma TerminalAnswer<C>(moves: seq<Move<C>>, more: seq<Move<C>>, retention: int, r: nat, put: nat -> StoredRun,
                          snap: Snapshot)
    requires r < |Serve(moves, retention).insts| && Possible(Serve(moves, retention).insts[r].outcome)
    requires snap == SnapshotOf(Serve(moves, retention).insts[r].Sys().bus, snap.id, snap.mode) && snap.state.Terminal()
    ensures
      var later := Serve(moves + more, retention);
      && r < |later.insts|
      && Told(later, r, LastStored(moves + more, retention, StoredId(later.insts[r].outcome)), retention, put,
              Answer(snap, Found(later, snap.receiptId, put)))
  {
    var s := Serve(moves, retention);
    ServeAdvances(moves, more, r, retention);
    Grammar(s.insts[r].outcome, s.insts[r].actions);
    hide Serve;
    hide After;
    hide Script;
    hide FullHistory;
    hide Possible;
    hide Collides;
    hide LastStored;
    if s.insts[r].Sys().bus.state == Complete {
      AgentFindsProof(moves, more, r, retention);
    }
  }

  /**
   The one-call agent run is sound, end to end. If the loop does not time out and the client stays, the run is
   over and the agent is told so, despite concurrent runs, stores and sweeps: a failed run with its own error, a
   completed run with the proof of the last run that stored one under its ID (the run itself, unless IDs collide),
   and that none was found only if this last proof is older than the retention window.
   */
  lemma {:induction false} AgentIsTold<C>(moves: seq<Move<C>>, retention: int, r: nat, put: nat -> StoredRun,
                                          snapAt: nat -> nat, lookAt: nat -> nat,
                                          snap: nat -> Snapshot, lookup: (nat, string) -> Option<StoredRun>,
                                          clock: nat -> int, gone: nat -> bool, start: int, reply: Reply, polls: nat)
    requires Polled(snap, lookup, clock, gone, start, reply, polls)
    requires Sampled(moves, retention, r, put, snapAt, lookAt, snap, lookup, polls)
    requires r < |Serve(moves, retention).insts| && Possible(Serve(moves, retention).insts[r].outcome)
    requires !reply.TimedOut? && !reply.ClientGone?
    ensures
      var s := Serve(moves[..lookAt(polls - 1)], retention);
      && r < |s.insts| && s.insts[r].Sys().bus.state.Terminal()
      && Told(s, r, LastStored(moves[..lookAt(polls - 1)], retention, StoredId(s.insts[r].outcome)), retention, put,
              reply)
  {
    hide Serve;
    hide LastStored;
    hide Possible;
    hide Told;
    hide Found;
    hide After;
    hide Script;
    var n, m := snapAt(polls - 1), lookAt(polls - 1);
    assert moves[..m] == moves[..n] + moves[n..m];
    assert moves == moves[..n] + moves[n..];
    ServeAdvances(moves[..n], moves[n..], r, retention);
    ServeAdvances(moves[..n], moves[n..m], r, retention);
    TerminalAnswer(moves[..n], moves[n..m], retention, r, put, snap(polls - 1));
    StaysTerminal(moves[..n], moves[n..m], r, retention);
  }

  lemma StaysTerminal<C>(moves: seq<Move<C>>, more: seq<Move<C>>, r: nat, retention: int)
    requires r < |Serve(moves, retention).insts| && Serve(moves, retention).insts[r].Sys().bus.state.Terminal()
    ensures
      var later := Serve(moves + more, retention);
      r < |later.insts| && later.insts[r].Sys().bus.state.Terminal()
  {
    ServeAdvances(moves, more, r, retention);
    var s, later := Serve(moves, retention), Serve(moves + more, retention);
    Grammar(s.insts[r].outcome, s.insts[r].actions);
    Grammar(later.insts[r].outcome, later.insts[r].actions);
  }

  // ---- Which bundle the agent gets ----

  /** What `Execute` was given for a run. */
  datatype Job = Job(mode: string, flow: string, reply: NodeReply)

  /** Every run that stored a receipt handed over the record that `Execute` makes of the reply to it. */
  ghost predicate Recorded<C>(s: Server<C>, put: nat -> StoredRun, jobs: nat -> Job) {
    forall q: nat | HasStored(s, q) ::
      && Storable(jobs(q).reply)
      && put(q).id == s.insts[q].outcome.id
      && put(q).mode == jobs(q).mode
      && put(q).flow == jobs(q).flow
      && put(q).createdAt == Some(s.insts[q].stampedAt)
      && put(q).bundle == jobs(q).reply.bundleJson.value
  }

  /** Then a lookup in the store finds what the map in memory holds after the same moves. */
  lemma {:induction false} FoundIsGet<C>(moves: seq<Move<C>>, retention: int, put: nat -> StoredRun,
                                         jobs: nat -> Job, id: string)
    requires Recorded(Serve(moves, retention), put, jobs)
    ensures
      var runs := RunsAfter(moves, retention, put);
      Found(Serve(moves, retention), id, put) == if id in runs then Some(runs[id]) else None
  {
    assert AllStamped(Serve(moves, retention), put);
    StoreRefined(moves, retention, put);
  }

  /**
   The agent gets the very package that the node delivered. An agent that is answered about a completed run is given
   the run's receipt ID and the encoding of the package that the node delivered to the last run that stored under
   that ID, which is the run itself unless IDs collide; or it is told that there is no proof, and then that one is
   older than the retention window.
   */
  lemma {:induction false} AgentGetsBundle<C>(moves: seq<Move<C>>, retention: int, r: nat, put: nat -> StoredRun,
                                              jobs: nat -> Job, snapAt: nat -> nat, lookAt: nat -> nat,
                                              snap: nat -> Snapshot, lookup: (nat, string) -> Option<StoredRun>,
                                              clock: nat -> int, gone: nat -> bool, start: int, reply: Reply,
                                              polls: nat)
    requires Polled(snap, lookup, clock, gone, start, reply, polls)
    requires Sampled(moves, retention, r, put, snapAt, lookAt, snap, lookup, polls)
    requires r < |Serve(moves, retention).insts| && Possible(Serve(moves, retention).insts[r].outcome)
    requires Recorded(Serve(moves[..lookAt(polls - 1)], retention), put, jobs)
    requires !reply.TimedOut? && !reply.ClientGone? && Serve(moves, retention).insts[r].outcome.Completed?
    ensures
      var o, s := Serve(moves, retention).insts[r].outcome, Serve(moves[..lookAt(polls - 1)], retention);
      var last := LastStored(moves[..lookAt(polls - 1)], retention, o.id);
      && r < |s.insts|
      && last.Some? && last.value < |s.insts| && (last.value == r || Collides(s, r))
      && jobs(last.value).reply.Delivered? && jobs(last.value).reply.bundleJson.Ok?
      && (|| reply == Proof(o.id, jobs(last.value).reply.bundleJson.value)
          || (reply == NoProof && s.now - s.insts[last.value].stampedAt > retention))
  {
    hide Serve;
    hide LastStored;
    hide Possible;
    hide Told;
    hide Recorded;
    hide Collides;
    hide After;
    hide Script;
    AgentIsTold(moves, retention, r, put, snapAt, lookAt, snap, lookup, clock, gone, start, reply, polls);
    var m := lookAt(polls - 1);
    var s := Serve(moves[..m], retention);
    assert moves == moves[..m] + moves[m..];
    ServeAdvances(moves[..m], moves[m..], r, retention);
    BundleOfLastStored(moves[..m], r, retention, put, jobs, reply);
  }

  lemma BundleOfLastStored<C>(moves: seq<Move<C>>, r: nat, retention: int, put: nat -> StoredRun, jobs: nat -> Job,
                              reply: Reply)
    requires r < |Serve(moves, retention).insts| && Serve(moves, retention).insts[r].outcome.Completed?
    requires Recorded(Serve(moves, retention), put, jobs)
    requires
      var s := Serve(moves, retention);
      Told(s, r, LastStored(moves, retention, StoredId(s.insts[r].outcome)), retention, put, reply)
    ensures
      var s := Serve(moves, retention);
      var last := LastStored(moves, retention, s.insts[r].outcome.id);
      && last.Some? && last.value < |s.insts| && (last.value == r || Collides(s, r))
      && jobs(last.value).reply.Delivered? && jobs(last.value).reply.bundleJson.Ok?
      && (|| reply == Proof(s.insts[r].outcome.id, jobs(last.value).reply.bundleJson.value)
          || (reply == NoProof && s.now - s.insts[last.value].stampedAt > retention))
  {
    hide Serve;
    hide LastStored;
    hide Collides;
    hide HasStored;
    hide Told;
    hide Recorded;
    hide HoldsLast;
    var s := Serve(moves, retention);
    var id := StoredId(s.insts[r].outcome);
    StoreHoldsLast(moves, retention, id);
    BundleOfLast(s, r, LastStored(moves, retention, id), retention, put, jobs, reply);
  }

  lemma BundleOfLast<C>(s: Server<C>, r: nat, last: Option<nat>, retention: int, put: nat -> StoredRun,
                        jobs: nat -> Job, reply: Reply)
    requires r < |s.insts| && s.insts[r].outcome.Completed? && Told(s, r, last, retention, put, reply)
    requires Recorded(s, put, jobs) && HoldsLast(s, last, StoredId(s.insts[r].outcome), retention)
    ensures last.Some? && last.value < |s.insts| && (last.value == r || Collides(s, r))
    ensures jobs(last.value).reply.Delivered? && jobs(last.value).reply.bundleJson.Ok?
    ensures || reply == Proof(s.insts[r].outcome.id, jobs(last.value).reply.bundleJson.value)
            || (reply == NoProof && s.now - s.insts[last.value].stampedAt > retention)
  {
    hide Collides;
    hide Script;
    hide After;
  }

  /**
   A run with nobody around, from the request to the answer: `Start`, `Execute`, a snapshot, and the lookup of the
   receipt ID in it. The agent is answered the bundle that came with the reply of the node, or the run's own error.
   */
  method RunAlone(m: Manager, mode: string, flow: string, reply: NodeReply, now: int, write: WriteResult)
    returns (told: Reply, ghost o: Outcome)
    requires m.Valid() && (forall bytes :: |m.store.sha(bytes)| == 32)
    modifies m, m.metrics, m.store, m.store.disk
    ensures Decided(o, m.runner.Refused(mode), reply, m.store.disk != null, write)
    ensures o.Completed? ==> Storable(reply) && told == Proof(o.id, reply.bundleJson.value)
    ensures !o.Completed? ==> told == RunFailed("run failed: " + o.msg)
  {
    hide Decided;
    hide Runner.Refused;
    var run := m.Start(mode, flow);
    assert run.View().subs == {};
    o := m.Execute(run, mode, run.flow, reply, now, write);
    AloneToTheEnd(run.View(), o);
    var snap := run.TakeSnapshot();
    var stored := m.store.Get(snap.receiptId);
    told := Answer(snap, stored);
  }

  lemma AloneToTheEnd<C>(b: Bus<C>, o: Outcome)
    requires b == PerformAll(PerformAll(NewBus(), [Count(RunsStarted), ToState(Running)]), EmitAll(o.steps) + Ending(o))
    ensures b.state == FinalState(o)
    ensures b.receiptId == if o.Completed? then o.id else ""
    ensures !o.Completed? ==> b.errMsg == o.msg
  {
    var script := Script(o);
    PerformConcat(NewBus<C>(), [Count(RunsStarted), ToState(Running)], EmitAll(o.steps) + Ending(o));
    assert script == [Count(RunsStarted), ToState(Running)] + (EmitAll(o.steps) + Ending(o));
    LifecycleAt<C>(o, |script|);
    assert script[..|script|] == script;
  }
}
