/**
 The event-stream handler of one client (api/server.go) on the run's own objects, with the goroutine that
 drives the run scheduled at any moment in between. `Reached` ties the objects to a state that
 `RunBusLaws.After` reaches, so that the laws about all interleavings apply to what the handler writes.
 */
module EventStream {
  import opened RunBus
  import opened RunBusLaws
  import opened RunLaws
  import opened Runs
  import opened Wrappers

  /** The run's objects are in the state after some actions, `pc` of which were sections of its script. */
  ghost predicate Reached(run: Run, o: Outcome, actions: seq<Action<Channel>>, pc: nat)
    reads run, run.chans
  {
    run.Valid() && After(Script(o), actions) == Sys(run.View(), pc)
  }

  /** What only the reader of a channel changes. */
  datatype Mark = Mark(received: seq<Event>, from: nat, cancelled: bool)

  ghost function MarkOf(ch: Channel): Mark
    reads ch
  {
    Mark(ch.received, ch.from, ch.cancelled)
  }

  /** One lock section of the goroutine that drives the run. */
  method PerformSection(run: Run, section: Section)
    requires run.Valid()
    modifies run, run.subs
    ensures run.Valid() && run.chans == old(run.chans)
    ensures run.View() == Perform(old(run.View()), section)
  {
    match section {
      case ToState(next) =>
        var _ := run.TransitionTo(next);
      case EmitStep(s) => run.EmitStep(s);
      case SetReceipt(id) => run.SetReceiptId(id);
      case SetError(msg) => run.SetErrMsg(msg);
      case PublishDone(id) => run.PublishLast(DoneEvent(id));
      case PublishError(msg) => run.PublishLast(ErrorEvent(msg));
      case _ =>
    }
  }

  lemma PerformKeepsMarks<C>(b: Bus<C>, section: Section, c: C)
    requires c in b.chans
    ensures
      var b' := Perform(b, section);
      && c in b'.chans
      && b'.chans[c].received == b.chans[c].received
      && b'.chans[c].from == b.chans[c].from
      && b'.chans[c].cancelled == b.chans[c].cancelled
  {
  }

  lemma ActAfter(o: Outcome, actions: seq<Action<Channel>>, a: Action<Channel>)
    ensures After(Script(o), actions + [a]) == Act(Script(o), After(Script(o), actions), a)
  {
    assert (actions + [a])[..|actions|] == actions;
  }

  /** The driving goroutine gets in with its next section. */
  method Drive(run: Run, ghost ch: Channel, script: seq<Section>, pc: nat,
               ghost o: Outcome, ghost actions: seq<Action<Channel>>)
    requires script == Script(o) && pc < |script| && Reached(run, o, actions, pc) && ch in run.chans
    modifies run, run.subs
    ensures run.chans == old(run.chans) && Reached(run, o, actions + [Exec], pc + 1)
    ensures MarkOf(ch) == old(MarkOf(ch))
  {
    ActAfter(o, actions, Exec);
    assert run.View().chans[ch] == ch.View();
    PerformKeepsMarks(run.View(), script[pc], ch);
    hide After;
    hide Script;
    hide Perform;
    hide Run.Valid;
    PerformSection(run, script[pc]);
    assert run.View().chans[ch] == ch.View();
  }

  lemma SubsAreKnown(run: Run, o: Outcome, actions: seq<Action<Channel>>, pc: nat)
    requires Reached(run, o, actions, pc)
    ensures run.subs <= run.chans
  {
  }

  /** The driving goroutine gets `n` sections further, or to its end. */
  method DriveMany(run: Run, ghost ch: Channel, script: seq<Section>, start: nat, n: nat,
                   ghost o: Outcome, ghost before: seq<Action<Channel>>)
    returns (pc: nat, ghost after: seq<Action<Channel>>)
    requires script == Script(o) && start <= |script| && Reached(run, o, before, start) && ch in run.chans
    modifies run, run.chans
    ensures run.chans == old(run.chans) && Reached(run, o, after, pc)
    ensures pc == if start + n <= |script| then start + n else |script|
    ensures pc == start ==> ch.buf == old(ch.buf)
    ensures MarkOf(ch) == old(MarkOf(ch))
  {
    hide Reached;
    hide MarkOf;
    pc, after := start, before;
    while pc < |script| && pc < start + n
      invariant start <= pc <= |script| && pc <= start + n
      invariant run.chans == old(run.chans) && Reached(run, o, after, pc)
      invariant pc == start ==> ch.buf == old(ch.buf)
      invariant MarkOf(ch) == old(MarkOf(ch))
    {
      SubsAreKnown(run, o, after, pc);
      Drive(run, ch, script, pc, o, after);
      pc, after := pc + 1, after + [Exec];
    }
  }

  /** What the handler knows about its own channel in every reachable state. */
  lemma OwnChannel(run: Run, o: Outcome, actions: seq<Action<Channel>>, pc: nat, ch: Channel)
    requires Possible(o) && Reached(run, o, actions, pc) && ch in run.chans
    ensures pc <= |Script(o)| && (pc == |Script(o)| ==> ch.closed)
    ensures ch.received + ch.buf <= FullHistory(o)
    ensures ch.closed && !ch.cancelled ==>
              var full := FullHistory(o);
              ch.received + ch.buf == if ch.from == |full| - 1 then full[..|full| - 1] else full
  {
    assert run.View().chans[ch] == ch.View();
    StreamEnd(o, actions, ch);
    NoLoss(o, actions, ch);
    Grammar(o, actions);
    hide After;
    hide Script;
    hide FullHistory;
  }

  /** The handler takes the next event out of its channel. */
  method Take(run: Run, ch: Channel, ghost o: Outcome, ghost actions: seq<Action<Channel>>, ghost pc: nat)
    returns (e: Option<Event>)
    requires Reached(run, o, actions, pc) && ch in run.chans
    modifies ch
    ensures run.chans == old(run.chans) && Reached(run, o, actions + [Read(ch)], pc)
    ensures e == if old(ch.buf) == [] then None else Some(old(ch.buf)[0])
    ensures ch.buf == if e.Some? then old(ch.buf)[1..] else []
    ensures MarkOf(ch) == old(MarkOf(ch)).(received := old(ch.received) + if e.Some? then [e.value] else [])
    ensures ch.closed == old(ch.closed)
  {
    ActAfter(o, actions, Read(ch));
    e := run.ReadFrom(ch);
    assert ch.View() == run.View().chans[ch];
  }

  /** One turn of the handler's `select` on its channel, with `pace` sections of the run before it. */
  method Turn(run: Run, ch: Channel, script: seq<Section>, start: nat, pace: nat,
              ghost o: Outcome, ghost before: seq<Action<Channel>>)
    returns (e: Option<Event>, ended: bool, pc: nat, ghost after: seq<Action<Channel>>)
    requires Possible(o) && script == Script(o) && start <= |script| && Reached(run, o, before, start)
    requires ch in run.chans
    modifies run, run.chans
    ensures run.chans == old(run.chans) && Reached(run, o, after, pc) && start <= pc <= |script|
    ensures MarkOf(ch) == old(MarkOf(ch)).(received := old(ch.received) + if e.Some? then [e.value] else [])
    ensures ended ==> ch.closed && ch.buf == []
    ensures !ended ==> pc > start || |ch.buf| < |old(ch.buf)|
  {
    hide Reached;
    hide Possible;
    hide FullHistory;
    hide Script;
    pc, after := DriveMany(run, ch, script, start, pace, o, before);
    e := Take(run, ch, o, after, pc);
    after := after + [Read(ch)];
    ended := e.None? && ch.closed;
    if e.None? && !ch.closed {
      OwnChannel(run, o, after, pc, ch);
      pc, after := DriveMany(run, ch, script, pc, 1, o, after);
    }
  }

  /** The deferred unsubscribe. */
  method Leave(run: Run, ch: Channel, ghost o: Outcome, ghost actions: seq<Action<Channel>>, ghost pc: nat)
    requires Reached(run, o, actions, pc) && ch in run.chans
    modifies run`subs, ch
    ensures run.chans == old(run.chans) && Reached(run, o, actions + [Detach(ch)], pc)
  {
    ActAfter(o, actions, Detach(ch));
    run.CancelSubscriber(ch);
  }

  method Enter(run: Run, ghost o: Outcome, ghost before: seq<Action<Channel>>, ghost pc: nat) returns (ch: Channel)
    requires Reached(run, o, before, pc)
    modifies run`subs, run`chans
    ensures fresh(ch) && run.chans == old(run.chans) + {ch} && Reached(run, o, before + [Attach(ch)], pc)
    ensures pc <= |Script(o)| && ch.received == [] && !ch.cancelled
    ensures ch.from == |FullHistory(o)| - 1 <==> pc == |Script(o)| - 1
  {
    ch := run.NewSubscriber();
    ActAfter(o, before, Attach(ch));
    AttachWindow(o, before, ch);
    Grammar(o, before);
    assert ch.View() == run.View().chans[ch];
  }

  /**
   `handleRunEvents`: subscribe, write every event until the channel is closed or the client leaves, and
   unsubscribe. Before the i-th receive the run gets `pace(i)` sections further; a receive from an empty
   open channel waits for one more. The loop ends; a client that stays is sent the full history of the run,
   but for the last event if it subscribed between the last two sections, and a client that leaves early
   has been sent a prefix.
   */
  method HandleRunEvents(run: Run, script: seq<Section>, start: nat, pace: nat -> nat, leaves: nat -> bool,
                         ghost o: Outcome, ghost before: seq<Action<Channel>>)
    returns (written: seq<Event>, left: bool, ghost after: seq<Action<Channel>>, pc: nat)
    requires Possible(o) && script == Script(o) && Reached(run, o, before, start)
    modifies run, run.chans
    ensures Reached(run, o, after, pc)
    ensures left ==> written <= FullHistory(o)
    ensures !left ==>
              var full := FullHistory(o);
              written == if start == |script| - 1 then full[..|full| - 1] else full
  {
    hide Reached;
    hide FullHistory;
    hide Script;
    hide Possible;
    var ch := Enter(run, o, before, start);
    after, pc, written, left := before + [Attach(ch)], start, [], false;
    var ended := false;
    var i := 0;
    while !ended && !left
      invariant start <= pc <= |script| && Reached(run, o, after, pc)
      invariant fresh(ch) && run.chans == old(run.chans) + {ch}
      invariant written == ch.received && !ch.cancelled
      invariant ch.from == |FullHistory(o)| - 1 <==> start == |script| - 1
      invariant ended ==> ch.closed && ch.buf == []
      decreases !ended && !left, |script| - pc, |ch.buf|
    {
      if leaves(i) {
        left := true;
      } else {
        var e;
        e, ended, pc, after := Turn(run, ch, script, pc, pace(i), o, after);
        written := written + if e.Some? then [e.value] else [];
      }
      i := i + 1;
    }
    OwnChannel(run, o, after, pc, ch);
    Leave(run, ch, o, after, pc);
    after := after + [Detach(ch)];
  }
}
