/**
 A run and its subscriber channels as the objects that api/runs.go updates in place. Every method below is
 one lock section (or, for `FinishOk` and `FinishErr`, their uninterrupted sequence) and is proved to
 compute the corresponding function of `RunBus` on the abstract view of the run.
 */
module Runs {
  import opened RunBus
  import opened WorkerTypes
  import opened Wrappers

  /** A Go channel of events. What would panic or block for ever in Go is a precondition here. */
  class Channel {
    const cap: nat
    var buf: seq<Event>
    var closed: bool
    ghost var received: seq<Event>
    ghost var from: nat
    ghost var upto: nat
    ghost var cancelled: bool

    ghost function View(): Chan
      reads this
    {
      Chan(buf, cap, closed, received, from, upto, cancelled)
    }

    constructor (cap: nat, ghost at: nat)
      ensures View() == Chan([], cap, false, [], at, at, false)
    {
      this.cap := cap;
      buf, closed := [], false;
      received, from, upto, cancelled := [], at, at, false;
    }

    /** A blocking send, made while nobody can drain the channel yet: without room it would never return. */
    method Send(e: Event)
      requires !closed && |buf| < cap
      modifies this
      ensures View() == old(View()).(buf := old(buf) + [e])
    {
      buf := buf + [e];
    }

    /** `select { case ch <- e: default: }` */
    method TrySend(e: Event)
      requires !closed
      modifies this
      ensures View() == old(View()).TrySend(e)
    {
      if |buf| < cap {
        buf := buf + [e];
      }
    }

    method Close(ghost at: nat, ghost byReader: bool)
      requires !closed
      modifies this
      ensures View() == old(View()).(closed := true, upto := at, cancelled := byReader || old(cancelled))
    {
      closed := true;
      upto, cancelled := at, byReader || cancelled;
    }

    /** Takes the oldest event. `None` is a receive that blocks (open) or reports the close (closed). */
    method Recv() returns (e: Option<Event>)
      modifies this
      ensures old(buf) == [] ==> e == None && View() == old(View())
      ensures old(buf) != [] ==>
                && e == Some(old(buf)[0])
                && View() == old(View()).(buf := old(buf)[1..], received := old(received) + [old(buf)[0]])
    {
      if buf == [] {
        return None;
      }
      e := Some(buf[0]);
      received := received + [buf[0]];
      buf := buf[1..];
    }
  }

  /** The immutable view that the status endpoint returns. */
  datatype Snapshot = Snapshot(id: string, mode: string, state: RunState, steps: seq<Step>,
                               receiptId: string, errMsg: string)

  /** The snapshot of a run with the given fields. */
  function SnapshotOf<C>(b: Bus<C>, id: string, mode: string): Snapshot {
    Snapshot(id, mode, b.state, b.steps, b.receiptId, b.errMsg)
  }

  class Run {
    const id: string
    const mode: string
    const flow: string
    var state: RunState
    var steps: seq<Step>
    var receiptId: string
    var errMsg: string
    var subs: set<Channel>
    var history: seq<Event>
    /** Every channel that `Subscribe` ever returned. */
    ghost var chans: set<Channel>

    ghost predicate Valid()
      reads this, chans
    {
      && subs <= chans
      && forall c | c in chans :: c in subs <==> !c.closed
    }

    ghost function View(): Bus<Channel>
      reads this, chans
    {
      Bus(state, steps, receiptId, errMsg, history, subs, map c | c in chans :: c.View(), false)
    }

    constructor (id: string, mode: string, flow: string)
      ensures Valid() && View() == NewBus() && chans == {}
      ensures this.id == id && this.mode == mode && this.flow == flow
    {
      this.id, this.mode, this.flow := id, mode, flow;
      state, steps, receiptId, errMsg := Created, [], "", "";
      subs, history, chans := {}, [], {};
    }

    /** `snapshot`: a copy of the fields. */
    method TakeSnapshot() returns (s: Snapshot)
      ensures s == SnapshotOf(View(), id, mode)
      ensures s.id == id && s.mode == mode && s.state == state && s.steps == steps
      ensures s.receiptId == receiptId && s.errMsg == errMsg
    {
      s := Snapshot(id, mode, state, steps, receiptId, errMsg);
    }

    method PublishLocked(e: Event)
      requires Valid()
      modifies this`history, subs
      ensures Valid() && chans == old(chans)
      ensures View() == Publish(old(View()), e)
    {
      history := history + [e];
      var todo := subs;
      while todo != {}
        modifies subs
        invariant todo <= subs
        invariant forall c | c in todo :: !c.closed
        invariant forall c | c in chans ::
                    c.View() == if c in subs - todo then old(c.View()).TrySend(e) else old(c.View())
        decreases todo
      {
        var ch :| ch in todo;
        ch.TrySend(e);
        todo := todo - {ch};
      }
    }

    method CloseSubsLocked()
      requires Valid()
      modifies this`subs, subs
      ensures Valid() && chans == old(chans)
      ensures View() == CloseSubs(old(View()))
    {
      var all := subs;
      while subs != {}
        modifies this`subs, all
        invariant subs <= all
        invariant forall c | c in chans ::
                    c.View() == if c in all - subs then old(c.View()).(closed := true, upto := |history|)
                                else old(c.View())
        decreases subs
      {
        var ch :| ch in subs;
        ch.Close(|history|, false);
        subs := subs - {ch};
      }
    }

    /** `transition`: an illegal transition is rejected and changes nothing. */
    method TransitionTo(next: RunState) returns (ok: bool)
      requires Valid()
      modifies this`state, this`history, subs
      ensures Valid() && chans == old(chans)
      ensures ok == old(state).CanTransition(next)
      ensures ok <==> (old(state) == Created && next == Running)
                      || (old(state) == Running && (next == Complete || next == Failed))
      ensures state == (if ok then next else old(state))
      ensures history == (if ok then old(history) + [StateEvent(next)] else old(history))
      ensures View() == Transition(old(View()), next)
    {
      if !state.CanTransition(next) {
        return false;
      }
      ghost var before := View();
      state := next;
      assert View() == before.(state := next);
      PublishLocked(StateEvent(next));
      return true;
    }

    method EmitStep(s: Step)
      requires Valid()
      modifies this`steps, this`history, subs
      ensures Valid() && chans == old(chans)
      ensures View() == AddStep(old(View()), s)
    {
      ghost var before := View();
      steps := steps + [s];
      assert View() == before.(steps := before.steps + [s]);
      PublishLocked(StepEvent(s));
    }

    method SetReceiptId(receipt: string)
      requires Valid()
      modifies this`receiptId
      ensures Valid() && View() == Perform(old(View()), SetReceipt(receipt))
    {
      receiptId := receipt;
    }

    method SetErrMsg(msg: string)
      requires Valid()
      modifies this`errMsg
      ensures Valid() && View() == Perform(old(View()), SetError(msg))
    {
      errMsg := msg;
    }

    /** The last lock section of both finishes. */
    method PublishLast(e: Event)
      requires Valid()
      modifies this`history, this`subs, subs
      ensures Valid() && chans == old(chans)
      ensures View() == CloseSubs(Publish(old(View()), e))
    {
      PublishLocked(e);
      CloseSubsLocked();
    }

    /** `finishOK`, when no other goroutine gets in between its three sections. */
    method FinishOk(receipt: string)
      requires Valid()
      modifies this, subs
      ensures Valid() && chans == old(chans)
      ensures View() == Perform(Perform(Perform(old(View()),
                          SetReceipt(receipt)), ToState(Complete)), PublishDone(receipt))
    {
      SetReceiptId(receipt);
      var _ := TransitionTo(Complete);
      PublishLast(DoneEvent(receipt));
    }

    /** `finishErr`, likewise. */
    method FinishErr(msg: string)
      requires Valid()
      modifies this, subs
      ensures Valid() && chans == old(chans)
      ensures View() == Perform(Perform(Perform(old(View()),
                          SetError(msg)), ToState(Failed)), PublishError(msg))
    {
      SetErrMsg(msg);
      var _ := TransitionTo(Failed);
      PublishLast(ErrorEvent(msg));
    }

    /** A new channel that already holds the history; its buffer has room for all of it. */
    method NewReplayed() returns (ch: Channel)
      ensures fresh(ch)
      ensures ch.View() == Chan(history, |history| + 16, false, [], |history|, |history|, false)
    {
      ch := new Channel(|history| + SLACK, |history|);
      var i := 0;
      while i < |history|
        modifies ch
        invariant 0 <= i <= |history|
        invariant ch.View() == Chan(history[..i], |history| + SLACK, false, [], |history|, |history|, false)
      {
        ch.Send(history[i]);
        i := i + 1;
      }
    }

    /** `Subscribe`: replays the history into a fresh channel and registers it unless the run is over. */
    method NewSubscriber() returns (ch: Channel)
      requires Valid()
      modifies this`subs, this`chans
      ensures Valid() && fresh(ch) && chans == old(chans) + {ch}
      ensures View() == Subscribe(old(View()), ch)
    {
      ghost var before := View();
      ch := NewReplayed();
      chans := chans + {ch};
      if state.Terminal() {
        ch.Close(|history|, false);
      } else {
        subs := subs + {ch};
      }
      assert ch.View() == ReplayedChan(before);
    }

    /** The unsubscribe function of `ch`: safe to call repeatedly and after the run closed the channel. */
    method CancelSubscriber(ch: Channel)
      requires Valid() && ch in chans
      modifies this`subs, ch
      ensures Valid() && chans == old(chans)
      ensures View() == Unsubscribe(old(View()), ch)
    {
      if ch in subs {
        subs := subs - {ch};
        ch.Close(|history|, true);
      }
    }

    /** A reader's receive, seen from the run. */
    method ReadFrom(ch: Channel) returns (e: Option<Event>)
      requires Valid() && ch in chans
      modifies ch
      ensures Valid()
      ensures View() == Receive(old(View()), ch)
      ensures e == if old(ch.buf) == [] then None else Some(old(ch.buf)[0])
    {
      e := ch.Recv();
    }
  }
}
