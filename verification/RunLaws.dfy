/**
 What the bus guarantees for the runs that the manager really drives: the sections of
 `RunBus.Script`, in which at most twelve events are published.
 */
module RunLaws {
  import opened RunBus
  import opened RunBusLaws
  import opened WorkerTypes

  /** All nine stages were narrated. */
  ghost predicate Narrated(steps: seq<Step>) {
    exists hashes: map<string, string> :: steps == NarratedSteps(hashes, |FLOW_STEPS|)
  }

  /**
   The outcomes that the worker and the store can produce: a run that completes or fails in the store has
   narrated all stages; a run that fails in the worker may have emitted nothing (mode refused), the single
   failed step (node call), or all stages (the bundle or the receipt could not be encoded).
   */
  ghost predicate Possible(o: Outcome) {
    match o
    case Completed(steps, id) => Narrated(steps) && id != ""
    case WorkerFailed(steps, _) => steps == [] || steps == [RUN_FAILED_STEP] || Narrated(steps)
    case StoreFailed(steps, _, _) => Narrated(steps)
  }

  // ---- The grammar of every run ----

  function StepEvents(steps: seq<Step>): (events: seq<Event>)
    ensures |events| == |steps|
  {
    seq(|steps|, i requires 0 <= i < |steps| => StepEvent(steps[i]))
  }

  /** The last two events of a run. */
  function ClosingEvents(o: Outcome): seq<Event> {
    match o
    case Completed(_, id) => [StateEvent(Complete), DoneEvent(id)]
    case WorkerFailed(_, msg) => [StateEvent(Failed), ErrorEvent(msg)]
    case StoreFailed(_, _, msg) => [StateEvent(Failed), ErrorEvent(msg)]
  }

  /** The history of a finished run: state(running), its steps, then its two closing events. */
  function FullHistory(o: Outcome): seq<Event> {
    [StateEvent(Running)] + StepEvents(o.steps) + ClosingEvents(o)
  }

  lemma AtMostTwelveEvents(o: Outcome)
    requires Possible(o)
    ensures |FullHistory(o)| <= 12
  {
    assert |FLOW_STEPS| == 9;
  }

  function FinalState(o: Outcome): RunState {
    if o.Completed? then Complete else Failed
  }

  /** How many events were published by the first `pc` sections. */
  function Published(o: Outcome, pc: nat): nat {
    var n, end := |o.steps|, |Script(o)|;
    if pc < 2 then 0
    else if pc <= n + 2 then pc - 1
    else if pc + 1 < end then n + 1
    else if pc + 1 == end then n + 2
    else n + 3
  }

  function StateAt(o: Outcome, pc: nat): RunState {
    if pc < 2 then Created else if pc + 1 < |Script(o)| then Running else FinalState(o)
  }

  /** The receipt ID is set two sections before the end of a completed run, ahead of the state. */
  function ReceiptAt(o: Outcome, pc: nat): string {
    if o.Completed? && pc + 2 >= |Script(o)| then o.id else ""
  }

  /** Likewise the error text of a failed run. */
  function ErrMsgAt(o: Outcome, pc: nat): string {
    if !o.Completed? && pc + 2 >= |Script(o)| then o.msg else ""
  }

  function StepsAt(o: Outcome, pc: nat): seq<Step> {
    if pc < 2 then [] else if pc <= |o.steps| + 2 then o.steps[..pc - 2] else o.steps
  }

  lemma PublishedBound(o: Outcome, pc: nat)
    ensures Published(o, pc) <= |FullHistory(o)|
    ensures Published(o, pc) == |FullHistory(o)| <==> pc >= |Script(o)|
    ensures Published(o, pc) == |FullHistory(o)| - 1 <==> pc == |Script(o)| - 1
  {
  }

  /** The fields of a run after its first `pc` sections, whatever its channels are. */
  predicate AtPoint<C(==)>(b: Bus<C>, o: Outcome, pc: nat) {
    && Published(o, pc) <= |FullHistory(o)|
    && b.history == FullHistory(o)[..Published(o, pc)]
    && b.state == StateAt(o, pc)
    && b.steps == StepsAt(o, pc)
    && b.receiptId == ReceiptAt(o, pc)
    && b.errMsg == ErrMsgAt(o, pc)
  }

  lemma FirstSections<C>(b: Bus<C>, o: Outcome, pc: nat)
    requires pc < 2 && AtPoint(b, o, pc)
    ensures AtPoint(Perform(b, Script(o)[pc]), o, pc + 1)
  {
  }

  lemma StepSections<C>(b: Bus<C>, o: Outcome, pc: nat)
    requires 2 <= pc < |o.steps| + 2 && AtPoint(b, o, pc)
    ensures AtPoint(Perform(b, Script(o)[pc]), o, pc + 1)
  {
    var s := o.steps[pc - 2];
    assert Script(o)[pc] == EmitAll(o.steps)[pc - 2] == EmitStep(s);
    assert FullHistory(o)[..pc] == FullHistory(o)[..pc - 1] + [StepEvent(s)];
    assert o.steps[..pc - 1] == o.steps[..pc - 2] + [s];
  }

  /** What the ending appends to the history when it performs its section `j` in state Running. */
  function EndingEvents(o: Outcome, j: nat): seq<Event> {
    if j + 2 == |Ending(o)| then [ClosingEvents(o)[0]]
    else if j + 1 == |Ending(o)| then [ClosingEvents(o)[1]]
    else []
  }

  lemma EndingHistory(o: Outcome, j: nat)
    requires j < |Ending(o)|
    ensures
      var pc := |o.steps| + 2 + j;
      && pc < |Script(o)| && Script(o)[pc] == Ending(o)[j]
      && Published(o, pc) <= Published(o, pc + 1) <= |FullHistory(o)|
      && FullHistory(o)[..Published(o, pc + 1)] == FullHistory(o)[..Published(o, pc)] + EndingEvents(o, j)
  {
    var pc := |o.steps| + 2 + j;
    ScriptEnds(o, j);
    HistoryEnds(o);
    hide FullHistory;
    hide Script;
  }

  lemma ScriptEnds(o: Outcome, j: nat)
    requires j < |Ending(o)|
    ensures |Script(o)| == |o.steps| + 2 + |Ending(o)| && Script(o)[|o.steps| + 2 + j] == Ending(o)[j]
  {
    assert |[Count(RunsStarted), ToState(Running)] + EmitAll(o.steps)| == |o.steps| + 2;
    hide Ending;
    hide EmitAll;
  }

  /** The prefixes of a full history from its last step on. */
  lemma HistoryEnds(o: Outcome)
    ensures
      var full, n := FullHistory(o), |o.steps| + 1;
      && |full| == n + 2
      && full[..n + 1] == full[..n] + [ClosingEvents(o)[0]]
      && full[..n + 2] == full[..n + 1] + [ClosingEvents(o)[1]]
  {
    var open, closing := [StateEvent(Running)] + StepEvents(o.steps), ClosingEvents(o);
    assert FullHistory(o) == open + closing && |open| == |o.steps| + 1 && |closing| == 2;
    hide StepEvents;
    hide ClosingEvents;
    assert (open + closing)[..|open|] == open;
    assert (open + closing)[..|open| + 1] == open + [closing[0]];
    assert (open + closing)[..|open| + 2] == open + [closing[0]] + [closing[1]];
  }

  lemma EndingPerformed<C>(b: Bus<C>, o: Outcome, j: nat)
    requires j < |Ending(o)|
    requires b.state == StateAt(o, |o.steps| + 2 + j)
    ensures
      var b' := Perform(b, Ending(o)[j]);
      && b'.history == b.history + EndingEvents(o, j)
      && b'.state == StateAt(o, |o.steps| + 3 + j)
      && b'.steps == b.steps
      && b'.receiptId == (if o.Completed? && j + 3 == |Ending(o)| then o.id else b.receiptId)
      && b'.errMsg == (if !o.Completed? && j + 3 == |Ending(o)| then o.msg else b.errMsg)
  {
    assert |Script(o)| == |o.steps| + 2 + |Ending(o)|;
  }

  lemma EndingSections<C>(b: Bus<C>, o: Outcome, pc: nat)
    requires |o.steps| + 2 <= pc < |Script(o)| && AtPoint(b, o, pc)
    ensures AtPoint(Perform(b, Script(o)[pc]), o, pc + 1)
  {
    var j := pc - |o.steps| - 2;
    EndingHistory(o, j);
    EndingPerformed(b, o, j);
    assert o.steps[..pc - 2 - j] == o.steps;
  }

  lemma PerformNext<C>(b: Bus<C>, script: seq<Section>, pc: nat)
    requires pc < |script|
    ensures PerformAll(b, script[..pc + 1]) == Perform(PerformAll(b, script[..pc]), script[pc])
  {
    hide Perform;
    assert script[..pc + 1][..pc] == script[..pc];
  }

  lemma {:induction false} NextSection<C>(b: Bus<C>, o: Outcome, pc: nat)
    requires pc < |Script(o)| && AtPoint(b, o, pc)
    ensures AtPoint(Perform(b, Script(o)[pc]), o, pc + 1)
  {
    hide AtPoint;
    hide Perform;
    if pc < 2 {
      FirstSections(b, o, pc);
    } else if pc < |o.steps| + 2 {
      StepSections(b, o, pc);
    } else {
      EndingSections(b, o, pc);
    }
  }

  lemma {:induction false} LifecycleAt<C>(o: Outcome, pc: nat)
    requires pc <= |Script(o)|
    ensures AtPoint(PerformAll(NewBus<C>(), Script(o)[..pc]), o, pc)
  {
    hide AtPoint;
    hide Perform;
    hide PerformAll;
    hide Script;
    if pc > 0 {
      LifecycleAt<C>(o, pc - 1);
      PerformNext(NewBus<C>(), Script(o), pc - 1);
      NextSection(PerformAll(NewBus<C>(), Script(o)[..pc - 1]), o, pc - 1);
    } else {
      StartsAtZero<C>(o);
    }
  }

  lemma StartsAtZero<C>(o: Outcome)
    ensures AtPoint(PerformAll(NewBus<C>(), Script(o)[..0]), o, 0)
  {
    assert Script(o)[..0] == [];
    assert FullHistory(o)[..0] == [];
    hide Ending;
    hide EmitAll;
    hide StepEvents;
  }

  /**
   Grammar of every run. In every interleaving the fields of the run depend only on how far its goroutine
   is: the history is a prefix of state(running), steps, state(complete) done(id) or state(failed) error(msg),
   complete exactly when the last section was performed.
   */
  lemma {:induction false} Grammar<C>(o: Outcome, actions: seq<Action<C>>)
    ensures
      var s := After(Script(o), actions);
      && s.bus.history <= FullHistory(o)
      && s.pc <= |Script(o)|
      && (s.bus.history == FullHistory(o) <==> s.pc == |Script(o)|)
      && (s.bus.state.Terminal() <==> s.pc + 1 >= |Script(o)|)
      && AtPoint(s.bus, o, s.pc)
  {
    ClientsDoNotInterfere(Script(o), actions);
    var s := After(Script(o), actions);
    LifecycleAt<C>(o, s.pc);
    PublishedBound(o, s.pc);
    assert AtPoint(Core(s.bus), o, s.pc);
  }

  // ---- No event is lost ----

  /**
   No loss. In every interleaving, what a client has received plus what is still buffered for it is exactly
   the history up to the moment it left (all of it while it is registered), and its channel always has
   room for the next event, so that a publish never drops one.
   */
  lemma {:induction false} NoLoss<C>(o: Outcome, actions: seq<Action<C>>, c: C)
    requires Possible(o)
    requires c in After(Script(o), actions).bus.chans
    ensures
      var b := After(Script(o), actions).bus;
      var ch := b.chans[c];
      && WindowEnd(b, c) <= |b.history|
      && ch.received + ch.buf == b.history[..WindowEnd(b, c)]
      && |ch.buf| < ch.cap
  {
    hide After;
    hide Possible;
    hide Script;
    hide FullHistory;
    hide AtPoint;
    hide ChanInv;
    AtMostTwelveEvents(o);
    Grammar(o, actions);
    Invariant(Script(o), actions);
    hide LastState;
    hide StepsOf;
    WholeStream(After(Script(o), actions).bus, c);
  }

  /** While fewer than 16 events were published a channel misses nothing and has room. */
  lemma WholeStream<C>(b: Bus<C>, c: C)
    requires c in b.chans && ChanInv(b, c) && |b.history| < SLACK
    ensures WindowEnd(b, c) <= |b.history|
    ensures b.chans[c].received + b.chans[c].buf == b.history[..WindowEnd(b, c)]
    ensures |b.chans[c].buf| < b.chans[c].cap
  {
    var ch := b.chans[c];
    var base, later := b.history[..ch.from], b.history[ch.from..WindowEnd(b, c)];
    DeliversAll(ch.Stream(), base, later);
    hide Delivers;
    assert base + later == b.history[..WindowEnd(b, c)];
  }

  // ---- How a stream ends ----

  /** `from` tells when a channel was created: after the terminal state event or before it. */
  ghost predicate EndInv<C>(o: Outcome, s: Sys<C>) {
    && s.bus.subs <= s.bus.chans.Keys
    && (s.pc == |Script(o)| ==> s.bus.subs == {})
    && forall c | c in s.bus.chans ::
         var ch, n := s.bus.chans[c], |FullHistory(o)|;
         && (c in s.bus.subs ==> !ch.closed && !ch.cancelled && ch.from + 1 < n)
         && (c !in s.bus.subs ==> ch.closed)
         && (ch.from + 1 >= n ==> !ch.cancelled && ch.upto == ch.from)
         && (ch.closed && !ch.cancelled && ch.from + 1 < n ==> ch.upto == n)
  }

  /** Only the two publishing endings close channels; no other section touches their bookkeeping. */
  lemma PerformFrame<C>(b: Bus<C>, section: Section)
    requires !section.PublishDone? && !section.PublishError?
    ensures
      var b' := Perform(b, section);
      && b'.subs == b.subs && b'.chans.Keys == b.chans.Keys
      && (forall c | c in b.chans ::
            var ch, ch' := b.chans[c], b'.chans[c];
            ch'.closed == ch.closed && ch'.cancelled == ch.cancelled && ch'.from == ch.from && ch'.upto == ch.upto)
  {
  }

  lemma ClosingFrame<C>(b: Bus<C>, section: Section)
    requires section.PublishDone? || section.PublishError?
    ensures
      var b' := Perform(b, section);
      && b'.subs == {} && b'.chans.Keys == b.chans.Keys
      && (forall c | c in b.chans ::
            var ch, ch' := b.chans[c], b'.chans[c];
            && ch'.cancelled == ch.cancelled && ch'.from == ch.from
            && ch'.closed == (ch.closed || c in b.subs)
            && ch'.upto == if c in b.subs then |b.history| + 1 else ch.upto)
  {
  }

  lemma {:induction false} ExecKeepsEnd<C>(o: Outcome, s: Sys<C>)
    requires EndInv(o, s) && s.pc < |Script(o)|
    requires AtPoint(s.bus, o, s.pc)
    ensures EndInv(o, Act(Script(o), s, Exec))
  {
    var section := Script(o)[s.pc];
    PublishedBound(o, s.pc);
    if s.pc + 1 < |Script(o)| {
      NotClosing(o, s.pc);
      PerformFrame(s.bus, section);
    } else {
      EndingHistory(o, |Ending(o)| - 1);
      ClosingFrame(s.bus, section);
    }
    hide FullHistory;
    hide Script;
    hide StateAt;
    hide StepsAt;
    hide ReceiptAt;
    hide ErrMsgAt;
    hide Published;
    hide Perform;
  }

  lemma NotClosing(o: Outcome, pc: nat)
    requires pc + 1 < |Script(o)|
    ensures !Script(o)[pc].PublishDone? && !Script(o)[pc].PublishError?
  {
    if pc >= |o.steps| + 2 {
      EndingHistory(o, pc - |o.steps| - 2);
    }
  }

  lemma {:induction false} ActKeepsEnd<C>(o: Outcome, s: Sys<C>, a: Action<C>)
    requires EndInv(o, s) && s.pc <= |Script(o)|
    requires AtPoint(s.bus, o, s.pc)
    ensures EndInv(o, Act(Script(o), s, a))
  {
    PublishedBound(o, s.pc);
    if a.Exec? && s.pc < |Script(o)| {
      ExecKeepsEnd(o, s);
    }
  }

  lemma {:induction false} EndInvariant<C>(o: Outcome, actions: seq<Action<C>>)
    ensures EndInv(o, After(Script(o), actions))
  {
    if actions != [] {
      var before := actions[..|actions| - 1];
      EndInvariant(o, before);
      Grammar(o, before);
      ActKeepsEnd(o, After(Script(o), before), actions[|actions| - 1]);
    }
  }

  /**
   How a stream can end. A channel that its client did not cancel and that is closed carries the full
   history of the run, except when it was created in the window between the terminal state event and the
   last section: then exactly the last event is missing. Once the run has performed its last section,
   `subs` is empty for ever and every channel is closed.
   */
  lemma {:induction false} StreamEnd<C>(o: Outcome, actions: seq<Action<C>>, c: C)
    requires Possible(o)
    requires c in After(Script(o), actions).bus.chans
    ensures
      var s := After(Script(o), actions);
      var ch := s.bus.chans[c];
      var full := FullHistory(o);
      && (ch.closed && !ch.cancelled ==>
            ch.received + ch.buf == if ch.from == |full| - 1 then full[..|full| - 1] else full)
      && (s.pc == |Script(o)| ==> s.bus.subs == {} && ch.closed)
  {
    hide After;
    hide Script;
    NoLoss(o, actions, c);
    EndInvariant(o, actions);
    Grammar(o, actions);
    BusLaw(Script(o), actions, c);
  }

  lemma {:induction false} FinishedStays<C>(script: seq<Section>, actions: seq<Action<C>>, more: seq<Action<C>>)
    requires After(script, actions).pc == |script|
    ensures After(script, actions + more).pc == |script|
  {
    if more == [] {
      assert actions + more == actions;
    } else {
      assert (actions + more)[..|actions + more| - 1] == actions + more[..|more| - 1];
      FinishedStays(script, actions, more[..|more| - 1]);
    }
  }

  /** From the last section of any run on, whatever clients do, `subs` is empty and every channel is closed. */
  lemma {:induction false} ClosedForEver<C>(o: Outcome, actions: seq<Action<C>>, more: seq<Action<C>>)
    requires After(Script(o), actions).pc == |Script(o)|
    ensures
      var b := After(Script(o), actions + more).bus;
      && b.subs == {} && b.history == FullHistory(o)
      && (forall c | c in b.chans :: b.chans[c].closed)
  {
    FinishedStays(Script(o), actions, more);
    EndInvariant(o, actions + more);
    Grammar(o, actions + more);
    hide After;
    hide Script;
    hide FullHistory;
  }

  /**
   The window is exactly the moment between the last two sections: a client that attaches then, or after
   the end, is never registered.
   */
  lemma {:induction false} AttachWindow<C>(o: Outcome, actions: seq<Action<C>>, c: C)
    requires c !in After(Script(o), actions).bus.chans
    ensures
      var s := After(Script(o), actions);
      var ch := After(Script(o), actions + [Attach(c)]).bus.chans[c];
      && (ch.from == |FullHistory(o)| - 1 <==> s.pc == |Script(o)| - 1)
      && (ch.closed <==> s.pc >= |Script(o)| - 1)
  {
    Grammar(o, actions);
    PublishedBound(o, After(Script(o), actions).pc);
    assert (actions + [Attach(c)])[..|actions|] == actions;
  }

  /** The goroutine of the run performs `n` sections with no client around. */
  function Alone<C>(n: nat): (actions: seq<Action<C>>)
    ensures |actions| == n
  {
    seq(n, _ => Exec)
  }

  lemma {:induction false} AloneReaches<C>(script: seq<Section>, n: nat)
    requires n <= |script|
    ensures After(script, Alone<C>(n)).pc == n && After(script, Alone<C>(n)).bus.chans == map[]
  {
    if n > 0 {
      AloneReaches<C>(script, n - 1);
      assert Alone<C>(n)[..n - 1] == Alone<C>(n - 1);
    }
  }

  /** A client that attaches in the window: the run performs all but its last section, then the client subscribes. */
  function InWindow<C>(o: Outcome, c: C): seq<Action<C>> {
    Alone(|Script(o)| - 1) + [Attach(c)] + [Exec]
  }

  lemma Attached<C>(script: seq<Section>, actions: seq<Action<C>>, c: C)
    requires c !in After(script, actions).bus.chans
    ensures
      var before, s := After(script, actions), After(script, actions + [Attach(c)]);
      s.pc == before.pc && c in s.bus.chans && s.bus.chans[c] == ReplayedChan(before.bus)
  {
    assert (actions + [Attach(c)])[..|actions|] == actions;
  }

  lemma AttachedInWindow<C>(o: Outcome, c: C)
    ensures
      var s := After(Script(o), Alone(|Script(o)| - 1) + [Attach(c)]);
      var full := FullHistory(o);
      && s.pc == |Script(o)| - 1
      && c in s.bus.chans && c !in s.bus.subs
      && s.bus.chans[c] == Chan(full[..|full| - 1], |full| - 1 + SLACK, true, [], |full| - 1, |full| - 1, false)
  {
    var n := |Script(o)| - 1;
    AloneReaches<C>(Script(o), n);
    Attached(Script(o), Alone(n), c);
    Grammar(o, Alone<C>(n));
    PublishedBound(o, n);
    ChannelSafety(Script(o), Alone(n) + [Attach(c)]);
    hide After;
    hide Script;
    hide FullHistory;
    hide StateAt;
    hide StepsAt;
    hide ReceiptAt;
    hide ErrMsgAt;
    hide Published;
  }

  /**
   The window can be hit in every run: such a client is closed by the run and not by itself, and its stream is
   one event short.
   */
  lemma {:induction false} WindowReached<C>(o: Outcome, c: C)
    ensures
      var s := After(Script(o), InWindow(o, c));
      && s.pc == |Script(o)|
      && c in s.bus.chans && s.bus.chans[c].closed && !s.bus.chans[c].cancelled
      && s.bus.chans[c].from == |FullHistory(o)| - 1
      && s.bus.chans[c].Stream() == FullHistory(o)[..|FullHistory(o)| - 1]
  {
    AttachedInWindow(o, c);
    var attached := Alone<C>(|Script(o)| - 1) + [Attach(c)];
    assert InWindow(o, c)[..|attached|] == attached;
    ClosedKeepsChan(After(Script(o), attached).bus, Script(o)[|Script(o)| - 1], c);
    hide Perform;
    hide Script;
    hide FullHistory;
  }

  /** No section touches a channel that is closed. */
  lemma ClosedKeepsChan<C>(b: Bus<C>, section: Section, c: C)
    requires c in b.chans && c !in b.subs
    ensures c in Perform(b, section).chans && Perform(b, section).chans[c] == b.chans[c]
  {
  }
}
