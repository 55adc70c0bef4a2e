/**
 What the bus of one run guarantees in every interleaving. The goroutine that drives the run performs
 its script one lock section at a time; between any two sections any number of clients may attach,
 detach and read. The first part holds for an arbitrary script, that is for any publisher at all.
 */
module RunBusLaws {
  import opened RunBus
  import opened WorkerTypes

  datatype Action<C> = Exec | Attach(c: C) | Detach(c: C) | Read(c: C)

  /** `pc` counts the sections of the script that were performed. */
  datatype Sys<C> = Sys(bus: Bus<C>, pc: nat)

  function Act<C(==)>(script: seq<Section>, s: Sys<C>, a: Action<C>): Sys<C> {
    match a
    case Exec => if s.pc < |script| then Sys(Perform(s.bus, script[s.pc]), s.pc + 1) else s
    case Attach(c) => if c !in s.bus.chans then s.(bus := Subscribe(s.bus, c)) else s
    case Detach(c) => s.(bus := Unsubscribe(s.bus, c))
    case Read(c) => s.(bus := Receive(s.bus, c))
  }

  /** The state after a sequence of actions, starting from a run that was just created. */
  function After<C(==)>(script: seq<Section>, actions: seq<Action<C>>): Sys<C> {
    if actions == [] then Sys(NewBus(), 0)
    else Act(script, After(script, actions[..|actions| - 1]), actions[|actions| - 1])
  }

  // ---- The law of one channel ----

  /** `a` is obtained from `b` by leaving out some elements. */
  predicate Subsequence<T(==)>(a: seq<T>, b: seq<T>) {
    if |b| == 0 then |a| == 0
    else
      || Subsequence(a, b[..|b| - 1])
      || (|a| > 0 && a[|a| - 1] == b[|b| - 1] && Subsequence(a[..|a| - 1], b[..|b| - 1]))
  }

  lemma SubsequenceLength<T>(a: seq<T>, b: seq<T>)
    requires Subsequence(a, b)
    ensures |a| <= |b|
    ensures |a| == |b| ==> a == b
  {
    if |b| > 0 {
      if Subsequence(a, b[..|b| - 1]) {
        SubsequenceLength(a, b[..|b| - 1]);
      } else {
        SubsequenceLength(a[..|a| - 1], b[..|b| - 1]);
        if |a| == |b| {
          assert a == a[..|a| - 1] + [a[|a| - 1]] == b;
        }
      }
    }
  }

  /** The first 16 events of a sequence, or all of them if there are fewer. */
  function FirstSixteen(events: seq<Event>): seq<Event> {
    if |events| <= 16 then events else events[..16]
  }

  /**
   A stream that starts with `base` and goes on with an in-order selection of `later` in which none of
   the first 16 events is missing.
   */
  ghost predicate Delivers(stream: seq<Event>, base: seq<Event>, later: seq<Event>) {
    && base <= stream
    && Subsequence(stream[|base|..], later)
    && FirstSixteen(later) <= stream[|base|..]
  }

  /** As long as at most 16 events followed, nothing is missing. */
  lemma DeliversAll(stream: seq<Event>, base: seq<Event>, later: seq<Event>)
    requires Delivers(stream, base, later) && |later| <= SLACK
    ensures stream == base + later
  {
    var live := stream[|base|..];
    SubsequenceLength(live, later);
    assert stream == base + live;
  }

  lemma DeliversMore(stream: seq<Event>, base: seq<Event>, later: seq<Event>, e: Event, room: bool)
    requires Delivers(stream, base, later)
    requires !room ==> |later| >= SLACK
    ensures Delivers(if room then stream + [e] else stream, base, later + [e])
  {
    var live, more := stream[|base|..], later + [e];
    assert more[..|more| - 1] == later;
    if |later| >= SLACK {
      assert FirstSixteen(more) == FirstSixteen(later);
    } else {
      DeliversAll(stream, base, later);
      assert FirstSixteen(more) == live + [e];
    }
    if room {
      assert (stream + [e])[|base|..] == live + [e];
      assert (live + [e])[..|live|] == live;
    }
  }

  // ---- The invariant of the bus ----

  /** One past the last event that was published while `c` was registered. */
  function WindowEnd<C(==)>(b: Bus<C>, c: C): nat
    requires c in b.chans
  {
    if c in b.subs then |b.history| else b.chans[c].upto
  }

  ghost predicate ChanInv<C>(b: Bus<C>, c: C)
    requires c in b.chans
  {
    var ch := b.chans[c];
    && (c in b.subs <==> !ch.closed)
    && ch.from <= WindowEnd(b, c) <= |b.history|
    && |ch.buf| <= ch.cap == ch.from + SLACK
    && (ch.cancelled ==> ch.closed)
    && Delivers(ch.Stream(), b.history[..ch.from], b.history[ch.from..WindowEnd(b, c)])
  }

  function LastState(history: seq<Event>): RunState {
    if history == [] then Created
    else if history[|history| - 1].StateEvent? then history[|history| - 1].state
    else LastState(history[..|history| - 1])
  }

  function StepsOf(history: seq<Event>): seq<Step> {
    if history == [] then []
    else
      var rest := StepsOf(history[..|history| - 1]);
      var e := history[|history| - 1];
      if e.StepEvent? then rest + [e.step] else rest
  }

  ghost predicate BusInv<C>(b: Bus<C>) {
    && b.subs <= b.chans.Keys
    && !b.crashed
    && b.state == LastState(b.history)
    && b.steps == StepsOf(b.history)
    && (forall c | c in b.chans :: ChanInv(b, c))
  }

  /** What publishing does to one channel. */
  lemma PublishedChan<C>(b: Bus<C>, e: Event, c: C)
    requires c in b.chans
    ensures
      var b' := Publish(b, e);
      && c in b'.chans && b'.subs == b.subs && b'.history == b.history + [e]
      && b'.chans[c] == if c in b.subs then b.chans[c].TrySend(e) else b.chans[c]
  {
  }

  lemma TrySendStream(ch: Chan, e: Event)
    ensures ch.TrySend(e).Stream() == if |ch.buf| < ch.cap then ch.Stream() + [e] else ch.Stream()
  {
  }

  /** Appending to a sequence appends to each of its suffixes. */
  lemma SuffixOfAppended<T>(s: seq<T>, x: T, from: nat)
    requires from <= |s|
    ensures (s + [x])[..from] == s[..from]
    ensures (s + [x])[from..|s| + 1] == s[from..] + [x]
  {
  }

  /** A registered channel gets the event or, if it is full, has missed none of the first 16. */
  lemma RegisteredAfterPublish<C>(b: Bus<C>, e: Event, c: C)
    requires c in b.chans && c in b.subs && ChanInv(b, c)
    ensures ChanInv(Publish(b, e), c)
  {
    var ch := b.chans[c];
    PublishedChan(b, e, c);
    TrySendStream(ch, e);
    hide Publish;
    var base, later := b.history[..ch.from], b.history[ch.from..];
    assert later == b.history[ch.from..WindowEnd(b, c)];
    if |later| < SLACK {
      DeliversAll(ch.Stream(), base, later);
    }
    DeliversMore(ch.Stream(), base, later, e, |ch.buf| < ch.cap);
    hide Delivers;
    hide Chan.Stream;
    SuffixOfAppended(b.history, e, ch.from);
    var b' := Publish(b, e);
    assert b'.history[..ch.from] == base;
    assert WindowEnd(b', c) == |b.history| + 1;
    assert b'.history[ch.from..WindowEnd(b', c)] == later + [e];
  }

  /** A channel that left `subs` is not touched. */
  lemma OthersAfterPublish<C>(b: Bus<C>, e: Event, c: C)
    requires c in b.chans && c !in b.subs && ChanInv(b, c)
    ensures ChanInv(Publish(b, e), c)
  {
    var ch := b.chans[c];
    PublishedChan(b, e, c);
    hide Publish;
    hide Delivers;
    var b' := Publish(b, e);
    assert b'.history[..ch.from] == b.history[..ch.from];
    assert b'.history[ch.from..ch.upto] == b.history[ch.from..ch.upto];
  }

  lemma ChanAfterPublish<C>(b: Bus<C>, e: Event, c: C)
    requires c in b.chans && ChanInv(b, c)
    ensures ChanInv(Publish(b, e), c)
  {
    if c in b.subs {
      RegisteredAfterPublish(b, e, c);
    } else {
      OthersAfterPublish(b, e, c);
    }
  }

  lemma {:induction false} PublishKeepsInv<C>(b: Bus<C>, e: Event)
    requires b.subs <= b.chans.Keys && !b.crashed && (forall c | c in b.chans :: ChanInv(b, c))
    requires b.state == LastState(b.history + [e])
    requires b.steps == StepsOf(b.history + [e])
    ensures BusInv(Publish(b, e))
  {
    forall c | c in b.chans ensures ChanInv(Publish(b, e), c) {
      ChanAfterPublish(b, e, c);
    }
    forall c | c in b.subs ensures !b.chans[c].closed {
      assert ChanInv(b, c);
    }
  }

  lemma AppendedEvent(history: seq<Event>, e: Event)
    ensures LastState(history + [e]) == if e.StateEvent? then e.state else LastState(history)
    ensures StepsOf(history + [e]) == if e.StepEvent? then StepsOf(history) + [e.step] else StepsOf(history)
  {
    assert (history + [e])[..|history|] == history;
  }

  lemma CloseSubsKeepsInv<C>(b: Bus<C>)
    requires BusInv(b)
    ensures BusInv(CloseSubs(b))
  {
    hide LastState;
    hide StepsOf;
    hide Delivers;
    var b' := CloseSubs(b);
    forall c | c in b.chans ensures ChanInv(b', c) && (c in b.subs ==> !b.chans[c].closed) {
      assert ChanInv(b, c);
      assert b'.chans[c].Stream() == b.chans[c].Stream();
    }
  }

  lemma SameChannels<C>(b: Bus<C>, b': Bus<C>)
    requires BusInv(b)
    requires b'.chans == b.chans && b'.subs == b.subs && b'.history == b.history
    ensures forall c | c in b'.chans :: ChanInv(b', c)
  {
    hide LastState;
    hide StepsOf;
    hide Delivers;
    forall c | c in b'.chans ensures ChanInv(b', c) {
      assert ChanInv(b, c);
    }
  }

  lemma {:induction false} PerformKeepsInv<C>(b: Bus<C>, section: Section)
    requires BusInv(b)
    ensures BusInv(Perform(b, section))
  {
    match section
    case ToState(next) =>
      AppendedEvent(b.history, StateEvent(next));
      SameChannels(b, b.(state := next));
      if b.state.CanTransition(next) {
        PublishKeepsInv(b.(state := next), StateEvent(next));
      }
    case EmitStep(s) =>
      AppendedEvent(b.history, StepEvent(s));
      SameChannels(b, b.(steps := b.steps + [s]));
      PublishKeepsInv(b.(steps := b.steps + [s]), StepEvent(s));
    case PublishDone(id) =>
      AppendedEvent(b.history, DoneEvent(id));
      PublishKeepsInv(b, DoneEvent(id));
      CloseSubsKeepsInv(Publish(b, DoneEvent(id)));
    case PublishError(msg) =>
      AppendedEvent(b.history, ErrorEvent(msg));
      PublishKeepsInv(b, ErrorEvent(msg));
      CloseSubsKeepsInv(Publish(b, ErrorEvent(msg)));
    case _ =>
      SameChannels(b, Perform(b, section));
  }

  /** Attaching, detaching or reading touches one channel. */
  lemma OtherChannels<C>(b: Bus<C>, b': Bus<C>, c: C)
    requires BusInv(b)
    requires b'.history == b.history
    requires forall d | d in b'.chans && d != c :: d in b.chans && b'.chans[d] == b.chans[d]
    requires forall d | d != c :: d in b'.subs <==> d in b.subs
    ensures forall d | d in b'.chans && d != c :: ChanInv(b', d)
  {
    hide LastState;
    hide StepsOf;
    hide Delivers;
    forall d | d in b'.chans && d != c ensures ChanInv(b', d) {
      assert ChanInv(b, d);
    }
  }

  lemma AttachKeepsInv<C>(b: Bus<C>, c: C)
    requires BusInv(b) && c !in b.chans
    ensures BusInv(Subscribe(b, c))
  {
    hide LastState;
    hide StepsOf;
    var b' := Subscribe(b, c);
    OtherChannels(b, b', c);
    assert ChanInv(b', c) by {
      assert b.history[..|b.history|] == b.history;
      assert b'.chans[c].Stream() == b.history;
    }
  }

  lemma DetachKeepsInv<C>(b: Bus<C>, c: C)
    requires BusInv(b)
    ensures BusInv(Unsubscribe(b, c))
  {
    hide LastState;
    hide StepsOf;
    hide Delivers;
    if c in b.subs {
      var b' := Unsubscribe(b, c);
      assert ChanInv(b, c);
      OtherChannels(b, b', c);
      assert b'.chans[c].Stream() == b.chans[c].Stream();
    }
  }

  lemma {:induction false} ReadKeepsInv<C>(b: Bus<C>, c: C)
    requires BusInv(b)
    ensures BusInv(Receive(b, c))
  {
    hide LastState;
    hide StepsOf;
    hide Delivers;
    if c in b.chans && b.chans[c].buf != [] {
      var b' := Receive(b, c);
      assert ChanInv(b, c);
      OtherChannels(b, b', c);
      assert b'.chans[c].Stream() == b.chans[c].Stream();
    }
  }

  lemma {:induction false} ActKeepsInv<C>(script: seq<Section>, s: Sys<C>, a: Action<C>)
    requires BusInv(s.bus)
    ensures BusInv(Act(script, s, a).bus)
  {
    match a
    case Exec =>
      if s.pc < |script| {
        PerformKeepsInv(s.bus, script[s.pc]);
      }
    case Attach(c) =>
      if c !in s.bus.chans {
        AttachKeepsInv(s.bus, c);
      }
    case Detach(c) => DetachKeepsInv(s.bus, c);
    case Read(c) => ReadKeepsInv(s.bus, c);
  }

  lemma {:induction false} Invariant<C>(script: seq<Section>, actions: seq<Action<C>>)
    ensures BusInv(After(script, actions).bus)
  {
    if actions != [] {
      hide Act;
      hide BusInv;
      Invariant(script, actions[..|actions| - 1]);
      ActKeepsInv(script, After(script, actions[..|actions| - 1]), actions[|actions| - 1]);
    }
  }

  // ---- Main results for an arbitrary publisher ----

  /**
   Bus law. Whatever is published and however slowly a client reads, its stream is the history at the
   moment it attached, followed by an in-order selection of what was published while it was registered,
   and that selection misses none of the first 16 events.
   */
  lemma {:induction false} BusLaw<C>(script: seq<Section>, actions: seq<Action<C>>, c: C)
    requires c in After(script, actions).bus.chans
    ensures
      var b := After(script, actions).bus;
      var ch := b.chans[c];
      && ch.from <= WindowEnd(b, c) <= |b.history|
      && Delivers(ch.received + ch.buf, b.history[..ch.from], b.history[ch.from..WindowEnd(b, c)])
  {
    hide After;
    hide Delivers;
    Invariant(script, actions);
    assert ChanInv(After(script, actions).bus, c);
  }

  lemma IdleChannel<C>(b: Bus<C>, c: C)
    requires c in b.chans && ChanInv(b, c) && b.chans[c].received == []
    ensures
      var ch := b.chans[c];
      ch.buf == b.history[..ch.from] + FirstSixteen(b.history[ch.from..WindowEnd(b, c)])
  {
    hide Subsequence;
    var ch := b.chans[c];
    var base, later := b.history[..ch.from], b.history[ch.from..WindowEnd(b, c)];
    assert ch.Stream() == ch.buf;
    SubsequenceLength(ch.buf[|base|..], later);
    assert ch.buf == base + ch.buf[|base|..];
    if |later| <= SLACK {
      DeliversAll(ch.buf, base, later);
    } else {
      var live := ch.buf[|base|..];
      assert |live| <= SLACK == |FirstSixteen(later)|;
      assert live == FirstSixteen(later);
    }
  }

  /** The bound of 16 is exact: a client that never reads keeps the first 16 later events and no others. */
  lemma {:induction false} IdleReaderKeepsSixteen<C>(script: seq<Section>, actions: seq<Action<C>>, c: C)
    requires c in After(script, actions).bus.chans
    requires After(script, actions).bus.chans[c].received == []
    ensures
      var b := After(script, actions).bus;
      var ch := b.chans[c];
      && ch.from <= WindowEnd(b, c) <= |b.history|
      && ch.buf == b.history[..ch.from] + FirstSixteen(b.history[ch.from..WindowEnd(b, c)])
  {
    hide After;
    hide Delivers;
    Invariant(script, actions);
    IdleChannel(After(script, actions).bus, c);
  }

  /** Channel safety. A channel is in `subs` exactly while it is open, and nothing ever panics. */
  lemma {:induction false} ChannelSafety<C>(script: seq<Section>, actions: seq<Action<C>>)
    ensures
      var b := After(script, actions).bus;
      && !b.crashed
      && b.subs <= b.chans.Keys
      && (forall c | c in b.chans :: c in b.subs <==> !b.chans[c].closed)
  {
    hide After;
    hide Delivers;
    Invariant(script, actions);
    var b := After(script, actions).bus;
    forall c | c in b.chans ensures c in b.subs <==> !b.chans[c].closed {
      assert ChanInv(b, c);
    }
  }

  /** The state is the last state event, and `steps` is the step projection of the history. */
  lemma {:induction false} FieldsFollowHistory<C>(script: seq<Section>, actions: seq<Action<C>>)
    ensures
      var b := After(script, actions).bus;
      b.state == LastState(b.history) && b.steps == StepsOf(b.history)
  {
    hide After;
    Invariant(script, actions);
  }

  /** The fields of the run without its channels. */
  function Core<C>(b: Bus<C>): Bus<C> {
    b.(subs := {}, chans := map[], crashed := false)
  }

  lemma PerformCore<C>(b: Bus<C>, section: Section)
    ensures Core(Perform(b, section)) == Perform(Core(b), section)
  {
    var core := Core(b);
    assert !Unsafe(core);
    assert forall e :: Publish(core, e).chans == map[];
    assert forall e :: CloseSubs(Publish(core, e)).chans == map[];
  }

  /** Clients never influence the run: its own fields are those of the script run without any client. */
  lemma {:induction false} ClientsDoNotInterfere<C>(script: seq<Section>, actions: seq<Action<C>>)
    ensures After(script, actions).pc <= |script|
    ensures
      var s := After(script, actions);
      Core(s.bus) == PerformAll(NewBus<C>(), script[..s.pc])
  {
    if actions != [] {
      var before := After(script, actions[..|actions| - 1]);
      ClientsDoNotInterfere(script, actions[..|actions| - 1]);
      if actions[|actions| - 1].Exec? && before.pc < |script| {
        PerformCore(before.bus, script[before.pc]);
        assert script[..before.pc + 1][..before.pc] == script[..before.pc];
      }
    }
  }
}
