/**
 The event bus of one run (api/runs.go), as values: what each lock section does to the run's fields
 and to the channels of its subscribers. The class `Runs.Run` is proved to compute these functions;
 `RunBusLaws` proves what they guarantee when the sections of any number of threads interleave.
 The type parameter `C` stands for the identity of a channel.
 */
module RunBus {
  import opened WorkerTypes

  datatype RunState = Created | Running | Complete | Failed {

    predicate CanTransition(next: RunState) {
      match this
      case Created => next == Running
      case Running => next == Complete || next == Failed
      case _ => false
    }

    predicate Terminal() {
      this == Complete || this == Failed
    }
  }

  datatype Event =
    | StateEvent(state: RunState)
    | StepEvent(step: Step)
    | DoneEvent(receiptId: string)
    | ErrorEvent(error: string)

  /** Free slots that a channel has beyond the replayed history. */
  const SLACK: nat := 16

  /**
   A buffered channel. `received`, `from`, `upto` and `cancelled` are bookkeeping that the code does not
   keep: what the reader has taken out so far, the length of the history when the channel was created and
   when it left `subs`, and whether it left `subs` because its own reader unsubscribed.
   */
  datatype Chan = Chan(buf: seq<Event>, cap: nat, closed: bool,
                       received: seq<Event>, from: nat, upto: nat, cancelled: bool)
  {
    /** Everything that ever entered the channel, in order. */
    function Stream(): seq<Event> {
      received + buf
    }

    /** A send in a `select` with a `default` branch: a full channel drops the event. */
    function TrySend(e: Event): Chan {
      if |buf| < cap then this.(buf := buf + [e]) else this
    }
  }

  /** `crashed` records a send on a closed channel or a second close, which panic in Go. */
  datatype Bus<C> = Bus(state: RunState, steps: seq<Step>, receiptId: string, errMsg: string,
                        history: seq<Event>, subs: set<C>, chans: map<C, Chan>, crashed: bool)

  function NewBus<C>(): Bus<C> {
    Bus(Created, [], "", "", [], {}, map[], false)
  }

  /** Some registered channel is closed: sending to it or closing it panics. */
  predicate Unsafe<C(==)>(b: Bus<C>) {
    exists c | c in b.subs :: c in b.chans && b.chans[c].closed
  }

  function Publish<C(==)>(b: Bus<C>, e: Event): Bus<C> {
    b.(history := b.history + [e],
       chans := map c | c in b.chans :: if c in b.subs then b.chans[c].TrySend(e) else b.chans[c],
       crashed := b.crashed || Unsafe(b))
  }

  function CloseSubs<C(==)>(b: Bus<C>): Bus<C> {
    b.(subs := {},
       chans := map c | c in b.chans ::
                  if c in b.subs then b.chans[c].(closed := true, upto := |b.history|) else b.chans[c],
       crashed := b.crashed || Unsafe(b))
  }

  function Transition<C(==)>(b: Bus<C>, next: RunState): Bus<C> {
    if b.state.CanTransition(next) then Publish(b.(state := next), StateEvent(next)) else b
  }

  function AddStep<C(==)>(b: Bus<C>, s: Step): Bus<C> {
    Publish(b.(steps := b.steps + [s]), StepEvent(s))
  }

  /** A channel of capacity `len(history)+16` that already holds the history. */
  function ReplayedChan<C>(b: Bus<C>): Chan {
    Chan(b.history, |b.history| + SLACK, b.state.Terminal(), [], |b.history|, |b.history|, false)
  }

  function Subscribe<C(==)>(b: Bus<C>, c: C): Bus<C>
    requires c !in b.chans
  {
    b.(chans := b.chans[c := ReplayedChan(b)],
       subs := if b.state.Terminal() then b.subs else b.subs + {c})
  }

  /** The unsubscribe function that `Subscribe` returned for `c`; calling it again changes nothing. */
  function Unsubscribe<C(==)>(b: Bus<C>, c: C): Bus<C> {
    if c in b.subs && c in b.chans then
      b.(subs := b.subs - {c},
         chans := b.chans[c := b.chans[c].(closed := true, upto := |b.history|, cancelled := true)],
         crashed := b.crashed || b.chans[c].closed)
    else b
  }

  /** The reader of `c` takes the next buffered event; on an empty channel nothing moves. */
  function Receive<C(==)>(b: Bus<C>, c: C): Bus<C> {
    if c in b.chans && b.chans[c].buf != [] then
      var ch := b.chans[c];
      b.(chans := b.chans[c := ch.(received := ch.received + [ch.buf[0]], buf := ch.buf[1..])])
    else b
  }

  datatype Metric = RunsStarted | RunsCompleted | RunsFailed

  /**
   One atomic step of the goroutine that drives a run. `Count`, `Stamp` and `Store` act outside the run:
   they bump a counter, read the clock and insert into the receipt store.
   */
  datatype Section =
    | Count(metric: Metric)
    | Stamp
    | Store(id: string)
    | ToState(next: RunState)
    | EmitStep(step: Step)
    | SetReceipt(receiptId: string)
    | SetError(msg: string)
    | PublishDone(doneId: string)
    | PublishError(errorMsg: string)

  function Perform<C(==)>(b: Bus<C>, section: Section): Bus<C> {
    match section
    case ToState(next) => Transition(b, next)
    case EmitStep(s) => AddStep(b, s)
    case SetReceipt(id) => b.(receiptId := id)
    case SetError(msg) => b.(errMsg := msg)
    case PublishDone(id) => CloseSubs(Publish(b, DoneEvent(id)))
    case PublishError(msg) => CloseSubs(Publish(b, ErrorEvent(msg)))
    case _ => b
  }

  /** Sections performed one after the other with nothing in between. */
  function PerformAll<C(==)>(b: Bus<C>, sections: seq<Section>): Bus<C> {
    if sections == [] then b
    else Perform(PerformAll(b, sections[..|sections| - 1]), sections[|sections| - 1])
  }

  /** How a run ends, chosen by the worker and the store. */
  datatype Outcome =
    | Completed(steps: seq<Step>, id: string)
    | WorkerFailed(steps: seq<Step>, msg: string)
    | StoreFailed(steps: seq<Step>, id: string, msg: string)

  function EmitAll(steps: seq<Step>): (sections: seq<Section>)
    ensures |sections| == |steps|
  {
    seq(|steps|, i requires 0 <= i < |steps| => EmitStep(steps[i]))
  }

  /** What `Start` and then `execute` do after the worker has emitted its steps. */
  function Ending(o: Outcome): seq<Section> {
    match o
    case Completed(_, id) =>
      [Stamp, Store(id), Count(RunsCompleted), SetReceipt(id), ToState(Complete), PublishDone(id)]
    case WorkerFailed(_, msg) =>
      [Count(RunsFailed), SetError(msg), ToState(Failed), PublishError(msg)]
    case StoreFailed(_, id, msg) =>
      [Stamp, Store(id), Count(RunsFailed), SetError(msg), ToState(Failed), PublishError(msg)]
  }

  function Script(o: Outcome): seq<Section> {
    [Count(RunsStarted), ToState(Running)] + EmitAll(o.steps) + Ending(o)
  }
}
