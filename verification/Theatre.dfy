/**
 The browser side of a run (web/playground.js): the async queue between the event stream and the consumer,
 and the consumer loop with its spine of stages. The stream is an in-order pipe; rendering, pacing and
 telemetry are not part of this model.
 */
module Theatre {
  import opened WorkerTypes
  import opened Wrappers
  import opened RunBus

  /** What the callbacks of the event source push: a parsed frame, a falsy frame, or a lost connection. */
  datatype Msg = Frame(event: Event) | Blank | SseError

  // ---- makeChannel ----

  /** The queue has one consumer, which asks for the next message only after it got the previous one. */
  class AsyncQueue {
    var buf: seq<Msg>
    var waiting: bool
    ghost var pushed: seq<Msg>
    ghost var delivered: seq<Msg>

    /** Nothing is lost or reordered, and the consumer never waits while there is something to deliver. */
    ghost predicate Valid()
      reads this
    {
      pushed == delivered + buf && (waiting ==> buf == [])
    }

    constructor ()
      ensures Valid() && pushed == [] && delivered == [] && !waiting
    {
      buf, waiting, pushed, delivered := [], false, [], [];
    }

    /** A push resolves the waiting consumer, if there is one, with the oldest message. */
    method Push(x: Msg) returns (resolved: Option<Msg>)
      requires Valid()
      modifies this
      ensures Valid() && !waiting
      ensures pushed == old(pushed) + [x]
      ensures resolved == if old(waiting) then Some(x) else None
      ensures delivered == if old(waiting) then old(delivered) + [x] else old(delivered)
    {
      buf := buf + [x];
      pushed := pushed + [x];
      if waiting {
        waiting := false;
        resolved := Some(buf[0]);
        delivered := delivered + [buf[0]];
        buf := buf[1..];
      } else {
        resolved := None;
      }
    }

    method Next() returns (m: Option<Msg>)
      requires Valid() && !waiting
      modifies this
      ensures Valid() && pushed == old(pushed)
      ensures m.Some? ==> !waiting && delivered == old(delivered) + [m.value]
      ensures m.None? ==> waiting && delivered == old(delivered) == pushed
    {
      if buf != [] {
        m := Some(buf[0]);
        delivered := delivered + [buf[0]];
        buf := buf[1..];
      } else {
        m := None;
        waiting := true;
      }
    }
  }

  // ---- The consumer, as a function of the messages ----

  datatype NodeState = Pending | Active | Done | Broken

  datatype Node = Node(state: NodeState, hash: string)

  datatype End = Waiting | Sealed(receiptId: string) | NotCompleted(msg: string)

  /** The spine and the outcome that the visitor sees; `end` is `Waiting` until `terminated` is set. */
  datatype Stage = Stage(nodes: map<string, Node>, end: End)

  const LOST := "The connection to the run was lost."
  const INTERRUPTED := "Something interrupted the run."

  /** `spine.set`: an unknown key changes nothing and an empty hash keeps the old one. */
  function SetNode(nodes: map<string, Node>, key: string, state: NodeState, hash: string): map<string, Node> {
    if key !in nodes then nodes
    else nodes[key := Node(state, if hash != "" then hash else nodes[key].hash)]
  }

  /** `labelByKey[key] || key`, built from the steps that the server listed when the run was started. */
  function LabelOf(steps: seq<(string, string)>, key: string): string {
    if steps == [] then key
    else if steps[|steps| - 1].0 == key then steps[|steps| - 1].1
    else LabelOf(steps[..|steps| - 1], key)
  }

  function StageFailed(key: string): string {
    "Stage \U{201C}" + LabelOf(FLOW_STEPS, key) + "\U{201D} failed."
  }

  function HandleEvent(s: Stage, e: Event): Stage {
    match e
    case StepEvent(st) =>
      if st.status == StepFailed then Stage(SetNode(s.nodes, st.key, Broken, ""), NotCompleted(StageFailed(st.key)))
      else s.(nodes := SetNode(SetNode(s.nodes, st.key, Active, ""), st.key, Done, st.hash))
    case DoneEvent(id) => if id != "" then s.(end := Sealed(id)) else s
    case ErrorEvent(msg) => s.(end := NotCompleted(if msg != "" then msg else INTERRUPTED))
    case StateEvent(_) => s
  }

  /** One turn of the consumer loop; after it has terminated, nothing is handled any more. */
  function Handle(s: Stage, m: Msg): Stage {
    if s.end != Waiting then s
    else
      match m
      case Frame(e) => HandleEvent(s, e)
      case Blank => s
      case SseError => s.(end := NotCompleted(LOST))
  }

  function Consume(s: Stage, msgs: seq<Msg>): Stage {
    if msgs == [] then s
    else Handle(Consume(s, msgs[..|msgs| - 1]), msgs[|msgs| - 1])
  }

  /** The spine before the first event: the nine stages, all pending. */
  function FreshNodes(): map<string, Node> {
    map i | 0 <= i < |FLOW_STEPS| :: FLOW_STEPS[i].0 := Node(Pending, "")
  }

  // ---- The consumer, as the loop that updates the page ----

  class Consumer {
    const queue: AsyncQueue
    var terminated: bool
    var nodes: map<string, Node>
    var end: End

    /** The page shows what `Consume` computes from the messages delivered so far. */
    ghost predicate Valid()
      reads this, queue
    {
      && queue.Valid()
      && (terminated <==> end != Waiting)
      && Stage(nodes, end) == Consume(Stage(FreshNodes(), Waiting), queue.delivered)
    }

    constructor ()
      ensures Valid() && fresh(queue) && !terminated && !queue.waiting && queue.pushed == []
    {
      queue := new AsyncQueue();
      terminated, nodes, end := false, FreshNodes(), Waiting;
    }

    /** The body of the loop for one message, after `queue` delivered it. */
    method Turn(m: Msg)
      modifies this
      ensures Stage(nodes, end) == Handle(old(Stage(nodes, end)), m)
      ensures (old(terminated) <==> old(end) != Waiting) ==> (terminated <==> end != Waiting)
      ensures old(end) == Waiting && m.Frame? && m.event.StepEvent? ==>
                var st := m.event.step;
                && end == (if st.status == StepFailed
                           then NotCompleted("Stage \U{201C}" + LabelOf(FLOW_STEPS, st.key) + "\U{201D} failed.")
                           else Waiting)
                && nodes.Keys == old(nodes).Keys
                && (forall k | k in nodes && k != st.key :: nodes[k] == old(nodes)[k])
                && (st.key in nodes ==>
                      nodes[st.key] == if st.status == StepFailed then Node(Broken, old(nodes)[st.key].hash)
                                       else Node(Done, if st.hash != "" then st.hash else old(nodes)[st.key].hash))
      ensures old(end) == Waiting && m.Frame? && m.event.ErrorEvent? ==>
                nodes == old(nodes)
                && end == NotCompleted(if m.event.error != "" then m.event.error else "Something interrupted the run.")
      ensures old(end) == Waiting && m.Frame? && m.event.DoneEvent? ==>
                nodes == old(nodes) && end == (if m.event.receiptId != "" then Sealed(m.event.receiptId) else Waiting)
      ensures old(end) != Waiting || m == Blank || (m.Frame? && m.event.StateEvent?) ==>
                nodes == old(nodes) && end == old(end)
      ensures old(end) == Waiting && m == SseError ==>
                nodes == old(nodes) && end == NotCompleted("The connection to the run was lost.")
    {
      if end != Waiting {
        return;
      }
      match m
      case Frame(e) =>
        match e {
          case StepEvent(st) =>
            if st.status == StepFailed {
              terminated := true;
              nodes := SetNode(nodes, st.key, Broken, "");
              end := NotCompleted(StageFailed(st.key));
            } else {
              nodes := SetNode(nodes, st.key, Active, "");
              nodes := SetNode(nodes, st.key, Done, st.hash);
            }
          case DoneEvent(id) =>
            if id != "" {
              terminated := true;
              end := Sealed(id);
            }
          case ErrorEvent(msg) =>
            terminated := true;
            end := NotCompleted(if msg != "" then msg else INTERRUPTED);
          case StateEvent(_) =>
        }
      case Blank =>
      case SseError =>
        terminated := true;
        end := NotCompleted(LOST);
    }

    /** The loop, until it terminates or has to wait for the next push. */
    method Loop()
      requires Valid() && !queue.waiting
      modifies this, queue
      ensures Valid() && queue.pushed == old(queue.pushed)
      ensures terminated || (queue.waiting && queue.delivered == queue.pushed)
      ensures old(terminated) ==> nodes == old(nodes) && end == old(end)
    {
      while !terminated
        invariant Valid() && !queue.waiting && queue.pushed == old(queue.pushed)
        invariant old(terminated) ==> terminated && nodes == old(nodes) && end == old(end)
        decreases |queue.pushed| - |queue.delivered|
      {
        ghost var before := queue.delivered;
        var m := queue.Next();
        if m.None? {
          return;
        }
        assert queue.delivered[..|before|] == before;
        Turn(m.value);
      }
    }

    /** A callback of the event source pushes a message, which may wake the consumer up. */
    method Arrive(m: Msg)
      requires Valid()
      modifies this, queue
      ensures Valid() && queue.pushed == old(queue.pushed) + [m]
      ensures old(terminated) ==> terminated && nodes == old(nodes) && end == old(end)
      ensures old(queue.waiting) && !old(terminated)
              ==> terminated || (queue.waiting && queue.delivered == queue.pushed)
    {
      ghost var before := queue.delivered;
      var resolved := queue.Push(m);
      if resolved.Some? {
        assert queue.delivered[..|before|] == before;
        Turn(m);
        Loop();
      }
    }
  }
}
