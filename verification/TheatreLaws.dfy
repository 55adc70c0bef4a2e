/** What a visitor sees at the end of a run, from the server's lock sections to the sealed spine. */
module TheatreLaws {
  import opened WorkerTypes
  import opened RunBus
  import opened RunBusLaws
  import opened RunLaws
  import opened Theatre

  const OPENING := Stage(FreshNodes(), Waiting)

  function Frames(events: seq<Event>): (msgs: seq<Msg>)
    ensures |msgs| == |events|
  {
    seq(|events|, i requires 0 <= i < |events| => Frame(events[i]))
  }

  lemma {:induction false} ConsumeConcat(s: Stage, a: seq<Msg>, b: seq<Msg>)
    ensures Consume(s, a + b) == Consume(Consume(s, a), b)
  {
    if b == [] {
      assert a + b == a;
    } else {
      assert (a + b)[..|a + b| - 1] == a + b[..|b| - 1];
      ConsumeConcat(s, a, b[..|b| - 1]);
    }
  }

  /** The consumer reaches at most one outcome: once it has one, later messages change nothing. */
  lemma {:induction false} OutcomeIsFinal(s: Stage, a: seq<Msg>, b: seq<Msg>)
    requires Consume(s, a).end != Waiting
    ensures Consume(s, a + b) == Consume(s, a)
  {
    ConsumeConcat(s, a, b);
    AfterTheEnd(Consume(s, a), b);
  }

  lemma {:induction false} AfterTheEnd(s: Stage, msgs: seq<Msg>)
    requires s.end != Waiting
    ensures Consume(s, msgs) == s
  {
    if msgs != [] {
      AfterTheEnd(s, msgs[..|msgs| - 1]);
    }
  }

  lemma ConsumeOneMore(s: Stage, events: seq<Event>, e: Event)
    ensures Consume(s, Frames(events + [e])) == Handle(Consume(s, Frames(events)), Frame(e))
  {
    var msgs := Frames(events + [e]);
    assert msgs[..|events|] == Frames(events);
  }

  lemma StageKeysDistinct(i: nat, j: nat)
    requires i < j < |FLOW_STEPS|
    ensures FLOW_STEPS[i].0 != FLOW_STEPS[j].0
  {
    var a, b := FLOW_STEPS[i].0, FLOW_STEPS[j].0;
    assert |a| != |b| || a[0] != b[0];
  }

  // ---- What the page shows after any part of a history ----

  /** All nine stages are complete and show the hashes that the worker emitted. */
  ghost predicate AllComplete(nodes: map<string, Node>, steps: seq<Step>) {
    && |steps| == |FLOW_STEPS|
    && forall i | 0 <= i < |FLOW_STEPS| ::
         FLOW_STEPS[i].0 in nodes && nodes[FLOW_STEPS[i].0] == Node(Done, steps[i].hash)
  }

  const RUN_STAGE_FAILED := "Stage \U{201C}run\U{201D} failed."
  const NO_ERROR_TEXT := "Something interrupted the run."
  const CONNECTION_LOST := "The connection to the run was lost."

  /** The node call of the run failed, which the worker reports as a failed step. */
  predicate CallFailedStep(o: Outcome) {
    o.steps == [RUN_FAILED_STEP]
  }

  /** What a visitor is told who gets the first `n` events of a run; `Waiting` if there is nothing to tell yet. */
  function EndAfter(o: Outcome, n: nat): End {
    if CallFailedStep(o) && n >= 2 then NotCompleted(RUN_STAGE_FAILED)
    else if n < |FullHistory(o)| then Waiting
    else if o.Completed? then Sealed(o.id)
    else NotCompleted(if o.msg != "" then o.msg else NO_ERROR_TEXT)
  }

  /** The same when the connection is reported as lost after these `n` events. */
  function EndWhenLost(o: Outcome, n: nat): End {
    if EndAfter(o, n) == Waiting then NotCompleted(CONNECTION_LOST) else EndAfter(o, n)
  }

  /** Stage `i` is complete, with its hash, from the event of its step on. */
  ghost predicate NodesAfter(nodes: map<string, Node>, o: Outcome, n: nat) {
    forall i | 0 <= i < |FLOW_STEPS| ::
      && FLOW_STEPS[i].0 in nodes && "run" !in nodes
      && nodes[FLOW_STEPS[i].0]
         == if Narrated(o.steps) && i + 1 < n then Node(Done, o.steps[i].hash) else Node(Pending, "")
  }

  lemma AllStagesShown(nodes: map<string, Node>, o: Outcome, n: nat)
    requires NodesAfter(nodes, o, n) && Narrated(o.steps) && n > |FLOW_STEPS|
    ensures AllComplete(nodes, o.steps)
  {
  }

  /** The event at position `n` of a possible run's history. */
  lemma HistoryAt(o: Outcome, n: nat)
    requires n < |FullHistory(o)|
    ensures
      var e := FullHistory(o)[n];
      e == if n == 0 then StateEvent(Running)
           else if n <= |o.steps| then StepEvent(o.steps[n - 1])
           else ClosingEvents(o)[n - |o.steps| - 1]
  {
  }

  /** Handling the step of stage `k` changes that stage only. */
  lemma {:induction false} NarratedStepShown(s: Stage, o: Outcome, n: nat)
    requires Narrated(o.steps) && 1 <= n <= |o.steps|
    requires s.end == Waiting && NodesAfter(s.nodes, o, n)
    ensures
      var t := Handle(s, Frame(StepEvent(o.steps[n - 1])));
      t.end == Waiting && NodesAfter(t.nodes, o, n + 1)
  {
    forall i | 0 <= i < |FLOW_STEPS| && i != n - 1 ensures FLOW_STEPS[i].0 != FLOW_STEPS[n - 1].0 {
      if i < n - 1 {
        StageKeysDistinct(i, n - 1);
      } else {
        StageKeysDistinct(n - 1, i);
      }
    }
  }

  /** A failed node call is shown as the failed stage `run`, which has no place on the spine. */
  lemma FailedStepShown(s: Stage, o: Outcome)
    requires CallFailedStep(o) && s.end == Waiting && NodesAfter(s.nodes, o, 1)
    ensures
      var t := Handle(s, Frame(StepEvent(RUN_FAILED_STEP)));
      t.end == NotCompleted(RUN_STAGE_FAILED) && NodesAfter(t.nodes, o, 2)
  {
    NotNarrated();
    assert StageFailed("run") == RUN_STAGE_FAILED by {
      NoLabel();
    }
  }

  lemma NotNarrated()
    ensures !Narrated([RUN_FAILED_STEP]) && !Narrated([])
  {
  }

  /** Every stage is called by its own label, and anything else by its key. */
  lemma {:induction false} StageLabels(k: nat, key: string)
    requires k <= |FLOW_STEPS|
    ensures forall i | 0 <= i < k && FLOW_STEPS[i].0 == key :: LabelOf(FLOW_STEPS[..k], key) == FLOW_STEPS[i].1
    ensures (forall i | 0 <= i < k :: FLOW_STEPS[i].0 != key) ==> LabelOf(FLOW_STEPS[..k], key) == key
  {
    if k > 0 {
      StageLabels(k - 1, key);
      assert FLOW_STEPS[..k][..k - 1] == FLOW_STEPS[..k - 1];
      forall i | 0 <= i < k - 1 ensures FLOW_STEPS[i].0 != FLOW_STEPS[k - 1].0 {
        StageKeysDistinct(i, k - 1);
      }
    }
  }

  /** The failed step of a run is not one of the stages. */
  lemma NoLabel()
    ensures LabelOf(FLOW_STEPS, "run") == "run"
  {
    StageLabels(|FLOW_STEPS|, "run");
    assert FLOW_STEPS[..|FLOW_STEPS|] == FLOW_STEPS;
    forall i | 0 <= i < |FLOW_STEPS| ensures FLOW_STEPS[i].0 != "run" {
      assert |FLOW_STEPS[i].0| != 3;
    }
  }

  /** Further events leave a page alone that reports the failed stage, and state events leave every page alone. */
  lemma QuietEvent(s: Stage, o: Outcome, n: nat, e: Event)
    requires |o.steps| < n && (s.end != Waiting || e.StateEvent?) && NodesAfter(s.nodes, o, n)
    requires !Narrated(o.steps) || n > |FLOW_STEPS|
    ensures Handle(s, Frame(e)) == s && NodesAfter(s.nodes, o, n + 1)
  {
    hide NodesAfter;
    NodesStay(s.nodes, o, n);
  }

  /** After the last step the stages stay as they are. */
  lemma NodesStay(nodes: map<string, Node>, o: Outcome, n: nat)
    requires NodesAfter(nodes, o, n) && (!Narrated(o.steps) || n > |FLOW_STEPS|)
    ensures NodesAfter(nodes, o, n + 1)
  {
    hide Narrated;
  }

  lemma OpeningPage(o: Outcome)
    ensures Consume(OPENING, Frames([])) == OPENING
    ensures NodesAfter(OPENING.nodes, o, 0) && NodesAfter(OPENING.nodes, o, 1)
  {
    assert Frames([]) == [];
    forall i | 0 <= i < |FLOW_STEPS| ensures FLOW_STEPS[i].0 in FreshNodes() && FLOW_STEPS[i].0 != "run" {
      assert |FLOW_STEPS[i].0| != 3;
    }
  }

  lemma StepCount(o: Outcome)
    requires Possible(o)
    ensures Narrated(o.steps) || o.steps == [] || CallFailedStep(o)
    ensures Narrated(o.steps) ==> |o.steps| == |FLOW_STEPS|
    ensures o.Completed? ==> Narrated(o.steps) && o.id != ""
    ensures CallFailedStep(o) ==> !Narrated(o.steps) && !o.Completed?
    ensures |FullHistory(o)| == |o.steps| + 3
  {
  }

  /** The event at position `n` turns the page after `n` events into the page after `n + 1`. */
  lemma {:induction false} NextPage(s: Stage, o: Outcome, n: nat)
    requires Possible(o) && n < |FullHistory(o)|
    requires s.end == EndAfter(o, n) && NodesAfter(s.nodes, o, n)
    ensures
      var t := Handle(s, Frame(FullHistory(o)[n]));
      t.end == EndAfter(o, n + 1) && NodesAfter(t.nodes, o, n + 1)
  {
    StepCount(o);
    HistoryAt(o, n);
    hide FullHistory;
    hide Possible;
    hide Narrated;
    if n == 0 {
      assert NodesAfter(s.nodes, o, 1);
    } else if n <= |o.steps| {
      if Narrated(o.steps) {
        NarratedStepShown(s, o, n);
      } else {
        FailedStepShown(s, o);
      }
    } else if n == |o.steps| + 1 || CallFailedStep(o) {
      QuietEvent(s, o, n, FullHistory(o)[n]);
    } else {
      hide CallFailedStep;
      LastPage(s, o, n);
    }
  }

  lemma LastPage(s: Stage, o: Outcome, n: nat)
    requires s.end == Waiting && NodesAfter(s.nodes, o, n) && (o.Completed? ==> o.id != "")
    requires |o.steps| < n && (Narrated(o.steps) ==> n > |FLOW_STEPS|)
    ensures
      var t := Handle(s, Frame(ClosingEvents(o)[1]));
      && t.end == (if o.Completed? then Sealed(o.id) else NotCompleted(if o.msg != "" then o.msg else NO_ERROR_TEXT))
      && NodesAfter(t.nodes, o, n + 1)
  {
    hide NodesAfter;
    NodesStay(s.nodes, o, n);
  }

  /** Exactly what the page shows after any part of a run's history. */
  lemma {:induction false} PrefixShown(o: Outcome, n: nat)
    requires Possible(o) && n <= |FullHistory(o)|
    ensures
      var s := Consume(OPENING, Frames(FullHistory(o)[..n]));
      s.end == EndAfter(o, n) && NodesAfter(s.nodes, o, n)
  {
    hide FullHistory;
    hide Possible;
    hide Consume;
    hide Handle;
    hide Frames;
    hide FreshNodes;
    hide NodesAfter;
    var full := FullHistory(o);
    if n > 0 {
      PrefixShown(o, n - 1);
      assert full[..n] == full[..n - 1] + [full[n - 1]];
      ConsumeOneMore(OPENING, full[..n - 1], full[n - 1]);
      NextPage(Consume(OPENING, Frames(full[..n - 1])), o, n - 1);
    } else {
      assert full[..0] == [];
      OpeningPage(o);
      StepCount(o);
    }
  }

  /**
   What the visitor sees after the full history of a run: the seal and nine complete stages if it completed; and if
   not, the stage that failed, or else the error text of the run.
   */
  lemma {:induction false} FullHistoryShown(o: Outcome)
    requires Possible(o)
    ensures
      var s := Consume(OPENING, Frames(FullHistory(o)));
      && (o.Completed? ==> s.end == Sealed(o.id) && AllComplete(s.nodes, o.steps))
      && (o.steps == [RUN_FAILED_STEP] ==> s.end == NotCompleted("Stage \U{201C}run\U{201D} failed."))
      && (!o.Completed? && o.steps != [RUN_FAILED_STEP] && o.msg != "" ==> s.end == NotCompleted(o.msg))
      && (!o.Completed? && o.steps != [RUN_FAILED_STEP] && o.msg == ""
          ==> s.end == NotCompleted("Something interrupted the run."))
  {
    var full := FullHistory(o);
    StepCount(o);
    PrefixShown(o, |full|);
    assert full[..|full|] == full;
    hide FullHistory;
    hide Possible;
    hide Consume;
    if o.Completed? {
      AllStagesShown(Consume(OPENING, Frames(full)).nodes, o, |full|);
    }
  }

  /** A stream whose end is reported has an outcome: its own, or the lost connection. */
  lemma LostAtLatest(s: Stage, stream: seq<Msg>, rest: seq<Msg>)
    ensures Consume(s, stream + [SseError] + rest) == Handle(Consume(s, stream), SseError)
  {
    ConsumeConcat(s, stream, [SseError]);
    assert [SseError][..0] == [];
    OutcomeIsFinal(s, stream + [SseError], rest);
  }

  /** What the page shows when the connection is reported as lost after the first `n` events of a run. */
  lemma {:induction false} LostAfter(o: Outcome, n: nat, rest: seq<Msg>)
    requires Possible(o) && n <= |FullHistory(o)|
    ensures
      var shown := Consume(OPENING, Frames(FullHistory(o)[..n]) + [SseError] + rest);
      && shown.end == EndWhenLost(o, n) && NodesAfter(shown.nodes, o, n)
      && (shown.end.Sealed? <==> o.Completed? && n == |FullHistory(o)|)
      && (shown.end.Sealed? ==> shown.end.receiptId == o.id && AllComplete(shown.nodes, o.steps))
  {
    PrefixShown(o, n);
    StepCount(o);
    LostAtLatest(OPENING, Frames(FullHistory(o)[..n]), rest);
    hide Consume;
    hide FullHistory;
    hide Possible;
    hide Narrated;
    var s := Consume(OPENING, Frames(FullHistory(o)[..n]));
    if o.Completed? && n == |FullHistory(o)| {
      AllStagesShown(s.nodes, o, n);
    }
    hide NodesAfter;
  }

  /**
   The run theatre, end to end. A visitor's channel that was closed by the run, in any interleaving of the
   run with its clients, carries a stream which the consumer turns into exactly one outcome, whatever is
   pushed after it. The page is sealed with the run's own receipt ID, with all nine stages complete, exactly
   when the run completed and the visitor did not attach in the terminal window. A run whose node call failed
   is reported as its failed stage; any other failed run with its own error text, but for a visitor who attached in
   that window: he sees a lost connection although the run is over. Nobody else does, unless that is the run's own
   error text.
   */
  lemma {:induction false} RunTheatre<C>(o: Outcome, actions: seq<Action<C>>, c: C, rest: seq<Msg>)
    requires Possible(o)
    requires c in After(Script(o), actions).bus.chans
    requires
      var ch := After(Script(o), actions).bus.chans[c];
      ch.closed && !ch.cancelled
    ensures
      var ch := After(Script(o), actions).bus.chans[c];
      var shown := Consume(OPENING, Frames(ch.received + ch.buf) + [SseError] + rest);
      var inWindow := ch.from == |FullHistory(o)| - 1;
      && shown.end != Waiting
      && (shown.end.Sealed? <==> o.Completed? && !inWindow)
      && (shown.end.Sealed? ==> shown.end.receiptId == o.id && AllComplete(shown.nodes, o.steps))
      && (o.steps == [RUN_FAILED_STEP] ==> shown.end == NotCompleted("Stage \U{201C}run\U{201D} failed."))
      && (o.steps != [RUN_FAILED_STEP] && inWindow
          ==> shown.end == NotCompleted("The connection to the run was lost."))
      && (o.steps != [RUN_FAILED_STEP] && !inWindow && !o.Completed?
          ==> shown.end == NotCompleted(if o.msg != "" then o.msg else "Something interrupted the run."))
      && (shown.end == NotCompleted("The connection to the run was lost.")
          ==> inWindow || (!o.Completed? && o.msg == "The connection to the run was lost."))
  {
    hide After;
    hide Script;
    hide Possible;
    hide Consume;
    hide AllComplete;
    hide NodesAfter;
    StreamEnd(o, actions, c);
    StepCount(o);
    var ch, full := After(Script(o), actions).bus.chans[c], FullHistory(o);
    var events := ch.received + ch.buf;
    var n := if ch.from == |full| - 1 then |full| - 1 else |full|;
    assert full[..|full|] == full;
    assert events == full[..n];
    hide FullHistory;
    LostAfter(o, n, rest);
  }

  /**
   The failure is real: for every completed run there is an interleaving in which a visitor who never left is
   told that the connection was lost, and nothing that comes later changes that.
   */
  lemma {:induction false} CompletedButLost<C>(o: Outcome, c: C, rest: seq<Msg>)
    requires Possible(o) && o.Completed?
    ensures
      var s := After(Script(o), InWindow(o, c));
      && s.bus.state == Complete && c in s.bus.chans
      && Consume(OPENING, Frames(s.bus.chans[c].received + s.bus.chans[c].buf) + [SseError] + rest).end
         == NotCompleted(LOST)
  {
    WindowReached(o, c);
    Grammar(o, InWindow(o, c));
    RunTheatre(o, InWindow(o, c), c, rest);
    hide After;
    hide Script;
    hide FullHistory;
    hide Consume;
    hide InWindow;
  }

  /**
   The connection may be lost at any time: whatever part of its stream a visitor got, in any interleaving, the
   page has one outcome, which is the seal with the run's own receipt ID and nine complete stages exactly when the
   run completed and the visitor got its full history. Otherwise it is the failed stage, if the visitor got the event
   of it; the run's own error text, if the visitor got everything; and a lost connection in all other cases. The
   stages on the page are complete as far as the visitor got their events.
   */
  lemma {:induction false} ConnectionLost<C>(o: Outcome, actions: seq<Action<C>>, c: C, n: nat, rest: seq<Msg>)
    requires Possible(o) && c in After(Script(o), actions).bus.chans
    requires
      var ch := After(Script(o), actions).bus.chans[c];
      n <= |ch.received + ch.buf|
    ensures
      var ch := After(Script(o), actions).bus.chans[c];
      var shown := Consume(OPENING, Frames((ch.received + ch.buf)[..n]) + [SseError] + rest);
      && n <= |FullHistory(o)|
      && shown.end != Waiting
      && (shown.end.Sealed? <==> o.Completed? && n == |FullHistory(o)|)
      && (shown.end.Sealed? ==> shown.end.receiptId == o.id && AllComplete(shown.nodes, o.steps))
      && (o.Completed? && !shown.end.Sealed? ==> shown.end == NotCompleted(LOST))
      && shown.end == EndWhenLost(o, n) && NodesAfter(shown.nodes, o, n)
  {
    hide After;
    hide Script;
    hide Possible;
    hide Consume;
    hide AllComplete;
    hide NodesAfter;
    StepCount(o);
    NoLoss(o, actions, c);
    Grammar(o, actions);
    var ch, full := After(Script(o), actions).bus.chans[c], FullHistory(o);
    assert ch.received + ch.buf <= full;
    assert (ch.received + ch.buf)[..n] == full[..n];
    hide FullHistory;
    LostAfter(o, n, rest);
  }
}
