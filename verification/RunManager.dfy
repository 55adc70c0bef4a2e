/**
 The registry of runs and the goroutine that drives one (api/runs.go), with the counters of
 api/metrics.go. `Execute` is proved to perform exactly the sections of `RunBus.Script`, which
 `ServerLaws` then interleaves.
 */
module RunManager {
  import opened WorkerTypes
  import opened Wrappers
  import opened RunBus
  import opened RunLaws
  import opened Runs
  import opened ReceiptStore
  import opened Worker

  // ---- Counters ----

  function MetricName(m: Metric): string {
    match m
    case RunsStarted => "runs_started"
    case RunsCompleted => "runs_completed"
    case RunsFailed => "runs_failed"
  }

  /** A counter that was never bumped reads zero. */
  function Counter(counters: map<string, int>, name: string): int {
    if name in counters then counters[name] else 0
  }

  class Metrics {
    var counters: map<string, int>

    constructor ()
      ensures counters == map[]
    {
      counters := map[];
    }

    method Add(name: string, n: int)
      modifies this
      ensures counters == old(counters)[name := Counter(old(counters), name) + n]
      ensures name in counters && counters[name] == (if name in old(counters) then old(counters)[name] + n else n)
    {
      counters := counters[name := Counter(counters, name) + n];
    }

    method Inc(name: string)
      modifies this
      ensures counters == old(counters)[name := Counter(old(counters), name) + 1]
    {
      Add(name, 1);
    }
  }

  // ---- Run IDs ----

  const DIGITS: string := "0123456789"

  function Decimal(n: nat): (s: string)
    ensures s != ""
  {
    if n < 10 then [DIGITS[n]] else Decimal(n / 10) + [DIGITS[n % 10]]
  }

  function RunId(n: nat): string {
    "run-" + Decimal(n)
  }

  lemma DigitsDistinct(i: int, j: int)
    requires 0 <= i < 10 && 0 <= j < 10 && DIGITS[i] == DIGITS[j]
    ensures i == j
  {
  }

  lemma {:induction false} DecimalInjective(m: nat, n: nat)
    requires Decimal(m) == Decimal(n)
    ensures m == n
  {
    var a, b := Decimal(m), Decimal(n);
    assert a[|a| - 1] == DIGITS[m % 10] && b[|b| - 1] == DIGITS[n % 10];
    DigitsDistinct(m % 10, n % 10);
    if m >= 10 && n >= 10 {
      assert Decimal(m / 10) == a[..|a| - 1] && Decimal(n / 10) == b[..|b| - 1];
      DecimalInjective(m / 10, n / 10);
    }
  }

  /** The number that a text of digits stands for. */
  function ValueOf(digits: string): int {
    if digits == "" then 0 else 10 * ValueOf(digits[..|digits| - 1]) + (digits[|digits| - 1] as int - '0' as int)
  }

  lemma {:induction false} DecimalReads(n: nat)
    ensures ValueOf(Decimal(n)) == n && RunId(n) == "run-" + Decimal(n)
    ensures forall c | c in Decimal(n) :: '0' <= c <= '9'
  {
    DigitChar(n % 10);
    if n < 10 {
      assert Decimal(n)[..0] == "";
    } else {
      DecimalReads(n / 10);
      assert Decimal(n)[..|Decimal(n)| - 1] == Decimal(n / 10);
    }
  }

  lemma DigitChar(d: int)
    requires 0 <= d < 10
    ensures DIGITS[d] as int - '0' as int == d
  {
  }

  lemma {:induction false} RunIdInjective(m: nat, n: nat)
    requires RunId(m) == RunId(n)
    ensures m == n
  {
    assert RunId(m)[4..] == Decimal(m) && RunId(n)[4..] == Decimal(n);
    DecimalInjective(m, n);
  }

  // ---- The manager ----

  lemma {:induction false} PerformConcat<C>(b: Bus<C>, first: seq<Section>, second: seq<Section>)
    ensures PerformAll(b, first + second) == PerformAll(PerformAll(b, first), second)
  {
    if second == [] {
      assert first + second == first;
    } else {
      assert (first + second)[..|first + second| - 1] == first + second[..|second| - 1];
      PerformConcat(b, first, second[..|second| - 1]);
    }
  }

  /** What `finishOK` or `finishErr` does to the run. */
  function Finished<C(==)>(b: Bus<C>, o: Outcome): Bus<C> {
    match o
    case Completed(_, id) => Perform(Perform(Perform(b, SetReceipt(id)), ToState(Complete)), PublishDone(id))
    case WorkerFailed(_, msg) => Perform(Perform(Perform(b, SetError(msg)), ToState(Failed)), PublishError(msg))
    case StoreFailed(_, _, msg) => Perform(Perform(Perform(b, SetError(msg)), ToState(Failed)), PublishError(msg))
  }

  /** The other sections of an ending act outside the run. */
  lemma {:induction false} EndingIsFinish<C>(b: Bus<C>, o: Outcome)
    ensures PerformAll(b, Ending(o)) == Finished(b, o)
  {
    hide Transition;
    hide CloseSubs;
    hide Publish;
    var e := Ending(o);
    var n := |e|;
    assert PerformAll(b, e[..0]) == b;
    PerformNext(b, e, 0);
    PerformNext(b, e, 1);
    PerformNext(b, e, 2);
    PerformNext(b, e, 3);
    if n == 6 {
      PerformNext(b, e, 4);
      PerformNext(b, e, 5);
    }
    assert e[..n] == e;
  }

  /** The node delivered a package whose bundle and receipt can be encoded. */
  predicate Storable(reply: NodeReply) {
    reply.Delivered? && reply.bundleJson.Ok? && reply.receipt.encoded.Ok?
  }

  /** The run that is handed to the store. */
  function Record(mode: string, flow: string, reply: NodeReply): StoredRun
    requires Storable(reply)
  {
    StoredRun("", mode, flow, reply.networkLabel, reply.proofLabel, None, Some(reply.receipt), reply.bundleJson.value)
  }

  /** The text with which a run must fail: that of the first thing that goes wrong, if anything does. */
  function Failure(refusal: Option<string>, reply: NodeReply, onDisk: bool, write: WriteResult): Option<string> {
    if refusal.Some? then refusal
    else if ReplyError(reply).Some? then ReplyError(reply)
    else if reply.receipt.encoded.Err? then
      Some("could not store run: " + ErrorText(EncodeFailed(reply.receipt.encoded.error)))
    else if onDisk && WriteError(write).Some? then Some("could not store run: " + ErrorText(WriteError(write).value))
    else None
  }

  /**
   How a run has to end, given what the mode gate, the node, the encoders and the disk did: which steps it
   emits, when it completes, whether its receipt is stored, and with which text it fails.
   */
  ghost predicate Decided(o: Outcome, refusal: Option<string>, reply: NodeReply, onDisk: bool, write: WriteResult) {
    var failure := Failure(refusal, reply, onDisk, write);
    && Possible(o) && Emits(refusal.Some?, reply, o.steps)
    && (o.Completed? <==> failure.None?)
    && (failure.Some? ==> o.msg == failure.value)
    && (o.WorkerFailed? <==> refusal.Some? || !Storable(reply))
  }

  /** Whatever reaches the store can be stored. */
  lemma DecidedStorable(o: Outcome, refusal: Option<string>, reply: NodeReply, onDisk: bool, write: WriteResult)
    requires Decided(o, refusal, reply, onDisk, write)
    ensures !o.WorkerFailed? ==> Storable(reply)
  {
  }

  /** When a run completes, and when it fails in the store only. */
  lemma {:induction false} EndingDecided(o: Outcome, runner: Runner, mode: string, reply: NodeReply, onDisk: bool,
                                         write: WriteResult)
    requires Decided(o, runner.Refused(mode), reply, onDisk, write)
    ensures
      var accepted := mode == "anonymous" || (mode == "kermit" && runner.kermitAvailable);
      var encoded := accepted && reply.Delivered? && reply.bundleJson.Ok? && reply.receipt.encoded.Ok?;
      && (o.Completed? <==> encoded && (onDisk ==> write.Written?))
      && (o.StoreFailed? <==> encoded && onDisk && !write.Written?)
  {
    hide Possible;
    hide Emits;
    hide Refusal;
    hide ErrorText;
    ModeGate(mode, runner.kermitAvailable, runner.quote);
  }

  /** The text with which a run fails that the worker gave up. */
  lemma {:induction false} WorkerTexts(o: Outcome, runner: Runner, mode: string, reply: NodeReply, onDisk: bool,
                                       write: WriteResult)
    requires Decided(o, runner.Refused(mode), reply, onDisk, write)
    ensures
      var accepted := mode == "anonymous" || (mode == "kermit" && runner.kermitAvailable);
      && (mode != "anonymous" && mode != "kermit"
          ==> !o.Completed? && o.msg == "unknown run mode " + runner.quote(mode))
      && (accepted && reply.CallFailed? ==> !o.Completed? && o.msg == reply.msg)
      && (accepted && reply.NoPackage?
          ==> !o.Completed? && o.msg == "playground: node returned no portable package")
      && (accepted && reply.Delivered? && reply.bundleJson.Err?
          ==> !o.Completed? && o.msg == "playground: marshal portable bundle: " + reply.bundleJson.error)
  {
    hide Possible;
    hide Emits;
    hide Refusal;
    hide ErrorText;
    ModeGate(mode, runner.kermitAvailable, runner.quote);
  }

  /** The text with which a run fails that the store refused or could not write. */
  lemma {:induction false} StoreTexts(o: Outcome, runner: Runner, mode: string, reply: NodeReply, onDisk: bool,
                                      write: WriteResult)
    requires Decided(o, runner.Refused(mode), reply, onDisk, write)
    requires mode == "anonymous" || (mode == "kermit" && runner.kermitAvailable)
    requires reply.Delivered? && reply.bundleJson.Ok?
    ensures reply.receipt.encoded.Err? ==>
              !o.Completed?
              && o.msg == "could not store run: " + ("playground: encode receipt: " + reply.receipt.encoded.error)
    ensures o.StoreFailed? && write.NotEncoded? ==>
              o.msg == "could not store run: " + ("playground: encode stored run: " + write.why)
    ensures o.StoreFailed? && (write.NotOpened? || write.Truncated?) ==>
              o.msg == "could not store run: " + ("playground: persist run: " + write.why)
  {
    hide Possible;
    hide Emits;
    hide Refusal;
    ModeGate(mode, runner.kermitAvailable, runner.quote);
  }

  /** Which steps a run has emitted: none if it was refused, the failed one if the node call failed, or all nine. */
  lemma {:induction false} StepsDecided(o: Outcome, runner: Runner, mode: string, reply: NodeReply, onDisk: bool,
                                        write: WriteResult)
    requires Decided(o, runner.Refused(mode), reply, onDisk, write)
    ensures
      var accepted := mode == "anonymous" || (mode == "kermit" && runner.kermitAvailable);
      && (o.steps == [] <==> !accepted)
      && (o.steps == [Step("run", "Run failed", StepFailed, "")] <==> accepted && !reply.Delivered?)
      && (|o.steps| == 9 <==> accepted && reply.Delivered?)
  {
    hide Possible;
    hide Refusal;
    hide Failure;
    ModeGate(mode, runner.kermitAvailable, runner.quote);
    var accepted := runner.Refused(mode).None?;
    if accepted && reply.Delivered? {
      EmittedSteps(reply, o.steps, 0);
    }
  }

  /** A run that the worker could not complete fails with the worker's text. */
  lemma WorkerDecides(refusal: Option<string>, reply: NodeReply, steps: seq<Step>, onDisk: bool, write: WriteResult)
    requires Emits(refusal.Some?, reply, steps) && (refusal.Some? || ReplyError(reply).Some?)
    ensures
      var msg := if refusal.Some? then refusal.value else ReplyError(reply).value;
      Decided(WorkerFailed(steps, msg), refusal, reply, onDisk, write)
  {
    EmitsIsPossible(refusal.Some?, reply, steps);
    hide Emits;
  }

  /** Otherwise the store decides. */
  lemma StoreDecides(reply: NodeReply, steps: seq<Step>, id: string, onDisk: bool, write: WriteResult)
    requires Emits(false, reply, steps) && ReplyError(reply).None? && (Storable(reply) ==> id != "")
    ensures
      var failure := Failure(None, reply, onDisk, write);
      var o := if failure.None? then Completed(steps, id)
               else if Storable(reply) then StoreFailed(steps, id, failure.value)
               else WorkerFailed(steps, failure.value);
      Decided(o, None, reply, onDisk, write)
  {
    EmitsIsPossible(false, reply, steps);
    hide Emits;
  }

  lemma FirstTwoSections<C>()
    ensures PerformAll(NewBus<C>(), [Count(RunsStarted), ToState(Running)]) == Transition(NewBus<C>(), Running)
  {
    var script := [Count(RunsStarted), ToState(Running)];
    PerformNext(NewBus<C>(), script, 0);
    PerformNext(NewBus<C>(), script, 1);
    assert script[..2] == script && script[..0] == [];
  }

  class Manager {
    const runner: Runner
    const store: Store
    const metrics: Metrics
    var counter: nat
    var runs: map<string, Run>

    ghost predicate Valid()
      reads this
    {
      forall id | id in runs :: exists k: nat :: k <= counter && id == RunId(k)
    }

    constructor (runner: Runner, store: Store, metrics: Metrics)
      ensures Valid() && runs == map[] && counter == 0
      ensures this.runner == runner && this.store == store && this.metrics == metrics
    {
      this.runner, this.store, this.metrics := runner, store, metrics;
      counter, runs := 0, map[];
    }

    method Get(id: string) returns (r: Option<Run>)
      ensures r == if id in runs then Some(runs[id]) else None
    {
      r := if id in runs then Some(runs[id]) else None;
    }

    /** `Start`, up to the launch of `Execute`: the new run gets an ID that no other run has. */
    method Start(mode: string, flow: string) returns (r: Run)
      requires Valid()
      modifies this, metrics
      ensures Valid() && fresh(r) && r.Valid()
      ensures r.id !in old(runs) && runs == old(runs)[r.id := r]
      ensures r.mode == mode && r.flow == if flow == "" then "golden-escrow" else flow
      ensures metrics.counters == old(metrics.counters)[MetricName(RunsStarted) :=
                Counter(old(metrics.counters), MetricName(RunsStarted)) + 1]
      ensures r.View() == PerformAll(NewBus(), [Count(RunsStarted), ToState(Running)])
      ensures Counter(metrics.counters, "runs_started") == old(Counter(metrics.counters, "runs_started")) + 1
      ensures Counter(metrics.counters, "runs_completed") == old(Counter(metrics.counters, "runs_completed"))
      ensures Counter(metrics.counters, "runs_failed") == old(Counter(metrics.counters, "runs_failed"))
    {
      hide PerformAll;
      hide Transition;
      hide RunId;
      hide Counter;
      StartedReads(metrics.counters);
      FirstTwoSections<Channel>();
      counter := counter + 1;
      var id := RunId(counter);
      forall k: nat | k < counter ensures RunId(k) != id {
        if RunId(k) == id {
          RunIdInjective(k, counter);
        }
      }
      r := new Run(id, mode, if flow == "" then "golden-escrow" else flow);
      runs := runs[id := r];
      metrics.Inc(MetricName(RunsStarted));
      var _ := r.TransitionTo(Running);
    }

    lemma StartedReads(before: map<string, int>)
      ensures
        var after := before[MetricName(RunsStarted) := Counter(before, MetricName(RunsStarted)) + 1];
        && Counter(after, "runs_started") == Counter(before, "runs_started") + 1
        && Counter(after, "runs_completed") == Counter(before, "runs_completed")
        && Counter(after, "runs_failed") == Counter(before, "runs_failed")
    {
      var names := ["runs_started", "runs_completed", "runs_failed"];
      assert |names[0]| == 12 && |names[1]| == 14 && |names[2]| == 11;
    }

    /** The counters after the end of a run. */
    function Counted(counters: map<string, int>, o: Outcome): map<string, int> {
      var name := MetricName(if o.Completed? then RunsCompleted else RunsFailed);
      counters[name := Counter(counters, name) + 1]
    }

    lemma CountedReads(before: map<string, int>, o: Outcome)
      ensures
        var after := Counted(before, o);
        && Counter(after, "runs_completed") == Counter(before, "runs_completed") + (if o.Completed? then 1 else 0)
        && Counter(after, "runs_failed") == Counter(before, "runs_failed") + (if o.Completed? then 0 else 1)
        && Counter(after, "runs_started") == Counter(before, "runs_started")
    {
      var names := ["runs_started", "runs_completed", "runs_failed"];
      assert |names[0]| == 12 && |names[1]| == 14 && |names[2]| == 11;
    }

    /** The files of the store's directory, if it has one. */
    ghost function Files(): map<string, File>
      reads store.disk
    {
      if store.disk == null then map[] else store.disk.files
    }

    /** What the outcome of a run leaves in the store, in memory and on disk. */
    ghost predicate Stored(o: Outcome, before: map<string, StoredRun>, files: map<string, File>, mode: string,
                           flow: string, reply: NodeReply, now: int, write: WriteResult)
      requires o.WorkerFailed? || Storable(reply)
      requires forall bytes :: |store.sha(bytes)| == 32
      reads this, store, store.disk
    {
      if o.WorkerFailed? then store.runs == before && Files() == files
      else
        var stored := store.Filled(Record(mode, flow, reply), reply.receipt.encoded.value, now);
        && o.id == stored.id && store.runs == before[o.id := stored]
        && Files() == if store.disk == null then files else AfterWrite(store.codec, files, stored, write)
    }

    /** What is stored, field by field. */
    lemma StoredFields(o: Outcome, before: map<string, StoredRun>, files: map<string, File>, mode: string,
                       flow: string, reply: NodeReply, now: int, write: WriteResult)
      requires (o.WorkerFailed? || Storable(reply)) && (forall bytes :: |store.sha(bytes)| == 32)
      requires Stored(o, before, files, mode, flow, reply, now, write)
      ensures o.WorkerFailed? ==> store.runs == before && Files() == files
      ensures !o.WorkerFailed? ==>
                && o.id == Hex(store.sha(reply.receipt.encoded.value))[..12]
                && store.runs == before[o.id :=
                  StoredRun(id := o.id, mode := mode, flow := flow, network := reply.networkLabel,
                            proofLabel := reply.proofLabel, createdAt := Some(now),
                            receipt := Some(reply.receipt), bundle := reply.bundleJson.value)]
      ensures !o.WorkerFailed? && store.disk != null && write.Written? ==>
                Files() == files[DiskPath(o.id) := Encoded(OnFile(store.codec, store.runs[o.id]))]
    {
    }

    /** Hands the result that the worker made of a reply to the store, after `steps` were emitted. */
    method StoreResult(v: RunResult, mode: string, flow: string, reply: NodeReply, now: int, write: WriteResult,
                       ghost steps: seq<Step>)
      returns (id: string, failure: Option<string>, ghost o: Outcome)
      requires forall bytes :: |store.sha(bytes)| == 32
      requires runner.Refused(mode).None? && ReplyError(reply).None? && Emits(false, reply, steps)
      requires v == RunResult(mode, reply.networkLabel, reply.proofLabel, reply.receipt, reply.bundleJson.value)
      modifies store, store.disk
      ensures o.steps == steps && Decided(o, runner.Refused(mode), reply, store.disk != null, write)
      ensures Stored(o, old(store.runs), old(Files()), mode, flow, reply, now, write)
      ensures o.Completed? <==> failure.None?
      ensures if failure.None? then o.id == id else o.msg == failure.value
    {
      hide Emits;
      hide Decided;
      hide ErrorText;
      hide Store.Filled;
      hide Runner.Refused;
      var draft := new Draft(
        StoredRun("", v.mode, flow, v.networkLabel, v.proofLabel, None, Some(v.receipt), v.bundleJson));
      var err;
      id, err := store.Put(draft, now, write);
      if err.Some? {
        failure := Some("could not store run: " + ErrorText(err.value));
        o := if err.value.EncodeFailed? then WorkerFailed(steps, failure.value)
             else StoreFailed(steps, id, failure.value);
      } else {
        failure, o := None, Completed(steps, id);
      }
      StoreDecides(reply, steps, id, store.disk != null, write);
    }

    /** `execute` up to the counter: the worker and the store decide the outcome `o`. */
    method Work(r: Run, mode: string, flow: string, reply: NodeReply, now: int, write: WriteResult)
      returns (id: string, failure: Option<string>, ghost o: Outcome)
      requires r.Valid() && (forall bytes :: |store.sha(bytes)| == 32)
      modifies r, r.subs, store, store.disk
      ensures r.Valid() && r.chans == old(r.chans) && r.subs == old(r.subs)
      ensures r.View() == PerformAll(old(r.View()), EmitAll(o.steps))
      ensures Decided(o, runner.Refused(mode), reply, store.disk != null, write)
      ensures Stored(o, old(store.runs), old(Files()), mode, flow, reply, now, write)
      ensures o.Completed? <==> failure.None?
      ensures if failure.None? then o.id == id else o.msg == failure.value
    {
      hide PerformAll;
      hide EmitAll;
      hide Run.View;
      hide Run.Valid;
      hide Decided;
      hide Emits;
      hide Runner.Refused;
      hide ReplyError;
      hide Record;
      hide Store.Filled;
      var result, steps := runner.RunFlow(mode, reply, r);
      if result.Err? {
        WorkerDecides(runner.Refused(mode), reply, steps, store.disk != null, write);
        o := WorkerFailed(steps, result.error);
        return "", Some(result.error), o;
      }
      id, failure, o := StoreResult(result.value, mode, flow, reply, now, write, steps);
    }

    /**
     `execute`: the worker runs and streams its steps, the result is stored, one counter is bumped and the
     run is finished. `o` is the outcome of this call; the sections it performs on the run are those of the
     script of `o` after the first two.
     */
    method Execute(r: Run, mode: string, flow: string, reply: NodeReply, now: int, write: WriteResult)
      returns (ghost o: Outcome)
      requires r.Valid() && (forall bytes :: |store.sha(bytes)| == 32)
      modifies r, r.subs, store, metrics, store.disk
      ensures r.Valid() && r.chans == old(r.chans)
      ensures r.View() == PerformAll(old(r.View()), EmitAll(o.steps) + Ending(o))
      ensures metrics.counters == Counted(old(metrics.counters), o)
      ensures o.WorkerFailed? ==> store.runs == old(store.runs) && Files() == old(Files())
      ensures !o.WorkerFailed? ==>
                && Storable(reply)
                && o.id == Hex(store.sha(reply.receipt.encoded.value))[..12]
                && store.runs == old(store.runs)[o.id :=
                  StoredRun(id := o.id, mode := mode, flow := flow, network := reply.networkLabel,
                            proofLabel := reply.proofLabel, createdAt := Some(now),
                            receipt := Some(reply.receipt), bundle := reply.bundleJson.value)]
      ensures Counter(metrics.counters, "runs_completed")
              == old(Counter(metrics.counters, "runs_completed")) + (if o.Completed? then 1 else 0)
      ensures Counter(metrics.counters, "runs_failed")
              == old(Counter(metrics.counters, "runs_failed")) + (if o.Completed? then 0 else 1)
      ensures Counter(metrics.counters, "runs_started") == old(Counter(metrics.counters, "runs_started"))
      ensures !o.WorkerFailed? && store.disk != null && write.Written? ==>
                Files() == old(Files())[DiskPath(o.id) := Encoded(OnFile(store.codec, store.runs[o.id]))]
      ensures Decided(o, runner.Refused(mode), reply, store.disk != null, write)
      ensures Stored(o, old(store.runs), old(Files()), mode, flow, reply, now, write)
    {
      hide PerformAll;
      hide EmitAll;
      hide Ending;
      hide Run.View;
      hide Run.Valid;
      hide Decided;
      hide Stored;
      hide Runner.Refused;
      hide Counted;
      hide Counter;
      var id, failure;
      id, failure, o := Work(r, mode, flow, reply, now, write);
      CountedReads(metrics.counters, o);
      DecidedStorable(o, runner.Refused(mode), reply, store.disk != null, write);
      StoredFields(o, old(store.runs), old(Files()), mode, flow, reply, now, write);
      Finish(r, id, failure, old(r.View()), o);
    }

    /** The end of `Execute`: the counter is bumped, then the run is finished. */
    method Finish(r: Run, id: string, failure: Option<string>, ghost start: Bus<Channel>, ghost o: Outcome)
      requires r.Valid() && r.View() == PerformAll(start, EmitAll(o.steps))
      requires (o.Completed? <==> failure.None?) && if failure.None? then o.id == id else o.msg == failure.value
      modifies r, r.subs, metrics
      ensures r.Valid() && r.chans == old(r.chans)
      ensures r.View() == PerformAll(start, EmitAll(o.steps) + Ending(o))
      ensures metrics.counters == Counted(old(metrics.counters), o)
    {
      hide PerformAll;
      hide EmitAll;
      hide Ending;
      hide Run.View;
      hide Run.Valid;
      hide Counted;
      if failure.Some? {
        Fail(r, failure.value, start, o);
      } else {
        Succeed(r, id, start, o);
      }
    }

    /** The failing end of `Execute`: the counter is bumped before the run's state becomes terminal. */
    method Fail(r: Run, msg: string, ghost start: Bus<Channel>, ghost o: Outcome)
      requires r.Valid() && !o.Completed? && o.msg == msg
      requires r.View() == PerformAll(start, EmitAll(o.steps))
      modifies r, r.subs, metrics
      ensures r.Valid() && r.chans == old(r.chans)
      ensures r.View() == PerformAll(start, EmitAll(o.steps) + Ending(o))
      ensures metrics.counters == Counted(old(metrics.counters), o)
    {
      hide PerformAll;
      hide Ending;
      hide Transition;
      hide Publish;
      hide CloseSubs;
      hide Run.View;
      hide Run.Valid;
      FinishIsScript(start, r.View(), o);
      metrics.Inc(MetricName(RunsFailed));
      r.FinishErr(msg);
    }

    /** The successful end of `Execute`, likewise. */
    method Succeed(r: Run, id: string, ghost start: Bus<Channel>, ghost o: Outcome)
      requires r.Valid() && o.Completed? && o.id == id
      requires r.View() == PerformAll(start, EmitAll(o.steps))
      modifies r, r.subs, metrics
      ensures r.Valid() && r.chans == old(r.chans)
      ensures r.View() == PerformAll(start, EmitAll(o.steps) + Ending(o))
      ensures metrics.counters == Counted(old(metrics.counters), o)
    {
      hide PerformAll;
      hide Ending;
      hide Transition;
      hide Publish;
      hide CloseSubs;
      hide Run.View;
      hide Run.Valid;
      FinishIsScript(start, r.View(), o);
      metrics.Inc(MetricName(RunsCompleted));
      r.FinishOk(id);
    }
  }

  lemma EmitsIsPossible(refused: bool, reply: NodeReply, steps: seq<Step>)
    requires Emits(refused, reply, steps)
    ensures steps == [] || steps == [RUN_FAILED_STEP] || Narrated(steps)
    ensures !refused && reply.Delivered? ==> Narrated(steps)
  {
  }

  lemma FinishIsScript<C>(start: Bus<C>, emitted: Bus<C>, o: Outcome)
    requires emitted == PerformAll(start, EmitAll(o.steps))
    ensures Finished(emitted, o) == PerformAll(start, EmitAll(o.steps) + Ending(o))
  {
    PerformConcat(start, EmitAll(o.steps), Ending(o));
    EndingIsFinish(emitted, o);
  }
}
