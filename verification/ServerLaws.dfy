/**
 Any number of runs at once, with their clients, the counters, the receipt store and the clock. Every run is
 driven through its script one section at a time, in any interleaving with all the others.
 */
module ServerLaws {
  import opened RunBus
  import opened RunBusLaws
  import opened RunLaws
  import opened Wrappers

  /** A run: how it will end, the actions on it so far, and the clock when its receipt was stamped. */
  datatype Inst<C> = Inst(outcome: Outcome, actions: seq<Action<C>>, stampedAt: int) {

    ghost function Sys(): Sys<C> {
      After(Script(outcome), actions)
    }
  }

  /** A stored receipt: the run that it belongs to, and its creation time. */
  datatype Entry = Entry(run: nat, createdAt: int)

  datatype Server<C> = Server(insts: seq<Inst<C>>, counters: map<Metric, nat>, store: map<string, Entry>, now: int)

  datatype Move<C> =
    | Launch(outcome: Outcome)
    | Advance(run: nat)
    | Client(of: nat, action: Action<C>)
    | Tick(seconds: nat)
    | Sweep

  function Total(counters: map<Metric, nat>, m: Metric): nat {
    if m in counters then counters[m] else 0
  }

  function StoredId(o: Outcome): string {
    if o.WorkerFailed? then "" else o.id
  }

  /** One section of one run, with its effect outside the run. */
  ghost function Drive<C>(s: Server<C>, r: nat): Server<C>
    requires r < |s.insts| && s.insts[r].Sys().pc < |Script(s.insts[r].outcome)|
  {
    var inst := s.insts[r];
    var section := Script(inst.outcome)[inst.Sys().pc];
    var moved := inst.(actions := inst.actions + [Exec]);
    match section
    case Count(m) => s.(insts := s.insts[r := moved], counters := s.counters[m := Total(s.counters, m) + 1])
    case Stamp => s.(insts := s.insts[r := moved.(stampedAt := s.now)])
    case Store(id) => s.(insts := s.insts[r := moved], store := s.store[id := Entry(r, inst.stampedAt)])
    case _ => s.(insts := s.insts[r := moved])
  }

  /** `Sweep` is the cleanup job with the configured retention (api/server.go). */
  ghost function Next<C>(s: Server<C>, e: Move<C>, retention: int): Server<C> {
    match e
    case Launch(o) => s.(insts := s.insts + [Inst(o, [], 0)])
    case Advance(r) =>
      if r < |s.insts| && s.insts[r].Sys().pc < |Script(s.insts[r].outcome)| then Drive(s, r) else s
    case Client(r, a) =>
      if r < |s.insts| && !a.Exec? then
        s.(insts := s.insts[r := s.insts[r].(actions := s.insts[r].actions + [a])])
      else s
    case Tick(t) => s.(now := s.now + t)
    case Sweep => s.(store := map id | id in s.store && s.store[id].createdAt >= s.now - retention :: s.store[id])
  }

  ghost function Serve<C>(moves: seq<Move<C>>, retention: int): Server<C> {
    if moves == [] then Server([], map[], map[], 0)
    else Next(Serve(moves[..|moves| - 1], retention), moves[|moves| - 1], retention)
  }

  // ---- How far a run is ----

  /** The position of the section that counts `m`, or the end of the script if there is none. */
  function CountPoint(o: Outcome, m: Metric): nat {
    var n := |o.steps| + 2;
    match m
    case RunsStarted => 0
    case RunsCompleted => if o.Completed? then n + 2 else |Script(o)|
    case RunsFailed =>
      match o
      case Completed(_, _) => |Script(o)|
      case WorkerFailed(_, _) => n
      case StoreFailed(_, _, _) => n + 2
  }

  lemma SectionAt(o: Outcome, pc: nat)
    requires pc < |Script(o)|
    ensures forall m :: Script(o)[pc] == Count(m) <==> pc == CountPoint(o, m)
    ensures Script(o)[pc].Stamp? <==> !o.WorkerFailed? && pc == |o.steps| + 2
    ensures Script(o)[pc].Store? <==> !o.WorkerFailed? && pc == |o.steps| + 3
    ensures Script(o)[pc].Store? ==> Script(o)[pc].id == StoredId(o)
  {
    var n := |o.steps| + 2;
    assert |Script(o)| == n + |Ending(o)|;
    if pc >= n {
      assert Script(o)[pc] == Ending(o)[pc - n];
    } else if pc >= 2 {
      assert Script(o)[pc] == EmitAll(o.steps)[pc - 2];
    }
  }

  lemma PcMoves<C>(inst: Inst<C>, a: Action<C>)
    ensures
      var pc := inst.Sys().pc;
      && pc <= |Script(inst.outcome)|
      && inst.(actions := inst.actions + [a]).Sys().pc
         == if a.Exec? && pc < |Script(inst.outcome)| then pc + 1 else pc
  {
    hide Script;
    ClientsDoNotInterfere(Script(inst.outcome), inst.actions);
    assert (inst.actions + [a])[..|inst.actions|] == inst.actions;
  }

  // ---- Counters ----

  /** The runs that have been counted under `m`. */
  ghost function CountedRuns<C>(s: Server<C>, m: Metric): set<nat> {
    set r: nat | r < |s.insts| && s.insts[r].Sys().pc > CountPoint(s.insts[r].outcome, m)
  }

  ghost predicate CountersExact<C>(s: Server<C>) {
    forall m: Metric :: Total(s.counters, m) == |CountedRuns(s, m)|
  }

  lemma SameCounted<C>(s: Server<C>, s': Server<C>, m: Metric)
    requires |s'.insts| >= |s.insts|
    requires forall r: nat | r < |s.insts| ::
               s'.insts[r].outcome == s.insts[r].outcome
               && (s'.insts[r].Sys().pc > CountPoint(s.insts[r].outcome, m)
                   <==> s.insts[r].Sys().pc > CountPoint(s.insts[r].outcome, m))
    requires forall r: nat | |s.insts| <= r < |s'.insts| :: s'.insts[r].Sys().pc == 0
    ensures CountedRuns(s', m) == CountedRuns(s, m)
  {
    hide CountPoint;
  }

  /** What driving one run changes: its own position by one, and the counter that its section bumps. */
  lemma DriveFrame<C>(s: Server<C>, r: nat)
    requires r < |s.insts| && s.insts[r].Sys().pc < |Script(s.insts[r].outcome)|
    ensures
      var s' := Drive(s, r);
      && |s'.insts| == |s.insts|
      && (forall q: nat | q < |s.insts| && q != r :: s'.insts[q] == s.insts[q])
      && s'.insts[r].outcome == s.insts[r].outcome
      && s'.insts[r].actions == s.insts[r].actions + [Exec]
      && s'.insts[r].Sys().pc == s.insts[r].Sys().pc + 1
      && s'.now == s.now
  {
    var inst := s.insts[r];
    PcMoves(inst, Exec);
    PcMoves(inst.(stampedAt := s.now), Exec);
    hide Script;
    hide After;
  }

  /** A run is stamped with the clock when it performs its stamp section, which is the one before it stores. */
  lemma {:induction false} StampIsNow<C>(s: Server<C>, r: nat, retention: int)
    requires r < |s.insts| && !s.insts[r].outcome.WorkerFailed?
    requires s.insts[r].Sys().pc == |s.insts[r].outcome.steps| + 2
    ensures
      var s' := Next(s, Advance(r), retention);
      r < |s'.insts| && s'.insts[r].stampedAt == s.now && s'.insts[r].Sys().pc == s.insts[r].Sys().pc + 1
  {
    assert |Script(s.insts[r].outcome)| == |s.insts[r].outcome.steps| + 2 + |Ending(s.insts[r].outcome)|;
    SectionAt(s.insts[r].outcome, s.insts[r].Sys().pc);
    DriveFrame(s, r);
    hide Script;
  }

  lemma DriveCounter<C>(s: Server<C>, r: nat, m: Metric)
    requires r < |s.insts| && s.insts[r].Sys().pc < |Script(s.insts[r].outcome)|
    ensures Total(Drive(s, r).counters, m)
            == Total(s.counters, m) + if s.insts[r].Sys().pc == CountPoint(s.insts[r].outcome, m) then 1 else 0
  {
    SectionAt(s.insts[r].outcome, s.insts[r].Sys().pc);
    hide CountPoint;
    hide Script;
    hide After;
  }

  lemma {:induction false} DriveCounts<C>(s: Server<C>, r: nat, m: Metric)
    requires r < |s.insts| && s.insts[r].Sys().pc < |Script(s.insts[r].outcome)|
    ensures
      var at := s.insts[r].Sys().pc == CountPoint(s.insts[r].outcome, m);
      && CountedRuns(Drive(s, r), m) == (if at then CountedRuns(s, m) + {r} else CountedRuns(s, m))
      && (at ==> r !in CountedRuns(s, m))
  {
    DriveFrame(s, r);
    hide CountPoint;
    hide Script;
    hide After;
    hide Drive;
  }

  lemma LaunchCounts<C>(s: Server<C>, o: Outcome, m: Metric, retention: int)
    ensures CountedRuns(Next(s, Launch(o), retention), m) == CountedRuns(s, m)
  {
    hide CountPoint;
    hide Script;
    hide CountedRuns;
    SameCounted(s, Next(s, Launch(o), retention), m);
  }

  lemma NextKeepsCounters<C>(s: Server<C>, e: Move<C>, retention: int)
    requires CountersExact(s)
    ensures CountersExact(Next(s, e, retention))
  {
    hide CountPoint;
    hide Script;
    hide After;
    hide CountedRuns;
    var s' := Next(s, e, retention);
    forall m: Metric ensures Total(s'.counters, m) == |CountedRuns(s', m)| {
      assert Total(s.counters, m) == |CountedRuns(s, m)|;
      match e
      case Advance(r) =>
        if r < |s.insts| && s.insts[r].Sys().pc < |Script(s.insts[r].outcome)| {
          DriveCounts(s, r, m);
          DriveCounter(s, r, m);
        }
      case Client(r, a) =>
        if r < |s.insts| && !a.Exec? {
          PcMoves(s.insts[r], a);
        }
        SameCounted(s, s', m);
      case Launch(o) =>
        LaunchCounts(s, o, m, retention);
      case _ =>
        SameCounted(s, s', m);
    }
  }

  lemma {:induction false} CountersAlwaysExact<C>(moves: seq<Move<C>>, retention: int)
    ensures CountersExact(Serve(moves, retention))
  {
    if moves != [] {
      hide Next;
      hide CountersExact;
      CountersAlwaysExact(moves[..|moves| - 1], retention);
      NextKeepsCounters(Serve(moves[..|moves| - 1], retention), moves[|moves| - 1], retention);
    } else {
      forall m: Metric ensures CountedRuns(Serve<C>([], retention), m) == {} {
      }
    }
  }

  /** The runs that were counted as started and not yet counted as finished. */
  ghost function InFlight<C>(s: Server<C>): set<nat> {
    CountedRuns(s, RunsStarted) - CountedRuns(s, RunsCompleted) - CountedRuns(s, RunsFailed)
  }

  lemma FinishedOnce<C>(s: Server<C>)
    ensures CountedRuns(s, RunsCompleted) !! CountedRuns(s, RunsFailed)
    ensures CountedRuns(s, RunsCompleted) <= CountedRuns(s, RunsStarted)
    ensures CountedRuns(s, RunsFailed) <= CountedRuns(s, RunsStarted)
  {
    forall r: nat | r < |s.insts| ensures s.insts[r].Sys().pc <= |Script(s.insts[r].outcome)| {
      PcMoves(s.insts[r], Exec);
    }
    hide After;
    hide Script;
  }

  /**
   Counter conservation. With any number of concurrent runs, runs_started is runs_completed plus runs_failed
   plus the runs in flight, every run being counted at most once at each end.
   */
  lemma {:induction false} CounterConservation<C>(moves: seq<Move<C>>, retention: int)
    ensures
      var s := Serve(moves, retention);
      Total(s.counters, RunsStarted)
      == Total(s.counters, RunsCompleted) + Total(s.counters, RunsFailed) + |InFlight(s)|
  {
    CountersAlwaysExact(moves, retention);
    var s := Serve(moves, retention);
    hide Serve;
    FinishedOnce(s);
    hide CountedRuns;
    assert CountersExact(s);
    ThreeParts(CountedRuns(s, RunsStarted), CountedRuns(s, RunsCompleted), CountedRuns(s, RunsFailed));
  }

  lemma ThreeParts(all: set<nat>, a: set<nat>, b: set<nat>)
    requires a !! b && a <= all && b <= all
    ensures |all| == |a| + |b| + |all - a - b|
  {
    assert all == a + b + (all - a - b);
  }

  /**
   A run is counted as finished, under the counter of its outcome, before its state becomes terminal: while
   it is in flight it is still created or running.
   */
  lemma {:induction false} CountedBeforeTerminal<C>(s: Server<C>, r: nat)
    requires r < |s.insts| && s.insts[r].Sys().bus.state.Terminal()
    ensures r in CountedRuns(s, if s.insts[r].outcome.Completed? then RunsCompleted else RunsFailed)
    ensures s.insts[r].Sys().bus.state == Complete <==> s.insts[r].outcome.Completed?
    ensures r !in InFlight(s)
  {
    Grammar(s.insts[r].outcome, s.insts[r].actions);
  }

  // ---- The receipt of a run ----

  /** The run has put its receipt into the store. */
  ghost predicate HasStored<C>(s: Server<C>, r: nat) {
    && r < |s.insts|
    && !s.insts[r].outcome.WorkerFailed?
    && s.insts[r].Sys().pc > |s.insts[r].outcome.steps| + 3
  }

  /** Another run has put a receipt with the same ID. */
  ghost predicate Collides<C>(s: Server<C>, r: nat)
    requires r < |s.insts|
  {
    exists q: nat :: q != r && HasStored(s, q) && StoredId(s.insts[q].outcome) == StoredId(s.insts[r].outcome)
  }

  ghost predicate Findable<C>(s: Server<C>, r: nat)
    requires r < |s.insts|
  {
    var id := StoredId(s.insts[r].outcome);
    id in s.store && s.store[id] == Entry(r, s.insts[r].stampedAt)
  }

  ghost predicate ReceiptInv<C>(s: Server<C>, r: nat, retention: int) {
    HasStored(s, r) ==> Findable(s, r) || Collides(s, r) || s.now - s.insts[r].stampedAt > retention
  }

  lemma DriveStore<C>(s: Server<C>, q: nat)
    requires q < |s.insts| && s.insts[q].Sys().pc < |Script(s.insts[q].outcome)|
    ensures
      var s' := Drive(s, q);
      var o := s.insts[q].outcome;
      var at := !o.WorkerFailed? && s.insts[q].Sys().pc == |o.steps| + 3;
      && s'.store == (if at then s.store[StoredId(o) := Entry(q, s.insts[q].stampedAt)] else s.store)
      && (s.insts[q].Sys().pc > |o.steps| + 2 ==> s'.insts[q].stampedAt == s.insts[q].stampedAt)
  {
    SectionAt(s.insts[q].outcome, s.insts[q].Sys().pc);
    hide Script;
    hide After;
    hide CountPoint;
  }

  lemma {:induction false} DriveKeepsReceipt<C>(s: Server<C>, q: nat, r: nat, retention: int)
    requires q < |s.insts| && s.insts[q].Sys().pc < |Script(s.insts[q].outcome)|
    requires r < |s.insts| && ReceiptInv(s, r, retention)
    ensures ReceiptInv(Drive(s, q), r, retention)
  {
    DriveFrame(s, q);
    DriveStore(s, q);
    hide Script;
    hide After;
    hide Drive;
    var s' := Drive(s, q);
    if HasStored(s', r) {
      if HasStored(s, r) && Collides(s, r) {
        var p: nat :| p != r && HasStored(s, p) && StoredId(s.insts[p].outcome) == StoredId(s.insts[r].outcome);
        assert HasStored(s', p);
      } else if q != r && HasStored(s, r) && s'.store != s.store {
        assert HasStored(s', q);
      }
    }
  }

  lemma AdvanceKeepsReceipt<C>(s: Server<C>, q: nat, r: nat, retention: int)
    requires ReceiptInv(s, r, retention)
    ensures ReceiptInv(Next(s, Advance(q), retention), r, retention)
  {
    hide Script;
    hide Drive;
    if q < |s.insts| && s.insts[q].Sys().pc < |Script(s.insts[q].outcome)| {
      if r < |s.insts| {
        DriveKeepsReceipt(s, q, r, retention);
      } else {
        DriveFrame(s, q);
      }
    }
  }

  lemma ClientKeepsReceipt<C>(s: Server<C>, q: nat, a: Action<C>, r: nat, retention: int)
    requires ReceiptInv(s, r, retention)
    ensures ReceiptInv(Next(s, Client(q, a), retention), r, retention)
  {
    hide Script;
    hide After;
    hide ReceiptInv;
    if q < |s.insts| && !a.Exec? {
      PcMoves(s.insts[q], a);
      SameReceipts(s, Next(s, Client(q, a), retention), r, retention);
    }
  }

  lemma LaunchKeepsReceipt<C>(s: Server<C>, o: Outcome, r: nat, retention: int)
    requires ReceiptInv(s, r, retention)
    ensures ReceiptInv(Next(s, Launch(o), retention), r, retention)
  {
    hide Script;
    hide ReceiptInv;
    SameReceipts(s, Next(s, Launch(o), retention), r, retention);
  }

  lemma NextKeepsReceipt<C>(s: Server<C>, e: Move<C>, r: nat, retention: int)
    requires ReceiptInv(s, r, retention)
    ensures ReceiptInv(Next(s, e, retention), r, retention)
  {
    hide Script;
    hide After;
    hide ReceiptInv;
    match e
    case Advance(q) =>
      AdvanceKeepsReceipt(s, q, r, retention);
    case Client(q, a) =>
      ClientKeepsReceipt(s, q, a, r, retention);
    case Launch(o) =>
      LaunchKeepsReceipt(s, o, r, retention);
    case _ =>
      SameReceipts(s, Next(s, e, retention), r, retention);
  }

  /** Moves that bring no new receipt into the store keep what is known about the old ones. */
  lemma SameReceipts<C>(s: Server<C>, s': Server<C>, r: nat, retention: int)
    requires ReceiptInv(s, r, retention)
    requires |s.insts| <= |s'.insts| && s'.now >= s.now
    requires forall q: nat | q < |s.insts| ::
               && s'.insts[q].outcome == s.insts[q].outcome && s'.insts[q].stampedAt == s.insts[q].stampedAt
               && s'.insts[q].Sys().pc == s.insts[q].Sys().pc
    requires forall q: nat | |s.insts| <= q < |s'.insts| :: s'.insts[q].Sys().pc == 0
    requires forall id | id in s.store ::
               (id in s'.store && s'.store[id] == s.store[id]) || s'.now - s.store[id].createdAt > retention
    ensures ReceiptInv(s', r, retention)
  {
    hide After;
    hide Script;
    if HasStored(s', r) && Collides(s, r) {
      var q: nat :| q != r && HasStored(s, q) && StoredId(s.insts[q].outcome) == StoredId(s.insts[r].outcome);
      assert HasStored(s', q);
    }
  }

  lemma {:induction false} ReceiptInvariant<C>(moves: seq<Move<C>>, r: nat, retention: int)
    ensures ReceiptInv(Serve(moves, retention), r, retention)
  {
    if moves != [] {
      hide Next;
      hide ReceiptInv;
      ReceiptInvariant(moves[..|moves| - 1], r, retention);
      NextKeepsReceipt(Serve(moves[..|moves| - 1], retention), moves[|moves| - 1], r, retention);
    }
  }

  /** Later moves never take a run back. */
  lemma {:induction false} NextAdvances<C>(s: Server<C>, e: Move<C>, r: nat, retention: int)
    requires r < |s.insts|
    ensures
      var s' := Next(s, e, retention);
      && r < |s'.insts| && s'.insts[r].outcome == s.insts[r].outcome
      && s'.insts[r].Sys().pc >= s.insts[r].Sys().pc
  {
    match e
    case Advance(q) =>
      if q < |s.insts| && s.insts[q].Sys().pc < |Script(s.insts[q].outcome)| {
        DriveFrame(s, q);
      }
    case Client(q, a) =>
      if q < |s.insts| && !a.Exec? {
        PcMoves(s.insts[q], a);
      }
    case _ =>
  }

  lemma {:induction false} ServeAdvances<C>(moves: seq<Move<C>>, more: seq<Move<C>>, r: nat, retention: int)
    requires r < |Serve(moves, retention).insts|
    ensures
      var s, s' := Serve(moves, retention), Serve(moves + more, retention);
      && r < |s'.insts| && s'.insts[r].outcome == s.insts[r].outcome
      && s'.insts[r].Sys().pc >= s.insts[r].Sys().pc
  {
    hide Next;
    hide After;
    hide Script;
    if more == [] {
      assert moves + more == moves;
    } else {
      var all, rest := moves + more, more[..|more| - 1];
      assert all[..|all| - 1] == moves + rest;
      ServeAdvances(moves, rest, r, retention);
      NextAdvances(Serve(moves + rest, retention), all[|all| - 1], r, retention);
    }
  }

  // ---- Whose receipt an ID leads to ----

  /** The next section of the run puts its receipt into the store. */
  ghost predicate StoresNext<C>(s: Server<C>, r: nat) {
    && r < |s.insts|
    && !s.insts[r].outcome.WorkerFailed?
    && s.insts[r].Sys().pc == |s.insts[r].outcome.steps| + 3
  }

  /** The run that was the last to put a receipt under an ID. */
  ghost function LastStored<C>(moves: seq<Move<C>>, retention: int, id: string): Option<nat> {
    if moves == [] then None
    else
      var before, e := moves[..|moves| - 1], moves[|moves| - 1];
      var s := Serve(before, retention);
      if e.Advance? && StoresNext(s, e.run) && StoredId(s.insts[e.run].outcome) == id then Some(e.run)
      else LastStored(before, retention, id)
  }

  /** The store holds the receipt of the last run that stored under an ID, unless that receipt has expired. */
  ghost predicate HoldsLast<C>(s: Server<C>, last: Option<nat>, id: string, retention: int) {
    match last
    case None => id !in s.store
    case Some(q) =>
      && HasStored(s, q) && StoredId(s.insts[q].outcome) == id
      && if id in s.store then s.store[id] == Entry(q, s.insts[q].stampedAt)
         else s.now - s.insts[q].stampedAt > retention
  }

  lemma DriveHoldsLast<C>(s: Server<C>, r: nat, last: Option<nat>, id: string, retention: int)
    requires r < |s.insts| && s.insts[r].Sys().pc < |Script(s.insts[r].outcome)|
    requires HoldsLast(s, last, id, retention)
    ensures HoldsLast(Drive(s, r),
                      if StoresNext(s, r) && StoredId(s.insts[r].outcome) == id then Some(r) else last, id, retention)
  {
    DriveFrame(s, r);
    DriveStore(s, r);
    hide Script;
    hide After;
    hide Drive;
  }

  /** Moves that bring no new receipt into the store. */
  lemma SameHoldsLast<C>(s: Server<C>, s': Server<C>, last: Option<nat>, id: string, retention: int)
    requires HoldsLast(s, last, id, retention)
    requires |s.insts| <= |s'.insts| && s'.now >= s.now
    requires forall q: nat | q < |s.insts| ::
               && s'.insts[q].outcome == s.insts[q].outcome && s'.insts[q].stampedAt == s.insts[q].stampedAt
               && s'.insts[q].Sys().pc == s.insts[q].Sys().pc
    requires id in s'.store ==> id in s.store && s'.store[id] == s.store[id]
    requires id in s.store && id !in s'.store ==> s'.now - s.store[id].createdAt > retention
    ensures HoldsLast(s', last, id, retention)
  {
    hide Script;
    hide After;
  }

  lemma NextHoldsLast<C>(s: Server<C>, e: Move<C>, last: Option<nat>, id: string, retention: int)
    requires HoldsLast(s, last, id, retention)
    ensures HoldsLast(Next(s, e, retention),
                      if e.Advance? && StoresNext(s, e.run) && StoredId(s.insts[e.run].outcome) == id then Some(e.run)
                      else last, id, retention)
  {
    var s' := Next(s, e, retention);
    match e
    case Advance(r) =>
      if r < |s.insts| && s.insts[r].Sys().pc < |Script(s.insts[r].outcome)| {
        DriveHoldsLast(s, r, last, id, retention);
      } else if r < |s.insts| {
        AtTheEnd(s.insts[r].outcome);
      }
    case Client(r, a) =>
      if r < |s.insts| && !a.Exec? {
        PcMoves(s.insts[r], a);
      }
      SameHoldsLast(s, s', last, id, retention);
    case _ =>
      hide Script;
      hide After;
      SameHoldsLast(s, s', last, id, retention);
  }

  lemma AtTheEnd(o: Outcome)
    ensures !o.WorkerFailed? ==> |Script(o)| > |o.steps| + 3
  {
    assert |Script(o)| == |o.steps| + 2 + |Ending(o)|;
  }

  /**
   Whose receipt an ID leads to, in every interleaving: nobody's if no run stored one under it; otherwise that of
   the last run that did, unless it is older than the retention window.
   */
  lemma {:induction false} StoreHoldsLast<C>(moves: seq<Move<C>>, retention: int, id: string)
    ensures HoldsLast(Serve(moves, retention), LastStored(moves, retention, id), id, retention)
  {
    if moves != [] {
      hide Next;
      hide HoldsLast;
      var before := moves[..|moves| - 1];
      StoreHoldsLast(before, retention, id);
      NextHoldsLast(Serve(before, retention), moves[|moves| - 1], LastStored(before, retention, id), id, retention);
    }
  }

  lemma NextStores<C>(s: Server<C>, e: Move<C>, r: nat, retention: int)
    requires HasStored(Next(s, e, retention), r) && !HasStored(s, r)
    ensures e == Advance(r) && StoresNext(s, r)
    ensures Next(s, e, retention).insts[r].outcome == s.insts[r].outcome
  {
    match e
    case Advance(q) =>
      if q < |s.insts| && s.insts[q].Sys().pc < |Script(s.insts[q].outcome)| {
        DriveFrame(s, q);
      }
    case Client(q, a) =>
      if q < |s.insts| && !a.Exec? {
        PcMoves(s.insts[q], a);
      }
    case _ =>
      hide Script;
  }

  /** A run that has stored its receipt is followed, under its ID, by nobody but itself or a colliding run. */
  lemma {:induction false} StoredHasLast<C>(moves: seq<Move<C>>, r: nat, retention: int)
    requires HasStored(Serve(moves, retention), r)
    ensures LastStored(moves, retention, StoredId(Serve(moves, retention).insts[r].outcome)).Some?
  {
    if moves != [] {
      var before, e := moves[..|moves| - 1], moves[|moves| - 1];
      var s := Serve(before, retention);
      if HasStored(s, r) {
        StoredHasLast(before, r, retention);
        NextAdvances(s, e, r, retention);
      } else {
        NextStores(s, e, r, retention);
      }
      hide Next;
      hide HasStored;
      hide StoresNext;
    }
  }

  /**
   The one-call agent run is sound. A snapshot in state complete carries the run's own, non-empty receipt ID,
   and its receipt has been stored. A lookup at any later moment finds the receipt of the last run that stored
   one under that ID, unless that one is older than the retention window; it is the run itself unless another
   run has stored one under the same ID.
   */
  lemma {:induction false} AgentFindsProof<C>(moves: seq<Move<C>>, more: seq<Move<C>>, r: nat, retention: int)
    requires r < |Serve(moves, retention).insts|
    requires
      var inst := Serve(moves, retention).insts[r];
      Possible(inst.outcome) && inst.Sys().bus.state == Complete
    ensures
      var bus := Serve(moves, retention).insts[r].Sys().bus;
      var later := Serve(moves + more, retention);
      var last := LastStored(moves + more, retention, bus.receiptId);
      && r < |later.insts|
      && bus.receiptId == StoredId(later.insts[r].outcome) != ""
      && last.Some? && HoldsLast(later, last, bus.receiptId, retention)
      && (last.value == r || Collides(later, r))
  {
    var inst := Serve(moves, retention).insts[r];
    Grammar(inst.outcome, inst.actions);
    ServeAdvances(moves, more, r, retention);
    StoredHasLast(moves + more, r, retention);
    StoreHoldsLast(moves + more, retention, StoredId(inst.outcome));
    hide Serve;
    hide After;
    hide LastStored;
  }

  /** Hence, without collisions, a lookup within the retention window finds the run's own receipt. */
  lemma {:induction false} AgentFindsOwnProof<C>(moves: seq<Move<C>>, more: seq<Move<C>>, r: nat, retention: int)
    requires r < |Serve(moves, retention).insts|
    requires
      var inst := Serve(moves, retention).insts[r];
      Possible(inst.outcome) && inst.Sys().bus.state == Complete
    ensures
      var bus := Serve(moves, retention).insts[r].Sys().bus;
      var later := Serve(moves + more, retention);
      && r < |later.insts|
      && (!Collides(later, r) && later.now - later.insts[r].stampedAt <= retention ==>
            && bus.receiptId in later.store
            && later.store[bus.receiptId].run == r)
  {
    AgentFindsProof(moves, more, r, retention);
    hide Serve;
    hide LastStored;
    hide After;
  }
}
