/**
 When the memory and the disk of the receipt store agree. The first part is about one directory and one
 restart. The second part lets the locked halves and the disk halves of any number of `Put`s and `Cleanup`s
 interleave in any order, with writes that fail and restarts that lose every pending half, and says exactly
 when the tiers agree. The third part is about interleavings that keep the halves of an ID in order.
 */
module ReceiptStoreLaws {
  import opened ReceiptStore
  import opened Wrappers

  // ---- One directory ----

  /** The run that the directory holds under an ID, in the file that the store would write for it. */
  function OnDisk(files: map<string, File>, id: string): Option<StoredRun> {
    var path := DiskPath(id);
    if id != "" && path in files && files[path].Encoded? && files[path].run.id == id then Some(files[path].run)
    else None
  }

  function InMemory(runs: map<string, StoredRun>, id: string): Option<StoredRun> {
    if id in runs then Some(runs[id]) else None
  }

  ghost predicate Agree(runs: map<string, StoredRun>, files: map<string, File>) {
    forall id :: InMemory(runs, id) == OnDisk(files, id)
  }

  /** Every run file that decodes is named after the run in it. */
  ghost predicate Matched(files: map<string, File>) {
    forall name | name in files && IsRunFile(name) && Contribution(files, name).Some? ::
      name == DiskPath(files[name].run.id)
  }

  ghost predicate Covers(listing: seq<string>, files: map<string, File>) {
    forall name | name in files :: name in listing
  }

  lemma DiskPathIsRunFile(id: string)
    ensures IsRunFile(DiskPath(id))
  {
    assert DiskPath(id)[|id|..] == SUFFIX;
  }

  /**
   Loading any directory, whatever its files are called: an ID is loaded exactly when some run file decodes
   to a run with that ID, and among several such files the last one listed wins.
   */
  lemma {:induction false} LastFileWins(listing: seq<string>, files: map<string, File>, id: string)
    ensures id in Load(listing, files) <==>
              exists i :: 0 <= i < |listing| && IsRunFile(listing[i])
                          && Contribution(files, listing[i]).Some? && files[listing[i]].run.id == id
    ensures id in Load(listing, files) ==>
              exists i :: 0 <= i < |listing| && IsRunFile(listing[i])
                          && Contribution(files, listing[i]) == Some(Load(listing, files)[id])
                          && files[listing[i]].run.id == id
                          && (forall j | i < j < |listing| && IsRunFile(listing[j])
                                         && Contribution(files, listing[j]).Some? :: files[listing[j]].run.id != id)
  {
    if listing != [] {
      var rest := listing[..|listing| - 1];
      LastFileWins(rest, files, id);
      assert forall i | 0 <= i < |rest| :: rest[i] == listing[i];
    }
  }

  lemma {:induction false} LoadMatched(listing: seq<string>, files: map<string, File>, id: string)
    requires Matched(files)
    ensures InMemory(Load(listing, files), id) == if DiskPath(id) in listing then OnDisk(files, id) else None
  {
    DiskPathIsRunFile(id);
    if listing != [] {
      var rest, name := listing[..|listing| - 1], listing[|listing| - 1];
      LoadMatched(rest, files, id);
      assert listing == rest + [name];
      if IsRunFile(name) && Contribution(files, name).Some? && files[name].run.id != id {
        if name == DiskPath(id) {
          DiskPathInjective(files[name].run.id, id);
        }
      }
    }
  }

  /**
   Restart round trip. A restart rebuilds the map that was in memory exactly when the two tiers agree,
   in whatever order the directory is listed.
   */
  lemma {:induction false} RestartRebuilds(listing: seq<string>, files: map<string, File>, runs: map<string, StoredRun>)
    requires Matched(files) && Covers(listing, files)
    ensures Load(listing, files) == runs <==> Agree(runs, files)
  {
    var loaded := Load(listing, files);
    forall id ensures InMemory(loaded, id) == OnDisk(files, id) {
      LoadMatched(listing, files, id);
    }
    if Agree(runs, files) {
      forall id ensures id in loaded <==> id in runs
                ensures id in loaded ==> loaded[id] == runs[id] {
        assert InMemory(loaded, id) == InMemory(runs, id);
      }
      assert loaded == runs;
    }
  }

  // ---- Interleaved halves, in any order ----

  /** What a half leaves on disk for its ID. */
  function Effect(codec: Codec, h: Half): Option<StoredRun> {
    match h
    case Write(run) => Some(OnFile(codec, run))
    case Remove(_) => None
  }

  lemma ApplyHalfOnDisk(codec: Codec, files: map<string, File>, h: Half, id: string)
    requires HalfId(h) != ""
    ensures OnDisk(ApplyHalf(codec, files, h), id) == if id == HalfId(h) then Effect(codec, h) else OnDisk(files, id)
    ensures Matched(files) ==> Matched(ApplyHalf(codec, files, h))
  {
    if id != HalfId(h) && DiskPath(id) == DiskPath(HalfId(h)) {
      DiskPathInjective(id, HalfId(h));
    }
  }

  /** The most recent half of an ID that is still pending. */
  function LastHalf(queue: seq<Half>, id: string): Option<Half> {
    if queue == [] then None
    else if HalfId(queue[|queue| - 1]) == id then Some(queue[|queue| - 1])
    else LastHalf(queue[..|queue| - 1], id)
  }

  lemma {:induction false} LastHalfConcat(a: seq<Half>, b: seq<Half>, id: string)
    ensures LastHalf(a + b, id) == if LastHalf(b, id).Some? then LastHalf(b, id) else LastHalf(a, id)
  {
    if b == [] {
      assert a + b == a;
    } else {
      assert (a + b)[..|a + b| - 1] == a + b[..|b| - 1];
      LastHalfConcat(a, b[..|b| - 1], id);
    }
  }

  /** `queue` holds the halves that are still to be done. */
  datatype State = State(runs: map<string, StoredRun>, files: map<string, File>, queue: seq<Half>)

  datatype Step =
    | PutLocked(run: StoredRun)
    | CleanupLocked(cutoff: int, order: seq<string>)
    | HalfDone(index: nat)
    | HalfFails(at: nat, truncates: bool)
    | Restart(listing: seq<string>)

  function Removals(order: seq<string>): (halves: seq<Half>)
    ensures |halves| == |order|
  {
    seq(|order|, i requires 0 <= i < |order| => Remove(order[i]))
  }

  /** A cleanup walks its map in any order; any pending half may be the next to reach the disk. */
  ghost predicate Enabled(s: State, step: Step) {
    match step
    case PutLocked(run) => run.id != ""
    case CleanupLocked(cutoff, order) =>
      && (forall id :: id in order <==> id in Expired(s.runs, cutoff))
      && (forall i, j | 0 <= i < j < |order| :: order[i] != order[j])
    case HalfDone(i) => i < |s.queue|
    case HalfFails(i, _) => i < |s.queue|
    case Restart(listing) => Covers(listing, s.files)
  }

  function Without(queue: seq<Half>, i: nat): seq<Half> {
    if i < |queue| then queue[..i] + queue[i + 1..] else queue
  }

  /** A failed removal leaves the file; a failed write leaves it or truncates it. */
  function FailHalf(files: map<string, File>, h: Half, truncates: bool): map<string, File> {
    if truncates && h.Write? then files[DiskPath(h.run.id) := Unreadable] else files
  }

  function Next(codec: Codec, s: State, step: Step): State {
    match step
    case PutLocked(run) => s.(runs := s.runs[run.id := run], queue := s.queue + [Write(run)])
    case CleanupLocked(cutoff, order) =>
      s.(runs := s.runs - Expired(s.runs, cutoff), queue := s.queue + Removals(order))
    case HalfDone(i) =>
      if i >= |s.queue| then s
      else s.(files := ApplyHalf(codec, s.files, s.queue[i]), queue := Without(s.queue, i))
    case HalfFails(i, truncates) =>
      if i >= |s.queue| then s
      else s.(files := FailHalf(s.files, s.queue[i], truncates), queue := Without(s.queue, i))
    case Restart(listing) =>
      State(Load(listing, s.files), s.files, [])
  }

  /** The disk halves of the class are the steps of this part: a write in each of its outcomes, and a removal. */
  lemma WriteIsHalf(codec: Codec, files: map<string, File>, run: StoredRun, write: WriteResult)
    ensures AfterWrite(codec, files, run, write)
            == if write.Written? then ApplyHalf(codec, files, Write(run))
               else FailHalf(files, Write(run), write.Truncated?)
  {
  }

  function Boot(listing: seq<string>, files: map<string, File>): State {
    State(Load(listing, files), files, [])
  }

  function Final(codec: Codec, s: State, steps: seq<Step>): State {
    if steps == [] then s
    else Next(codec, Final(codec, s, steps[..|steps| - 1]), steps[|steps| - 1])
  }

  ghost predicate Legal(codec: Codec, s: State, steps: seq<Step>) {
    steps != [] ==>
      && Legal(codec, s, steps[..|steps| - 1])
      && Enabled(Final(codec, s, steps[..|steps| - 1]), steps[|steps| - 1])
  }

  // ---- What a trace says about an ID, without running it ----

  /** The halves that are pending after a trace, in the order of their locked halves. */
  function Pending(steps: seq<Step>): seq<Half> {
    if steps == [] then []
    else
      var before := Pending(steps[..|steps| - 1]);
      match steps[|steps| - 1]
      case PutLocked(run) => before + [Write(run)]
      case CleanupLocked(_, order) => before + Removals(order)
      case HalfDone(i) => Without(before, i)
      case HalfFails(i, _) => Without(before, i)
      case Restart(_) => []
  }

  /** What the last locked half that touched an ID asked for; a restart takes over what was done by then. */
  function LastLocked(codec: Codec, files: map<string, File>, steps: seq<Step>, id: string): Option<StoredRun> {
    if steps == [] then OnDisk(files, id)
    else
      var before := steps[..|steps| - 1];
      match steps[|steps| - 1]
      case PutLocked(run) => if run.id == id then Some(run) else LastLocked(codec, files, before, id)
      case CleanupLocked(_, order) => if id in order then None else LastLocked(codec, files, before, id)
      case Restart(_) => LastDone(codec, files, before, id)
      case _ => LastLocked(codec, files, before, id)
  }

  /** What the last disk half that touched an ID achieved; a truncated file counts as a removed one. */
  function LastDone(codec: Codec, files: map<string, File>, steps: seq<Step>, id: string): Option<StoredRun> {
    if steps == [] then OnDisk(files, id)
    else
      var before := steps[..|steps| - 1];
      var queue := Pending(before);
      match steps[|steps| - 1]
      case HalfDone(i) =>
        if i < |queue| && HalfId(queue[i]) == id then Effect(codec, queue[i]) else LastDone(codec, files, before, id)
      case HalfFails(i, truncates) =>
        if i < |queue| && HalfId(queue[i]) == id && truncates && queue[i].Write? then None
        else LastDone(codec, files, before, id)
      case _ => LastDone(codec, files, before, id)
  }

  /** Running a trace gives what the trace says. */
  ghost predicate Tracks(codec: Codec, s: State, files: map<string, File>, steps: seq<Step>) {
    && s.queue == Pending(steps)
    && Matched(s.files)
    && (forall h | h in s.queue :: HalfId(h) != "") && "" !in s.runs
    && (forall id :: InMemory(s.runs, id) == LastLocked(codec, files, steps, id))
    && (forall id :: OnDisk(s.files, id) == LastDone(codec, files, steps, id))
  }

  lemma FailHalfOnDisk(files: map<string, File>, h: Half, truncates: bool, id: string)
    requires HalfId(h) != ""
    ensures OnDisk(FailHalf(files, h, truncates), id)
            == if id == HalfId(h) && truncates && h.Write? then None else OnDisk(files, id)
    ensures Matched(files) ==> Matched(FailHalf(files, h, truncates))
  {
    if id != HalfId(h) && DiskPath(id) == DiskPath(HalfId(h)) {
      DiskPathInjective(id, HalfId(h));
    }
  }

  lemma LoadedIsOnDisk(listing: seq<string>, files: map<string, File>, id: string)
    requires Matched(files) && Covers(listing, files)
    ensures InMemory(Load(listing, files), id) == OnDisk(files, id)
  {
    LoadMatched(listing, files, id);
  }

  lemma LockedTracks(codec: Codec, s: State, files: map<string, File>, before: seq<Step>, step: Step)
    requires Tracks(codec, s, files, before) && Enabled(s, step) && (step.PutLocked? || step.CleanupLocked?)
    ensures Tracks(codec, Next(codec, s, step), files, before + [step])
  {
    var steps := before + [step];
    assert steps[..|before|] == before;
    var s' := Next(codec, s, step);
    forall h | h in s'.queue ensures HalfId(h) != "" {
      if h !in s.queue && step.CleanupLocked? {
        var i :| 0 <= i < |step.order| && Removals(step.order)[i] == h;
        assert step.order[i] in step.order;
      }
    }
    forall id ensures InMemory(s'.runs, id) == LastLocked(codec, files, steps, id) {
      assert InMemory(s.runs, id) == LastLocked(codec, files, before, id);
    }
    forall id ensures OnDisk(s'.files, id) == LastDone(codec, files, steps, id) {
      assert OnDisk(s.files, id) == LastDone(codec, files, before, id);
    }
  }

  lemma DiskTracks(codec: Codec, s: State, files: map<string, File>, before: seq<Step>, step: Step)
    requires Tracks(codec, s, files, before) && Enabled(s, step) && (step.HalfDone? || step.HalfFails?)
    ensures Tracks(codec, Next(codec, s, step), files, before + [step])
  {
    var steps := before + [step];
    assert steps[..|before|] == before;
    var s' := Next(codec, s, step);
    var h := s.queue[if step.HalfDone? then step.index else step.at];
    forall id ensures InMemory(s'.runs, id) == LastLocked(codec, files, steps, id) {
      assert InMemory(s.runs, id) == LastLocked(codec, files, before, id);
    }
    ApplyHalfOnDisk(codec, s.files, h, HalfId(h));
    FailHalfOnDisk(s.files, h, step.HalfFails? && step.truncates, HalfId(h));
    forall id ensures OnDisk(s'.files, id) == LastDone(codec, files, steps, id) {
      ApplyHalfOnDisk(codec, s.files, h, id);
      FailHalfOnDisk(s.files, h, step.HalfFails? && step.truncates, id);
      assert OnDisk(s.files, id) == LastDone(codec, files, before, id);
    }
  }

  lemma RestartTracks(codec: Codec, s: State, files: map<string, File>, before: seq<Step>, step: Step)
    requires Tracks(codec, s, files, before) && Enabled(s, step) && step.Restart?
    ensures Tracks(codec, Next(codec, s, step), files, before + [step])
  {
    var steps := before + [step];
    assert steps[..|before|] == before;
    forall id ensures InMemory(Load(step.listing, s.files), id) == LastLocked(codec, files, steps, id)
      ensures OnDisk(s.files, id) == LastDone(codec, files, steps, id)
    {
      LoadedIsOnDisk(step.listing, s.files, id);
      assert OnDisk(s.files, id) == LastDone(codec, files, before, id);
    }
    LoadedIsOnDisk(step.listing, s.files, "");
  }

  lemma {:induction false} TraceTracks(codec: Codec, boot: seq<string>, files: map<string, File>, steps: seq<Step>)
    requires Matched(files) && Covers(boot, files) && Legal(codec, Boot(boot, files), steps)
    ensures Tracks(codec, Final(codec, Boot(boot, files), steps), files, steps)
  {
    if steps == [] {
      forall id ensures InMemory(Load(boot, files), id) == OnDisk(files, id) {
        LoadedIsOnDisk(boot, files, id);
      }
      assert InMemory(Load(boot, files), "") == OnDisk(files, "");
    } else {
      var before, step := steps[..|steps| - 1], steps[|steps| - 1];
      TraceTracks(codec, boot, files, before);
      assert steps == before + [step];
      var s := Final(codec, Boot(boot, files), before);
      hide Tracks;
      match step
      case PutLocked(_) => LockedTracks(codec, s, files, before, step);
      case CleanupLocked(_, _) => LockedTracks(codec, s, files, before, step);
      case HalfDone(_) => DiskTracks(codec, s, files, before, step);
      case HalfFails(_, _) => DiskTracks(codec, s, files, before, step);
      case Restart(_) => RestartTracks(codec, s, files, before, step);
    }
  }

  /**
   Exactly when memory and disk agree. From any directory whose file names match their IDs, in every
   interleaving of locked and disk halves, failures and restarts: the tiers agree on an ID if and only if the
   last disk half performed on it achieved what the last locked half on it asked for.
   */
  lemma {:induction false} TiersAgreeExactly(codec: Codec, boot: seq<string>, files: map<string, File>,
                                             steps: seq<Step>, id: string)
    requires Matched(files) && Covers(boot, files) && Legal(codec, Boot(boot, files), steps)
    ensures
      var s := Final(codec, Boot(boot, files), steps);
      InMemory(s.runs, id) == OnDisk(s.files, id)
      <==> LastDone(codec, files, steps, id) == LastLocked(codec, files, steps, id)
  {
    TraceTracks(codec, boot, files, steps);
  }

  /** Hence a restart at any moment brings back exactly the memory if and only if this holds for every ID. */
  lemma {:induction false} RestartSafeExactly(codec: Codec, boot: seq<string>, files: map<string, File>,
                                              steps: seq<Step>, listing: seq<string>)
    requires Matched(files) && Covers(boot, files) && Legal(codec, Boot(boot, files), steps)
    requires Covers(listing, Final(codec, Boot(boot, files), steps).files)
    ensures
      var s := Final(codec, Boot(boot, files), steps);
      Load(listing, s.files) == s.runs
      <==> forall id :: LastDone(codec, files, steps, id) == LastLocked(codec, files, steps, id)
  {
    TraceTracks(codec, boot, files, steps);
    var s := Final(codec, Boot(boot, files), steps);
    RestartRebuilds(listing, s.files, s.runs);
    forall id ensures InMemory(s.runs, id) == LastLocked(codec, files, steps, id)
      ensures OnDisk(s.files, id) == LastDone(codec, files, steps, id)
    {
    }
    hide LastDone;
    hide LastLocked;
    hide InMemory;
    hide OnDisk;
    if Agree(s.runs, s.files) {
      forall id ensures LastDone(codec, files, steps, id) == LastLocked(codec, files, steps, id) {
        assert InMemory(s.runs, id) == OnDisk(s.files, id);
      }
    } else {
      var id :| InMemory(s.runs, id) != OnDisk(s.files, id);
      assert LastDone(codec, files, steps, id) != LastLocked(codec, files, steps, id);
    }
  }

  lemma OneMoreStep(codec: Codec, s: State, steps: seq<Step>, step: Step)
    ensures Final(codec, s, steps + [step]) == Next(codec, Final(codec, s, steps), step)
    ensures Legal(codec, s, steps + [step]) <==> Legal(codec, s, steps) && Enabled(Final(codec, s, steps), step)
  {
    assert (steps + [step])[..|steps|] == steps;
  }

  /**
   Two pending halves of one ID, of whatever queue, that reach the disk in the wrong order: the tiers then
   agree on that ID exactly when the one that was locked earlier has the effect that was asked for last.
   */
  lemma {:induction false} SwappedHalves(codec: Codec, boot: seq<string>, files: map<string, File>,
                                         steps: seq<Step>, i: nat, j: nat)
    requires Matched(files) && Covers(boot, files) && Legal(codec, Boot(boot, files), steps)
    requires i < j < |Pending(steps)| && HalfId(Pending(steps)[i]) == HalfId(Pending(steps)[j])
    ensures
      var more := steps + [HalfDone(j)] + [HalfDone(i)];
      var id := HalfId(Pending(steps)[i]);
      var s := Final(codec, Boot(boot, files), more);
      && Legal(codec, Boot(boot, files), more)
      && (InMemory(s.runs, id) == OnDisk(s.files, id)
          <==> Effect(codec, Pending(steps)[i]) == LastLocked(codec, files, steps, id))
  {
    var mid := steps + [HalfDone(j)];
    var more := mid + [HalfDone(i)];
    assert mid[..|steps|] == steps && more[..|mid|] == mid;
    TraceTracks(codec, boot, files, steps);
    TraceTracks(codec, boot, files, mid);
    assert Without(Pending(steps), j)[i] == Pending(steps)[i];
    TiersAgreeExactly(codec, boot, files, more, HalfId(Pending(steps)[i]));
  }

  /** Such an interleaving exists: a run that was cleaned up before its `Put` reached the disk comes back. */
  lemma {:induction false} ResurrectedRun(codec: Codec, run: StoredRun, cutoff: int)
    requires run.id != "" && Older(run, cutoff)
    ensures
      var steps := [PutLocked(run), CleanupLocked(cutoff, [run.id]), HalfDone(1), HalfDone(0)];
      var s := Final(codec, Boot([], map[]), steps);
      && Legal(codec, Boot([], map[]), steps)
      && run.id !in s.runs && s.queue == []
      && Load([DiskPath(run.id)], s.files) == map[run.id := OnFile(codec, run)]
  {
    var s0 := Boot([], map[]);
    var first := [PutLocked(run)];
    var second := first + [CleanupLocked(cutoff, [run.id])];
    var third := second + [HalfDone(1)];
    assert [PutLocked(run), CleanupLocked(cutoff, [run.id]), HalfDone(1), HalfDone(0)] == third + [HalfDone(0)];
    OneMoreStep(codec, s0, [], PutLocked(run));
    OneMoreStep(codec, s0, first, CleanupLocked(cutoff, [run.id]));
    OneMoreStep(codec, s0, second, HalfDone(1));
    OneMoreStep(codec, s0, third, HalfDone(0));
    assert [] + [PutLocked(run)] == first;
    var s1 := Next(codec, s0, PutLocked(run));
    assert s1.runs == map[run.id := run] && Expired(s1.runs, cutoff) == {run.id};
    var s2 := Next(codec, s1, CleanupLocked(cutoff, [run.id]));
    assert s2.queue == [Write(run), Remove(run.id)];
    var s3 := Next(codec, s2, HalfDone(1));
    assert s3.queue == [Write(run)] && s3.files == map[];
    BackAfterRestart(OnFile(codec, run));
  }

  lemma BackAfterRestart(run: StoredRun)
    requires run.id != ""
    ensures Load([DiskPath(run.id)], map[DiskPath(run.id) := Encoded(run)]) == map[run.id := run]
  {
    DiskPathIsRunFile(run.id);
    assert [DiskPath(run.id)][..0] == [];
  }

  /**
   The simplest trace: one run is put and written. Its file, and hence the memory after a restart, holds what the
   codec makes of the run, which agrees with the memory before exactly when the codec gives the run back as it is.
   */
  lemma {:induction false} PutThenRestart(codec: Codec, run: StoredRun)
    requires run.id != ""
    ensures
      var steps := [PutLocked(run), HalfDone(0)];
      var s := Final(codec, Boot([], map[]), steps);
      && Legal(codec, Boot([], map[]), steps) && s.queue == []
      && s.runs == map[run.id := run]
      && Load([DiskPath(run.id)], s.files) == map[run.id := OnFile(codec, run)]
      && (Load([DiskPath(run.id)], s.files) == s.runs <==> OnFile(codec, run) == run)
  {
    var s0 := Boot([], map[]);
    var first := [PutLocked(run)];
    assert [PutLocked(run), HalfDone(0)] == first + [HalfDone(0)] && [] + [PutLocked(run)] == first;
    OneMoreStep(codec, s0, [], PutLocked(run));
    OneMoreStep(codec, s0, first, HalfDone(0));
    var s1 := Next(codec, s0, PutLocked(run));
    assert s1.queue == [Write(run)] && s1.files == map[] && s1.runs == map[run.id := run];
    BackAfterRestart(OnFile(codec, run));
    if map[run.id := OnFile(codec, run)] == map[run.id := run] {
      assert map[run.id := OnFile(codec, run)][run.id] == run;
    }
  }

  // ---- Interleavings that keep the halves of an ID in order ----

  /** No earlier pending half touches the same ID. */
  predicate InTurn(queue: seq<Half>, i: nat) {
    i < |queue| ==> LastHalf(queue[..i], HalfId(queue[i])).None?
  }

  /** The disk halves of one ID are done in the order of their locked halves. */
  predicate Ordered(steps: seq<Step>) {
    steps != [] ==>
      && Ordered(steps[..|steps| - 1])
      && match steps[|steps| - 1]
         case HalfDone(i) => InTurn(Pending(steps[..|steps| - 1]), i)
         case HalfFails(i, _) => InTurn(Pending(steps[..|steps| - 1]), i)
         case _ => true
  }

  /** The IDs whose last disk half failed with no other half pending behind it. */
  function Stale(steps: seq<Step>): set<string> {
    if steps == [] then {}
    else
      var before, stale := Pending(steps[..|steps| - 1]), Stale(steps[..|steps| - 1]);
      match steps[|steps| - 1]
      case PutLocked(run) => stale - {run.id}
      case CleanupLocked(_, order) => stale - set id | id in order
      case HalfDone(_) => stale
      case HalfFails(i, _) =>
        if i < |before| && LastHalf(before[i + 1..], HalfId(before[i])).None? then stale + {HalfId(before[i])}
        else stale
      case Restart(_) => {}
  }

  /** The last locked half that touched an ID since the last restart was that of a `Put`. */
  predicate PutSince(steps: seq<Step>, id: string) {
    steps != [] &&
    var before := steps[..|steps| - 1];
    match steps[|steps| - 1]
    case PutLocked(run) => run.id == id || PutSince(before, id)
    case CleanupLocked(_, order) => id !in order && PutSince(before, id)
    case Restart(_) => false
    case _ => PutSince(before, id)
  }

  /** What the disk should hold for a run in memory: a run put since the last restart has gone through the codec. */
  function AsFiled(codec: Codec, steps: seq<Step>, id: string, v: Option<StoredRun>): Option<StoredRun> {
    if v.Some? && PutSince(steps, id) then Some(OnFile(codec, v.value)) else v
  }

  /** What the disk will hold for an ID once its pending halves are done in order. */
  function Eventually(codec: Codec, files: map<string, File>, steps: seq<Step>, id: string): Option<StoredRun> {
    var last := LastHalf(Pending(steps), id);
    if last.Some? then Effect(codec, last.value) else LastDone(codec, files, steps, id)
  }

  lemma {:induction false} RemovalsLast(order: seq<string>, id: string)
    ensures LastHalf(Removals(order), id) == if id in order then Some(Remove(id)) else None
  {
    if order != [] {
      var rest := order[..|order| - 1];
      RemovalsLast(rest, id);
      assert Removals(order)[..|order| - 1] == Removals(rest);
      assert order == rest + [order[|order| - 1]];
    }
  }

  /** Taking a half out of the queue in turn hides at most that half. */
  lemma WithoutLast(queue: seq<Half>, i: nat, id: string)
    requires i < |queue| && InTurn(queue, i)
    ensures id != HalfId(queue[i]) ==> LastHalf(Without(queue, i), id) == LastHalf(queue, id)
    ensures id == HalfId(queue[i]) ==>
              var later := LastHalf(queue[i + 1..], id);
              && LastHalf(Without(queue, i), id) == later
              && LastHalf(queue, id) == if later.Some? then later else Some(queue[i])
  {
    var a, h, b := queue[..i], queue[i], queue[i + 1..];
    assert queue == a + [h] + b;
    LastHalfConcat(a, b, id);
    LastHalfConcat(a + [h], b, id);
    LastHalfConcat(a, [h], id);
    assert [h][..0] == [];
  }

  /** A locked half decides what will be on disk for each ID that it touches. */
  lemma EventuallyLocked(codec: Codec, files: map<string, File>, before: seq<Step>, step: Step, id: string)
    requires step.PutLocked? || step.CleanupLocked?
    ensures
      var touched := if step.PutLocked? then step.run.id == id else id in step.order;
      Eventually(codec, files, before + [step], id)
      == if touched then AsFiled(codec, before + [step], id, LastLocked(codec, files, before + [step], id))
         else Eventually(codec, files, before, id)
  {
    assert (before + [step])[..|before|] == before;
    var added := if step.PutLocked? then [Write(step.run)] else Removals(step.order);
    LastHalfConcat(Pending(before), added, id);
    if step.PutLocked? {
      assert added[..0] == [];
    } else {
      RemovalsLast(step.order, id);
    }
  }

  /** What a disk half, done or failed, changes in the trace. */
  lemma AfterDisk(codec: Codec, files: map<string, File>, before: seq<Step>, step: Step, id: string)
    requires step.HalfDone? || step.HalfFails?
    ensures
      var i := if step.HalfDone? then step.index else step.at;
      var queue, steps := Pending(before), before + [step];
      && Pending(steps) == Without(queue, i)
      && (i >= |queue| || HalfId(queue[i]) != id
          ==> LastDone(codec, files, steps, id) == LastDone(codec, files, before, id))
      && (i < |queue| && HalfId(queue[i]) == id && step.HalfDone?
          ==> LastDone(codec, files, steps, id) == Effect(codec, queue[i]))
      && (id !in Stale(steps) ==> id !in Stale(before))
      && (i < |queue| && HalfId(queue[i]) == id && step.HalfFails? && id !in Stale(steps)
          ==> LastHalf(queue[i + 1..], id).Some?)
  {
    assert (before + [step])[..|before|] == before;
    hide LastHalf;
    hide Without;
    hide Effect;
  }

  /**
   A disk half in turn does not change what will be on disk; one that fails does not either, as long as a later
   half of its ID is pending.
   */
  lemma EventuallyDisk(codec: Codec, files: map<string, File>, before: seq<Step>, step: Step, id: string)
    requires step.HalfDone? || step.HalfFails?
    requires InTurn(Pending(before), if step.HalfDone? then step.index else step.at)
    requires id !in Stale(before + [step])
    ensures Eventually(codec, files, before + [step], id) == Eventually(codec, files, before, id)
    ensures id !in Stale(before)
  {
    hide Pending;
    hide Stale;
    hide LastDone;
    hide LastHalf;
    hide InTurn;
    hide Effect;
    AfterDisk(codec, files, before, step, id);
    var i, queue := if step.HalfDone? then step.index else step.at, Pending(before);
    if i < |queue| {
      WithoutLast(queue, i, id);
      hide Without;
    }
  }

  /**
   Order suffices. When the disk halves of each ID are done in the order of their locked halves, the disk will
   hold what was asked for, as the codec keeps it, once the pending halves are done, unless the last disk half
   failed.
   */
  lemma {:induction false} OrderedEventually(codec: Codec, files: map<string, File>, steps: seq<Step>, id: string)
    requires Ordered(steps) && id !in Stale(steps)
    ensures Eventually(codec, files, steps, id) == AsFiled(codec, steps, id, LastLocked(codec, files, steps, id))
  {
    if steps != [] {
      var before, step := steps[..|steps| - 1], steps[|steps| - 1];
      assert steps == before + [step];
      match step {
        case PutLocked(_) => EventuallyLocked(codec, files, before, step, id);
        case CleanupLocked(_, _) => EventuallyLocked(codec, files, before, step, id);
        case HalfDone(_) => EventuallyDisk(codec, files, before, step, id);
        case HalfFails(_, _) => EventuallyDisk(codec, files, before, step, id);
        case Restart(_) =>
      }
      if id !in Stale(before) {
        OrderedEventually(codec, files, before, id);
      }
    }
  }

  /** The memory after it went through the files. */
  function Refiled(codec: Codec, steps: seq<Step>, runs: map<string, StoredRun>): map<string, StoredRun> {
    map id | id in runs :: if PutSince(steps, id) then OnFile(codec, runs[id]) else runs[id]
  }

  /** The codec gives back as it is every run that was put since the last restart. */
  ghost predicate KeptByCodec(codec: Codec, steps: seq<Step>, runs: map<string, StoredRun>) {
    forall id | id in runs && PutSince(steps, id) :: OnFile(codec, runs[id]) == runs[id]
  }

  /**
   Memory and disk agree under concurrency: in every such interleaving, with failures and restarts, the disk
   holds the run in memory as the codec keeps it, for every ID that has no pending half and whose last disk half
   did not fail; the two are equal exactly when the run was not put since the last restart or the codec gives it
   back as it is.
   */
  lemma {:induction false} TiersAgree(codec: Codec, boot: seq<string>, files: map<string, File>, steps: seq<Step>,
                                      id: string)
    requires Matched(files) && Covers(boot, files) && Legal(codec, Boot(boot, files), steps) && Ordered(steps)
    requires id !in Stale(steps) && LastHalf(Pending(steps), id).None?
    ensures
      var s := Final(codec, Boot(boot, files), steps);
      && OnDisk(s.files, id) == AsFiled(codec, steps, id, InMemory(s.runs, id))
      && (InMemory(s.runs, id) == OnDisk(s.files, id)
          <==> (id in s.runs && PutSince(steps, id) ==> OnFile(codec, s.runs[id]) == s.runs[id]))
  {
    TraceTracks(codec, boot, files, steps);
    OrderedEventually(codec, files, steps, id);
    hide LastDone;
    hide LastLocked;
    hide OnDisk;
    hide OnFile;
    hide PutSince;
  }

  /**
   When nothing is pending and nothing failed, a restart rebuilds the memory as the codec keeps it, and exactly
   the memory if and only if the codec gives back as they are all runs put since the last restart.
   */
  lemma {:induction false} OrderedRestart(codec: Codec, boot: seq<string>, files: map<string, File>,
                                          steps: seq<Step>, listing: seq<string>)
    requires Matched(files) && Covers(boot, files) && Legal(codec, Boot(boot, files), steps) && Ordered(steps)
    requires Pending(steps) == [] && Stale(steps) == {}
    requires Covers(listing, Final(codec, Boot(boot, files), steps).files)
    ensures
      var s := Final(codec, Boot(boot, files), steps);
      && s.queue == []
      && Load(listing, s.files) == Refiled(codec, steps, s.runs)
      && (Load(listing, s.files) == s.runs <==> KeptByCodec(codec, steps, s.runs))
  {
    TraceTracks(codec, boot, files, steps);
    var s := Final(codec, Boot(boot, files), steps);
    forall id ensures OnDisk(s.files, id) == InMemory(Refiled(codec, steps, s.runs), id) {
      TiersAgree(codec, boot, files, steps, id);
    }
    RestartRebuilds(listing, s.files, Refiled(codec, steps, s.runs));
    RefiledSame(codec, steps, s.runs);
  }

  lemma RefiledSame(codec: Codec, steps: seq<Step>, runs: map<string, StoredRun>)
    ensures Refiled(codec, steps, runs) == runs <==> KeptByCodec(codec, steps, runs)
  {
    var refiled := Refiled(codec, steps, runs);
    if refiled == runs {
      forall id | id in runs && PutSince(steps, id) ensures OnFile(codec, runs[id]) == runs[id] {
        assert refiled[id] == runs[id];
      }
    }
  }

  // ---- Operations that do not overlap ----

  /** No ID that an operation touches has a pending half. */
  predicate NoOverlap(queue: seq<Half>, step: Step) {
    match step
    case PutLocked(run) => LastHalf(queue, run.id).None?
    case CleanupLocked(_, order) => forall id | id in order :: LastHalf(queue, id).None?
    case _ => true
  }

  /** Operations that touch the same ID never overlap. */
  predicate NonOverlapping(steps: seq<Step>) {
    steps != [] ==>
      NonOverlapping(steps[..|steps| - 1]) && NoOverlap(Pending(steps[..|steps| - 1]), steps[|steps| - 1])
  }

  ghost predicate DistinctIds(queue: seq<Half>) {
    forall i, j | 0 <= i < j < |queue| :: HalfId(queue[i]) != HalfId(queue[j])
  }

  lemma {:induction false} AbsentHalf(queue: seq<Half>, id: string)
    ensures LastHalf(queue, id).None? <==> forall i | 0 <= i < |queue| :: HalfId(queue[i]) != id
  {
    if queue != [] {
      AbsentHalf(queue[..|queue| - 1], id);
      assert forall i | 0 <= i < |queue| - 1 :: queue[i] == queue[..|queue| - 1][i];
    }
  }

  lemma DistinctAppend(queue: seq<Half>, added: seq<Half>)
    requires DistinctIds(queue) && DistinctIds(added)
    requires forall j | 0 <= j < |added| :: LastHalf(queue, HalfId(added[j])).None?
    ensures DistinctIds(queue + added)
  {
    var all := queue + added;
    forall i, j | 0 <= i < j < |all| ensures HalfId(all[i]) != HalfId(all[j]) {
      if i < |queue| <= j {
        AbsentHalf(queue, HalfId(added[j - |queue|]));
      }
    }
  }

  /** Without overlap each ID has at most one pending half, so that every one is in turn. */
  lemma {:induction false} NonOverlappingDistinct(codec: Codec, boot: seq<string>, files: map<string, File>,
                                                  steps: seq<Step>)
    requires Matched(files) && Covers(boot, files) && Legal(codec, Boot(boot, files), steps) && NonOverlapping(steps)
    ensures DistinctIds(Pending(steps)) && Ordered(steps)
  {
    if steps != [] {
      var before, step := steps[..|steps| - 1], steps[|steps| - 1];
      var queue := Pending(before);
      NonOverlappingDistinct(codec, boot, files, before);
      match step
      case PutLocked(run) => DistinctAppend(queue, [Write(run)]);
      case CleanupLocked(_, order) => DistinctAppend(queue, Removals(order));
      case HalfDone(i) => DistinctInTurn(queue, i);
      case HalfFails(i, _) => DistinctInTurn(queue, i);
      case Restart(_) =>
    }
  }

  lemma DistinctInTurn(queue: seq<Half>, i: nat)
    requires DistinctIds(queue)
    ensures DistinctIds(Without(queue, i)) && InTurn(queue, i)
  {
    if i < |queue| {
      AbsentHalf(queue[..i], HalfId(queue[i]));
    }
  }

  ghost predicate WritesSucceed(steps: seq<Step>) {
    forall i | 0 <= i < |steps| :: !steps[i].HalfFails?
  }

  lemma {:induction false} NothingStale(steps: seq<Step>)
    requires WritesSucceed(steps)
    ensures Stale(steps) == {}
  {
    if steps != [] {
      NothingStale(steps[..|steps| - 1]);
    }
  }

  /**
   Operations that do not overlap. In every interleaving in which operations on the same ID do not overlap and
   disk operations succeed, the disk holds the run in memory as the codec keeps it, for every ID whose disk half
   is not pending.
   */
  lemma {:induction false} NonOverlappingAgree(codec: Codec, boot: seq<string>, files: map<string, File>,
                                               steps: seq<Step>, id: string)
    requires Matched(files) && Covers(boot, files) && Legal(codec, Boot(boot, files), steps)
    requires NonOverlapping(steps) && WritesSucceed(steps) && LastHalf(Pending(steps), id).None?
    ensures
      var s := Final(codec, Boot(boot, files), steps);
      && OnDisk(s.files, id) == AsFiled(codec, steps, id, InMemory(s.runs, id))
      && (InMemory(s.runs, id) == OnDisk(s.files, id)
          <==> (id in s.runs && PutSince(steps, id) ==> OnFile(codec, s.runs[id]) == s.runs[id]))
  {
    NonOverlappingDistinct(codec, boot, files, steps);
    NothingStale(steps);
    TiersAgree(codec, boot, files, steps, id);
  }

  /** Likewise, when nothing is pending, a restart rebuilds the memory as the codec keeps it. */
  lemma {:induction false} NonOverlappingRestart(codec: Codec, boot: seq<string>, files: map<string, File>,
                                                 steps: seq<Step>, listing: seq<string>)
    requires Matched(files) && Covers(boot, files) && Legal(codec, Boot(boot, files), steps)
    requires NonOverlapping(steps) && WritesSucceed(steps) && Pending(steps) == []
    requires Covers(listing, Final(codec, Boot(boot, files), steps).files)
    ensures
      var s := Final(codec, Boot(boot, files), steps);
      && Load(listing, s.files) == Refiled(codec, steps, s.runs)
      && (Load(listing, s.files) == s.runs <==> KeptByCodec(codec, steps, s.runs))
  {
    NonOverlappingDistinct(codec, boot, files, steps);
    NothingStale(steps);
    OrderedRestart(codec, boot, files, steps, listing);
  }
}
