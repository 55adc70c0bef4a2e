/**
 The run executor of worker/worker.go. The reply of the node is a parameter; the offline verifier and the
 receipt converter are not part of this model, so a run yields the package that came back.
 */
module Worker {
  import opened WorkerTypes
  import opened Wrappers
  import opened ReceiptStore
  import opened RunBus
  import opened Runs

  // ---- The package ----

  datatype Link = Link(kind: string, contentHash: seq<byte>)

  datatype ChainData = ChainData(links: seq<Link>, chainHash: seq<byte>)

  datatype Bundle = Bundle(chain: Option<ChainData>)

  /** `bundle` is what decoding the bundle data gives, if it decodes. */
  datatype Package = Package(exportHash: seq<byte>, bundle: Option<Bundle>)

  /** The first eight bytes in hex; empty for no bytes. */
  function Short(bytes: seq<byte>): string {
    Hex(bytes[..if |bytes| < 8 then |bytes| else 8])
  }

  /** The short hash of the last link of a kind. */
  function LastOfKind(links: seq<Link>, kind: string): Option<string> {
    if links == [] then None
    else if links[|links| - 1].kind == kind then Some(Short(links[|links| - 1].contentHash))
    else LastOfKind(links[..|links| - 1], kind)
  }

  /** The hash of the first of several kinds that occurs in the chain at all; empty if none does. */
  function FirstKind(links: seq<Link>, kinds: seq<string>): string {
    if kinds == [] then ""
    else if LastOfKind(links, kinds[0]).Some? then LastOfKind(links, kinds[0]).value
    else FirstKind(links, kinds[1..])
  }

  /** `set`: an empty hash is never stored, so that a missing key and an empty hash are the same. */
  method SetHash(out: map<string, string>, key: string, h: string) returns (next: map<string, string>)
    requires key !in out
    ensures next.Keys <= out.Keys + {key}
    ensures HashOf(next, key) == h && (key in next ==> h != "")
    ensures forall k | k != key :: HashOf(next, k) == HashOf(out, k) && (k in next <==> k in out)
  {
    next := if h != "" then out[key := h] else out;
  }

  /** The `link` helper: looks the kinds up in the table of the last hash of each kind. */
  method LinkHash(byType: map<string, string>, kinds: seq<string>, ghost links: seq<Link>) returns (h: string)
    requires forall k :: (k in byType <==> LastOfKind(links, k).Some?)
    requires forall k | k in byType :: byType[k] == LastOfKind(links, k).value
    ensures h == FirstKind(links, kinds)
  {
    var i := 0;
    while i < |kinds|
      invariant 0 <= i <= |kinds|
      invariant FirstKind(links, kinds) == FirstKind(links, kinds[i..])
    {
      if kinds[i] in byType {
        return byType[kinds[i]];
      }
      i := i + 1;
    }
    return "";
  }

  method HashByKind(links: seq<Link>) returns (byType: map<string, string>)
    ensures forall k :: k in byType <==> LastOfKind(links, k).Some?
    ensures forall k | k in byType :: byType[k] == LastOfKind(links, k).value
  {
    byType := map[];
    var i := 0;
    while i < |links|
      invariant 0 <= i <= |links|
      invariant forall k :: k in byType <==> LastOfKind(links[..i], k).Some?
      invariant forall k | k in byType :: byType[k] == LastOfKind(links[..i], k).value
    {
      assert links[..i + 1][..i] == links[..i];
      byType := byType[links[i].kind := Short(links[i].contentHash)];
      i := i + 1;
    }
    assert links[..|links|] == links;
  }

  /** Three stages filled in from the chain, the others left alone. */
  ghost predicate Filled(before: map<string, string>, after: map<string, string>, links: seq<Link>,
                         a: string, kindsA: seq<string>, b: string, kindsB: seq<string>, c: string, kindsC: seq<string>)
  {
    && HashOf(after, a) == FirstKind(links, kindsA)
    && HashOf(after, b) == FirstKind(links, kindsB)
    && HashOf(after, c) == FirstKind(links, kindsC)
    && (forall k | k != a && k != b && k != c :: HashOf(after, k) == HashOf(before, k) && (k in after <==> k in before))
  }

  method SetThree(given: map<string, string>, byType: map<string, string>, ghost links: seq<Link>,
                  a: string, kindsA: seq<string>, b: string, kindsB: seq<string>, c: string, kindsC: seq<string>)
    returns (out: map<string, string>)
    requires forall k :: (k in byType <==> LastOfKind(links, k).Some?)
    requires forall k | k in byType :: byType[k] == LastOfKind(links, k).value
    requires a != b && a != c && b != c && a !in given && b !in given && c !in given
    ensures Filled(given, out, links, a, kindsA, b, kindsB, c, kindsC)
  {
    hide FirstKind;
    hide LastOfKind;
    var h := LinkHash(byType, kindsA, links);
    out := SetHash(given, a, h);
    h := LinkHash(byType, kindsB, links);
    out := SetHash(out, b, h);
    h := LinkHash(byType, kindsC, links);
    out := SetHash(out, c, h);
  }

  /** The hashes that the evidence chain gives to the stages. */
  ghost predicate ChainHashes(out: map<string, string>, chain: ChainData) {
    && HashOf(out, "intent") == FirstKind(chain.links, ["intent"])
    && HashOf(out, "plan") == FirstKind(chain.links, ["plan"])
    && HashOf(out, "policy") == FirstKind(chain.links, ["policy_decision", "policy"])
    && HashOf(out, "approval") == FirstKind(chain.links, ["approval"])
    && HashOf(out, "credential") == FirstKind(chain.links, ["external_proof", "credential", "trust_assumption"])
    && HashOf(out, "outcome") == FirstKind(chain.links, ["outcome"])
    && HashOf(out, "anchor") == Short(chain.chainHash)
  }

  /** The first three stages. */
  method AddEarlyHashes(given: map<string, string>, byType: map<string, string>, ghost links: seq<Link>)
    returns (out: map<string, string>)
    requires forall k :: (k in byType <==> LastOfKind(links, k).Some?)
    requires forall k | k in byType :: byType[k] == LastOfKind(links, k).value
    requires given.Keys <= {"export"}
    ensures Filled(given, out, links, "intent", ["intent"], "plan", ["plan"], "policy", ["policy_decision", "policy"])
  {
    hide FirstKind;
    hide LastOfKind;
    hide Filled;
    out := SetThree(given, byType, links,
                    "intent", ["intent"], "plan", ["plan"], "policy", ["policy_decision", "policy"]);
  }

  /** The next three stages. */
  method AddLateHashes(given: map<string, string>, byType: map<string, string>, ghost links: seq<Link>)
    returns (out: map<string, string>)
    requires forall k :: (k in byType <==> LastOfKind(links, k).Some?)
    requires forall k | k in byType :: byType[k] == LastOfKind(links, k).value
    requires "approval" !in given && "credential" !in given && "outcome" !in given
    ensures Filled(given, out, links, "approval", ["approval"],
                   "credential", ["external_proof", "credential", "trust_assumption"], "outcome", ["outcome"])
  {
    hide FirstKind;
    hide LastOfKind;
    hide Filled;
    out := SetThree(given, byType, links, "approval", ["approval"],
                    "credential", ["external_proof", "credential", "trust_assumption"], "outcome", ["outcome"]);
  }

  /** The three later stages leave the hashes of export and of the first three stages alone. */
  lemma EarlyKept(given: map<string, string>, early: map<string, string>, late: map<string, string>, links: seq<Link>)
    requires given.Keys <= {"export"}
    requires Filled(given, early, links, "intent", ["intent"], "plan", ["plan"],
                    "policy", ["policy_decision", "policy"])
    requires Filled(early, late, links, "approval", ["approval"],
                    "credential", ["external_proof", "credential", "trust_assumption"], "outcome", ["outcome"])
    ensures HashOf(late, "intent") == FirstKind(links, ["intent"])
    ensures HashOf(late, "plan") == FirstKind(links, ["plan"])
    ensures HashOf(late, "policy") == FirstKind(links, ["policy_decision", "policy"])
    ensures HashOf(late, "export") == HashOf(given, "export")
  {
    hide FirstKind;
  }

  lemma LateFilled(early: map<string, string>, late: map<string, string>, links: seq<Link>)
    requires Filled(early, late, links, "approval", ["approval"],
                    "credential", ["external_proof", "credential", "trust_assumption"], "outcome", ["outcome"])
    ensures HashOf(late, "approval") == FirstKind(links, ["approval"])
    ensures HashOf(late, "credential") == FirstKind(links, ["external_proof", "credential", "trust_assumption"])
    ensures HashOf(late, "outcome") == FirstKind(links, ["outcome"])
  {
  }

  lemma OthersAbsent(given: map<string, string>, early: map<string, string>, late: map<string, string>,
                     links: seq<Link>)
    requires given.Keys <= {"export"}
    requires Filled(given, early, links, "intent", ["intent"], "plan", ["plan"],
                    "policy", ["policy_decision", "policy"])
    requires Filled(early, late, links, "approval", ["approval"],
                    "credential", ["external_proof", "credential", "trust_assumption"], "outcome", ["outcome"])
    ensures "anchor" !in late && "verify" !in late
  {
    hide FirstKind;
  }

  lemma LateAbsent(given: map<string, string>, early: map<string, string>, links: seq<Link>)
    requires given.Keys <= {"export"}
    requires Filled(given, early, links, "intent", ["intent"], "plan", ["plan"],
                    "policy", ["policy_decision", "policy"])
    ensures "approval" !in early && "credential" !in early && "outcome" !in early
  {
    hide FirstKind;
  }

  method AddChainHashes(given: map<string, string>, chain: ChainData) returns (out: map<string, string>)
    requires given.Keys <= {"export"}
    ensures ChainHashes(out, chain)
    ensures HashOf(out, "export") == HashOf(given, "export")
    ensures "verify" !in out
  {
    hide FirstKind;
    hide Short;
    hide LastOfKind;
    hide Filled;
    var byType := HashByKind(chain.links);
    var early := AddEarlyHashes(given, byType, chain.links);
    LateAbsent(given, early, chain.links);
    var late := AddLateHashes(early, byType, chain.links);
    EarlyKept(given, early, late, chain.links);
    LateFilled(early, late, chain.links);
    OthersAbsent(given, early, late, chain.links);
    out := SetHash(late, "anchor", Short(chain.chainHash));
  }

  /** What the hash lines of a package are: export from its seal, the other stages from its chain if it has one. */
  ghost predicate HashesOf(out: map<string, string>, pkg: Package) {
    && HashOf(out, "export") == Short(pkg.exportHash)
    && "verify" !in out
    && if pkg.bundle.Some? && pkg.bundle.value.chain.Some? then ChainHashes(out, pkg.bundle.value.chain.value)
       else out.Keys <= {"export"}
  }

  /** `stepHashes`: a stage that cannot be resolved has no hash, and `verify` never has one. */
  method StepHashes(pkg: Option<Package>) returns (out: map<string, string>)
    ensures pkg.None? ==> out == map[]
    ensures pkg.Some? ==> HashesOf(out, pkg.value)
  {
    out := map[];
    if pkg.None? {
      return;
    }
    out := SetHash(out, "export", Short(pkg.value.exportHash));
    if pkg.value.bundle.None? {
      return;
    }
    if pkg.value.bundle.value.chain.Some? {
      out := AddChainHashes(out, pkg.value.bundle.value.chain.value);
    }
  }

  // ---- Which hash a stage shows ----

  /** The first eight bytes, or all if there are fewer, two digits each. */
  lemma {:induction false} ShortDecodes(bytes: seq<byte>, i: nat)
    ensures |Short(bytes)| == 2 * (if |bytes| < 8 then |bytes| else 8)
    ensures 2 * i < |Short(bytes)| ==>
              16 * DigitValue(Short(bytes)[2 * i]) + DigitValue(Short(bytes)[2 * i + 1]) == bytes[i] as int
  {
    if 2 * i < |Short(bytes)| {
      HexDecodes(bytes[..if |bytes| < 8 then |bytes| else 8], i);
    }
  }

  ghost predicate Occurs(links: seq<Link>, kind: string) {
    exists i | 0 <= i < |links| :: links[i].kind == kind
  }

  /** No later link has the kind of this one. */
  ghost predicate LastOfItsKind(links: seq<Link>, i: nat) {
    i < |links| && forall j | i < j < |links| :: links[j].kind != links[i].kind
  }

  lemma {:induction false} LastLink(links: seq<Link>, kind: string)
    ensures LastOfKind(links, kind).None? <==> !Occurs(links, kind)
    ensures forall i: nat | LastOfItsKind(links, i) && links[i].kind == kind ::
              LastOfKind(links, kind) == Some(Short(links[i].contentHash))
  {
    if links != [] {
      var rest := links[..|links| - 1];
      LastLink(rest, kind);
      assert forall i | 0 <= i < |rest| :: rest[i] == links[i];
      forall i: nat | LastOfItsKind(links, i) && links[i].kind == kind
        ensures LastOfKind(links, kind) == Some(Short(links[i].contentHash))
      {
        if i < |rest| {
          assert LastOfItsKind(rest, i);
        }
      }
    }
  }

  lemma ThreeKinds(links: seq<Link>, a: string, b: string, c: string)
    ensures FirstKind(links, [a]) == if LastOfKind(links, a).Some? then LastOfKind(links, a).value else ""
    ensures FirstKind(links, [a, b]) == if LastOfKind(links, a).Some? then LastOfKind(links, a).value
                                        else FirstKind(links, [b])
    ensures FirstKind(links, [a, b, c]) == if LastOfKind(links, a).Some? then LastOfKind(links, a).value
                                           else FirstKind(links, [b, c])
  {
    assert [a][1..] == [] && [a, b][1..] == [b] && [a, b, c][1..] == [b, c];
  }

  /**
   The hash line of a stage is the beginning of the content hash of the last link of the kind that stands for it. Two
   stages have substitutes: the policy stage falls back on a `policy` link, the credential stage on a `credential` and
   then on a `trust_assumption` link.
   */
  lemma {:induction false} StageShowsLink(out: map<string, string>, chain: ChainData, i: nat)
    requires ChainHashes(out, chain) && LastOfItsKind(chain.links, i)
    ensures
      var links, kind, h := chain.links, chain.links[i].kind, Short(chain.links[i].contentHash);
      && (kind == "intent" ==> HashOf(out, "intent") == h)
      && (kind == "plan" ==> HashOf(out, "plan") == h)
      && (kind == "approval" ==> HashOf(out, "approval") == h)
      && (kind == "outcome" ==> HashOf(out, "outcome") == h)
      && (kind == "policy_decision" ==> HashOf(out, "policy") == h)
      && (kind == "policy" && !Occurs(links, "policy_decision") ==> HashOf(out, "policy") == h)
      && (kind == "external_proof" ==> HashOf(out, "credential") == h)
      && (kind == "credential" && !Occurs(links, "external_proof") ==> HashOf(out, "credential") == h)
      && (kind == "trust_assumption" && !Occurs(links, "external_proof") && !Occurs(links, "credential")
          ==> HashOf(out, "credential") == h)
  {
    var links := chain.links;
    LastLink(links, links[i].kind);
    LastLink(links, "policy_decision");
    LastLink(links, "external_proof");
    LastLink(links, "credential");
    ThreeKinds(links, links[i].kind, "", "");
    ThreeKinds(links, "policy_decision", "policy", "");
    ThreeKinds(links, "external_proof", "credential", "trust_assumption");
    ThreeKinds(links, "credential", "trust_assumption", "");
    hide FirstKind;
    hide LastOfKind;
    hide Short;
  }

  /** A stage without any such link has no hash line, and the anchor stage shows the chain's own digest. */
  lemma {:induction false} StageWithoutLink(out: map<string, string>, chain: ChainData)
    requires ChainHashes(out, chain)
    ensures
      var links := chain.links;
      && (forall stage | stage in ["intent", "plan", "approval", "outcome"] && !Occurs(links, stage) ::
            HashOf(out, stage) == "")
      && (!Occurs(links, "policy_decision") && !Occurs(links, "policy") ==> HashOf(out, "policy") == "")
      && (!Occurs(links, "external_proof") && !Occurs(links, "credential") && !Occurs(links, "trust_assumption")
          ==> HashOf(out, "credential") == "")
      && HashOf(out, "anchor") == Short(chain.chainHash)
  {
    var links := chain.links;
    NoSuchLink(links, "intent", "", "");
    NoSuchLink(links, "plan", "", "");
    NoSuchLink(links, "approval", "", "");
    NoSuchLink(links, "outcome", "", "");
    NoSuchLink(links, "policy_decision", "policy", "");
    NoSuchLink(links, "external_proof", "credential", "trust_assumption");
    hide FirstKind;
    hide Short;
    hide Occurs;
  }

  lemma NoSuchLink(links: seq<Link>, a: string, b: string, c: string)
    ensures !Occurs(links, a) ==> FirstKind(links, [a]) == ""
    ensures !Occurs(links, a) && !Occurs(links, b) ==> FirstKind(links, [a, b]) == ""
    ensures !Occurs(links, a) && !Occurs(links, b) && !Occurs(links, c) ==> FirstKind(links, [a, b, c]) == ""
  {
    LastLink(links, a);
    LastLink(links, b);
    LastLink(links, c);
    ThreeKinds(links, a, b, c);
    ThreeKinds(links, b, c, "");
    ThreeKinds(links, c, "", "");
    hide FirstKind;
    hide LastOfKind;
    hide Occurs;
  }

  // ---- The runner ----

  const ANONYMOUS := "anonymous"
  const KERMIT := "kermit"

  /**
   The reply of the node: the call failed, it returned no package, or it returned one. With a package come
   the receipt that the verifier's report converts to and the encoding of the package, which may fail.
   */
  datatype NodeReply =
    | CallFailed(msg: string)
    | NoPackage
    | Delivered(pkg: Package, networkLabel: string, proofLabel: string, receipt: Receipt,
                bundleJson: Result<string, string>)

  datatype RunResult = RunResult(mode: string, networkLabel: string, proofLabel: string, receipt: Receipt,
                                 bundleJson: string)

  const KERMIT_DISABLED := "Kermit Sandbox mode is disabled on this instance \U{2014} use Anonymous Demo mode, " +
    "which runs the same governed flow deterministically without a wallet or funding"

  /** The mode gate; `quote` is the quoting of `%q`. */
  function Refusal(mode: string, kermitAvailable: bool, quote: string -> string): Option<string> {
    if mode == ANONYMOUS then None
    else if mode == KERMIT then (if kermitAvailable then None else Some(KERMIT_DISABLED))
    else Some("unknown run mode " + quote(mode))
  }

  /** The mode gate lets exactly the anonymous mode, and the other mode where it is available, through. */
  lemma ModeGate(mode: string, kermitAvailable: bool, quote: string -> string)
    ensures Refusal(mode, kermitAvailable, quote).None?
            <==> mode == "anonymous" || (mode == "kermit" && kermitAvailable)
    ensures mode != "anonymous" && mode != "kermit"
            ==> Refusal(mode, kermitAvailable, quote) == Some("unknown run mode " + quote(mode))
  {
  }

  /** Why a node reply that passed the mode gate gives no result. */
  function ReplyError(reply: NodeReply): Option<string> {
    match reply
    case CallFailed(msg) => Some(msg)
    case NoPackage => Some("playground: node returned no portable package")
    case Delivered(_, _, _, _, Err(why)) => Some("playground: marshal portable bundle: " + why)
    case Delivered(_, _, _, _, Ok(_)) => None
  }

  /** The steps that a run emits on each path. */
  ghost predicate Emits(refused: bool, reply: NodeReply, steps: seq<Step>) {
    if refused then steps == []
    else if !reply.Delivered? then steps == [RUN_FAILED_STEP]
    else exists hashes :: HashesOf(hashes, reply.pkg) && steps == NarratedSteps(hashes, |FLOW_STEPS|)
  }

  /** The nine steps that tell of a delivered package: each is a stage, completed, with the hash of that stage. */
  lemma {:induction false} EmittedSteps(reply: NodeReply, steps: seq<Step>, i: nat)
    requires Emits(false, reply, steps) && reply.Delivered? && i < 9
    ensures |steps| == |FLOW_STEPS| == 9
    ensures steps[i].key == FLOW_STEPS[i].0 && steps[i].title == FLOW_STEPS[i].1 && steps[i].status == StepComplete
    ensures steps[i].key == "export" ==> steps[i].hash == Short(reply.pkg.exportHash)
    ensures steps[i].key == "verify" ==> steps[i].hash == ""
    ensures (reply.pkg.bundle.None? || reply.pkg.bundle.value.chain.None?) && steps[i].key != "export"
            ==> steps[i].hash == ""
    ensures reply.pkg.bundle.Some? && reply.pkg.bundle.value.chain.Some? ==>
              exists hashes :: ChainHashes(hashes, reply.pkg.bundle.value.chain.value)
                               && (steps[i].key != "verify" ==> steps[i].hash == HashOf(hashes, steps[i].key))
  {
    hide Short;
    hide ChainHashes;
  }

  lemma EmitOneMore<C>(b: Bus<C>, steps: seq<Step>, s: Step)
    ensures PerformAll(b, EmitAll(steps + [s])) == AddStep(PerformAll(b, EmitAll(steps)), s)
  {
    var more := EmitAll(steps + [s]);
    assert more[..|steps|] == EmitAll(steps);
    assert more[|more| - 1] == EmitStep(s);
  }

  lemma EmitFirst<C>(b: Bus<C>, s: Step)
    ensures PerformAll(b, EmitAll([])) == b
    ensures PerformAll(b, EmitAll([s])) == AddStep(b, s)
  {
    assert EmitAll([]) == [];
    assert [] + [s] == [s];
    EmitOneMore(b, [], s);
  }

  class Runner {
    const kermitAvailable: bool
    const quote: string -> string

    constructor (kermitAvailable: bool, quote: string -> string)
      ensures this.kermitAvailable == kermitAvailable && this.quote == quote
    {
      this.kermitAvailable, this.quote := kermitAvailable, quote;
    }

    function Refused(mode: string): Option<string> {
      Refusal(mode, kermitAvailable, quote)
    }

    /** The narration loop of `Run`: the completed stages, in order. */
    method Narrate(hashes: map<string, string>, emit: Run)
      requires emit.Valid()
      modifies emit`steps, emit`history, emit.subs
      ensures emit.Valid() && emit.chans == old(emit.chans)
      ensures emit.View() == PerformAll(old(emit.View()), EmitAll(NarratedSteps(hashes, |FLOW_STEPS|)))
    {
      var i := 0;
      ghost var subs := emit.subs;
      while i < |FLOW_STEPS|
        modifies emit`steps, emit`history, subs
        invariant 0 <= i <= |FLOW_STEPS|
        invariant emit.Valid() && emit.chans == old(emit.chans)
        invariant emit.View() == PerformAll(old(emit.View()), EmitAll(NarratedSteps(hashes, i)))
      {
        var s := Step(FLOW_STEPS[i].0, FLOW_STEPS[i].1, StepComplete, HashOf(hashes, FLOW_STEPS[i].0));
        emit.EmitStep(s);
        assert NarratedSteps(hashes, i + 1) == NarratedSteps(hashes, i) + [s];
        EmitOneMore(old(emit.View()), NarratedSteps(hashes, i), s);
        i := i + 1;
      }
    }

    /**
     `Run`: the mode gate, the node call, the narration and the encoding of the bundle. Without an `emit`
     callback the same happens and nothing is emitted.
     */
    method RunFlow(mode: string, reply: NodeReply, emit: Run?)
      returns (result: Result<RunResult, string>, ghost steps: seq<Step>)
      requires emit != null ==> emit.Valid()
      modifies if emit == null then {} else {emit}, if emit == null then {} else emit.subs
      ensures emit != null ==> emit.Valid() && emit.chans == old(emit.chans) && emit.subs == old(emit.subs)
      ensures Emits(Refused(mode).Some?, reply, steps)
      ensures emit != null ==> emit.View() == PerformAll(old(emit.View()), EmitAll(steps))
      ensures Refused(mode).Some? ==> result == Err(Refused(mode).value)
      ensures Refused(mode).None? && ReplyError(reply).Some? ==> result == Err(ReplyError(reply).value)
      ensures Refused(mode).None? && ReplyError(reply).None?
              ==> result == Ok(RunResult(mode, reply.networkLabel, reply.proofLabel, reply.receipt,
                                         reply.bundleJson.value))
    {
      hide PerformAll;
      hide EmitAll;
      hide AddStep;
      hide Run.View;
      hide Run.Valid;
      hide HashesOf;
      hide NarratedSteps;
      if emit != null {
        EmitFirst(emit.View(), RUN_FAILED_STEP);
      }
      var refusal := Refused(mode);
      if refusal.Some? {
        return Err(refusal.value), [];
      }
      if !reply.Delivered? {
        if emit != null {
          emit.EmitStep(RUN_FAILED_STEP);
        }
        var msg := if reply.CallFailed? then reply.msg else "playground: node returned no portable package";
        return Err(msg), [RUN_FAILED_STEP];
      }
      var hashes := StepHashes(Some(reply.pkg));
      if emit != null {
        Narrate(hashes, emit);
      }
      steps := NarratedSteps(hashes, |FLOW_STEPS|);
      if reply.bundleJson.Err? {
        return Err("playground: marshal portable bundle: " + reply.bundleJson.error), steps;
      }
      return Ok(RunResult(mode, reply.networkLabel, reply.proofLabel, reply.receipt, reply.bundleJson.value)), steps;
    }
  }
}
