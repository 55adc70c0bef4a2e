/** The progress steps of a run and the canonical narration of the governed flow (worker/worker.go). */
module WorkerTypes {

  datatype StepStatus = StepRunning | StepComplete | StepFailed

  /** One progress event. An empty `hash` means that the stage has no hash line. */
  datatype Step = Step(key: string, title: string, status: StepStatus, hash: string)

  /** Key and label of each stage, in order. */
  const FLOW_STEPS: seq<(string, string)> := [
    ("intent", "Buyer submits escrow intent"),
    ("plan", "Infrix compiles a governed plan"),
    ("policy", "Policy authorizes a regulated release"),
    ("approval", "Operator approval bound to the plan hash"),
    ("credential", "Delivery credential verified"),
    ("outcome", "Funds released to the seller"),
    ("anchor", "Evidence anchored"),
    ("export", "Portable proof exported"),
    ("verify", "Verified independently (no node trust)")
  ]

  /** The step that a run emits when the node call fails. */
  const RUN_FAILED_STEP := Step("run", "Run failed", StepFailed, "")

  /** `hashes[key]`, with the empty string for a missing key. */
  function HashOf(hashes: map<string, string>, key: string): string {
    if key in hashes then hashes[key] else ""
  }

  /** The first `n` completed steps, each with the hash of its stage. */
  function NarratedSteps(hashes: map<string, string>, n: nat): (steps: seq<Step>)
    requires n <= |FLOW_STEPS|
    ensures |steps| == n
  {
    seq(n, i requires 0 <= i < n =>
      Step(FLOW_STEPS[i].0, FLOW_STEPS[i].1, StepComplete, HashOf(hashes, FLOW_STEPS[i].0)))
  }
}
