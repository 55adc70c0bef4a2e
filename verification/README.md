# Infrix playground: a verified model

The Infrix playground runs a governed flow against a node, streams its progress to browsers, stores the
resulting receipt, and lets a visitor try to forge the exported evidence package. This project models the
parts of it that keep state, run concurrently or do arithmetic, and proves what they guarantee.

- **Runs and their event bus** (`Runs`, `RunBus`, `RunBusLaws`, `RunLaws`). The classes `Run` and `Channel`
  update the same fields as the program; each method is one lock section and is proved to compute a function
  of `RunBus`. The laws are about transition systems whose atomic steps are these lock sections, channel
  receives, subscribing and unsubscribing, in every interleaving, for any number of clients.
- **The event stream of one client** (`EventStream`): the handler's loop on the objects themselves, with the
  run's goroutine scheduled in between.
- **The worker, the run manager and the server** (`Worker`, `RunManager`, `ServerLaws`, `ServerStore`, `Agent`,
  `AgentLaws`): what a run emits on each path, how it is driven to its end, and any number of concurrent runs with the
  counters, the receipt store, the clock and the cleanup job; the server's store is proved to be that of the class.
- **The browser's run theatre** (`Theatre`, `TheatreLaws`): the async queue and the consumer loop, joined
  with the server's laws into one statement from lock sections to the sealed page.
- **The rate limiter** (`RateLimiter` and its laws): a map of lazily refilled token buckets that deletes idle
  ones, as a function of the history of calls; its closed form, key isolation, and when pruning shows.
- **The receipt store** (`ReceiptStore`, `ReceiptStoreLaws`): memory changes under the lock and the disk
  after it is released; exactly when the two tiers agree.
- **The forgery engine** (`Json`, `Tamper`, `TamperLaws`, `ForgeryLaws`, `SealLaws`, `JsGraph`, `TamperGraph`): the
  seven forgeries and the re-seal as functions on JSON values, what each forgery leaves at which path, what the seal
  covers, and the clone-and-assign code on a heap of objects.

`dafny verify dfyconfig.toml` checks the project.

Results that differ from what the code's comments or documentation suggest:

- The terminal state is published one lock section before the closing event. A client that subscribes in
  between never gets `done` or `error`, although `Subscribe` promises live events until the run ends
  (`RunLaws.StreamEnd`, `RunLaws.AttachWindow`, `RunLaws.WindowReached`); the browser then reports a lost
  connection for a run that completed (`TheatreLaws.RunTheatre`, `TheatreLaws.CompletedButLost`).
- `publishLocked` says that a slow subscriber drops events. For the runs that the manager drives this never
  happens (`RunLaws.NoLoss`); for an arbitrary publisher it happens from the 17th event on
  (`RunBusLaws.IdleReaderKeepsSixteen`).
- Deleting an idle bucket refills it. The limiter is a token bucket if and only if the ttl suffices to fill
  one (`PruningExact.PruningInvisibleExactly`); the defaults satisfy this, other flag values may not.
- Memory and disk need not agree: an overlapping store and cleanup of one ID can leave a file behind that
  brings the run back after a restart (`ReceiptStoreLaws.ResurrectedRun`). They agree on an ID if and only if
  the last disk half performed on it achieved what the last locked half asked for
  (`ReceiptStoreLaws.TiersAgreeExactly`).
- A reloaded run need not be the run that was stored: the encoder lays the embedded bundle text out anew, one
  level deeper, so that the bundle served after a restart may have another layout. `ReceiptStoreLaws.PutThenRestart`
  and `ReceiptStoreLaws.OrderedRestart` say exactly when a restart brings back the memory as it was.
- `stepHashes` also accepts a link of kind `credential` for the credential stage, which its comment does not
  mention; the model follows the code.

Modelling conventions: tokens and times of the limiter are exact reals, with the truncations to nanoseconds
and seconds kept; what the operating system, the clock, the network or a client does is a parameter; JSON
parsing and printing, SHA-256 and the canonical hasher are parameters, with the round trip and injectivity as
explicit hypotheses where a result needs them. Of the JSON codec of stored runs nothing is assumed but that it
keeps the ID: results about the disk are stated up to what the codec makes of a run. Ghost fields such as
`received`, `from` and `history` are bookkeeping that the program does not keep.

## Model

| member | source | states |
|---|---|---|
| Runs.Channel.TrySend | api/runs.go:143-146 | A full channel drops the event and an open one with room gets it at its end; sending on a closed channel is excluded by the precondition, which every caller is proved to meet. |
| Runs.Run.constructor | api/runs.go:218 | A new run is created, with no history, no steps and no channel. |
| Runs.Run.TakeSnapshot | api/runs.go:80-91 | The snapshot carries the ID, mode, state, steps, receipt ID and error text of the run, each in its own place. |
| Runs.Run.PublishLocked | api/runs.go:140-148 | The loop over `subs` computes `RunBus.Publish`: the history grows by the event and each registered channel, and no other, gets one non-blocking send. |
| Runs.Run.CloseSubsLocked | api/runs.go:150-155 | The loop empties `subs` and closes exactly the channels that were in it. |
| Runs.Run.TransitionTo | api/runs.go:96-105 | Succeeds exactly for created to running and running to complete or failed, and then sets the state and publishes the state event; otherwise nothing changes. |
| Runs.Run.EmitStep | api/runs.go:107-113 | The step enters `steps` and the history together. |
| Runs.Run.PublishLast | api/runs.go:120-123 | The last lock section: the closing event reaches every registered channel before all of them are closed. |
| Runs.Run.FinishOk | api/runs.go:115-124 | The three sections in order: receipt ID, state complete, done event with the close. |
| Runs.Run.FinishErr | api/runs.go:126-135 | The three sections in order: error text, state failed, error event with the close. |
| Runs.Run.NewReplayed | api/runs.go:163-166 | The replay loop never blocks, because the channel has 16 slots more than the history, and leaves the whole history in the channel. |
| Runs.Run.NewSubscriber | api/runs.go:160-174 | A new channel holds the history; it is registered and open exactly when the state is not terminal. |
| Runs.Run.CancelSubscriber | api/runs.go:175-182 | Unsubscribing closes a registered channel once and otherwise changes nothing, however often it is called. |
| Runs.Run.ReadFrom | api/server.go:328-331 | A receive takes the oldest buffered event and touches nothing else. |
| RunBusLaws.BusLaw | api/runs.go:140-184 | For any publisher and any interleaving: a channel's stream is the history at subscribe time followed by an in-order selection of the later events in which none of the first 16 is missing. |
| RunBusLaws.IdleReaderKeepsSixteen | api/runs.go:143-146 | The bound is exact: a reader that never drains keeps the first 16 later events and no others. |
| RunBusLaws.ChannelSafety | api/runs.go:140-184 | In every reachable state a channel is in `subs` if and only if it is open, and no interleaving sends on or closes a closed channel. |
| RunBusLaws.FieldsFollowHistory | api/runs.go:96-113 | `state` is the last state event and `steps` is the step projection of the history, in every reachable state. |
| RunBusLaws.ClientsDoNotInterfere | api/runs.go:160-183 | Whatever clients do, the run's own fields are those of its goroutine's sections performed alone. |
| RunLaws.LifecycleAt | api/runs.go:213-258 | History, state, steps, receipt ID and error text after each of the goroutine's sections; receipt ID and error text are set before the state becomes terminal. |
| RunLaws.Grammar | api/runs.go:31-40 | Every reachable history is a prefix of state(running), step*, then state(complete) done(id) or state(failed) error(msg), complete exactly after the last section; nothing follows. |
| RunLaws.NoLoss | api/runs.go:140-148 | What a client received plus what is buffered is exactly the history while it is registered, and its channel always has room: the drop branch is unreachable, since a run publishes at most 12 events. |
| RunLaws.StreamEnd | api/runs.go:115-135 | A channel closed by the run carries the full final history, except one created between the last two sections, which lacks exactly the last event; after the last section `subs` is empty for ever. |
| RunLaws.ClosedForEver | api/runs.go:120-155 | From the last section of any run on, whatever clients do, `subs` is empty and every channel is closed. |
| RunLaws.AttachWindow | api/runs.go:167-170 | The exception happens if and only if the client subscribes between the last two sections. |
| RunLaws.WindowReached | api/runs.go:115-135 | Every run can be subscribed to in that window; such a channel is closed by the run, one event short. |
| EventStream.PerformSection | api/runs.go:96-135 | Each section of a script, performed on the run object, is the section of the bus model. |
| EventStream.Turn | api/server.go:324-336 | One turn of the `select`: it delivers the oldest event or ends on a closed, drained channel, and otherwise the run has moved on. |
| EventStream.HandleRunEvents | api/server.go:321-336 | With the run's goroutine scheduled at will in between, the handler ends; a client that stays is sent the full history of the run (but for the last event if it subscribed in the window), and one that leaves is sent a prefix. |
| Worker.LinkHash | worker/worker.go:309-316 | The first kind that the table knows wins, the table holding the last hash of each kind. |
| Worker.HashByKind | worker/worker.go:304-308 | Two links of one kind: the later one wins. |
| Worker.AddChainHashes | worker/worker.go:303-326 | Every stage gets the hash of its own link or links, the anchor that of the chain; the export hash is not touched. |
| Worker.StepHashes | worker/worker.go:278-328 | The hash lines of a package in all three cases (no package, no bundle or chain, a chain); `verify` never has one. |
| Worker.ShortDecodes | worker/worker.go:283-288 | A hash line has two digits for each of the first eight bytes, or of all if there are fewer, and decodes to them. |
| Worker.StageShowsLink | worker/worker.go:303-322 | Each stage shows the last link of the kind that stands for it; the policy and the credential stage fall back on their substitutes, in the code's order. |
| Worker.StageWithoutLink | worker/worker.go:309-326 | A stage without such a link has no hash line; the anchor stage shows the chain's own digest. |
| Worker.EmittedSteps | worker/worker.go:214-219 | The nine steps of a delivered package: key, label and status of each stage, the seal's hash for export, none for verify, and the chain's hashes for the others if there is a chain. |
| Worker.ModeGate | worker/worker.go:190-199 | A run is let through if and only if it is anonymous, or in Kermit mode where that is available; the text for an unknown mode. |
| Worker.Runner.Narrate | worker/worker.go:214-219 | The loop emits the nine completed stages in order, each with the hash of its stage. |
| Worker.Runner.RunFlow | worker/worker.go:180-261 | What is emitted on each path (mode refused, node failed, narrated), with or without a callback; the exact error of each failing path, or what the result carries. |
| RunManager.Metrics.Add | api/metrics.go:49-56 | One counter grows by n, a missing one starting at zero; no other changes. |
| RunManager.DecimalReads | api/runs.go:214 | A run ID is `run-` followed by the digits of its number. |
| RunManager.RunIdInjective | api/runs.go:214 | Two counter values never give the same run ID. |
| RunManager.Manager.Start | api/runs.go:213-229 | The new run gets an ID that no registered run has, raises `runs_started` and neither of the other two counters, and has performed the first two sections of its script. |
| RunManager.Manager.Execute | api/runs.go:232-258 | The outcome is the one that the mode gate, the node, the encoders and the disk decide; the call emits the steps of the reply, performs exactly the rest of the script of that outcome, and raises the one counter of its end. What it leaves in the store is said field by field: ID, mode, flow, the two labels, time, receipt and bundle of the reply, in memory even if the write failed, and on disk if it did not. |
| RunManager.EndingDecided | api/runs.go:232-258 | A run completes if and only if its mode is accepted, the node delivered a package, bundle and receipt could be encoded, and the write worked if there is a disk; it fails in the store alone exactly when only the last of these is missing. |
| RunManager.StepsDecided | worker/worker.go:190-219 | No steps exactly for a refused mode, the single failed step exactly for a failed node call, all nine exactly for a delivered package. |
| RunManager.WorkerTexts | worker/worker.go:197-225 | The error text for each way in which the worker gives up. |
| RunManager.StoreTexts | api/runs.go:249-253 | The error text for each way in which the store fails. |
| RunManager.EndingIsFinish | api/runs.go:115-135 | The last sections of a script are `finishOK` or `finishErr`. |
| ServerLaws.CountersAlwaysExact | api/runs.go:224-256 | With any number of concurrent runs each counter is the number of runs that passed its section. |
| ServerLaws.CounterConservation | api/metrics.go:46-56 | runs_started = runs_completed + runs_failed + the runs in flight, in every interleaving. |
| ServerLaws.CountedBeforeTerminal | api/runs.go:234-257 | A run whose state is terminal has been counted as finished, under the counter of its outcome. |
| ServerLaws.ReceiptInvariant | api/runs.go:240-257 | A stored receipt is still found, unless another run stored one under the same ID or it is older than the retention window. |
| ServerLaws.StoreHoldsLast | api/receipts.go:91-131 | In every interleaving the store holds, under each ID, the receipt of the last run that stored one under it, unless that receipt is older than the retention window. |
| ServerLaws.AgentFindsProof | api/agent.go:91-113 | A snapshot in state complete carries the run's own non-empty receipt ID; a lookup at any later moment finds the receipt of the last run that stored one under it, unless that one has expired; this is the run itself unless IDs collide. |
| ServerLaws.AgentFindsOwnProof | api/agent.go:98-103 | Within the retention window and without collisions the lookup finds the run's own receipt, despite concurrent stores and sweeps. |
| ServerLaws.StampIsNow | api/receipts.go:87-89 | A receipt is stamped with the clock in the section before it is stored. |
| ServerStore.StoreRefined | api/receipts.go:91-131 | In every interleaving the map in memory, under one insertion for each run that stores and one removal of the expired runs for each cleanup, holds exactly the records that the server's entries stand for. |
| ServerStore.CleanupMirrors | api/receipts.go:121-131 | Whatever keeps exactly the runs that are no older than the retention window is a sweep of the server. |
| ServerStore.CleanupIsSweep | api/server.go:152-165 | The cleanup method of the store performs the server's sweep, and returns how many entries it dropped. |
| Agent.PollToCompletion | api/agent.go:90-123 | The loop ends after at most 602 polls; its reply is the answer to the first terminal snapshot and to a lookup of the receipt ID in it, and it times out only if no poll saw one. |
| AgentLaws.AgentIsTold | api/agent.go:88-123 | End to end, for polls that sample any execution of the server: an agent that gets an answer is told its own run's error, or the proof of the last run that stored one under its ID (its own, unless IDs collide), or that there is none only if that proof has expired. |
| AgentLaws.AgentGetsBundle | api/agent.go:98-113 | What such an agent is given is the encoding of the very package that the node delivered to the last run under its receipt ID (its own run, unless IDs collide), or the news that none is left, and then only if that one has expired. |
| AgentLaws.RunAlone | api/agent.go:88-113 | Start, execute, snapshot, lookup and answer on the objects: the agent is answered the run's receipt ID and the bundle of the node's reply, or the run's own error. |
| Theatre.AsyncQueue.Push | web/playground.js:387 | Nothing pushed is lost or reordered; a waiting consumer gets the message at once. |
| Theatre.AsyncQueue.Next | web/playground.js:388-391 | The oldest undelivered message, or a wait when everything pushed was delivered. |
| Theatre.Consumer.Turn | web/playground.js:484-520 | A failed step ends the run on the page with the label of its stage, which is marked broken and keeps its hash; an error with its own text or the stock one; a lost connection with that text; done with the receipt ID. Any other step completes its stage with its hash; everything else, and everything after the end, is ignored. |
| Theatre.Consumer.Loop | web/playground.js:482-521 | The loop runs until it has an outcome or has consumed everything, and the page shows `Consume` of what was delivered. |
| Theatre.Consumer.Arrive | web/playground.js:476-477 | After a push a consumer that had waited has an outcome or has consumed everything that was pushed; a push after the end changes nothing on the page. |
| TheatreLaws.OutcomeIsFinal | web/playground.js:484 | At most one outcome: whatever is pushed later changes nothing on the page. |
| TheatreLaws.PrefixShown | web/playground.js:486-518 | What the page shows after any part of any run's history: which stages are complete, each with its hash, and whether it waits, is sealed, or reports the failed stage or the run's error text. |
| TheatreLaws.StageLabels | web/playground.js:430-431 | Every stage is called by its own label, and anything else by its key. |
| TheatreLaws.FullHistoryShown | web/playground.js:487-518 | The full history of a run seals the page with the run's receipt ID and nine complete stages if it completed. If not, the page names the failed stage when the node call failed, and else shows the run's own error text, or the stock one if that is empty. |
| TheatreLaws.RunTheatre | web/playground.js:473-522 | End to end, for every interleaving: exactly one outcome. The page is sealed with the run's own receipt ID and nine complete stages if and only if the run completed and the visitor did not attach in the terminal window; a failed node call is shown as such to everybody; any other failed run shows its own error text, but a lost connection in that window. Nobody else is told that the connection was lost, unless that is the run's own error text. |
| TheatreLaws.ConnectionLost | web/playground.js:473-522 | Whatever part of its stream a visitor got before losing the connection: one outcome, sealed if and only if the run completed and the visitor got the full history; otherwise the failed stage if its event had arrived, the run's error text if everything had, and a lost connection in all other cases; the stages are complete as far as their events had arrived. |
| TheatreLaws.CompletedButLost | web/playground.js:515-518 | For every completed run there is an interleaving in which a visitor who never left is told that the connection was lost. |
| RateLimiter.Limiter.PruneLocked | api/ratelimit.go:108-114 | The loop deletes exactly the buckets that were idle for more than the ttl and leaves the others as they are. |
| RateLimiter.Limiter.AllowLocked | api/ratelimit.go:80-103 | What one call does to the buckets: idle ones go, the key's own is refilled and, if it holds a token, gives one up. |
| RateLimiter.Limiter.Allow | api/ratelimit.go:71-104 | The map-based limiter decides as the function of the whole history of calls does, for every capacity (disabled at zero or less); of the other buckets it keeps exactly those refilled within the ttl, as they are. |
| RateLimiterLaws.KeyIsolation | api/ratelimit.go:80-92 | With readings that never decrease, a key's decisions are those of a limiter that saw only that key's calls, for any capacity, rate and ttl. |
| RateLimiterLaws.LaggedKeyIsolation | api/ratelimit.go:75-92 | The same with readings that lag by at most d, when rate*(ttl-d) >= capacity. |
| RateLimiterLaws.PruningInvisible | api/ratelimit.go:75-92 | With readings that lag by at most d and rate*(ttl-d) >= capacity, every decision, wait included, is that of a limiter that never prunes. |
| PruningExact.PruningInvisibleExactly | api/ratelimit.go:108-114 | Pruning can never be observed if and only if nothing is ever admitted or rate*(ttl-d) >= capacity. |
| PruningExact.PruningObserved | api/ratelimit.go:108-114 | For all other settings, some trace is answered differently. |
| PruningExact.DefaultsInvisible | api/ratelimit.go:42-44 | The default burst and rate are on the invisible side if and only if the lag is at most nine and a half minutes. |
| PruningExact.ConfiguredLimits | api/ratelimit.go:49-58 | What the configuration means: tokens per minute, up to the burst, in buckets that live for ten minutes. |
| PruningExact.ConfiguredInvisible | api/ratelimit.go:49-58 | With readings in order, a configuration never shows its pruning if and only if it admits nothing or ten minutes fill its burst. |
| AdmissionLaws.UnprunedAdmission | api/ratelimit.go:72-104 | The closed form of the plain token bucket, for any capacity and rate and for clock readings in any order: admitted if and only if the limiter is disabled or the call fits into every window. |
| AdmissionLaws.AdmissionLaw | api/ratelimit.go:71-104 | With readings that lag by at most d and rate*(ttl-d) >= capacity: call j is admitted if and only if, for every earlier-or-equal call i of its key, the calls admitted since i plus this one are at most capacity + rate*(tj - ti), each t being the latest reading of the key so far: no call is rejected needlessly. |
| AdmissionLaws.InOrderAdmission | api/ratelimit.go:71-104 | The same with the readings of the calls themselves, when they never decrease and rate*ttl >= capacity. |
| AdmissionLaws.ConfiguredAdmission | api/ratelimit.go:49-104 | The same in terms of the configuration: burst plus tokens per minute times the minutes of the window. |
| AdmissionLaws.WindowBound | api/ratelimit.go:71-104 | In every window the admitted calls of a key are at most capacity + rate*length, even with readings that lag by at most d. |
| RetryLaws.WholeSeconds | api/server.go:274-277 | Nanosecond truncation, plus a second, truncated to seconds, exceeds the exact wait by at most one second and is never below it. |
| RetryLaws.TowardZero | api/ratelimit.go:101 | The conversion to a duration cuts off the fraction, on either side of zero. |
| RetryLaws.RetryAfterIsEnough | api/ratelimit.go:97-103 | A rejected client that waits the announced seconds is admitted if and only if the capacity is at least one, whatever other keys do; the announced value is within one second of the exact wait, and coming back before the exact wait is in vain. |
| RetryLaws.HeaderOnlyWhenUseful | api/ratelimit.go:97-103 | A wait is announced if and only if the call was rejected and tokens accrue at all. |
| ReceiptStore.IdCollision | api/receipts.go:69-72 | Two receipts get one ID if and only if their digests agree on the first 48 bits. |
| ReceiptStore.HexDecodes | api/receipts.go:71 | Two digits a byte, the high one first. |
| ReceiptStore.RunFileNames | api/receipts.go:141-143 | The files that a restart reads are exactly those named as the store names the file of some ID. |
| ReceiptStore.Store.Open | api/receipts.go:53-65 | Opening fails exactly when the directory cannot be created or read, with that error; otherwise the store holds what the directory loads, or nothing without one. |
| ReceiptStore.Store.LoadFromDisk | api/receipts.go:156-179 | The two loops compute the fold of the run files of the listing, later names overriding earlier ones. |
| ReceiptStore.Store.Persist | api/receipts.go:145-154 | A write puts into the file of the run's own ID what the codec makes of the run; each way of failing, with its error text and what it leaves in the directory. |
| ReceiptStore.Store.Put | api/receipts.go:76-101 | ID (twelve digits of the digest) and time are filled in where they are missing and nowhere else, in the caller's object too; each error case with its error; memory and disk after each of them, the run being in memory after a failed write. |
| ReceiptStore.Store.RemoveExpired | api/receipts.go:122-131 | The locked loop keeps exactly the runs that were created at the cutoff or later, as they are, and returns the ID of each other one once. |
| ReceiptStore.Store.Cleanup | api/receipts.go:121-139 | In memory exactly the runs stay that are no older than the maximal age; on disk exactly the files of the others go, but for those that cannot be removed; the number of the removed runs is returned. |
| ReceiptStore.Store.PutCleanupGet | api/receipts.go:76-139 | A run that is put, then looked up after a cleanup, is found if and only if it is no older than the maximal age. |
| ReceiptStoreLaws.WriteIsHalf | api/receipts.go:145-154 | The write of the class, in each of its outcomes, is the disk half of the interleaving laws. |
| ReceiptStoreLaws.LastFileWins | api/receipts.go:162-178 | What any directory loads, whatever its files are called. |
| ReceiptStoreLaws.RestartRebuilds | api/receipts.go:156-179 | A restart rebuilds the map in memory if and only if both tiers agree, in any listing order. |
| ReceiptStoreLaws.TiersAgreeExactly | api/receipts.go:91-138 | In every interleaving of locked and disk halves, in any order, with failing disk operations and restarts: memory and disk agree on an ID if and only if the last disk half performed on it achieved what the last locked half on it asked for. |
| ReceiptStoreLaws.RestartSafeExactly | api/receipts.go:156-179 | A restart after any such interleaving brings back exactly the memory if and only if this holds for every ID. |
| ReceiptStoreLaws.PutThenRestart | api/receipts.go:145-178 | After one successful store and a restart the memory holds what the codec makes of the run, which is the run itself if and only if the codec gives it back as it is. |
| ReceiptStoreLaws.TiersAgree | api/receipts.go:91-138 | In that order, the disk holds the run in memory as the codec keeps it, for every ID with no pending and no failed half; the two are equal if and only if the run was not stored since the last restart or the codec gives it back as it is. |
| ReceiptStoreLaws.OrderedRestart | api/receipts.go:156-179 | With nothing pending and nothing failed, a restart rebuilds the memory as the codec keeps it, and exactly the memory if and only if the codec gives back as they are all runs stored since the last restart. |
| ReceiptStoreLaws.NonOverlappingAgree | api/receipts.go:91-138 | In every interleaving in which operations on one ID do not overlap and disk operations succeed, the disk holds the run in memory as the codec keeps it, for every ID whose disk half is not pending. |
| ReceiptStoreLaws.NonOverlappingRestart | api/receipts.go:156-179 | In those interleavings a restart with nothing pending rebuilds the memory as the codec keeps it. |
| ReceiptStoreLaws.SwappedHalves | api/receipts.go:95-98 | Any two pending halves of one ID that reach the disk in the wrong order: the tiers then agree on it if and only if the earlier one leaves on disk what was asked for last. |
| ReceiptStoreLaws.ResurrectedRun | api/receipts.go:133-137 | A legal interleaving in which a run that was cleaned up comes back, as the codec keeps it, after a restart. |
| ReceiptStoreLaws.OrderedEventually | api/receipts.go:91-138 | When the disk halves of each ID are done in the order of their locked halves, the disk will hold what was asked for, as the codec keeps it, unless the last disk half failed. |
| Json.UpdateFrame | web/tamper.js:31-38 | An assignment at one path leaves every path that is apart from it as it was. |
| Json.UpdateChanges | web/tamper.js:31-38 | An assignment changes the whole value if and only if it changes the value at its path. |
| Json.FalsyValues | web/tamper.js:41 | The values that `||` and `if` treat as absent. |
| TamperLaws.FlipFirstChanges | web/tamper.js:46-49 | The flip is a change if and only if there is a first element. |
| TamperLaws.FlipFirstTwice | web/tamper.js:46-49 | On bytes the flip is its own inverse. |
| TamperLaws.MutateIsOneAssignment | web/tamper.js:55-124 | Every forgery of every package, in either form of the bundle data, throws or makes at most one assignment to the parsed package, at a target path of its own whose containers exist. |
| TamperLaws.ForgeFrame | web/tamper.js:134-143 | A forged package, in either form of the bundle data, equals the clean one at every path apart from the forgery's targets and the export hash; a text that is not edited keeps its spelling. |
| TamperLaws.ForgeryChanges | web/tamper.js:55-124 | A forgery changes the parsed package, in either form of the bundle data, if and only if its assignment changes the value at its path. |
| TamperLaws.ForgeryWrites | web/tamper.js:55-124 | In either form of the bundle data: whenever a forgery assigns, its target then holds the forged value: the attacker's identity, height zero, the empty hash, the list without its first decision, or the old bytes with the first one inverted. |
| ForgeryLaws.InvertedBits | web/tamper.js:48 | The inverted byte has, of its eight bits, exactly those set that the byte has not. |
| ForgeryLaws.ApproverForged | web/tamper.js:60-66 | The first approval has the attacker's identity afterwards if and only if it is an object (the first of a truthy `approvalEvidence`, else of `ApprovalEvidence`), and the other list keeps its value; exactly when the forgery throws, and what. |
| ForgeryLaws.PlanHashForged | web/tamper.js:68-78 | The plan hash of the first approval has its first byte inverted if and only if it is a non-empty array, and is what it was otherwise; exactly when the forgery throws, and what. |
| ForgeryLaws.OutcomeForged | web/tamper.js:84 | The outcome digest has its first byte inverted if and only if it is a non-empty array, and is what it was otherwise; it never throws but for a missing re-seal function. |
| ForgeryLaws.ChainHashForged | web/tamper.js:92-96 | The same for the content hash of the link of the first inclusion proof. |
| ForgeryLaws.PolicyForged | web/tamper.js:104-106 | The first policy decision is dropped if and only if there is one in an array; exactly when the forgery throws, and what. |
| ForgeryLaws.TrustForged | web/tamper.js:114 | The first trust snapshot has block height zero afterwards if and only if it is an object; exactly when the forgery throws, and what. |
| ForgeryLaws.PluginForged | web/tamper.js:122 | The first plugin version has an empty implementation hash afterwards if and only if it is an object; exactly when the forgery throws, and what. |
| SealLaws.RepresentationIndependence | web/tamper.js:31-38 | For every forgery and package, forging with the bundle data as a JSON text and then parsing gives the same value, the same error and the same export hash as forging the inlined package. |
| SealLaws.ResealFixpoint | web/tamper.js:159-176 | Re-sealing seals, is idempotent, and its fixpoints are exactly the sealed packages. |
| SealLaws.ForgeryDisturbsOneSealKey | web/tamper.js:160-173 | A forgery changes the sealed content under at most one key. |
| SealLaws.ForgeryShows | web/tamper.js:159-176 | A forgery changes the sealed content if and only if it changes the parsed package, or, for the outcome, the bytes that the digest coerces to. |
| SealLaws.SealBreaksExactly | web/tamper.js:159-176 | With an injective hasher, an edit of a sealed package breaks the seal if and only if it changed the sealed content. |
| SealLaws.SealCoversExactly | web/tamper.js:159-173 | With an injective hasher, a package with the export hash of a sealed one is sealed if and only if all twelve fields are the same to the seal: equal version; equal parsed bundle data and replay capsule; equal coerced bytes of the three digests; equal, or both falsy, lists, anchor proof and anchor transaction; equal block height as a number. |
| SealLaws.SealCoversField | web/tamper.js:159-173 | A change of one field breaks the seal if and only if the seal can tell the two values apart; of any field outside the twelve, never. |
| SealLaws.ExportHashBytes | web/tamper.js:174-175 | The export hash is the array of the bytes of the hash of the sealed content. |
| SealLaws.NaiveForgeryBreaksSeal | web/tamper.js:56-67 | In either form of the bundle data, the naive forgery leaves the export hash alone and breaks the seal if and only if it changed the value of the bundle data (for an inlined package: changed anything). |
| SealLaws.ResealedForgeryPassesSeal | web/tamper.js:138-141 | A re-sealed forgery passes the outer seal; on a sealed package its export hash is new if and only if the sealed content changed, which is when its edit writes a value that is not already at the target (for the outcome: other coerced bytes). |
| JsGraph.Node.Put | web/tamper.js:36 | Assignment to a property of an object or array on the heap: its value changes at that key, its tree grows by the assigned one. |
| JsGraph.Node.Assign | web/tamper.js:60-66 | Assignment through a chain of properties changes the value that the root shows as the pure update does, and writes to no object outside its tree. |
| JsGraph.Build | web/tamper.js:27 | Parsing builds a graph of new objects only, which shows the parsed value. |
| JsGraph.Show | web/tamper.js:27 | Printing a graph gives the value that it shows. |
| TamperGraph.Clone | web/tamper.js:27 | The clone shows the same value and shares no object with the package. |
| TamperGraph.MutateText | web/tamper.js:31-38 | On a bundle text: parse, assign into the parsed graph, print, put the new text into the package. |
| TamperGraph.MutateGraph | web/tamper.js:55-124 | The in-place mutation of a graph throws or shows what the pure mutation computes, for both forms of the bundle data. |
| TamperGraph.ResealGraph | web/tamper.js:159-176 | The new export hash is a new array, assigned in place. |
| TamperGraph.ApplyForgery | web/tamper.js:134-143 | No object that existed before is written to, so the clean package keeps its whole graph; the result is a graph of new objects that shows the forged fields, or the error. |

## Left out

- Worker.Runner.RunFlow: the node call, the offline verifier and the receipt converter are one parameter, and so is the quoting of an unknown mode.
- RunManager.Manager.Execute: performs its steps uninterrupted; their interleaving with clients and other runs is treated in `RunLaws` and `ServerLaws`, on values.
- RunManager.Metrics.Add: counters are unbounded integers rather than 64-bit ones, and a nil receiver is not modelled.
- ReceiptStore.Store.Put: later changes by the caller to the object it passed are not seen by the store; a run ID containing path separators or invalid UTF-8 and the cleaning of paths are not modelled.
- ReceiptStoreLaws.PutThenRestart: which texts the encoder of the standard library leaves as they are is not part of this model; the codec is a parameter.
- ReceiptStore.Store.LoadFromDisk: the directory listing is a parameter, in any order, so sorting adds nothing.
- ReceiptStoreLaws.TiersAgree: asks that the disk halves of one ID are done in the order of their locked halves, which the program does not enforce; `TiersAgreeExactly` has no such condition.
- RateLimiter.Limiter.Allow: floating-point rounding and the overflow of a `Duration` are not modelled.
- RetryLaws.RetryAfterIsEnough: assumes clock readings that never decrease and a positive rate; with rate zero no header is sent.
- EventStream.HandleRunEvents: one client and the run's goroutine; other clients do not change what it is sent (`RunBusLaws.ClientsDoNotInterfere`, `RunLaws.StreamEnd`). Framing, flushing and reconnection of server-sent events are left out: the stream is an in-order pipe.
- Theatre.Consumer.Turn: rendering, animation, pacing delays and telemetry; a second message cannot overtake the first during a delay, since one loop takes them in turn.
- Agent.PollToCompletion: snapshots, lookups, clock and client are functions of the poll number, which `AgentLaws` ties to one execution of the server; the wait is at least 150 ms.
- JsGraph.Node.Assign: packages are trees of objects, as everything that JSON parsing builds is; array elements that a mutation carries over into a new array are copied rather than shared.
- TamperGraph.MutateGraph: which assignment to make is decided by pure functions on the value that the graph shows; only the assignments themselves act on the heap.
- SealLaws.RepresentationIndependence: assumes that parsing undoes printing, as do the laws of `TamperLaws` where a bundle text is edited; numbers are integers, object keys are unordered, and named properties added to arrays (invisible in JSON) are ignored.
- The injected `coerce32` may throw in the program; here it is a total function.
- Which inner check each forgery trips and the L3/L4 cap: the verifier is not part of this model.
- HTTP routing, request parsing, the abuse guard, onboarding events, `/metrics` rendering, embedded assets, the other browser views and the command-line flags: plumbing with only shallow claims.
- Go scheduler fairness and real-time liveness: all interleavings are safe, and the bounded progress proved is that of the stream handler, the consumer loop and the poll loop.
