# HomeFleet: a verified model of its hardest parts

HomeFleet is a daemon that lets nodes on a network run jobs for each other. This project
models, in Dafny, the parts of it whose correctness is hardest to see by reading one
function at a time, and proves what they promise.

| area | files |
|---|---|
| the worker's job engine: queue, slots, event logs, cancellation, retention | `JobRecord`, `JobEngine`, `JobInvariant`, `JobTheorems`, `JobEffects`, `JobManager` |
| the event stream to a peer: UTF-8, SSE writer and incremental reader, reconnection | `Utf8`, `Numerals`, `Sse`, `SseTheorems`, `EventJson`, `PeerStream` |
| durable tables: the coalescing registry against the serial queue | `DurableStore`, `KnownNodes`, `KnownNodesRegistry`, `SerialStore` |
| compilers, printers, readers: globs, cmd.exe quoting, capped capture, configuration | `Glob`, `CmdQuote`, `Truncation`, `Config`, `ConfigMeaning`, `Catalog` |
| upgrade protocols: fleet rollout, the surface that starts it, single-flight coordinator | `Rollout`, `FleetRollout`, `FleetUpgrade`, `FleetUpgradeSurface`, `Coordinator`, `UpgradeCoordinator` |
| discovery and the agent loop | `Aggregator`, `DiscoveryAggregator`, `Mdns`, `ToolLoop` |

How it is built. Concurrent parts are state machines whose steps are the stretches of the
program between two awaits; the main results quantify over all step sequences, so over all
interleavings. Beside each machine stands the program itself as a class or a method with
its loops, proved to take exactly the machine's steps. Fields such as `trail`, `history`,
`writes` or `published` record what has been done and are not in the program. Where the
environment decides (a peer, a clock, a file operation, a model), it is an unconstrained
input. Basic lists and sets are in `Basics`, insertion-ordered maps in `OrderedMap`.

Where the code and its documentation differ, the code is followed, and the exact condition
is proved:

- The SSE reader's event cap measures the line with its `data: ` prefix, so an event whose
  JSON fits the cap can be refused (`SseTheorems.RefusalIsExact`, `SseTheorems.CapIsNotOnTheJson`;
  one such event: `EventJsons.FittingEventIsRefused`).
- A bare `**` in a glob does not cross a line terminator (`Globs.PromiseKeptIff`).
- The batch executable's own name is not checked for characters that quotes cannot hold
  (`CmdQuotes.BuiltLineIsBadIff`, `CmdQuotes.BatchNameSlipsThrough`); and it is quoted like
  any token, only when it needs to be.
- A known node loaded with a timestamp a minute or more ahead of the clock breaks the
  write-bounding drift limit, unless it is evicted at once (`Aggregators.SeedKeepsCloseIff`,
  `Aggregators.SeedAheadDrifts`); a sighting of a new node older than everything in a full
  table is evicted and queued all the same (`Aggregators.QueuedWithinIff`; a run from the
  empty table in which that happens: `Aggregators.SteppedBackClockLeaks`).
- A rename can publish the same label again if the name fills the label and already ends in
  the rename's suffix (`Mdns.FirstLabelRepeatsIff`, `Mdns.RenameCanKeepTheLabel`).
- A tool-call budget below zero behaves as zero: one model call is still made
  (`ToolLoops.ModelCallsAreBounded`).
- If removing the lock file fails, a failed upgrade run leaves it behind
  (`Coordinators.FailedRunReleased`, `Coordinators.LockCanStick`).

Beside these, the documentation says why a self upgrade must not begin during a rollout; the
other way round nothing guards it, and a rollout can start while a self upgrade is under way
(`FleetUpgrades.SelfCameFirst`, `FleetUpgrades.RolloutBesideSelf`).

## Model

| member | source | states |
|---|---|---|
| `JobRecords.ReplayIsSuffix` | packages/daemon/src/jobs/job-manager.ts:434-469 | filtering the buffered events by sequence number is dropping a prefix of the log |
| `JobRecords.SubscribeReplays` | packages/daemon/src/jobs/job-manager.ts:434-469 | a new subscriber is handed the log from its resume point on, or nothing past the end, and stays attached exactly while the job is live |
| `JobRecords.AppendKeepsStreams` | packages/daemon/src/jobs/job-manager.ts:762-774 | an append stamps the next sequence number and keeps every attached stream a gap-free stretch up to the end of the log |
| `JobRecords.FinishLog` | packages/daemon/src/jobs/job-manager.ts:718-730 | finishing appends the status and then the result, once, and detaches every stream |
| `JobRecords.ResultIsLast` | packages/daemon/src/jobs/job-manager.ts:718-774 | a log has a result event exactly when its job is terminal, once, as its last event |
| `JobInvariant.StepKeepsInv` | packages/daemon/src/jobs/job-manager.ts:250-817 | every step of the engine keeps the whole invariant: queue, slots, logs, calls outward, termination and eviction order |
| `JobTheorems.Scheduling` | packages/daemon/src/jobs/job-manager.ts:250-308 | over all runs: the queue is the queued jobs in submit order without duplicates, running jobs hold slots, both bounds hold, start order is submit order without the jobs dropped while queued, no slot idles behind a waiting job, and `pump` never skips |
| `JobTheorems.Logs` | packages/daemon/src/jobs/job-manager.ts:634-773 | over all runs every log is numbered from zero and has the shape running, observations, status, result |
| `JobTheorems.StepAdvances` | packages/daemon/src/jobs/job-manager.ts:250-533 | no step rewrites a log, reopens a terminal job, changes a subscription's start, feeds an ended one, or brings a doomed job to its executor |
| `JobTheorems.FirstVerdictWins` | packages/daemon/src/jobs/job-manager.ts:718-760 | once a job is terminal its log, result and status never change, however cancel and completion raced |
| `JobTheorems.LogIsAppendOnly` | packages/daemon/src/jobs/job-manager.ts:762-774 | over all runs a log only grows at its end |
| `JobTheorems.WorkspaceDiscipline` | packages/daemon/src/jobs/job-manager.ts:634-716 | each workspace is acquired at most once, released exactly as often by the time its slot is free, and the executor runs at most once, inside it |
| `JobTheorems.AbortBeforeResolve` | packages/daemon/src/jobs/job-manager.ts:634-680 | an abort before the workspace resolves means the executor is never called |
| `JobTheorems.SettledRunIsTerminal` | packages/daemon/src/jobs/job-manager.ts:354-397 | once a started run has settled its job is terminal, so a cancel that waited for it reports a terminal status |
| `JobTheorems.Retention` | packages/daemon/src/jobs/job-manager.ts:793-817 | evictions follow termination order, only terminal jobs are evicted, and the retained terminal jobs and all records stay within their caps |
| `JobTheorems.RecordsBound` | packages/daemon/src/jobs/job-manager.ts:793-817 | all records are at most retained plus concurrent plus queued |
| `JobTheorems.EvictedExactlyOnce` | packages/daemon/src/jobs/job-manager.ts:485-533 | over a run that `stop` has finished, the eviction hook has heard of every accepted job exactly once |
| `JobTheorems.CancelOwnedByEffect` | packages/daemon/src/jobs/job-manager.ts:414-424 | afterwards the owner has nothing queued and nothing running unaborted, other owners' jobs are untouched, and no requested cancellation met an unknown job |
| `JobEffects.ExecutorVerdict` | packages/daemon/src/jobs/job-manager.ts:660-716 | over all runs: a job whose executor settles ends with exactly the result it returned, in status, record and last event, or failed with INTERNAL if it threw |
| `JobEffects.WorkspaceVerdict` | packages/daemon/src/jobs/job-manager.ts:634-680 | over all runs: a job whose workspace fails ends as failed, one aborted before its workspace came ends as canceled, and every other one goes on to its executor |
| `JobEffects.SubmitDoes` | packages/daemon/src/jobs/job-manager.ts:250-308 | a submit is refused exactly if stopped, unsupported, without an offered model or full; otherwise the job is recorded for its owner and runs at once exactly if a slot is free, else joins the end of the queue, and no other job changes |
| `JobEffects.CancelDoes` | packages/daemon/src/jobs/job-manager.ts:354-397 | a cancel ends the owner's queued job as canceled, aborts a running one, and changes nothing else |
| `JobEffects.RunSettledDoes` | packages/daemon/src/jobs/job-manager.ts:580-632 | a settled run gives its slot back, and as many queued jobs as there are free slots start, in order |
| `JobEffects.EmissionDoes` | packages/daemon/src/jobs/job-manager.ts:733-760 | a well-formed observation of a live job is appended to its log, anything else an executor emits is dropped |
| `JobEffects.DetachDoes` | packages/daemon/src/jobs/job-manager.ts:434-469 | a subscriber that leaves gets nothing more; log and other subscribers stay |
| `JobEffects.StopDoes` | packages/daemon/src/jobs/job-manager.ts:485-510 | stop ends exactly the queued jobs as canceled and aborts exactly the running ones |
| `JobEffects.EvictedOnlyOverCap` | packages/daemon/src/jobs/job-manager.ts:793-817 | over all runs a record is evicted only to make room: once any has been, at least as many as the cap are retained, until stop ends |
| `JobManagers.JobManager.AppendEvent` | packages/daemon/src/jobs/job-manager.ts:762-774 | the loop over the subscribers delivers as the specification's append does |
| `JobManagers.JobManager.EvictIfNeeded` | packages/daemon/src/jobs/job-manager.ts:793-817 | the eviction loop evicts the oldest terminal jobs until within the cap |
| `JobManagers.JobManager.FinishWith` | packages/daemon/src/jobs/job-manager.ts:718-730 | ends a job as the specification does, a terminal one not at all |
| `JobManagers.JobManager.PumpQueue` | packages/daemon/src/jobs/job-manager.ts:580-601 | the pump loop starts jobs first in, first out while slots are free |
| `JobManagers.JobManager.Submit` | packages/daemon/src/jobs/job-manager.ts:250-308 | refuses with the code of the first check that fails in the program's order, else is the machine's submit step |
| `JobManagers.JobManager.CancelNow` | packages/daemon/src/jobs/job-manager.ts:354-397 | the synchronous part of cancel is the machine's step, with the reply it gives |
| `JobManagers.JobManager.Cancel` | packages/daemon/src/jobs/job-manager.ts:354-397 | cancel with its bounded wait, for any steps others take meanwhile: an unknown or foreign job is refused; the reply is the job's status after those steps, terminal unless the timer fired first; no log is rewritten |
| `JobManagers.JobManager.CancelOwnedBy` | packages/daemon/src/jobs/job-manager.ts:414-424 | the loop over the captured records is the machine's step |
| `JobManagers.JobManager.WorkspaceResolved` | packages/daemon/src/jobs/job-manager.ts:634-690 | a resolved workspace starts the executor, or, if the job was aborted, is released and the job ends as canceled |
| `JobManagers.JobManager.ExecutorFinished` | packages/daemon/src/jobs/job-manager.ts:660-716 | a settled executor ends the job with exactly the result it returned, or with INTERNAL if it threw, and releases the workspace |
| `JobManagers.JobManager.SubscribeTo` | packages/daemon/src/jobs/job-manager.ts:434-469 | the replay loop is the machine's attach step; an unknown or foreign job is refused |
| `JobManagers.JobManager.BeginStopping` | packages/daemon/src/jobs/job-manager.ts:485-510 | stop cancels every queued job and aborts every running one |
| `JobManagers.JobManager.FinishStopping` | packages/daemon/src/jobs/job-manager.ts:510-533 | stop then ends every stream and announces every retained job's eviction |
| `JobManagers.JobManager.Perform` | packages/daemon/src/jobs/job-manager.ts:250-817 | every step of the machine, allowed or not, is carried out by the object's methods |
| `Utf8.WriteConcat` | packages/daemon/src/transport/client.ts:926-942 | decoding does not depend on how the bytes are cut, also inside a character |
| `Utf8.RoundTrip` | packages/daemon/src/transport/client.ts:926-942 | decoding undoes encoding for every text (section 3 of RFC 3629) |
| `Utf8.NoReplacementIsExact` | packages/daemon/src/transport/client.ts:926-942 | bytes that decode without a replacement character are exactly the encoding of what they decode to |
| `Sse.ParseSseEvents` | packages/daemon/src/transport/client.ts:923-975 | the reader's nested loops compute the incremental parser of the specification, with its two refusals |
| `SseTheorems.ChunksDoNotMatter` | packages/daemon/src/transport/client.ts:923-975 | for an honest stream the reader's state depends on the bytes received only, unless a cap was hit |
| `SseTheorems.ReadingUndoesWriting` | packages/daemon/src/jobs/routes.ts:285-290 | parsing undoes writing for any heartbeats between records and any cut into chunks, and ends exactly at a result |
| `SseTheorems.CutStreamYieldsPrefix` | packages/daemon/src/transport/client.ts:923-975 | a stream that breaks off, or is refused, has yielded an initial stretch of the events; only an oversized one is refused; a finished one is whole |
| `SseTheorems.RefusalIsExact` | packages/daemon/src/transport/client.ts:932-973 | some cut of an honest stream is refused exactly if it exceeds the total cap or some line with its prefix exceeds the event cap |
| `SseTheorems.CapIsNotOnTheJson` | packages/daemon/src/transport/client.ts:969-973 | an event whose JSON is within the cap can be refused |
| `EventJsons.EventCodecIsFaithful` | packages/daemon/src/jobs/routes.ts:285-290 | a codec of the kind the stream results ask for: rendering events as JSON on one line can be undone |
| `EventJsons.FittingEventIsRefused` | packages/daemon/src/transport/client.ts:969-973 | an event whose JSON is exactly as long as the cap allows can be refused |
| `PeerStreams.ResumeReadsBack` | packages/daemon/src/jobs/routes.ts:294-303 | the worker reads the resume point back out of the header the client writes |
| `PeerStreams.ResumeIsForgiving` | packages/daemon/src/jobs/routes.ts:294-303 | a missing header, one that does not start with a number, or a negative one asks for everything; digits that something follows count |
| `PeerStreams.PeerSeesTheLog` | packages/daemon/src/jobs/routes.ts:220-303 | over all runs, with any connections, losses, heartbeats, cuts and oversized streams, a peer has received exactly an initial stretch of the log, each event at its own number, and the result only as the end of all |
| `PeerStreams.CaughtUp` | packages/daemon/src/jobs/routes.ts:253-291 | while attached and with everything written arrived, nothing of the log is missing |
| `PeerStreams.ResumingCompletes` | packages/daemon/src/transport/client.ts:665-745 | whatever happened before, reconnecting to a retained job and reading all that is written gives the whole log |
| `DurableStore.AllowedKeepsCovered` | packages/daemon/src/discovery/known-nodes.ts:165-184 | the durability contract is enough: a caller told "done" finds its version or a later one in the file, then and for good |
| `KnownNodes.StepRefines` | packages/daemon/src/discovery/known-nodes.ts:185-235 | every step of the coalescing writer is a list of moves the durability contract allows |
| `KnownNodes.RunKeepsInv` | packages/daemon/src/discovery/known-nodes.ts:131-235 | over all runs: one write at a time, every unanswered caller waits for exactly one write that will carry its change, and writes never exceed calls |
| `KnownNodes.Durability` | packages/daemon/src/discovery/known-nodes.ts:131-235 | in every reachable state writes do not overlap, the file is a committed snapshot, and a successful call's change is in it |
| `KnownNodes.IdleFileIsMemory` | packages/daemon/src/discovery/known-nodes.ts:204-235 | once idle the file equals memory unless the last write failed |
| `KnownNodes.BurstCostsOneWrite` | packages/daemon/src/discovery/known-nodes.ts:185-195 | any number of calls during one write in flight cost one more write between them |
| `KnownNodes.DrainAnswersAll` | packages/daemon/src/discovery/known-nodes.ts:204-235 | left alone it comes to rest after the writes it owes with every caller answered, whatever file operations fail |
| `KnownNodes.DrainWrites` | packages/daemon/src/discovery/known-nodes.ts:204-235 | if the file operations succeed from here on, the file ends up as memory |
| `KnownNodes.TempNamesDiffer` | packages/daemon/src/discovery/known-nodes.ts:215-224 | in any run no two writes use the same temporary file |
| `KnownNodes.TrimKeepsNewest` | packages/daemon/src/discovery/known-nodes.ts:131-166 | eviction stops at the cap and drops no sighting newer than one it keeps |
| `KnownNodes.RecordBounded` | packages/daemon/src/discovery/known-nodes.ts:131-138 | the table stays within the cap and a recorded sighting is kept unless it is the oldest |
| `KnownNodes.RecordDoes` | packages/daemon/src/discovery/known-nodes.ts:131-138 | recording changes or appends its own entry and keeps every other; one is lost only at the cap, and only if no newer than all that are kept; below the cap the order stays |
| `KnownNodes.RemoveDoes` | packages/daemon/src/discovery/known-nodes.ts:146-152 | after a removal the table is exactly the entries with another id, in their order |
| `KnownNodesRegistries.KnownNodesRegistry.EvictOldest` | packages/daemon/src/discovery/known-nodes.ts:154-166 | the scan finds the first entry with the least timestamp and removes it |
| `KnownNodesRegistries.KnownNodesRegistry.PersistFor` | packages/daemon/src/discovery/known-nodes.ts:185-195 | joins a caller to the write in flight or to the one follow-up |
| `KnownNodesRegistries.KnownNodesRegistry.Record` | packages/daemon/src/discovery/known-nodes.ts:131-138 | recording is the machine's step: the node is in its old place or at the end, every other entry stays unless it is the oldest of a full table, and an invalid one is refused |
| `KnownNodesRegistries.KnownNodesRegistry.Forget` | packages/daemon/src/discovery/known-nodes.ts:146-152 | removing is the machine's step, reports whether the node was there, and leaves exactly the others |
| `KnownNodesRegistries.KnownNodesRegistry.Renamed` | packages/daemon/src/discovery/known-nodes.ts:221-235 | a committed rename is the machine's step |
| `SerialStore.StepRefines` | packages/daemon/src/trust/trust-store.ts:128-149 | the one-write-per-call queue honours the same durability contract |
| `SerialStore.CoalescingRefinesSerial` | packages/daemon/src/discovery/known-nodes.ts:168-235 | at every moment of every run, memory, file, and the versions written and failed so far are those of some run of the serial queue, which has answered no one else |
| `SerialStore.OneAnswerPerWrite` | packages/daemon/src/trust/trust-store.ts:128-149 | in every run of the serial queue each write answers exactly one caller |
| `SerialStore.BurstIsNotSerial` | packages/daemon/src/discovery/known-nodes.ts:168-202 | a burst of three calls is answered by two writes, which no serial run does |
| `SerialStore.CoalescingAgreesWithSerial` | packages/daemon/src/trust/trust-store.ts:128-149 | at rest after successful writes any two runs of the two policies that hold the same content have the same file, and the coalescing one wrote no more often |
| `Globs.GlobToRegExp` | packages/executors/src/agent/tools.ts:162-190 | the loop emits the anchored text of the pattern's tokens |
| `Globs.OneReading` | packages/executors/src/agent/tools.ts:162-190 | the tokens of a pattern are its one greedy reading, and spell the pattern |
| `Globs.ReadsAsIntended` | packages/executors/src/agent/tools.ts:162-190 | the emitted text, read by the grammar of section 22.2.1 of ECMA-262, is the intended expression: every literal is escaped and no quantifier changes hands |
| `Globs.CompiledMeaning` | packages/executors/src/agent/tools.ts:162-190 | for every pattern and path the expression accepts exactly what the segment-wise glob means, with `**` inside one line |
| `Globs.WholeSegmentsIff` | packages/executors/src/agent/tools.ts:170-173 | the stretches `**/` stands for are zero or more whole segments |
| `Globs.PromiseKeptIff` | packages/executors/src/agent/tools.ts:157-190 | the paths on which every pattern means what the dialect says are exactly those without a line terminator |
| `CmdQuotes.ReadUndoesQuote` | packages/executors/src/spawn.ts:148-204 | for any tokens, a quote-aware reader recovers them from the quoted line |
| `CmdQuotes.CommandIsGuarded` | packages/executors/src/spawn.ts:139-163 | every separator and redirection has an odd number of quotes before it, and quotes balance |
| `CmdQuotes.ResolveSpawnInvocation` | packages/executors/src/spawn.ts:172-212 | batch calls are refused exactly for an argument with %, !, CR or LF, naming the first; otherwise the line reads back as executable and arguments, guarded; everything else is passed through |
| `CmdQuotes.BatchIff` | packages/executors/src/spawn.ts:177 | a name is a batch file's exactly if it ends in .cmd or .bat in any case |
| `CmdQuotes.BareIff` | packages/executors/src/spawn.ts:147-163 | a token is left bare exactly if it is not empty and has no white space, quote or metacharacter |
| `CmdQuotes.UnescapableIff` | packages/executors/src/spawn.ts:139 | a text cannot be quoted exactly if it has a %, !, CR or LF |
| `CmdQuotes.BuiltLineIsBadIff` | packages/executors/src/spawn.ts:177-207 | a built line has a character quotes cannot hold exactly when the executable's name has one |
| `CmdQuotes.BatchNameSlipsThrough` | packages/executors/src/spawn.ts:177-207 | `%.cmd` is such a name, with any arguments that pass the check |
| `Truncation.DecodeUtf8Capped` | packages/executors/src/truncation.ts:19-31 | the back-off loop cuts at the greatest index not past the cap that is no continuation byte |
| `Truncation.CappedIsPrefix` | packages/executors/src/truncation.ts:14-31 | on any bytes the capped text is an initial stretch of the whole text, so no cut adds a replacement character |
| `Truncation.CapOfWellFormed` | packages/executors/src/truncation.ts:14-31 | on well-formed input it is the longest stretch of characters whose encoding fits |
| `Truncation.TruncateChars` | packages/executors/src/truncation.ts:38-48 | cuts to the budget, minus a lone high surrogate, and appends the ellipsis |
| `Truncation.TruncatedIsWellFormed` | packages/executors/src/truncation.ts:33-48 | a well-formed string stays well formed and no longer well-formed stretch would fit |
| `Capture.KeptIsEnough` | packages/executors/src/spawn.ts:219-239 | reporting from the bytes kept is reporting from the whole stream |
| `Capture.CappedStreamCollector.Push` | packages/executors/src/spawn.ts:219-230 | whatever the chunks, at most the cap plus four bytes are kept, and they start the stream |
| `Capture.CappedStreamCollector.Text` | packages/executors/src/spawn.ts:232-239 | the text is the capped decoding of the full stream, with the marker exactly on overflow |
| `Configs.NormalizeLegacyConfig` | packages/daemon/src/config/config-normalize.ts:45-128 | the loops with their merging of entries compute the rewrite whose output the results on `ConfigMeanings` describe |
| `ConfigMeanings.CatalogNames` | packages/daemon/src/config/config-normalize.ts:45-128 | for every input without a catalog: a catalog is made exactly if some model is named, its ids are exactly those of the well-formed advisory items and the inline endpoints |
| `ConfigMeanings.CatalogSays` | packages/daemon/src/config/config-normalize.ts:49-126 | unless the two executors name one model on different servers, each id is there once, with the largest window given anywhere for it, the last label given, and the server and key of the endpoint that names it |
| `ConfigMeanings.RestIsKept` | packages/daemon/src/config/config-normalize.ts:88-128 | every other key keeps its value, every other executor its settings, and a rewritten one names its old model and keeps its allowlist and nothing else |
| `Configs.Add` | packages/daemon/src/config/config-normalize.ts:51-86 | a repeated id merges into its first entry, or is appended when the servers differ |
| `Configs.NormalizeIsIdempotent` | packages/daemon/src/config/config-normalize.ts:45-128 | normalising twice equals normalising once, for every JSON value |
| `Configs.DuplicateIdsAreAmbiguity` | packages/daemon/src/config/config-normalize.ts:59-82 | a duplicate catalog id arises exactly when both executors name one model on different servers or keys |
| `Catalogs.BuildCatalog` | packages/daemon/src/node/catalog.ts:35-68 | the loop builds the map from id to entry, label and window carried over, default endpoint filled in: an entry for every model and no other |
| `Catalogs.MeaningPreserved` | packages/daemon/src/config/config-normalize.ts:103-126 | when the rewritten file is accepted, an unnamed job resolves to the old endpoint's server, key and model with a window at least as large |
| `Catalogs.ResolveIs` | packages/daemon/src/node/catalog.ts:81-146 | a job that needs a model goes to the one it names, else its kind's default, else the only one there is, with that entry's server, key and window; it is refused, naming what is missing first, exactly if the model is not offered, has no server or too small a window |
| `Rollouts.SelectIsExact` | packages/daemon/src/upgrade/rollout.ts:225-315 | the peers of a new rollout are exactly the nodes named, or with none named the reachable ones strictly below the target by number, in the directory's order; they start pending, or unreachable if named and without an address; this node is pending exactly if wanted and strictly below the target |
| `Rollouts.BeginIsInitial` | packages/daemon/src/upgrade/rollout.ts:220-252 | every rollout starts running, its peers pending or without an address, its self step pending or skipped |
| `Rollouts.ExecuteGood` | packages/daemon/src/upgrade/rollout.ts:317-428 | over all answers: before the current peer all passed, after it all are untouched, and the end is one of the listed kinds |
| `Rollouts.OnePeerAtATime` | packages/daemon/src/upgrade/rollout.ts:323-341 | at no moment are two peers pushing or restarting |
| `Rollouts.HarmStopsTheRollout` | packages/daemon/src/upgrade/rollout.ts:330-340 | a peer that rolled back, failed or timed out leaves every later peer untouched and this node not upgraded |
| `Rollouts.SelfGoesLast` | packages/daemon/src/upgrade/rollout.ts:343-358 | this node's upgrade is asked for at most once, only after every selected peer succeeded, refused, was too old or unreachable; peers are pushed to at most once each, in order |
| `Rollouts.StaleRecordNeverStops` | packages/daemon/src/upgrade/rollout.ts:369-423 | over all runs in which no peer brings a failure record other than the one known of it before the push, no peer is taken to have failed or rolled back |
| `Rollouts.BeforeIsKnown` | packages/daemon/src/upgrade/rollout.ts:368-380 | over all runs the record a peer's answers are compared with is what the directory said of it, or else what it answered when asked before the push |
| `Rollouts.PeerIsJudged` | packages/daemon/src/upgrade/rollout.ts:402-427 | a restarting peer succeeds on the target, fails on a new record for it, and times out at the deadline, exactly |
| `Rollouts.PushIsJudged` | packages/daemon/src/upgrade/rollout.ts:380-397 | a push answered by 404 is too old, by another error refused, not at all unreachable, each with its reason; an accepted one is waited for |
| `Rollouts.WaitIsBrokenOff` | packages/daemon/src/upgrade/rollout.ts:261-345 | an abort while waiting stops the rollout and says so; an error thrown while waiting fails exactly the peer waited for, with its message |
| `Rollouts.SelfIsJudged` | packages/daemon/src/upgrade/rollout.ts:347-358 | a self upgrade under way leaves the rollout running, a refused one ends it with the reason |
| `Rollouts.PollsAreBounded` | packages/daemon/src/upgrade/rollout.ts:396-423 | if each sleep moves the clock by the poll interval, no peer is polled more than the wait divided by it, rounded up |
| `Rollouts.AbortIsFinal` | packages/daemon/src/upgrade/rollout.ts:205-217 | after an abort no further peer is turned to and this node is not upgraded |
| `Rollouts.RestoreIsIdempotent` | packages/daemon/src/upgrade/rollout.ts:141-170 | a restored status never says running, restoring again changes nothing, and a settled self step stays settled |
| `Rollouts.RestoreIsExact` | packages/daemon/src/upgrade/rollout.ts:141-170 | a restarted daemon on or past the target has succeeded; otherwise a failure record for the target since the start decides, and its reason; otherwise the step stays as saved |
| `FleetRollouts.FleetRollout.RolloutPeer` | packages/daemon/src/upgrade/rollout.ts:362-428 | working on one peer, with its poll loop, takes the machine to the next peer or to its end |
| `FleetRollouts.FleetRollout.AwaitPeer` | packages/daemon/src/upgrade/rollout.ts:396-427 | the poll loop is the machine's sleeping and checking |
| `FleetRollouts.FleetRollout.RunAll` | packages/daemon/src/upgrade/rollout.ts:257-359 | the whole loop with its catch handler ends with the machine's status on the same answers |
| `FleetUpgrades.StepKeepsInv` | packages/daemon/src/upgrade/fleet-upgrade.ts:69-180 | every step keeps one holder at most, the flags that say so, and the history in order |
| `FleetUpgrades.OneRollout` | packages/daemon/src/upgrade/fleet-upgrade.ts:72-101 | over all interleavings at most one rollout is being started or is running, and the surface is busy exactly while one is |
| `FleetUpgrades.LetGoBeforeNext` | packages/daemon/src/upgrade/fleet-upgrade.ts:97-149 | before another fleet request is accepted, or a self upgrade begins, the one accepted before has failed or its rollout has ended |
| `FleetUpgrades.FreeAfter` | packages/daemon/src/upgrade/fleet-upgrade.ts:75-149 | the surface is free again once the rollout's loop has ended and its request has returned, in either order; not if the rollout handed the node over |
| `FleetUpgrades.NoSelfBesideRollout` | packages/daemon/src/upgrade/fleet-upgrade.ts:161-173 | a self upgrade asked for here never begins while a rollout is starting or running |
| `FleetUpgrades.SelfCameFirst` | packages/daemon/src/upgrade/fleet-upgrade.ts:97-101 | where a self upgrade and a rollout are both under way, the self upgrade began first |
| `FleetUpgrades.RolloutBesideSelf` | packages/daemon/src/upgrade/fleet-upgrade.ts:97-101 | a run of two requests after which both are under way |
| `FleetUpgradeSurfaces.FleetUpgradeSurface.StartFleet` | packages/daemon/src/upgrade/fleet-upgrade.ts:97-149 | under any interference at its awaits and for all answers: refused exactly while a rollout is starting or running, or for a node not paired; otherwise it gives `starting` up at its end, with a rollout begun exactly if every answer was good |
| `FleetUpgradeSurfaces.FleetUpgradeSurface.UpgradeSelf` | packages/daemon/src/upgrade/fleet-upgrade.ts:161-178 | refused exactly while a rollout is starting or running |
| `Coordinators.StepKeepsInv` | packages/daemon/src/upgrade/coordinator.ts:127-345 | every step keeps ownership, hand-over, lock use and history in order |
| `Coordinators.SingleFlight` | packages/daemon/src/upgrade/coordinator.ts:116-151 | at most one run, local or pushed, is inside `runUpgrade`, and the node is busy while one is |
| `Coordinators.BusyDropsOnlyOnFailure` | packages/daemon/src/upgrade/coordinator.ts:127-135 | busy never drops between claim and hand-over; only a failed run that settles lets go |
| `Coordinators.UpdaterStartsOnce` | packages/daemon/src/upgrade/coordinator.ts:225-235 | the updater is started at most once and nobody claims the node after |
| `Coordinators.FailedRunReleased` | packages/daemon/src/upgrade/coordinator.ts:189-229 | a failed run that took the lock has released it once, and holds it still only if that very removal failed; a successful one leaves it to the updater |
| `Coordinators.LockCanStick` | packages/daemon/src/upgrade/coordinator.ts:189-229 | a run that fails after taking the lock, and cannot remove it, ends with the node free and the lock still there |
| `Coordinators.NoClaimInShutdown` | packages/daemon/src/upgrade/coordinator.ts:138-151 | once the daemon is shutting down nobody claims the node any more, in any run |
| `Coordinators.OutcomeBeforeNextClaim` | packages/daemon/src/upgrade/coordinator.ts:328-343 | between two claims the first run has failed and let go, a pushed one after the attempt to write its outcome |
| `UpgradeCoordinators.UpgradeCoordinator.RunUpgrade` | packages/daemon/src/upgrade/coordinator.ts:153-236 | for all answers and under any interference at its awaits the run keeps the claim; it hands over exactly if the daemon can restart, it got the lock, and every answer was good |
| `UpgradeCoordinators.UpgradeCoordinator.UpgradeSelf` | packages/daemon/src/upgrade/coordinator.ts:127-135 | refused exactly when busy or shutting down; otherwise ends with the claim dropped, handed over exactly if the run succeeds on its answers |
| `UpgradeCoordinators.UpgradeCoordinator.AcceptRemote` | packages/daemon/src/upgrade/coordinator.ts:246-345 | a push is accepted exactly if enabled, the daemon can restart, it is verified, the lock is free, and the node is neither busy nor shutting down at either check, under any interference while the lock file is read; an accepted one is answered holding the claim, its run under way |
| `UpgradeCoordinators.UpgradeCoordinator.RunInBackground` | packages/daemon/src/upgrade/coordinator.ts:328-343 | what an accepted push goes on to do ends with the claim dropped, handed over exactly if the run succeeds on its answers, a failure written first |
| `ToolLoops.RunToolLoop` | packages/executors/src/agent/loop.ts:108-274 | whatever the model, tools, clock and signal say, the loop terminates with a legal trace on exactly their answers and an outcome that fits its end: aborted exactly if the last reading of the signal says so and none before it did, no request is sent at or past the wall, and the wall outcome comes exactly of a reading at or past it |
| `ToolLoops.UndisturbedIsDecided` | packages/executors/src/agent/loop.ts:108-274 | with no abort, time left and a model that answers, the outcome is decided by the last reply and the budget of calls |
| `ToolLoops.InvokeTool` | packages/executors/src/agent/loop.ts:315-334 | a tool runs only if it is known and its arguments parse |
| `ToolLoops.ModelCallsAreBounded` | packages/executors/src/agent/loop.ts:134-273 | the model is called at most once more than the tool budget |
| `ToolLoops.EveryRequestIsAnswered` | packages/executors/src/agent/loop.ts:207-272 | at every model call each earlier turn's calls are answered one for one, at once and in order |
| `ToolLoops.TerminalNeverRuns` | packages/executors/src/agent/loop.ts:220-239 | a terminal tool is never executed, whether its arguments parse or not |
| `ToolLoops.EventsMatchTheBudget` | packages/executors/src/agent/loop.ts:240-268 | events come as tool_call and tool_result pairs, as many as calls were counted, within the budget |
| `Aggregators.RunKeepsInv` | packages/daemon/src/discovery/aggregator.ts:250-344 | over any sightings each entry is under its own key, no anonymous one shares an endpoint with an identified one, and at most 512 are kept |
| `Aggregators.IngestLookup` | packages/daemon/src/discovery/aggregator.ts:250-325 | an accepted sighting stands under its key with all it says, a name not said being the one known before, and changes no other entry but by absorption or eviction |
| `Aggregators.IngestIs` | packages/daemon/src/discovery/aggregator.ts:250-344 | a superseded sighting changes nothing; any other is in the table unless too old for a full one, and of the others only an anonymous one at its endpoint and the oldest over the cap go |
| `Aggregators.WritesIs` | packages/daemon/src/discovery/aggregator.ts:346-377 | a sighting is written to the registry exactly if it is of an identified node, not superseded, and not what was last written but for less than a minute |
| `Aggregators.SeedIs` | packages/daemon/src/discovery/aggregator.ts:167-174 | a registry entry read at startup stands with all it says, its time clamped to the clock, and is not written back |
| `Aggregators.KnownNameSurvives` | packages/daemon/src/discovery/aggregator.ts:297-312 | a name once known is never lost to sightings that lack one |
| `Aggregators.QueuedWithinIff` | packages/daemon/src/discovery/aggregator.ts:314-344 | remembered records stay within the entries exactly unless a sighting brings a new key to a full table older than all it holds |
| `Aggregators.SteppedBackClockLeaks` | packages/daemon/src/discovery/aggregator.ts:314-377 | a run of 513 sightings from the empty table, the clock stepping back before the last, after which a record is remembered of a node that is not there |
| `Aggregators.SightKeepsClose` | packages/daemon/src/discovery/aggregator.ts:346-377 | no sighting, in order or not, makes a remembered record differ from its entry by more than under a minute of time |
| `Aggregators.SeedKeepsCloseIff` | packages/daemon/src/discovery/aggregator.ts:167-174 | a registry entry read at startup keeps that exactly if it is not a minute or more ahead of the clock, or comes to a full table older than all it holds |
| `Aggregators.SeedAheadDrifts` | packages/daemon/src/discovery/aggregator.ts:92-107 | one entry a minute ahead of the clock breaks it |
| `Aggregators.QueuedMatchesEntries` | packages/daemon/src/discovery/aggregator.ts:161-182 | over runs that seed any number of registry entries, each once, and then sight in order, both hold throughout |
| `Aggregators.StableNodeWritesOnce` | packages/daemon/src/discovery/aggregator.ts:357-368 | any number of re-sightings of an unchanged node within a minute write nothing |
| `Aggregators.EndpointKeysAreInjective` | packages/daemon/src/discovery/aggregator.ts:257 | endpoint keys are as good as pairs, IPv6 hosts included, and are never a device id |
| `DiscoveryAggregators.DiscoveryAggregator.EvictOldest` | packages/daemon/src/discovery/aggregator.ts:327-344 | the scan removes the first entry with the least timestamp, and its remembered record |
| `DiscoveryAggregators.DiscoveryAggregator.IngestSighting` | packages/daemon/src/discovery/aggregator.ts:250-325 | ingesting is the specification's step while started and nothing otherwise |
| `DiscoveryAggregators.DiscoveryAggregator.Start` | packages/daemon/src/discovery/aggregator.ts:161-219 | start seeds the registry's nodes, reading the clock for each, then sights the configured ones, then holds the channels the configuration asks for; there is no second start |
| `DiscoveryAggregators.DiscoveryAggregator.UdpBound` | packages/daemon/src/discovery/aggregator.ts:210-219 | a port bound after a stop is not taken over |
| `DiscoveryAggregators.DiscoveryAggregator.Stop` | packages/daemon/src/discovery/aggregator.ts:226-248 | stop is idempotent, lets go of both channels and changes no entry |
| `Mdns.LabelFits` | packages/daemon/src/discovery/mdns.ts:96-124 | every label is at most 63 bytes and consists of whole characters of the name plus the suffix |
| `Mdns.TruncateInstanceLabel` | packages/daemon/src/discovery/mdns.ts:96-111 | the back-off loop cuts at the greatest character boundary that fits |
| `Mdns.RenamedLabelsDiffer` | packages/daemon/src/discovery/mdns.ts:117-124 | the labels of attempts two to ten are pairwise distinct |
| `Mdns.FirstLabelRepeatsIff` | packages/daemon/src/discovery/mdns.ts:117-124 | the first label equals a later one exactly if it fills the label and ends in that attempt's suffix |
| `Mdns.RenameCanKeepTheLabel` | packages/daemon/src/discovery/mdns.ts:352-362 | a concrete name for which the first rename keeps the label |
| `Mdns.RenamesAreBounded` | packages/daemon/src/discovery/mdns.ts:337-376 | over any order of browse results and timer fires there are at most nine renames and exhaustion is reported at most once |
| `Mdns.OnlyTheCurrentTimerRenames` | packages/daemon/src/discovery/mdns.ts:387-403 | a watchdog rename is caused only by the timer armed for the name then current |
| `Mdns.ConfirmedNameStays` | packages/daemon/src/discovery/mdns.ts:290-298 | once confirmed, or stopped, no timer renames the node, however late it fires |
| `Mdns.EchoConfirmsIff` | packages/daemon/src/discovery/mdns.ts:290-298 | of this node's own echoes only one of the current name disarms the watchdog |
| `Mdns.ExactlyOneRenames` | packages/daemon/src/discovery/mdns.ts:324-335 | of two nodes that see each other under one name exactly one renames, the one with the greater id |
| `Mdns.RenamesIff` | packages/daemon/src/discovery/mdns.ts:286-376 | a started node takes the next attempt's label, publishes and watches it exactly if a node with a smaller id has its name or the live watchdog fires, while the budget lasts; beyond it, it reports once |
| `Mdns.DisarmedIff` | packages/daemon/src/discovery/mdns.ts:290-403 | the watchdog is disarmed exactly by an echo of the current name, by firing, or by a stop |
| `Mdns.PickHost` | packages/daemon/src/discovery/mdns.ts:153-166 | the first IPv4 address, failing that the first address, failing that none |
| `Mdns.MdnsDiscovery.HandleServiceUp` | packages/daemon/src/discovery/mdns.ts:286-322 | a browse result is the machine's step: echo, collision or neither; it is handed on exactly if it is another node's and can be dialled |
| `Mdns.MdnsDiscovery.TimerFires` | packages/daemon/src/discovery/mdns.ts:390-401 | a timer callback is the machine's step, a no-op unless it is the live watchdog |
| `Mdns.MdnsDiscovery.RenameFor` | packages/daemon/src/discovery/mdns.ts:337-376 | a rename within the budget re-arms and publishes; beyond it, it only reports once |

## Left out

- JobManagers: timestamps on events and `elapsedMs`; ids are taken to be fresh (`randomUUID`).
- JobManagers: record objects are values in a map; aliasing between a record and the caller's copy is not modelled.
- JobManagers: a subscriber that leaves between the two appends of `finishJob` is modelled as leaving after them; subscriber callbacks re-enter only through unsubscribe, and a throwing callback is not modelled.
- JobManagers: the executor's promise (a resolved result is valid, terminal and carries the job's id) is taken from `packages/executors/src/executor.ts:76-84`; a resolver that throws synchronously is not modelled.
- JobManagers: the set of executors does not change while the manager runs, so the branch for one that vanished after submit is not modelled.
- JobManagers: the timer that bounds the wait of cancel may fire after any number of steps of others, which are an input; its length is not modelled.
- Sse: JSON is a library, modelled as any codec that renders on one line and parses its own output (`EventJson` is one, with arrays where the program has objects); bytes that no honest writer sends are decoded as WHATWG prescribes, but nothing is claimed about the events in them.
- PeerStreams: sockets, TLS pinning and idle timeouts; a connection may break at any byte instead. Numerals beyond the integers a double holds exactly.
- SerialStore: the trust store's table is abstract.
- KnownNodes: the temporary file's clean-up, and crashes between write and rename; a rename is atomic.
- Globs: the walk over the workspace and its limits; the reader refuses regular-expression forms the compiler never emits.
- CmdQuotes: cmd.exe itself; the reader splits on white space as the source's comment describes, not on cmd's other delimiters, and `safeSpawn` around it is not modelled.
- Capture: `safeSpawn`'s process handling; a string that is not well-formed UTF-16 is not an input of the byte side.
- Configs: JSON objects are maps, so results are up to the order of keys; a key set to `undefined` counts as absent; whatever else the schema refuses is not modelled, so results say "when the file is accepted".
- Catalogs: startup probing (`validateCatalog`) and the advertised list.
- FleetRollouts: a sleep takes at least its time and never less than a millisecond, as Node's timers do, unless the daemon is stopping; with a clock that stands still the program's own poll loop would not end. Saving and serving the status are left out.
- Rollouts: every property is of one rollout; that there is one at a time is `FleetUpgrades`. A version that is not `X.Y.Z` fails the schema before it reaches the selection.
- FleetUpgrades: what checking, preparing, reading and listing answer is an input, and a rollout's loop is its status only; a status restored from an earlier process is never running (`Rollouts.RestoreIsIdempotent`). The dialog's `prepare` changes no state.
- Coordinators: what resolving, downloading, verifying and the guards decide is an input; the lock is taken and released atomically, without stale-lock takeover; the delayed shutdown request is not modelled.
- ToolLoops: the text of tool results and argument summaries, the time left to a command, and completion tokens; tools do not reject, as their interface requires.
- Aggregators: `onCandidate` and what the channels do inside; entries are compared by value, and timestamps are numbers rather than ISO strings.
- Mdns: the backend, and convergence of several nodes; browse results do not arrive inside `publish`. Comparing labels without case is a parameter.
- Everything else in the repository: transport security, HTTP routing, the control server, MCP tools, dashboard, command line, workspace preparation, write executor, release verification and the updater. They are plumbing or library use, or would add only easy members.
