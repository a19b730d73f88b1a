# Houdry: a verified model of the control plane, the router and their helpers

This project models the parts of Houdry whose correctness no single function shows, and proves what
those parts promise. Verify with `dafny verify dfyconfig.toml` (Dafny 4.11).

## What is modelled

**Jobs, nodes and workers.** `JobStore.dfy` and `NodeStore.dfy` hold the two stores as classes over maps, every method
stated against a function of the table. `Scheduler.dfy` is node selection and the scheduling pass, `Resources.dfy` the
fit test. `Plane.dfy` has every handler twice: as a function of the plane's state and as a method on the two stores.
`Agent.dfy` is the worker loop. `Protocol.dfy` puts them together as one step relation in which every call may be
served and answered, served without the answer arriving, or lost; a heartbeat is composed in one step and served in a
later one; the worker may crash and the plane may restart from its files. `PlaneInvariant.dfy` and `Runs.dfy` prove
the joint invariant and what follows for whole runs, `Liveness.dfy` who stays in the pool, `Placement.dfy` whether a
job ever waits for a node that is free, `JobOrigins.dfy` what becomes of every order, `Leaving.dfy` exactly when a
leave can take a running job down, `LeavingRuns.dfy` runs in which it does.

**The router.** `Catalog.dfy`, `Routing.dfy`, `Ranking.dfy`, `Router.dfy` follow the source's own pieces;
`RouteGuarantees.dfy` states what every decision satisfies and what it does not depend on, `RightSizing.dfy` the
arithmetic of scores, `FittingModel.dfy` the choice of a model by size. `RouteFacts.dfy` says which pairs are offered
and at what score, `FitFacts.dfy` whom a job fits and `RowFacts.dfy` what each call leaves in the registry, in terms
of the rows' own fields. `RoutedJobs.dfy` joins router and scheduler: is a job that was routed to a node also
schedulable there?

**Self-contained algorithms.** `GpuMerge.dfy`, `GpuRows.dfy`, `GpuIdentity.dfy`, `GpuPromise.dfy`, `GpuNames.dfy`:
merging detector records. `FailoverOrder.dfy`, `Streaming.dfy`, `ChatAnswer.dfy`: failover, the event stream and the
completion collected from it. `Reasoning.dfy`: telling a reply's reasoning from its answer, on bytes (`Utf8.dfy`).
`EnrollLimiter.dfy`: the per-address limit, filtered in place. `EnrollTokens.dfy`: use-counted tokens.
`ModelIdentity.dfy`: model references. `Text.dfy`, `Lists.dfy`, `Deduplication.dfy` and `Gpu.dfy` are shared
vocabulary.

## Where the code does less than it says

Each of these is a theorem below, with an input for which the promise fails and the exact condition under which it
holds.

- A drain that finds a node DRAINING already clears its current job (`internal/server/store.go:206-208`), so a leave is
  then granted that fails the running job (`Leaving.DrainTwiceLosesTheJob`, `LeavingRuns.DrainTwiceRun`); the same
  happens to a node enrolled again while it works (`Leaving.JoinedNodeLeavesWhileRunning`, `LeavingRuns.EnrolledAgainRun`).
  `Leaving.SightInRuns` and `Leaving.LeaveFailsOnlyPending` say exactly when.
- A refused report has already changed the job it names (`internal/server/server.go:619-631`,
  `PlaneInvariant.RefusedReportChanges`). A report, join or heartbeat that contradicts itself breaks the safety invariant
  (`PlaneInvariant.ReportOfAnotherJobBreaks`, `PlaneInvariant.ReadyWithAJobBreaks`); which do not are
  `PlaneInvariant.ResultKeepsIff`, `PlaneInvariant.JoinKeepsIff`, `PlaneInvariant.HeartbeatKeepsIff`.
- The router's fallback takes no notice of the preferred runtime (`RouteGuarantees.FallbackOnWrongRuntime`), but the job
  is then pinned to that runtime on that node and may never start (`RoutedJobs.UnlistedRuntimeStaysQueued`); exactly when
  it is placed is `RoutedJobs.SelectedJobLandsIff`. The same theorem covers a node the caller names, which is not even
  looked up (`RoutedJobs.UnknownNodeStaysQueued`).
- The fallback depends on the order in which nodes are walked, which is map order, exactly when two eligible nodes hold
  the chosen model (`RouteGuarantees.FallbackOrder`, `RouteGuarantees.TwoHostsOrderMatters`, `RouteGuarantees.TwoHostsCase`).
- The comment at `internal/routing/router.go:278-280` says a warm model one tier up never beats the present
  exact-tier one. True up to a priority lead of 14 (`RightSizing.RightSizeWinsIff`), so for catalogs made from the
  inventory; the built-in catalog breaks it (`RightSizing.BuiltInCatalogOversizes`, `RightSizing.BuiltInCatalogCase`).
- The comment at `internal/routing/router.go:332` speaks of present models, and presence is never looked at
  (`FittingModel.PickIgnoresStates`, `FittingModel.AbsentModelIsPicked`); the pick is the present one exactly as
  `FittingModel.PickIsThePresentOneIff` says.
- The router gates on a full first GPU's total memory, the scheduler on what is left
  (`RoutedJobs.RoutedJobLandsIff`, `RoutedJobs.FullGpuIsRoutedButDoesNotFit`).
- `docs/GPU-discovery.md:73-75` says records that share a UUID or a PCI id are merged. That holds for every order of the
  detectors exactly when sharing is transitive (`GpuPromise.MergedInEveryOrderIff`); it fails for a PCI id in
  `GpuIdentity.DetectorOrderMatters` and for a UUID in `GpuPromise.SecondUuidIsLost`.
- `SplitThink` looks for its tags in the lower-cased reply and slices the reply itself
  (`internal/routerchat/service.go:369-381`). Where lower case takes more bytes the slice can panic
  (`Reasoning.LongerLowerCaseCrashes`), where it takes fewer the answer is cut in the wrong place
  (`Reasoning.ShorterLowerCaseMiscuts`); exactly when is `Reasoning.CrashesIff` and `Reasoning.PreambleComesApartIff`.
- The enrolment limiter reads the clock before it takes its lock; served out of order, it lets more through than its
  limit (`EnrollLimiter.LaggingReadingExceedsTheLimit`). For a given lag of the readings it is safe in exactly the spans
  of a minute less the lag (`EnrollLimiter.KeepsLimitIff`).

## Model

| member | source | states |
|---|---|---|
| `Runs.SafetyOfRuns` | internal/agent/agent.go:81-165 | in every reachable state of the plane with its workers, lost claim, heartbeat and result replies included: at most one job runs on a node, none on a READY one, only the current job on a BUSY one, and pending or running work sits on a registered node that is not OFFLINE |
| `Runs.ClaimHandsOutOnce` | internal/server/server.go:556-595 | over a whole run, plane restarts and lost replies included, no two claims hand out the same job |
| `Runs.RunEvolves` | internal/server/jobs.go:116-176 | over a whole run no job disappears, its rank queued < pending < running < terminal never drops, and its node is written at most once |
| `Runs.NoSharedWork` | internal/agent/agent.go:81-127 | no two live workers hold the same job, and nothing runs on a working node but the job its worker holds |
| `Runs.HeartbeatIsAuthoritative` | internal/server/server.go:330-334 | after any accepted heartbeat, whatever the plane believed: what runs on the node is exactly the named job if it was running there, the newly failed jobs are exactly the other running ones, pending ones stay |
| `Runs.JoinIsAuthoritative` | internal/server/server.go:281-287 | the same for a join |
| `Runs.DrainStepIff` | internal/server/store.go:76-251 | one step: a DRAINING node is still DRAINING afterwards exactly when the step is not a granted join, enrolment or leave of it, nor a sweep that finds it stale; calls refused or lost change nothing |
| `Runs.DrainHoldsIff` | internal/server/store.go:76-251 | over a run: a DRAINING node stays DRAINING through a stretch of it exactly when no such step falls in the stretch |
| `Runs.DrainHolds` | internal/server/store.go:140-160 | as long as none does, refused leaves and enrolments and lost calls notwithstanding, it is DRAINING in every state and its pending and running jobs only shrink |
| `Runs.DrainRefusesClaims` | internal/server/server.go:583-587 | meanwhile no claim of that node yields a job |
| `Liveness.LastSeenInRuns` | internal/server/store.go:113-171 | in every run a registered node was last seen at its last word: its last admitted join, heartbeat, report, drain, enrolment or renewal, or its last claim that got a job |
| `Liveness.SweepTakesTheSilent` | internal/server/store.go:228-251 | a sweep takes an agent OFFLINE, with all it has in flight failed for want of a heartbeat, exactly when it is not OFFLINE yet and was last seen more than twenty seconds ago; otherwise its row and its work in flight are untouched |
| `Liveness.HeardThenSpared` | internal/server/store.go:119-171 | a node that has just sent a heartbeat is untouched by any sweep within twenty seconds |
| `Liveness.JoinedThenSpared` | internal/server/store.go:76-117 | the same for one that has just joined |
| `Liveness.SweepsInRuns` | internal/server/store.go:228-251 | over runs: a sweep takes an agent exactly when its last word is more than twenty seconds old |
| `Liveness.PoolStepIff` | internal/server/store.go:228-251 | one step: a registered node that is not OFFLINE stays so unless a sweep finds it silent or its leave is granted |
| `Liveness.TalkersStay` | internal/agent/agent.go:129-165 | over runs: a node that never lets more than twenty seconds pass between its words, as sweeps see it, and is not granted leave stays registered and is never OFFLINE |
| `Protocol.StepKeeps` | internal/server/server.go:247-637 | every step of plane and workers keeps the joint invariant and moves jobs forward only |
| `Protocol.ClaimStepKeeps` | internal/server/server.go:556-595 | a claim, its reply seen or lost, keeps the joint invariant |
| `Protocol.BeatKeeps` | internal/agent/agent.go:129-165 | a heartbeat composed earlier and served now keeps the joint invariant |
| `Protocol.ReportKeeps` | internal/agent/agent.go:109-125 | a result report served while the worker still holds the job, and may go on sending heartbeats that name it, keeps the joint invariant |
| `LeavingRuns.DrainTwiceRun` | internal/server/store.go:206-208 | a run from the empty plane: a node joins, claims a job, is drained twice, and its leave is granted and fails the job while the worker is still at it |
| `LeavingRuns.EnrolledAgainRun` | internal/server/server.go:374-381 | a run with the same end: a working node is revoked, enrolled again and leaves |
| `Leaving.DrainTwiceLosesTheJob` | internal/server/store.go:206-208 | two drains in a row of a busy node let a leave through that fails its running job; one drain alone would have refused it |
| `Leaving.JoinedNodeLeavesWhileRunning` | internal/server/server.go:374-381 | a node enrolled again while it works is JOINED, and its leave fails the running job |
| `Leaving.SightStep` | internal/server/store.go:119-214 | one step: the plane knows what runs on a node afterwards exactly when the node has just spoken or gone, or the plane knew before and no drain has found the node other than BUSY while something ran |
| `Leaving.SightInRuns` | internal/server/store.go:119-214 | in every run the plane has lost sight of what runs on a node exactly when a drain found it other than BUSY while something ran there, with no admitted heartbeat, join or report of the node, no stale sweep and no leave since |
| `Leaving.BlindingDrains` | internal/server/store.go:206-208 | such a drain always finds the node DRAINING already or only JOINED |
| `Leaving.LeaveFailsOnlyPending` | internal/server/server.go:358-387 | in every run, a leave that is granted fails pending jobs only exactly when no such drain has happened with none of these since, and the node is not JOINED with its current job running |
| `Leaving.StatusesOfRuns` | internal/server/store.go:76-251 | in every run a node is JOINED, READY, BUSY, DRAINING or OFFLINE |
| `PlaneInvariant.JoinKeepsIff` | internal/server/server.go:247-288 | a join of any status naming any job moves jobs forward only, and keeps the safety invariant exactly when it does not say READY and name a job running there, say BUSY and name a running job other than the one in the row, or say OFFLINE with work left |
| `PlaneInvariant.HeartbeatKeepsIff` | internal/server/server.go:290-335 | a heartbeat of any status naming any job moves jobs forward only, and keeps the safety invariant exactly when it does not turn the node READY (saying so outside a drain, or saying nothing on a JOINED one) while naming a job running there, or OFFLINE with work left |
| `PlaneInvariant.ReadyWithAJobBreaks` | internal/server/server.go:247-335 | a join and a heartbeat that break it: READY, naming the job that runs |
| `PlaneInvariant.ReportOfAnotherJobBreaks` | internal/server/server.go:597-637 | a report that breaks it: a working node reports a job it does not run, and its row turns READY |
| `PlaneInvariant.ClaimKeeps` | internal/server/server.go:556-595 | a claim keeps the safety invariant; what it hands out is then the only job running on the node |
| `PlaneInvariant.ResultKeepsIff` | internal/server/server.go:597-637 | a report by any certificate on any job keeps the safety invariant exactly when it is refused, frees no registered node, frees a DRAINING one, or frees a node that runs nothing else |
| `PlaneInvariant.RefusedReportChanges` | internal/server/server.go:619-631 | a refused report leaves the registry and all other jobs alone but has finished the job it names, changing it unless it already looked exactly so |
| `PlaneInvariant.LeaveKeeps` | internal/server/server.go:358-387 | a leave keeps the safety invariant |
| `PlaneInvariant.DrainKeeps` | internal/server/server.go:337-356 | a drain keeps the safety invariant |
| `PlaneInvariant.SweepKeeps` | internal/server/server.go:173-187 | a sweep keeps the safety invariant: what it takes OFFLINE has nothing in flight afterwards |
| `PlaneInvariant.CreateKeeps` | internal/server/server.go:496-535 | creating and scheduling a job keeps the safety invariant |
| `PlaneInvariant.RestartKeeps` | internal/server/store.go:283-308 | reading both files back keeps the safety invariant and the job table |
| `RowFacts.HeartbeatLeaves` | internal/server/store.go:119-175 | after a heartbeat, field by field: what it reports takes the place of what was known, what it leaves blank stays, the profile shows each card, the node was last seen now, a certified node is active, and no other row has changed |
| `RowFacts.HeartbeatStatusLeaves` | internal/server/store.go:137-160 | a draining node mirrors its worker until it is reported OFFLINE, any other takes the status sent, and one that sends none comes back from JOINED and OFFLINE |
| `RowFacts.JoinLeaves` | internal/server/store.go:76-117 | the same for a join, of a known node and of a new one |
| `RowFacts.UpsertLeavesAStatus` | internal/server/store.go:76-117 | a row is never left without a status, and its time of joining stays |
| `RowFacts.EnrollLeaves` | internal/server/enroll.go:104-131 | enrolment makes the node JOINED with its certificate, keeps what is known of it and clears its inventory |
| `RowFacts.RenewLeaves` | internal/server/enroll.go:141-179 | a renewal changes the certificate and, of a certified node, the identity |
| `RowFacts.OldestFirst` | internal/server/jobs.go:131-155 | what a claim hands out is pending for the node and no other such job is older |
| `RowFacts.WorkLeaves` | internal/server/server.go:556-637 | a claim turns the node BUSY with the job, its report READY without one unless it drains; both are signs of life, and nothing else of any row changes |
| `RowFacts.DrainLeaves` | internal/server/store.go:196-214 | a drain is a sign of life and keeps the current job only of a node at work |
| `RowFacts.LeaveLeaves` | internal/server/server.go:358-387 | a leave removes the node and fails exactly what it had in flight |
| `RowFacts.RevokedChangesNothing` | internal/server/mtls.go:143-190 | no call of a revoked node changes the plane, and none of an unknown one but a join |
| `RowFacts.SuspendedGetsNoWork` | internal/server/mtls.go:143-190 | a suspended node can neither join nor claim |
| `RowFacts.OneCertificateAtATime` | internal/server/enroll.go:104-131 | a node that holds a certificate is not enrolled again until it is revoked |
| `RowFacts.AllowedCallsAreServed` | internal/server/server.go:247-637 | every other call is served, a leave unless the node is at work, a claim whenever it is READY and something is pending |
| `RowFacts.WorkerLearns` | internal/agent/agent.go:81-165 | a draining worker goes on draining, one that is not registered stops, and only a job handed to it makes it busy |
| `RowFacts.AsksForWorkIff` | internal/agent/agent.go:81-90 | a worker asks for work exactly when it is up and idle, neither draining nor removed, and no heartbeat is under way |
| `RowFacts.RestartLeaves` | internal/server/store.go:283-308 | reading the registry back keeps every row, but for a missing status or profile |
| `RowFacts.DisownedJobsFail` | internal/server/jobs.go:241-272 | the jobs a join or heartbeat disowns fail there and then and say why |
| `Placement.QueueIsQuiet` | internal/server/scheduler.go:5-18 | in every run no job waits in the queue that some node could take, unless a node’s standing was changed by the operator or a renewal and no pass has run since |
| `Placement.QuietAfterPass` | internal/server/server.go:173-335 | every admitted join and report, every heartbeat that leaves its node READY, every accepted order and every sweep leaves nothing placeable in the queue, whatever was there before |
| `Placement.ReinstatedNodeIsOverlooked` | internal/server/enroll.go:191-210 | a reinstated READY node may take a job that goes on waiting until the next pass |
| `Placement.RestartIsInvisible` | internal/server/store.go:283-308 | in every run a restart of the plane changes nothing at all |
| `JobOrigins.AcceptedIff` | internal/server/jobs.go:73-114 | an order is accepted exactly when its type is known and an inference has a model and a prompt; the job is the order, queued, asking for what was asked and for a GPU where nothing was |
| `JobOrigins.EveryChangeHasItsCause` | internal/server/jobs.go:73-272 | every step of a run changes a job for cause only: a claim begins it, its worker’s report ends it as reported, and nothing else starts it, lets it succeed or touches what was ordered |
| `JobOrigins.JobsAreAsOrdered` | internal/server/jobs.go:73-114 | in every run every job is one that was ordered, with its type, pin, payload, needs and time of creation |
| `Plane.Server.HandleJoin` | internal/server/server.go:247-288 | who may join, which refusal a body naming another node or none gets, and the whole state afterwards |
| `Plane.Server.HandleHeartbeat` | internal/server/server.go:290-335 | who may report, which refusal a body naming another node or none gets, the whole state afterwards, and the row answered |
| `Plane.Server.HandleDrain` | internal/server/server.go:337-356 | who may drain, which refusal a body naming another node or none gets, and the whole state afterwards |
| `Plane.Server.HandleLeave` | internal/server/server.go:358-387 | after the same checks, refused while BUSY or while DRAINING with a current job; otherwise the node is gone and its work failed |
| `Plane.Server.HandleClaim` | internal/server/server.go:556-595 | only a READY node in good standing is handed a job, one of its oldest pending ones, and becomes BUSY with it; otherwise nothing changes |
| `Plane.Server.HandleResult` | internal/server/server.go:597-637 | the result is recorded, the reporting node freed and the queue scheduled; a node mismatch is refused after the result was recorded |
| `Plane.Server.Sweep` | internal/server/server.go:173-187 | exactly the stale nodes go OFFLINE and exactly their work in flight fails |
| `Plane.Server.FailAll` | internal/server/server.go:173-187 | failing node by node is failing all work in flight of those nodes at once |
| `Plane.Server.HandleEnroll` | internal/server/enroll.go:104-131 | refused while the node holds a certificate that is not revoked; otherwise the node is JOINED and CERTIFIED |
| `Plane.Server.HandleSubmit` | internal/server/server.go:496-535 | a job for an unknown node or with incomplete requirements is refused; otherwise it is created and scheduled |
| `Agent.AgentProcess.TryClaim` | internal/agent/agent.go:81-127 | claims only when it holds no job and is neither draining nor removed; a reply is digested as the loop does |
| `Agent.AgentProcess.ComposeBeat` | internal/agent/agent.go:129-143 | the beat it sends is READY only without a job |
| `Agent.AgentProcess.DigestBeat` | internal/agent/agent.go:145-165 | a DRAINING answer starts a drain, a not-registered answer stops the worker, a failure changes nothing |
| `Agent.BeatTellsTheTruth` | internal/agent/agent.go:131-142 | READY exactly when idle and not draining, BUSY exactly when working and not draining, always naming the held job |
| `Jobs.JobStore.Open` | internal/server/jobs.go:274-296 | loading keeps the last job of each id and re-queues pending jobs without a node |
| `Jobs.JobStore.Save` | internal/server/jobs.go:298-313 | what is written lists every job once |
| `Jobs.JobStore.Create` | internal/server/jobs.go:73-114 | type, model and prompt are checked in this order; an accepted job is queued with normalized requirements |
| `Jobs.JobStore.Assign` | internal/server/jobs.go:116-129 | only a queued job becomes pending on the node |
| `Jobs.JobStore.Claim` | internal/server/jobs.go:131-155 | an oldest pending job of the node becomes running, or there is none |
| `Jobs.JobStore.Complete` | internal/server/jobs.go:157-176 | a known job becomes succeeded or failed whatever it was |
| `Jobs.JobStore.FailInFlight` | internal/server/jobs.go:241-272 | exactly the doomed jobs fail and their number is returned |
| `Jobs.JobStore.ListByStatus` | internal/server/jobs.go:198-211 | exactly the jobs of the status, oldest first |
| `Jobs.HistoryEvolves` | internal/server/jobs.go:73-313 | over any interleaving of store calls and restarts: no job lost, rank never decreases, node written at most once |
| `Jobs.ClaimedAtMostOnce` | internal/server/jobs.go:131-155 | over any such history no job id is returned by two claims |
| `Jobs.PersistenceRoundTrip` | internal/server/jobs.go:274-313 | loading any listing of a table gives the table back exactly when no pending job lacks a node |
| `Jobs.FromFileContents` | internal/server/jobs.go:274-296 | loading a list of distinct ids keeps every job, repaired, and invents none |
| `Jobs.RestartEvolvesIff` | internal/server/jobs.go:283-291 | a restart moves no job backwards exactly when no pending job lacks a node |
| `Nodes.Store.Open` | internal/server/store.go:283-308 | rows without an id are skipped and a later row replaces an earlier one |
| `Nodes.Store.Upsert` | internal/server/store.go:76-117 | the report, with what it left out taken from the row already there |
| `Nodes.Store.Heartbeat` | internal/server/store.go:119-175 | a draining node stays draining and mirrors the worker; any other takes the status sent |
| `Nodes.Store.SetStatus` | internal/server/store.go:177-194 | READY does not end a drain |
| `Nodes.Store.SetDrain` | internal/server/store.go:196-214 | DRAINING, the current job kept only if the node was BUSY |
| `Nodes.Store.MarkStaleOffline` | internal/server/store.go:228-251 | exactly the agents silent for more than 20 seconds go OFFLINE, and exactly they are returned |
| `Nodes.Store.List` | internal/server/store.go:253-261 | every node once, in some order |
| `Scheduler.SelectNode` | internal/server/scheduler.go:20-40 | whatever the order of the listing: the fitting node of highest score and then smallest id, "" exactly when none fits |
| `Scheduler.BestUnique` | internal/server/scheduler.go:20-40 | there is only one best node |
| `Scheduler.ChoiceIsBest` | internal/server/scheduler.go:20-40 | there is a best node exactly when some node fits and matches |
| `Scheduler.TrySchedule` | internal/server/scheduler.go:5-18 | the pass is the simultaneous placement of every queued job on its own best node |
| `Scheduler.PassIsIdempotent` | internal/server/scheduler.go:5-18 | a second pass at once places nothing more |
| `Scheduler.PassIsComplete` | internal/server/scheduler.go:5-18 | afterwards no queued job has a node that fits it, every placed job sits on its best node, no other job is touched |
| `FitFacts.FitsExactlyIff` | internal/server/resources.go:148-215 | for every node and every requirement, in terms of the row: READY, good standing, some card if a GPU is asked for, room on some card by its last live row or its size, the runtime and the model if one is named |
| `FitFacts.PassSpelledOut` | internal/server/scheduler.go:5-40 | job by job: a queued job goes to a node that can run it and that its pins allow, with the model nearest and then the smallest id, or stays queued when there is none; every other job is as it was |
| `FitFacts.NoGpuJobGoesAstray` | internal/server/resources.go:157-168 | no pass sends a job that needs a GPU to a node without one |
| `Resources.CheckFits` | internal/server/resources.go:148-215 | the map of live rows and the first-hit scan decide exactly the fit relation |
| `Resources.BuildProfile` | internal/server/resources.go:103-146 | one static and one dynamic row for each GPU, keyed by id or else UUID, free memory never negative |
| `Resources.LocalityRanksNodes` | internal/server/resources.go:228-247 | among fitting nodes a loaded model outranks one on disk, which outranks one to pull |
| `Resources.NormalizeKeepsKey` | internal/server/resources.go:71-101 | normalizing is idempotent and never changes the scheduling key |
| `ModelIdentity.ParseThenPrint` | internal/modelruntime/identity.go:25-56 | printing what was parsed gives the text back exactly for references whose ends and splitting colon no white space touches |
| `ModelIdentity.WhitespaceFreeIsClean` | internal/modelruntime/identity.go:25-56 | in particular for every white-space free reference |
| `ModelIdentity.PrintThenParse` | internal/modelruntime/identity.go:25-56 | a trimmed name and tag come back exactly when the tag has no colon or slash, or, without a tag, the name does not split |
| `ModelIdentity.Match` | internal/modelruntime/runtime.go:187-195 | a row that matches, or the news that none does |
| `ModelIdentity.PresenceIff` | internal/modelruntime/runtime.go:187-214 | a model is on the node, or in memory, exactly when the first row of its name, tag and runtime, case and outer blanks aside, says so |
| `Catalog.EntryForModel` | internal/routing/catalog.go:159-209 | the first known family the reference mentions gives the capabilities, the size class gives tier and priority |
| `Catalog.FamilyDecides` | internal/routing/catalog.go:123-145 | sight before code, code before thinking, thinking before general talk; only coders and general models without the former handle tools |
| `Catalog.EntryShows` | internal/routing/catalog.go:159-209 | tier and priority follow the parameter count, the need is the size |
| `Catalog.ToolCapableIff` | internal/routing/catalog.go:63-83 | tools by ability, or by name: a coder or one of four families, but never a tinyllama |
| `Routing.EffectiveProfileAsksForMore` | internal/routing/router.go:44-62 | tools and images raise the tier to at least medium, put tools among the needs, make an image a vision task; otherwise the analysis stands |
| `Routing.ScorePair` | internal/routing/router.go:188-305 | the gates on runtime, memory and presence, and the total of an allowed pair |
| `Routing.AddUp` | internal/routing/router.go:229-301 | the running total equals the sum of fit, overlap, bonuses, presence, busy penalty and priority |
| `Ranking.StableSortIsStable` | internal/routing/router.go:110-118 | a sorted rearrangement in which candidates of equal key keep their order |
| `Ranking.StableOrderIsUnique` | internal/routing/router.go:110-118 | any two sorted arrangements that keep ties in the same order are the same list, so any stable sort will do |
| `Ranking.InsertAllPermuted` | internal/routing/router.go:110-118 | ranking candidates of distinct nodes does not depend on the order of their arrival |
| `Router.Route` | internal/routing/router.go:43-144 | the loops, the sort and the fallback compute the decision |
| `Router.ScoreAll` | internal/routing/router.go:88-108 | exactly the allowed pairs, entry by entry and node by node |
| `Router.FallbackPresent` | internal/routing/router.go:146-179 | the first entry of highest priority that some eligible node holds, on the first such node |
| `RouteGuarantees.RankedExactly` | internal/routing/router.go:88-118 | the ranked list is sorted by score, priority and node id and holds exactly the eligible scored pairs |
| `RouteGuarantees.SelectedBeatsEveryPair` | internal/routing/router.go:140-143 | no eligible pair comes before the selected one, and one is selected whenever there is an eligible pair |
| `RouteGuarantees.GatesHold` | internal/routing/router.go:43-179 | every candidate, ranked or fallback: tool-capable when tools are required, able to see when the task needs it, present when pulls are out; ranked ones also able to serve the task, of sufficient tier, runtime and memory |
| `RouteGuarantees.SelectionIsListed` | internal/routing/router.go:73-86 | a selection is always one of the listed candidates, and a task that needs eyes is never given to a model without vision |
| `RouteFacts.CandidatesTakePart` | internal/routing/router.go:325-330 | every candidate, ranked or fallback, is on a READY node, or a BUSY one where that is allowed; a JOINED, DRAINING or OFFLINE node is never one |
| `RouteFacts.OfferedIff` | internal/routing/router.go:81-108 | among distinct nodes a pair is ranked exactly when the node takes part, the entry is up to the task and the node can hold it, each told of their own fields |
| `RouteFacts.RankedDescends` | internal/routing/router.go:110-118 | by score, then priority, then ascending node id |
| `RouteFacts.ScoreIs` | internal/routing/router.go:229-301 | the whole score of an offer, in points |
| `RouteFacts.IdleComesFirst` | internal/routing/router.go:296-299 | of two nodes alike but for one being BUSY the idle one comes first, by fifty points |
| `RouteFacts.CoderComesFirst` | internal/routing/router.go:257-260 | of two entries alike but that one can code, it comes first on a code task |
| `RouteFacts.FallbackIsBest` | internal/routing/router.go:146-179 | the fallback takes the first entry of the highest priority among chat entries that some node taking part holds, on the first such node; nothing exactly when there is none |
| `RouteFacts.DecisionIs` | internal/routing/router.go:43-144 | deferred, the best offer, the fallback or nothing: exactly when which |
| `RouteGuarantees.OrderOfNodesIsIrrelevant` | internal/routing/router.go:88-143 | for every permutation of the nodes the decision is the same, unless it is a fallback, and then entry and score are |
| `RouteGuarantees.FallbackOrder` | internal/routing/router.go:146-179 | a fallback is the same for every permutation exactly when only one eligible node holds the chosen model |
| `RouteGuarantees.TwoHostsSway` | internal/routing/router.go:155-176 | with two hosts of the chosen model the fallback names the first in one order and the second in the other |
| `RouteGuarantees.TwoHostsOrderMatters` | internal/routing/router.go:146-179 | so some order of the nodes gives another decision |
| `RouteGuarantees.TwoHostsCase` | internal/routing/router.go:146-179 | a request for which that happens, on nodes that both lack the preferred runtime |
| `RouteGuarantees.FallbackOnWrongRuntime` | internal/routing/router.go:155-176 | when no node lists the preferred runtime, a one-entry chat catalog selects the first node that holds the model, which lacks that runtime |
| `RouteGuarantees.FallbackIgnoresRuntime` | internal/routing/router.go:155-162 | what the fallback settles on does not depend on the preferred runtime |
| `RightSizing.Margin` | internal/routing/router.go:232-301 | a present exact-tier entry outscores an oversized one that covers the task no better, on a node as busy, by at least 15 plus the priority difference |
| `RightSizing.RightSizeWinsIff` | internal/routing/router.go:276-282 | in the closest call, cold exact tier against warm one tier up, the right size wins exactly when the other priority is less than 15 ahead |
| `RightSizing.InventoryRoutesAreRightSized` | internal/routing/catalog.go:182-202 | over a catalog made from the inventory, Route never selects the warm oversized model |
| `RightSizing.BuiltInCatalogOversizes` | internal/routing/catalog.go:43-59 | with the built-in catalog a warm 7B coder outranks the 3B general model on disk for a medium chat-and-reasoning task |
| `RightSizing.BuiltInCatalogCase` | internal/routing/catalog.go:43-59 | a node and a request for which that happens |
| `FittingModel.PickFittingModel` | internal/routing/router.go:335-387 | the scan computes the pick |
| `FittingModel.PickIsTheSmallest` | internal/routing/router.go:332-387 | the pick fits, no fitting model is smaller, and among equals it is the first listed |
| `FittingModel.NothingPicked` | internal/routing/router.go:383-385 | nothing is picked exactly when nothing suits |
| `FittingModel.PickIsLightest` | internal/routing/router.go:335-387 | in terms of sizes and the first catalog entry of a row: what is picked may be picked and is lightest among all that may, and something is picked whenever anything may |
| `FittingModel.PickIsThePresentOneIff` | internal/routing/router.go:332-387 | the pick is the smallest present model that suits, as the comment has it, exactly when no absent row that suits is ahead of every present one that does |
| `FittingModel.AbsentModelIsPicked` | internal/routing/router.go:332-387 | with the built-in catalog, or any that says nothing of either, an absent model is picked over a larger one that is present |
| `FittingModel.PickIgnoresStates` | internal/routing/router.go:332-337 | two inventories that differ only in the states of their models give the same pick |
| `RoutedJobs.NodesToViews` | internal/server/route.go:15-38 | one view for each node, showing the memory of its first GPU |
| `RoutedJobs.HandleRoute` | internal/server/server.go:419-494 | a blank prompt is refused; otherwise the decision over some listing of the registry is answered, moved to the preferred node if there is one, and, if the call executes, the job is created and scheduled from it or refused |
| `RoutedJobs.RoutedNodeIsReady` | internal/server/server.go:419-446 | the router points this handler at READY nodes only |
| `RoutedJobs.OrderCarries` | internal/server/server.go:461-488 | the order is an inference with the prompt as it came and the reference of the selected model |
| `RoutedJobs.RoutedFitsIff` | internal/server/resources.go:148-215 | a pair the router lets through fits exactly when the node is READY to the letter, in good standing and has room |
| `RoutedJobs.RoutedJobLandsIff` | internal/server/server.go:461-488 | after a ranked selection that the caller leaves where it is, the same handler leaves the job pending on the selected node exactly under that condition, and queued otherwise |
| `RoutedJobs.FitsIff` | internal/server/resources.go:148-215 | what the scheduler asks for an entry, told of the registry row: READY, good standing, the preferred or else the entry’s runtime listed, some GPU with usable memory enough, the model held under that runtime when it must be present |
| `RoutedJobs.SelectedJobLandsIff` | internal/server/server.go:444-488 | after any selection, ranked, fallback or moved to a node the caller names, the job is left pending on the selected node exactly when that node is registered and meets these conditions, and queued otherwise |
| `RoutedJobs.UnknownNodeStaysQueued` | internal/server/server.go:444-446 | a node the caller names is not looked up: the job for one that is not registered is accepted and stays queued for it |
| `RoutedJobs.UnlistedRuntimeStaysQueued` | internal/server/server.go:470-472 | a preferred runtime that no node lists leaves only a fallback, and its job stays queued |
| `RoutedJobs.FullGpuIsRoutedButDoesNotFit` | internal/routing/router.go:202-211 | a lone full GPU passes the router on its total memory and fails the scheduler |
| `RoutedJobs.ReportsMakeSoundInventories` | internal/server/server.go:247-335 | a join or heartbeat that reports distinct GPUs leaves the inventory the agreement needs |
| `RoutedJobs.SomeGpuHoldsUsable` | internal/server/resources.go:157-191 | the scheduler’s map of live rows sees each GPU’s own usable memory when ids are distinct |
| `EnrollLimiter.Filter` | internal/server/enroll.go:44-51 | the hits after the cut, in the same buffer, whatever it held before |
| `EnrollLimiter.Append` | internal/server/enroll.go:56-56 | one more hit, in the same buffer or a larger one |
| `EnrollLimiter.IpLimiter.Allow` | internal/server/enroll.go:40-58 | admits exactly when fewer than max hits are left in the window; no other address is affected |
| `EnrollLimiter.DecidesLikeAFullRecord` | internal/server/enroll.go:40-58 | each decision is that of a limiter which forgets nothing and counts the last minute |
| `EnrollLimiter.AtMostMaxInAnySpan` | internal/server/enroll.go:26-58 | if no reading is more than some lag behind one served before it, no address gets more than max attempts through in any half-open span of a minute less that lag |
| `EnrollLimiter.KeepsLimitIff` | internal/server/enroll.go:26-58 | over all runs with that much lag, the spans in which the limit is kept are exactly those of at most a minute less the lag, so whole minutes exactly without any lag |
| `EnrollLimiter.AtMostMaxInAnyMinute` | internal/server/enroll.go:26-58 | with readings that never go back, no address gets more than max attempts through in any half-open minute of any run |
| `EnrollLimiter.LaggingReadingExceedsTheLimit` | internal/server/enroll.go:41-43 | for every lag, a run that lets more than two attempts through a limit of two within a nanosecond more than a minute less the lag |
| `EnrollTokens.Store.Create` | internal/enrollment/store.go:61-86 | a record with the configured life and uses is added |
| `EnrollTokens.Store.Consume` | internal/enrollment/store.go:89-117 | the first record of the token decides: expired, used up, or one use less |
| `EnrollTokens.Conservation` | internal/enrollment/store.go:61-117 | for every record of every run: successes and uses left add up to the uses issued, never negative, consumed exactly at zero by the last success, no success after expiry |
| `EnrollTokens.TokenConservation` | internal/enrollment/store.go:61-117 | the same seen from a token: successes and uses left add up |
| `EnrollTokens.IssuedIsAnswered` | internal/enrollment/store.go:89-117 | a consume of an issued token is answered expired, already used or spent by its issue and the successes so far alone |
| `EnrollTokens.UnissuedIsRefused` | internal/enrollment/store.go:89-117 | an empty token is required, one never issued invalid |
| `EnrollTokens.FirstTriesSucceed` | internal/enrollment/store.go:61-117 | over any run a token succeeds exactly as often as it is tried in time, up to its uses: the first of these tries all succeed |
| `EnrollTokens.SuccessNeedsALiveIssue` | internal/enrollment/store.go:98-108 | a consume succeeds only with a token that was issued and has not expired |
| `GpuMerge.Richer` | internal/gpu/detect.go:143-186 | ids are kept once known and total memory is the larger one |
| `GpuMerge.RicherFills` | internal/gpu/detect.go:143-186 | every other field: kept when it says something, filled in when it does not |
| `GpuMerge.GenericIff` | internal/gpu/detect.go:188-192 | which names say nothing of a card |
| `GpuMerge.PutKeepsIndexed` | internal/gpu/detect.go:73-107 | the three indexes stay sound: a UUID points at its own row, a PCI id at a row that holds it, no name at a row without ids |
| `GpuRows.MergeGPUs` | internal/gpu/detect.go:65-118 | the loop over the growing rows and their indexes yields the merged rows |
| `GpuRows.RunIsMerged` | internal/gpu/detect.go:108-117 | every run of the merge ends in the merged table, so what holds of all runs holds of the result |
| `GpuRows.RunExists` | internal/gpu/detect.go:108-117 | every list of records has a run |
| `GpuRows.FirstSeenOrder` | internal/gpu/detect.go:108-117 | every record lands in exactly one row, and rows appear in the order of their first records |
| `GpuRows.MemoryIsTheMaximum` | internal/gpu/detect.go:162-166 | a row’s total memory is the largest of its records |
| `GpuRows.IdlessRowsStayAlone` | internal/gpu/detect.go:84-92 | a row has no ids exactly when a record without ids opened it, and then it holds that record alone, unchanged |
| `GpuNames.IdlessLandsWhere` | internal/gpu/detect.go:84-106 | a record without ids is folded into the row that last showed ids together with its vendor and name, and opens its own exactly when no row has or it does not say enough |
| `GpuNames.CopyByNameFolds` | internal/gpu/detect.go:84-92 | a card with ids and then the same by name alone is one row; two copies by name alone are two |
| `GpuNames.SameCardIff` | internal/gpu/detect.go:120-134 | vendor and name are the same card’s when both say enough and are equal, the name once cleaned up |
| `GpuNames.CaseIsNoMatter` | internal/gpu/detect.go:120-134 | letter case does not matter to a name |
| `GpuNames.UuidsAgreeIff` | internal/gpu/detect.go:73-83 | nor to a UUID |
| `GpuNames.PlainNameIs` | internal/gpu/detect.go:128-134 | a name without trade marks is cleaned up to lower case and single blanks |
| `GpuNames.WordByWord` | internal/gpu/detect.go:128-134 | blanks around and between the words of a name do not matter |
| `GpuNames.MarksAreNoMatter` | internal/gpu/detect.go:128-134 | nor does a trade mark behind it |
| `GpuNames.SameSlot` | internal/gpu/detect.go:136-141 | a slot is the same with its domain in eight digits, in four, or left out, in either case |
| `GpuIdentity.UuidsAreDistinct` | internal/gpu/detect.go:65-118 | no two rows have the same UUID, letter case aside |
| `GpuIdentity.UuidsMatchRowsIff` | internal/gpu/detect.go:73-83 | within a run of the merge: rows and UUIDs correspond one to one exactly when no record is put, by its PCI id, in a row of another UUID |
| `GpuIdentity.PciDistinctIff` | internal/gpu/detect.go:95-101 | the rows’ PCI ids are distinct exactly when no record brings a PCI id indexed elsewhere to a row that has none |
| `GpuIdentity.PcisMatchRowsIff` | internal/gpu/detect.go:79-101 | within a run of the merge: rows and PCI ids correspond one to one exactly when no record is put in a row of another PCI id or bridges two rows |
| `GpuPromise.MergedInEveryOrderIff` | docs/GPU-discovery.md:73-75 | records that share a UUID or a PCI id are in one row, whatever the order in which they are reported, exactly when sharing is transitive among them |
| `GpuPromise.TransitiveSharingSuffices` | docs/GPU-discovery.md:73-75 | then two records with ids are in one row exactly when they share an id |
| `GpuPromise.IntransitiveSharingBreaks` | docs/GPU-discovery.md:73-75 | otherwise some order of the same records leaves two that share an id in different rows |
| `GpuPromise.CommonPciSuffices` | internal/gpu/detect.go:65-118 | sharing is transitive when every record with an id has a PCI id and equal UUIDs come with equal PCI ids |
| `GpuPromise.SecondUuidIsLost` | internal/gpu/detect.go:143-186 | two cards reported in one slot, then the second by UUID alone: the last two share a UUID and get two rows |
| `GpuIdentity.DetectorOrderMatters` | docs/GPU-discovery.md:73-75 | one card seen by PCI id, by UUID and by both is one row or two, depending on the order of the detectors |
| `FailoverOrder.PlanAttempts` | internal/routerchat/service.go:303-323 | the selected candidate, then the ranked ones, without repeats, up to the limit |
| `FailoverOrder.AttemptOrderShape` | internal/routerchat/service.go:303-323 | the selected one is first, model@node keys are distinct, at most max(1, limit) are tried, and one is passed over only at the limit |
| `FailoverOrder.AttemptsKeepOrder` | internal/routerchat/service.go:303-323 | attempts keep the order of the ranking, each the first of its model and node |
| `Streaming.AnswerStream` | internal/routerchat/service.go:213-284 | what is emitted and how it ends, for every behaviour of the executor and of the caller’s context |
| `Streaming.InferMaybeStreaming` | internal/routerchat/service.go:288-299 | an executor that cannot stream delivers a non-empty reply as one delta, and nothing of a failure |
| `Reasoning.AnswerSurvives` | internal/routerchat/service.go:369-386 | short of a crash, folding the reasoning away leaves a blank answer only for a blank text |
| `Reasoning.PreambleComesApartIff` | internal/routerchat/service.go:367-386 | a tagged preamble that brings no closing tag of its own comes apart from the answer behind it exactly when lower-casing keeps the byte length of the preamble; the slice panics exactly when it lengthens it by more than the answer |
| `Reasoning.CrashesIff` | internal/routerchat/service.go:369-381 | the slices of the reply are out of range exactly when both tags are found in order in the lower-cased text and the closing one ends behind the end of the reply |
| `Reasoning.NeverLongerNeverCrashes` | internal/routerchat/service.go:369-381 | never for ASCII, nor for any text that lower-casing does not lengthen |
| `Reasoning.LongerLowerCaseCrashes` | internal/routerchat/service.go:369-381 | two letters U+023A between the tags and a one-letter answer: the slice panics |
| `Reasoning.ShorterLowerCaseMiscuts` | internal/routerchat/service.go:369-381 | a Kelvin sign between the tags: the answer keeps the end of the closing tag |
| `Reasoning.TagsDoNotOverlap` | internal/routerchat/service.go:370-380 | the closing tag cannot begin inside the opening one |
| `Utf8.SpacesInFront` | internal/routerchat/service.go:370-370 | what trimming takes off the front is encoded white space and nothing else |
| `Utf8.SpacesBehind` | internal/routerchat/service.go:370-370 | the same at the end |
| `Utf8.RunesAreEncoded` | internal/routerchat/service.go:371-371 | lower-casing takes the text rune by rune: a rune is as long as its encoding, whatever follows |
| `Text.LowerIs` | internal/modelruntime/identity.go:84-86 | exactly the twenty-six capitals change under lower-casing |
| `ChatAnswer.SuccessfulAnswer` | internal/routerchat/service.go:213-284 | a successful stream is decision, then deltas with a retry before each later attempt, then done; done carries the decision, answer and thought, model and node of the candidate that answered, and one attempt more than there were retries |
| `ChatAnswer.FailedAnswer` | internal/routerchat/service.go:222-284 | a failing stream never emits done |
| `ChatAnswer.RetriesTell` | internal/routerchat/service.go:231-256 | each retry names the model now tried and the failure of the one before it |
| `ChatAnswer.GivingUpTells` | internal/routerchat/service.go:283-283 | giving up names the last candidate and its failure |
| `ChatAnswer.CrashedAnswerIff` | internal/routerchat/service.go:258-258 | the stream breaks off without done or error exactly when the first attempt to answer says something that makes the split panic |
| `ChatAnswer.AllTriedBeforeGivingUp` | internal/routerchat/service.go:231-283 | the all-failed end comes exactly when every attempt failed and the caller never gave up |
| `ChatAnswer.CompletionIsTheWinners` | internal/routeropenai/openai.go:116-137 | the accumulator ends with the winning attempt’s answer, or its own deltas when that is empty, and no text of a failed attempt |
| `ChatAnswer.FinalTextIs` | internal/routeropenai/openai.go:121-137 | that text is the answer, or the reply as it came when the answer is blank |
| `ChatAnswer.ServeChat` | internal/routeropenai/openai.go:115-153 | the non-streaming handler answers with exactly that text and model, or with an error |
| `ChatAnswer.Collector.Emit` | internal/routeropenai/openai.go:121-137 | a delta appends, a retry clears, done replaces a non-empty answer |

## Left out

- HTTP, JSON, TLS, certificates, CSR signing, the revocation list, audit log, templates and installers: "the caller is
  node N" is a parameter of each handler; a revoked certificate is the node's REVOKED identity only.
- Locks inside a handler: each handler is one atomic step, each store method one atomic call; a listing that goes stale
  between two calls of one handler is not modelled.
- File-system failures and two processes over one data directory: each save is atomic and succeeds; `nodes.json` is the
  table itself, while the order of rows in `jobs.json` is arbitrary.
- Randomness: a new job's id is given and not in use; tokens are given, and `EnrollTokens.FreshTokens` says none is
  drawn twice. A token stands for its own hash.
- Clock: instants are integers in nanoseconds given to each call; two readings inside one call are one.
- The number of CPU cores and the inventory a report carries are given; detectors, runtimes and their clients are not
  modelled, nor is the refresh of the chat service's cluster view.
- The prompt analyzer's keyword matching and the parsing of parameter counts: the task profile and the size class are
  inputs.
- Text that only informs (reasons, hints, messages, metrics, host names) is dropped.
- Letter case is ASCII only in `Text.ToLower`, which serves names, ids and key words. A model's reply is lower-cased rune
  by rune in `Utf8.LowerBytes`, with the case of each rune beyond ASCII a parameter.
- Recovery from a panic: a stream that crashes just ends.
- Streaming.AnswerStream: events are a list handed over in order, not callbacks; the executor's behaviour and the
  context's state at each check are given by a function of the attempt number.
- ChatAnswer.ServeChat: the CAD pipeline and the artifact note are not modelled.
- The standard library's stable sort is modelled by a stable insertion sort (any other gives the same list:
  `Ranking.StableOrderIsUnique`).
- GpuPromise.MergedInEveryOrderIff: speaks of all orders of the records; for one given order, transitivity is enough and
  not shown to be needed.
- A worker of the model may have a report of the same job served more than once; the source sends one.
- Placement.QueueIsQuiet: one way; a change of standing counts as unsettling even where it lets no further job be placed.
- Worker removal: the plane answers an unknown node "not enrolled", which the worker does not take for "not registered",
  so its not-registered branches are modelled in `Agent` but never taken in `Protocol`.
- Chat completions that try several nodes for a free slot, catalog files, the dashboard, LAN discovery, CAD scripts:
  plumbing, or members that would add nothing harder.
