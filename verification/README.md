# Kyber: verified models of its stateful core

Kyber runs coding agents on Machines that it buys from a cloud provider. This project models the
parts of it where correctness depends on more than one branch of code: the two-group capacity
machines behind a cost-optimized Machine, the admission of Agents under a distributed lease, and the
small stateful programs around an agent (chat sidecars, archive reader, request gate, skill linker).

Code that works by changing things is written as classes and loops in the same order of branches; each
method is proved to compute what a specification function says of its inputs and its old state. The
claims about protocols and whole runs are then proved of those functions, and each function is also
characterised from outside, by if-and-only-ifs that do not repeat its branches. Where other replicas act in
the middle of a method, as they do while the lease is acquired or released, lemmas show that what the
method does is the pair of steps of which the runs are made.

| files | what they model |
|---|---|
| `Cloud`, `EksPair`, `EksAdapter` | one reconcile of an EKS Spot/reliable pair: the decision, its single cloud call, the adapter |
| `EksRun`, `EksNodes`, `EksFallback`, `EksRetry`, `EksDelete`, `EksAssumptions` | whole runs of that pair: safety, timing, retry, deletion, and what fails without each assumption |
| `EksReports`, `EksProgress` | what each report of the pair means, and what it gets done: Offline, a retry's attempt, a fallback |
| `GkeDelete` | deletion of a GKE pair, zonal or regional |
| `AgentCapacity`, `Budgets`, `CapacityLease`, `Admission`, `AdmissionRun`, `AdmissionLate` | the headroom computation and which requests are within it, the lease, every interleaving of callers that use both, and a write that comes too late |
| `DiscordText`, `DiscordSplit`, `DiscordMessage`, `DiscordFences` | splitting a message into chunks Discord accepts |
| `RangeCache` | random access to a remote archive through a block cache |
| `A2aJson` | the JSON gate of the A2A endpoint |
| `PollLoop`, `Albums`, `Callbacks` | the Telegram polling loop, the album collector, the one-shot button registries (also Slack's) |
| `SkillLinks`, `SkillResults`, `SkillSources`, `SkillRerun` | the skill linker |

## What is assumed

* **EKS runs.** A resize that is accepted, or swallowed as a conflict, took effect; a retry token is
  replaced only by a fresh non-empty one; nobody else deletes a group; Deleted is final. For the claims
  about Nodes, attachment is always observed and only a group of size one gains Nodes. For each of these
  but the finality of Deleted, `EksAssumptions` has a run from the initial state that drops it alone and
  breaks the claim. The threshold is positive, as `parseFallbackThreshold` guarantees.
  Not assumed: that cloud calls succeed, that the observation of a reconcile is saved, and, outside the
  claims that something completes, that ownership labels stay as they are.
* **Completion of an EKS retry or deletion, and of a GKE deletion.** The intent and the ownership of the
  groups stay, and enough reconciles succeed and need not wait for Nodes; any number of others may fail,
  go unobserved or have their status lost, in any order. For the deletions no Node joins. What never
  completes does so as long as Nodes leave only groups or pools that no longer hold them: a Node lost
  from the reliable group would let the deletion go on.
* **Admission.** Callers share one clock, read Agents uncached, and a write that lands does so before its
  lease term ends (`AdmissionLate.LateWriteOvercommits` shows why). The lease object is not
  deleted, and two Machines do not share a lease name. An edit that read an Agent on one Machine does
  not land on an Agent of that name re-created on another.
  Not assumed: fresh reads of the lease, answers that arrive, released leases, Agents that stay.
* **Archive.** The server answers a range request with a prefix of that range or of the whole archive.
* **Callbacks.** No token is drawn twice.
* **Skills.** Paths outside the runtime homes resolve the same throughout a run.

## Where the code does less than one might expect

* Deleting an EKS Machine during an ordinary fallback does not complete while the reliable group keeps
  its Node: the Spot group exists at size zero, and `deletePair` waits there for that Node to leave
  (`EksDelete.DeletedFallbackIsStuck`, `EksDelete.StuckForever`). Deletion completes exactly from the
  other states (`EksDelete.DeletionCompletesIffNotStuck`). The GKE pair has the analogous condition for
  a Node held by the pool that is not drained (`GkeDelete.DeletionCompletesIffNotStuck`,
  `GkeDelete.StuckIsPossible`).
* Draining a GKE pool does not ask whose pool it is; only its deletion does (`GkeDelete.DrainsExactly`,
  `GkeDelete.DeletesExactly`).
* A Machine that is wanted Offline before its EKS groups exist still gets a Spot group of size one first
  (`EksReports.CreatesExactly`).
* A report of Spot as Available whose status is not saved does not clear the unavailability clock, so
  Spot can be given up right after it (`EksFallback.UnsavedReportIsForgotten`).
* Once Spot is at zero, only a retry token brings it back; Offline and Online again does not
  (`EksNodes.SpotReturnsOnlyByRetry`).
* `splitByUTF16Limit` makes no progress for limits below two (`DiscordSplit.SmallBudgetStalls`).
* A flat skill file called `.md`, `..md` or `...md` makes the linker replace the runtime home, or the
  directory above it. A run keeps hand-written skills exactly when no source has such a
  file that the linker uses (`SkillResults.RestIsKeptIffTame`, `SkillResults.UntameIsPossible`).
* A second run of the linker need not end in the same homes: without such flat files, and with sources
  as directories list them, it does exactly when no link of an unprovided name led to a stale wrapper in
  another home (`SkillRerun.SecondRun`, `SkillRerun.SecondRunCanDiffer`).

## Model

| member | source | states |
|---|---|---|
| `EksAdapterImpl.EksAdapter.ReconcileCostOptimized` | pkg/adapters/compute_eks.go:318-485 | one reconcile changes the groups and answers exactly as `Decide` and `Effect` say, for every answer the cloud can give, and makes one cloud call, or none when it only reports |
| `EksAdapterImpl.EksAdapter.Retry` | pkg/adapters/compute_eks.go:372-421 | the manual-retry branches, with the stored retry clock |
| `EksAdapterImpl.EksAdapter.SteadyOrFallback` | pkg/adapters/compute_eks.go:422-484 | steady operation on Spot and the automatic fallback |
| `EksAdapterImpl.EksAdapter.ResizePair` | pkg/adapters/compute_eks.go:536-542 | a resize whose conflict answer is swallowed and reported as Recovering, other errors returned |
| `EksAdapterImpl.EksAdapter.DeletePair` | pkg/adapters/compute_eks.go:562-596 | Spot first, shrink before delete, delete only with zero Nodes observed, Absent when both are gone |
| `EksReports.StoppedExactly` | pkg/adapters/compute_eks.go:360-371 | a pair is reported Stopped if and only if it is wanted Offline, both groups are at zero and zero Nodes are observed |
| `EksReports.OfflineStops` | pkg/adapters/compute_eks.go:360-371 | over any run that stays Offline, two reconciles whose calls take effect bring both groups to zero for good, and once no Node is left an observed reconcile reports Stopped |
| `EksReports.AvailableExactly` | pkg/adapters/compute_eks.go:372-453 | when a pair is reported Available, and on which class: a serving Node on an active group, a retry just noticed, or one that ended |
| `EksReports.GoneExactly` | pkg/adapters/compute_eks.go:592-594 | deletion reports the capacity gone if and only if both groups are absent |
| `EksReports.CreatesExactly` | pkg/adapters/compute_eks.go:342-353 | a group is created if and only if one is missing and the Machine is not being deleted: Spot at one first, then reliable at zero |
| `EksReports.ForeignUntouched` | pkg/adapters/compute_eks.go:354-359 | a group that is not owned is never changed, one of the wrong class only by a deletion, and both make a reconcile report Failed |
| `EksReports.FailsExactly` | pkg/adapters/compute_eks.go:536-541 | a reconcile fails if and only if its call fails with no conflict, and not for the absence of what it deletes |
| `EksReports.ReasonsMatch` | pkg/adapters/compute_eks.go:447-484 | each state is reported with its own reason, and the notes go with the stored fields they explain |
| `EksProgress.GivesUpExactly` | pkg/adapters/compute_eks.go:454-471 | Spot is given up if and only if it has been unavailable for the threshold and nothing else is under way, and the fallback is then recorded |
| `EksProgress.ClockStarts` | pkg/adapters/compute_eks.go:454-461 | the first saved reconcile that finds Spot unavailable starts the clock |
| `EksProgress.FallbackCompletes` | pkg/adapters/compute_eks.go:438-445 | a fallback that has begun gets reliable capacity with the first effective reconcile that need not wait, keeps it, and then serves from it |
| `EksProgress.AttemptStep` | pkg/adapters/compute_eks.go:402-420 | before a retry's deadline an advancing reconcile removes reliable capacity and then asks for Spot, and a saved one that sees the Spot Node acknowledges |
| `EksProgress.RetryTriesSpot` | pkg/adapters/compute_eks.go:402-420 | over any run before the deadline, two advancing reconciles have Spot at one and reliable at zero, unless the token is acknowledged already |
| `EksRun.StepKeepsSizes` | pkg/adapters/compute_eks.go:318-485 | every step keeps the invariant; its core is that a recorded fallback with no retry pending means Spot is at zero |
| `EksRun.NeverBothUp` | pkg/adapters/compute_eks.go:402-421 | in every run the Spot and the reliable group never both have size one |
| `EksNodes.StepKeepsNodes` | pkg/adapters/compute_eks.go:435-445 | every step keeps Nodes of at most one group attached and a group of size one alone with its Nodes |
| `EksNodes.GrowsAlone` | pkg/adapters/compute_eks.go:472-479 | capacity is asked for only while no Node is attached and the other group is at zero or absent |
| `EksNodes.NodesNeverOverlap` | pkg/adapters/compute_eks.go:397-400 | in every run Nodes of both groups are never attached together, and every grow step starts from zero Nodes |
| `EksNodes.SpotReturnsOnlyByRetry` | pkg/adapters/compute_eks.go:417-419 | with Spot at zero and no retry pending, no run without a new token raises Spot again, whatever happens to the intent |
| `EksAssumptions.LostConflictBreaksSafety` | pkg/adapters/compute_eks.go:463-471 | for every positive threshold, a swallowed conflict without effect leads to both groups at size one |
| `EksAssumptions.WithdrawnTokenBreaksSafety` | pkg/adapters/compute_eks.go:373-373 | a token withdrawn during its retry leads to both groups at size one |
| `EksAssumptions.OutsideDeletionBreaksSafety` | pkg/adapters/compute_eks.go:342-347 | a Spot group deleted by somebody else comes back at size one beside live reliable capacity |
| `EksAssumptions.UnobservedAttachmentOverlaps` | pkg/adapters/compute_eks.go:438-444 | with attachment unobserved, Nodes of both groups can be attached |
| `EksAssumptions.LateNodeOverlaps` | pkg/adapters/compute_eks.go:435-437 | a Node that joins a group of size zero can meet one of the other group |
| `EksFallback.ClockChanges` | pkg/adapters/compute_eks.go:446-462 | a stored unavailability clock is kept, cleared or started at the present instant, and an Available report on Spot clears it |
| `EksFallback.SpotGivenUpOnlyAfterThreshold` | pkg/adapters/compute_eks.go:458-471 | whenever Spot is given up, some reconcile at least one threshold earlier had noticed it unavailable and no report of it as Available has been saved since |
| `EksFallback.UnsavedReportIsForgotten` | pkg/adapters/compute_eks.go:446-453 | why only saved reports count: for every positive threshold, a run in which Spot is reported Available unsaved and given up right after its Node leaves |
| `EksRetry.RollbackStep` | pkg/adapters/compute_eks.go:381-401 | after the deadline every step, failed calls and lost writes included, keeps the rollback due; a productive reconcile lowers its rank, nothing raises it, and a saved reconcile at the end acknowledges |
| `EksRetry.RollbackDescends` | pkg/adapters/compute_eks.go:381-401 | the pair of rank and Nodes in the way never grows, falls at every productive reconcile and every drain until the acknowledgement, and one of these can always be next |
| `EksRetry.RetryIsAcknowledged` | pkg/adapters/compute_eks.go:387-396 | after the deadline three productive reconciles, among any failed, unsaved or waiting ones, acknowledge the token with Spot at zero and reliable at one |
| `EksRetry.AcknowledgementMeaning` | pkg/adapters/compute_eks.go:387-413 | every acknowledgement, in any state, is of the pending token of a Machine wanted Online, and means either Spot restored with its Node or a completed rollback |
| `EksRetry.EveryRetryIsAnswered` | pkg/adapters/compute_eks.go:373-421 | from the request on: one saved reconcile, one threshold, three productive reconciles, and the token is acknowledged, whatever failed or was lost in between |
| `EksRetry.AcknowledgedOnce` | pkg/adapters/compute_eks.go:373-373 | no token is acknowledged twice in a run whose tokens are new |
| `EksDelete.DeletesOnlyEmptyGroups` | pkg/adapters/compute_eks.go:581-590 | a group is deleted only at size zero with zero Nodes observed |
| `EksDelete.StuckForever` | pkg/adapters/compute_eks.go:584-586 | while Nodes leave only groups that no longer hold them, a reliable Node behind an existing Spot group keeps deletion from ever finishing, whatever the cloud answers |
| `EksDelete.DeletedFallbackIsStuck` | pkg/adapters/compute_eks.go:571-586 | an ordinary fallback, then deleted, reaches that state |
| `EksDelete.DeletionCompletesIffNotStuck` | pkg/adapters/compute_eks.go:562-596 | rounds of draining and reconciling reach Absent if and only if the state is not stuck, and then within four |
| `EksDelete.DeletionCompletesInAnyOrder` | pkg/adapters/compute_eks.go:562-596 | in any interleaving in which no Node joins, calls may fail and status may be lost, a state that is not stuck stays so and four unblocked reconciles are enough |
| `GkeDelete.GkeAdapter.MutatePairSize` | pkg/adapters/compute_gke.go:604-625 | regional pools have autoscaling switched, zonal and already static pools are resized, conflicts swallowed |
| `GkeDelete.GkeAdapter.DeletePair` | pkg/adapters/compute_gke.go:639-673 | the drain of the effective or remaining pool, then deletion of Spot and reliable, with its error cases |
| `GkeDelete.DrainsExactly` | pkg/adapters/compute_gke.go:643-657 | with Nodes attached the named pool is drained, or the other one once that is gone: autoscaling off first if it is on, else size zero |
| `GkeDelete.DeletesExactly` | pkg/adapters/compute_gke.go:659-671 | with no Node left a pool is deleted if and only if it is the first that exists, owned and of its class; otherwise the pair is reported Failed |
| `GkeDelete.GoneExactly` | pkg/adapters/compute_gke.go:640-672 | the capacity is reported gone if and only if zero Nodes are observed and neither pool exists; unobserved, nothing is done |
| `GkeDelete.FailsExactly` | pkg/adapters/compute_gke.go:611-623 | a call fails on errors that are no conflict, and not for the absence of what is deleted |
| `GkeDelete.GrowsExactly` | pkg/adapters/compute_gke.go:605-620 | growing turns a regional pool's autoscaling on and sets a zonal pool to one |
| `GkeDelete.StuckExactly` | pkg/adapters/compute_gke.go:643-653 | a state is stuck if and only if the named pool still exists and the other one holds a Node |
| `GkeDelete.DeletesOnlyWithoutNodes` | pkg/adapters/compute_gke.go:643-667 | a pool is deleted only with zero Nodes observed on the Machine, and reliable only once Spot is gone |
| `GkeDelete.StuckStays` | pkg/adapters/compute_gke.go:643-658 | a Node held by the pool that is not drained stays, for every step and every cloud answer |
| `GkeDelete.StuckIsPossible` | pkg/adapters/compute_gke.go:643-653 | a well-formed pair, zonal or regional, with such a Node |
| `GkeDelete.AnyStep` | pkg/adapters/compute_gke.go:604-673 | no step but a joining Node adds to the remaining calls or makes a state stuck, an unblocked reconcile makes one of them, and a blocked one waits only for Nodes that are leaving |
| `GkeDelete.DeletionCompletesInAnyOrder` | pkg/adapters/compute_gke.go:639-673 | in any order of reconciles, failed, unobserved or not, autoscaling and Nodes leaving, a state that is not stuck stays so, and four unblocked reconciles leave neither pool |
| `GkeDelete.DrainRound` | pkg/adapters/compute_gke.go:604-625 | with Nodes attached, a round makes exactly one change to the draining pool: autoscaling off, then size zero |
| `GkeDelete.DeletionCompletesIffNotStuck` | pkg/adapters/compute_gke.go:639-673 | four or more rounds of quiet and one effective call, whatever it answers, reach Absent if and only if no Node is held by the other pool |
| `GkeDelete.NodesOfEffectiveClassNeverStuck` | pkg/adapters/compute_gke.go:643-653 | Nodes of the pool named by the effective class never block deletion |
| `AgentCapacity.GridIsExact` | pkg/api/agent_resource_policy.go:18-37 | a quantity is accepted if and only if it is a grid point from the minimum up: 50m from 100m, 128Mi from 128Mi |
| `AgentCapacity.AgentResourceHeadroom` | pkg/api/agent_resource_capacity.go:22-123 | the in-place computation returns exactly the specified headroom or the specified error |
| `AgentCapacity.StartingAmount` | pkg/api/agent_resource_capacity.go:28-46 | declared capacity, lowered or filled in by observed and assignable capacity per resource |
| `AgentCapacity.SubtractOthers` | pkg/api/agent_resource_capacity.go:50-57 | subtracts the requests of every other Agent of the Machine and counts them with the proposed one |
| `AgentCapacity.NodeBudget` | pkg/api/agent_resource_capacity.go:86-115 | what the Node has free plus everything the replaced pods request, less one overhead, or an error |
| `AgentCapacity.StartingWithinLimit` | pkg/api/agent_resource_capacity.go:28-46 | the starting amount never exceeds the declared capacity, or the observed one where none is declared |
| `AgentCapacity.HeadroomRespectsAllBudgets` | pkg/api/agent_resource_capacity.go:58-121 | a request within the headroom, with its overhead, also fits the Node's free capacity with the replaced pods reclaimed, and the published capacity less the other overheads |
| `Budgets.HeadroomExactly` | pkg/api/agent_resource_capacity.go:22-123 | a positive request is within the headroom if and only if, with its overhead, it fits what is declared, observed, assignable, published and free, each per resource |
| `Budgets.HeadroomFails` | pkg/api/agent_resource_capacity.go:23-94 | which error there is instead, if and only if: Machine not live, capacity unknown, Node unknown, Node or pods unreadable |
| `Budgets.PodByPod` | pkg/api/agent_resource_capacity.go:97-112 | pods are given back in any order, each its requests if and only if it is on the Node, unfinished and not being deleted |
| `Budgets.CreateAdmittedExactly` | pkg/api/routes_agents.go:1289-1328 | a create passes if and only if it is on the grid, there is headroom and it fits every budget |
| `Budgets.EditAdmittedExactly` | pkg/api/routes_agents.go:2562-2650 | an edit passes if and only if what changes is on the grid and, if anything grows, it fits every budget in its Agent's place |
| `Admission.ListSum` | pkg/api/agent_resource_capacity.go:50-79 | summing a fresh list in any order counts every other Agent and its overhead exactly once |
| `Admission.HeadroomLeavesRoom` | pkg/api/agent_resource_capacity.go:22-123 | a request within the headroom fits beside all other Agents and their overheads, whatever the published status and the Node say |
| `CapacityLease.Acquire` | pkg/api/agent_capacity_lease.go:19-66 | the loop only adds versions; success is a takeover of exactly the version read, free at that reading of the clock, within the deadline; a caller that only had to wait gets the lease at the first attempt that can; each error has its own cause |
| `CapacityLease.TryOnce` | pkg/api/agent_capacity_lease.go:36-66 | one turn of the loop leaves exactly the specified versions and answer, with a stale read and writes of others in between |
| `CapacityLease.TakeTurn` | pkg/api/agent_capacity_lease.go:30-66 | one round ends, goes on, or fails, each exactly when it should: it goes on if and only if the lease is held or the write was overtaken |
| `CapacityLease.TermsLastSixtySeconds` | pkg/api/agent_capacity_lease.go:44-46 | a lease taken is busy for exactly sixty seconds, and one without holder, time or length is free |
| `CapacityLease.Release` | pkg/api/agent_capacity_lease.go:67-77 | the closure clears the holder only of a latest version that names its own holder, and otherwise writes nothing; what it leaves is exactly specified |
| `AdmissionRun.AttemptIsTwoSteps` | pkg/api/agent_capacity_lease.go:36-66 | one turn of the loop is a read step and a write step of the protocol, with anything done by others in between |
| `AdmissionRun.ReleaseIsTwoSteps` | pkg/api/agent_capacity_lease.go:67-77 | a release is a read step and a write step of the protocol, with anything done by others in between |
| `AdmissionRun.OneOwner` | pkg/api/agent_capacity_lease.go:44-59 | at most one caller holds a committed, unreleased, unexpired term |
| `AdmissionRun.TakeoverWaits` | pkg/api/agent_capacity_lease.go:44-59 | a takeover that the version check lets through comes after every live term has ended |
| `AdmissionRun.ReleaseIsOwn` | pkg/api/agent_capacity_lease.go:67-77 | a release that lands clears only its own version, when nobody's term is live |
| `AdmissionRun.StepKeepsLease` | pkg/api/agent_capacity_lease.go:29-77 | every step of every caller keeps the lease invariant, with stale reads and lost answers |
| `AdmissionRun.MutualExclusion` | pkg/api/agent_capacity_lease.go:16-78 | in every run two callers inside with unexpired terms are the same caller |
| `AdmissionRun.CreateHasRoom` | pkg/api/routes_agents.go:1289-1328 | a create that passes the checks under the lease has room beside everything stored |
| `AdmissionRun.EditHasRoom` | pkg/api/routes_agents.go:2557-2650 | an edit that passes has room, whether it grows, shrinks, or grows one resource and shrinks the other |
| `AdmissionRun.WritesExactly` | pkg/api/routes_agents.go:2678-2682 | a create adds its Agent unless the name is taken, an edit changes its Agent if it is still there, and nothing else changes |
| `AdmissionRun.WriteFits` | pkg/api/routes_agents.go:2678-2682 | writing a request that had room in the snapshot keeps the Machine within its limit, although Agents left meanwhile |
| `AdmissionRun.StepKeepsStore` | pkg/api/agent_capacity_lease.go:16-18 | every step of the composed protocol keeps the Machine within its limit and the owner's reading good |
| `AdmissionRun.NoOvercommit` | pkg/api/agent_resource_capacity.go:22-84 | in every interleaving of creates, edits and deletes the requests of a Machine's Agents plus one overhead each stay within its limit |
| `AdmissionLate.LateWriteOvercommits` | pkg/api/agent_capacity_lease.go:16-24 | for every size an Agent may have, a run in which a checked caller outlives its term and its late write would put the Machine over its limit |
| `DiscordSplit.Utf16Units` | cmd/kyber-mcp-discord/message.go:129-138 | the loop counts the UTF-16 code units of the text |
| `DiscordSplit.FindCut` | cmd/kyber-mcp-discord/message.go:101-119 | the scan, with its byte offsets, finds the specified cut |
| `DiscordSplit.SplitByUtf16Limit` | cmd/kyber-mcp-discord/message.go:98-127 | the loop terminates for limits from two up and returns the specified pieces |
| `DiscordSplit.CutKeepsWords` | cmd/kyber-mcp-discord/message.go:107-119 | a cut inside a word is as long as fits, and every whitespace before it lies in the first half of its bytes |
| `DiscordFences.CutIsLast` | cmd/kyber-mcp-discord/message.go:113-119 | a cut after whitespace is after the last whitespace that fits |
| `DiscordFences.CutKeepsHalf` | cmd/kyber-mcp-discord/message.go:117-119 | no cut gives up more than half of the bytes that would fit |
| `DiscordSplit.SmallBudgetStalls` | cmd/kyber-mcp-discord/message.go:100-122 | below a limit of two there is a text on which an iteration changes nothing |
| `DiscordSplit.PiecesFit` | cmd/kyber-mcp-discord/message.go:100-126 | every piece fits the limit |
| `DiscordSplit.PiecesCover` | cmd/kyber-mcp-discord/message.go:120-125 | the text is the pieces in order, with only whitespace before, between and after them |
| `DiscordMessage.ScanFenceState` | cmd/kyber-mcp-discord/message.go:142-159 | the line loop folds the fence state over the lines of the text |
| `DiscordMessage.ScanJoin` | cmd/kyber-mcp-discord/message.go:142-159 | scanning two texts joined by a newline is scanning one and then the other |
| `DiscordFences.FencesExactly` | cmd/kyber-mcp-discord/message.go:143-147 | a line is a fence if and only if it begins, after whitespace, with three backticks |
| `DiscordFences.FenceLineScans` | cmd/kyber-mcp-discord/message.go:148-156 | a fence line closes an open block, or opens one with its trimmed language, cut to 32 bytes |
| `DiscordFences.OtherLineScans` | cmd/kyber-mcp-discord/message.go:145-147 | every other line changes nothing |
| `DiscordFences.TakeBytesIs` | cmd/kyber-mcp-discord/message.go:154-156 | a cut language is its first glyphs and the bytes of the next one that fit |
| `DiscordMessage.WrappedFits` | cmd/kyber-mcp-discord/message.go:78-90 | a part with its fences stays within the message limit, so the defensive split is unreachable |
| `DiscordMessage.WrappedIsBalanced` | cmd/kyber-mcp-discord/message.go:79-85 | a part with its fences, scanned alone from a closed state, ends closed |
| `DiscordFences.ChunkIs` | cmd/kyber-mcp-discord/message.go:78-86 | a chunk is its part, after a fence with the language if a block is open before it, and before a fence if one is after it |
| `DiscordFences.LanguageIsKept` | cmd/kyber-mcp-discord/message.go:79-81 | read from a closed state, a reopened block has the language it had |
| `DiscordMessage.SplitDiscordMessage` | cmd/kyber-mcp-discord/message.go:69-96 | the loop returns the specified chunks, fence state carried from part to part |
| `DiscordMessage.MessageChunks` | cmd/kyber-mcp-discord/message.go:69-96 | every chunk is non-empty, within 2000 units, closed when read alone, and is one part in its fences; the parts are the message |
| `RangeCache.AcceptedIsBlock` | cmd/kyber-disk-archive/main.go:309-318 | an answer that is accepted is exactly the block; a full-body answer is accepted if and only if the archive is that one block |
| `RangeCache.RefusedExactly` | cmd/kyber-disk-archive/main.go:304-318 | an answer is refused if and only if it is missing, cut, of another status or of another length; the block as partial content is always taken |
| `RangeCache.InsertKeepsSound` | cmd/kyber-disk-archive/main.go:321-326 | inserting keeps every cached block right, listed and at most four |
| `RangeCache.MissEvictsOldest` | cmd/kyber-disk-archive/main.go:321-326 | without concurrent fetches a miss evicts the oldest block and nothing else |
| `RangeCache.HttpReaderAt.Block` | cmd/kyber-disk-archive/main.go:289-328 | returns the block, and fails if and only if it is not cached and its answer is useless, whatever others insert meanwhile; a hit changes nothing |
| `RangeCache.HttpReaderAt.ReadAt` | cmd/kyber-disk-archive/main.go:330-347 | writes exactly the archive's bytes, leaves the rest of the buffer, reports end of file exactly when the archive ends first, fails only for a useless answer, and with none such reads all there is, whatever others store before each lookup and during each fetch |
| `A2aJson.Decoder.ValidateValue` | pkg/api/a2a_edge.go:156-216 | the recursive check succeeds exactly when one bounded value can be read, and consumes exactly its tokens |
| `A2aJson.Decoder.ValidateMembers` | pkg/api/a2a_edge.go:169-196 | the object loop, with its set of keys and its count, reads exactly the members |
| `A2aJson.Decoder.ValidateItems` | pkg/api/a2a_edge.go:197-211 | the array loop reads exactly the items |
| `A2aJson.ValidateA2aJson` | pkg/api/a2a_edge.go:141-154 | a body is accepted if and only if its tokens spell exactly one value within the depth, width and key bounds |
| `A2aJson.BoundedExactly` | pkg/api/a2a_edge.go:157-203 | the bounds, measured on the value: depth 32, width 256, no key twice in one object |
| `A2aJson.ReadIsSound` | pkg/api/a2a_edge.go:156-216 | what is read is a bounded value whose tokens are the ones consumed |
| `A2aJson.ReadIsComplete` | pkg/api/a2a_edge.go:156-216 | every bounded value is read back whole from its tokens, and nothing after it is touched |
| `A2aJson.SpellingIsUnique` | pkg/api/a2a_edge.go:156-216 | no token stream spells two bounded values, nor one and the beginning of another |
| `PollLoop.Poller.Settle` | cmd/kyber-mcp-telegram/main.go:325-352 | what follows an attempt keeps the loop's three variables in step with a plain queue, and abandons the batch exactly on a failure to be retried |
| `PollLoop.Poller.ProcessBatch` | cmd/kyber-mcp-telegram/main.go:302-365 | any answer of the server is worked off as the plain queue would, with at least one attempt, and the offset never drops |
| `PollLoop.Poller.Poll` | cmd/kyber-mcp-telegram/main.go:286-367 | for any arrivals, failed requests and batch sizes the loop makes exactly the attempts of the plain queue |
| `PollLoop.Fate` | cmd/kyber-mcp-telegram/main.go:302-355 | after any number of attempts each update is untried, in retry, handled exactly once, or given up after exactly five failures |
| `PollLoop.InOrder` | cmd/kyber-mcp-telegram/main.go:293-304 | updates are attempted in the order of their numbers |
| `PollLoop.AttemptsBounded` | cmd/kyber-mcp-telegram/main.go:325-341 | m updates are finished within 5 m attempts |
| `Albums.AlbumCollector.Add` | cmd/kyber-mcp-telegram/albums.go:46-70 | the map and the order list do what one list of albums does: append, open, or send the oldest to make room |
| `Albums.AlbumCollector.FlushLocked` | cmd/kyber-mcp-telegram/albums.go:78-93 | sends one album whole, or does nothing for a group that is not pending |
| `Albums.AlbumCollector.CloseAll` | cmd/kyber-mcp-telegram/albums.go:121-129 | sends every pending album in order and leaves none |
| `Albums.TakesExactly` | cmd/kyber-mcp-telegram/albums.go:49-64 | a message is taken if and only if the collector is open and no pending album of its group holds ten; otherwise nothing changes |
| `Albums.TimerSendsItsAlbum` | cmd/kyber-mcp-telegram/albums.go:72-93 | a timer sends the whole pending album of its group and nothing else, and does nothing if there is none |
| `Albums.EveryMessageIsKeptOnce` | cmd/kyber-mcp-telegram/albums.go:46-119 | in every history, late timers included, the messages taken of a group are those sent and then those pending, in order of arrival; at most 32 albums of one to ten messages are pending |
| `Albums.ClosedIsFinal` | cmd/kyber-mcp-telegram/albums.go:49-51 | after close everything taken has been sent, and nothing that follows changes anything |
| `Albums.EarlySendMakesRoom` | cmd/kyber-mcp-telegram/albums.go:57-59 | adding sends an album only when 32 are pending and a new group arrives, and it is the oldest |
| `Callbacks.CallbackRegistry.Register` | cmd/kyber-mcp-telegram/callbacks.go:80-123 | runs exactly the specified interleaving with other callers; succeeds exactly when every check passes, and otherwise takes its tokens back |
| `Callbacks.SucceedsExactly` | cmd/kyber-mcp-telegram/callbacks.go:81-103 | a call succeeds if and only if it has at most 100 buttons, each with a text and a value within the limits and a token drawn, and the keyboard encodes |
| `Callbacks.CallbackRegistry.TakeOut` | cmd/kyber-mcp-telegram/callbacks.go:138-151 | gives the entry to its own channel only, and removes it |
| `Callbacks.CallbackRegistry.RemoveForMessage` | cmd/kyber-mcp-slack/callbacks.go:103-111 | removes exactly the entries of one message |
| `Callbacks.EachTokenForItself` | cmd/kyber-mcp-telegram/callbacks.go:70-151 | in every history the list is the last 256 tokens made, live tokens are on it, and each token lives exactly as long as a record of that token alone says |
| `Callbacks.ConsumedAtMostOnce` | cmd/kyber-mcp-slack/callbacks.go:75-84 | in every history a token is given out at most once and is dead afterwards |
| `Callbacks.RegisteredAreLive` | cmd/kyber-mcp-slack/callbacks.go:28-73 | an uninterrupted successful call leaves all its tokens live, with their entries |
| `Callbacks.FailedLeavesNone` | cmd/kyber-mcp-telegram/callbacks.go:87-103 | a failed call leaves none of its tokens live, whatever others did meanwhile |
| `SkillLinks.Linker.LinkEverything` | cmd/kyber-skills/main.go:466-569 | the run over homes, sources and entries, with its early returns, ends in the specified homes |
| `SkillLinks.Linker.RemoveDanglingLinks` | cmd/kyber-skills/main.go:783-802 | takes out exactly the links that dangle, in whatever order they are visited |
| `SkillLinks.Linker.RemoveStaleWrappers` | cmd/kyber-skills/main.go:728-759 | takes out exactly the unmanaged wrappers whose skill is gone |
| `SkillLinks.ManagedSkillNames` | cmd/kyber-skills/main.go:706-726 | collects exactly the names that packages and flat files of the sources manage |
| `SkillResults.HopsSuffice` | cmd/kyber-skills/main.go:805-815 | following more than two links between the three homes changes no resolution, so circles and dangling links are all that fails |
| `SkillResults.CleanTakesDangling` | cmd/kyber-skills/main.go:467-475 | cleaning home after home takes out what dangled at the start, and resolves all else as before |
| `SkillResults.PutWorks` | cmd/kyber-skills/main.go:506-523 | after the loop over the homes each has the skill in place, although later homes change while earlier ones link to them |
| `SkillResults.LatestIsProvider` | cmd/kyber-skills/main.go:492-562 | the last skill put under a name is that of the last source with the name, a flat file only where that source has no package |
| `SkillSources.ProvidedExactly` | cmd/kyber-skills/main.go:497-540 | from a listing: a regular package is what its source provides; a flat file if and only if there is none and it is not called readme or index in any letter case |
| `SkillSources.ProviderIsLast` | cmd/kyber-skills/main.go:476-492 | the last source that provides a name decides |
| `SkillSources.ManagedExactly` | cmd/kyber-skills/main.go:706-726 | from a listing, which names are managed |
| `SkillResults.EveryHomeHasTheLatest` | cmd/kyber-skills/main.go:466-569 | after a run every provided name is in place in all homes; other entries go exactly when they dangled or were stale wrappers |
| `SkillSources.HomesAfterRun` | cmd/kyber-skills/main.go:466-569 | after a run every home leads to the provided package, or holds a wrapper that leads to the provided file; what nobody provides goes if and only if it was a dangling link or an unmanaged wrapper that dangles |
| `SkillResults.RestIsKeptIffTame` | cmd/kyber-skills/main.go:528-557 | hand-written skills survive every run if and only if no flat file is called `.md`, `..md` or `...md` |
| `SkillResults.UntameIsPossible` | cmd/kyber-skills/main.go:528-543 | one flat file called `.md` makes lawful sources that are not tame |
| `SkillRerun.PutAllTwice` | cmd/kyber-skills/main.go:509-515 | putting all skills in place a second time changes nothing, even when sources disagree about a name |
| `SkillRerun.SecondRun` | cmd/kyber-skills/main.go:466-569 | a second run ends in the same homes if and only if no link of an unprovided name led to a stale wrapper |
| `SkillRerun.SecondRunCanDiffer` | cmd/kyber-skills/main.go:563-567 | two homes on which the second run removes one more link |

## Left out

- AWS, GCP and Kubernetes clients, HTTP, MCP, HMAC, environment parsing, logging, the PWA and the scripts: I/O, present only as the answers they give.
- Ownership labels, launch templates, profiles, names and references of EKS groups and GKE pools, beyond owned or not and of the right class or not.
- A describe call that fails: the reconcile returns its error and changes nothing.
- The Machine controller, beyond copying the observation's stored fields into the next desired Machine; a reconcile of one Machine is one step, and stored times are not truncated to seconds.
- GKE steady operation, fallback and retry, the GCE adapter and the fake adapters: the GKE rollback may grow reliable capacity beside Spot, so the size claim does not hold there.
- `checkAgentResourceAdmission`, the resource-edit phase rules and the other handler checks between the headroom check and the write: present only as giving up.
- Clock skew between replicas and the waiting time between attempts: `AdmissionRun` has one clock and any interleaving.
- CapacityLease.Release: a read that fails is not told apart from a read that finds somebody else's holder, because both write nothing.
- Goroutines, locks and the delivery of album batches with its five attempts: methods run whole between holds of the lock, and a batch handed over counts as sent.
- The rendering of keyboards and blocks, and `get`, in the callback registries; Slack's refusal of a non-array value.
- The bytes behind a stray byte of a Discord message: it is one glyph of one byte and one UTF-16 unit, as the loops see it.
- The spelling of JSON tokens and numbers: the gate is modelled over the decoder's tokens.
- What `handleUpdate` does with an update, beyond succeeding or failing; restarts of the sidecar.
- Links from one runtime home to an entry of another name, links inside a wrapper that lead back into a home, and runtime homes that are themselves links; `linkLocalSkills` makes only links to the same name.
- The list of vendor directories and its sorting, and the count of relinked skills, in the linker; `linkLocalSkills`, imports, reports and git.
- Agent cards, archive tokens, metrics and mock adapters: thin wrappers.
