# A verified model of the delivery control plane

This project models, in Dafny, the decision-making core of the delivery system and proves what
it promises: the control plane's protocol of attempts, leases and locks; the scheduler that
orders stages and decides what may be queued; the memoizing goal resolver and its projection;
the ratchet's event log with the tables kept beside it; and the two readings of a writable-path
pattern, by the sandbox and by the container mounts.

`dafny verify dfyconfig.toml` checks everything.

## How it is built

| files | what they hold |
|---|---|
| `names.dfy`, `text.dfy`, `ids.dfy` | string order and sorting, trimming, identifiers printed with `%05d` |
| `kahn.dfy` | the reference order of a dependency graph, without counters or queues, and its graph theory |
| `counting.dfy`, `graph.dfy`, `components.dfy` | both Kahn sorts as they are programmed (in-degree tables, sorted ready queue), proved to compute the reference order |
| `model.dfy`, `plan.dfy`, `execution.dfy`, `scheduling.dfy` | stage specs, materialized plans, `Evaluate`, progress and the effect of queueing on later evaluations |
| `verdicts.dfy` | what an evaluation offers and decides, in the fields of specs and attempts |
| `protocol.dfy` | the control plane as a transition system over issues, runs, attempts, counters, plans, lock rows and the clock |
| `invariants.dfy`, `queueing.dfy`, `steps.dfy` | the inductive invariant, and that every step keeps it and forgets nothing |
| `safety.dfy`, `progress.dfy` | theorems about every reachable state and every run |
| `exclusion.dfy`, `lifecycle.dfy`, `outcomes.dfy` | the steps and the theorems in plain terms: which repositories a stage locks, which call gave an attempt its status or lease, what a reconcile does to run, labels and stages |
| `confluence.dfy`, `passes.dfy`, `idempotence.dfy` | reconciling in any order, and twice |
| `trust.dfy` | what callers must be trusted with, and that nothing less would do |
| `reach.dfy`, `single.dfy`, `stolen.dfy`, `witnesses.dfy` | histories from the empty state to states in which a promise fails because trust was broken or an approval given by label only |
| `locks.dfy`, `service.dfy` | the lock table, the store and the service as classes; each method is tied to its step of the protocol |
| `wellformed.dfy`, `client.dfy` | what every call keeps whoever makes it; any sequence of calls is a history of the protocol |
| `naive.dfy`, `resolver.dfy`, `projection.dfy` | the recursion without a ledger, the resolver with one, the projected graph |
| `findings.dfy`, `ratchet.dfy` | scans of the event log; the store's transactions and the ingestion service |
| `paths.dfy`, `mounts.dfy` | slash paths and globs; sandbox scopes and container mounts |
| `access.dfy`, `coverage.dfy` | which paths a pattern allows; exactly when a mount covers an allowed path |

The classes follow the source: their methods change fields in place and loop over maps in no
particular order. Each method's contract relates the state before the call to the state after
it by a predicate of the protocol, and the whole-run theorems are about those predicates. A
`History` is a sequence of such steps from the empty state; `Clients.Serve` makes any calls in
any order and is proved to record a history. A `Behaviour` is a history whose callers can be
trusted at every step, in the sense of `Protocol.Trusted`, and the safety theorems hold in
every state of every behaviour. What the functions shared by methods and protocol mean is stated
a second time, in the fields of the entities and without naming them, by `Verdicts`, `Exclusion`,
`Lifecycle`, `Outcomes`, `Access` and the lemmas that end `Findings`.

## Assumptions

The code does not enforce these, and the theorems say where they are used.

- There is one clock that never goes back. It may move between any two readings inside a call.
  The database compares `expires_at` with the same clock that the program reads.
- A call that touches locks commits: comments, journal writes and signals succeed. An error
  after the release at `internal/controlplane/service.go:433` would discard the state but not
  the release.
- A run's plan is not empty, and its stages have names that differ (`Protocol.Usable`).
- `Protocol.Trusted`: a run is created strictly later than the earlier runs of its issue; a plan
  is not replaced by another; a heartbeat revives no lease of an attempt that has lost a lock,
  which one before the expiry of the lease never does; a completion does not turn a success into
  something else. `Trust.TrustIsExact` proves that from a sound state this is exactly what it
  takes to stay sound and to forget nothing.
- Approval for confluence and idempotence means the approval gate. `normalizeLabels` strips the
  `delivery/approved` label, and `Witnesses` proves that for every issue approved by label only
  there is a reachable state in which two reconciles differ from one.
- Providers, the catalog's builds and the ledger's storage are arbitrary functions of the call.
  The goals that the one asked for depends on are acyclic, given as a rank that falls along
  dependencies; on a cycle the source does not end. Contract versions are ignored because every
  ledger and catalog ignores them.
- Findings are ingested one after the other: looking for an open proposal and creating one are
  not one transaction.

## Model

| member | source | states |
|---|---|---|
| Ids.IdsAreInjective | internal/store/store.go:95-98 | two counters of one prefix never print the same identifier |
| Ids.IdsSortAsNumbers | internal/store/store.go:97 | identifiers sort as their numbers if and only if the counter is at most 99999 |
| Ids.IdIsPrefixAndNumber | internal/store/store.go:95-98 | an identifier is its prefix, a dash and the digits of its number, with leading zeros up to five places only |
| Kahn.StuckIffDependsOnCycle | internal/pipeline/graph.go:38-54 | a node is never reached if and only if a dependency path leads from it into a cycle |
| Kahn.OrderIsTopological | internal/pipeline/graph.go:38-54 | on an acyclic graph the order has every node once, after all its dependencies |
| Kahn.OrderIsLeast | internal/pipeline/graph.go:38-50 | no topological order is lexicographically earlier |
| Kahn.NoLaterAntisymmetric | internal/pipeline/graph.go:38-50 | hence it is the only one that is least |
| Kahn.OrderWithCycles | internal/pipeline/graph.go:38-65 | with cycles the reached prefix is exactly the nodes with no path into a cycle, each after its dependencies, and the rest follow sorted by name |
| Kahn.AcyclicIffNothingStuck | internal/pipeline/graph.go:52-54 | nothing is left over exactly when the graph is acyclic |
| Counting.RecordAllCorrect | internal/pipeline/graph.go:21-29 | recording a spec's dependencies, repeated or dangling ones too, keeps in-degrees and dependents equal to what the lists say |
| Counting.DrainStep | internal/pipeline/graph.go:38-51 | placing the head of the sorted queue and telling its dependents takes the least available name of the reference order and leaves the tables right |
| StageGraph.CountDependencies | internal/pipeline/graph.go:21-29 | the tables after all specs have been counted |
| StageGraph.InitialReady | internal/pipeline/graph.go:31-36 | the ready queue starts with exactly the names of in-degree zero, in order |
| StageGraph.Drain | internal/pipeline/graph.go:38-51 | the loop places the reachable front of the graph, whatever specs it is given it ends |
| StageGraph.Leftover | internal/pipeline/graph.go:55-64 | the names not placed, in sorted order |
| StageGraph.SpecsInOrder | internal/pipeline/graph.go:9-66 | on distinct names the result is the reference order of the dependency graph |
| StageGraph.OrderedIsLeastTopological | internal/pipeline/graph.go:9-54 | on acyclic stages the result is the lexicographically least topological order |
| StageGraph.OrderIgnoresInputOrder | internal/pipeline/graph.go:9-66 | permuting the specs does not change the result |
| StageGraph.OrderIdempotent | internal/pipeline/graph.go:9-66 | ordering an ordered list changes nothing |
| StageGraph.OrderedIsPermutation | internal/pipeline/graph.go:52-65 | nothing is lost or duplicated, with cycles or without |
| Components.SelectedComponentNames | internal/model/types.go:1071-1084 | the explicit selection, else the primary component, else each component once, in increasing order |
| Components.OrderedSelectedComponentNames | internal/model/types.go:1117-1165 | on distinct names the reference order if the selected components are acyclic, the selection unchanged if they are not |
| Components.TwoSortsAgree | internal/model/types.go:1117-1165 | stage specs with the same names and lists are put in the same order by the other sort |
| Plan.PlanSpecs | internal/pipeline/plan.go:13-22 | the specs of the plan's stages in order; none for a missing plan |
| Plan.PlanSpecsMap | internal/pipeline/plan.go:25-32 | a later spec of the same name wins |
| Model.SpecMapLast | internal/pipeline/plan.go:25-32 | of several specs of one name the last is the one found |
| Plan.BuildExecutionPlan | internal/pipeline/plan.go:45-93 | fails exactly on no specs or a missing image; otherwise the ordered stages and the first checkpoint |
| Plan.PlanCheckpoint | internal/pipeline/plan.go:45-93 | the plan's checkpoint is that of the first stage along the order whose checkpoint is not blank, and empty if there is none |
| Plan.PlanRoundTrip | internal/pipeline/plan.go:13-22 | reading the specs back from a built plan gives the ordered specs if and only if each unnamed spec carries nothing that its stage does not repeat |
| Plan.PlanKeepsOrder | internal/pipeline/plan.go:49-78 | ordering the specs read back changes nothing |
| Execution.ScanStages | internal/pipeline/execution.go:22-60 | what the main loop offers, where a checkpoint stops it, and its three flags |
| Execution.Evaluate | internal/pipeline/execution.go:11-74 | the evaluation is the function of order, statuses and approval that `Verdicts` describes |
| Verdicts.EvaluationIsVerdict | internal/pipeline/execution.go:35-73 | completed, failed and awaiting approval exactly as the checkpoint of the first succeeded stage that ends the evaluation says; failed also if nothing ends it, a stage has failed and none that has awaits an allowed rollback; otherwise active exactly if some stage has an attempt or is offered, and else pending |
| Verdicts.OffersExactly | internal/pipeline/execution.go:76-117 | offered as ready is exactly what the evaluation passes, is automatic, lacks an attempt, has the approval it needs and only succeeded dependencies; offered as triggered exactly what it passes, is not automatic, lacks an attempt, and has a success in its list or a failure that its rollback policy and environment allow to answer |
| Verdicts.OffersInOrder | internal/pipeline/execution.go:22-33 | ready stages, and triggered ones, are offered in the order of the plan |
| Scheduling.ReadyMembers | internal/pipeline/execution.go:76-91 | what is offered as ready is exactly what is automatic, approved, without an attempt and has only succeeded dependencies |
| Scheduling.TriggeredMembers | internal/pipeline/execution.go:93-117 | what is offered as triggered is exactly what a failure or a success triggers under its rollback policy |
| Scheduling.OffersUntilDone | internal/pipeline/execution.go:11-74 | an acyclic automatic plan whose attempts have all succeeded, no checkpoint reached, offers a stage if and only if one has no attempt |
| Scheduling.PlanMeansSpecs | internal/pipeline/execution.go:12-14 | evaluating the plan built from the specs is evaluating the specs |
| Scheduling.OfferedAfterQueueing | internal/controlplane/service.go:103-145 | after queueing, an evaluation offers exactly what it offered before minus what was queued |
| Locks.PostgresManager.TryAcquire | internal/locks/postgres.go:33-58 | succeeds exactly on a missing, expired or own row, and then writes the owner and an expiry taken before the check |
| Locks.PostgresManager.Refresh | internal/locks/postgres.go:60-71 | extends the owner's row by the lease from a moment of the call and touches nothing else; without a row nothing happens |
| Locks.PostgresManager.Release | internal/locks/postgres.go:73-82 | deletes exactly the owner's row of that key |
| ControlPlane.Service.NextID | internal/store/store.go:95-98 | bumps the counter and prints it |
| ControlPlane.Service.AttemptsByStage | internal/store/store.go:116-128 | per stage an attempt with the highest number, whatever order the map is read in |
| ControlPlane.Service.RunningCount | internal/store/store.go:130-143 | the number of running attempts of the stage whose lease has not ended at the moment of counting |
| ControlPlane.Service.LatestRunForIssue | internal/controlplane/service.go:1273-1285 | a most recently created run of the issue, or none if there is none |
| ControlPlane.Service.EnqueueFromGitLab | internal/controlplane/service.go:53-70 | the issues listed and those already tracked are tracked, each as listed if it is; runs, attempts and locks stay |
| ControlPlane.Service.EnsureRunForIssue | internal/controlplane/service.go:176-215 | an error for an unknown issue, the latest run if it is unfinished, otherwise one new pending run under the next identifier; nothing else changes |
| ControlPlane.Service.PersistPlan | internal/controlplane/service.go:217-266 | an unknown run is an error; otherwise the run gets this plan, in place of one it may have, and nothing else changes |
| ControlPlane.Service.ReconcileIssue | internal/controlplane/service.go:82-171 | nothing happens to an issue without the labels or without a run; otherwise the latest run's offers are queued, its status set and the issue relabelled; it fails, with nothing touched, only when that run has no plan |
| ControlPlane.Service.QueueOffered | internal/controlplane/service.go:97-142 | queues all triggered stages and the runnable ones with room, under consecutive fresh identifiers |
| ControlPlane.Service.HasRoom | internal/controlplane/service.go:122-125 | the parallelism guard, true or false as of some moment of the call |
| ControlPlane.Service.Settle | internal/controlplane/service.go:144-167 | status and labels follow from the attempts after queueing |
| ControlPlane.Service.Reconcile | internal/controlplane/service.go:80-174 | a chain of such iterations that visits each issue, or only the one asked for, once in some order; on an error nothing has changed but the clock |
| ControlPlane.Service.AcquireLocks | internal/controlplane/service.go:585-610 | all keys, replacing only expired or own rows, or none, giving back what was taken, with another owner's unexpired row as the reason |
| ControlPlane.Service.ClaimAttempt | internal/controlplane/service.go:302-350 | one attempt is claimed, held up by another's lock, or lacks a plan |
| ControlPlane.Service.ClaimNext | internal/controlplane/service.go:276-365 | the first eligible attempt in identifier order that no other owner's unexpired row holds up is running with a lease and all its locks; if there is none, no attempt changes; rows are lost only by expiry |
| ControlPlane.Service.PendingIDs | internal/controlplane/service.go:283-289 | exactly the pending attempts, increasing |
| ControlPlane.Service.Heartbeat | internal/controlplane/service.go:367-409 | the lease of the attempt, running or not, starts anew and so do the rows it still owns, neither longer nor shorter than asked; an unknown attempt changes nothing |
| ControlPlane.Service.RefreshLocks | internal/controlplane/service.go:612-619 | extends the rows of the recorded keys that the attempt still owns, and no other |
| ControlPlane.Service.Complete | internal/controlplane/service.go:411-534 | the attempt ends with the status reported, anything unknown being a failure, without a lease, and exactly its own rows of the recorded keys go |
| ControlPlane.Service.ReleaseLocks | internal/controlplane/service.go:621-628 | deletes exactly the owner's rows among the keys |
| ControlPlane.Service.RecoverStuckRuns | internal/controlplane/service.go:536-583 | exactly the running attempts overdue at one moment go back to pending without worker and lease, and lose exactly their rows |
| WellFormedness.DoesKeepsWellFormed | internal/controlplane/service.go:53-583 | every step, trusted or not, keeps identifiers accounted for, plans with distinct names and attempts of known runs |
| Clients.Serve | internal/controlplane/service.go:53-583 | all calls made of a new service, whatever they are, make up a history of the protocol that ends in the state of the service |
| Invariants.NextIDIsNew | internal/store/store.go:95-98 | the next identifier is none of those handed out |
| Queueing.WhatReconcileQueues | internal/controlplane/service.go:103-142 | every stage that a reconcile queues is planned, has no attempt in the run, has only succeeded dependencies if automatic, and is queued once |
| Queueing.ReconcileKeeps | internal/controlplane/service.go:80-174 | a reconcile keeps the structural invariant and forgets nothing |
| Steps.EnsureRunKeeps | internal/controlplane/service.go:176-215 | creating a run keeps earlier runs of the issue finished |
| Steps.ClaimLocking | internal/controlplane/service.go:276-365 | a claim, stealing and giving back included, keeps live attempts in possession and leaks no row |
| Steps.HeartbeatLocking | internal/controlplane/service.go:367-409 | a heartbeat that revives no lease of an attempt that has lost a lock keeps live attempts in possession and leaks no row |
| Steps.ReleaseLocking | internal/controlplane/service.go:425-435 | attempts that stop running, completed or recovered, take their rows with them and leave live attempts in possession |
| Steps.StepKeeps | internal/controlplane/service.go:53-583 | every step keeps the whole invariant |
| Steps.Reachable | internal/controlplane/service.go:53-583 | the invariant holds in every reachable state |
| Steps.NothingForgotten | internal/controlplane/service.go:53-583 | along any run of the system, runs, plans and attempts stay what they are and success stays success |
| Safety.MutualExclusion | internal/controlplane/service.go:276-434 | in every reachable state two running attempts with unexpired leases need no common lock |
| Safety.LiveHoldsLocks | internal/controlplane/service.go:585-628 | such an attempt owns the row of every key its stage requires, expiring no earlier than its lease |
| Safety.NoLeakedLocks | internal/controlplane/service.go:585-634 | in every reachable state a lock row belongs to a running attempt whose stage requires that key |
| Safety.FailedClaimLeavesLocks | internal/controlplane/service.go:599-606 | a claim that takes nothing leaves no row to a pending attempt, alters none and removes no unexpired one |
| Safety.OneAttemptPerStage | internal/controlplane/service.go:97-142 | in every reachable state a run has at most one attempt per stage |
| Safety.SuccessIsForever | internal/controlplane/service.go:425-432 | a succeeded attempt is succeeded in every later state |
| Safety.DependencySafety | internal/pipeline/execution.go:76-91 | once an automatic stage has an attempt, all it depends on through automatic stages has succeeded in the same run, for good |
| Safety.CyclesNeverRun | internal/pipeline/execution.go:83-88 | in every run an automatic stage that depends on a cycle of automatic stages never gets an attempt |
| Safety.KnotNeverRuns | internal/pipeline/execution.go:83-88 | nor does any set of automatic stages each depending on another of the set |
| Safety.OneUnfinishedRun | internal/controlplane/service.go:183-187 | an issue never has two unfinished runs |
| Safety.SupersededRunsRest | internal/controlplane/service.go:92-148 | every run but the latest is finished and keeps its status forever |
| Safety.IdsNeverReused | internal/store/store.go:95-98 | the next identifier was never used in any earlier state |
| Safety.OldestFirst | internal/controlplane/service.go:283-351 | up to 99999 attempts, each eligible attempt queued before the claimed one is held up by another owner's unexpired lock |
| Exclusion.StageLocks | internal/locks/manager.go:39-66 | a key is required exactly if it is that of the application's repository, of the environment's GitOps directory or of the journal, the stage controls that surface and it is configured |
| Exclusion.OneWriterPerGitOpsPath | internal/controlplane/service.go:315-322 | in every reachable state two live attempts whose stages control the same configured GitOps project, environment and path are one attempt |
| Exclusion.OneWriterPerApplication | internal/controlplane/service.go:315-322 | likewise for the application's repository |
| Exclusion.OneWriterPerJournal | internal/controlplane/service.go:315-322 | likewise for a journal's project and path |
| Lifecycle.CompletionReports | internal/controlplane/service.go:425-435 | succeeded exactly on "succeeded", blocked exactly on "blocked", failed on anything else; the lease ends, the attempt's own rows go, nothing else changes |
| Lifecycle.EndedAsReported | internal/controlplane/service.go:411-435 | in every history an attempt that has ended got its status from a completion that reported it, and has kept it since |
| Lifecycle.RunsSinceClaimed | internal/controlplane/service.go:291-343 | in every history a running attempt was claimed by its worker while pending, of a stage and issue asked for and a run neither completed nor failed, and has run for that worker since |
| Lifecycle.LeaseAsAskedFor | internal/controlplane/service.go:373-377 | in every history a lease ends as long after a moment of a claim or heartbeat of its attempt as that call asked for |
| Lifecycle.LockAsAskedFor | internal/locks/postgres.go:33-71 | and so does every lock row, for its owner |
| Lifecycle.NothingMeansHindered | internal/controlplane/service.go:291-351 | a claim that finds nothing: every pending attempt that was asked for, of a run neither completed nor failed, is up against another owner's unexpired row on something its stage controls |
| Lifecycle.RecoveryPutsBackOverdue | internal/controlplane/service.go:536-556 | exactly the running attempts whose lease ended at least `maxAge` before one moment of the call are put back, exactly their own rows go, nothing else changes |
| Lifecycle.LiveAreNotRecovered | internal/controlplane/service.go:544-546 | with a positive age no attempt with an unexpired lease is put back or loses a row |
| Lifecycle.RunIsNewIff | internal/controlplane/service.go:176-215 | in every behaviour the run an issue is ensured of is new if and only if all its runs await approval, have completed or have failed; a new one is pending and for what the issue now asks, one that is not is unfinished and unchanged |
| Outcomes.ReconcileDoes | internal/controlplane/service.go:81-172 | an issue without one of the three labels or without a run is passed over; otherwise the triggered stages, and the automatic ones with fewer running attempts than their limit, at least one, get first attempts numbered in turn, the newest run gets the status that the attempts then call for, and the issue's delivery labels become the one for that status |
| Progress.WorkStep | internal/controlplane/service.go:80-553 | 3·unqueued + 2·pending + running falls by one for each attempt queued, claimed or completed, by two for one completed while pending, rises by one for each recovered, and changes in no other way |
| Progress.CompletionWork | internal/controlplane/service.go:425-432 | a completion takes off two for a pending attempt, one for a running one and nothing for one that has ended |
| Progress.WorkIsNatural | internal/controlplane/service.go:122-142 | it is never negative, and zero only when every stage has an attempt and none is pending or running |
| Progress.WorkAccount | internal/controlplane/service.go:80-553 | over any part of a behaviour, work left plus work done is work before plus work put back |
| Progress.RunsAreBounded | internal/controlplane/service.go:80-553 | a run of n stages is queued, claimed and ended at most 3n times plus once per recovery |
| Progress.ReconcileMoves | internal/controlplane/service.go:103-142 | with parallelism free, reconciling such a plan queues something if and only if a stage has no attempt |
| Trust.HeartbeatSafeIff | internal/locks/postgres.go:60-71 | a heartbeat keeps the locks safe if and only if the attempt is not running, its new lease has ended already, or it still owns all its rows |
| Trust.TimelyIsHarmless | internal/controlplane/service.go:373-377 | a heartbeat before the lease expires is harmless in that sense |
| Trust.CompletionSafeIff | internal/controlplane/service.go:415-432 | a completion keeps the whole invariant and forgets nothing if and only if it does not turn a success into something else |
| Trust.CompletionKeepsLocking | internal/controlplane/service.go:433 | completing an attempt in any status leaks no row and takes none from a live attempt |
| Trust.CreationSafeIff | internal/controlplane/service.go:183-207 | after creating a run all but the latest run of the issue are finished if and only if it was created later than all of them |
| Trust.TrustIsExact | internal/controlplane/service.go:53-583 | from a sound state any step leads to a sound state and forgets nothing if and only if its caller could be trusted |
| Stealing.LateHeartbeatBreaksExclusion | internal/controlplane/service.go:373-385 | a behaviour, and one late heartbeat after it, which leave two live attempts that need one lock |
| Witnesses.TieLeavesTwoUnfinished | internal/controlplane/service.go:1280 | a history after which two runs of one issue are unfinished, the second created at the instant of the first |
| Confluence.EvaluatedByStatuses | internal/pipeline/execution.go:11-74 | an evaluation depends on the statuses of the attempts and on nothing else of them |
| Confluence.ReconcileForced | internal/controlplane/service.go:82-171 | at a fixed clock what an iteration does is a function of the state, identifiers aside |
| Passes.PassDecides | internal/controlplane/service.go:81-172 | a pass carries out, for every issue it visits, what was decided in the state before the pass |
| Passes.ReconcileIsConfluent | internal/controlplane/service.go:82 | visiting the issues in any two orders gives the same runs, issues and locks, and the same attempts under a one-to-one renaming of identifiers |
| Passes.GivesUpAsAtStart | internal/controlplane/service.go:99-102 | wherever its turn comes, an issue makes the loop give up for want of a plan if and only if it would have done so before the loop |
| Passes.GivingUpIgnoresOrder | internal/controlplane/service.go:99-102 | if a pass in one order gives up, no pass over the same issues in any order comes to its end |
| Idempotence.ApprovalSurvivesIff | internal/controlplane/service.go:1421-1431 | relabelling keeps what counts as approval if and only if it was not given by label only |
| Idempotence.ReconcileIsIdempotent | internal/controlplane/service.go:80-174 | at a fixed clock a second pass over issues already visited leaves the state exactly as it is, unless an approval was given by label only |
| Witnesses.LabelOnlyApprovalIsNotIdempotent | internal/controlplane/service.go:98 | for every issue approved by label only a state that a behaviour reaches, where a second pass undoes the status that the first one set |
| Resolving.Resolver.FindOrBuild | internal/runner/resolver.go:69-78 | a provider is found exactly if it is known or can be built |
| Resolving.Resolver.Try | internal/runner/resolver.go:106-118 | the output of the first call that succeeds with at least the fitness asked for, or none after three that do not; not one call more is made |
| Resolving.Resolver.Commit | internal/runner/resolver.go:120-122 | records the output, or fails and leaves the ledger as it was |
| Resolving.Resolver.Resolve | internal/runner/resolver.go:64-125 | entries are only added, each earned on the entries of its dependencies, at most three calls for each and at most three more on failure; a failure has a reason in the plain recursion or in a commit |
| Resolving.Resolver.ResolveAll | internal/runner/resolver.go:85-94 | the dependencies in order, up to the first that fails |
| Naive.VerdictIsFirstFit | internal/runner/resolver.go:106-114 | three tries come to the first output of sufficient fitness, and to none exactly if all three fall short |
| Naive.ResolvesIff | internal/runner/resolver.go:64-125 | without a ledger a goal resolves to an output if and only if its provider is known or can be built, its dependencies can be computed and resolve, and that is the first fit output of three calls |
| Resolving.ResolveRefinesRecursion | internal/runner/resolver.go:64-125 | on a consistent ledger it succeeds exactly when the recursion without a ledger does, with the same result, and leaves the ledger consistent |
| Resolving.DeterministicResolveRefines | internal/runner/resolver.go:106-114 | in particular when every call of a provider on the same inputs comes to the same |
| Resolving.OnlyFitOutputsCommitted | internal/runner/resolver.go:109-120 | every new entry is the output of a call, made on the entries of its dependencies, that succeeded with at least the fitness asked for, of a provider known or built; no entry is overwritten |
| Resolving.GrownClosed | internal/runner/resolver.go:80-124 | the ledger stays dependency-closed, whether the call succeeds or fails |
| Resolving.GrownConsistent | internal/runner/resolver.go:64-125 | and consistent with the recursion, if tries are steady |
| Projecting.ProjectCurrentState | internal/runner/projection.go:26-67 | nodes and edges are those of the traversal, in its order |
| Projecting.VisitsAreReachable | internal/runner/projection.go:34-62 | the goals visited are exactly those reachable along known providers |
| Projecting.VisitsParentsFirst | internal/runner/projection.go:34-62 | the traversal begins with the root and visits every other goal after one that depends on it |
| Projecting.EdgesAreDependencies | internal/runner/projection.go:55-61 | the edges are exactly those from dependencies to reachable goals that have them |
| Projecting.NodesShowLedger | internal/runner/projection.go:41-52 | there is a node for each name of a reachable goal; it shows success and the entry if such a goal is in the ledger, pending and no entry if it is not |
| Projecting.LastVisitShown | internal/runner/projection.go:41-52 | of several goals of one name the one visited last is shown |
| Projecting.ProjectionAllSucceeded | internal/runner/projection.go:42-52 | from a goal found in a closed ledger all nodes show success, and with equal inputs the entry of that name and input |
| Findings.StatAppend | internal/ratchet/postgres.go:178-188 | one more event changes the scanned counts of its own cluster and stage only, each by what the upsert adds |
| Findings.SeverityAppend | internal/ratchet/postgres.go:432-440 | comparing each new severity with the highest so far finds the highest known one of all, else the first given |
| Findings.SameClusterIs | internal/ratchet/postgres.go:144-176 | after both updates the cluster's row says what a scan says |
| Findings.ShouldProposeForever | internal/ratchet/scoring.go:91-103 | a cluster that deserves a proposal deserves one whatever is logged later |
| Findings.ProposedIffDeserved | internal/ratchet/scoring.go:91-103 | the row of a cluster calls for a proposal if and only if the log has a critical event of it, three events from three runs, or two in global scope, and gives the reason of the first case that applies |
| Ratchet.PostgresStore.UpsertCluster | internal/ratchet/postgres.go:144-161 | a new row or one occurrence more, with the highest severity |
| Ratchet.PostgresStore.CountDistinct | internal/ratchet/postgres.go:163-176 | the distinct runs and issues in the log |
| Ratchet.PostgresStore.RecordFinding | internal/ratchet/postgres.go:125-217 | the transaction on all tables |
| Ratchet.Recorded | internal/ratchet/postgres.go:125-217 | it keeps every table equal to a scan of the log |
| Ratchet.PostgresStore.CreateProposal | internal/ratchet/postgres.go:229-244 | one new open proposal for the cluster |
| Ratchet.PostgresStore.ActivateProposal | internal/ratchet/postgres.go:246-315 | the proposal is approved, its invariant in force with the cluster's severity and statistics |
| Ratchet.ActivatedKeeps | internal/ratchet/postgres.go:246-315 | activation, repeated or not, keeps every table equal to a scan of the log |
| Ratchet.ActivationTakesEffect | internal/ratchet/postgres.go:246-315 | the proposal is approved, and the one invariant of its cluster has its text, the highest severity in the log and the mode asked for; nothing else changes |
| Ratchet.InvariantStatsAreClusterStats | internal/ratchet/postgres.go:190-206 | an active invariant's stage statistics always equal its cluster's |
| Ratchet.Service.IngestFinding | internal/ratchet/service.go:28-52 | a proposal is made if and only if the log, with this event, gives cause, no invariant is in force and none is open for the cluster; it has the event's title and the reason of the first case that applies; every table still says what a scan says, and no cluster has two proposals |
| Ratchet.DeservingAreCovered | internal/ratchet/service.go:28-52 | between calls, whatever the log gives cause to propose has an open proposal or an active invariant |
| Ratchet.Service.ActivateProposal | internal/ratchet/service.go:54-56 | activation keeps that |
| Mounts.Sandbox.AllowAll | internal/isolation/sandbox.go:133-140 | one more scope for the whole root |
| Mounts.Sandbox.AllowPatterns | internal/isolation/sandbox.go:142-160 | one more scope with the trimmed patterns, none if nothing is left |
| Mounts.Sandbox.RequireWrite | internal/isolation/sandbox.go:101-115 | grants exactly the paths at or below the root of a scope that allows everything or has a pattern for them, and everything without a write identity |
| Mounts.WritableSubpathMounts | internal/stagecontainer/docker.go:164-209 | mounts exactly the fixed roots, below the scope root, of patterns of mounted repositories, but for those that can be neither found nor made |
| Mounts.GrantedPatternsAreTrimmed | internal/isolation/sandbox.go:142-160 | the patterns granted are exactly those given, without the spaces around them, of which something is left |
| Access.NamedPathAllowed | internal/isolation/sandbox.go:338-340 | a pattern of ordinary segments allows the path it names and no other |
| Access.TreeAllowed | internal/isolation/sandbox.go:341-344 | followed by two stars it allows that path and everything below, at any depth, and nothing else |
| Access.ChildrenAllowed | internal/isolation/sandbox.go:345-346 | followed by one star it allows exactly what lies directly below |
| Access.RootAllowed | internal/isolation/sandbox.go:333-337 | an empty pattern and a dot allow the root only, and a leading `./` makes no difference |
| Access.StarSplits | internal/isolation/sandbox.go:345 | in a glob a star stands for any text without a slash |
| Access.QuestionMark | internal/isolation/sandbox.go:345 | a question mark for one character that is not a slash |
| Access.RangeMatches | internal/isolation/sandbox.go:345 | a range for one character inside its bounds, after a caret outside of them |
| Access.LiteralPrefix | internal/isolation/sandbox.go:345 | and text without special characters for itself |
| Coverage.AllowedGoesThrough | internal/isolation/sandbox.go:332-347 | a path that a pattern matches, literally, by two stars or as a glob, begins with what the segments before the first glob stand for, unescaped in a glob |
| Coverage.MountCoversIff | internal/stagecontainer/docker.go:211-237 | a path allowed through a pattern lies at or below the pattern's writable root if and only if no mounted segment is padded with spaces and, where the path is allowed as a glob, none has a backslash |
| Coverage.MountCoversPattern | internal/stagecontainer/docker.go:211-237 | hence whenever no segment before the first glob has padding or a backslash |
| Coverage.MatchedBelowStatic | internal/stagecontainer/docker.go:216-227 | and then the path begins with all segments that the mount code takes as fixed |
| Coverage.MountsCoverScope | internal/stagecontainer/docker.go:183-202 | the allowed path is below one of the mounts, unless the pattern fixes nothing below the scope's root or the directory cannot be made |
| Coverage.LiteralPatternCoveredIff | internal/stagecontainer/docker.go:218-236 | the path that is the pattern itself is covered if and only if no mounted segment has padding |
| Coverage.BackslashNotCovered | internal/isolation/sandbox.go:345 | a path allowed as a glob is never covered if a mounted segment has a backslash |
| Coverage.PaddingNotCovered | internal/stagecontainer/docker.go:219 | no allowed path is covered if a mounted segment has padding |
| Coverage.BackslashExample | internal/isolation/sandbox.go:345 | there is such a pattern and such a path under every root |
| Coverage.PaddingExample | internal/isolation/sandbox.go:341-344 | and likewise for padding before two stars |

## Left out

- StageGraph.SpecsInOrder: with a repeated stage name only termination is stated; the source then keeps the last spec and may list it twice.
- Components.OrderedSelectedComponentNames: with a repeated component name only termination is stated.
- Execution.Evaluate: characterized for plans that name every stage once, as the protocol assumes.
- ControlPlane.Service.PersistPlan: the plan arrives as a value that names every stage once; files, git and the other outputs are not modelled.
- ControlPlane.Service.Complete: reports, statistics, signals and journal entries of a completion are successful no-ops; a rerun that fails after the release is not modelled.
- ControlPlane.Service.Reconcile: comments, the comment counter and the calls to GitLab are successful no-ops.
- Passes.ReconcileIsConfluent: the counters of two orders are not compared.
- Mounts.WritableSubpathMounts: the mounts are a set, their sorting is left out; paths are absolute and clean, given as segments.
- Coverage.MountCoversIff: leaves out patterns with a fixed segment of two dots and spaces, for which the mount code climbs out of the directory, so that covering depends on the names around it.
- Coverage.AllowedGoesThrough: the glob matcher tries every split of a star; the library's leftmost choice can refuse a few patterns with a slash inside a class, so it allows no more than the model.
- Resolving.Resolver.Resolve: a ledger entry is a pair of name and input; that different pairs may share a file or a map key, and that the git ledger trims what it reads, is not modelled. A failed commit leaves the ledger as it was.
- Running attempts beyond `MaxParallelism`: only queueing consults the limit, claiming does not, so it is a guard and no invariant.
- Lease exclusion with `NoopManager`: not promised.
- Concurrent calls of `IngestFinding`: the check and the insert are separate transactions.
- `RankForStage` and the scores: a sort over floating-point numbers.
- Timestamps other than leases and creation times, all metadata, run statistics and summaries.
- `Store.Load` and `Save`: JSON and files; an update is atomic or discarded.
- Docker, git, HTTP, GitLab, secrets, LLM clients, the web UI and the command-line programs.
- Policy gating, signal thresholds, merge-request payloads and configuration loading.
