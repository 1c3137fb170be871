/**
 The control plane as a transition system.  A state holds what `store.Save` persists, the
 lock table that lives beside it, the plans in the journal and the clock.  Every service call
 of `internal/controlplane/service.go` is a relation between the state before and after it;
 the clock may advance between any two readings inside a call, and loops over Go maps may
 visit entries in any order, so the relations leave both open.
 */
module Protocol {
  import opened Names
  import opened Ids
  import opened Model
  import opened StageGraph
  import opened Plan
  import opened Execution

  const LABEL_REQUESTED := "delivery/requested"
  const LABEL_ACTIVE := "delivery/active"
  const LABEL_AWAITING_APPROVAL := "delivery/awaiting-approval"
  const LABEL_COMPLETED := "delivery/completed"
  const LABEL_FAILED := "delivery/failed"
  const LABEL_APPROVED := "delivery/approved"
  const LABEL_PREFIX := "delivery/"

  const COMPONENTS := "components"
  const GITOPS := "gitops"
  const JOURNAL := "journal"

  datatype Issue = Issue(labels: set<string>, approved: bool, delivery: DeliveryTarget)

  datatype Run = Run(id: string, issueID: string, target: DeliveryTarget, status: string, createdAt: int)

  datatype LockRow = LockRow(owner: string, expiresAt: int)

  datatype State = State(
    issues: map<string, Issue>,
    runs: map<string, Run>,
    attempts: map<string, StageAttempt>,
    counters: map<string, nat>,
    plans: map<string, ExecutionPlan>,
    locks: map<string, LockRow>,
    now: int
  )

  const INITIAL := State(map[], map[], map[], map[], map[], map[], 0)

  function Counter(s: State, prefix: string): nat {
    if prefix in s.counters then s.counters[prefix] else 0
  }

  function SpecsFor(s: State, runID: string): seq<StageSpec>
    requires runID in s.plans
  {
    SpecsOf(s.plans[runID].stages)
  }

  /** `runStatusTerminal`. */
  predicate RunStatusTerminal(status: string) {
    status == RUN_AWAITING_APPROVAL || status == RUN_COMPLETED || status == RUN_FAILED
  }

  /** `locks.KeysForStage`. */
  function KeysForStage(target: DeliveryTarget, spec: StageSpec): seq<string> {
    KeysForSurfaces(target, spec.Environment(), spec.repoControl)
  }

  function KeysForSurfaces(target: DeliveryTarget, environment: string, surfaces: seq<string>): seq<string> {
    if |surfaces| == 0 then []
    else
      var front, last := surfaces[..|surfaces| - 1], surfaces[|surfaces| - 1];
      KeysForSurfaces(target, environment, front) + KeysForSurface(target, environment, last)
  }

  function KeysForSurface(target: DeliveryTarget, environment: string, surface: string): seq<string> {
    if surface == COMPONENTS then
      if target.repoScope != "" then ["apprepo:" + target.repoScope] else []
    else if surface == GITOPS then
      var repo := target.Environment(environment).gitOpsRepo;
      if repo.projectPath != "" && repo.path != "" then
        ["gitops:" + repo.projectPath + ":" + repo.environment + ":" + repo.path]
      else []
    else if surface == JOURNAL then
      if target.journalProject != "" then ["journal:" + target.journalProject + ":" + target.journalPath] else []
    else []
  }

  /** The plan of the attempt's run has been materialized and contains its stage. */
  predicate HasPlan(s: State, a: StageAttempt) {
    a.runID in s.runs && a.runID in s.plans && a.stage in SpecMap(SpecsFor(s, a.runID))
  }

  function SpecOf(s: State, a: StageAttempt): StageSpec
    requires HasPlan(s, a)
  {
    SpecMap(SpecsFor(s, a.runID))[a.stage]
  }

  /** The lock keys a stage attempt must hold while it runs. */
  function Keys(s: State, a: StageAttempt): seq<string>
    requires HasPlan(s, a)
  {
    KeysForStage(s.runs[a.runID].target, SpecOf(s, a))
  }

  // ---- Enqueue, EnsureRun, plan materialization ----

  ghost predicate Enqueued(s: State, t: State, listed: map<string, Issue>) {
    t == s.(issues := s.issues + listed, now := t.now) && s.now <= t.now
  }

  /** `r` is a most recently created run of the issue; the source keeps any of several created at the same instant. */
  ghost predicate Latest(s: State, issueID: string, r: Run) {
    && r.id in s.runs && s.runs[r.id] == r && r.issueID == issueID
    && forall id :: id in s.runs && s.runs[id].issueID == issueID ==> s.runs[id].createdAt <= r.createdAt
  }

  ghost predicate NoRun(s: State, issueID: string) {
    forall id :: id in s.runs ==> s.runs[id].issueID != issueID
  }

  ghost predicate RunEnsured(s: State, t: State, issueID: string, result: Result<Run>) {
    if issueID !in s.issues then
      result.Err? && t == s.(now := t.now) && s.now <= t.now
    else
      || (result.Ok? && RunReused(s, t, issueID, result.value))
      || (result.Ok? && RunCreated(s, t, issueID, result.value))
  }

  ghost predicate RunReused(s: State, t: State, issueID: string, r: Run) {
    Latest(s, issueID, r) && !RunStatusTerminal(r.status) && t == s.(now := t.now) && s.now <= t.now
  }

  ghost predicate RunCreated(s: State, t: State, issueID: string, r: Run) {
    && issueID in s.issues
    && (NoRun(s, issueID) || exists old' :: Latest(s, issueID, old') && RunStatusTerminal(old'.status))
    && s.now <= r.createdAt <= t.now
    && r == Run(FormatID(RUN, Counter(s, RUN) + 1), issueID, s.issues[issueID].delivery, RUN_PENDING, r.createdAt)
    && t == s.(runs := s.runs[r.id := r], counters := s.counters[RUN := Counter(s, RUN) + 1], now := t.now)
  }

  /** A plan as it is built: stages with names, and no name twice. */
  predicate Usable(plan: ExecutionPlan) {
    && |plan.stages| > 0 && UniqueNames(SpecsOf(plan.stages))
    && forall spec :: spec in SpecsOf(plan.stages) ==> spec.name != ""
  }

  /** The run's plan is written, whether or not it has one. */
  ghost predicate Materialized(s: State, t: State, runID: string, plan: ExecutionPlan) {
    && runID in s.runs
    && Usable(plan)
    && t == s.(plans := s.plans[runID := plan], now := t.now) && s.now <= t.now
  }

  // ---- Reconcile ----

  predicate Considered(issue: Issue) {
    LABEL_REQUESTED in issue.labels || LABEL_ACTIVE in issue.labels || LABEL_AWAITING_APPROVAL in issue.labels
  }

  predicate Approved(issue: Issue) {
    issue.approved || LABEL_APPROVED in issue.labels
  }

  /** `transitionIssue` with `normalizeLabels`: all delivery labels go, one comes. */
  function Relabel(labels: set<string>, status: string): set<string> {
    var target := if status == RUN_AWAITING_APPROVAL then LABEL_AWAITING_APPROVAL
                  else if status == RUN_COMPLETED then LABEL_COMPLETED
                  else if status == RUN_FAILED then LABEL_FAILED
                  else LABEL_ACTIVE;
    (set l | l in labels && !(LABEL_PREFIX <= l)) + {target}
  }

  /** `store.AttemptsByStage`: per stage an attempt with the highest number, whichever is met first. */
  ghost predicate IsByStage(attempts: map<string, StageAttempt>, runID: string, m: ByStage) {
    && (forall id :: id in attempts && attempts[id].runID == runID ==> attempts[id].stage in m)
    && (forall st :: st in m ==> exists id :: Represents(attempts, runID, st, id) && m[st] == attempts[id])
  }

  ghost predicate Represents(attempts: map<string, StageAttempt>, runID: string, st: string, id: string) {
    && id in attempts && attempts[id].runID == runID && attempts[id].stage == st
    && forall other :: other in attempts && attempts[other].runID == runID && attempts[other].stage == st
         ==> attempts[other].attempt <= attempts[id].attempt
  }

  /** The attempts `store.RunningCount` counts at time `at`. */
  ghost function RunningAt(attempts: map<string, StageAttempt>, stage: string, at: int): set<string> {
    set id | id in attempts && attempts[id].stage == stage && attempts[id].status == Running
          && !(attempts[id].leaseExpiresAt.Some? && attempts[id].leaseExpiresAt.value < at)
  }

  function Capacity(spec: StageSpec): int {
    if spec.maxParallelism > 1 then spec.maxParallelism else 1
  }

  /** `accepted` are the runnable specs with room, checked one after the other between `from` and `to`. */
  ghost predicate Accepts(attempts: map<string, StageAttempt>, from: int, to: int, runnable: seq<StageSpec>, accepted: seq<StageSpec>) {
    if |runnable| == 0 then accepted == []
    else
      var front, spec := runnable[..|runnable| - 1], runnable[|runnable| - 1];
      || (Accepts(attempts, from, to, front, accepted) && |RunningAt(attempts, spec.name, from)| >= Capacity(spec))
      || (|accepted| > 0 && accepted[|accepted| - 1] == spec
          && Accepts(attempts, from, to, front, accepted[..|accepted| - 1])
          && |RunningAt(attempts, spec.name, to)| < Capacity(spec))
  }

  /** Queueing one stage: a pending first attempt under a fresh id. */
  function QueueOne(s: State, runID: string, stage: string): State {
    QueuedAs(s, FormatID(ATTEMPT, Counter(s, ATTEMPT) + 1), runID, stage)
  }

  function QueuedAs(s: State, id: string, runID: string, stage: string): State {
    s.(attempts := s.attempts[id := StageAttempt(id, runID, stage, 1, Pending, "", None, [])],
       counters := s.counters[ATTEMPT := Counter(s, ATTEMPT) + 1])
  }

  function QueueAll(s: State, runID: string, specs: seq<StageSpec>): State {
    if |specs| == 0 then s
    else QueueOne(QueueAll(s, runID, specs[..|specs| - 1]), runID, specs[|specs| - 1].name)
  }

  ghost function Evaluation0(s: State, issue: Issue, r: Run, byStage: ByStage): Evaluation
    requires r.id in s.plans
  {
    Evaluated(Ordered(SpecsFor(s, r.id)), r.target, byStage, Approved(issue))
  }

  ghost predicate ReconciledWith(s: State, t: State, issueID: string, r: Run, byStage: ByStage,
                                 accepted: seq<StageSpec>, after: ByStage) {
    && issueID in s.issues && Latest(s, issueID, r) && r.id in s.plans && s.now <= t.now
    && IsByStage(s.attempts, r.id, byStage)
    && Accepts(s.attempts, s.now, t.now, Evaluation0(s, s.issues[issueID], r, byStage).runnable, accepted)
    && var q := QueueAll(s, r.id, Evaluation0(s, s.issues[issueID], r, byStage).triggered + accepted);
    && IsByStage(q.attempts, r.id, after)
    && var status := Evaluation0(s, s.issues[issueID], r, after).status;
    && t == q.(runs := s.runs[r.id := r.(status := status)],
               issues := s.issues[issueID := s.issues[issueID].(labels := Relabel(s.issues[issueID].labels, status))],
               now := t.now)
  }

  /** One iteration of the loop in `reconcile`. */
  ghost predicate Reconciled(s: State, t: State, issueID: string) {
    && issueID in s.issues
    && if !Considered(s.issues[issueID]) || NoRun(s, issueID) then t == s.(now := t.now) && s.now <= t.now
       else exists r, byStage, accepted, after :: ReconciledWith(s, t, issueID, r, byStage, accepted, after)
  }

  /** What makes `reconcile` give up and undo everything: the latest run of an issue it acts on has no plan. */
  ghost predicate Unplanned(s: State, issueID: string) {
    issueID in s.issues && Considered(s.issues[issueID]) && exists r :: LacksPlan(s, issueID, r)
  }

  ghost predicate LacksPlan(s: State, issueID: string, r: Run) {
    Latest(s, issueID, r) && r.id !in s.plans
  }

  // ---- Claim ----

  ghost predicate Eligible(s: State, id: string, allowed: seq<string>, issueID: string) {
    && id in s.attempts && s.attempts[id].status == Pending
    && (|allowed| > 0 ==> s.attempts[id].stage in allowed)
    && s.attempts[id].runID in s.runs
    && var run := s.runs[s.attempts[id].runID];
    && (issueID != "" ==> run.issueID == issueID)
    && run.status != RUN_FAILED && run.status != RUN_COMPLETED
  }

  /** Another owner's unexpired row stands in the way. */
  ghost predicate HeldUp(s: State, id: string) {
    && id in s.attempts && HasPlan(s, s.attempts[id])
    && exists k :: k in Keys(s, s.attempts[id]) && HeldByOther(s, k, id)
  }

  ghost predicate HeldByOther(s: State, key: string, id: string) {
    key in s.locks && s.locks[key].owner != id && s.locks[key].expiresAt >= s.now
  }

  /** Outside `keys` no row is new or altered; a row can only go if it had expired or its owner was merely pending. */
  ghost predicate OthersKept(s: State, t: State, keys: seq<string>) {
    && (forall k :: k in t.locks && k !in keys ==> k in s.locks && t.locks[k] == s.locks[k])
    && (forall k :: k in s.locks && k !in keys && k !in t.locks ==> Removable(s, t, k))
  }

  ghost predicate Removable(s: State, t: State, k: string)
    requires k in s.locks
  {
    || s.locks[k].expiresAt < t.now
    || (s.locks[k].owner in s.attempts && s.attempts[s.locks[k].owner].status == Pending)
  }

  ghost predicate Claimed(s: State, t: State, id: string, workerID: string, lease: int, at: int) {
    && id in s.attempts && HasPlan(s, s.attempts[id]) && s.now <= at <= t.now
    && var a, keys := s.attempts[id], Keys(s, s.attempts[id]);
    && t == s.(attempts := s.attempts[id := a.(status := Running, workerID := workerID, leaseExpiresAt := Some(at + lease),
                                               lockKeys := if |keys| > 0 then keys else a.lockKeys)],
               locks := t.locks, now := t.now)
    && (forall k :: k in keys ==> Taken(s, t, k, id, at + lease, t.now + lease))
    && OthersKept(s, t, keys)
  }

  /** The row of `k` now belongs to `id`, ends between `from` and `to`, and replaced nothing that a running attempt still held. */
  ghost predicate Taken(s: State, t: State, k: string, id: string, from: int, to: int) {
    && k in t.locks && t.locks[k].owner == id && from <= t.locks[k].expiresAt <= to
    && (k in s.locks ==> s.locks[k].owner == id || Removable(s, t, k))
  }

  datatype ClaimOutcome = Nothing | Attempt(id: string) | Broken

  ghost predicate ClaimStep(s: State, t: State, workerID: string, lease: int, allowed: seq<string>, issueID: string, outcome: ClaimOutcome) {
    match outcome
    case Nothing =>
      && t == s.(locks := t.locks, now := t.now) && s.now <= t.now && OthersKept(s, t, [])
      && forall id :: Eligible(s, id, allowed, issueID) ==> HeldUp(s, id)
    case Attempt(id) =>
      && Eligible(s, id, allowed, issueID)
      && (exists at :: Claimed(s, t, id, workerID, lease, at))
      && forall other :: Eligible(s, other, allowed, issueID) && Less(other, id) ==> HeldUp(s, other)
    case Broken =>
      && t == s.(locks := t.locks, now := t.now) && s.now <= t.now && OthersKept(s, t, [])
      && exists id :: Eligible(s, id, allowed, issueID) && !HasPlan(s, s.attempts[id])
  }

  // ---- Heartbeat, Complete, RecoverStuckRuns ----

  ghost predicate HeartbeatAt(s: State, t: State, id: string, lease: int, at: int) {
    && id in s.attempts && s.now <= at <= t.now
    && t == s.(attempts := s.attempts[id := s.attempts[id].(leaseExpiresAt := Some(at + lease))], locks := t.locks, now := t.now)
    && t.locks.Keys == s.locks.Keys
    && forall k :: k in s.locks ==>
         if k in s.attempts[id].lockKeys && s.locks[k].owner == id
         then t.locks[k].owner == id && at + lease <= t.locks[k].expiresAt <= t.now + lease
         else t.locks[k] == s.locks[k]
  }

  function ResultStatus(status: string): AttemptStatus {
    if status == "succeeded" then Succeeded else if status == "blocked" then Blocked else Failed
  }

  /** Deleting the rows that `ids` own among the keys they recorded. */
  function Release(s: State, ids: set<string>): map<string, LockRow>
    requires ids <= s.attempts.Keys
  {
    map k | k in s.locks && !(s.locks[k].owner in ids && k in s.attempts[s.locks[k].owner].lockKeys) :: s.locks[k]
  }

  ghost predicate Completed(s: State, t: State, id: string, result: string) {
    && id in s.attempts && s.now <= t.now
    && t == s.(attempts := s.attempts[id := s.attempts[id].(status := ResultStatus(result), leaseExpiresAt := None)],
               locks := Release(s, {id}), now := t.now)
  }

  /** Running attempts whose lease ended `maxAge` or longer before `at`. */
  function StuckAt(s: State, maxAge: int, at: int): set<string> {
    set id | id in s.attempts && s.attempts[id].status == Running
          && s.attempts[id].leaseExpiresAt.Some? && s.attempts[id].leaseExpiresAt.value + maxAge <= at
  }

  function Reset(a: StageAttempt): StageAttempt {
    a.(status := Pending, workerID := "", leaseExpiresAt := None)
  }

  ghost predicate RecoveredAt(s: State, t: State, maxAge: int, at: int) {
    && s.now <= at <= t.now
    && var stuck := StuckAt(s, maxAge, at);
    && t == s.(attempts := map id | id in s.attempts :: if id in stuck then Reset(s.attempts[id]) else s.attempts[id],
               locks := Release(s, stuck), now := t.now)
  }

  // ---- Steps and behaviours ----

  datatype Label =
    | Tick
    | Enqueue(listed: map<string, Issue>)
    | EnsureRun(issueID: string, run: Result<Run>)
    | Materialize(runID: string, plan: ExecutionPlan)
    | Reconcile(issueID: string)
    | Claim(workerID: string, lease: int, allowed: seq<string>, issueID: string, outcome: ClaimOutcome)
    | Heartbeat(id: string, lease: int, at: int)
    | Complete(id: string, result: string)
    | Recover(maxAge: int, at: int)

  /** What the code does. */
  ghost predicate Does(s: State, t: State, l: Label) {
    match l
    case Tick => t == s.(now := t.now) && s.now <= t.now
    case Enqueue(listed) => Enqueued(s, t, listed)
    case EnsureRun(issueID, run) => RunEnsured(s, t, issueID, run)
    case Materialize(runID, plan) => Materialized(s, t, runID, plan)
    case Reconcile(issueID) => Reconciled(s, t, issueID)
    case Claim(workerID, lease, allowed, issueID, outcome) => ClaimStep(s, t, workerID, lease, allowed, issueID, outcome)
    case Heartbeat(id, lease, at) => HeartbeatAt(s, t, id, lease, at)
    case Complete(id, result) => Completed(s, t, id, result)
    case Recover(maxAge, at) => RecoveredAt(s, t, maxAge, at)
  }

  /**
   What callers are trusted with, because the code does not check it: a run is created strictly
   later than the earlier runs of its issue; a plan once written is not replaced by another; a
   heartbeat revives no lease of an attempt that has lost a lock; and no completion turns a
   success into something else.  `Trust` proves that nothing less would do.
   */
  ghost predicate Trusted(s: State, t: State, l: Label) {
    match l
    case EnsureRun(issueID, run) => run.Ok? && run.value.id !in s.runs ==> LaterThanAll(s, issueID, run.value.createdAt)
    case Materialize(runID, plan) => runID in s.plans ==> s.plans[runID] == plan
    case Heartbeat(id, lease, at) => HarmlessHeartbeat(s, t, id, at + lease)
    case Complete(id, result) => id in s.attempts && HarmlessCompletion(s.attempts[id], result)
    case _ => true
  }

  ghost predicate LaterThanAll(s: State, issueID: string, createdAt: int) {
    forall id :: id in s.runs && s.runs[id].issueID == issueID ==> s.runs[id].createdAt < createdAt
  }

  ghost predicate HarmlessHeartbeat(s: State, t: State, id: string, until: int) {
    id in s.attempts && (s.attempts[id].status != Running || until < t.now || StillOwner(s, id))
  }

  /** Every row of the keys the attempt recorded still belongs to it. */
  ghost predicate StillOwner(s: State, id: string) {
    id in s.attempts && forall k :: k in s.attempts[id].lockKeys ==> k in s.locks && s.locks[k].owner == id
  }

  predicate HarmlessCompletion(a: StageAttempt, result: string) {
    a.status == Succeeded ==> ResultStatus(result) == Succeeded
  }

  ghost predicate Step(s: State, t: State, l: Label) {
    Does(s, t, l) && Trusted(s, t, l)
  }

  /** Anything the code can do: `labels[i]` leads from `states[i]` to `states[i + 1]`. */
  ghost predicate History(states: seq<State>, labels: seq<Label>) {
    && |states| == |labels| + 1 && states[0] == INITIAL
    && forall i: nat :: i < |labels| ==> DoesAt(states, labels, i)
  }

  ghost predicate DoesAt(states: seq<State>, labels: seq<Label>, i: nat) {
    i < |labels| < |states| && Does(states[i], states[i + 1], labels[i])
  }

  /** A history all of whose callers can be trusted. */
  ghost predicate Behaviour(states: seq<State>, labels: seq<Label>) {
    && |states| == |labels| + 1 && states[0] == INITIAL
    && forall i: nat :: i < |labels| ==> StepAt(states, labels, i)
  }

  ghost predicate StepAt(states: seq<State>, labels: seq<Label>, i: nat) {
    i < |labels| < |states| && Step(states[i], states[i + 1], labels[i])
  }
}
