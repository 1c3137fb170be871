/** `internal/pipeline/execution.go`: what may be queued next, and the status of the run. */
module Execution {
  import opened Model
  import opened StageGraph
  import opened Plan

  type ByStage = map<string, StageAttempt>

  datatype Evaluation = Evaluation(triggered: seq<StageSpec>, runnable: seq<StageSpec>, status: string)

  predicate HasStatus(byStage: ByStage, stage: string, status: AttemptStatus) {
    stage in byStage && byStage[stage].status == status
  }

  /** `isReady`, a loop with early exits in the source. */
  predicate IsReady(spec: StageSpec, byStage: ByStage, approved: bool) {
    && spec.AutoQueue()
    && (spec.approvalRequired ==> approved)
    && (forall d :: d in spec.dependencies ==> HasStatus(byStage, d, Succeeded))
    && spec.name !in byStage
  }

  /** `rollbackPolicyEnabled`. */
  predicate RollbackPolicyEnabled(target: DeliveryTarget, environment: string, policy: string) {
    policy == APP_AUTO_ROLLBACK && target.Environment(environment).appAutoRollback
  }

  /** `rollbackEligible`. */
  predicate RollbackEligible(spec: StageSpec, target: DeliveryTarget, byStage: ByStage) {
    && spec.rollbackStage != ""
    && RollbackPolicyEnabled(target, spec.Environment(), spec.rollbackPolicy)
    && !HasStatus(byStage, spec.rollbackStage, Succeeded)
  }

  predicate TriggeredByFailure(spec: StageSpec, target: DeliveryTarget, byStage: ByStage) {
    exists n :: n in spec.triggerOnFailure && HasStatus(byStage, n, Failed)
      && (spec.rollbackPolicy == "" || RollbackPolicyEnabled(target, spec.Environment(), spec.rollbackPolicy))
  }

  predicate TriggeredBySuccess(spec: StageSpec, byStage: ByStage) {
    exists n :: n in spec.triggerOnSuccess && HasStatus(byStage, n, Succeeded)
  }

  predicate IsTriggered(spec: StageSpec, target: DeliveryTarget, byStage: ByStage) {
    && !spec.AutoQueue() && spec.name !in byStage
    && (TriggeredByFailure(spec, target, byStage) || TriggeredBySuccess(spec, byStage))
  }

  // ---- What an evaluation means ----

  /** A succeeded checkpoint that ends the evaluation where it stands in the order. */
  predicate Stops(spec: StageSpec, byStage: ByStage, approved: bool) {
    && HasStatus(byStage, spec.name, Succeeded)
    && (spec.CompletionCheckpoint() || spec.FailureCheckpoint() || (spec.ApprovalCheckpoint() && !approved))
  }

  function StopStatus(spec: StageSpec): string {
    if spec.CompletionCheckpoint() then RUN_COMPLETED
    else if spec.FailureCheckpoint() then RUN_FAILED
    else RUN_AWAITING_APPROVAL
  }

  /** How many stages are looked at before a checkpoint stops the evaluation. */
  function StopAt(ordered: seq<StageSpec>, byStage: ByStage, approved: bool): (n: nat)
    ensures n <= |ordered|
  {
    if |ordered| == 0 || Stops(ordered[0], byStage, approved) then 0
    else 1 + StopAt(ordered[1..], byStage, approved)
  }

  function ReadyOnes(specs: seq<StageSpec>, byStage: ByStage, approved: bool): seq<StageSpec> {
    if |specs| == 0 then []
    else
      var r := ReadyOnes(specs[..|specs| - 1], byStage, approved);
      if IsReady(specs[|specs| - 1], byStage, approved) then r + [specs[|specs| - 1]] else r
  }

  function TriggeredOnes(specs: seq<StageSpec>, target: DeliveryTarget, byStage: ByStage): seq<StageSpec> {
    if |specs| == 0 then []
    else
      var r := TriggeredOnes(specs[..|specs| - 1], target, byStage);
      if IsTriggered(specs[|specs| - 1], target, byStage) then r + [specs[|specs| - 1]] else r
  }

  predicate SomeFailed(specs: seq<StageSpec>, byStage: ByStage) {
    exists s :: s in specs && HasStatus(byStage, s.name, Failed)
  }

  predicate SomeRollback(specs: seq<StageSpec>, target: DeliveryTarget, byStage: ByStage) {
    exists s :: s in specs && HasStatus(byStage, s.name, Failed) && RollbackEligible(s, target, byStage)
  }

  predicate SomeStarted(specs: seq<StageSpec>, byStage: ByStage) {
    exists s :: s in specs && s.name in byStage
  }

  /** The evaluation of a plan whose specs, in order, are `ordered`. */
  function Evaluated(ordered: seq<StageSpec>, target: DeliveryTarget, byStage: ByStage, approved: bool): Evaluation {
    var n := StopAt(ordered, byStage, approved);
    var triggered, runnable := TriggeredOnes(ordered[..n], target, byStage), ReadyOnes(ordered[..n], byStage, approved);
    var status :=
      if n < |ordered| then StopStatus(ordered[n])
      else if SomeFailed(ordered, byStage) && !SomeRollback(ordered, target, byStage) then RUN_FAILED
      else if SomeStarted(ordered, byStage) || |runnable| > 0 || |triggered| > 0 then RUN_ACTIVE
      else RUN_PENDING;
    Evaluation(triggered, runnable, status)
  }

  lemma {:induction false} StopAtFirst(ordered: seq<StageSpec>, byStage: ByStage, approved: bool, i: nat)
    requires i <= |ordered| && forall k :: 0 <= k < i ==> !Stops(ordered[k], byStage, approved)
    ensures i <= StopAt(ordered, byStage, approved)
    ensures i < |ordered| && Stops(ordered[i], byStage, approved) ==> StopAt(ordered, byStage, approved) == i
  {
    if i > 0 { StopAtFirst(ordered[1..], byStage, approved, i - 1); }
  }

  lemma SomeNext(ordered: seq<StageSpec>, i: nat, target: DeliveryTarget, byStage: ByStage)
    requires i < |ordered|
    ensures SomeFailed(ordered[..i + 1], byStage) == (SomeFailed(ordered[..i], byStage) || HasStatus(byStage, ordered[i].name, Failed))
    ensures SomeRollback(ordered[..i + 1], target, byStage) == (SomeRollback(ordered[..i], target, byStage)
      || (HasStatus(byStage, ordered[i].name, Failed) && RollbackEligible(ordered[i], target, byStage)))
  {
    assert ordered[..i + 1] == ordered[..i] + [ordered[i]];
  }

  datatype Scan = Scan(stopped: Option<string>, active: bool, failed: bool, rollback: bool)

  /** The main loop of `Evaluate`. */
  method ScanStages(ordered: seq<StageSpec>, target: DeliveryTarget, byStage: ByStage, approved: bool)
    returns (triggered: seq<StageSpec>, runnable: seq<StageSpec>, scan: Scan)
    ensures var n := StopAt(ordered, byStage, approved);
      triggered == TriggeredOnes(ordered[..n], target, byStage) && runnable == ReadyOnes(ordered[..n], byStage, approved)
    ensures var n := StopAt(ordered, byStage, approved);
      scan.stopped == if n < |ordered| then Some(StopStatus(ordered[n])) else None
    ensures scan.active ==> SomeStarted(ordered, byStage)
    ensures scan.stopped.None? ==> scan.failed == SomeFailed(ordered, byStage) && scan.rollback == SomeRollback(ordered, target, byStage)
  {
    triggered, runnable := [], [];
    var hasActive, hasFailed, hasEligibleRollback := false, false, false;
    for i := 0 to |ordered|
      invariant forall k :: 0 <= k < i ==> !Stops(ordered[k], byStage, approved)
      invariant triggered == TriggeredOnes(ordered[..i], target, byStage)
      invariant runnable == ReadyOnes(ordered[..i], byStage, approved)
      invariant hasActive ==> SomeStarted(ordered, byStage)
      invariant hasFailed == SomeFailed(ordered[..i], byStage)
      invariant hasEligibleRollback == SomeRollback(ordered[..i], target, byStage)
    {
      var spec := ordered[i];
      assert ordered[..i + 1][..i] == ordered[..i];
      SomeNext(ordered, i, target, byStage);
      if spec.name !in byStage {
        if (!spec.AutoQueue() && TriggeredByFailure(spec, target, byStage)) || (!spec.AutoQueue() && TriggeredBySuccess(spec, byStage)) {
          triggered := triggered + [spec];
        }
        if IsReady(spec, byStage, approved) {
          runnable := runnable + [spec];
        }
        continue;
      }
      var status := byStage[spec.name].status;
      if status == Succeeded {
        StopAtFirst(ordered, byStage, approved, i);
        if spec.CompletionCheckpoint() {
          return triggered, runnable, Scan(Some(RUN_COMPLETED), hasActive, hasFailed, hasEligibleRollback);
        }
        if spec.FailureCheckpoint() {
          return triggered, runnable, Scan(Some(RUN_FAILED), hasActive, hasFailed, hasEligibleRollback);
        }
        if spec.ApprovalCheckpoint() && !approved {
          return triggered, runnable, Scan(Some(RUN_AWAITING_APPROVAL), hasActive, hasFailed, hasEligibleRollback);
        }
        hasActive := true;
        continue;
      }
      if status == Running {
        hasActive := true;
        continue;
      }
      if status == Failed {
        hasFailed := true;
        if RollbackEligible(spec, target, byStage) {
          hasEligibleRollback := true;
        }
      }
    }
    StopAtFirst(ordered, byStage, approved, |ordered|);
    assert ordered[..|ordered|] == ordered;
    scan := Scan(None, hasActive, hasFailed, hasEligibleRollback);
  }

  /** `Evaluate`. */
  method Evaluate(plan: ExecutionPlan, target: DeliveryTarget, byStage: ByStage, approved: bool) returns (e: Evaluation)
    ensures UniqueNames(SpecsOf(plan.stages)) ==>
      e == Evaluated(Ordered(SpecsOf(plan.stages)), target, byStage, approved)
  {
    var specs := PlanSpecs(Some(plan));
    var specMap := PlanSpecsMap(Some(plan));
    var ordered := SpecsInOrder(specs);
    if UniqueNames(specs) { StartedInMap(specs, byStage); }
    var triggered, runnable, scan := ScanStages(ordered, target, byStage, approved);
    if scan.stopped.Some? {
      return Evaluation(triggered, runnable, scan.stopped.value);
    }
    assert ordered[..|ordered|] == ordered;
    if scan.failed && !scan.rollback {
      return Evaluation(triggered, runnable, RUN_FAILED);
    }
    if scan.active || scan.rollback || |runnable| > 0 || |triggered| > 0 {
      return Evaluation(triggered, runnable, RUN_ACTIVE);
    }
    var started := AnyStarted(specMap.Values, byStage);
    return Evaluation(triggered, runnable, if started then RUN_ACTIVE else RUN_PENDING);
  }

  lemma StartedInMap(specs: seq<StageSpec>, byStage: ByStage)
    requires UniqueNames(specs)
    ensures SomeStarted(Ordered(specs), byStage) <==> exists s :: s in SpecMap(specs).Values && s.name in byStage
  {
    OrderedMembers(specs);
    SpecMapKeys(specs);
    if s :| s in Ordered(specs) && s.name in byStage {
      var k :| 0 <= k < |specs| && specs[k] == s;
      SpecMapUnique(specs, k);
      assert SpecMap(specs)[s.name] == s;
    }
    if s :| s in SpecMap(specs).Values && s.name in byStage {
      assert s in specs;
    }
  }

  /** The last loop of `Evaluate`, over the specs in no particular order. */
  method AnyStarted(specs: set<StageSpec>, byStage: ByStage) returns (started: bool)
    ensures started <==> exists s :: s in specs && s.name in byStage
  {
    var left := specs;
    while left != {}
      invariant left <= specs && forall s :: s in specs - left ==> s.name !in byStage
      decreases left
    {
      var spec :| spec in left;
      if spec.name in byStage { return true; }
      left := left - {spec};
    }
    return false;
  }
}
