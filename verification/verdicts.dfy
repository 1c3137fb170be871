/** What an evaluation says, told by the fields of the specs and attempts it looks at. */
module Verdicts {
  import opened Text
  import opened Model
  import opened Execution
  import opened Scheduling

  ghost predicate Has(byStage: ByStage, stage: string, status: AttemptStatus) {
    stage in byStage && byStage[stage].status == status
  }

  // ---- Where an evaluation ends ----

  /** The stage has succeeded, and its checkpoint ends the run or asks for an approval that is not there. */
  ghost predicate Ends(spec: StageSpec, byStage: ByStage, approved: bool) {
    && Has(byStage, spec.name, Succeeded)
    && var checkpoint := TrimSpace(spec.checkpointStatus);
    checkpoint == RUN_COMPLETED || checkpoint == RUN_FAILED || (checkpoint == RUN_AWAITING_APPROVAL && !approved)
  }

  ghost predicate FirstToEnd(ordered: seq<StageSpec>, byStage: ByStage, approved: bool, i: nat) {
    i < |ordered| && Ends(ordered[i], byStage, approved) && forall k :: 0 <= k < i ==> !Ends(ordered[k], byStage, approved)
  }

  /** The first stage that ends the evaluation has this checkpoint. */
  ghost predicate EndsAt(ordered: seq<StageSpec>, byStage: ByStage, approved: bool, checkpoint: string) {
    exists i: nat :: FirstToEnd(ordered, byStage, approved, i) && TrimSpace(ordered[i].checkpointStatus) == checkpoint
  }

  ghost predicate NeverEnds(ordered: seq<StageSpec>, byStage: ByStage, approved: bool) {
    forall spec :: spec in ordered ==> !Ends(spec, byStage, approved)
  }

  /** The evaluation gets past the stage. */
  ghost predicate Passes(ordered: seq<StageSpec>, byStage: ByStage, approved: bool, spec: StageSpec) {
    exists i: nat :: PassesAt(ordered, byStage, approved, i) && ordered[i] == spec
  }

  ghost predicate PassesAt(ordered: seq<StageSpec>, byStage: ByStage, approved: bool, i: nat) {
    i < |ordered| && forall k :: 0 <= k <= i ==> !Ends(ordered[k], byStage, approved)
  }

  // ---- What may be queued, and what may be rolled back ----

  const LOCAL := "local"
  const DEV := "dev"
  const PROD := "prod"

  ghost predicate RollsBack(target: DeliveryTarget, environment: string) {
    || (environment == LOCAL && target.local.appAutoRollback)
    || (environment == DEV && target.dev.appAutoRollback)
    || (environment == PROD && target.prod.appAutoRollback)
  }

  ghost predicate RollbackAllowed(spec: StageSpec, target: DeliveryTarget) {
    spec.rollbackPolicy == APP_AUTO_ROLLBACK && RollsBack(target, TrimSpace(spec.environment))
  }

  /** The stage has failed, and the stage that rolls it back is allowed and has not succeeded yet. */
  ghost predicate AwaitsRollback(spec: StageSpec, target: DeliveryTarget, byStage: ByStage) {
    && Has(byStage, spec.name, Failed) && spec.rollbackStage != "" && RollbackAllowed(spec, target)
    && !Has(byStage, spec.rollbackStage, Succeeded)
  }

  ghost predicate Automatic(spec: StageSpec, byStage: ByStage, approved: bool) {
    && spec.queueMode != QUEUE_MODE_TRIGGERED && spec.name !in byStage && (spec.approvalRequired ==> approved)
    && forall d :: d in spec.dependencies ==> Has(byStage, d, Succeeded)
  }

  ghost predicate SetOff(spec: StageSpec, target: DeliveryTarget, byStage: ByStage) {
    && spec.queueMode == QUEUE_MODE_TRIGGERED && spec.name !in byStage
    && (|| (exists n :: n in spec.triggerOnSuccess && Has(byStage, n, Succeeded))
        || ((spec.rollbackPolicy == "" || RollbackAllowed(spec, target)) && exists n :: n in spec.triggerOnFailure && Has(byStage, n, Failed)))
  }

  /** Some stage has failed, and none that has awaits its rollback. */
  ghost predicate GivenUp(ordered: seq<StageSpec>, target: DeliveryTarget, byStage: ByStage) {
    && (exists spec :: spec in ordered && Has(byStage, spec.name, Failed))
    && forall spec :: spec in ordered ==> !AwaitsRollback(spec, target, byStage)
  }

  ghost predicate UnderWay(ordered: seq<StageSpec>, target: DeliveryTarget, byStage: ByStage, approved: bool) {
    exists spec :: spec in ordered && (spec.name in byStage || Automatic(spec, byStage, approved) || SetOff(spec, target, byStage))
  }

  /** When a run has which status. */
  ghost predicate IsVerdict(status: string, ordered: seq<StageSpec>, target: DeliveryTarget, byStage: ByStage, approved: bool) {
    && (status == RUN_COMPLETED <==> EndsAt(ordered, byStage, approved, RUN_COMPLETED))
    && (status == RUN_AWAITING_APPROVAL <==> EndsAt(ordered, byStage, approved, RUN_AWAITING_APPROVAL))
    && (status == RUN_FAILED <==>
          || EndsAt(ordered, byStage, approved, RUN_FAILED)
          || (NeverEnds(ordered, byStage, approved) && GivenUp(ordered, target, byStage)))
    && (status == RUN_ACTIVE <==>
          NeverEnds(ordered, byStage, approved) && !GivenUp(ordered, target, byStage) && UnderWay(ordered, target, byStage, approved))
    && (status == RUN_PENDING <==>
          NeverEnds(ordered, byStage, approved) && !GivenUp(ordered, target, byStage) && !UnderWay(ordered, target, byStage, approved))
  }

  // ---- Evaluations are like this ----

  lemma StatusesDiffer()
    ensures RUN_PENDING != RUN_ACTIVE && RUN_PENDING != RUN_AWAITING_APPROVAL && RUN_PENDING != RUN_COMPLETED && RUN_PENDING != RUN_FAILED
    ensures RUN_ACTIVE != RUN_AWAITING_APPROVAL && RUN_ACTIVE != RUN_COMPLETED && RUN_ACTIVE != RUN_FAILED
    ensures RUN_AWAITING_APPROVAL != RUN_COMPLETED && RUN_AWAITING_APPROVAL != RUN_FAILED && RUN_COMPLETED != RUN_FAILED
  {
    assert RUN_PENDING[0] == 'p' && RUN_ACTIVE[0] == 'a' && RUN_ACTIVE[1] == 'c' && RUN_AWAITING_APPROVAL[0] == 'a';
    assert RUN_AWAITING_APPROVAL[1] == 'w' && RUN_COMPLETED[0] == 'c' && RUN_FAILED[0] == 'f';
  }

  lemma StopsIffEnds(spec: StageSpec, byStage: ByStage, approved: bool)
    ensures Stops(spec, byStage, approved) <==> Ends(spec, byStage, approved)
  {
  }

  lemma {:induction false} StopAtIsFirst(ordered: seq<StageSpec>, byStage: ByStage, approved: bool)
    ensures var n := StopAt(ordered, byStage, approved);
      && (forall k :: 0 <= k < n ==> !Ends(ordered[k], byStage, approved))
      && (n < |ordered| ==> FirstToEnd(ordered, byStage, approved, n))
  {
    if |ordered| > 0 {
      StopsIffEnds(ordered[0], byStage, approved);
      StopAtIsFirst(ordered[1..], byStage, approved);
      var n := StopAt(ordered, byStage, approved);
      forall k | 0 <= k < n ensures !Ends(ordered[k], byStage, approved) {
        if k > 0 { assert ordered[k] == ordered[1..][k - 1]; }
      }
    }
  }

  /** The evaluation passes exactly the stages it looks at. */
  lemma LookedAreThosePassed(ordered: seq<StageSpec>, byStage: ByStage, approved: bool, spec: StageSpec)
    ensures spec in Looked(ordered, byStage, approved) <==> Passes(ordered, byStage, approved, spec)
  {
    var n := StopAt(ordered, byStage, approved);
    StopAtIsFirst(ordered, byStage, approved);
    if spec in ordered[..n] {
      var i :| 0 <= i < n && ordered[i] == spec;
      assert PassesAt(ordered, byStage, approved, i);
    }
    if i: nat :| PassesAt(ordered, byStage, approved, i) && ordered[i] == spec {
      assert i < n;
      assert ordered[..n][i] == spec;
    }
  }

  lemma EnvironmentsRollBack(target: DeliveryTarget, environment: string)
    ensures target.Environment(environment).appAutoRollback <==> RollsBack(target, environment)
  {
    assert LOCAL[0] == 'l' && DEV[0] == 'd' && PROD[0] == 'p';
  }

  lemma ReadyIffAutomatic(spec: StageSpec, byStage: ByStage, approved: bool)
    ensures IsReady(spec, byStage, approved) <==> Automatic(spec, byStage, approved)
  {
    assert forall d :: HasStatus(byStage, d, Succeeded) <==> Has(byStage, d, Succeeded);
  }

  lemma TriggeredIffSetOff(spec: StageSpec, target: DeliveryTarget, byStage: ByStage)
    ensures IsTriggered(spec, target, byStage) <==> SetOff(spec, target, byStage)
  {
    EnvironmentsRollBack(target, TrimSpace(spec.environment));
    assert forall n, status :: HasStatus(byStage, n, status) <==> Has(byStage, n, status);
  }

  /** What an evaluation offers: the stages it passes that are ready or triggered, in terms of their fields. */
  lemma OffersExactly(ordered: seq<StageSpec>, target: DeliveryTarget, byStage: ByStage, approved: bool, spec: StageSpec)
    ensures var e := Evaluated(ordered, target, byStage, approved);
      && (spec in e.runnable <==> Passes(ordered, byStage, approved, spec) && Automatic(spec, byStage, approved))
      && (spec in e.triggered <==> Passes(ordered, byStage, approved, spec) && SetOff(spec, target, byStage))
  {
    var looked := Looked(ordered, byStage, approved);
    ReadyMembers(looked, byStage, approved, spec);
    TriggeredMembers(looked, target, byStage, spec);
    LookedAreThosePassed(ordered, byStage, approved, spec);
    ReadyIffAutomatic(spec, byStage, approved);
    TriggeredIffSetOff(spec, target, byStage);
  }

  /** The specs of `part` stand in `all` in the same order. */
  ghost predicate InOrderOf(part: seq<StageSpec>, all: seq<StageSpec>) {
    forall i, j :: 0 <= i < j < |part| ==> StandsBefore(all, part[i], part[j])
  }

  ghost predicate StandsBefore(all: seq<StageSpec>, a: StageSpec, b: StageSpec) {
    exists p, q :: 0 <= p < q < |all| && all[p] == a && all[q] == b
  }

  lemma InOrderNext(part: seq<StageSpec>, all: seq<StageSpec>, x: StageSpec)
    requires InOrderOf(part, all) && forall s :: s in part ==> s in all
    ensures InOrderOf(part, all + [x]) && InOrderOf(part + [x], all + [x])
  {
    var more := all + [x];
    forall i, j | 0 <= i < j < |part| + 1
      ensures StandsBefore(more, (part + [x])[i], (part + [x])[j])
    {
      if j < |part| {
        assert StandsBefore(all, part[i], part[j]);
        var p, q :| 0 <= p < q < |all| && all[p] == part[i] && all[q] == part[j];
        assert more[p] == part[i] && more[q] == part[j];
      } else {
        assert part[i] in part;
        var p :| 0 <= p < |all| && all[p] == part[i];
        assert more[p] == part[i] && more[|all|] == x;
      }
    }
    forall i, j | 0 <= i < j < |part| ensures StandsBefore(more, part[i], part[j]) {
      assert StandsBefore(more, (part + [x])[i], (part + [x])[j]);
    }
  }

  lemma {:induction false} OnesInOrder(specs: seq<StageSpec>, target: DeliveryTarget, byStage: ByStage, approved: bool)
    ensures InOrderOf(ReadyOnes(specs, byStage, approved), specs) && InOrderOf(TriggeredOnes(specs, target, byStage), specs)
  {
    if |specs| > 0 {
      var front, last := specs[..|specs| - 1], specs[|specs| - 1];
      OnesInOrder(front, target, byStage, approved);
      forall s ensures s in ReadyOnes(front, byStage, approved) ==> s in front { ReadyMembers(front, byStage, approved, s); }
      forall s ensures s in TriggeredOnes(front, target, byStage) ==> s in front { TriggeredMembers(front, target, byStage, s); }
      InOrderNext(ReadyOnes(front, byStage, approved), front, last);
      InOrderNext(TriggeredOnes(front, target, byStage), front, last);
      assert specs == front + [last];
    }
  }

  /** The ready stages, and the triggered ones, are offered in the order of the plan. */
  lemma OffersInOrder(ordered: seq<StageSpec>, target: DeliveryTarget, byStage: ByStage, approved: bool)
    ensures var e := Evaluated(ordered, target, byStage, approved); InOrderOf(e.runnable, ordered) && InOrderOf(e.triggered, ordered)
  {
    var n := StopAt(ordered, byStage, approved);
    OnesInOrder(ordered[..n], target, byStage, approved);
    LongerInOrder(ReadyOnes(ordered[..n], byStage, approved), ordered, n);
    LongerInOrder(TriggeredOnes(ordered[..n], target, byStage), ordered, n);
  }

  lemma LongerInOrder(part: seq<StageSpec>, all: seq<StageSpec>, n: nat)
    requires n <= |all| && InOrderOf(part, all[..n])
    ensures InOrderOf(part, all)
  {
    forall i, j | 0 <= i < j < |part| ensures StandsBefore(all, part[i], part[j]) {
      assert StandsBefore(all[..n], part[i], part[j]);
      var p, q :| 0 <= p < q < n && all[..n][p] == part[i] && all[..n][q] == part[j];
      assert all[p] == part[i] && all[q] == part[j];
    }
  }

  lemma FailedIffGivenUp(ordered: seq<StageSpec>, target: DeliveryTarget, byStage: ByStage)
    ensures SomeFailed(ordered, byStage) && !SomeRollback(ordered, target, byStage) <==> GivenUp(ordered, target, byStage)
  {
    forall spec | spec in ordered
      ensures HasStatus(byStage, spec.name, Failed) && RollbackEligible(spec, target, byStage) <==> AwaitsRollback(spec, target, byStage)
    {
      EnvironmentsRollBack(target, TrimSpace(spec.environment));
    }
  }

  lemma UnderWayIff(ordered: seq<StageSpec>, target: DeliveryTarget, byStage: ByStage, approved: bool)
    requires NeverEnds(ordered, byStage, approved)
    ensures var e := Evaluated(ordered, target, byStage, approved);
      SomeStarted(ordered, byStage) || |e.runnable| > 0 || |e.triggered| > 0 <==> UnderWay(ordered, target, byStage, approved)
  {
    var e := Evaluated(ordered, target, byStage, approved);
    forall spec | spec in ordered
      ensures spec in e.runnable <==> Automatic(spec, byStage, approved)
      ensures spec in e.triggered <==> SetOff(spec, target, byStage)
    {
      OffersExactly(ordered, target, byStage, approved, spec);
      var i :| 0 <= i < |ordered| && ordered[i] == spec;
      assert PassesAt(ordered, byStage, approved, i);
    }
    forall spec | spec in e.runnable || spec in e.triggered ensures spec in ordered { OffersExactly(ordered, target, byStage, approved, spec); }
    if |e.runnable| > 0 { assert e.runnable[0] in e.runnable; }
    if |e.triggered| > 0 { assert e.triggered[0] in e.triggered; }
  }

  lemma OnlyFirst(ordered: seq<StageSpec>, byStage: ByStage, approved: bool, n: nat, checkpoint: string)
    requires FirstToEnd(ordered, byStage, approved, n)
    ensures EndsAt(ordered, byStage, approved, checkpoint) <==> checkpoint == TrimSpace(ordered[n].checkpointStatus)
    ensures !NeverEnds(ordered, byStage, approved)
  {
    assert ordered[n] in ordered;
    if i: nat :| FirstToEnd(ordered, byStage, approved, i) && TrimSpace(ordered[i].checkpointStatus) == checkpoint {
      assert i == n;
    }
  }

  lemma EndedVerdict(ordered: seq<StageSpec>, target: DeliveryTarget, byStage: ByStage, approved: bool, n: nat)
    requires FirstToEnd(ordered, byStage, approved, n)
    ensures IsVerdict(StopStatus(ordered[n]), ordered, target, byStage, approved)
  {
    StatusesDiffer();
    OnlyFirst(ordered, byStage, approved, n, RUN_COMPLETED);
    OnlyFirst(ordered, byStage, approved, n, RUN_AWAITING_APPROVAL);
    OnlyFirst(ordered, byStage, approved, n, RUN_FAILED);
  }

  lemma EndsNowhere(ordered: seq<StageSpec>, byStage: ByStage, approved: bool, checkpoint: string)
    requires NeverEnds(ordered, byStage, approved)
    ensures !EndsAt(ordered, byStage, approved, checkpoint)
  {
  }

  lemma UnendedVerdict(status: string, ordered: seq<StageSpec>, target: DeliveryTarget, byStage: ByStage, approved: bool)
    requires NeverEnds(ordered, byStage, approved)
    requires status == if GivenUp(ordered, target, byStage) then RUN_FAILED
                       else if UnderWay(ordered, target, byStage, approved) then RUN_ACTIVE else RUN_PENDING
    ensures IsVerdict(status, ordered, target, byStage, approved)
  {
    StatusesDiffer();
    EndsNowhere(ordered, byStage, approved, RUN_COMPLETED);
    EndsNowhere(ordered, byStage, approved, RUN_AWAITING_APPROVAL);
    EndsNowhere(ordered, byStage, approved, RUN_FAILED);
  }

  /** The status of an evaluation: each of the five exactly under its own condition. */
  lemma EvaluationIsVerdict(ordered: seq<StageSpec>, target: DeliveryTarget, byStage: ByStage, approved: bool)
    ensures IsVerdict(Evaluated(ordered, target, byStage, approved).status, ordered, target, byStage, approved)
  {
    var n := StopAt(ordered, byStage, approved);
    StopAtIsFirst(ordered, byStage, approved);
    if n < |ordered| {
      EndedVerdict(ordered, target, byStage, approved, n);
    } else {
      FailedIffGivenUp(ordered, target, byStage);
      UnderWayIff(ordered, target, byStage, approved);
      UnendedVerdict(Evaluated(ordered, target, byStage, approved).status, ordered, target, byStage, approved);
    }
  }
}
