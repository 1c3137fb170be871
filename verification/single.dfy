/** A run of one stage whose success waits for approval, followed from the empty state. */
module SingleStage {
  import opened Ids
  import opened Model
  import opened Plan
  import opened Protocol
  import opened Reach

  const ISSUE := "issue"
  const STAGE := "release"
  const RUN_ID := FormatID(RUN, 1)
  const ATTEMPT_ID := FormatID(ATTEMPT, 1)

  const SPEC := StageSpec(STAGE, [], "", "", RUN_AWAITING_APPROVAL, [], [], "", "", false, 1, [])
  const PLAN := ExecutionPlan(RUN_AWAITING_APPROVAL, [StageFor(SPEC)])

  /** The stage's only attempt. */
  function TheAttempt(status: AttemptStatus, lease: Option<int>): StageAttempt {
    StageAttempt(ATTEMPT_ID, RUN_ID, STAGE, 1, status, "", lease, [])
  }

  function TheRun(target: DeliveryTarget, status: string): Run {
    Run(RUN_ID, ISSUE, target, status, 0)
  }

  /** The issue with its run, before the stage has an attempt and after. */
  function Unstarted(issue: Issue, status: string): State {
    State(map[ISSUE := issue], map[RUN_ID := TheRun(issue.delivery, status)], map[], map[RUN := 1], map[RUN_ID := PLAN], map[], 0)
  }

  function Attempted(issue: Issue, status: string, a: StageAttempt): State {
    State(map[ISSUE := issue], map[RUN_ID := TheRun(issue.delivery, status)], map[ATTEMPT_ID := a],
          map[RUN := 1, ATTEMPT := 1], map[RUN_ID := PLAN], map[], 0)
  }

  const DONE := TheAttempt(Succeeded, None)

  /** The stage has succeeded, and the run has this status. */
  function Situation(issue: Issue, status: string): State {
    Attempted(issue, status, DONE)
  }

  function Relabelled(issue: Issue, status: string): Issue {
    issue.(labels := Relabel(issue.labels, status))
  }

  // ---- From the empty state to the stage's success ----

  lemma PlanOfOne()
    ensures SpecsOf(PLAN.stages) == [SPEC] && UniqueNames(SpecsOf(PLAN.stages)) && Simple(SPEC) && SPEC.name == STAGE
  {
    assert |STAGE| > 0 && |QUEUE_MODE_TRIGGERED| > 0;
  }

  function Listed(issue: Issue): Issue {
    Issue({LABEL_REQUESTED}, false, issue.delivery)
  }

  lemma ReachesPlanned(issue: Issue)
    ensures Reaches(Unstarted(Listed(issue), RUN_PENDING))
  {
    var first := Listed(issue);
    var s1 := INITIAL.(issues := map[ISSUE := first]);
    ReachesStart();
    assert INITIAL.issues + map[ISSUE := first] == map[ISSUE := first];
    ReachesNext(INITIAL, s1, Enqueue(map[ISSUE := first]));
    FirstRun(s1, ISSUE);
    ReachesNext(s1, WithRun(s1, ISSUE), EnsureRun(ISSUE, Ok(NewRun(s1, ISSUE))));
    PlanOfOne();
    assert Materialized(WithRun(s1, ISSUE), Unstarted(first, RUN_PENDING), RUN_ID, PLAN);
    ReachesNext(WithRun(s1, ISSUE), Unstarted(first, RUN_PENDING), Materialize(RUN_ID, PLAN));
  }

  lemma QueueIt(issue: Issue)
    requires Considered(issue)
    ensures Step(Unstarted(issue, RUN_PENDING), Attempted(Relabelled(issue, RUN_ACTIVE), RUN_ACTIVE, TheAttempt(Pending, None)), Reconcile(ISSUE))
  {
    var s := Unstarted(issue, RUN_PENDING);
    PlanOfOne();
    OnlyRun(issue);
    QueueOnlyStage(s, ISSUE, s.runs[RUN_ID], SPEC);
    QueuedIt(issue);
  }

  lemma OnlyRun(issue: Issue)
    ensures Latest(Unstarted(issue, RUN_PENDING), ISSUE, TheRun(issue.delivery, RUN_PENDING))
  {
  }

  lemma QueuedIt(issue: Issue)
    ensures WithQueued(Unstarted(issue, RUN_PENDING), ISSUE, TheRun(issue.delivery, RUN_PENDING), STAGE)
         == Attempted(Relabelled(issue, RUN_ACTIVE), RUN_ACTIVE, TheAttempt(Pending, None))
  {
    assert RUN != ATTEMPT;
  }

  lemma HasItsPlan(issue: Issue, status: string, a: StageAttempt)
    requires a.runID == RUN_ID && a.stage == STAGE
    ensures HasPlan(Attempted(issue, status, a), a) && Keys(Attempted(issue, status, a), a) == []
  {
    PlanOfOne();
    SpecMapUnique([SPEC], 0);
  }

  lemma ClaimIt(issue: Issue)
    ensures Step(Attempted(issue, RUN_ACTIVE, TheAttempt(Pending, None)), Attempted(issue, RUN_ACTIVE, TheAttempt(Running, Some(0))),
                 Claim("", 0, [], ISSUE, Attempt(ATTEMPT_ID)))
  {
    var s := Attempted(issue, RUN_ACTIVE, TheAttempt(Pending, None));
    HasItsPlan(issue, RUN_ACTIVE, TheAttempt(Pending, None));
    assert RUN_ACTIVE[0] == 'a' && RUN_FAILED[0] == 'f' && RUN_COMPLETED[0] == 'c';
    assert Eligible(s, ATTEMPT_ID, [], ISSUE);
    ClaimOnlyOne(s, ATTEMPT_ID, "", 0, ISSUE);
    assert WithClaim(s, ATTEMPT_ID, "", 0) == Attempted(issue, RUN_ACTIVE, TheAttempt(Running, Some(0)));
  }

  lemma CompleteIt(issue: Issue)
    ensures Step(Attempted(issue, RUN_ACTIVE, TheAttempt(Running, Some(0))), Situation(issue, RUN_ACTIVE), Complete(ATTEMPT_ID, "succeeded"))
  {
  }

  /** The code gets there, with any issue. */
  lemma SituationReached(issue: Issue)
    ensures Reaches(Situation(issue, RUN_ACTIVE))
  {
    var first := Listed(issue);
    var active := Relabelled(first, RUN_ACTIVE);
    ReachesPlanned(issue);
    QueueIt(first);
    ReachesNext(Unstarted(first, RUN_PENDING), Attempted(active, RUN_ACTIVE, TheAttempt(Pending, None)), Reconcile(ISSUE));
    ClaimIt(active);
    ReachesNext(Attempted(active, RUN_ACTIVE, TheAttempt(Pending, None)), Attempted(active, RUN_ACTIVE, TheAttempt(Running, Some(0))),
                Claim("", 0, [], ISSUE, Attempt(ATTEMPT_ID)));
    CompleteIt(active);
    ReachesNext(Attempted(active, RUN_ACTIVE, TheAttempt(Running, Some(0))), Situation(active, RUN_ACTIVE), Complete(ATTEMPT_ID, "succeeded"));
    Relist(active, issue);
    ReachesNext(Situation(active, RUN_ACTIVE), Situation(issue, RUN_ACTIVE), Enqueue(map[ISSUE := issue]));
  }

  /** Listing the issue anew, with other labels or another approval. */
  lemma Relist(issue: Issue, again: Issue)
    requires again.delivery == issue.delivery
    ensures forall status :: Step(Situation(issue, status), Situation(again, status), Enqueue(map[ISSUE := again]))
  {
    assert map[ISSUE := issue] + map[ISSUE := again] == map[ISSUE := again];
  }
}
