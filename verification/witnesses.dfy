/** What an issue approved by label only, and runs created at the same instant, lead to: reachable states in which promises fail. */
module Witnesses {
  import opened Text
  import opened Ids
  import opened Model
  import opened Execution
  import opened Protocol
  import opened Invariants
  import opened Queueing
  import opened Reach
  import opened SingleStage
  import opened Passes
  import opened Idempotence
  import opened Trust

  // ---- Reconciling after the stage's success ----

  lemma StageWaits()
    ensures SPEC.ApprovalCheckpoint() && !SPEC.CompletionCheckpoint() && !SPEC.FailureCheckpoint()
    ensures SPEC.AutoQueue()
  {
    TrimSpaceEnds(RUN_AWAITING_APPROVAL);
    assert |RUN_AWAITING_APPROVAL| == 17 && RUN_AWAITING_APPROVAL[0] == 'a' && RUN_AWAITING_APPROVAL[16] == 'l';
    assert RUN_COMPLETED[0] == 'c' && RUN_FAILED[0] == 'f';
  }

  /** The run waits exactly if the approval is missing. */
  function Verdict(approved: bool): string {
    if approved then RUN_ACTIVE else RUN_AWAITING_APPROVAL
  }

  /** Nothing is offered. */
  lemma NothingOffered(target: DeliveryTarget, approved: bool)
    ensures Evaluated([SPEC], target, map[STAGE := DONE], approved) == Evaluation([], [], Verdict(approved))
  {
    StageWaits();
    var m: ByStage := map[STAGE := DONE];
    assert SPEC.name in m && m[STAGE].status == Succeeded;
    assert Stops(SPEC, m, approved) == !approved;
    var all := [SPEC];
    assert all[1..] == [] && all[..1] == all && all[..0] == [];
    assert StopAt(all, m, approved) == if approved then 1 else 0;
    assert !IsReady(SPEC, m, approved) && !IsTriggered(SPEC, target, m) && !HasStatus(m, STAGE, Failed);
    assert ReadyOnes(all[..0], m, approved) == [] && TriggeredOnes(all[..0], target, m) == [];
    assert ReadyOnes(all, m, approved) == [] && TriggeredOnes(all, target, m) == [];
    assert SomeStarted(all, m) by { assert SPEC in all; }
  }

  /** The issue's run is this one, and its stage is done. */
  ghost predicate Finishing(s: State, r: Run) {
    && ISSUE in s.issues && r.id == RUN_ID && Latest(s, ISSUE, r) && RUN_ID in s.plans && s.plans[RUN_ID] == PLAN
    && IsByStage(s.attempts, RUN_ID, map[STAGE := DONE])
  }

  function WithVerdict(s: State, r: Run): State
    requires ISSUE in s.issues
  {
    var next := Verdict(Approved(s.issues[ISSUE]));
    s.(runs := s.runs[r.id := r.(status := next)], issues := s.issues[ISSUE := Relabelled(s.issues[ISSUE], next)])
  }

  lemma ReconcilesToVerdict(s: State, r: Run)
    requires Finishing(s, r) && Considered(s.issues[ISSUE])
    ensures Reconciled(s, WithVerdict(s, r), ISSUE)
  {
    PlanOfOne();
    OrderedOne(SPEC);
    NothingOffered(r.target, Approved(s.issues[ISSUE]));
    QueuesNothing(s, r, map[STAGE := DONE]);
  }

  lemma QueuesNothing(s: State, r: Run, m: ByStage)
    requires Finishing(s, r) && Considered(s.issues[ISSUE]) && IsByStage(s.attempts, r.id, m)
    requires Evaluation0(s, s.issues[ISSUE], r, m) == Evaluation([], [], Verdict(Approved(s.issues[ISSUE])))
    ensures Reconciled(s, WithVerdict(s, r), ISSUE)
  {
    assert QueueAll(s, r.id, []) == s;
    IsReconciled(s, s, WithVerdict(s, r), ISSUE, r, m, [], m);
  }

  lemma DoneIsFinishing(issue: Issue, status: string)
    ensures Finishing(Situation(issue, status), TheRun(issue.delivery, status))
  {
    assert Represents(Situation(issue, status).attempts, RUN_ID, STAGE, ATTEMPT_ID);
  }

  lemma Settles(issue: Issue, status: string)
    requires Considered(issue)
    ensures var next := Verdict(Approved(issue));
      Reconciled(Situation(issue, status), Situation(Relabelled(issue, next), next), ISSUE)
  {
    DoneIsFinishing(issue, status);
    ReconcilesToVerdict(Situation(issue, status), TheRun(issue.delivery, status));
    Settled(issue, status);
  }

  lemma Settled(issue: Issue, status: string)
    ensures var next := Verdict(Approved(issue));
      WithVerdict(Situation(issue, status), TheRun(issue.delivery, status)) == Situation(Relabelled(issue, next), next)
  {
  }

  // ---- Approval by label only ----

  lemma OneVisit(s: State, t: State, issueID: string)
    requires Visit(s, t, issueID)
    ensures PassLeads(s, [issueID], t)
  {
    assert VisitAt([s, t], [issueID], 0);
    assert Leads(s, [issueID], t, [s, t]);
  }

  /** For every issue that is approved by label only, a reachable state in which reconciling twice at one clock reading differs from once. */
  lemma LabelOnlyApprovalIsNotIdempotent(issue: Issue) returns (s: State, t: State, u: State)
    requires Considered(issue) && !ApprovedOtherThanByLabel(issue)
    ensures Reaches(s) && Invariant(s) && s.issues == map[ISSUE := issue]
    ensures PassLeads(s, [ISSUE], t) && PassLeads(t, [ISSUE], u)
    ensures RUN_ID in t.runs && t.runs[RUN_ID].status == RUN_ACTIVE
    ensures RUN_ID in u.runs && u.runs[RUN_ID].status == RUN_AWAITING_APPROVAL && u != t
  {
    var once := Relabelled(issue, RUN_ACTIVE);
    ApprovalSurvivesIff(issue, RUN_ACTIVE);
    Activates(issue.labels);
    s, t := Situation(issue, RUN_ACTIVE), Situation(once, RUN_ACTIVE);
    u := Situation(Relabelled(once, RUN_AWAITING_APPROVAL), RUN_AWAITING_APPROVAL);
    SituationReached(issue);
    ReachesCanBe(s);
    Settles(issue, RUN_ACTIVE);
    Settles(once, RUN_ACTIVE);
    OneVisit(s, t, ISSUE);
    OneVisit(t, u, ISSUE);
    Activates({});
  }

  lemma Activates(labels: set<string>)
    ensures LABEL_ACTIVE in Relabel(labels, RUN_ACTIVE) && RUN_ACTIVE != RUN_AWAITING_APPROVAL
    ensures LABEL_AWAITING_APPROVAL in Relabel(labels, RUN_AWAITING_APPROVAL)
  {
    assert RUN_ACTIVE[1] == 'c' && RUN_AWAITING_APPROVAL[1] == 'w' && RUN_COMPLETED[1] == 'o' && RUN_FAILED[1] == 'a';
  }

  // ---- Two runs of the same instant ----

  const SECOND := FormatID(RUN, 2)

  /** A second run, created when the first was waiting, at the same clock reading. */
  function Tied(issue: Issue, status: string): State {
    State(map[ISSUE := issue],
          map[RUN_ID := TheRun(issue.delivery, status), SECOND := Run(SECOND, ISSUE, issue.delivery, RUN_PENDING, 0)],
          map[ATTEMPT_ID := DONE], map[RUN := 2, ATTEMPT := 1], map[RUN_ID := PLAN], map[], 0)
  }

  lemma SecondIsAnother()
    ensures SECOND != RUN_ID
  {
    if SECOND == RUN_ID { IdsAreInjective(RUN, 2, 1); }
  }

  lemma TieCreated(issue: Issue)
    ensures Does(Situation(issue, RUN_AWAITING_APPROVAL), Tied(issue, RUN_AWAITING_APPROVAL),
                 EnsureRun(ISSUE, Ok(Run(SECOND, ISSUE, issue.delivery, RUN_PENDING, 0))))
  {
    var s, t := Situation(issue, RUN_AWAITING_APPROVAL), Tied(issue, RUN_AWAITING_APPROVAL);
    SecondIsAnother();
    assert RUN != ATTEMPT;
    assert Latest(s, ISSUE, TheRun(issue.delivery, RUN_AWAITING_APPROVAL)) && RunStatusTerminal(RUN_AWAITING_APPROVAL);
    assert RunCreated(s, t, ISSUE, Run(SECOND, ISSUE, issue.delivery, RUN_PENDING, 0));
  }

  lemma TieRelisted(issue: Issue, again: Issue)
    requires again.delivery == issue.delivery
    ensures Does(Tied(issue, RUN_AWAITING_APPROVAL), Tied(again, RUN_AWAITING_APPROVAL), Enqueue(map[ISSUE := again]))
  {
    assert map[ISSUE := issue] + map[ISSUE := again] == map[ISSUE := again];
  }

  lemma TieSettles(issue: Issue)
    requires Considered(issue) && Approved(issue)
    ensures Does(Tied(issue, RUN_AWAITING_APPROVAL), Tied(Relabelled(issue, RUN_ACTIVE), RUN_ACTIVE), Reconcile(ISSUE))
  {
    TieFinishing(issue);
    ReconcilesToVerdict(Tied(issue, RUN_AWAITING_APPROVAL), TheRun(issue.delivery, RUN_AWAITING_APPROVAL));
    TieVerdict(issue);
  }

  lemma TieFinishing(issue: Issue)
    ensures Finishing(Tied(issue, RUN_AWAITING_APPROVAL), TheRun(issue.delivery, RUN_AWAITING_APPROVAL))
  {
    SecondIsAnother();
    assert Represents(Tied(issue, RUN_AWAITING_APPROVAL).attempts, RUN_ID, STAGE, ATTEMPT_ID);
  }

  lemma TieVerdict(issue: Issue)
    requires Approved(issue)
    ensures WithVerdict(Tied(issue, RUN_AWAITING_APPROVAL), TheRun(issue.delivery, RUN_AWAITING_APPROVAL))
         == Tied(Relabelled(issue, RUN_ACTIVE), RUN_ACTIVE)
  {
    SecondIsAnother();
  }

  /** The code can come to two unfinished runs of one issue, if it creates the second at the instant of the first. */
  lemma TieLeavesTwoUnfinished(delivery: DeliveryTarget) returns (s: State)
    ensures CanBe(s) && RUN_ID in s.runs && SECOND in s.runs && RUN_ID != SECOND
    ensures s.runs[RUN_ID].issueID == s.runs[SECOND].issueID && s.runs[RUN_ID].createdAt == s.runs[SECOND].createdAt
    ensures !RunStatusTerminal(s.runs[RUN_ID].status) && !RunStatusTerminal(s.runs[SECOND].status)
  {
    var issue := Issue({LABEL_REQUESTED}, false, delivery);
    var waiting := Relabelled(issue, RUN_AWAITING_APPROVAL);
    var approved := waiting.(approved := true);
    s := Tied(Relabelled(approved, RUN_ACTIVE), RUN_ACTIVE);
    WaitingReached(issue);
    TieCreated(waiting);
    CanBeNext(Situation(waiting, RUN_AWAITING_APPROVAL), Tied(waiting, RUN_AWAITING_APPROVAL),
              EnsureRun(ISSUE, Ok(Run(SECOND, ISSUE, delivery, RUN_PENDING, 0))));
    TieRelisted(waiting, approved);
    CanBeNext(Tied(waiting, RUN_AWAITING_APPROVAL), Tied(approved, RUN_AWAITING_APPROVAL), Enqueue(map[ISSUE := approved]));
    Activates(issue.labels);
    TieSettles(approved);
    CanBeNext(Tied(approved, RUN_AWAITING_APPROVAL), s, Reconcile(ISSUE));
    SecondIsAnother();
    PendingIsUnfinished();
  }

  lemma WaitingReached(issue: Issue)
    requires Considered(issue) && !Approved(issue)
    ensures CanBe(Situation(Relabelled(issue, RUN_AWAITING_APPROVAL), RUN_AWAITING_APPROVAL))
  {
    SituationReached(issue);
    Settles(issue, RUN_ACTIVE);
    ReachesNext(Situation(issue, RUN_ACTIVE), Situation(Relabelled(issue, RUN_AWAITING_APPROVAL), RUN_AWAITING_APPROVAL), Reconcile(ISSUE));
    ReachesCanBe(Situation(Relabelled(issue, RUN_AWAITING_APPROVAL), RUN_AWAITING_APPROVAL));
  }
}
