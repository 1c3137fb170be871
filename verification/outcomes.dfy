/** What reconciling an issue does to its run, its labels and its stages, told by the fields of what it looks at. */
module Outcomes {
  import Ids
  import opened Model
  import opened StageGraph
  import opened Plan
  import opened Execution
  import opened Verdicts
  import opened Protocol
  import opened Invariants
  import opened Queueing

  // ---- Labels ----

  /** Of the delivery labels the issue has exactly the one that says the status; its other labels are as they were. */
  ghost predicate LabelsSay(before: set<string>, after: set<string>, status: string) {
    forall l :: l in after <==> LabelSays(before, l, status)
  }

  ghost predicate LabelSays(before: set<string>, l: string, status: string) {
    || (l == LABEL_AWAITING_APPROVAL && status == RUN_AWAITING_APPROVAL)
    || (l == LABEL_COMPLETED && status == RUN_COMPLETED)
    || (l == LABEL_FAILED && status == RUN_FAILED)
    || (l == LABEL_ACTIVE && (status == RUN_ACTIVE || status == RUN_PENDING))
    || (l in before && !(LABEL_PREFIX <= l))
  }

  ghost predicate IsStatus(status: string) {
    status == RUN_PENDING || status == RUN_ACTIVE || status == RUN_AWAITING_APPROVAL || status == RUN_COMPLETED || status == RUN_FAILED
  }

  lemma RelabelledSays(labels: set<string>, status: string)
    requires IsStatus(status)
    ensures LabelsSay(labels, Relabel(labels, status), status)
  {
    StatusesDiffer();
  }

  lemma EvaluatedStatus(ordered: seq<StageSpec>, target: DeliveryTarget, byStage: ByStage, approved: bool)
    ensures IsStatus(Evaluated(ordered, target, byStage, approved).status)
  {
  }

  // ---- Room ----

  /** The attempts of the stage that are running, but for those whose lease has ended. */
  ghost function Busy(s: State, stage: string, at: int): set<string> {
    set id | id in s.attempts && s.attempts[id].stage == stage && s.attempts[id].status == Running
          && (s.attempts[id].leaseExpiresAt.Some? ==> s.attempts[id].leaseExpiresAt.value >= at)
  }

  /** There is always room for one, and for as many as the stage allows. */
  ghost predicate HasRoom(s: State, spec: StageSpec, at: int) {
    |Busy(s, spec.name, at)| == 0 || |Busy(s, spec.name, at)| < spec.maxParallelism
  }

  lemma RoomIff(s: State, spec: StageSpec, at: int)
    ensures |RunningAt(s.attempts, spec.name, at)| < Capacity(spec) <==> HasRoom(s, spec, at)
  {
    assert RunningAt(s.attempts, spec.name, at) == Busy(s, spec.name, at);
  }

  lemma {:induction false} AcceptedHadRoom(s: State, from: int, to: int, runnable: seq<StageSpec>, accepted: seq<StageSpec>, spec: StageSpec)
    requires Accepts(s.attempts, from, to, runnable, accepted)
    ensures spec in accepted ==> spec in runnable && HasRoom(s, spec, to)
    ensures spec in runnable && spec !in accepted ==> !HasRoom(s, spec, from)
  {
    if |runnable| > 0 {
      var front, last := runnable[..|runnable| - 1], runnable[|runnable| - 1];
      assert runnable == front + [last];
      RoomIff(s, last, from);
      RoomIff(s, last, to);
      if Accepts(s.attempts, from, to, front, accepted) && |RunningAt(s.attempts, last.name, from)| >= Capacity(last) {
        AcceptedHadRoom(s, from, to, front, accepted, spec);
      } else {
        AcceptedHadRoom(s, from, to, front, accepted[..|accepted| - 1], spec);
        assert accepted == accepted[..|accepted| - 1] + [last];
      }
    }
  }

  // ---- New attempts ----

  /** The attempt is new: a first one for the stage, which nobody has taken yet. */
  ghost predicate IsNewFor(s: State, t: State, id: string, runID: string, stage: string) {
    id !in s.attempts && id in t.attempts && t.attempts[id] == StageAttempt(id, runID, stage, 1, Pending, "", None, [])
  }

  ghost predicate GetsAttempt(s: State, t: State, runID: string, stage: string) {
    exists id :: IsNewFor(s, t, id, runID, stage)
  }

  ghost predicate Keeps(s: State, t: State) {
    forall id :: id in s.attempts ==> id in t.attempts && t.attempts[id] == s.attempts[id]
  }

  /** Every new attempt is for one of these stages. */
  ghost predicate QueuesOnly(s: State, t: State, runID: string, stages: set<string>) {
    forall id :: id in t.attempts && id !in s.attempts ==> t.attempts[id].stage in stages && IsNewFor(s, t, id, runID, t.attempts[id].stage)
  }

  /** Each of these stages has got an attempt. */
  ghost predicate QueuesEach(s: State, t: State, runID: string, stages: set<string>) {
    forall stage :: stage in stages ==> GetsAttempt(s, t, runID, stage)
  }

  ghost function StagesOf(specs: seq<StageSpec>): set<string> {
    set spec | spec in specs :: spec.name
  }

  lemma {:induction false} AllQueued(s: State, runID: string, specs: seq<StageSpec>)
    requires GoodIds(s)
    ensures var t := QueueAll(s, runID, specs);
      Keeps(s, t) && QueuesOnly(s, t, runID, StagesOf(specs)) && QueuesEach(s, t, runID, StagesOf(specs))
  {
    if |specs| > 0 {
      var front, last := specs[..|specs| - 1], specs[|specs| - 1];
      var q := QueueAll(s, runID, front);
      AllQueued(s, runID, front);
      QueueAllExtends(s, runID, front);
      QueueIds(q, runID, last.name);
      StagesOfLast(specs);
      var id := Ids.FormatID(Ids.ATTEMPT, Counter(q, Ids.ATTEMPT) + 1);
      OneMoreOnly(s, q, id, runID, StagesOf(front), last.name);
      OneMoreEach(s, q, id, runID, StagesOf(front), last.name);
    }
  }

  lemma StagesOfLast(specs: seq<StageSpec>)
    requires |specs| > 0
    ensures StagesOf(specs) == StagesOf(specs[..|specs| - 1]) + {specs[|specs| - 1].name}
  {
    assert specs == specs[..|specs| - 1] + [specs[|specs| - 1]];
  }

  lemma OneMoreOnly(s: State, q: State, id: string, runID: string, stages: set<string>, stage: string)
    requires Keeps(s, q) && QueuesOnly(s, q, runID, stages) && id !in q.attempts
    ensures Keeps(s, QueuedAs(q, id, runID, stage)) && QueuesOnly(s, QueuedAs(q, id, runID, stage), runID, stages + {stage})
  {
  }

  lemma OneMoreEach(s: State, q: State, id: string, runID: string, stages: set<string>, stage: string)
    requires Keeps(s, q) && QueuesEach(s, q, runID, stages) && id !in q.attempts
    ensures QueuesEach(s, QueuedAs(q, id, runID, stage), runID, stages + {stage})
  {
    var t := QueuedAs(q, id, runID, stage);
    assert IsNewFor(s, t, id, runID, stage);
    forall n | n in stages ensures GetsAttempt(s, t, runID, n) {
      var other :| IsNewFor(s, q, other, runID, n);
      assert IsNewFor(s, t, other, runID, n);
    }
  }

  // ---- In which order ----

  /** The `k`-th of the specs has got the `k`-th of the next identifiers, and no other identifier is new. */
  ghost predicate InTurn(s: State, t: State, runID: string, specs: seq<StageSpec>) {
    && Counter(t, Ids.ATTEMPT) == Counter(s, Ids.ATTEMPT) + |specs|
    && (forall k :: 0 <= k < |specs| ==> TurnOf(s, t, runID, specs, k))
    && (forall id :: id in t.attempts && id !in s.attempts ==> exists k :: 0 <= k < |specs| && id == NextID(s, k))
  }

  ghost function NextID(s: State, k: nat): string {
    Ids.FormatID(Ids.ATTEMPT, Counter(s, Ids.ATTEMPT) + 1 + k)
  }

  ghost predicate TurnOf(s: State, t: State, runID: string, specs: seq<StageSpec>, k: int) {
    0 <= k < |specs| && IsNewFor(s, t, NextID(s, k), runID, specs[k].name)
  }

  lemma {:induction false} AllInTurn(s: State, runID: string, specs: seq<StageSpec>)
    requires GoodIds(s)
    ensures InTurn(s, QueueAll(s, runID, specs), runID, specs)
  {
    if |specs| > 0 {
      var front, last := specs[..|specs| - 1], specs[|specs| - 1];
      var q := QueueAll(s, runID, front);
      AllInTurn(s, runID, front);
      AllQueued(s, runID, front);
      QueueAllExtends(s, runID, front);
      QueueIds(q, runID, last.name);
      NextInTurn(s, q, QueueAll(s, runID, specs), NextID(s, |front|), runID, specs);
    }
  }

  lemma NextInTurn(s: State, q: State, t: State, id: string, runID: string, specs: seq<StageSpec>)
    requires |specs| > 0 && InTurn(s, q, runID, specs[..|specs| - 1]) && Keeps(s, q)
    requires id == NextID(s, |specs| - 1) && id !in q.attempts && t == QueuedAs(q, id, runID, specs[|specs| - 1].name)
    ensures InTurn(s, t, runID, specs)
  {
    var front := specs[..|specs| - 1];
    forall k | 0 <= k < |specs| ensures TurnOf(s, t, runID, specs, k) {
      if k < |front| { assert TurnOf(s, q, runID, front, k); }
    }
    forall other | other in t.attempts && other !in s.attempts ensures exists k :: 0 <= k < |specs| && other == NextID(s, k) {
      if other != id {
        var k :| 0 <= k < |front| && other == NextID(s, k);
        assert 0 <= k < |specs|;
      } else {
        assert 0 <= |specs| - 1 < |specs|;
      }
    }
  }

  lemma {:induction false} AcceptedInOrder(s: State, from: int, to: int, runnable: seq<StageSpec>, accepted: seq<StageSpec>)
    requires Accepts(s.attempts, from, to, runnable, accepted)
    ensures InOrderOf(accepted, runnable)
  {
    if |runnable| > 0 {
      var front, last := runnable[..|runnable| - 1], runnable[|runnable| - 1];
      assert runnable == front + [last];
      if Accepts(s.attempts, from, to, front, accepted) && |RunningAt(s.attempts, last.name, from)| >= Capacity(last) {
        AcceptedInOrder(s, from, to, front, accepted);
        AcceptedAreRunnable(s.attempts, from, to, front, accepted);
        InOrderNext(accepted, front, last);
      } else {
        var earlier := accepted[..|accepted| - 1];
        AcceptedInOrder(s, from, to, front, earlier);
        AcceptedAreRunnable(s.attempts, from, to, front, earlier);
        InOrderNext(earlier, front, last);
        assert accepted == earlier + [last];
      }
    }
  }

  lemma InOrderTwice(part: seq<StageSpec>, some: seq<StageSpec>, all: seq<StageSpec>)
    requires InOrderOf(part, some) && InOrderOf(some, all)
    ensures InOrderOf(part, all)
  {
    forall i, j | 0 <= i < j < |part| ensures StandsBefore(all, part[i], part[j]) {
      assert StandsBefore(some, part[i], part[j]);
      var p, q :| 0 <= p < q < |some| && some[p] == part[i] && some[q] == part[j];
      assert StandsBefore(all, some[p], some[q]);
    }
  }

  /** Triggered stages have their turn before automatic ones, and otherwise the plan's order decides. */
  ghost predicate HasTurnBefore(ordered: seq<StageSpec>, a: StageSpec, b: StageSpec) {
    if (a.queueMode == QUEUE_MODE_TRIGGERED) == (b.queueMode == QUEUE_MODE_TRIGGERED) then StandsBefore(ordered, a, b)
    else a.queueMode == QUEUE_MODE_TRIGGERED && a in ordered && b in ordered
  }

  ghost predicate StagesHaveTurns(ordered: seq<StageSpec>, a: string, b: string) {
    exists x: StageSpec, y: StageSpec :: x.name == a && y.name == b && HasTurnBefore(ordered, x, y)
  }

  ghost predicate IsNewNumber(s: State, t: State, m: nat) {
    Ids.FormatID(Ids.ATTEMPT, m) in t.attempts && Ids.FormatID(Ids.ATTEMPT, m) !in s.attempts
  }

  /** New attempts are numbered in the order of their turns, which is the order in which they will be claimed. */
  ghost predicate NumbersInOrder(s: State, t: State, ordered: seq<StageSpec>) {
    forall m: nat, n: nat :: m < n && IsNewNumber(s, t, m) && IsNewNumber(s, t, n) ==>
      StagesHaveTurns(ordered, t.attempts[Ids.FormatID(Ids.ATTEMPT, m)].stage, t.attempts[Ids.FormatID(Ids.ATTEMPT, n)].stage)
  }

  /** Triggered stages of the plan, or automatic ones, in its order. */
  ghost predicate Batch(ordered: seq<StageSpec>, specs: seq<StageSpec>, triggered: bool) {
    InOrderOf(specs, ordered) && forall x :: x in specs ==> x in ordered && (x.queueMode == QUEUE_MODE_TRIGGERED) == triggered
  }

  lemma BatchesInOrder(ordered: seq<StageSpec>, triggered: seq<StageSpec>, automatic: seq<StageSpec>, i: nat, j: nat)
    requires Batch(ordered, triggered, true) && Batch(ordered, automatic, false) && i < j < |triggered + automatic|
    ensures HasTurnBefore(ordered, (triggered + automatic)[i], (triggered + automatic)[j])
  {
    if j < |triggered| {
      assert triggered[i] in triggered && triggered[j] in triggered;
    } else if i < |triggered| {
      assert triggered[i] in triggered && automatic[j - |triggered|] in automatic;
    } else {
      assert automatic[i - |triggered|] in automatic && automatic[j - |triggered|] in automatic;
    }
  }

  lemma QueuedBatches(s: State, to: int, target: DeliveryTarget, ordered: seq<StageSpec>, byStage: ByStage, approved: bool, accepted: seq<StageSpec>)
    requires Accepts(s.attempts, s.now, to, Evaluated(ordered, target, byStage, approved).runnable, accepted)
    ensures Batch(ordered, Evaluated(ordered, target, byStage, approved).triggered, true) && Batch(ordered, accepted, false)
  {
    var e := Evaluated(ordered, target, byStage, approved);
    OffersInOrder(ordered, target, byStage, approved);
    AcceptedInOrder(s, s.now, to, e.runnable, accepted);
    AcceptedAreRunnable(s.attempts, s.now, to, e.runnable, accepted);
    InOrderTwice(accepted, e.runnable, ordered);
    forall x ensures x in e.triggered ==> x in ordered && x.queueMode == QUEUE_MODE_TRIGGERED { OffersExactly(ordered, target, byStage, approved, x); }
    forall x ensures x in e.runnable ==> x in ordered && x.queueMode != QUEUE_MODE_TRIGGERED { OffersExactly(ordered, target, byStage, approved, x); }
  }

  lemma QueuedInOrder(s: State, q: State, t: State, r: Run, ordered: seq<StageSpec>, byStage: ByStage, approved: bool, accepted: seq<StageSpec>)
    requires GoodIds(s) && t.attempts == q.attempts
    requires Accepts(s.attempts, s.now, t.now, Evaluated(ordered, r.target, byStage, approved).runnable, accepted)
    requires q == QueueAll(s, r.id, Evaluated(ordered, r.target, byStage, approved).triggered + accepted)
    ensures NumbersInOrder(s, t, ordered)
  {
    var queued := Evaluated(ordered, r.target, byStage, approved).triggered + accepted;
    AllInTurn(s, r.id, queued);
    QueuedBatches(s, t.now, r.target, ordered, byStage, approved, accepted);
    forall m: nat, n: nat | m < n && IsNewNumber(s, t, m) && IsNewNumber(s, t, n)
      ensures StagesHaveTurns(ordered, t.attempts[Ids.FormatID(Ids.ATTEMPT, m)].stage, t.attempts[Ids.FormatID(Ids.ATTEMPT, n)].stage)
    {
      var i := TurnOfNumber(s, q, r.id, queued, m);
      var j := TurnOfNumber(s, q, r.id, queued, n);
      BatchesInOrder(ordered, Evaluated(ordered, r.target, byStage, approved).triggered, accepted, i, j);
    }
  }

  lemma TurnOfNumber(s: State, q: State, runID: string, specs: seq<StageSpec>, m: nat) returns (k: nat)
    requires InTurn(s, q, runID, specs) && IsNewNumber(s, q, m)
    ensures k < |specs| && m == Counter(s, Ids.ATTEMPT) + 1 + k && q.attempts[Ids.FormatID(Ids.ATTEMPT, m)].stage == specs[k].name
  {
    k :| 0 <= k < |specs| && Ids.FormatID(Ids.ATTEMPT, m) == NextID(s, k);
    Ids.IdsAreInjective(Ids.ATTEMPT, m, Counter(s, Ids.ATTEMPT) + 1 + k);
    assert TurnOf(s, q, runID, specs, k);
  }

  // ---- One iteration of the loop ----

  /** The stage is to be queued: it is set off, or it is automatic and there is room. */
  ghost predicate IsDue(s: State, at: int, ordered: seq<StageSpec>, target: DeliveryTarget, byStage: ByStage, approved: bool, spec: StageSpec) {
    && Passes(ordered, byStage, approved, spec)
    && (SetOff(spec, target, byStage) || (Automatic(spec, byStage, approved) && HasRoom(s, spec, at)))
  }

  /** What is due to the end of the call may be queued, what is due all the time is queued, and nothing else happens to the attempts. */
  ghost predicate QueuesWhatIsDue(s: State, t: State, runID: string, ordered: seq<StageSpec>, target: DeliveryTarget, byStage: ByStage, approved: bool) {
    && Keeps(s, t)
    && (forall id :: id in t.attempts && id !in s.attempts ==>
          exists spec :: IsDue(s, t.now, ordered, target, byStage, approved, spec) && IsNewFor(s, t, id, runID, spec.name))
    && (forall spec :: IsDue(s, s.now, ordered, target, byStage, approved, spec) ==> GetsAttempt(s, t, runID, spec.name))
  }

  ghost predicate InDelivery(issue: Issue) {
    LABEL_REQUESTED in issue.labels || LABEL_ACTIVE in issue.labels || LABEL_AWAITING_APPROVAL in issue.labels
  }

  /** `runID` is a most recently created run of the issue. */
  ghost predicate IsNewest(s: State, issueID: string, runID: string) {
    && runID in s.runs && s.runs[runID].issueID == issueID
    && forall q :: q in s.runs && s.runs[q].issueID == issueID ==> s.runs[q].createdAt <= s.runs[runID].createdAt
  }

  ghost predicate ReconciledAs(s: State, t: State, issueID: string, runID: string, before: ByStage, after: ByStage) {
    && issueID in s.issues && IsNewest(s, issueID, runID) && runID in s.plans
    && IsByStage(s.attempts, runID, before) && IsByStage(t.attempts, runID, after)
    && var issue, ordered, target := s.issues[issueID], Ordered(SpecsOf(s.plans[runID].stages)), s.runs[runID].target;
    && var approved := issue.approved || LABEL_APPROVED in issue.labels;
    && QueuesWhatIsDue(s, t, runID, ordered, target, before, approved) && NumbersInOrder(s, t, ordered)
    && runID in t.runs && t.runs == s.runs[runID := s.runs[runID].(status := t.runs[runID].status)]
    && IsVerdict(t.runs[runID].status, ordered, target, after, approved)
    && issueID in t.issues && t.issues == s.issues[issueID := issue.(labels := t.issues[issueID].labels)]
    && LabelsSay(issue.labels, t.issues[issueID].labels, t.runs[runID].status)
    && t.plans == s.plans && t.locks == s.locks && s.now <= t.now
  }

  lemma QueuedWhatIsDue(s: State, q: State, t: State, r: Run, ordered: seq<StageSpec>, byStage: ByStage, approved: bool, accepted: seq<StageSpec>)
    requires GoodIds(s) && t.attempts == q.attempts
    requires Accepts(s.attempts, s.now, t.now, Evaluated(ordered, r.target, byStage, approved).runnable, accepted)
    requires q == QueueAll(s, r.id, Evaluated(ordered, r.target, byStage, approved).triggered + accepted)
    ensures QueuesWhatIsDue(s, t, r.id, ordered, r.target, byStage, approved)
  {
    var e := Evaluated(ordered, r.target, byStage, approved);
    var queued := e.triggered + accepted;
    AllQueued(s, r.id, queued);
    forall id | id in t.attempts && id !in s.attempts
      ensures exists spec :: IsDue(s, t.now, ordered, r.target, byStage, approved, spec) && IsNewFor(s, t, id, r.id, spec.name)
    {
      var spec :| spec in queued && spec.name == q.attempts[id].stage;
      QueuedIsDue(s, t.now, r, ordered, byStage, approved, accepted, spec);
      assert IsNewFor(s, t, id, r.id, spec.name);
    }
    forall spec | IsDue(s, s.now, ordered, r.target, byStage, approved, spec) ensures GetsAttempt(s, t, r.id, spec.name) {
      DueIsQueued(s, t.now, r, ordered, byStage, approved, accepted, spec);
      assert spec.name in StagesOf(queued);
      var id :| IsNewFor(s, q, id, r.id, spec.name);
      assert IsNewFor(s, t, id, r.id, spec.name);
    }
  }

  lemma QueuedIsDue(s: State, to: int, r: Run, ordered: seq<StageSpec>, byStage: ByStage, approved: bool, accepted: seq<StageSpec>, spec: StageSpec)
    requires Accepts(s.attempts, s.now, to, Evaluated(ordered, r.target, byStage, approved).runnable, accepted)
    requires spec in Evaluated(ordered, r.target, byStage, approved).triggered + accepted
    ensures IsDue(s, to, ordered, r.target, byStage, approved, spec)
  {
    OffersExactly(ordered, r.target, byStage, approved, spec);
    AcceptedHadRoom(s, s.now, to, Evaluated(ordered, r.target, byStage, approved).runnable, accepted, spec);
  }

  lemma DueIsQueued(s: State, to: int, r: Run, ordered: seq<StageSpec>, byStage: ByStage, approved: bool, accepted: seq<StageSpec>, spec: StageSpec)
    requires Accepts(s.attempts, s.now, to, Evaluated(ordered, r.target, byStage, approved).runnable, accepted)
    requires IsDue(s, s.now, ordered, r.target, byStage, approved, spec)
    ensures spec in Evaluated(ordered, r.target, byStage, approved).triggered + accepted
  {
    OffersExactly(ordered, r.target, byStage, approved, spec);
    AcceptedHadRoom(s, s.now, to, Evaluated(ordered, r.target, byStage, approved).runnable, accepted, spec);
  }

  lemma ReconciledWithAs(s: State, t: State, issueID: string, r: Run, m: ByStage, accepted: seq<StageSpec>, after: ByStage)
    requires GoodIds(s) && ReconciledWith(s, t, issueID, r, m, accepted, after)
    ensures ReconciledAs(s, t, issueID, r.id, m, after)
  {
    var ordered, approved := Ordered(SpecsFor(s, r.id)), Approved(s.issues[issueID]);
    var queued := Evaluation0(s, s.issues[issueID], r, m).triggered + accepted;
    QueueAllFrame(s, r.id, queued);
    QueuedWhatIsDue(s, QueueAll(s, r.id, queued), t, r, ordered, m, approved, accepted);
    QueuedInOrder(s, QueueAll(s, r.id, queued), t, r, ordered, m, approved, accepted);
    EvaluationIsVerdict(ordered, r.target, after, approved);
    EvaluatedStatus(ordered, r.target, after, approved);
    RelabelledSays(s.issues[issueID].labels, t.runs[r.id].status);
  }

  /**
   Reconciling passes over an issue that is not in delivery or has no run.  Otherwise it queues
   what is due, gives the newest run the status that its attempts call for, and labels the issue
   with that status.
   */
  lemma ReconcileDoes(s: State, t: State, issueID: string)
    requires GoodIds(s) && Reconciled(s, t, issueID)
    ensures issueID in s.issues
    ensures InDelivery(s.issues[issueID]) && (exists q :: q in s.runs && s.runs[q].issueID == issueID) ==>
      exists runID, before, after :: ReconciledAs(s, t, issueID, runID, before, after)
    ensures !(InDelivery(s.issues[issueID]) && exists q :: q in s.runs && s.runs[q].issueID == issueID) ==>
      t == s.(now := t.now) && s.now <= t.now
  {
    if InDelivery(s.issues[issueID]) && exists q :: q in s.runs && s.runs[q].issueID == issueID {
      var r, m, accepted, after :| ReconciledWith(s, t, issueID, r, m, accepted, after);
      ReconciledWithAs(s, t, issueID, r, m, accepted, after);
    }
  }
}
