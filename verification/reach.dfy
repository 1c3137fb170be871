/** Reaching a state: by what the code can do at all, and by what it does when its callers can be trusted. */
module Reach {
  import opened Names
  import opened Ids
  import opened Model
  import opened StageGraph
  import opened Execution
  import opened Protocol
  import opened Invariants
  import opened Queueing
  import opened Steps

  // ---- Longer histories and behaviours ----

  ghost predicate HistoryTo(states: seq<State>, labels: seq<Label>, s: State) {
    History(states, labels) && states[|labels|] == s
  }

  ghost predicate BehaviourTo(states: seq<State>, labels: seq<Label>, s: State) {
    Behaviour(states, labels) && states[|labels|] == s
  }

  /** The code can get here. */
  ghost predicate CanBe(s: State) {
    exists states, labels :: HistoryTo(states, labels, s)
  }

  /** It can even if every caller can be trusted. */
  ghost predicate Reaches(s: State) {
    exists states, labels :: BehaviourTo(states, labels, s)
  }

  lemma HistoryGrows(states: seq<State>, labels: seq<Label>, t: State, l: Label)
    requires History(states, labels) && Does(states[|labels|], t, l)
    ensures HistoryTo(states + [t], labels + [l], t)
  {
    forall i: nat | i < |labels| + 1 ensures DoesAt(states + [t], labels + [l], i) {
      if i < |labels| { assert DoesAt(states, labels, i); }
    }
  }

  lemma BehaviourGrows(states: seq<State>, labels: seq<Label>, t: State, l: Label)
    requires Behaviour(states, labels) && Step(states[|labels|], t, l)
    ensures BehaviourTo(states + [t], labels + [l], t)
  {
    forall i: nat | i < |labels| + 1 ensures StepAt(states + [t], labels + [l], i) {
      if i < |labels| { assert StepAt(states, labels, i); }
    }
  }

  lemma ReachesStart()
    ensures Reaches(INITIAL)
  {
    assert BehaviourTo([INITIAL], [], INITIAL);
  }

  lemma ReachesNext(s: State, t: State, l: Label)
    requires Reaches(s) && Step(s, t, l)
    ensures Reaches(t)
  {
    var states, labels :| BehaviourTo(states, labels, s);
    BehaviourGrows(states, labels, t, l);
  }

  lemma CanBeNext(s: State, t: State, l: Label)
    requires CanBe(s) && Does(s, t, l)
    ensures CanBe(t)
  {
    var states, labels :| HistoryTo(states, labels, s);
    HistoryGrows(states, labels, t, l);
  }

  lemma ReachesCanBe(s: State)
    requires Reaches(s)
    ensures CanBe(s) && Invariant(s)
  {
    var states, labels :| BehaviourTo(states, labels, s);
    forall i: nat | i < |labels| ensures DoesAt(states, labels, i) { assert StepAt(states, labels, i); }
    assert HistoryTo(states, labels, s);
    Reachable(states, labels, |labels|);
  }

  /** A history is a behaviour if its callers can be trusted at every step. */
  lemma TrustedHistory(states: seq<State>, labels: seq<Label>)
    requires History(states, labels) && forall i: nat :: i < |labels| ==> TrustedAt(states, labels, i)
    ensures Behaviour(states, labels)
  {
    forall i: nat | i < |labels| ensures StepAt(states, labels, i) {
      assert DoesAt(states, labels, i) && TrustedAt(states, labels, i);
    }
  }

  ghost predicate TrustedAt(states: seq<State>, labels: seq<Label>, i: nat) {
    i < |labels| < |states| && Trusted(states[i], states[i + 1], labels[i])
  }

  // ---- Steps that are always possible ----

  function WithRun(s: State, issueID: string): State
    requires issueID in s.issues
  {
    var r := NewRun(s, issueID);
    s.(runs := s.runs[r.id := r], counters := s.counters[RUN := Counter(s, RUN) + 1])
  }

  function NewRun(s: State, issueID: string): Run
    requires issueID in s.issues
  {
    Run(FormatID(RUN, Counter(s, RUN) + 1), issueID, s.issues[issueID].delivery, RUN_PENDING, s.now)
  }

  lemma FirstRun(s: State, issueID: string)
    requires issueID in s.issues && NoRun(s, issueID)
    ensures Step(s, WithRun(s, issueID), EnsureRun(issueID, Ok(NewRun(s, issueID))))
  {
  }

  /** What claiming the attempt at once gives. */
  function WithClaim(s: State, id: string, workerID: string, lease: int): State
    requires id in s.attempts && HasPlan(s, s.attempts[id])
  {
    WithClaimOf(s, id, workerID, lease, Keys(s, s.attempts[id]))
  }

  function WithClaimOf(s: State, id: string, workerID: string, lease: int, keys: seq<string>): State
    requires id in s.attempts
  {
    var a := s.attempts[id];
    s.(attempts := s.attempts[id := a.(status := Running, workerID := workerID, leaseExpiresAt := Some(s.now + lease),
                                       lockKeys := if |keys| > 0 then keys else a.lockKeys)],
       locks := s.locks + map k | k in keys :: LockRow(id, s.now + lease))
  }

  /** The only eligible attempt of an issue can be claimed if its locks are free or have expired. */
  lemma ClaimOnlyOne(s: State, id: string, workerID: string, lease: int, issueID: string)
    requires Eligible(s, id, [], issueID) && HasPlan(s, s.attempts[id])
    requires forall other :: Eligible(s, other, [], issueID) ==> other == id
    requires forall k :: k in Keys(s, s.attempts[id]) && k in s.locks ==> s.locks[k].expiresAt < s.now
    ensures Step(s, WithClaim(s, id, workerID, lease), Claim(workerID, lease, [], issueID, Attempt(id)))
  {
    ClaimedAtOnce(s, id, workerID, lease);
    LessIrreflexive(id);
  }

  lemma ClaimedAtOnce(s: State, id: string, workerID: string, lease: int)
    requires id in s.attempts && HasPlan(s, s.attempts[id])
    requires forall k :: k in Keys(s, s.attempts[id]) && k in s.locks ==> s.locks[k].expiresAt < s.now
    ensures Claimed(s, WithClaim(s, id, workerID, lease), id, workerID, lease, s.now)
  {
  }

  // ---- Queueing the only stage of a plan ----

  lemma OrderedOne(spec: StageSpec)
    ensures Ordered([spec]) == [spec]
  {
    assert UniqueNames([spec]);
    OrderedIsPermutation([spec]);
    assert |Ordered([spec])| == |multiset(Ordered([spec]))| == |multiset([spec])| == 1;
    assert Ordered([spec])[0] in multiset([spec]);
  }

  /** A stage that may be queued at any time. */
  predicate Simple(spec: StageSpec) {
    spec.AutoQueue() && !spec.approvalRequired && spec.dependencies == []
  }

  lemma EvaluateOne(spec: StageSpec, target: DeliveryTarget, m: ByStage, approved: bool)
    requires Simple(spec) && (m == map[] || exists a :: m == map[spec.name := a] && a.status == Pending)
    ensures Evaluated([spec], target, m, approved) == Evaluation([], if m == map[] then [spec] else [], RUN_ACTIVE)
  {
    var all := [spec];
    assert all[1..] == [] && all[..1] == all && all[..0] == [];
    assert !Stops(spec, m, approved) && StopAt(all, m, approved) == 1;
    assert ReadyOnes(all[..0], m, approved) == [] && TriggeredOnes(all[..0], target, m) == [];
    assert IsReady(spec, m, approved) <==> m == map[];
    assert !IsTriggered(spec, target, m) && !HasStatus(m, spec.name, Failed);
    if m != map[] { assert spec in all && SomeStarted(all, m); }
  }

  /** The state after queueing the stage for an issue that has nothing else to do. */
  function WithQueued(s: State, issueID: string, r: Run, stage: string): State
    requires issueID in s.issues
  {
    var q := QueueOne(s, r.id, stage);
    q.(runs := q.runs[r.id := r.(status := RUN_ACTIVE)],
       issues := q.issues[issueID := q.issues[issueID].(labels := Relabel(q.issues[issueID].labels, RUN_ACTIVE))])
  }

  lemma QueueOnlyStage(s: State, issueID: string, r: Run, spec: StageSpec)
    requires issueID in s.issues && Considered(s.issues[issueID]) && Latest(s, issueID, r)
    requires r.id in s.plans && SpecsFor(s, r.id) == [spec] && Simple(spec)
    requires forall id :: id in s.attempts ==> s.attempts[id].runID != r.id && s.attempts[id].stage != spec.name
    ensures Reconciled(s, WithQueued(s, issueID, r, spec.name), issueID)
  {
    var q := QueueOne(s, r.id, spec.name);
    var id := FormatID(ATTEMPT, Counter(s, ATTEMPT) + 1);
    var after := map[spec.name := q.attempts[id]];
    QueuedAlone(s, id, r.id, spec.name);
    EvaluatedBefore(s, issueID, r, spec);
    EvaluatedAfter(s, issueID, r, spec, q.attempts[id]);
    RoomForOne(s, spec);
    QueueAllOne(s, r.id, spec);
    IsReconciled(s, q, WithQueued(s, issueID, r, spec.name), issueID, r, map[], [spec], after);
  }

  lemma QueueAllOne(s: State, runID: string, spec: StageSpec)
    ensures QueueAll(s, runID, [] + [spec]) == QueueOne(s, runID, spec.name)
  {
    var all := [] + [spec];
    assert all[..0] == [] && QueueAll(s, runID, all[..0]) == s;
  }

  lemma EvaluatedBefore(s: State, issueID: string, r: Run, spec: StageSpec)
    requires issueID in s.issues && r.id in s.plans && SpecsFor(s, r.id) == [spec] && Simple(spec)
    ensures Evaluation0(s, s.issues[issueID], r, map[]) == Evaluation([], [spec], RUN_ACTIVE)
  {
    OrderedOne(spec);
    EvaluateOne(spec, r.target, map[], Approved(s.issues[issueID]));
  }

  lemma EvaluatedAfter(s: State, issueID: string, r: Run, spec: StageSpec, a: StageAttempt)
    requires issueID in s.issues && r.id in s.plans && SpecsFor(s, r.id) == [spec] && Simple(spec) && a.status == Pending
    ensures Evaluation0(s, s.issues[issueID], r, map[spec.name := a]) == Evaluation([], [], RUN_ACTIVE)
  {
    OrderedOne(spec);
    EvaluateOne(spec, r.target, map[spec.name := a], Approved(s.issues[issueID]));
    assert spec.name in map[spec.name := a];
  }

  lemma RoomForOne(s: State, spec: StageSpec)
    requires forall id :: id in s.attempts ==> s.attempts[id].stage != spec.name
    ensures Accepts(s.attempts, s.now, s.now, [spec], [spec])
  {
    assert RunningAt(s.attempts, spec.name, s.now) == {};
    assert [spec][..0] == [];
  }

  lemma QueuedAlone(s: State, id: string, runID: string, stage: string)
    requires forall x :: x in s.attempts ==> s.attempts[x].runID != runID
    ensures IsByStage(s.attempts, runID, map[])
    ensures var q := QueuedAs(s, id, runID, stage); IsByStage(q.attempts, runID, map[stage := q.attempts[id]])
  {
    assert Represents(QueuedAs(s, id, runID, stage).attempts, runID, stage, id);
  }
}
