/** Every run moves forward: a measure that falls with each queueing, claim and completion, and only recovery raises. */
module Progress {
  import opened Kahn
  import opened Ids
  import opened Model
  import opened StageGraph
  import opened Execution
  import opened Scheduling
  import opened Protocol
  import opened Invariants
  import opened Queueing
  import opened Steps

  ghost function AttemptsOf(s: State, runID: string): set<string> {
    set id | id in s.attempts && s.attempts[id].runID == runID
  }

  ghost function WithStatus(s: State, runID: string, status: AttemptStatus): set<string> {
    set id | id in s.attempts && s.attempts[id].runID == runID && s.attempts[id].status == status
  }

  /** Three for each stage not queued yet, two for each pending attempt, one for each running one. */
  ghost function Work(s: State, runID: string): int
    requires runID in s.plans
  {
    3 * (|SpecsFor(s, runID)| - |AttemptsOf(s, runID)|) + 2 * |WithStatus(s, runID, Pending)| + |WithStatus(s, runID, Running)|
  }

  /** The attempts of the run that a step queues, claims or ends. */
  ghost function Advanced(s: State, t: State, l: Label, runID: string): set<string> {
    match l
    case Reconcile(_) => AttemptsOf(t, runID) - AttemptsOf(s, runID)
    case Claim(_, _, _, _, outcome) => if outcome.Attempt? then {outcome.id} * AttemptsOf(s, runID) else {}
    case Complete(id, _) => {id} * (WithStatus(s, runID, Running) + WithStatus(s, runID, Pending))
    case _ => {}
  }

  /** The attempts of the run that a step ends although they are pending, put back since they were claimed. */
  ghost function EndedPending(s: State, l: Label, runID: string): set<string> {
    match l
    case Complete(id, _) => {id} * WithStatus(s, runID, Pending)
    case _ => {}
  }

  /** The attempts of the run that a step puts back from running to pending. */
  ghost function PutBack(s: State, l: Label, runID: string): set<string> {
    match l
    case Recover(maxAge, at) => StuckAt(s, maxAge, at) * AttemptsOf(s, runID)
    case _ => {}
  }

  // ---- The work left is never negative ----

  /** No more attempts than stages, so the work is zero only when every stage has an attempt and all have ended. */
  lemma WorkIsNatural(s: State, runID: string)
    requires Structure(s) && runID in s.plans
    ensures |AttemptsOf(s, runID)| <= |SpecsFor(s, runID)| && Work(s, runID) >= 0
    ensures Work(s, runID) == 0 ==> WithStatus(s, runID, Pending) == {} && WithStatus(s, runID, Running) == {}
    ensures Work(s, runID) == 0 ==> |AttemptsOf(s, runID)| == |SpecsFor(s, runID)|
  {
    var ids, specs := AttemptsOf(s, runID), SpecsFor(s, runID);
    var stages := set id | id in ids :: s.attempts[id].stage;
    StagesDiffer(s, ids, stages);
    forall n | n in stages ensures n in SpecMap(specs) {
      var id :| id in ids && s.attempts[id].stage == n;
      assert HasPlan(s, s.attempts[id]);
    }
    SubsetSize(stages, SpecMap(specs).Keys);
    SpecMapSize(specs);
  }

  lemma {:induction false} StagesDiffer(s: State, ids: set<string>, stages: set<string>)
    requires OnePerStage(s) && ids <= s.attempts.Keys && stages == set id | id in ids :: s.attempts[id].stage
    requires forall a, b :: a in ids && b in ids ==> s.attempts[a].runID == s.attempts[b].runID
    ensures |stages| == |ids|
  {
    if ids != {} {
      var x :| x in ids;
      var rest := ids - {x};
      var others := set id | id in rest :: s.attempts[id].stage;
      assert s.attempts[x].stage !in others by {
        if a :| a in rest && s.attempts[a].stage == s.attempts[x].stage { assert SameStage(s.attempts[a], s.attempts[x]); }
      }
      assert stages == others + {s.attempts[x].stage};
      StagesDiffer(s, rest, others);
    }
  }

  lemma {:induction false} SpecMapSize(specs: seq<StageSpec>)
    ensures |SpecMap(specs).Keys| <= |specs|
  {
    if |specs| > 0 {
      var front, last := specs[..|specs| - 1], specs[|specs| - 1];
      SpecMapSize(front);
      assert SpecMap(specs).Keys == SpecMap(front).Keys + {last.name};
    }
  }

  // ---- Each step ----

  lemma Disjoint<T>(a: set<T>, b: set<T>)
    requires a !! b
    ensures |a + b| == |a| + |b|
  {
  }

  /** Attempts of the run move from absent to pending, to running, and end; or end while pending, or go back from running to pending. */
  ghost predicate Moves(s: State, t: State, runID: string, queued: set<string>, claimed: set<string>, skipped: set<string>,
                        ended: set<string>, back: set<string>) {
    && queued !! AttemptsOf(s, runID) && claimed + skipped <= WithStatus(s, runID, Pending) && claimed !! skipped
    && ended + back <= WithStatus(s, runID, Running) && ended !! back
    && AttemptsOf(t, runID) == AttemptsOf(s, runID) + queued
    && WithStatus(t, runID, Pending) == WithStatus(s, runID, Pending) - claimed - skipped + queued + back
    && WithStatus(t, runID, Running) == WithStatus(s, runID, Running) - ended - back + claimed
  }

  lemma Bookkeeping(a: set<string>, p: set<string>, r: set<string>,
                    queued: set<string>, claimed: set<string>, skipped: set<string>, ended: set<string>, back: set<string>)
    requires p <= a && r <= a && p !! r && queued !! a && claimed + skipped <= p && claimed !! skipped && ended + back <= r && ended !! back
    ensures |a + queued| == |a| + |queued|
    ensures |p - claimed - skipped + queued + back| == |p| - |claimed| - |skipped| + |queued| + |back|
    ensures |r - ended - back + claimed| == |r| - |ended| - |back| + |claimed|
  {
    Disjoint(a, queued);
    PendingCount(p, claimed, skipped, queued, back);
    Disjoint(r - ended - back, ended);
    Disjoint(r - ended - back + ended, back);
    assert r == r - ended - back + ended + back;
    Disjoint(r - ended - back, claimed);
  }

  lemma PendingCount(p: set<string>, claimed: set<string>, skipped: set<string>, queued: set<string>, back: set<string>)
    requires claimed + skipped <= p && claimed !! skipped && queued !! p && back !! p && queued !! back
    ensures |p - claimed - skipped + queued + back| == |p| - |claimed| - |skipped| + |queued| + |back|
  {
    Disjoint(p - claimed - skipped, skipped);
    Disjoint(p - claimed - skipped + skipped, claimed);
    assert p == p - claimed - skipped + skipped + claimed;
    Disjoint(p - claimed - skipped, queued);
    Disjoint(p - claimed - skipped + queued, back);
  }

  lemma MovesWork(s: State, t: State, runID: string, queued: set<string>, claimed: set<string>, skipped: set<string>,
                  ended: set<string>, back: set<string>)
    requires runID in s.plans && runID in t.plans && t.plans[runID] == s.plans[runID]
    requires Moves(s, t, runID, queued, claimed, skipped, ended, back)
    ensures Work(t, runID) + |queued| + |claimed| + 2 * |skipped| + |ended| == Work(s, runID) + |back|
  {
    Bookkeeping(AttemptsOf(s, runID), WithStatus(s, runID, Pending), WithStatus(s, runID, Running), queued, claimed, skipped, ended, back);
  }

  lemma ReconcileMovesOn(s: State, t: State, runID: string)
    requires OnlyPendingAdded(s, t)
    ensures Moves(s, t, runID, AttemptsOf(t, runID) - AttemptsOf(s, runID), {}, {}, {}, {})
  {
    forall id | id in AttemptsOf(s, runID) ensures id in AttemptsOf(t, runID) { }
  }

  lemma ReconcileAdds(s: State, t: State, issueID: string)
    requires GoodIds(s) && Reconciled(s, t, issueID)
    ensures OnlyPendingAdded(s, t) && t.plans == s.plans
  {
    if Considered(s.issues[issueID]) && !NoRun(s, issueID) {
      var r, m, accepted, after :| ReconciledWith(s, t, issueID, r, m, accepted, after);
      var queued := Evaluation0(s, s.issues[issueID], r, m).triggered + accepted;
      QueueAllAdds(s, r.id, queued);
      QueueAllFrame(s, r.id, queued);
      assert t.attempts == QueueAll(s, r.id, queued).attempts;
    }
  }

  /** The attempts keep their runs, and their statuses outside `ids`. */
  ghost predicate StatusesKept(s: State, t: State, ids: set<string>) {
    && t.attempts.Keys == s.attempts.Keys && ids <= s.attempts.Keys
    && (forall id :: id in s.attempts ==> t.attempts[id].runID == s.attempts[id].runID)
    && (forall id :: id in s.attempts && id !in ids ==> t.attempts[id].status == s.attempts[id].status)
  }

  lemma ClaimMovesOn(s: State, t: State, id: string, runID: string)
    requires StatusesKept(s, t, {id}) && s.attempts[id].status == Pending && t.attempts[id].status == Running
    ensures Moves(s, t, runID, {}, {id} * AttemptsOf(s, runID), {}, {}, {})
  {
  }

  lemma CompleteMovesOn(s: State, t: State, id: string, runID: string)
    requires StatusesKept(s, t, {id}) && t.attempts[id].status != Running && t.attempts[id].status != Pending
    ensures Moves(s, t, runID, {}, {}, {id} * WithStatus(s, runID, Pending), {id} * WithStatus(s, runID, Running), {})
  {
  }

  lemma RecoverMovesOn(s: State, t: State, ids: set<string>, runID: string)
    requires StatusesKept(s, t, ids) && forall id :: id in ids ==> s.attempts[id].status == Running && t.attempts[id].status == Pending
    ensures Moves(s, t, runID, {}, {}, {}, {}, ids * AttemptsOf(s, runID))
  {
  }

  lemma QuietMovesOn(s: State, t: State, runID: string)
    requires StatusesKept(s, t, {})
    ensures Moves(s, t, runID, {}, {}, {}, {}, {})
  {
  }

  lemma StepMoves(s: State, t: State, l: Label, runID: string) returns (queued: set<string>, claimed: set<string>, ended: set<string>)
    requires GoodIds(s) && Does(s, t, l)
    ensures Moves(s, t, runID, queued, claimed, EndedPending(s, l, runID), ended, PutBack(s, l, runID))
    ensures |queued| + |claimed| + |EndedPending(s, l, runID)| + |ended| == |Advanced(s, t, l, runID)|
  {
    if l.Reconcile? {
      ReconcileAdds(s, t, l.issueID);
      ReconcileMovesOn(s, t, runID);
      queued, claimed, ended := Advanced(s, t, l, runID), {}, {};
    } else if l.Claim? {
      ClaimMoves(s, t, l, runID);
      queued, claimed, ended := {}, Advanced(s, t, l, runID), {};
    } else if l.Complete? {
      CompleteMoves(s, t, l, runID);
      queued, claimed, ended := {}, {}, {l.id} * WithStatus(s, runID, Running);
    } else {
      OtherMoves(s, t, l, runID);
      queued, claimed, ended := {}, {}, {};
    }
  }

  lemma ClaimMoves(s: State, t: State, l: Label, runID: string)
    requires Does(s, t, l) && l.Claim?
    ensures Moves(s, t, runID, {}, Advanced(s, t, l, runID), {}, {}, {})
  {
    if l.outcome.Attempt? {
      var at :| Claimed(s, t, l.outcome.id, l.workerID, l.lease, at);
      ClaimMovesOn(s, t, l.outcome.id, runID);
    } else {
      QuietMovesOn(s, t, runID);
    }
  }

  lemma CompleteMoves(s: State, t: State, l: Label, runID: string)
    requires Does(s, t, l) && l.Complete?
    ensures Moves(s, t, runID, {}, {}, EndedPending(s, l, runID), {l.id} * WithStatus(s, runID, Running), PutBack(s, l, runID))
    ensures |Advanced(s, t, l, runID)| == |EndedPending(s, l, runID)| + |{l.id} * WithStatus(s, runID, Running)|
  {
    CompleteMovesOn(s, t, l.id, runID);
    BothStatuses(s, l.id, runID);
  }

  lemma BothStatuses(s: State, id: string, runID: string)
    ensures var p, r := {id} * WithStatus(s, runID, Pending), {id} * WithStatus(s, runID, Running);
      |{id} * (WithStatus(s, runID, Running) + WithStatus(s, runID, Pending))| == |p| + |r|
  {
    var p, r := {id} * WithStatus(s, runID, Pending), {id} * WithStatus(s, runID, Running);
    Disjoint(p, r);
    assert {id} * (WithStatus(s, runID, Running) + WithStatus(s, runID, Pending)) == p + r;
  }

  lemma OtherMoves(s: State, t: State, l: Label, runID: string)
    requires Does(s, t, l) && !l.Reconcile? && !l.Claim? && !l.Complete?
    ensures Moves(s, t, runID, {}, {}, {}, {}, PutBack(s, l, runID)) && Advanced(s, t, l, runID) == {}
  {
    if l.Recover? {
      RecoverMovesOn(s, t, StuckAt(s, l.maxAge, l.at), runID);
    } else {
      QuietStep(s, t, l);
      QuietMovesOn(s, t, runID);
    }
  }

  lemma QuietStep(s: State, t: State, l: Label)
    requires Does(s, t, l) && !l.Reconcile? && !l.Claim? && !l.Complete? && !l.Recover?
    ensures StatusesKept(s, t, {})
  {
  }

  /**
   The measure falls by one for each attempt that is queued, claimed or completed, by one more
   if it was pending when completed, and rises by one for each put back.
   */
  lemma WorkStep(s: State, t: State, l: Label, runID: string)
    requires GoodIds(s) && Extends(s, t) && Does(s, t, l) && runID in s.plans
    ensures Work(t, runID) + |Advanced(s, t, l, runID)| + |EndedPending(s, l, runID)| == Work(s, runID) + |PutBack(s, l, runID)|
  {
    var queued, claimed, ended := StepMoves(s, t, l, runID);
    MovesWork(s, t, runID, queued, claimed, EndedPending(s, l, runID), ended, PutBack(s, l, runID));
  }

  /** Completing an attempt takes its share off the work of its run: two if it is pending, one if it is running, nothing if it has ended. */
  lemma CompletionWork(s: State, t: State, id: string, result: string)
    requires GoodIds(s) && Completed(s, t, id, result) && s.attempts[id].runID in s.plans
    ensures var runID := s.attempts[id].runID;
      runID in t.plans && Work(t, runID) == Work(s, runID) - Share(s.attempts[id].status)
  {
    var runID := s.attempts[id].runID;
    CompleteMovesOn(s, t, id, runID);
    MovesWork(s, t, runID, {}, {}, {id} * WithStatus(s, runID, Pending), {id} * WithStatus(s, runID, Running), {});
    OneOf(s, id, Pending);
    OneOf(s, id, Running);
  }

  function Share(status: AttemptStatus): nat {
    match status
    case Pending => 2
    case Running => 1
    case _ => 0
  }

  lemma OneOf(s: State, id: string, status: AttemptStatus)
    requires id in s.attempts
    ensures |{id} * WithStatus(s, s.attempts[id].runID, status)| == if s.attempts[id].status == status then 1 else 0
  {
    var one := {id} * WithStatus(s, s.attempts[id].runID, status);
    assert one == if s.attempts[id].status == status then {id} else {};
  }

  // ---- Whole runs ----

  /** How often attempts of the run are queued, claimed or ended between states `i` and `j`. */
  ghost function Advances(states: seq<State>, labels: seq<Label>, i: nat, j: nat, runID: string): nat
    requires i <= j < |states| && |states| == |labels| + 1
    decreases j - i
  {
    if i == j then 0
    else Advances(states, labels, i, j - 1, runID) + |Advanced(states[j - 1], states[j], labels[j - 1], runID)|
  }

  ghost function EndedWhilePending(states: seq<State>, labels: seq<Label>, i: nat, j: nat, runID: string): nat
    requires i <= j < |states| && |states| == |labels| + 1
    decreases j - i
  {
    if i == j then 0
    else EndedWhilePending(states, labels, i, j - 1, runID) + |EndedPending(states[j - 1], labels[j - 1], runID)|
  }

  ghost function Recoveries(states: seq<State>, labels: seq<Label>, i: nat, j: nat, runID: string): nat
    requires i <= j < |states| && |states| == |labels| + 1
    decreases j - i
  {
    if i == j then 0
    else Recoveries(states, labels, i, j - 1, runID) + |PutBack(states[j - 1], labels[j - 1], runID)|
  }

  /** At state `i` the account of the run's work balances. */
  ghost predicate Balanced(states: seq<State>, labels: seq<Label>, i: nat, runID: string) {
    && i < |labels| < |states| && runID in states[i].plans && runID in states[i + 1].plans
    && Work(states[i + 1], runID) + |Advanced(states[i], states[i + 1], labels[i], runID)| + |EndedPending(states[i], labels[i], runID)|
    == Work(states[i], runID) + |PutBack(states[i], labels[i], runID)|
  }

  lemma {:induction false} SumWork(states: seq<State>, labels: seq<Label>, i: nat, j: nat, runID: string)
    requires i <= j < |states| == |labels| + 1 && runID in states[i].plans
    requires forall k :: i <= k < j ==> Balanced(states, labels, k, runID)
    ensures runID in states[j].plans
    ensures Work(states[j], runID) + Advances(states, labels, i, j, runID) + EndedWhilePending(states, labels, i, j, runID)
         == Work(states[i], runID) + Recoveries(states, labels, i, j, runID)
    decreases j - i
  {
    if i < j {
      SumWork(states, labels, i, j - 1, runID);
      assert Balanced(states, labels, j - 1, runID);
    }
  }

  /** The work done and the work left add up to the work there was, and whatever recovery put back. */
  lemma WorkAccount(states: seq<State>, labels: seq<Label>, i: nat, j: nat, runID: string)
    requires Behaviour(states, labels) && i <= j < |states| && runID in states[i].plans
    ensures runID in states[j].plans
    ensures Work(states[j], runID) + Advances(states, labels, i, j, runID) + EndedWhilePending(states, labels, i, j, runID)
         == Work(states[i], runID) + Recoveries(states, labels, i, j, runID)
  {
    forall k | i <= k < j ensures Balanced(states, labels, k, runID) {
      NothingForgotten(states, labels, i, k);
      WorkAt(states, labels, k, runID);
    }
    SumWork(states, labels, i, j, runID);
  }

  lemma WorkAt(states: seq<State>, labels: seq<Label>, i: nat, runID: string)
    requires Behaviour(states, labels) && i < |labels| && runID in states[i].plans
    ensures Balanced(states, labels, i, runID)
  {
    Reachable(states, labels, i);
    NothingForgotten(states, labels, i, i + 1);
    assert StepAt(states, labels, i);
    WorkStep(states[i], states[i + 1], labels[i], runID);
  }

  /** A run of `n` stages is queued, claimed and ended at most `3n` times, plus once for every recovery. */
  lemma RunsAreBounded(states: seq<State>, labels: seq<Label>, i: nat, j: nat, runID: string)
    requires Behaviour(states, labels) && i <= j < |states| && runID in states[i].plans
    ensures Advances(states, labels, i, j, runID) <= 3 * |SpecsFor(states[i], runID)| + Recoveries(states, labels, i, j, runID)
  {
    WorkAccount(states, labels, i, j, runID);
    Reachable(states, labels, j);
    WorkIsNatural(states[j], runID);
    WorkAtMost(states[i], runID);
  }

  lemma WorkAtMost(s: State, runID: string)
    requires runID in s.plans
    ensures Work(s, runID) <= 3 * |SpecsFor(s, runID)|
  {
    var p, r := WithStatus(s, runID, Pending), WithStatus(s, runID, Running);
    Disjoint(p, r);
    SubsetSize(p + r, AttemptsOf(s, runID));
  }

  // ---- There is always something to queue ----

  /** No stage of the plan is at its parallelism limit. */
  ghost predicate Roomy(s: State, specs: seq<StageSpec>) {
    forall spec :: spec in specs ==> |RunningAt(s.attempts, spec.name, s.now)| < Capacity(spec)
  }

  lemma {:induction false} RoomAcceptsAll(s: State, to: int, runnable: seq<StageSpec>, accepted: seq<StageSpec>)
    requires Roomy(s, runnable) && Accepts(s.attempts, s.now, to, runnable, accepted)
    ensures accepted == runnable
  {
    if |runnable| > 0 {
      var front, spec := runnable[..|runnable| - 1], runnable[|runnable| - 1];
      assert |RunningAt(s.attempts, spec.name, s.now)| < Capacity(spec);
      RoomAcceptsAll(s, to, front, accepted[..|accepted| - 1]);
      assert accepted == accepted[..|accepted| - 1] + [spec];
    }
  }

  /** Reconciling an unblocked run with room queues a stage as long as one has no attempt. */
  lemma ReconcileMoves(s: State, t: State, issueID: string, r: Run, m: ByStage, accepted: seq<StageSpec>, after: ByStage)
    requires GoodIds(s) && ReconciledWith(s, t, issueID, r, m, accepted, after)
    requires Flowing(SpecsFor(s, r.id), m, Approved(s.issues[issueID])) && Roomy(s, SpecsFor(s, r.id))
    ensures AttemptsOf(t, r.id) - AttemptsOf(s, r.id) != {} <==> exists spec :: spec in SpecsFor(s, r.id) && spec.name !in m
  {
    var queued := Evaluation0(s, s.issues[issueID], r, m).triggered + accepted;
    QueuedWhenFlowing(s, t.now, SpecsFor(s, r.id), r.target, m, Approved(s.issues[issueID]), accepted);
    QueuedShows(s, t, r.id, queued);
  }

  lemma QueuedShows(s: State, t: State, runID: string, specs: seq<StageSpec>)
    requires GoodIds(s) && t.attempts == QueueAll(s, runID, specs).attempts
    ensures AttemptsOf(t, runID) - AttemptsOf(s, runID) != {} <==> |specs| > 0
  {
    QueueAllGrows(s, runID, specs);
    assert AttemptsOf(t, runID) == AttemptsOf(QueueAll(s, runID, specs), runID);
  }

  lemma QueuedWhenFlowing(s: State, to: int, specs: seq<StageSpec>, target: DeliveryTarget, m: ByStage, approved: bool, accepted: seq<StageSpec>)
    requires Flowing(specs, m, approved) && Roomy(s, specs)
    requires Accepts(s.attempts, s.now, to, Evaluated(Ordered(specs), target, m, approved).runnable, accepted)
    ensures |Evaluated(Ordered(specs), target, m, approved).triggered + accepted| > 0 <==> exists spec :: spec in specs && spec.name !in m
  {
    OffersUntilDone(specs, target, m, approved);
    RunnableArePlanned(specs, target, m, approved);
    RoomAcceptsAll(s, to, Evaluated(Ordered(specs), target, m, approved).runnable, accepted);
    NothingTriggered(specs, target, m, approved);
  }

  lemma RunnableArePlanned(specs: seq<StageSpec>, target: DeliveryTarget, m: ByStage, approved: bool)
    requires UniqueNames(specs)
    ensures forall spec :: spec in Evaluated(Ordered(specs), target, m, approved).runnable ==> spec in specs
  {
    forall spec | spec in Evaluated(Ordered(specs), target, m, approved).runnable ensures spec in specs {
      ReadyMembers(Looked(Ordered(specs), m, approved), m, approved, spec);
      OrderedFromSpecs(specs, spec);
    }
  }

  lemma NothingTriggered(specs: seq<StageSpec>, target: DeliveryTarget, m: ByStage, approved: bool)
    requires Flowing(specs, m, approved)
    ensures Evaluated(Ordered(specs), target, m, approved).triggered == []
  {
    var triggered := Evaluated(Ordered(specs), target, m, approved).triggered;
    if |triggered| > 0 {
      TriggeredMembers(Looked(Ordered(specs), m, approved), target, m, triggered[0]);
      OrderedFromSpecs(specs, triggered[0]);
    }
  }

  lemma QueueAllGrows(s: State, runID: string, specs: seq<StageSpec>)
    requires GoodIds(s)
    ensures AttemptsOf(QueueAll(s, runID, specs), runID) - AttemptsOf(s, runID) != {} <==> |specs| > 0
  {
    if |specs| > 0 {
      var q := QueueAll(s, runID, specs[..|specs| - 1]);
      QueueAllExtends(s, runID, specs[..|specs| - 1]);
      QueueIds(q, runID, specs[|specs| - 1].name);
      QueuedIsNew(s, q, FormatID(ATTEMPT, Counter(q, ATTEMPT) + 1), runID, specs[|specs| - 1].name);
    }
  }

  lemma QueuedIsNew(s: State, q: State, id: string, runID: string, stage: string)
    requires Extends(s, q) && id !in q.attempts
    ensures id in AttemptsOf(QueuedAs(q, id, runID, stage), runID) - AttemptsOf(s, runID)
  {
  }
}
