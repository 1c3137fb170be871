/** What holds in every reachable state of the control plane, and what no run of it can do. */
module Safety {
  import opened Kahn
  import opened Counting
  import opened Ids
  import opened Model
  import opened Execution
  import opened Protocol
  import opened Invariants
  import opened Queueing
  import opened Steps

  // ---- Locks ----

  /** Two live attempts never need the same lock. */
  lemma MutualExclusion(states: seq<State>, labels: seq<Label>, i: nat, a: string, b: string)
    requires Behaviour(states, labels) && i < |states| && a != b && Live(states[i], a) && Live(states[i], b)
    ensures HasPlan(states[i], states[i].attempts[a]) && HasPlan(states[i], states[i].attempts[b])
    ensures forall k :: k in Keys(states[i], states[i].attempts[a]) ==> k !in Keys(states[i], states[i].attempts[b])
  {
    var s := states[i];
    Reachable(states, labels, i);
    assert KeysOf(s, s.attempts[a]) && KeysOf(s, s.attempts[b]);
    forall k | k in Keys(s, s.attempts[a]) ensures k !in Keys(s, s.attempts[b]) {
      assert Owns(s, a, k);
      assert k in s.attempts[b].lockKeys ==> Owns(s, b, k);
    }
  }

  /** A live attempt holds the row of every lock its stage requires, for as long as its lease. */
  lemma LiveHoldsLocks(states: seq<State>, labels: seq<Label>, i: nat, id: string)
    requires Behaviour(states, labels) && i < |states| && Live(states[i], id)
    ensures HasPlan(states[i], states[i].attempts[id])
    ensures forall k :: k in Keys(states[i], states[i].attempts[id]) ==> Owns(states[i], id, k)
  {
    Reachable(states, labels, i);
    assert KeysOf(states[i], states[i].attempts[id]);
  }

  /** No row outlives its use: its owner is running and its stage requires that key. */
  lemma NoLeakedLocks(states: seq<State>, labels: seq<Label>, i: nat, k: string)
    requires Behaviour(states, labels) && i < |states| && k in states[i].locks
    ensures var s, owner := states[i], states[i].locks[k].owner;
      owner in s.attempts && s.attempts[owner].status == Running
      && HasPlan(s, s.attempts[owner]) && k in Keys(s, s.attempts[owner])
  {
    Reachable(states, labels, i);
    assert RowJustified(states[i], k);
    assert KeysOf(states[i], states[i].attempts[states[i].locks[k].owner]);
  }

  /** A claim that takes nothing leaves no row to any pending attempt and every unexpired row as it was. */
  lemma FailedClaimLeavesLocks(s: State, t: State, workerID: string, lease: int, allowed: seq<string>, issueID: string, outcome: ClaimOutcome)
    requires Locking(s) && ClaimStep(s, t, workerID, lease, allowed, issueID, outcome) && !outcome.Attempt?
    ensures forall id :: id in t.attempts && t.attempts[id].status == Pending ==> OwnsNothing(t, id)
    ensures forall k :: k in t.locks ==> k in s.locks && t.locks[k] == s.locks[k]
    ensures forall k :: k in s.locks && s.locks[k].expiresAt >= t.now ==> k in t.locks
  {
    SweepLocks(s, t);
    forall id | id in t.attempts && t.attempts[id].status == Pending ensures OwnsNothing(t, id) {
      PendingOwnsNothing(t, id);
    }
    forall k | k in s.locks && s.locks[k].expiresAt >= t.now ensures k in t.locks {
      assert RowJustified(s, k);
      assert !Removable(s, t, k);
    }
  }

  ghost predicate OwnsNothing(s: State, id: string) {
    forall k :: k in s.locks ==> s.locks[k].owner != id
  }

  lemma PendingOwnsNothing(s: State, id: string)
    requires NoLeaks(s) && id in s.attempts && s.attempts[id].status != Running
    ensures OwnsNothing(s, id)
  {
    forall k | k in s.locks ensures s.locks[k].owner != id { assert RowJustified(s, k); }
  }

  // ---- Attempts ----

  /** A run never has two attempts for one stage. */
  lemma OneAttemptPerStage(states: seq<State>, labels: seq<Label>, i: nat, a: string, b: string)
    requires Behaviour(states, labels) && i < |states| && a in states[i].attempts && b in states[i].attempts
    requires SameStage(states[i].attempts[a], states[i].attempts[b])
    ensures a == b
  {
    Reachable(states, labels, i);
  }

  /** Success is never undone. */
  lemma SuccessIsForever(states: seq<State>, labels: seq<Label>, i: nat, j: nat, id: string)
    requires Behaviour(states, labels) && i <= j < |states|
    requires id in states[i].attempts && states[i].attempts[id].status == Succeeded
    ensures id in states[j].attempts && states[j].attempts[id].status == Succeeded
    ensures SameStage(states[i].attempts[id], states[j].attempts[id])
  {
    NothingForgotten(states, labels, i, j);
    assert SameAttempt(states[i].attempts[id], states[j].attempts[id]);
  }

  /** Each stage of `chain` but the last is automatic and depends on the next one. */
  ghost predicate AutoChain(specs: seq<StageSpec>, chain: seq<string>) {
    && |chain| > 1
    && forall k :: 0 <= k < |chain| - 1 ==> AutoDependsOn(specs, chain[k], chain[k + 1])
  }

  ghost predicate HasSucceeded(s: State, runID: string, stage: string) {
    exists b :: SucceededIn(s, runID, stage, b)
  }

  ghost predicate AutoDependsOn(specs: seq<StageSpec>, stage: string, d: string) {
    stage in SpecMap(specs) && SpecMap(specs)[stage].AutoQueue() && d in SpecMap(specs)[stage].dependencies
  }

  /** Once an automatic stage has an attempt, everything it transitively depends on through automatic stages has succeeded, for good. */
  lemma {:induction false} DependencySafety(states: seq<State>, labels: seq<Label>, i: nat, j: nat, id: string, chain: seq<string>)
    requires Behaviour(states, labels) && i <= j < |states| && id in states[i].attempts
    requires var a := states[i].attempts[id];
      a.runID in states[i].plans && AutoChain(SpecsFor(states[i], a.runID), chain) && chain[0] == a.stage
    ensures HasSucceeded(states[j], states[i].attempts[id].runID, chain[|chain| - 1])
    decreases |chain|
  {
    var s, runID := states[i], states[i].attempts[id].runID;
    var b := DirectDependency(states, labels, i, id, chain[0], chain[1]);
    if |chain| == 2 {
      SuccessIsForever(states, labels, i, j, b);
      assert SucceededIn(states[j], runID, chain[1], b);
    } else {
      var rest := chain[1..];
      forall k | 0 <= k < |rest| - 1 ensures AutoDependsOn(SpecsFor(s, runID), rest[k], rest[k + 1]) {
        assert AutoDependsOn(SpecsFor(s, runID), chain[k + 1], chain[k + 2]);
      }
      DependencySafety(states, labels, i, j, b, rest);
    }
  }

  lemma DirectDependency(states: seq<State>, labels: seq<Label>, i: nat, id: string, stage: string, d: string) returns (b: string)
    requires Behaviour(states, labels) && i < |states| && id in states[i].attempts && stage == states[i].attempts[id].stage
    requires states[i].attempts[id].runID in states[i].plans
    requires AutoDependsOn(SpecsFor(states[i], states[i].attempts[id].runID), stage, d)
    ensures SucceededIn(states[i], states[i].attempts[id].runID, d, b)
  {
    Reachable(states, labels, i);
    assert HasPlan(states[i], states[i].attempts[id]);
    assert NeedsDep(states[i], id, d);
    b :| SucceededIn(states[i], states[i].attempts[id].runID, d, b);
  }

  // ---- Stages that can never run ----

  /** Automatic stages each of which depends on another of them. */
  ghost predicate Knot(specs: seq<StageSpec>, stages: set<string>) {
    forall n :: n in stages ==> Tied(specs, stages, n)
  }

  ghost predicate Tied(specs: seq<StageSpec>, stages: set<string>, n: string) {
    exists d :: d in stages && AutoDependsOn(specs, n, d)
  }

  ghost predicate Untouched(s: State, runID: string, stages: set<string>) {
    forall id :: id in s.attempts && s.attempts[id].runID == runID ==> s.attempts[id].stage !in stages
  }

  /** The automatic stages and their dependencies on each other. */
  ghost function AutoGraph(specs: seq<StageSpec>): Graph {
    var index := SpecMap(specs);
    GraphOf(map n | n in index && index[n].AutoQueue() :: index[n].dependencies)
  }

  /** In every run, an automatic stage that depends on a cycle through automatic stages never gets an attempt. */
  lemma CyclesNeverRun(states: seq<State>, labels: seq<Label>, i: nat, runID: string, id: string)
    requires Behaviour(states, labels) && i < |states| && id in states[i].attempts && states[i].attempts[id].runID == runID
    ensures runID in states[i].plans
    ensures !DependsOnCycle(AutoGraph(SpecsFor(states[i], runID)), states[i].attempts[id].stage)
  {
    Reachable(states, labels, i);
    assert HasPlan(states[i], states[i].attempts[id]);
    var specs := SpecsFor(states[i], runID);
    StuckIsKnot(specs);
    KnotNeverRuns(states, labels, i, runID, specs, Stuck(AutoGraph(specs)));
    if DependsOnCycle(AutoGraph(specs), states[i].attempts[id].stage) {
      StuckIffDependsOnCycle(AutoGraph(specs), states[i].attempts[id].stage);
    }
  }

  lemma StuckIsKnot(specs: seq<StageSpec>)
    ensures Knot(specs, Stuck(AutoGraph(specs)))
  {
    var g := AutoGraph(specs);
    forall n | n in Stuck(g) ensures Tied(specs, Stuck(g), n) {
      StuckTrapped(g, n);
      var d :| d in g[n] && d in Stuck(g);
      assert AutoDependsOn(specs, n, d);
    }
  }

  /** No stage of a knot ever gets an attempt. */
  lemma {:induction false} KnotNeverRuns(states: seq<State>, labels: seq<Label>, i: nat, runID: string,
                                         specs: seq<StageSpec>, stages: set<string>)
    requires Behaviour(states, labels) && i < |states| && HasSpecs(states[i], runID, specs) && Knot(specs, stages)
    ensures Untouched(states[i], runID, stages)
  {
    if i > 0 {
      if runID in states[i - 1].plans {
        PlanKept(states, labels, i - 1, runID);
        KnotNeverRuns(states, labels, i - 1, runID, specs, stages);
      }
      KnotAt(states, labels, i - 1, runID, specs, stages);
    }
  }

  ghost predicate HasSpecs(s: State, runID: string, specs: seq<StageSpec>) {
    runID in s.plans && SpecsFor(s, runID) == specs
  }

  lemma PlanKept(states: seq<State>, labels: seq<Label>, i: nat, runID: string)
    requires Behaviour(states, labels) && i < |labels| && runID in states[i].plans
    ensures runID in states[i + 1].plans && SpecsFor(states[i + 1], runID) == SpecsFor(states[i], runID)
  {
    NothingForgotten(states, labels, i, i + 1);
  }

  lemma KnotAt(states: seq<State>, labels: seq<Label>, i: nat, runID: string, specs: seq<StageSpec>, stages: set<string>)
    requires Behaviour(states, labels) && i < |labels| && Knot(specs, stages)
    requires runID in states[i].plans ==> HasSpecs(states[i], runID, specs) && Untouched(states[i], runID, stages)
    ensures Untouched(states[i + 1], runID, stages)
  {
    Reachable(states, labels, i);
    NothingForgotten(states, labels, i, i + 1);
    assert StepAt(states, labels, i);
    KnotStep(states[i], states[i + 1], labels[i], runID, stages);
  }

  lemma KnotBlocks(s: State, runID: string, stages: set<string>, spec: StageSpec)
    requires Planned(s, runID, spec) && Knot(SpecsFor(s, runID), stages) && Untouched(s, runID, stages) && spec.name in stages
    ensures !Queueable(s, runID, spec)
  {
    assert Tied(SpecsFor(s, runID), stages, spec.name);
    var d :| d in stages && AutoDependsOn(SpecsFor(s, runID), spec.name, d);
    MissingDependency(s, runID, spec, d);
  }

  lemma MissingDependency(s: State, runID: string, spec: StageSpec, d: string)
    requires spec.AutoQueue() && d in spec.dependencies && Untouched(s, runID, {d})
    ensures !Queueable(s, runID, spec)
  {
    assert forall b :: !SucceededIn(s, runID, d, b);
  }

  lemma KnotStep(s: State, t: State, l: Label, runID: string, stages: set<string>)
    requires Structure(s) && Extends(s, t) && Step(s, t, l)
    requires runID in s.plans ==> Knot(SpecsFor(s, runID), stages) && Untouched(s, runID, stages)
    ensures Untouched(t, runID, stages)
  {
    if runID !in s.plans { UnplannedStep(s, t, l, runID); }
    forall id | id in t.attempts && t.attempts[id].runID == runID ensures t.attempts[id].stage !in stages {
      if id in s.attempts {
        assert SameAttempt(s.attempts[id], t.attempts[id]);
      } else if runID in s.plans {
        KnotNewAttempt(s, t, l, runID, stages, id);
      }
    }
  }

  lemma KnotNewAttempt(s: State, t: State, l: Label, runID: string, stages: set<string>, id: string)
    requires Structure(s) && Step(s, t, l) && runID in s.plans
    requires Knot(SpecsFor(s, runID), stages) && Untouched(s, runID, stages)
    requires id in t.attempts && id !in s.attempts && t.attempts[id].runID == runID
    ensures t.attempts[id].stage !in stages
  {
    NewAttempt(s, t, l, id);
    var spec :| Queueable(s, runID, spec) && spec.name == t.attempts[id].stage;
    if spec.name in stages { KnotBlocks(s, runID, stages, spec); }
  }

  lemma UnplannedStep(s: State, t: State, l: Label, runID: string)
    requires Structure(s) && Extends(s, t) && Step(s, t, l) && runID !in s.plans
    ensures forall id :: id in t.attempts ==> t.attempts[id].runID != runID
  {
    forall id | id in t.attempts ensures t.attempts[id].runID != runID {
      if id in s.attempts {
        assert HasPlan(s, s.attempts[id]) && SameAttempt(s.attempts[id], t.attempts[id]);
      } else {
        NewAttempt(s, t, l, id);
      }
    }
  }

  /** An attempt appears only where a stage was queueable. */
  lemma NewAttempt(s: State, t: State, l: Label, id: string)
    requires Structure(s) && Step(s, t, l) && id in t.attempts && id !in s.attempts
    ensures l.Reconcile? && exists spec :: Queueable(s, t.attempts[id].runID, spec) && spec.name == t.attempts[id].stage
  {
    OnlyReconcileAdds(s, t, l, id);
    NewAttemptQueueable(s, t, l.issueID, id);
  }

  lemma OnlyReconcileAdds(s: State, t: State, l: Label, id: string)
    requires Step(s, t, l) && id in t.attempts && id !in s.attempts
    ensures l.Reconcile? && Considered(s.issues[l.issueID]) && !NoRun(s, l.issueID)
  {
  }

  lemma NewAttemptQueueable(s: State, t: State, issueID: string, id: string)
    requires Structure(s) && Reconciled(s, t, issueID) && Considered(s.issues[issueID]) && !NoRun(s, issueID)
    requires id in t.attempts && id !in s.attempts
    ensures exists spec :: Queueable(s, t.attempts[id].runID, spec) && spec.name == t.attempts[id].stage
  {
    var r, m, accepted, after :| ReconciledWith(s, t, issueID, r, m, accepted, after);
    WhatReconcileQueues(s, t, issueID, r, m, accepted, after);
    var queued := Evaluation0(s, s.issues[issueID], r, m).triggered + accepted;
    assert t.attempts == QueueAll(s, r.id, queued).attempts;
    var spec := QueuedFrom(s, r.id, queued, id);
    assert Queueable(s, r.id, spec);
  }

  lemma {:induction false} QueuedFrom(s: State, runID: string, specs: seq<StageSpec>, id: string) returns (spec: StageSpec)
    requires id in QueueAll(s, runID, specs).attempts && id !in s.attempts
    ensures spec in specs
    ensures QueueAll(s, runID, specs).attempts[id].stage == spec.name && QueueAll(s, runID, specs).attempts[id].runID == runID
  {
    var front := specs[..|specs| - 1];
    if id == FormatID(ATTEMPT, Counter(QueueAll(s, runID, front), ATTEMPT) + 1) {
      spec := specs[|specs| - 1];
    } else {
      spec := QueuedFrom(s, runID, front, id);
    }
  }

  // ---- Runs ----

  /** A run of the issue was created after `r`. */
  ghost predicate Superseded(s: State, r: string) {
    r in s.runs && exists q :: q in s.runs && s.runs[q].issueID == s.runs[r].issueID && s.runs[r].createdAt < s.runs[q].createdAt
  }

  ghost predicate Finished(run: Run) {
    run.status == RUN_AWAITING_APPROVAL || run.status == RUN_COMPLETED || run.status == RUN_FAILED
  }

  /** An issue never has two unfinished runs. */
  lemma OneUnfinishedRun(states: seq<State>, labels: seq<Label>, i: nat, r: string, q: string)
    requires Behaviour(states, labels) && i < |states| && r in states[i].runs && q in states[i].runs && r != q
    requires states[i].runs[r].issueID == states[i].runs[q].issueID
    ensures Finished(states[i].runs[r]) || Finished(states[i].runs[q])
  {
    Reachable(states, labels, i);
  }

  /** A superseded run is finished and keeps its status forever. */
  lemma {:induction false} SupersededRunsRest(states: seq<State>, labels: seq<Label>, i: nat, j: nat, r: string)
    requires Behaviour(states, labels) && i <= j < |states| && Superseded(states[i], r)
    ensures Superseded(states[j], r) && Finished(states[j].runs[r]) && states[j].runs[r] == states[i].runs[r]
    decreases j - i
  {
    if i < j {
      SupersededRunsRest(states, labels, i, j - 1, r);
      SupersededAt(states, labels, j - 1, r);
    }
    SupersededIsTerminal(states, labels, j, r);
  }

  lemma SupersededIsTerminal(states: seq<State>, labels: seq<Label>, i: nat, r: string)
    requires Behaviour(states, labels) && i < |states| && Superseded(states[i], r)
    ensures Finished(states[i].runs[r])
  {
    Reachable(states, labels, i);
  }

  lemma SupersededAt(states: seq<State>, labels: seq<Label>, i: nat, r: string)
    requires Behaviour(states, labels) && i < |labels| && Superseded(states[i], r)
    ensures Superseded(states[i + 1], r) && states[i + 1].runs[r] == states[i].runs[r]
  {
    Reachable(states, labels, i);
    NothingForgotten(states, labels, i, i + 1);
    assert StepAt(states, labels, i);
    SupersededStep(states[i], states[i + 1], labels[i], r);
  }

  lemma SupersededStep(s: State, t: State, l: Label, r: string)
    requires Keyed(s) && GoodIds(s) && Extends(s, t) && Step(s, t, l) && Superseded(s, r)
    ensures Superseded(t, r) && t.runs[r] == s.runs[r]
  {
    SupersededKept(s, t, l, r);
    var q :| q in s.runs && s.runs[q].issueID == s.runs[r].issueID && s.runs[r].createdAt < s.runs[q].createdAt;
    assert SameRun(s.runs[q], t.runs[q]);
  }

  lemma SupersededKept(s: State, t: State, l: Label, r: string)
    requires Keyed(s) && GoodIds(s) && Step(s, t, l) && Superseded(s, r)
    ensures r in t.runs && t.runs[r] == s.runs[r]
  {
    if l.Reconcile? {
      var q :| q in s.runs && s.runs[q].issueID == s.runs[r].issueID && s.runs[r].createdAt < s.runs[q].createdAt;
      ReconcileTouchesLatest(s, t, l.issueID, r, q);
    } else {
      OtherRunsKept(s, t, l, r);
    }
  }

  lemma OtherRunsKept(s: State, t: State, l: Label, r: string)
    requires GoodIds(s) && Step(s, t, l) && !l.Reconcile? && r in s.runs
    ensures r in t.runs && t.runs[r] == s.runs[r]
  {
    if l.EnsureRun? { NextIDIsNew(RUN, Counter(s, RUN), s.runs.Keys); }
  }

  lemma ReconcileTouchesLatest(s: State, t: State, issueID: string, r: string, q: string)
    requires Keyed(s) && Reconciled(s, t, issueID) && r in s.runs && q in s.runs
    requires s.runs[q].issueID == s.runs[r].issueID && s.runs[r].createdAt < s.runs[q].createdAt
    ensures r in t.runs && t.runs[r] == s.runs[r]
  {
    if Considered(s.issues[issueID]) && !NoRun(s, issueID) {
      var latest, m, accepted, after :| ReconciledWith(s, t, issueID, latest, m, accepted, after);
      OneRunTouched(s, t, issueID, latest, m, accepted, after);
    }
  }

  lemma OneRunTouched(s: State, t: State, issueID: string, r: Run, m: ByStage, accepted: seq<StageSpec>, after: ByStage)
    requires ReconciledWith(s, t, issueID, r, m, accepted, after)
    ensures Latest(s, issueID, r) && forall id :: id in s.runs && id != r.id ==> id in t.runs && t.runs[id] == s.runs[id]
  {
  }

  // ---- Identifiers and the order of claims ----

  /** The next identifier has never been used. */
  lemma IdsNeverReused(states: seq<State>, labels: seq<Label>, i: nat, j: nat)
    requires Behaviour(states, labels) && i <= j < |states|
    ensures FormatID(ATTEMPT, Counter(states[j], ATTEMPT) + 1) !in states[i].attempts
    ensures FormatID(RUN, Counter(states[j], RUN) + 1) !in states[i].runs
  {
    Reachable(states, labels, j);
    NothingForgotten(states, labels, i, j);
    NextIDIsNew(ATTEMPT, Counter(states[j], ATTEMPT), states[j].attempts.Keys);
    NextIDIsNew(RUN, Counter(states[j], RUN), states[j].runs.Keys);
  }

  /** While five digits suffice, a claim takes the eligible attempt queued first, among those not held up by another's lock. */
  lemma OldestFirst(s: State, t: State, workerID: string, lease: int, allowed: seq<string>, issueID: string, m: nat, n: nat)
    requires Counter(s, ATTEMPT) <= 99999 && 1 <= m < n <= Counter(s, ATTEMPT)
    requires ClaimStep(s, t, workerID, lease, allowed, issueID, Attempt(FormatID(ATTEMPT, n)))
    requires Eligible(s, FormatID(ATTEMPT, m), allowed, issueID)
    ensures HeldUp(s, FormatID(ATTEMPT, m))
  {
    IdsSortAsNumbers(ATTEMPT, Counter(s, ATTEMPT));
  }
}
