/** Every step keeps the invariant and forgets nothing. */
module Steps {
  import opened Ids
  import opened Model
  import opened Plan
  import opened Protocol
  import opened Invariants
  import opened Queueing

  // ---- Runs and plans ----

  lemma CreateRunExtends(s: State, t: State, issueID: string, r: Run)
    requires GoodIds(s) && RunCreated(s, t, issueID, r)
    ensures r.id !in s.runs && Extends(s, t) && GoodIds(t)
  {
    NextIDIsNew(RUN, Counter(s, RUN), s.runs.Keys);
    assert Issued(RUN, Counter(s, RUN) + 1, r.id);
    RunAdded(s, t, r);
    RunIds(s.runs.Keys, r.id, Counter(s, RUN) + 1);
  }

  lemma RunAdded(s: State, t: State, r: Run)
    requires r.id !in s.runs && s.now <= t.now
    requires t == s.(runs := s.runs[r.id := r], counters := s.counters[RUN := Counter(s, RUN) + 1], now := t.now)
    ensures Extends(s, t) && Counter(t, ATTEMPT) == Counter(s, ATTEMPT) && Counter(t, RUN) == Counter(s, RUN) + 1
  {
    assert RUN != ATTEMPT;
  }

  lemma RunIds(ids: set<string>, next: string, n: nat)
    requires n > 0 && Issued(RUN, n, next) && forall id :: id in ids ==> Issued(RUN, n - 1, id)
    ensures forall id :: id in ids + {next} ==> Issued(RUN, n, id)
  {
    forall id | id in ids ensures Issued(RUN, n, id) { IssuedMore(RUN, n - 1, n, id); }
  }

  lemma CreateRunSettled(s: State, t: State, issueID: string, r: Run)
    requires RunsSettled(s) && LaterThanAll(s, issueID, r.createdAt) && r.issueID == issueID
    requires NoRun(s, issueID) || exists old' :: Latest(s, issueID, old') && RunStatusTerminal(old'.status)
    requires t.runs == s.runs[r.id := r] && r.id !in s.runs
    ensures RunsSettled(t)
  {
    if !NoRun(s, issueID) {
      var old' :| Latest(s, issueID, old') && RunStatusTerminal(old'.status);
      forall q | q in s.runs && s.runs[q].issueID == issueID ensures RunStatusTerminal(s.runs[q].status) {
        assert s.runs[q].createdAt <= old'.createdAt;
      }
    }
  }

  lemma EnsureRunKeeps(s: State, t: State, issueID: string, result: Result<Run>)
    requires Structure(s) && GoodIds(s) && RunEnsured(s, t, issueID, result) && Trusted(s, t, EnsureRun(issueID, result))
    ensures Structure(t) && GoodIds(t) && Extends(s, t)
  {
    if issueID in s.issues && RunCreated(s, t, issueID, result.value) {
      var r := result.value;
      CreateRunExtends(s, t, issueID, r);
      CreateRunSettled(s, t, issueID, r);
      RunsGrow(s, t, r);
    } else {
      TimePasses(s, t);
      FrameIds(s, t);
    }
  }

  lemma RunsGrow(s: State, t: State, r: Run)
    requires Structure(s) && Extends(s, t) && t == s.(runs := s.runs[r.id := r], counters := t.counters, now := t.now)
    requires r.id !in s.runs && RunsSettled(t)
    ensures Structure(t)
  {
    SameAttempts(s, t);
    FramePlans(s, t);
  }

  lemma MaterializeKeeps(s: State, t: State, runID: string, plan: ExecutionPlan)
    requires Structure(s) && Materialized(s, t, runID, plan) && (runID in s.plans ==> s.plans[runID] == plan)
    ensures Structure(t) && Extends(s, t)
  {
    MaterializeExtends(s, t, runID, plan);
    SameAttempts(s, t);
  }

  lemma MaterializeExtends(s: State, t: State, runID: string, plan: ExecutionPlan)
    requires GoodPlans(s) && Materialized(s, t, runID, plan) && (runID in s.plans ==> s.plans[runID] == plan)
    ensures Extends(s, t) && GoodPlans(t)
  {
  }

  // ---- Attempts, changed in place ----

  /** Attempts are neither added nor renamed, and runs, plans and counters stay. */
  ghost predicate InPlace(s: State, t: State) {
    && Extends(s, t) && t.attempts.Keys == s.attempts.Keys
    && t.runs == s.runs && t.plans == s.plans && t.counters == s.counters
  }

  lemma InPlaceKeeps(s: State, t: State)
    requires Structure(s) && InPlace(s, t) && Leased(t)
    ensures Structure(t)
  {
    InPlaceAttempts(s, t);
    FramePlans(s, t);
    FrameOnePerStage(s, t);
    FrameDeps(s, t, s.attempts.Keys);
  }

  lemma InPlaceAttempts(s: State, t: State)
    requires Keyed(s) && GoodAttempts(s) && InPlace(s, t)
    ensures Keyed(t) && GoodAttempts(t)
  {
    forall id | id in t.attempts ensures HasPlan(t, t.attempts[id]) && t.attempts[id].id == id {
      assert SameAttempt(s.attempts[id], t.attempts[id]);
      FramePlan(s, t, s.attempts[id]);
    }
  }

  lemma ClaimInPlace(s: State, t: State, workerID: string, lease: int, allowed: seq<string>, issueID: string, outcome: ClaimOutcome)
    requires Leased(s) && ClaimStep(s, t, workerID, lease, allowed, issueID, outcome)
    ensures InPlace(s, t) && Leased(t)
  {
  }

  lemma HeartbeatInPlace(s: State, t: State, id: string, lease: int, at: int)
    requires Leased(s) && HeartbeatAt(s, t, id, lease, at)
    ensures InPlace(s, t) && Leased(t)
  {
  }

  lemma CompleteInPlace(s: State, t: State, id: string, result: string)
    requires Leased(s) && Completed(s, t, id, result) && HarmlessCompletion(s.attempts[id], result)
    ensures InPlace(s, t) && Leased(t)
  {
  }

  lemma RecoverInPlace(s: State, t: State, maxAge: int, at: int)
    requires Leased(s) && RecoveredAt(s, t, maxAge, at)
    ensures InPlace(s, t) && Leased(t)
  {
  }

  // ---- Locks ----

  /** Deleting rows that had expired or belonged to nobody running harms nobody. */
  lemma SweepLocks(s: State, t: State)
    requires Locking(s) && OthersKept(s, t, []) && t.attempts == s.attempts && s.now <= t.now
    ensures Locking(t)
  {
    forall key | key in t.locks ensures RowJustified(t, key) { assert RowJustified(s, key); }
    forall a, key | Live(t, a) && key in t.attempts[a].lockKeys ensures Owns(t, a, key) {
      assert Live(s, a);
      assert Owns(s, a, key);
      assert !Removable(s, t, key);
    }
  }

  lemma ClaimNoLeaks(s: State, t: State, id: string, workerID: string, lease: int, at: int)
    requires NoLeaks(s) && Claimed(s, t, id, workerID, lease, at) && s.attempts[id].status == Pending
    ensures NoLeaks(t)
  {
    var keys := Keys(s, s.attempts[id]);
    forall key | key in t.locks ensures RowJustified(t, key) {
      if key in keys {
        assert Taken(s, t, key, id, at + lease, t.now + lease);
      } else {
        assert RowJustified(s, key);
      }
    }
  }

  lemma ClaimLiveOwn(s: State, t: State, id: string, workerID: string, lease: int, at: int)
    requires LiveOwn(s) && id in s.attempts && KeysOf(s, s.attempts[id])
    requires Claimed(s, t, id, workerID, lease, at) && s.attempts[id].status == Pending
    ensures LiveOwn(t)
  {
    var keys := Keys(s, s.attempts[id]);
    forall a, key | Live(t, a) && key in t.attempts[a].lockKeys ensures Owns(t, a, key) {
      if a == id {
        assert Taken(s, t, key, id, at + lease, t.now + lease);
      } else {
        assert Live(s, a);
        assert Owns(s, a, key);
        assert !Taken(s, t, key, id, at + lease, t.now + lease);
        assert !Removable(s, t, key);
      }
    }
  }

  lemma ClaimLocking(s: State, t: State, workerID: string, lease: int, allowed: seq<string>, issueID: string, outcome: ClaimOutcome)
    requires Locking(s) && KeysRecorded(s) && ClaimStep(s, t, workerID, lease, allowed, issueID, outcome)
    ensures Locking(t)
  {
    if outcome.Attempt? {
      var at :| Claimed(s, t, outcome.id, workerID, lease, at);
      assert KeysOf(s, s.attempts[outcome.id]);
      ClaimNoLeaks(s, t, outcome.id, workerID, lease, at);
      ClaimLiveOwn(s, t, outcome.id, workerID, lease, at);
    } else {
      SweepLocks(s, t);
    }
  }

  lemma HeartbeatLocking(s: State, t: State, id: string, lease: int, at: int)
    requires Locking(s) && HeartbeatAt(s, t, id, lease, at) && HarmlessHeartbeat(s, t, id, at + lease)
    ensures Locking(t)
  {
    forall key | key in t.locks ensures RowJustified(t, key) { assert RowJustified(s, key); }
    forall a, key | a != id && Live(t, a) && key in t.attempts[a].lockKeys ensures Owns(t, a, key) {
      assert Live(s, a);
      assert Owns(s, a, key);
    }
  }

  /** Rows of attempts that stop running go with them. */
  lemma ReleaseLocking(s: State, t: State, ids: set<string>)
    requires Locking(s) && s.now <= t.now && ids <= s.attempts.Keys
    requires t.locks == Release(s, ids) && t.attempts.Keys == s.attempts.Keys
    requires forall id :: id in ids ==> t.attempts[id].status != Running
    requires forall id :: id in s.attempts && id !in ids ==> t.attempts[id] == s.attempts[id]
    ensures Locking(t)
  {
    forall key | key in t.locks ensures RowJustified(t, key) { assert RowJustified(s, key); }
    forall a, key | Live(t, a) && key in t.attempts[a].lockKeys ensures Owns(t, a, key) {
      assert a in s.attempts && Live(s, a);
      assert Owns(s, a, key);
    }
  }

  lemma QuietLocking(s: State, t: State)
    requires Locking(s) && t.locks == s.locks && t.attempts == s.attempts && s.now <= t.now
    ensures Locking(t)
  {
    SameLocks(s, t);
  }

  // ---- Recorded keys ----

  lemma ClaimKeys(s: State, t: State, id: string, workerID: string, lease: int, at: int)
    requires KeysRecorded(s) && Claimed(s, t, id, workerID, lease, at) && Extends(s, t)
    ensures KeysRecorded(t)
  {
    forall a | a in t.attempts ensures KeysOf(t, t.attempts[a]) {
      assert KeysOf(s, s.attempts[a]);
      FrameKeys(s, t, s.attempts[a]);
    }
  }

  // ---- Every step ----

  lemma StepStructure(s: State, t: State, l: Label)
    requires Structure(s) && GoodIds(s) && Step(s, t, l)
    ensures Structure(t) && GoodIds(t) && Extends(s, t)
  {
    match l
    case EnsureRun(issueID, run) => EnsureRunKeeps(s, t, issueID, run);
    case Reconcile(issueID) => ReconcileKeeps(s, t, issueID);
    case _ => OtherStructure(s, t, l);
  }

  lemma OtherStructure(s: State, t: State, l: Label)
    requires Structure(s) && GoodIds(s) && Step(s, t, l) && !l.EnsureRun? && !l.Reconcile?
    ensures Structure(t) && GoodIds(t) && Extends(s, t)
  {
    if l.Tick? || l.Enqueue? {
      TimePasses(s, t);
    } else if l.Materialize? {
      MaterializeKeeps(s, t, l.runID, l.plan);
    } else {
      StepInPlace(s, t, l);
      InPlaceKeeps(s, t);
    }
    FrameIds(s, t);
  }

  lemma StepInPlace(s: State, t: State, l: Label)
    requires Leased(s) && Step(s, t, l) && (l.Claim? || l.Heartbeat? || l.Complete? || l.Recover?)
    ensures InPlace(s, t) && Leased(t)
  {
    match l
    case Claim(workerID, lease, allowed, issueID, outcome) => ClaimInPlace(s, t, workerID, lease, allowed, issueID, outcome);
    case Heartbeat(id, lease, at) => HeartbeatInPlace(s, t, id, lease, at);
    case Complete(id, result) => CompleteInPlace(s, t, id, result);
    case Recover(maxAge, at) => RecoverInPlace(s, t, maxAge, at);
    case _ =>
  }

  lemma StepLocking(s: State, t: State, l: Label)
    requires Locking(s) && GoodIds(s) && KeysRecorded(s) && Step(s, t, l)
    ensures Locking(t)
  {
    match l
    case Reconcile(issueID) => ReconcileLocking(s, t, issueID);
    case Claim(workerID, lease, allowed, issueID, outcome) => ClaimLocking(s, t, workerID, lease, allowed, issueID, outcome);
    case _ => OtherLocking(s, t, l);
  }

  lemma OtherLocking(s: State, t: State, l: Label)
    requires Locking(s) && Step(s, t, l) && !l.Reconcile? && !l.Claim?
    ensures Locking(t)
  {
    match l
    case Heartbeat(id, lease, at) => HeartbeatLocking(s, t, id, lease, at);
    case Complete(id, result) => ReleaseLocking(s, t, {id});
    case Recover(maxAge, at) => ReleaseLocking(s, t, StuckAt(s, maxAge, at));
    case _ => QuietLocking(s, t);
  }

  lemma StepKeys(s: State, t: State, l: Label)
    requires KeysRecorded(s) && GoodAttempts(t) && Extends(s, t) && Step(s, t, l)
    ensures KeysRecorded(t)
  {
    if l.Claim? && l.outcome.Attempt? {
      var at :| Claimed(s, t, l.outcome.id, l.workerID, l.lease, at);
      ClaimKeys(s, t, l.outcome.id, l.workerID, l.lease, at);
    } else {
      OtherStepKeys(s, t, l);
      KeysKeptKeeps(s, t);
    }
  }

  lemma OtherStepKeys(s: State, t: State, l: Label)
    requires Step(s, t, l) && !(l.Claim? && l.outcome.Attempt?)
    ensures KeysKept(s, t)
  {
    if l.Reconcile? { ReconcileKeys(s, t, l.issueID); }
  }

  lemma StepKeeps(s: State, t: State, l: Label)
    requires Invariant(s) && Step(s, t, l)
    ensures Invariant(t) && Extends(s, t)
  {
    StepStructure(s, t, l);
    StepLocking(s, t, l);
    StepKeys(s, t, l);
  }

  // ---- Every reachable state ----

  lemma {:induction false} Reachable(states: seq<State>, labels: seq<Label>, i: nat)
    requires Behaviour(states, labels) && i < |states|
    ensures Invariant(states[i])
  {
    if i > 0 {
      Reachable(states, labels, i - 1);
      assert StepAt(states, labels, i - 1);
      StepKeeps(states[i - 1], states[i], labels[i - 1]);
    }
  }

  lemma {:induction false} NothingForgotten(states: seq<State>, labels: seq<Label>, i: nat, j: nat)
    requires Behaviour(states, labels) && i <= j < |states|
    ensures Extends(states[i], states[j])
    decreases j - i
  {
    if i < j {
      NothingForgotten(states, labels, i, j - 1);
      Reachable(states, labels, j - 1);
      assert StepAt(states, labels, j - 1);
      StepKeeps(states[j - 1], states[j], labels[j - 1]);
      ExtendsTransitive(states[i], states[j - 1], states[j]);
    }
  }
}
