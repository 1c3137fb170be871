/** What the status of an attempt or a run tells about the calls that were made, in any history of the service. */
module Lifecycle {
  import opened Ids
  import opened Model
  import opened Protocol
  import opened Invariants
  import opened Queueing
  import opened Steps
  import opened Safety
  import opened Exclusion

  // ---- Completing ----

  const SUCCESS := "succeeded"
  const BLOCKED := "blocked"

  /** What a worker reports, and the status that comes of it. */
  ghost predicate Reports(result: string, status: AttemptStatus) {
    && (status == Succeeded <==> result == SUCCESS)
    && (status == Blocked <==> result == BLOCKED)
    && (status == Failed <==> result != SUCCESS && result != BLOCKED)
  }

  /** A completion records what was reported, ends the lease and frees the locks of this attempt; nothing else changes. */
  lemma CompletionReports(s: State, t: State, id: string, result: string)
    requires Completed(s, t, id, result)
    ensures id in s.attempts && id in t.attempts && Reports(result, t.attempts[id].status) && t.attempts[id].leaseExpiresAt.None?
    ensures t.attempts == s.attempts[id := s.attempts[id].(status := t.attempts[id].status, leaseExpiresAt := None)]
    ensures forall k :: k in t.locks <==> k in s.locks && !(s.locks[k].owner == id && k in s.attempts[id].lockKeys)
    ensures forall k :: k in t.locks ==> t.locks[k] == s.locks[k]
    ensures t == s.(attempts := t.attempts, locks := t.locks, now := t.now)
  {
    assert SUCCESS[0] == 's' && BLOCKED[0] == 'b';
  }

  // ---- Recovering ----

  /** The attempt is running on a lease that ended `maxAge` or more before `at`. */
  ghost predicate Overdue(s: State, id: string, maxAge: int, at: int) {
    && id in s.attempts && s.attempts[id].status == Running && s.attempts[id].leaseExpiresAt.Some?
    && at - s.attempts[id].leaseExpiresAt.value >= maxAge
  }

  /** Recovery puts back exactly the overdue attempts and frees exactly their locks. */
  lemma RecoveryPutsBackOverdue(s: State, t: State, maxAge: int, at: int)
    requires RecoveredAt(s, t, maxAge, at)
    ensures s.now <= at <= t.now && t.attempts.Keys == s.attempts.Keys
    ensures forall id :: id in s.attempts && !Overdue(s, id, maxAge, at) ==> t.attempts[id] == s.attempts[id]
    ensures forall id :: Overdue(s, id, maxAge, at) ==>
      t.attempts[id] == s.attempts[id].(status := Pending, workerID := "", leaseExpiresAt := None)
    ensures forall k :: k in t.locks <==>
      k in s.locks && !(Overdue(s, s.locks[k].owner, maxAge, at) && k in s.attempts[s.locks[k].owner].lockKeys)
    ensures forall k :: k in t.locks ==> t.locks[k] == s.locks[k]
    ensures t == s.(attempts := t.attempts, locks := t.locks, now := t.now)
  {
    forall id ensures id in StuckAt(s, maxAge, at) <==> Overdue(s, id, maxAge, at) { }
  }

  /** With a positive age nothing is taken from an attempt whose lease still runs. */
  lemma LiveAreNotRecovered(s: State, t: State, maxAge: int, at: int, id: string)
    requires Locking(s) && RecoveredAt(s, t, maxAge, at) && maxAge > 0 && Live(t.(attempts := s.attempts), id)
    ensures t.attempts[id] == s.attempts[id] && forall k :: k in s.attempts[id].lockKeys ==> Owns(t, id, k)
  {
    RecoveryPutsBackOverdue(s, t, maxAge, at);
    assert Live(s, id);
    forall k | k in s.attempts[id].lockKeys ensures Owns(t, id, k) { assert Owns(s, id, k); }
  }

  // ---- Which call changed the status ----

  /** The attempt has been in this status, with this worker, since state `j`. */
  ghost predicate SameSince(states: seq<State>, j: nat, i: nat, id: string) {
    i < |states| && id in states[i].attempts && forall k :: j <= k <= i ==> SameAt(states, k, i, id)
  }

  ghost predicate SameAt(states: seq<State>, k: nat, i: nat, id: string)
    requires i < |states| && id in states[i].attempts
  {
    && k < |states| && id in states[k].attempts
    && states[k].attempts[id].status == states[i].attempts[id].status && states[k].attempts[id].workerID == states[i].attempts[id].workerID
  }

  lemma SinceNow(states: seq<State>, i: nat, id: string)
    requires i < |states| && id in states[i].attempts
    ensures SameSince(states, i, i, id)
  {
  }

  lemma SinceBefore(states: seq<State>, j: nat, i: nat, id: string)
    requires 0 < i < |states| && id in states[i].attempts && SameSince(states, j, i - 1, id) && SameAt(states, i - 1, i, id)
    ensures SameSince(states, j, i, id)
  {
    forall k | j <= k <= i ensures SameAt(states, k, i, id) {
      if k < i { assert SameAt(states, k, i - 1, id); }
    }
  }

  lemma {:induction false} QueuedArePending(s: State, runID: string, specs: seq<StageSpec>, id: string)
    requires id in QueueAll(s, runID, specs).attempts
    ensures var a := QueueAll(s, runID, specs).attempts[id];
      (id in s.attempts && a == s.attempts[id]) || (a.status == Pending && a.leaseExpiresAt.None?)
  {
    if |specs| > 0 && id in QueueAll(s, runID, specs[..|specs| - 1]).attempts {
      QueuedArePending(s, runID, specs[..|specs| - 1], id);
    }
  }

  lemma ReconcileOnlyQueues(s: State, t: State, issueID: string, id: string)
    requires Reconciled(s, t, issueID) && id in t.attempts
    ensures (id in s.attempts && t.attempts[id] == s.attempts[id]) || (t.attempts[id].status == Pending && t.attempts[id].leaseExpiresAt.None?)
  {
    if Considered(s.issues[issueID]) && !NoRun(s, issueID) {
      var r, m, accepted, after :| ReconciledWith(s, t, issueID, r, m, accepted, after);
      QueuedArePending(s, r.id, Evaluation0(s, s.issues[issueID], r, m).triggered + accepted, id);
    }
  }

  /** A step that gives an attempt a status or worker it did not have. */
  ghost predicate Changes(s: State, t: State, id: string) {
    id in t.attempts && !(id in s.attempts && s.attempts[id].status == t.attempts[id].status && s.attempts[id].workerID == t.attempts[id].workerID)
  }

  lemma EndsByCompletion(s: State, t: State, l: Label, id: string)
    requires Does(s, t, l) && Changes(s, t, id) && t.attempts[id].status != Pending && t.attempts[id].status != Running
    ensures l.Complete? && l.id == id && Reports(l.result, t.attempts[id].status)
  {
    match l
    case Complete(other, result) => CompletionReports(s, t, other, result);
    case Reconcile(issueID) => ReconcileOnlyQueues(s, t, issueID, id);
    case Recover(maxAge, at) => RecoveryPutsBackOverdue(s, t, maxAge, at);
    case _ =>
  }

  /** However a run goes: an attempt that has ended was reported to have ended this way, and stays as reported until it is reported again. */
  lemma {:induction false} EndedAsReported(states: seq<State>, labels: seq<Label>, i: nat, id: string) returns (j: nat)
    requires History(states, labels) && i < |states| && id in states[i].attempts
    requires states[i].attempts[id].status != Pending && states[i].attempts[id].status != Running
    ensures j < i && labels[j].Complete? && labels[j].id == id && Reports(labels[j].result, states[i].attempts[id].status)
    ensures SameSince(states, j + 1, i, id)
  {
    assert DoesAt(states, labels, i - 1);
    if Changes(states[i - 1], states[i], id) {
      EndsByCompletion(states[i - 1], states[i], labels[i - 1], id);
      SinceNow(states, i, id);
      j := i - 1;
    } else {
      j := EndedAsReported(states, labels, i - 1, id);
      SinceBefore(states, j + 1, i, id);
    }
  }

  // ---- Starting ----

  /** The attempt waits, its stage and issue are among those asked for, and its run has neither completed nor failed. */
  ghost predicate MayStart(s: State, id: string, allowed: seq<string>, issueID: string) {
    && id in s.attempts && s.attempts[id].status == Pending && (allowed == [] || s.attempts[id].stage in allowed)
    && s.attempts[id].runID in s.runs
    && var run := s.runs[s.attempts[id].runID];
    run.status != RUN_COMPLETED && run.status != RUN_FAILED && (issueID == "" || run.issueID == issueID)
  }

  lemma StartsByClaim(s: State, t: State, l: Label, id: string)
    requires Does(s, t, l) && Changes(s, t, id) && t.attempts[id].status == Running
    ensures l.Claim? && l.outcome == Attempt(id) && t.attempts[id].workerID == l.workerID && MayStart(s, id, l.allowed, l.issueID)
  {
    match l
    case Complete(other, result) => CompletionReports(s, t, other, result);
    case Reconcile(issueID) => ReconcileOnlyQueues(s, t, issueID, id);
    case Recover(maxAge, at) => RecoveryPutsBackOverdue(s, t, maxAge, at);
    case _ =>
  }

  /** An attempt runs because its worker claimed it when it might start, and has run for that worker ever since. */
  lemma {:induction false} RunsSinceClaimed(states: seq<State>, labels: seq<Label>, i: nat, id: string) returns (j: nat)
    requires History(states, labels) && i < |states| && id in states[i].attempts && states[i].attempts[id].status == Running
    ensures j < i && labels[j].Claim? && labels[j].outcome == Attempt(id) && labels[j].workerID == states[i].attempts[id].workerID
    ensures MayStart(states[j], id, labels[j].allowed, labels[j].issueID)
    ensures SameSince(states, j + 1, i, id)
  {
    assert DoesAt(states, labels, i - 1);
    if Changes(states[i - 1], states[i], id) {
      StartsByClaim(states[i - 1], states[i], labels[i - 1], id);
      SinceNow(states, i, id);
      j := i - 1;
    } else {
      j := RunsSinceClaimed(states, labels, i - 1, id);
      SinceBefore(states, j + 1, i, id);
    }
  }

  /** The step gives the attempt this lease: the time of a reading of the clock during the call, and the length asked for. */
  ghost predicate GivesLease(s: State, t: State, l: Label, id: string, until: int) {
    || (l.Claim? && l.outcome == Attempt(id) && s.now + l.lease <= until <= t.now + l.lease)
    || (l.Heartbeat? && l.id == id && s.now + l.lease <= until <= t.now + l.lease)
  }

  lemma LeasesAreGiven(s: State, t: State, l: Label, id: string)
    requires Does(s, t, l) && id in t.attempts && t.attempts[id].leaseExpiresAt.Some?
    requires !(id in s.attempts && s.attempts[id].leaseExpiresAt == t.attempts[id].leaseExpiresAt)
    ensures GivesLease(s, t, l, id, t.attempts[id].leaseExpiresAt.value)
  {
    match l
    case Complete(other, result) => CompletionReports(s, t, other, result);
    case Reconcile(issueID) => ReconcileOnlyQueues(s, t, issueID, id);
    case Recover(maxAge, at) => RecoveryPutsBackOverdue(s, t, maxAge, at);
    case _ =>
  }

  /** A lease is never longer or shorter than a claim or a heartbeat asked for. */
  lemma {:induction false} LeaseAsAskedFor(states: seq<State>, labels: seq<Label>, i: nat, id: string) returns (j: nat)
    requires History(states, labels) && i < |states| && id in states[i].attempts && states[i].attempts[id].leaseExpiresAt.Some?
    ensures j < i && GivesLease(states[j], states[j + 1], labels[j], id, states[i].attempts[id].leaseExpiresAt.value)
  {
    assert DoesAt(states, labels, i - 1);
    if id in states[i - 1].attempts && states[i - 1].attempts[id].leaseExpiresAt == states[i].attempts[id].leaseExpiresAt {
      j := LeaseAsAskedFor(states, labels, i - 1, id);
    } else {
      LeasesAreGiven(states[i - 1], states[i], labels[i - 1], id);
      j := i - 1;
    }
  }

  lemma RowsAreGiven(s: State, t: State, l: Label, k: string)
    requires Does(s, t, l) && k in t.locks && !(k in s.locks && s.locks[k] == t.locks[k])
    ensures GivesLease(s, t, l, t.locks[k].owner, t.locks[k].expiresAt)
  {
    match l
    case Complete(other, result) => CompletionReports(s, t, other, result);
    case Recover(maxAge, at) => RecoveryPutsBackOverdue(s, t, maxAge, at);
    case Reconcile(issueID) => ReconcileKeepsLocks(s, t, issueID);
    case Claim(workerID, lease, allowed, issueID, outcome) => ClaimedRow(s, t, workerID, lease, allowed, issueID, outcome, k);
    case _ =>
  }

  lemma ClaimedRow(s: State, t: State, workerID: string, lease: int, allowed: seq<string>, issueID: string, outcome: ClaimOutcome, k: string)
    requires ClaimStep(s, t, workerID, lease, allowed, issueID, outcome) && k in t.locks && !(k in s.locks && s.locks[k] == t.locks[k])
    ensures outcome == Attempt(t.locks[k].owner) && s.now + lease <= t.locks[k].expiresAt <= t.now + lease
  {
    if outcome.Attempt? {
      var at :| Claimed(s, t, outcome.id, workerID, lease, at);
      assert Taken(s, t, k, outcome.id, at + lease, t.now + lease);
    }
  }

  lemma ReconcileKeepsLocks(s: State, t: State, issueID: string)
    requires Reconciled(s, t, issueID)
    ensures t.locks == s.locks
  {
    if Considered(s.issues[issueID]) && !NoRun(s, issueID) {
      var r, m, accepted, after :| ReconciledWith(s, t, issueID, r, m, accepted, after);
      QueueAllFrame(s, r.id, Evaluation0(s, s.issues[issueID], r, m).triggered + accepted);
    }
  }

  /** Nor does a lock outlast what its owner's last claim or heartbeat asked for, so that a dead worker's locks come free. */
  lemma {:induction false} LockAsAskedFor(states: seq<State>, labels: seq<Label>, i: nat, k: string) returns (j: nat)
    requires History(states, labels) && i < |states| && k in states[i].locks
    ensures j < i && GivesLease(states[j], states[j + 1], labels[j], states[i].locks[k].owner, states[i].locks[k].expiresAt)
  {
    assert DoesAt(states, labels, i - 1);
    if k in states[i - 1].locks && states[i - 1].locks[k] == states[i].locks[k] {
      j := LockAsAskedFor(states, labels, i - 1, k);
    } else {
      RowsAreGiven(states[i - 1], states[i], labels[i - 1], k);
      j := i - 1;
    }
  }

  /** Somebody else's unexpired row is on something that the stage controls. */
  ghost predicate Hindered(s: State, id: string) {
    exists target, spec, key :: WorksOn(s, id, target, spec) && HeldFrom(s, id, target, spec, key)
  }

  ghost predicate HeldFrom(s: State, id: string, target: DeliveryTarget, spec: StageSpec, key: string) {
    && key in s.locks && s.locks[key].owner != id && s.locks[key].expiresAt >= s.now
    && (ApplicationKey(target, spec, key) || GitOpsKey(target, spec, key) || JournalKey(target, spec, key))
  }

  /** A claim that finds nothing leaves no attempt unclaimed that might start and is not hindered. */
  lemma NothingMeansHindered(s: State, t: State, workerID: string, lease: int, allowed: seq<string>, issueID: string, id: string)
    requires ClaimStep(s, t, workerID, lease, allowed, issueID, Nothing) && MayStart(s, id, allowed, issueID)
    ensures Hindered(s, id)
  {
    assert Eligible(s, id, allowed, issueID);
    HeldUpMeansHindered(s, id);
  }

  lemma HeldUpMeansHindered(s: State, id: string)
    requires HeldUp(s, id)
    ensures Hindered(s, id)
  {
    var a := s.attempts[id];
    var k :| k in Keys(s, a) && HeldByOther(s, k, id);
    SpecMapKeys(SpecsFor(s, a.runID));
    StageLocks(s.runs[a.runID].target, SpecOf(s, a), k);
    assert WorksOn(s, id, s.runs[a.runID].target, SpecOf(s, a));
    assert HeldFrom(s, id, s.runs[a.runID].target, SpecOf(s, a), k);
  }

  // ---- Runs ----

  /** All runs there are for the issue are finished. */
  ghost predicate AllFinished(s: State, issueID: string) {
    forall q :: q in s.runs && s.runs[q].issueID == issueID ==> Finished(s.runs[q])
  }

  /**
   The run that an issue is ensured of is new exactly if all its runs are finished; a new one is
   pending and for the delivery that the issue asks for now, one that is not new is unfinished and
   as it was.
   */
  lemma RunIsNewIff(states: seq<State>, labels: seq<Label>, i: nat, issueID: string, run: Run)
    requires Behaviour(states, labels) && i < |labels| && labels[i] == EnsureRun(issueID, Ok(run))
    ensures var s, t := states[i], states[i + 1];
      && issueID in s.issues && run.issueID == issueID && run.id in t.runs && t.runs[run.id] == run
      && (run.id !in s.runs <==> AllFinished(s, issueID))
      && (run.id !in s.runs ==> run.status == RUN_PENDING && run.target == s.issues[issueID].delivery && s.now <= run.createdAt <= t.now)
      && (run.id in s.runs ==> s.runs[run.id] == run && !Finished(run))
  {
    Reachable(states, labels, i);
    assert StepAt(states, labels, i);
    EnsuredRun(states[i], states[i + 1], issueID, run);
  }

  lemma EnsuredRun(s: State, t: State, issueID: string, run: Run)
    requires GoodIds(s) && RunsSettled(s) && RunEnsured(s, t, issueID, Ok(run))
    ensures issueID in s.issues && run.issueID == issueID && run.id in t.runs && t.runs[run.id] == run
    ensures run.id !in s.runs <==> AllFinished(s, issueID)
    ensures run.id !in s.runs ==> run.status == RUN_PENDING && run.target == s.issues[issueID].delivery && s.now <= run.createdAt <= t.now
    ensures run.id in s.runs ==> s.runs[run.id] == run && !Finished(run)
  {
    if RunCreated(s, t, issueID, run) {
      NextIDIsNew(RUN, Counter(s, RUN), s.runs.Keys);
      if !NoRun(s, issueID) {
        var old' :| Latest(s, issueID, old') && RunStatusTerminal(old'.status);
        forall q | q in s.runs && s.runs[q].issueID == issueID ensures Finished(s.runs[q]) {
          assert s.runs[q].createdAt <= old'.createdAt;
        }
      }
    }
  }
}
