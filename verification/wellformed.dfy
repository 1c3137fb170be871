/** What the code keeps whoever calls it: identifiers that were handed out, plans with distinct names, attempts of known runs. */
module WellFormedness {
  import opened Ids
  import opened Model
  import opened Execution
  import opened Protocol
  import opened Invariants
  import opened Queueing
  import opened Steps

  ghost predicate WellFormed(s: State) {
    Keyed(s) && HaveRuns(s) && GoodPlans(s) && GoodIds(s)
  }

  ghost predicate HaveRuns(s: State) {
    forall id :: id in s.attempts ==> s.attempts[id].runID in s.runs
  }

  lemma InPlaceWellFormed(s: State, t: State)
    requires WellFormed(s) && t.attempts.Keys == s.attempts.Keys && t.runs == s.runs && t.plans == s.plans && t.counters == s.counters
    requires forall id :: id in s.attempts ==> t.attempts[id].id == s.attempts[id].id && t.attempts[id].runID == s.attempts[id].runID
    ensures WellFormed(t)
  {
    FrameIds(s, t);
  }

  lemma EnsureRunWellFormed(s: State, t: State, issueID: string, r: Run)
    requires WellFormed(s) && RunCreated(s, t, issueID, r)
    ensures WellFormed(t)
  {
    CreateRunExtends(s, t, issueID, r);
  }

  lemma {:induction false} QueueAllKeyed(s: State, runID: string, specs: seq<StageSpec>)
    requires Keyed(s) && HaveRuns(s) && runID in s.runs
    ensures Keyed(QueueAll(s, runID, specs)) && HaveRuns(QueueAll(s, runID, specs))
  {
    if |specs| > 0 {
      var q := QueueAll(s, runID, specs[..|specs| - 1]);
      QueueAllKeyed(s, runID, specs[..|specs| - 1]);
      QueueAllFrame(s, runID, specs[..|specs| - 1]);
      QueuedKeyed(q, FormatID(ATTEMPT, Counter(q, ATTEMPT) + 1), runID, specs[|specs| - 1].name);
    }
  }

  lemma QueuedKeyed(s: State, id: string, runID: string, stage: string)
    requires Keyed(s) && HaveRuns(s) && runID in s.runs
    ensures Keyed(QueuedAs(s, id, runID, stage)) && HaveRuns(QueuedAs(s, id, runID, stage))
  {
  }

  lemma ReconcileWellFormed(s: State, t: State, issueID: string)
    requires WellFormed(s) && Reconciled(s, t, issueID)
    ensures WellFormed(t)
  {
    if Considered(s.issues[issueID]) && !NoRun(s, issueID) {
      var r, m, accepted, after :| ReconciledWith(s, t, issueID, r, m, accepted, after);
      ReconciledWithWellFormed(s, t, issueID, r, m, accepted, after);
    } else {
      InPlaceWellFormed(s, t);
    }
  }

  lemma ReconciledWithWellFormed(s: State, t: State, issueID: string, r: Run, m: ByStage, accepted: seq<StageSpec>, after: ByStage)
    requires WellFormed(s) && ReconciledWith(s, t, issueID, r, m, accepted, after)
    ensures WellFormed(t)
  {
    var queued := Evaluation0(s, s.issues[issueID], r, m).triggered + accepted;
    var q := QueueAll(s, r.id, queued);
    QueueAllFrame(s, r.id, queued);
    QueueAllKeyed(s, r.id, queued);
    QueueAllExtends(s, r.id, queued);
    SettledWellFormed(q, t, r, Evaluation0(s, s.issues[issueID], r, after).status);
  }

  lemma SettledWellFormed(q: State, t: State, r: Run, status: string)
    requires WellFormed(q) && r.id in q.runs && t.runs == q.runs[r.id := r.(status := status)]
    requires t.attempts == q.attempts && t.plans == q.plans && t.counters == q.counters
    ensures WellFormed(t)
  {
    FrameIds(q, t);
  }

  lemma DoesKeepsWellFormed(s: State, t: State, l: Label)
    requires WellFormed(s) && Does(s, t, l)
    ensures WellFormed(t)
  {
    if l.Reconcile? {
      ReconcileWellFormed(s, t, l.issueID);
    } else if l.EnsureRun? && l.issueID in s.issues && RunCreated(s, t, l.issueID, l.run.value) {
      EnsureRunWellFormed(s, t, l.issueID, l.run.value);
    } else if l.Materialize? {
      FrameIds(s, t);
    } else {
      AttemptsInPlace(s, t, l);
      InPlaceWellFormed(s, t);
    }
  }

  lemma AttemptsInPlace(s: State, t: State, l: Label)
    requires Does(s, t, l) && !l.Reconcile? && !l.Materialize?
    requires l.EnsureRun? && l.issueID in s.issues ==> !RunCreated(s, t, l.issueID, l.run.value)
    ensures t.attempts.Keys == s.attempts.Keys && t.runs == s.runs && t.plans == s.plans && t.counters == s.counters
    ensures forall id :: id in s.attempts ==> t.attempts[id].id == s.attempts[id].id && t.attempts[id].runID == s.attempts[id].runID
  {
  }
}
