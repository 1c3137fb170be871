/** A second pass at the same clock changes nothing, provided no approval was given by label only. */
module Idempotence {
  import opened Names
  import opened Model
  import opened StageGraph
  import opened Execution
  import opened Scheduling
  import opened Protocol
  import opened Invariants
  import opened Confluence
  import opened Passes

  // ---- The approval must survive relabelling ----

  predicate ApprovedOtherThanByLabel(issue: Issue) {
    issue.approved || LABEL_APPROVED !in issue.labels
  }

  /** Relabelling keeps what counts as approval exactly if it was not given by label only. */
  lemma ApprovalSurvivesIff(issue: Issue, status: string)
    ensures Approved(issue.(labels := Relabel(issue.labels, status))) == Approved(issue) <==> ApprovedOtherThanByLabel(issue)
  {
    assert LABEL_PREFIX <= LABEL_APPROVED;
  }

  lemma RelabelTwice(labels: set<string>, status: string)
    ensures Relabel(Relabel(labels, status), status) == Relabel(labels, status)
  {
    assert LABEL_PREFIX <= LABEL_ACTIVE && LABEL_PREFIX <= LABEL_COMPLETED;
    assert LABEL_PREFIX <= LABEL_FAILED && LABEL_PREFIX <= LABEL_AWAITING_APPROVAL;
  }

  // ---- A decision that was carried out leaves nothing to decide ----

  /** The stages decided upon had no attempts. */
  lemma OfferedAreNew(s: State, k: string, r: Run)
    requires Acts(s, k, r)
    ensures OfferedNames(s, k, r) !! Attempts(s, r.id).Keys
  {
    var m, approved := Attempts(s, r.id), Approved(s.issues[k]);
    var e := Evaluation0(s, s.issues[k], r, m);
    forall spec | spec in Offers(s, k, r) ensures spec.name !in m {
      WithRoomMembers(s.attempts, s.now, e.runnable, spec);
      OfferedWithoutAttempt(Ordered(SpecsFor(s, r.id)), r.target, m, approved, spec);
    }
  }

  lemma AddsQueues(s: State, t: State, runID: string, names: set<string>)
    requires OnePerStage(t) && Adds(s, t, runID, names) && names !! Attempts(s, runID).Keys
    ensures Queues(Attempts(s, runID), Attempts(t, runID), names)
  {
    var before, after := Attempts(s, runID), Attempts(t, runID);
    forall n | n in names ensures n in after && after[n].status == Pending { AddedStatus(s, t, runID, names, n); }
    forall n | n in before ensures n in after && after[n] == before[n] { KeptStatus(s, t, runID, names, n); }
    forall n | n in after && n !in names ensures n in before { NothingElse(s, t, runID, names, n); }
    QueuesFrom(before, after, names);
  }

  lemma QueuesFrom(before: ByStage, after: ByStage, names: set<string>)
    requires names !! before.Keys
    requires forall n :: n in names ==> n in after && after[n].status == Pending
    requires forall n :: n in before ==> n in after && after[n] == before[n]
    requires forall n :: n in after && n !in names ==> n in before
    ensures Queues(before, after, names)
  {
  }

  /** `r` with the status decided for it. */
  function Moved(r: Run, d: Decision): Run {
    r.(status := d.status)
  }

  /** `t` is as it was decided in `s` for issue `k` and run `r`. */
  ghost predicate CarriedOut(s: State, t: State, k: string, r: Run) {
    && Acts(s, k, r) && Acts(t, k, Moved(r, Decided(s, k, r)))
    && Approved(t.issues[k]) == Approved(s.issues[k]) && t.plans == s.plans && t.now == s.now
    && Adds(s, t, r.id, OfferedNames(s, k, r)) && AttemptsKept(s, t)
  }

  lemma NothingMoreOffered(s: State, t: State, k: string, r: Run)
    requires OnePerStage(t) && CarriedOut(s, t, k, r)
    ensures Offers(t, k, Moved(r, Decided(s, k, r))) == []
  {
    var q, approved := Moved(r, Decided(s, k, r)), Approved(s.issues[k]);
    var ordered := Ordered(SpecsFor(s, r.id));
    var names, before, after := OfferedNames(s, k, r), Attempts(s, r.id), Attempts(t, r.id);
    OfferedAreNew(s, k, r);
    AddsQueues(s, t, r.id, names);
    if |Offers(t, k, q)| > 0 {
      var spec := Offers(t, k, q)[0];
      OfferedAfterQueueing(ordered, r.target, before, after, names, approved, spec);
      WithRoomMembers(t.attempts, t.now, Evaluated(ordered, r.target, after, approved).runnable, spec);
      WithRoomMembers(s.attempts, s.now, Evaluated(ordered, r.target, before, approved).runnable, spec);
      RunningSame(s, t, spec.name, s.now);
    }
  }

  lemma SettledWhenNothingOffered(s: State, k: string, r: Run)
    requires Acts(s, k, r) && Offers(s, k, r) == []
    ensures Settled(s, k, r) == Evaluation0(s, s.issues[k], r, Attempts(s, r.id)).status
  {
    assert OfferedNames(s, k, r) == {};
    NothingOverlaid(Attempts(s, r.id), r.id, OfferedNames(s, k, r));
  }

  lemma NothingOverlaid(m: ByStage, runID: string, names: set<string>)
    requires names == {}
    ensures m + (map n | n in names :: Queued(runID, n)) == m
  {
  }

  lemma SameStatusDecided(s: State, t: State, k: string, r: Run)
    requires OnePerStage(t) && CarriedOut(s, t, k, r)
    ensures Settled(t, k, Moved(r, Decided(s, k, r))) == Settled(s, k, r)
  {
    var names := OfferedNames(s, k, r);
    NothingMoreOffered(s, t, k, r);
    SettledWhenNothingOffered(t, k, Moved(r, Decided(s, k, r)));
    AddsStatuses(s, t, r.id, names);
    EvaluatedByStatuses(Attempts(t, r.id), Attempts(s, r.id) + map n | n in names :: Queued(r.id, n),
                        r.target, Approved(s.issues[k]), Ordered(SpecsFor(s, r.id)));
  }

  /** Deciding again gives the status there is and nothing to queue. */
  lemma DecidedAgain(s: State, t: State, k: string, r: Run)
    requires OnePerStage(t) && CarriedOut(s, t, k, r)
    ensures Decided(t, k, Moved(r, Decided(s, k, r))) == Decision(Decided(s, k, r).status, {})
  {
    NothingMoreOffered(s, t, k, r);
    SameStatusDecided(s, t, k, r);
  }

  // ---- After a pass ----

  lemma PassCarriesOut(s: State, t: State, visited: set<string>, k: string, r: Run)
    requires After(s, t, Decisions(s, visited)) && k in visited && Acts(s, k, r) && Considered(t.issues[k])
    requires k in s.issues && k in t.issues && ApprovedOtherThanByLabel(s.issues[k])
    ensures CarriedOut(s, t, k, r)
  {
    var d := Decisions(s, visited);
    assert r.id in VisitedRuns(s, visited) && d[r.id] == Decided(s, k, r) && IsOf(s, r.id, k);
    assert IssueAfter(s, t, d, k);
    ApprovalSurvivesIff(s.issues[k], d[r.id].status);
    assert Adds(s, t, r.id, NamesFor(d, r.id));
    MovedIsLatest(s, t, d, k, r);
  }

  lemma MovedIsLatest(s: State, t: State, d: map<string, Decision>, k: string, r: Run)
    requires RunsAfter(s, t, d) && Latest(s, k, r) && r.id in d
    ensures Latest(t, k, Moved(r, d[r.id]))
  {
    forall id | id in s.runs ensures t.runs[id].createdAt == s.runs[id].createdAt && t.runs[id].issueID == s.runs[id].issueID { }
  }

  /** A decision that leaves its run, its issue and the attempts as they are. */
  ghost predicate Idle(s: State, id: string, d: Decision) {
    && id in s.runs && d == Decision(s.runs[id].status, {})
    && var k := s.runs[id].issueID;
       k in s.issues ==> Relabel(s.issues[k].labels, d.status) == s.issues[k].labels
  }

  lemma IdleChangesNothing(s: State, t: State, d: map<string, Decision>)
    requires After(s, t, d) && forall id :: id in d ==> Idle(s, id, d[id])
    ensures t == s
  {
    assert t.runs == s.runs;
    forall k | k in s.issues ensures t.issues[k] == s.issues[k] {
      assert IssueAfter(s, t, d, k);
      if id :| id in d && IsOf(s, id, k) { assert Idle(s, id, d[id]); }
    }
    forall id | id in s.runs ensures NamesFor(d, id) == {} { assert id in d ==> Idle(s, id, d[id]); }
    NothingAdded(s, t, d);
  }

  lemma NothingAdded(s: State, t: State, d: map<string, Decision>)
    requires AttemptsAfter(s, t, d) && forall id :: id in s.runs ==> NamesFor(d, id) == {}
    ensures t.attempts == s.attempts
  {
    forall id | id in s.runs ensures Adds(s, t, id, {}) { assert Adds(s, t, id, NamesFor(d, id)); }
  }

  /** After a pass, whatever acts again was decided in the pass. */
  lemma ActedBefore(s: State, t: State, visited: set<string>, k: string, q: Run) returns (r: Run)
    requires RunsSettled(s) && After(s, t, Decisions(s, visited)) && k in visited && Acts(t, k, q)
    ensures Acts(s, k, r) && q == Moved(r, Decided(s, k, r))
  {
    var d := Decisions(s, visited);
    if x :| Acts(s, k, x) {
      r := x;
      assert r.id in VisitedRuns(s, visited) && IsOf(s, r.id, k);
      MovedIsLatest(s, t, d, k, r);
      LatestRunMoved(s, t, d, k, r, q);
    } else {
      NothingDecidedFor(s, visited, k);
      ActsSame(s, t, d, k, q);
      assert false;
    }
  }

  lemma NothingDecidedFor(s: State, visited: set<string>, k: string)
    requires forall r :: !Acts(s, k, r)
    ensures Undecided(s, Decisions(s, visited), k)
  {
    forall id | id in VisitedRuns(s, visited) ensures !IsOf(s, id, k) { assert !Acts(s, k, s.runs[id]); }
  }

  lemma LatestRunMoved(s: State, t: State, d: map<string, Decision>, k: string, r: Run, q: Run)
    requires RunsSettled(s) && RunsAfter(s, t, d) && Latest(s, k, r) && r.id in d && Latest(t, k, q)
    ensures q == Moved(r, d[r.id])
  {
    assert q.id in s.runs && t.runs[r.id] == Moved(r, d[r.id]);
    assert s.runs[q.id].createdAt == s.runs[r.id].createdAt;
  }

  lemma SecondDecision(s: State, t: State, visited: set<string>, k: string, q: Run)
    requires RunsSettled(s) && OnePerStage(t) && After(s, t, Decisions(s, visited)) && k in visited && Acts(t, k, q)
    requires k in s.issues ==> ApprovedOtherThanByLabel(s.issues[k])
    ensures Idle(t, q.id, Decided(t, k, q))
  {
    var r := ActedBefore(s, t, visited, k, q);
    PassCarriesOut(s, t, visited, k, r);
    DecidedAgain(s, t, k, r);
    var d := Decisions(s, visited);
    assert r.id in VisitedRuns(s, visited) && IsOf(s, r.id, k) && IssueAfter(s, t, d, k);
    RelabelTwice(s.issues[k].labels, d[r.id].status);
  }

  /** At one clock reading, reconciling again the issues reconciled before leaves the state exactly as it is. */
  lemma ReconcileIsIdempotent(s: State, order: seq<string>, t: State, again: seq<string>, u: State)
    requires Structure(s) && GoodIds(s) && PassLeads(s, order, t) && PassLeads(t, again, u)
    requires Elements(again) <= Elements(order)
    requires forall k :: k in again && k in s.issues ==> ApprovedOtherThanByLabel(s.issues[k])
    ensures u == t
  {
    PassDecides(s, order, t);
    PassDecides(t, again, u);
    SecondPass(s, t, u, Elements(order), Elements(again));
  }

  lemma SecondPass(s: State, t: State, u: State, visited: set<string>, again: set<string>)
    requires RunsSettled(s) && OnePerStage(t) && After(s, t, Decisions(s, visited)) && After(t, u, Decisions(t, again))
    requires again <= visited && forall k :: k in again && k in s.issues ==> ApprovedOtherThanByLabel(s.issues[k])
    ensures u == t
  {
    var d := Decisions(t, again);
    forall id | id in VisitedRuns(t, again) ensures Idle(t, id, d[id]) {
      SecondDecision(s, t, visited, t.runs[id].issueID, t.runs[id]);
    }
    IdleChangesNothing(t, u, d);
  }
}
