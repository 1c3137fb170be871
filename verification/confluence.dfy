/**
 Reconciling at a fixed clock.  What one iteration does to its issue is a function of the
 state before the loop, whatever was reconciled in between; so the order in which a Go map
 yields the issues does not matter, and a second pass finds nothing to do.
 */
module Confluence {
  import opened Ids
  import opened Model
  import opened StageGraph
  import opened Execution
  import opened Scheduling
  import opened Protocol
  import opened Invariants
  import opened Queueing

  // ---- Evaluations look at statuses only ----

  ghost predicate SameStatuses(m: ByStage, n: ByStage) {
    m.Keys == n.Keys && forall st :: st in m ==> m[st].status == n[st].status
  }

  lemma SpecByStatuses(m: ByStage, n: ByStage, target: DeliveryTarget, approved: bool, spec: StageSpec)
    requires SameStatuses(m, n)
    ensures Stops(spec, m, approved) == Stops(spec, n, approved)
    ensures IsReady(spec, m, approved) == IsReady(spec, n, approved)
    ensures IsTriggered(spec, target, m) == IsTriggered(spec, target, n)
    ensures RollbackEligible(spec, target, m) == RollbackEligible(spec, target, n)
  {
    forall st, status ensures HasStatus(m, st, status) == HasStatus(n, st, status) { }
  }

  lemma {:induction false} StopByStatuses(m: ByStage, n: ByStage, target: DeliveryTarget, approved: bool, ordered: seq<StageSpec>)
    requires SameStatuses(m, n)
    ensures StopAt(ordered, m, approved) == StopAt(ordered, n, approved)
  {
    if |ordered| > 0 {
      SpecByStatuses(m, n, target, approved, ordered[0]);
      StopByStatuses(m, n, target, approved, ordered[1..]);
    }
  }

  lemma {:induction false} OfferedByStatuses(m: ByStage, n: ByStage, target: DeliveryTarget, approved: bool, specs: seq<StageSpec>)
    requires SameStatuses(m, n)
    ensures ReadyOnes(specs, m, approved) == ReadyOnes(specs, n, approved)
    ensures TriggeredOnes(specs, target, m) == TriggeredOnes(specs, target, n)
  {
    if |specs| > 0 {
      SpecByStatuses(m, n, target, approved, specs[|specs| - 1]);
      OfferedByStatuses(m, n, target, approved, specs[..|specs| - 1]);
    }
  }

  lemma EvaluatedByStatuses(m: ByStage, n: ByStage, target: DeliveryTarget, approved: bool, ordered: seq<StageSpec>)
    requires SameStatuses(m, n)
    ensures Evaluated(ordered, target, m, approved) == Evaluated(ordered, target, n, approved)
  {
    StopByStatuses(m, n, target, approved, ordered);
    OfferedByStatuses(m, n, target, approved, Looked(ordered, m, approved));
    forall spec ensures RollbackEligible(spec, target, m) == RollbackEligible(spec, target, n) {
      SpecByStatuses(m, n, target, approved, spec);
    }
    assert SomeFailed(ordered, m) == SomeFailed(ordered, n);
    assert SomeRollback(ordered, target, m) == SomeRollback(ordered, target, n);
    assert SomeStarted(ordered, m) == SomeStarted(ordered, n);
  }

  // ---- The choices of an iteration are forced ----

  ghost predicate IsFor(s: State, runID: string, stage: string, id: string) {
    id in s.attempts && s.attempts[id].runID == runID && s.attempts[id].stage == stage
  }

  ghost function StagesOf(s: State, runID: string): set<string> {
    set id | id in s.attempts && s.attempts[id].runID == runID :: s.attempts[id].stage
  }

  lemma StagesOfIff(s: State, runID: string, stage: string)
    ensures stage in StagesOf(s, runID) <==> exists id :: IsFor(s, runID, stage, id)
  {
    if stage in StagesOf(s, runID) {
      var id :| id in s.attempts && s.attempts[id].runID == runID && s.attempts[id].stage == stage;
      assert IsFor(s, runID, stage, id);
    }
  }

  ghost function AttemptFor(s: State, runID: string, stage: string): (a: StageAttempt)
    requires stage in StagesOf(s, runID)
    ensures exists id :: IsFor(s, runID, stage, id) && a == s.attempts[id]
  {
    StagesOfIff(s, runID, stage);
    var id :| IsFor(s, runID, stage, id);
    s.attempts[id]
  }

  /** The attempts of a run, by stage. */
  ghost function Attempts(s: State, runID: string): ByStage {
    map stage | stage in StagesOf(s, runID) :: AttemptFor(s, runID, stage)
  }

  lemma AttemptsAt(s: State, runID: string, stage: string, id: string)
    requires OnePerStage(s) && IsFor(s, runID, stage, id)
    ensures stage in Attempts(s, runID) && Attempts(s, runID)[stage] == s.attempts[id]
  {
    StagesOfIff(s, runID, stage);
    var other :| IsFor(s, runID, stage, other) && AttemptFor(s, runID, stage) == s.attempts[other];
    assert SameStage(s.attempts[id], s.attempts[other]);
  }

  lemma ByStageForced(s: State, runID: string, m: ByStage)
    requires OnePerStage(s) && IsByStage(s.attempts, runID, m)
    ensures m == Attempts(s, runID)
  {
    forall st | st in m ensures st in Attempts(s, runID) && Attempts(s, runID)[st] == m[st] { Representative(s, runID, m, st); }
    forall st | st in Attempts(s, runID) ensures st in m { Represented(s, runID, m, st); }
    SameMap(m, Attempts(s, runID));
  }

  lemma SameMap(m: ByStage, n: ByStage)
    requires forall st :: st in m ==> st in n && n[st] == m[st]
    requires forall st :: st in n ==> st in m
    ensures m == n
  {
  }

  lemma Represented(s: State, runID: string, m: ByStage, st: string)
    requires IsByStage(s.attempts, runID, m) && st in Attempts(s, runID)
    ensures st in m
  {
    var id :| IsFor(s, runID, st, id);
  }

  lemma Representative(s: State, runID: string, m: ByStage, st: string)
    requires OnePerStage(s) && IsByStage(s.attempts, runID, m) && st in m
    ensures st in Attempts(s, runID) && Attempts(s, runID)[st] == m[st]
  {
    var id :| Represents(s.attempts, runID, st, id) && m[st] == s.attempts[id];
    AttemptsAt(s, runID, st, id);
  }

  lemma RunForced(s: State, issueID: string, r: Run, q: Run)
    requires RunsSettled(s) && Latest(s, issueID, r) && Latest(s, issueID, q)
    ensures r == q
  {
    assert s.runs[r.id].createdAt == s.runs[q.id].createdAt;
  }

  /** The runnable specs with room at the fixed clock. */
  ghost function WithRoom(attempts: map<string, StageAttempt>, now: int, runnable: seq<StageSpec>): seq<StageSpec> {
    if |runnable| == 0 then []
    else
      var front, spec := runnable[..|runnable| - 1], runnable[|runnable| - 1];
      WithRoom(attempts, now, front) + (if |RunningAt(attempts, spec.name, now)| < Capacity(spec) then [spec] else [])
  }

  lemma {:induction false} AcceptedForced(attempts: map<string, StageAttempt>, now: int, runnable: seq<StageSpec>, accepted: seq<StageSpec>)
    requires Accepts(attempts, now, now, runnable, accepted)
    ensures accepted == WithRoom(attempts, now, runnable)
  {
    if |runnable| > 0 {
      var front, spec := runnable[..|runnable| - 1], runnable[|runnable| - 1];
      if Accepts(attempts, now, now, front, accepted) && |RunningAt(attempts, spec.name, now)| >= Capacity(spec) {
        AcceptedForced(attempts, now, front, accepted);
      } else {
        AcceptedForced(attempts, now, front, accepted[..|accepted| - 1]);
        assert accepted == accepted[..|accepted| - 1] + [spec];
      }
    }
  }

  lemma {:induction false} WithRoomMembers(attempts: map<string, StageAttempt>, now: int, runnable: seq<StageSpec>, spec: StageSpec)
    ensures spec in WithRoom(attempts, now, runnable)
       <==> spec in runnable && |RunningAt(attempts, spec.name, now)| < Capacity(spec)
  {
    if |runnable| > 0 {
      WithRoomMembers(attempts, now, runnable[..|runnable| - 1], spec);
      assert runnable == runnable[..|runnable| - 1] + [runnable[|runnable| - 1]];
    }
  }

  lemma {:induction false} WithRoomSame(a: map<string, StageAttempt>, b: map<string, StageAttempt>, now: int, runnable: seq<StageSpec>)
    requires forall n :: RunningAt(a, n, now) == RunningAt(b, n, now)
    ensures WithRoom(a, now, runnable) == WithRoom(b, now, runnable)
  {
    if |runnable| > 0 { WithRoomSame(a, b, now, runnable[..|runnable| - 1]); }
  }

  // ---- What reconciling an issue does, as a function of the state ----

  /** The issue's latest run is looked at. */
  ghost predicate Acts(s: State, issueID: string, r: Run) {
    && issueID in s.issues && Considered(s.issues[issueID]) && Latest(s, issueID, r) && r.id in s.plans
  }

  ghost function Offers(s: State, issueID: string, r: Run): seq<StageSpec>
    requires Acts(s, issueID, r)
  {
    var e := Evaluation0(s, s.issues[issueID], r, Attempts(s, r.id));
    e.triggered + WithRoom(s.attempts, s.now, e.runnable)
  }

  ghost function OfferedNames(s: State, issueID: string, r: Run): set<string>
    requires Acts(s, issueID, r)
  {
    NamesIn(Offers(s, issueID, r))
  }

  function Queued(runID: string, stage: string): StageAttempt {
    StageAttempt("", runID, stage, 1, Pending, "", None, [])
  }

  ghost function Settled(s: State, issueID: string, r: Run): string
    requires Acts(s, issueID, r)
  {
    Evaluation0(s, s.issues[issueID], r,
                Attempts(s, r.id) + map n | n in OfferedNames(s, issueID, r) :: Queued(r.id, n)).status
  }

  /** `t` has the attempts of `s`, and of the run also one new pending attempt for each of `stages`. */
  ghost predicate Adds(s: State, t: State, runID: string, stages: set<string>) {
    && (forall id :: id in s.attempts ==> id in t.attempts && t.attempts[id] == s.attempts[id])
    && (forall id :: id in t.attempts && id !in s.attempts && t.attempts[id].runID == runID ==>
          t.attempts[id].stage in stages && IsQueued(t.attempts[id], runID, t.attempts[id].stage))
    && (forall n :: n in stages ==> exists id :: AddedFor(s, t, runID, n, id))
  }

  ghost predicate AddsOnlyTo(s: State, t: State, runID: string) {
    forall id :: id in t.attempts && id !in s.attempts ==> t.attempts[id].runID == runID
  }

  ghost predicate AddedFor(s: State, t: State, runID: string, stage: string, id: string) {
    id in t.attempts && id !in s.attempts && IsQueued(t.attempts[id], runID, stage)
  }

  predicate IsQueued(a: StageAttempt, runID: string, stage: string) {
    a == Queued(runID, stage).(id := a.id)
  }

  ghost function NamesIn(specs: seq<StageSpec>): set<string> {
    set spec | spec in specs :: spec.name
  }

  lemma NamesInLast(specs: seq<StageSpec>)
    requires |specs| > 0
    ensures NamesIn(specs) == NamesIn(specs[..|specs| - 1]) + {specs[|specs| - 1].name}
  {
    assert specs == specs[..|specs| - 1] + [specs[|specs| - 1]];
  }

  lemma {:induction false} QueueAllAddsNames(s: State, runID: string, specs: seq<StageSpec>)
    requires GoodIds(s)
    ensures Adds(s, QueueAll(s, runID, specs), runID, NamesIn(specs)) && AddsOnlyTo(s, QueueAll(s, runID, specs), runID)
  {
    if |specs| > 0 {
      QueueAllAddsNames(s, runID, specs[..|specs| - 1]);
      QueueAllExtends(s, runID, specs[..|specs| - 1]);
      NamesInLast(specs);
      AddsLast(s, QueueAll(s, runID, specs[..|specs| - 1]), runID, NamesIn(specs[..|specs| - 1]), specs[|specs| - 1].name);
    }
  }

  lemma AddsLast(s: State, q: State, runID: string, names: set<string>, stage: string)
    requires GoodIds(q) && Adds(s, q, runID, names) && AddsOnlyTo(s, q, runID)
    ensures Adds(s, QueueOne(q, runID, stage), runID, names + {stage}) && AddsOnlyTo(s, QueueOne(q, runID, stage), runID)
  {
    QueueIds(q, runID, stage);
    AddsOneMore(s, q, FormatID(ATTEMPT, Counter(q, ATTEMPT) + 1), runID, names, stage);
  }

  lemma AddsOneMore(s: State, q: State, id: string, runID: string, names: set<string>, stage: string)
    requires Adds(s, q, runID, names) && AddsOnlyTo(s, q, runID) && id !in q.attempts
    ensures Adds(s, QueuedAs(q, id, runID, stage), runID, names + {stage}) && AddsOnlyTo(s, QueuedAs(q, id, runID, stage), runID)
  {
    var t := QueuedAs(q, id, runID, stage);
    assert AddedFor(s, t, runID, stage, id);
    forall n | n in names ensures exists i :: AddedFor(s, t, runID, n, i) {
      var i :| AddedFor(s, q, runID, n, i);
      assert AddedFor(s, t, runID, n, i);
    }
  }

  lemma ReconcileForced(s: State, t: State, issueID: string, r: Run)
    requires Structure(s) && GoodIds(s) && Acts(s, issueID, r) && Reconciled(s, t, issueID) && t.now == s.now
    ensures Carries(s, t, issueID, r, Decided(s, issueID, r))
  {
    assert r.id in s.runs;
    var q, m, accepted, after :| ReconciledWith(s, t, issueID, q, m, accepted, after);
    RunForced(s, issueID, r, q);
    ReconciledWithForced(s, t, issueID, r, m, accepted, after);
  }

  /** What reconciling an issue decides: the status of its run and the stages to queue. */
  datatype Decision = Decision(status: string, names: set<string>)

  ghost function Decided(s: State, issueID: string, r: Run): Decision
    requires Acts(s, issueID, r)
  {
    Decision(Settled(s, issueID, r), OfferedNames(s, issueID, r))
  }

  /** Reconciling the issue did what was decided: it queued the stages, set the status of the run and relabelled the issue. */
  ghost predicate Carries(s: State, t: State, issueID: string, r: Run, d: Decision) {
    && issueID in s.issues && Adds(s, t, r.id, d.names) && AddsOnlyTo(s, t, r.id)
    && t == s.(runs := s.runs[r.id := r.(status := d.status)], attempts := t.attempts, counters := t.counters,
               issues := s.issues[issueID := s.issues[issueID].(labels := Relabel(s.issues[issueID].labels, d.status))])
    && (d.names == {} ==> t.counters == s.counters)
  }

  lemma ReconciledWithForced(s: State, t: State, issueID: string, r: Run, m: ByStage, accepted: seq<StageSpec>, after: ByStage)
    requires Structure(s) && GoodIds(s) && Acts(s, issueID, r) && ReconciledWith(s, t, issueID, r, m, accepted, after) && t.now == s.now
    ensures Carries(s, t, issueID, r, Decided(s, issueID, r))
  {
    ChoicesForced(s, t, issueID, r, m, accepted, after);
    var q := QueueAll(s, r.id, Offers(s, issueID, r));
    QueueAllFrame(s, r.id, Offers(s, issueID, r));
    QueueAllAddsNames(s, r.id, Offers(s, issueID, r));
    AddsSame(s, q, t, r.id, OfferedNames(s, issueID, r));
    StatusForced(s, q, issueID, r, after);
    if |Offers(s, issueID, r)| > 0 { NamesInLast(Offers(s, issueID, r)); }
  }

  lemma AddsSame(s: State, q: State, t: State, runID: string, names: set<string>)
    requires Adds(s, q, runID, names) && t.attempts == q.attempts
    ensures Adds(s, t, runID, names)
  {
    forall n | n in names ensures exists id :: AddedFor(s, t, runID, n, id) {
      var id :| AddedFor(s, q, runID, n, id);
      assert AddedFor(s, t, runID, n, id);
    }
  }

  lemma ChoicesForced(s: State, t: State, issueID: string, r: Run, m: ByStage, accepted: seq<StageSpec>, after: ByStage)
    requires Structure(s) && GoodIds(s) && Acts(s, issueID, r) && ReconciledWith(s, t, issueID, r, m, accepted, after) && t.now == s.now
    ensures m == Attempts(s, r.id) && Evaluation0(s, s.issues[issueID], r, m).triggered + accepted == Offers(s, issueID, r)
    ensures Structure(QueueAll(s, r.id, Offers(s, issueID, r)))
  {
    ByStageForced(s, r.id, m);
    AcceptedForced(s.attempts, s.now, Evaluation0(s, s.issues[issueID], r, m).runnable, accepted);
    WhatReconcileQueues(s, t, issueID, r, m, accepted, after);
    QueueAllQueueable(s, r.id, Offers(s, issueID, r));
  }

  lemma StatusForced(s: State, q: State, issueID: string, r: Run, after: ByStage)
    requires OnePerStage(q) && Acts(s, issueID, r)
    requires Adds(s, q, r.id, OfferedNames(s, issueID, r)) && IsByStage(q.attempts, r.id, after)
    ensures Evaluation0(s, s.issues[issueID], r, after).status == Settled(s, issueID, r)
  {
    var names := OfferedNames(s, issueID, r);
    var extended := Attempts(s, r.id) + map n | n in names :: Queued(r.id, n);
    ByStageForced(q, r.id, after);
    AddsStatuses(s, q, r.id, names);
    EvaluatedByStatuses(after, extended, r.target, Approved(s.issues[issueID]), Ordered(SpecsFor(s, r.id)));
  }

  lemma AddsStatuses(s: State, q: State, runID: string, names: set<string>)
    requires OnePerStage(q) && Adds(s, q, runID, names)
    ensures SameStatuses(Attempts(q, runID), Attempts(s, runID) + map n | n in names :: Queued(runID, n))
  {
    var before, after := Attempts(s, runID), Attempts(q, runID);
    forall n | n in names ensures n in after && after[n].status == Pending { AddedStatus(s, q, runID, names, n); }
    forall n | n in before ensures n in after && after[n] == before[n] { KeptStatus(s, q, runID, names, n); }
    forall n | n in after && n !in names ensures n in before { NothingElse(s, q, runID, names, n); }
    Overlaid(before, after, runID, names);
  }

  lemma Overlaid(before: ByStage, after: ByStage, runID: string, names: set<string>)
    requires forall n :: n in names ==> n in after && after[n].status == Pending
    requires forall n :: n in before ==> n in after && after[n] == before[n]
    requires forall n :: n in after && n !in names ==> n in before
    ensures SameStatuses(after, before + map n | n in names :: Queued(runID, n))
  {
  }

  lemma AddedStatus(s: State, q: State, runID: string, names: set<string>, n: string)
    requires OnePerStage(q) && Adds(s, q, runID, names) && n in names
    ensures n in Attempts(q, runID) && Attempts(q, runID)[n].status == Pending
  {
    var id :| AddedFor(s, q, runID, n, id);
    AttemptsAt(q, runID, n, id);
  }

  lemma KeptStatus(s: State, q: State, runID: string, names: set<string>, n: string)
    requires OnePerStage(q) && Adds(s, q, runID, names) && n in Attempts(s, runID)
    ensures n in Attempts(q, runID) && Attempts(q, runID)[n] == Attempts(s, runID)[n]
  {
    var id :| IsFor(s, runID, n, id) && AttemptFor(s, runID, n) == s.attempts[id];
    AttemptsAt(q, runID, n, id);
  }

  lemma NothingElse(s: State, q: State, runID: string, names: set<string>, n: string)
    requires Adds(s, q, runID, names) && n in Attempts(q, runID) && n !in names
    ensures n in Attempts(s, runID)
  {
    var id :| IsFor(q, runID, n, id);
    assert IsFor(s, runID, n, id);
    StagesOfIff(s, runID, n);
  }
}
