/** Reconciling an issue keeps the invariant: only stages without an attempt, and ready if automatic, are queued. */
module Queueing {
  import opened Ids
  import opened Model
  import opened StageGraph
  import opened Execution
  import opened Scheduling
  import opened Protocol
  import opened Invariants

  // ---- One stage ----

  /** A stage that `reconcile` may queue: planned, without an attempt, and ready if it is automatic. */
  ghost predicate Queueable(s: State, runID: string, spec: StageSpec) {
    && Planned(s, runID, spec)
    && (forall id :: id in s.attempts && s.attempts[id].runID == runID ==> s.attempts[id].stage != spec.name)
    && (spec.AutoQueue() ==> AllSucceeded(s, runID, spec.dependencies))
  }

  ghost predicate Planned(s: State, runID: string, spec: StageSpec) {
    && runID in s.runs && runID in s.plans
    && spec.name in SpecMap(SpecsFor(s, runID)) && SpecMap(SpecsFor(s, runID))[spec.name] == spec
  }

  ghost predicate AllSucceeded(s: State, runID: string, deps: seq<string>) {
    forall d :: d in deps ==> exists b :: SucceededIn(s, runID, d, b)
  }

  lemma QueueExtends(s: State, id: string, runID: string, stage: string)
    requires id !in s.attempts
    ensures Extends(s, QueuedAs(s, id, runID, stage))
  {
  }

  lemma QueueAttempts(s: State, id: string, runID: string, spec: StageSpec)
    requires GoodAttempts(s) && Queueable(s, runID, spec) && id !in s.attempts
    ensures GoodAttempts(QueuedAs(s, id, runID, spec.name))
  {
    var t := QueuedAs(s, id, runID, spec.name);
    QueueExtends(s, id, runID, spec.name);
    forall a | a in t.attempts ensures HasPlan(t, t.attempts[a]) {
      if a != id { FramePlan(s, t, s.attempts[a]); }
    }
  }

  lemma QueueOnePerStage(s: State, id: string, runID: string, spec: StageSpec)
    requires OnePerStage(s) && Queueable(s, runID, spec) && id !in s.attempts
    ensures OnePerStage(QueuedAs(s, id, runID, spec.name))
  {
  }

  lemma QueuePlans(s: State, id: string, runID: string, stage: string)
    requires Keyed(s) && GoodPlans(s) && Leased(s) && RunsSettled(s) && id !in s.attempts
    ensures var t := QueuedAs(s, id, runID, stage); Keyed(t) && GoodPlans(t) && Leased(t) && RunsSettled(t)
  {
  }

  lemma QueueDeps(s: State, id: string, runID: string, spec: StageSpec)
    requires GoodAttempts(s) && DepsSucceeded(s) && Queueable(s, runID, spec) && id !in s.attempts
    ensures DepsSucceeded(QueuedAs(s, id, runID, spec.name))
  {
    var t := QueuedAs(s, id, runID, spec.name);
    QueueExtends(s, id, runID, spec.name);
    FrameDeps(s, t, s.attempts.Keys);
    forall d | NeedsDep(t, id, d) ensures exists b :: SucceededIn(t, runID, d, b) {
      assert AllSucceeded(s, runID, spec.dependencies);
      var b :| SucceededIn(s, runID, d, b);
      assert SucceededIn(t, runID, d, b);
    }
  }

  lemma QueueKeeps(s: State, id: string, runID: string, spec: StageSpec)
    requires Structure(s) && Queueable(s, runID, spec) && id !in s.attempts
    ensures Structure(QueuedAs(s, id, runID, spec.name))
  {
    QueueExtends(s, id, runID, spec.name);
    QueuePlans(s, id, runID, spec.name);
    QueueAttempts(s, id, runID, spec);
    QueueOnePerStage(s, id, runID, spec);
    QueueDeps(s, id, runID, spec);
  }

  /** Queueing a stage leaves every other stage queueable that was. */
  lemma StaysQueueable(s: State, id: string, runID: string, stage: string, spec: StageSpec)
    requires Queueable(s, runID, spec) && stage != spec.name && id !in s.attempts
    ensures Queueable(QueuedAs(s, id, runID, stage), runID, spec)
  {
    var t := QueuedAs(s, id, runID, stage);
    if spec.AutoQueue() {
      forall d | d in spec.dependencies ensures exists b :: SucceededIn(t, runID, d, b) {
        assert AllSucceeded(s, runID, spec.dependencies);
        var b :| SucceededIn(s, runID, d, b);
        assert SucceededIn(t, runID, d, b);
      }
    }
  }

  ghost predicate AllQueueable(s: State, runID: string, specs: set<StageSpec>) {
    forall x :: x in specs ==> Queueable(s, runID, x)
  }

  lemma StayQueueable(s: State, id: string, runID: string, stage: string, more: set<StageSpec>)
    requires id !in s.attempts && AllQueueable(s, runID, more) && forall x :: x in more ==> x.name != stage
    ensures AllQueueable(QueuedAs(s, id, runID, stage), runID, more)
  {
    forall x | x in more ensures Queueable(QueuedAs(s, id, runID, stage), runID, x) {
      StaysQueueable(s, id, runID, stage, x);
    }
  }

  /** The next identifier is new, and handing it out keeps every identifier accounted for. */
  lemma QueueIds(s: State, runID: string, stage: string)
    requires GoodIds(s)
    ensures FormatID(ATTEMPT, Counter(s, ATTEMPT) + 1) !in s.attempts
    ensures GoodIds(QueueOne(s, runID, stage))
  {
    var n := Counter(s, ATTEMPT) + 1;
    NextIDIsNew(ATTEMPT, n - 1, s.attempts.Keys);
    var id := FormatID(ATTEMPT, n);
    assert Issued(ATTEMPT, n, id);
    forall a | a in s.attempts ensures Issued(ATTEMPT, n, a) {
      IssuedMore(ATTEMPT, n - 1, n, a);
    }
  }

  // ---- Several stages ----

  ghost predicate NotIn(spec: StageSpec, more: set<StageSpec>) {
    forall x :: x in more ==> x.name != spec.name
  }

  lemma {:induction false} QueueAllExtends(s: State, runID: string, specs: seq<StageSpec>)
    requires GoodIds(s)
    ensures GoodIds(QueueAll(s, runID, specs)) && Extends(s, QueueAll(s, runID, specs))
  {
    if |specs| > 0 {
      var t := QueueAll(s, runID, specs[..|specs| - 1]);
      var stage := specs[|specs| - 1].name;
      QueueAllExtends(s, runID, specs[..|specs| - 1]);
      QueueIds(t, runID, stage);
      QueueExtends(t, FormatID(ATTEMPT, Counter(t, ATTEMPT) + 1), runID, stage);
      ExtendsTransitive(s, t, QueueOne(t, runID, stage));
    }
  }

  lemma {:induction false} QueueAllKeeps(s: State, runID: string, specs: seq<StageSpec>, more: set<StageSpec>)
    requires Structure(s) && GoodIds(s) && UniqueNames(specs) && AllQueueable(s, runID, more)
    requires forall i :: 0 <= i < |specs| ==> Queueable(s, runID, specs[i]) && NotIn(specs[i], more)
    ensures Structure(QueueAll(s, runID, specs)) && AllQueueable(QueueAll(s, runID, specs), runID, more)
    decreases |specs|
  {
    if |specs| > 0 {
      var front, last := specs[..|specs| - 1], specs[|specs| - 1];
      forall i | 0 <= i < |front| ensures Queueable(s, runID, front[i]) && NotIn(front[i], more + {last}) {
        assert front[i] == specs[i] && NotIn(specs[i], more);
      }
      QueueAllKeeps(s, runID, front, more + {last});
      QueueLast(s, runID, specs, more);
    }
  }

  lemma QueueLast(s: State, runID: string, specs: seq<StageSpec>, more: set<StageSpec>)
    requires GoodIds(s) && |specs| > 0 && NotIn(specs[|specs| - 1], more)
    requires var t := QueueAll(s, runID, specs[..|specs| - 1]);
      Structure(t) && AllQueueable(t, runID, more + {specs[|specs| - 1]})
    ensures Structure(QueueAll(s, runID, specs)) && AllQueueable(QueueAll(s, runID, specs), runID, more)
  {
    var t := QueueAll(s, runID, specs[..|specs| - 1]);
    QueueAllExtends(s, runID, specs[..|specs| - 1]);
    QueueIds(t, runID, specs[|specs| - 1].name);
    QueueNext(t, FormatID(ATTEMPT, Counter(t, ATTEMPT) + 1), runID, specs[|specs| - 1], more);
  }

  lemma QueueNext(t: State, id: string, runID: string, spec: StageSpec, more: set<StageSpec>)
    requires Structure(t) && id !in t.attempts && NotIn(spec, more) && AllQueueable(t, runID, more + {spec})
    ensures Structure(QueuedAs(t, id, runID, spec.name)) && AllQueueable(QueuedAs(t, id, runID, spec.name), runID, more)
  {
    assert AllQueueable(t, runID, more + {spec});
    assert spec in more + {spec};
    QueueKeeps(t, id, runID, spec);
    StayQueueable(t, id, runID, spec.name, more);
  }

  lemma {:induction false} QueueAllFrame(s: State, runID: string, specs: seq<StageSpec>)
    ensures var q := QueueAll(s, runID, specs);
      q == s.(attempts := q.attempts, counters := q.counters)
  {
    if |specs| > 0 { QueueAllFrame(s, runID, specs[..|specs| - 1]); }
  }

  // ---- What an evaluation offers may be queued ----

  lemma ByStageSucceeded(s: State, runID: string, m: ByStage, d: string)
    requires IsByStage(s.attempts, runID, m) && HasStatus(m, d, Succeeded)
    ensures exists b :: SucceededIn(s, runID, d, b)
  {
    var b :| Represents(s.attempts, runID, d, b) && m[d] == s.attempts[b];
    assert SucceededIn(s, runID, d, b);
  }

  lemma OfferedIsQueueable(s: State, r: Run, target: DeliveryTarget, m: ByStage, approved: bool, spec: StageSpec)
    requires GoodPlans(s) && r.id in s.plans && IsByStage(s.attempts, r.id, m)
    requires var e := Evaluated(Ordered(SpecsFor(s, r.id)), target, m, approved); spec in e.runnable || spec in e.triggered
    ensures Queueable(s, r.id, spec)
  {
    var specs := SpecsFor(s, r.id);
    var looked := Looked(Ordered(specs), m, approved);
    ReadyMembers(looked, m, approved, spec);
    TriggeredMembers(looked, target, m, spec);
    OrderedFromSpecs(specs, spec);
    var k :| 0 <= k < |specs| && specs[k] == spec;
    SpecMapUnique(specs, k);
    if spec.AutoQueue() {
      forall d | d in spec.dependencies ensures exists b :: SucceededIn(s, r.id, d, b) {
        ByStageSucceeded(s, r.id, m, d);
      }
    }
  }

  lemma {:induction false} AcceptedAreRunnable(attempts: map<string, StageAttempt>, from: int, to: int,
                                               runnable: seq<StageSpec>, accepted: seq<StageSpec>)
    requires Accepts(attempts, from, to, runnable, accepted)
    ensures forall spec :: spec in accepted ==> spec in runnable
    ensures UniqueNames(runnable) ==> UniqueNames(accepted)
  {
    if |runnable| > 0 {
      var front, spec := runnable[..|runnable| - 1], runnable[|runnable| - 1];
      if Accepts(attempts, from, to, front, accepted) && |RunningAt(attempts, spec.name, from)| >= Capacity(spec) {
        AcceptedAreRunnable(attempts, from, to, front, accepted);
      } else {
        var kept := accepted[..|accepted| - 1];
        AcceptedAreRunnable(attempts, from, to, front, kept);
        assert accepted == kept + [spec];
        if UniqueNames(runnable) {
          forall i | 0 <= i < |kept| ensures kept[i].name != spec.name {
            assert kept[i] in front;
            var k :| 0 <= k < |front| && front[k] == kept[i];
          }
        }
      }
    }
  }

  lemma OfferedAreUnique(ordered: seq<StageSpec>, target: DeliveryTarget, m: ByStage, approved: bool, accepted: seq<StageSpec>)
    requires UniqueNames(ordered) && UniqueNames(accepted)
    requires forall spec :: spec in accepted ==> spec in Evaluated(ordered, target, m, approved).runnable
    ensures UniqueNames(Evaluated(ordered, target, m, approved).triggered + accepted)
  {
    var triggered := Evaluated(ordered, target, m, approved).triggered;
    var looked := Looked(ordered, m, approved);
    TriggeredUnique(looked, target, m);
    forall i, j | 0 <= i < |triggered| && 0 <= j < |accepted| ensures triggered[i].name != accepted[j].name {
      TriggeredMembers(looked, target, m, triggered[i]);
      ReadyMembers(looked, m, approved, accepted[j]);
      var k :| 0 <= k < |looked| && looked[k] == triggered[i];
      var l :| 0 <= l < |looked| && looked[l] == accepted[j];
      assert triggered[i] != accepted[j];
    }
  }

  lemma ReadyAreUnique(ordered: seq<StageSpec>, target: DeliveryTarget, m: ByStage, approved: bool)
    requires UniqueNames(ordered)
    ensures UniqueNames(Evaluated(ordered, target, m, approved).runnable)
  {
    ReadyUnique(Looked(ordered, m, approved), m, approved);
  }

  // ---- Reconcile ----

  /** Settling the latest run's status, relabelling the issue and time passing. */
  lemma SettleKeeps(q: State, t: State, issueID: string, r: Run, status: string)
    requires Structure(q) && Latest(q, issueID, r) && q.now <= t.now
    requires t == q.(runs := q.runs[r.id := r.(status := status)], issues := t.issues, now := t.now)
    ensures Structure(t) && Extends(q, t)
  {
    SettleExtends(q, t, issueID, r, status);
    SameAttempts(q, t);
    FramePlans(q, t);
    SettleRuns(q, t, issueID, r, status);
  }

  lemma SettleExtends(q: State, t: State, issueID: string, r: Run, status: string)
    requires Keyed(q) && Latest(q, issueID, r) && q.now <= t.now
    requires t == q.(runs := q.runs[r.id := r.(status := status)], issues := t.issues, now := t.now)
    ensures Keyed(t) && Extends(q, t)
  {
  }

  lemma SameAttempts(s: State, t: State)
    requires GoodAttempts(s) && OnePerStage(s) && DepsSucceeded(s) && Extends(s, t) && t.attempts == s.attempts
    ensures GoodAttempts(t) && OnePerStage(t) && DepsSucceeded(t)
  {
    forall id | id in t.attempts ensures HasPlan(t, t.attempts[id]) { FramePlan(s, t, s.attempts[id]); }
    FrameDeps(s, t, s.attempts.Keys);
  }

  lemma SettleRuns(q: State, t: State, issueID: string, r: Run, status: string)
    requires RunsSettled(q) && Latest(q, issueID, r) && t.runs == q.runs[r.id := r.(status := status)]
    ensures RunsSettled(t)
  {
  }

  lemma TimePasses(s: State, t: State)
    requires Structure(s) && t == s.(issues := t.issues, now := t.now) && s.now <= t.now
    ensures Structure(t) && Extends(s, t)
  {
    assert Extends(s, t) && Keyed(t) && Leased(t) && RunsSettled(t);
    SameAttempts(s, t);
    FramePlans(s, t);
  }

  /** What one reconcile of an issue queues: specs of the run's plan, no name twice, each of them queueable. */
  lemma WhatReconcileQueues(s: State, t: State, issueID: string, r: Run, m: ByStage, accepted: seq<StageSpec>, after: ByStage)
    requires Structure(s) && ReconciledWith(s, t, issueID, r, m, accepted, after)
    ensures var queued := Evaluation0(s, s.issues[issueID], r, m).triggered + accepted;
      UniqueNames(queued) && forall spec :: spec in queued ==> Queueable(s, r.id, spec)
  {
    var specs, approved := SpecsFor(s, r.id), Approved(s.issues[issueID]);
    var e := Evaluation0(s, s.issues[issueID], r, m);
    OrderedNames(specs);
    ReadyAreUnique(Ordered(specs), r.target, m, approved);
    AcceptedAreRunnable(s.attempts, s.now, t.now, e.runnable, accepted);
    OfferedAreUnique(Ordered(specs), r.target, m, approved, accepted);
    forall spec | spec in e.triggered + accepted ensures Queueable(s, r.id, spec) {
      OfferedIsQueueable(s, r, r.target, m, approved, spec);
    }
  }

  lemma ReconcileKeeps(s: State, t: State, issueID: string)
    requires Structure(s) && GoodIds(s) && Reconciled(s, t, issueID)
    ensures Structure(t) && GoodIds(t) && Extends(s, t)
  {
    if !Considered(s.issues[issueID]) || NoRun(s, issueID) {
      TimePasses(s, t);
      FrameIds(s, t);
    } else {
      var r, m, accepted, after :| ReconciledWith(s, t, issueID, r, m, accepted, after);
      ReconciledWithKeeps(s, t, issueID, r, m, accepted, after);
    }
  }

  lemma ReconciledWithKeeps(s: State, t: State, issueID: string, r: Run, m: ByStage, accepted: seq<StageSpec>, after: ByStage)
    requires Structure(s) && GoodIds(s) && ReconciledWith(s, t, issueID, r, m, accepted, after)
    ensures Structure(t) && GoodIds(t) && Extends(s, t)
  {
    var queued := Evaluation0(s, s.issues[issueID], r, m).triggered + accepted;
    WhatReconcileQueues(s, t, issueID, r, m, accepted, after);
    QueueAllQueueable(s, r.id, queued);
    QueueAllFrame(s, r.id, queued);
    SettleAll(s, QueueAll(s, r.id, queued), t, issueID, r, Evaluation0(s, s.issues[issueID], r, after).status);
  }

  lemma QueueAllQueueable(s: State, runID: string, specs: seq<StageSpec>)
    requires Structure(s) && GoodIds(s) && UniqueNames(specs) && forall spec :: spec in specs ==> Queueable(s, runID, spec)
    ensures var q := QueueAll(s, runID, specs); Structure(q) && GoodIds(q) && Extends(s, q)
  {
    QueueAllKeeps(s, runID, specs, {});
    QueueAllExtends(s, runID, specs);
  }

  lemma SettleAll(s: State, q: State, t: State, issueID: string, r: Run, status: string)
    requires Structure(q) && GoodIds(q) && Extends(s, q) && Latest(q, issueID, r) && q.now <= t.now
    requires t == q.(runs := q.runs[r.id := r.(status := status)], issues := t.issues, now := t.now)
    ensures Structure(t) && GoodIds(t) && Extends(s, t)
  {
    SettleKeeps(q, t, issueID, r, status);
    ExtendsTransitive(s, q, t);
    FrameIds(q, t);
  }

  /** Queueing what was offered and then settling is a reconcile. */
  lemma IsReconciled(s: State, q: State, t: State, issueID: string, r: Run, m: ByStage, accepted: seq<StageSpec>, after: ByStage)
    requires issueID in s.issues && Considered(s.issues[issueID]) && Latest(s, issueID, r) && r.id in s.plans
    requires IsByStage(s.attempts, r.id, m) && s.now <= q.now
    requires Accepts(s.attempts, s.now, q.now, Evaluation0(s, s.issues[issueID], r, m).runnable, accepted)
    requires q == QueueAll(s, r.id, Evaluation0(s, s.issues[issueID], r, m).triggered + accepted).(now := q.now)
    requires IsByStage(q.attempts, r.id, after)
    requires var status := Evaluation0(s, s.issues[issueID], r, after).status;
      t == q.(runs := s.runs[r.id := r.(status := status)],
              issues := s.issues[issueID := s.issues[issueID].(labels := Relabel(s.issues[issueID].labels, status))])
    ensures Reconciled(s, t, issueID)
  {
    assert ReconciledWith(s, t, issueID, r, m, accepted, after);
    assert s.runs[r.id].issueID == issueID;
  }

  // ---- Recorded keys ----

  /** Attempts that were there record what they recorded, and only they can be running. */
  ghost predicate KeysKept(s: State, t: State) {
    forall id :: id in t.attempts ==> Unclaimed(t.attempts[id]) || KeepsKeys(s, t, id)
  }

  predicate Unclaimed(a: StageAttempt) {
    a.status != Running && a.lockKeys == []
  }

  ghost predicate KeepsKeys(s: State, t: State, id: string)
    requires id in t.attempts
  {
    id in s.attempts && t.attempts[id].lockKeys == s.attempts[id].lockKeys
    && (t.attempts[id].status == Running ==> s.attempts[id].status == Running)
  }

  lemma KeysKeptKeeps(s: State, t: State)
    requires KeysRecorded(s) && GoodAttempts(t) && Extends(s, t) && KeysKept(s, t)
    ensures KeysRecorded(t)
  {
    forall id | id in t.attempts ensures KeysOf(t, t.attempts[id]) {
      if KeepsKeys(s, t, id) {
        assert KeysOf(s, s.attempts[id]) && SameAttempt(s.attempts[id], t.attempts[id]);
        FrameKeys(s, t, s.attempts[id]);
      }
    }
  }

  lemma {:induction false} QueueAllKeys(s: State, runID: string, specs: seq<StageSpec>)
    ensures KeysKept(s, QueueAll(s, runID, specs))
  {
    if |specs| > 0 {
      var q := QueueAll(s, runID, specs[..|specs| - 1]);
      QueueAllKeys(s, runID, specs[..|specs| - 1]);
      QueueKeys(s, q, FormatID(ATTEMPT, Counter(q, ATTEMPT) + 1), runID, specs[|specs| - 1].name);
    }
  }

  lemma QueueKeys(s: State, q: State, id: string, runID: string, stage: string)
    requires KeysKept(s, q)
    ensures KeysKept(s, QueuedAs(q, id, runID, stage))
  {
    var t := QueuedAs(q, id, runID, stage);
    forall a | a in t.attempts && a != id
      ensures Unclaimed(t.attempts[a]) || KeepsKeys(s, t, a) {
      assert a in q.attempts && (KeepsKeys(s, q, a) ==> KeepsKeys(s, t, a));
    }
  }

  lemma ReconcileKeys(s: State, t: State, issueID: string)
    requires Reconciled(s, t, issueID)
    ensures KeysKept(s, t)
  {
    if Considered(s.issues[issueID]) && !NoRun(s, issueID) {
      var r, m, accepted, after :| ReconciledWith(s, t, issueID, r, m, accepted, after);
      var queued := Evaluation0(s, s.issues[issueID], r, m).triggered + accepted;
      QueueAllKeys(s, r.id, queued);
      assert t.attempts == QueueAll(s, r.id, queued).attempts;
      forall id | id in t.attempts ensures KeepsKeys(s, QueueAll(s, r.id, queued), id) ==> KeepsKeys(s, t, id) { }
    }
  }

  // ---- Locks ----

  /** New attempts are pending and own nothing. */
  ghost predicate OnlyPendingAdded(s: State, t: State) {
    && (forall id :: id in s.attempts ==> id in t.attempts && t.attempts[id] == s.attempts[id])
    && (forall id :: id in t.attempts && id !in s.attempts ==> t.attempts[id].status == Pending)
  }

  lemma SameLocks(s: State, t: State)
    requires Locking(s) && t.locks == s.locks && OnlyPendingAdded(s, t) && s.now <= t.now
    ensures Locking(t)
  {
    forall key | key in t.locks ensures RowJustified(t, key) { assert RowJustified(s, key); }
    forall a, key | Live(t, a) && key in t.attempts[a].lockKeys ensures Owns(t, a, key) {
      assert Live(s, a);
      assert Owns(s, a, key);
    }
  }

  lemma {:induction false} QueueAllAdds(s: State, runID: string, specs: seq<StageSpec>)
    requires GoodIds(s)
    ensures OnlyPendingAdded(s, QueueAll(s, runID, specs))
  {
    if |specs| > 0 {
      QueueAllAdds(s, runID, specs[..|specs| - 1]);
      QueueAllExtends(s, runID, specs[..|specs| - 1]);
      QueueIds(QueueAll(s, runID, specs[..|specs| - 1]), runID, specs[|specs| - 1].name);
    }
  }

  lemma ReconcileLocking(s: State, t: State, issueID: string)
    requires Locking(s) && GoodIds(s) && Reconciled(s, t, issueID)
    ensures Locking(t)
  {
    if Considered(s.issues[issueID]) && !NoRun(s, issueID) {
      var r, m, accepted, after :| ReconciledWith(s, t, issueID, r, m, accepted, after);
      var queued := Evaluation0(s, s.issues[issueID], r, m).triggered + accepted;
      QueueAllAdds(s, r.id, queued);
      QueueAllFrame(s, r.id, queued);
      assert t.attempts == QueueAll(s, r.id, queued).attempts && t.locks == s.locks;
    }
    SameLocks(s, t);
  }
}
