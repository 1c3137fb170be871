/** `internal/controlplane/service.go` with `internal/store/store.go`: the service itself, each call tied to its step of the protocol. */
module ControlPlane {
  import opened Names
  import opened Kahn
  import opened Ids
  import opened Model
  import opened StageGraph
  import opened Plan
  import opened Execution
  import opened Scheduling
  import opened Protocol
  import opened Invariants
  import opened Queueing
  import opened WellFormedness
  import opened Confluence
  import opened Locks

  lemma OneMoreAttempt(before: map<string, StageAttempt>, was: ByStage, m: ByStage, runID: string, id: string, a: StageAttempt)
    requires id !in before && IsByStage(before, runID, was)
    requires m == if a.runID == runID && (a.stage !in was || a.attempt > was[a.stage].attempt) then was[a.stage := a] else was
    ensures IsByStage(before[id := a], runID, m)
  {
    var after := before[id := a];
    forall st | st in m ensures exists x :: Represents(after, runID, st, x) && m[st] == after[x] {
      if st in was {
        var x :| Represents(before, runID, st, x) && was[st] == before[x];
        if a.runID == runID && a.stage == st && a.attempt > was[st].attempt {
          assert Represents(after, runID, st, id);
        } else {
          assert Represents(after, runID, st, x);
        }
      } else {
        assert Represents(after, runID, st, id);
      }
    }
  }

  lemma HighestByStage(attempts: map<string, StageAttempt>, runID: string, m: ByStage)
    requires IsByStage(attempts, runID, m)
    ensures forall id :: id in attempts && attempts[id].runID == runID ==>
      attempts[id].stage in m && attempts[id].attempt <= m[attempts[id].stage].attempt
  {
    forall id | id in attempts && attempts[id].runID == runID ensures attempts[id].attempt <= m[attempts[id].stage].attempt {
      var x :| Represents(attempts, runID, attempts[id].stage, x) && m[attempts[id].stage] == attempts[x];
    }
  }

  function ResetAll(attempts: map<string, StageAttempt>, ids: set<string>): map<string, StageAttempt> {
    map id | id in attempts :: if id in ids then Reset(attempts[id]) else attempts[id]
  }

  lemma ReleaseOneMore(s: State, ids: set<string>, id: string)
    requires ids <= s.attempts.Keys && id in s.attempts && id !in ids
    ensures Release(s, ids + {id})
         == map k | k in Release(s, ids) && !(k in s.attempts[id].lockKeys && Release(s, ids)[k].owner == id) :: Release(s, ids)[k]
  {
  }

  lemma ResetOneMore(attempts: map<string, StageAttempt>, ids: set<string>, id: string)
    requires id in attempts
    ensures ResetAll(attempts, ids + {id}) == ResetAll(attempts, ids)[id := Reset(attempts[id])]
  {
  }

  lemma {:induction false} QueueAllConcat(s: State, runID: string, a: seq<StageSpec>, b: seq<StageSpec>)
    ensures QueueAll(QueueAll(s, runID, a), runID, b) == QueueAll(s, runID, a + b)
  {
    if |b| == 0 {
      assert a + b == a;
    } else {
      QueueAllConcat(s, runID, a, b[..|b| - 1]);
      QueueAllLast(s, runID, a + b);
      QueueAllLast(QueueAll(s, runID, a), runID, b);
      assert (a + b)[..|a + b| - 1] == a + b[..|b| - 1] && (a + b)[|a + b| - 1] == b[|b| - 1];
    }
  }

  lemma QueueAllLast(s: State, runID: string, specs: seq<StageSpec>)
    requires |specs| > 0
    ensures QueueAll(s, runID, specs) == QueueOne(QueueAll(s, runID, specs[..|specs| - 1]), runID, specs[|specs| - 1].name)
  {
  }

  /** Leases only run out as time passes. */
  lemma RunningFalls(attempts: map<string, StageAttempt>, stage: string, from: int, to: int)
    requires from <= to
    ensures |RunningAt(attempts, stage, to)| <= |RunningAt(attempts, stage, from)|
  {
    SubsetSize(RunningAt(attempts, stage, to), RunningAt(attempts, stage, from));
  }

  lemma {:induction false} AcceptsLater(attempts: map<string, StageAttempt>, from: int, to: int, later: int,
                                        runnable: seq<StageSpec>, accepted: seq<StageSpec>)
    requires Accepts(attempts, from, to, runnable, accepted) && to <= later
    ensures Accepts(attempts, from, later, runnable, accepted)
  {
    if |runnable| > 0 {
      var front, spec := runnable[..|runnable| - 1], runnable[|runnable| - 1];
      RunningFalls(attempts, spec.name, to, later);
      if Accepts(attempts, from, to, front, accepted) && |RunningAt(attempts, spec.name, from)| >= Capacity(spec) {
        AcceptsLater(attempts, from, to, later, front, accepted);
      } else {
        AcceptsLater(attempts, from, to, later, front, accepted[..|accepted| - 1]);
      }
    }
  }

  lemma PendingDontRun(s: State, t: State, stage: string, at: int)
    requires OnlyPendingAdded(s, t)
    ensures RunningAt(t.attempts, stage, at) == RunningAt(s.attempts, stage, at)
  {
  }

  // ---- What the claim loop relies on ----

  /** All of `keys` now belong to `id`; whatever they replaced was its own or had expired, and nothing else changed. */
  ghost predicate AllTaken(before: map<string, LockRow>, after: map<string, LockRow>, id: string, keys: seq<string>, lease: int, from: int, now: int) {
    && (forall k :: k in keys ==> k in after && after[k].owner == id && from + lease <= after[k].expiresAt <= now + lease)
    && (forall k :: k in keys && k in before ==> before[k].owner == id || before[k].expiresAt < now)
    && (forall k :: k !in keys && k in before ==> k in after && after[k] == before[k])
    && (forall k :: k !in keys && k in after ==> k in before)
  }

  /** Rows may be gone that were the owner's own or had expired; the others are as they were. */
  ghost predicate GivenBack(before: map<string, LockRow>, after: map<string, LockRow>, id: string, now: int) {
    && (forall k :: k in after ==> k in before && after[k] == before[k])
    && (forall k :: k in before && k !in after ==> before[k].owner == id || before[k].expiresAt < now)
  }

  ghost predicate Foreign(rows: map<string, LockRow>, key: string, id: string, now: int) {
    key in rows && rows[key].owner != id && rows[key].expiresAt >= now
  }

  /** Since `s` time has passed, and rows may be gone that anybody could have taken. */
  ghost predicate ClaimUnderway(s: State, t: State) {
    t == s.(locks := t.locks, now := t.now) && s.now <= t.now && OthersKept(s, t, [])
  }

  lemma SweptFurther(s: State, before: State, after: State, id: string)
    requires OthersKept(s, before, []) && GivenBack(before.locks, after.locks, id, after.now) && before.now <= after.now
    requires id in s.attempts && s.attempts[id].status == Pending
    ensures OthersKept(s, after, [])
  {
    forall k | k in s.locks && k !in after.locks ensures Removable(s, after, k) {
      if k !in before.locks { assert Removable(s, before, k); }
    }
  }

  lemma ForeignHoldsUp(s: State, before: State, id: string)
    requires OthersKept(s, before, []) && s.now <= before.now && id in s.attempts && HasPlan(s, s.attempts[id])
    requires exists k :: k in Keys(s, s.attempts[id]) && Foreign(before.locks, k, id, before.now)
    ensures HeldUp(s, id)
  {
    var k :| k in Keys(s, s.attempts[id]) && Foreign(before.locks, k, id, before.now);
    assert HeldByOther(s, k, id);
  }

  lemma TakenMeansClaimed(s: State, before: State, after: State, id: string, workerID: string, lease: int, at: int)
    requires s.now <= at <= before.now <= after.now && OthersKept(s, before, [])
    requires id in s.attempts && s.attempts[id].status == Pending && HasPlan(s, s.attempts[id])
    requires AllTaken(before.locks, after.locks, id, Keys(s, s.attempts[id]), lease, before.now, after.now)
    requires var a, keys := s.attempts[id], Keys(s, s.attempts[id]);
      after == s.(attempts := s.attempts[id := a.(status := Running, workerID := workerID, leaseExpiresAt := Some(at + lease),
                                                  lockKeys := if |keys| > 0 then keys else a.lockKeys)],
                  locks := after.locks, now := after.now)
    ensures Claimed(s, after, id, workerID, lease, at)
  {
    var keys := Keys(s, s.attempts[id]);
    forall k | k in s.locks && k !in before.locks ensures Removable(s, after, k) { assert Removable(s, before, k); }
    forall k | k in keys ensures Taken(s, after, k, id, at + lease, after.now + lease) { }
    forall k | k in s.locks && k !in keys && k !in after.locks ensures Removable(s, after, k) { }
  }

  lemma OlderAreHeldUp(s: State, ids: seq<string>, i: nat, allowed: seq<string>, issueID: string)
    requires i < |ids| && Increasing(ids) && forall id :: id in s.attempts && s.attempts[id].status == Pending ==> id in ids
    requires forall j :: 0 <= j < i && Eligible(s, ids[j], allowed, issueID) ==> HeldUp(s, ids[j])
    ensures forall other :: Eligible(s, other, allowed, issueID) && Less(other, ids[i]) ==> HeldUp(s, other)
  {
    forall other | Eligible(s, other, allowed, issueID) && Less(other, ids[i]) ensures HeldUp(s, other) {
      assert other in ids;
      var j :| 0 <= j < |ids| && ids[j] == other;
      LessAsymmetric(other, ids[i]);
    }
  }

  // ---- What the reconcile loop relies on ----

  lemma CountedSinceStart(s: State, start: State, runID: string, accepted: seq<StageSpec>, current: State, stage: string)
    requires GoodIds(start) && OnlyPendingAdded(s, start) && current.attempts == QueueAll(start, runID, accepted).attempts
    ensures RunningAt(current.attempts, stage, current.now) == RunningAt(s.attempts, stage, current.now)
  {
    QueueAllAdds(start, runID, accepted);
    PendingDontRun(s, start, stage, current.now);
    PendingDontRun(start, QueueAll(start, runID, accepted), stage, current.now);
  }

  lemma OfferedCanBeQueued(s: State, issue: Issue, r: Run, m: ByStage)
    requires r.id in s.plans && UniqueNames(SpecsFor(s, r.id))
    ensures var e := Evaluation0(s, issue, r, m);
      UniqueNames(e.runnable) && forall spec :: spec in e.runnable ==> spec.name !in m.Keys + NamesIn(e.triggered)
  {
    var ordered, approved := Ordered(SpecsFor(s, r.id)), Approved(issue);
    var e := Evaluated(ordered, r.target, m, approved);
    OrderedNames(SpecsFor(s, r.id));
    ReadyAreUnique(ordered, r.target, m, approved);
    OfferedAreUnique(ordered, r.target, m, approved, e.runnable);
    forall spec | spec in e.runnable ensures spec.name !in m.Keys + NamesIn(e.triggered) {
      OfferedWithoutAttempt(ordered, r.target, m, approved, spec);
      NamesApart(e.triggered, e.runnable, spec);
    }
  }

  /** Once the triggered stages are queued, the runnable ones still can be. */
  lemma TriggeredFirst(s: State, issue: Issue, r: Run, m: ByStage)
    requires GoodIds(s) && r.id in s.plans && UniqueNames(SpecsFor(s, r.id))
    ensures var e, q := Evaluation0(s, issue, r, m), QueueAll(s, r.id, Evaluation0(s, issue, r, m).triggered);
      && UniqueNames(e.runnable) && (forall spec :: spec in e.runnable ==> spec.name !in Marked(m, r.id, e.triggered))
      && GoodIds(q) && OnlyPendingAdded(s, q) && q.now == s.now
  {
    var triggered := Evaluation0(s, issue, r, m).triggered;
    OfferedCanBeQueued(s, issue, r, m);
    MarkedKeys(m, r.id, triggered);
    QueueAllAdds(s, r.id, triggered);
    QueueAllExtends(s, r.id, triggered);
    QueueAllFrame(s, r.id, triggered);
  }

  lemma NamesApart(a: seq<StageSpec>, b: seq<StageSpec>, spec: StageSpec)
    requires UniqueNames(a + b) && spec in b
    ensures spec.name !in NamesIn(a)
  {
    var j :| 0 <= j < |b| && b[j] == spec;
    forall other | other in a ensures other.name != spec.name {
      var i :| 0 <= i < |a| && a[i] == other;
      assert (a + b)[i].name != (a + b)[|a| + j].name;
    }
  }

  /** The local view of the run's stages, after these have been queued. */
  function Marked(byStage: ByStage, runID: string, specs: seq<StageSpec>): ByStage {
    if |specs| == 0 then byStage
    else
      var stage := specs[|specs| - 1].name;
      Marked(byStage, runID, specs[..|specs| - 1])[stage := Queued(runID, stage)]
  }

  lemma {:induction false} MarkedKeys(byStage: ByStage, runID: string, specs: seq<StageSpec>)
    ensures Marked(byStage, runID, specs).Keys == byStage.Keys + NamesIn(specs)
  {
    if |specs| > 0 {
      MarkedKeys(byStage, runID, specs[..|specs| - 1]);
      NamesInLast(specs);
    }
  }

  lemma MarkedLater(byStage: ByStage, runID: string, specs: seq<StageSpec>, spec: StageSpec)
    ensures Marked(byStage, runID, specs + [spec]) == Marked(byStage, runID, specs)[spec.name := Queued(runID, spec.name)]
  {
    assert (specs + [spec])[..|specs|] == specs;
  }

  ghost predicate ReconciledAt(states: seq<State>, order: seq<string>, i: nat) {
    i < |order| < |states| && Reconciled(states[i], states[i + 1], order[i])
  }

  /** Each state comes from the one before by reconciling the issue at that place. */
  ghost predicate Chain(states: seq<State>, order: seq<string>) {
    |states| == |order| + 1 && forall i: nat :: i < |order| ==> ReconciledAt(states, order, i)
  }

  ghost function Chosen(issues: set<string>, filter: string): set<string> {
    set k | k in issues && (filter == "" || k == filter)
  }

  lemma ChosenOnly(order: seq<string>, issues: set<string>, filter: string)
    requires Elements(order) == Chosen(issues, filter)
    ensures forall k :: k in order <==> k in issues && (filter == "" || k == filter)
  {
    forall k ensures k in order <==> k in Elements(order) { }
  }

  lemma ChainGrows(states: seq<State>, order: seq<string>, t: State, issueID: string)
    requires Chain(states, order) && Reconciled(states[|order|], t, issueID)
    ensures Chain(states + [t], order + [issueID])
  {
    forall i: nat | i < |order| + 1 ensures ReconciledAt(states + [t], order + [issueID], i) {
      if i < |order| { assert ReconciledAt(states, order, i); }
    }
  }

  lemma OrderGrows(order: seq<string>, issueID: string)
    requires Distinct(order) && issueID !in Elements(order)
    ensures Distinct(order + [issueID]) && Elements(order + [issueID]) == Elements(order) + {issueID}
  {
  }

  /** The loop of `reconcile` has come from `start` to `s` by way of `states`, with the issues of `left` still to do. */
  ghost predicate Underway(start: State, s: State, states: seq<State>, order: seq<string>, chosen: set<string>, left: set<string>) {
    && WellFormed(s) && Elsewhere(start, s) && Chain(states, order) && states[0] == start && states[|order|] == s
    && Distinct(order) && Elements(order) == chosen - left
  }

  lemma UnderwayNext(start: State, s: State, t: State, states: seq<State>, order: seq<string>, chosen: set<string>, left: set<string>, issueID: string)
    requires Underway(start, s, states, order, chosen, left) && issueID in left && issueID in chosen && Reconciled(s, t, issueID)
    ensures Underway(start, t, states + [t], order + [issueID], chosen, left - {issueID})
  {
    StaysWellFormed(s, t, issueID);
    ChainGrows(states, order, t, issueID);
    OrderGrows(order, issueID);
  }

  lemma StaysWellFormed(s: State, t: State, issueID: string)
    requires WellFormed(s) && Reconciled(s, t, issueID)
    ensures WellFormed(t) && Elsewhere(s, t)
  {
    ReconcileWellFormed(s, t, issueID);
    ReconcileKeepsIssues(s, t, issueID);
  }

  /** A reconcile touches neither locks nor plans, and no issue comes or goes. */
  ghost predicate Elsewhere(s: State, t: State) {
    t.issues.Keys == s.issues.Keys && t.locks == s.locks && t.plans == s.plans && s.now <= t.now
  }

  lemma ReconcileKeepsIssues(s: State, t: State, issueID: string)
    requires Reconciled(s, t, issueID)
    ensures Elsewhere(s, t)
  {
    if Considered(s.issues[issueID]) && !NoRun(s, issueID) {
      var r, m, accepted, after :| ReconciledWith(s, t, issueID, r, m, accepted, after);
      ReconciledWithElsewhere(s, t, issueID, r, m, accepted, after);
    }
  }

  lemma ReconciledWithElsewhere(s: State, t: State, issueID: string, r: Run, m: ByStage, accepted: seq<StageSpec>, after: ByStage)
    requires ReconciledWith(s, t, issueID, r, m, accepted, after)
    ensures Elsewhere(s, t)
  {
    QueueAllFrame(s, r.id, Evaluation0(s, s.issues[issueID], r, m).triggered + accepted);
  }

  lemma AcceptsNext(attempts: map<string, StageAttempt>, from: int, before: int, to: int,
                    runnable: seq<StageSpec>, i: nat, accepted: seq<StageSpec>, room: bool)
    requires i < |runnable| && before <= to && Accepts(attempts, from, before, runnable[..i], accepted)
    requires if room then |RunningAt(attempts, runnable[i].name, to)| < Capacity(runnable[i])
             else |RunningAt(attempts, runnable[i].name, from)| >= Capacity(runnable[i])
    ensures Accepts(attempts, from, to, runnable[..i + 1], if room then accepted + [runnable[i]] else accepted)
  {
    AcceptsLater(attempts, from, before, to, runnable[..i], accepted);
    assert runnable[..i + 1][..i] == runnable[..i];
    assert (accepted + [runnable[i]])[..|accepted|] == accepted;
  }

  lemma TakeNext<T>(s: seq<T>, i: nat)
    requires i < |s|
    ensures s[..i] + [s[i]] == s[..i + 1]
  {
  }

  lemma TakeAll<T>(s: seq<T>)
    ensures s[..|s|] == s
  {
  }

  lemma QueueAllNext(s: State, runID: string, specs: seq<StageSpec>, spec: StageSpec)
    ensures QueueAll(s, runID, specs + [spec]) == QueueOne(QueueAll(s, runID, specs), runID, spec.name)
  {
    TakeFront(specs, spec);
  }

  lemma TakeFront<T>(s: seq<T>, x: T)
    ensures (s + [x])[..|s|] == s
  {
  }

  lemma QueueOneLater(s: State, runID: string, stage: string, now: int)
    ensures QueueOne(s.(now := now), runID, stage) == QueueOne(s, runID, stage).(now := now)
  {
  }

  lemma QueuedLater(start: State, runID: string, accepted: seq<StageSpec>, spec: StageSpec, now: int)
    ensures QueueOne(QueueAll(start, runID, accepted).(now := now), runID, spec.name)
         == QueueAll(start, runID, accepted + [spec]).(now := now)
  {
    QueueAllNext(start, runID, accepted, spec);
    QueueOneLater(QueueAll(start, runID, accepted), runID, spec.name, now);
  }

  class Service {
    const locker: PostgresManager
    var issues: map<string, Issue>
    var runs: map<string, Run>
    var attempts: map<string, StageAttempt>
    var counters: map<string, nat>
    var plans: map<string, ExecutionPlan>

    constructor (locker: PostgresManager)
      ensures this.locker == locker
      ensures issues == map[] && runs == map[] && attempts == map[] && counters == map[] && plans == map[]
    {
      this.locker := locker;
      issues, runs, attempts, counters, plans := map[], map[], map[], map[], map[];
    }

    /** What a step of the protocol sees. */
    ghost function Snapshot(): State
      reads this, locker, locker.clock
    {
      State(issues, runs, attempts, counters, plans, locker.rows, locker.clock.now)
    }

    // ---- Reading the state (`store.go`, `latestRunForIssue`) ----

    method NextID(prefix: string) returns (id: string)
      modifies this`counters
      ensures id == FormatID(prefix, Counter(old(Snapshot()), prefix) + 1)
      ensures counters == old(counters)[prefix := Counter(old(Snapshot()), prefix) + 1]
    {
      var n := if prefix in counters then counters[prefix] else 0;
      counters := counters[prefix := n + 1];
      id := FormatID(prefix, n + 1);
    }

    method AttemptsByStage(runID: string) returns (m: ByStage)
      ensures IsByStage(attempts, runID, m)
      ensures forall id :: id in attempts && attempts[id].runID == runID ==>
        attempts[id].stage in m && attempts[id].attempt <= m[attempts[id].stage].attempt
    {
      m := map[];
      var left := attempts.Keys;
      ghost var seen: map<string, StageAttempt> := map[];
      while left != {}
        invariant left <= attempts.Keys && seen == (map id | id in attempts && id !in left :: attempts[id])
        invariant IsByStage(seen, runID, m)
        decreases left
      {
        var id :| id in left;
        left := left - {id};
        ghost var before := seen;
        seen := seen[id := attempts[id]];
        var a := attempts[id];
        ghost var was := m;
        if a.runID == runID && (a.stage !in m || a.attempt > m[a.stage].attempt) {
          m := m[a.stage := a];
        }
        OneMoreAttempt(before, was, m, runID, id, a);
      }
      assert seen == attempts;
      HighestByStage(attempts, runID, m);
    }

    method RunningCount(stage: string) returns (count: nat)
      modifies locker.clock
      ensures old(locker.clock.now) <= locker.clock.now
      ensures count == |RunningAt(attempts, stage, locker.clock.now)|
    {
      count := 0;
      var now := locker.clock.Now();
      var left := attempts.Keys;
      ghost var counted: set<string> := {};
      while left != {}
        invariant left <= attempts.Keys && count == |counted|
        invariant counted == RunningAt(attempts, stage, now) - left
        decreases left
      {
        var id :| id in left;
        left := left - {id};
        var a := attempts[id];
        if a.stage != stage || a.status != Running { continue; }
        if a.leaseExpiresAt.Some? && a.leaseExpiresAt.value < now { continue; }
        count := count + 1;
        counted := counted + {id};
      }
    }

    method LatestRunForIssue(issueID: string) returns (latest: Option<Run>)
      requires forall id :: id in runs ==> runs[id].id == id
      ensures latest.None? ==> NoRun(Snapshot(), issueID)
      ensures latest.Some? ==> Latest(Snapshot(), issueID, latest.value)
    {
      latest := None;
      var left := runs.Keys;
      while left != {}
        invariant left <= runs.Keys
        invariant latest.None? ==> forall id :: id in runs && id !in left ==> runs[id].issueID != issueID
        invariant latest.Some? ==> var r := latest.value; r.id in runs && runs[r.id] == r && r.issueID == issueID
        invariant latest.Some? ==>
          forall id :: id in runs && id !in left && runs[id].issueID == issueID ==> runs[id].createdAt <= latest.value.createdAt
        decreases left
      {
        var id :| id in left;
        left := left - {id};
        if runs[id].issueID != issueID { continue; }
        if latest.None? || runs[id].createdAt > latest.value.createdAt {
          latest := Some(runs[id]);
        }
      }
    }

    // ---- Enqueue, EnsureRun, plans ----

    method EnqueueFromGitLab(listed: map<string, Issue>)
      modifies this`issues
      ensures Enqueued(old(Snapshot()), Snapshot(), listed)
      ensures forall k :: k in issues <==> k in listed || k in old(issues)
      ensures forall k :: k in issues ==> issues[k] == if k in listed then listed[k] else old(issues)[k]
    {
      var left := listed.Keys;
      ghost var before := issues;
      while left != {}
        invariant left <= listed.Keys
        invariant issues == before + map k | k in listed && k !in left :: listed[k]
        decreases left
      {
        var k :| k in left;
        left := left - {k};
        issues := issues[k := listed[k]];
      }
      assert (map k | k in listed && k !in left :: listed[k]) == listed;
    }

    method EnsureRunForIssue(issueID: string) returns (result: Result<Run>)
      requires forall id :: id in runs ==> runs[id].id == id
      modifies this`runs, this`counters, locker.clock
      ensures RunEnsured(old(Snapshot()), Snapshot(), issueID, result)
    {
      if issueID !in issues {
        return Err("issue is not tracked");
      }
      var latest := LatestRunForIssue(issueID);
      if latest.Some? && !RunStatusTerminal(latest.value.status) {
        return Ok(latest.value);
      }
      var now := locker.clock.Now();
      var runID := NextID(RUN);
      var r := Run(runID, issueID, issues[issueID].delivery, RUN_PENDING, now);
      runs := runs[runID := r];
      result := Ok(r);
      assert latest.Some? ==> Latest(old(Snapshot()), issueID, latest.value);
      assert RunCreated(old(Snapshot()), Snapshot(), issueID, r);
    }

    /** Writing the run's plan to the journal, over one that may be there. */
    method PersistPlan(runID: string, plan: ExecutionPlan) returns (ok: bool)
      requires Usable(plan)
      modifies this`plans
      ensures ok <==> runID in runs
      ensures if ok then Materialized(old(Snapshot()), Snapshot(), runID, plan) else Snapshot() == old(Snapshot())
    {
      ok := runID in runs;
      if ok { plans := plans[runID := plan]; }
    }

    // ---- Heartbeat, Complete, RecoverStuckRuns ----

    method RefreshLocks(id: string, keys: seq<string>, lease: int)
      modifies locker, locker.clock
      ensures old(locker.clock.now) <= locker.clock.now
      ensures locker.rows.Keys == old(locker.rows).Keys
      ensures forall k :: k in locker.rows && (k !in keys || old(locker.rows)[k].owner != id) ==> locker.rows[k] == old(locker.rows)[k]
      ensures forall k :: k in locker.rows ==> locker.rows[k].owner == old(locker.rows)[k].owner
      ensures forall k :: k in locker.rows && k in keys && locker.rows[k].owner == id ==>
        old(locker.clock.now) + lease <= locker.rows[k].expiresAt <= locker.clock.now + lease
    {
      for i := 0 to |keys|
        invariant old(locker.clock.now) <= locker.clock.now
        invariant locker.rows.Keys == old(locker.rows).Keys
        invariant forall k :: k in locker.rows && (k !in keys[..i] || old(locker.rows)[k].owner != id) ==>
          locker.rows[k] == old(locker.rows)[k]
        invariant forall k :: k in locker.rows ==> locker.rows[k].owner == old(locker.rows)[k].owner
        invariant forall k :: k in locker.rows && k in keys[..i] && locker.rows[k].owner == id ==>
          old(locker.clock.now) + lease <= locker.rows[k].expiresAt <= locker.clock.now + lease
      {
        assert keys[..i + 1] == keys[..i] + [keys[i]];
        locker.Refresh(keys[i], id, lease);
      }
      assert keys[..|keys|] == keys;
    }

    method Heartbeat(id: string, lease: int) returns (ok: bool, ghost at: int)
      modifies this`attempts, locker, locker.clock
      ensures ok <==> id in old(attempts)
      ensures ok ==> HeartbeatAt(old(Snapshot()), Snapshot(), id, lease, at)
      ensures !ok ==> Snapshot() == old(Snapshot())
    {
      at := 0;
      if id !in attempts {
        return false, at;
      }
      var now := locker.clock.Now();
      at := now;
      var a := attempts[id].(leaseExpiresAt := Some(now + lease));
      RefreshLocks(id, a.lockKeys, lease);
      attempts := attempts[id := a];
      ok := true;
    }

    method ReleaseLocks(id: string, keys: seq<string>)
      modifies locker
      ensures locker.rows == map k | k in old(locker.rows) && !(k in keys && old(locker.rows)[k].owner == id) :: old(locker.rows)[k]
    {
      for i := 0 to |keys|
        invariant locker.rows == map k | k in old(locker.rows) && !(k in keys[..i] && old(locker.rows)[k].owner == id) :: old(locker.rows)[k]
      {
        assert keys[..i + 1] == keys[..i] + [keys[i]];
        locker.Release(keys[i], id);
      }
      assert keys[..|keys|] == keys;
    }

    method Complete(id: string, result: string) returns (ok: bool)
      modifies this`attempts, locker, locker.clock
      ensures ok <==> id in old(attempts)
      ensures ok ==> Completed(old(Snapshot()), Snapshot(), id, result)
      ensures !ok ==> Snapshot() == old(Snapshot())
    {
      if id !in attempts {
        return false;
      }
      var now := locker.clock.Now();
      var a := attempts[id].(leaseExpiresAt := None, status := ResultStatus(result));
      ReleaseLocks(id, a.lockKeys);
      attempts := attempts[id := a];
      ok := true;
    }

    method RecoverStuckRuns(maxAge: int) returns (ghost at: int)
      modifies this`attempts, locker, locker.clock
      ensures RecoveredAt(old(Snapshot()), Snapshot(), maxAge, at)
    {
      ghost var s := Snapshot();
      var now := locker.clock.Now();
      at := now;
      ghost var stuck, done := StuckAt(s, maxAge, now), {};
      var left := attempts.Keys;
      while left != {}
        invariant left <= s.attempts.Keys && locker.clock.now == now && done == stuck - left
        invariant attempts == ResetAll(s.attempts, done)
        invariant locker.rows == Release(s, done)
        decreases left
      {
        var id :| id in left;
        left := left - {id};
        var a := attempts[id];
        if a.status != Running || a.leaseExpiresAt.None? || a.leaseExpiresAt.value + maxAge > now {
          continue;
        }
        ReleaseOneMore(s, done, id);
        ResetOneMore(s.attempts, done, id);
        ReleaseLocks(id, a.lockKeys);
        attempts := attempts[id := Reset(a)];
        done := done + {id};
      }
      assert done == stuck;
    }

    // ---- Claims ----

    /** All the keys, or none: on the first that another owner holds, those already acquired are given back. */
    method AcquireLocks(id: string, keys: seq<string>, lease: int) returns (acquired: seq<string>)
      modifies locker, locker.clock
      ensures old(locker.clock.now) <= locker.clock.now
      ensures acquired == keys || (acquired == [] && |keys| > 0)
      ensures acquired == keys ==> AllTaken(old(locker.rows), locker.rows, id, keys, lease, old(locker.clock.now), locker.clock.now)
      ensures acquired != keys ==> GivenBack(old(locker.rows), locker.rows, id, locker.clock.now)
      ensures acquired != keys ==> exists k :: k in keys && Foreign(old(locker.rows), k, id, old(locker.clock.now))
    {
      acquired := [];
      for i := 0 to |keys|
        invariant old(locker.clock.now) <= locker.clock.now
        invariant acquired == keys[..i]
        invariant AllTaken(old(locker.rows), locker.rows, id, keys[..i], lease, old(locker.clock.now), locker.clock.now)
      {
        ghost var rows, now := locker.rows, locker.clock.now;
        var ok := locker.TryAcquire(keys[i], id, lease);
        if !ok {
          assert Foreign(rows, keys[i], id, old(locker.clock.now));
          assert Foreign(old(locker.rows), keys[i], id, old(locker.clock.now));
          ReleaseLocks(id, acquired);
          return [];
        }
        assert keys[..i + 1] == keys[..i] + [keys[i]];
        acquired := acquired + [keys[i]];
      }
      assert keys[..|keys|] == keys;
    }

    method PendingIDs() returns (ids: seq<string>)
      ensures Increasing(ids)
      ensures forall id :: id in ids <==> id in attempts && attempts[id].status == Pending
    {
      ids := [];
      var left := attempts.Keys;
      while left != {}
        invariant left <= attempts.Keys && Distinct(ids)
        invariant forall id :: id in ids <==> id in attempts && id !in left && attempts[id].status == Pending
        decreases left
      {
        var id :| id in left;
        left := left - {id};
        if attempts[id].status == Pending { ids := ids + [id]; }
      }
      SortIncreasing(ids);
      SortElements(ids);
      assert forall id :: id in Sort(ids) <==> id in Elements(Sort(ids));
      assert forall id :: id in ids <==> id in Elements(ids);
      ids := Sort(ids);
    }

    /** The three checks that a claim starts with. */
    method PassesFilters(a: StageAttempt, run: Run, allowed: seq<string>, issueID: string) returns (passed: bool)
      ensures passed <==>
        (|allowed| > 0 ==> a.stage in allowed) && (issueID != "" ==> run.issueID == issueID)
        && run.status != RUN_FAILED && run.status != RUN_COMPLETED
    {
      if |allowed| > 0 && a.stage !in allowed { return false; }
      if issueID != "" && run.issueID != issueID { return false; }
      if run.status == RUN_FAILED || run.status == RUN_COMPLETED { return false; }
      passed := true;
    }

    /** Claiming one attempt that passed the filters: `Nothing` means that a lock is held by another. */
    method ClaimAttempt(ghost s: State, id: string, workerID: string, lease: int, now: int) returns (outcome: ClaimOutcome)
      requires id in attempts && attempts[id].status == Pending && attempts[id].runID in runs
      requires s.now <= now <= locker.clock.now && ClaimUnderway(s, Snapshot())
      modifies this`attempts, locker, locker.clock
      ensures outcome.Attempt? ==> outcome.id == id && Claimed(s, Snapshot(), id, workerID, lease, now)
      ensures !outcome.Attempt? ==> ClaimUnderway(s, Snapshot()) && locker.clock.now >= now
      ensures outcome.Nothing? ==> HeldUp(s, id)
      ensures outcome.Broken? ==> !HasPlan(s, s.attempts[id])
    {
      var a := attempts[id];
      if a.runID !in plans { return Broken; }
      var specMap := PlanSpecsMap(Some(plans[a.runID]));
      if a.stage !in specMap { return Broken; }
      var keys := KeysForStage(runs[a.runID].target, specMap[a.stage]);
      assert HasPlan(s, a) && keys == Keys(s, a);
      ghost var before := Snapshot();
      var acquired := AcquireLocks(id, keys, lease);
      if |acquired| == 0 && |keys| > 0 {
        SweptFurther(s, before, Snapshot(), id);
        ForeignHoldsUp(s, before, id);
        return Nothing;
      }
      attempts := attempts[id := a.(status := Running, workerID := workerID, leaseExpiresAt := Some(now + lease),
                                    lockKeys := if |acquired| > 0 then acquired else a.lockKeys)];
      TakenMeansClaimed(s, before, Snapshot(), id, workerID, lease, now);
      outcome := Attempt(id);
    }

    method ClaimNext(workerID: string, lease: int, allowed: seq<string>, issueID: string) returns (outcome: ClaimOutcome)
      requires forall id :: id in attempts ==> attempts[id].runID in runs
      modifies this`attempts, locker, locker.clock
      ensures ClaimStep(old(Snapshot()), Snapshot(), workerID, lease, allowed, issueID, outcome)
    {
      ghost var s := Snapshot();
      var now := locker.clock.Now();
      var ids := PendingIDs();
      for i := 0 to |ids|
        invariant s.now <= now <= locker.clock.now && ClaimUnderway(s, Snapshot())
        invariant forall j :: 0 <= j < i && Eligible(s, ids[j], allowed, issueID) ==> HeldUp(s, ids[j])
      {
        assert ids[i] in ids;
        var a := attempts[ids[i]];
        var passed := PassesFilters(a, runs[a.runID], allowed, issueID);
        assert passed <==> Eligible(s, ids[i], allowed, issueID);
        if !passed { continue; }
        outcome := ClaimAttempt(s, ids[i], workerID, lease, now);
        if outcome.Attempt? { OlderAreHeldUp(s, ids, i, allowed, issueID); }
        if !outcome.Nothing? { return; }
      }
      assert forall id :: Eligible(s, id, allowed, issueID) ==> id in ids;
      outcome := Nothing;
    }

    // ---- Reconcile ----

    method NextAttemptNumber(byStage: ByStage, stage: string) returns (number: int)
      ensures number == if stage in byStage then byStage[stage].attempt + 1 else 1
    {
      number := if stage in byStage then byStage[stage].attempt + 1 else 1;
    }

    /** One new pending attempt. */
    method Queue(runID: string, stage: string, number: int)
      requires number == 1
      modifies this`attempts, this`counters
      ensures Snapshot() == QueueOne(old(Snapshot()), runID, stage)
    {
      var id := NextID(ATTEMPT);
      attempts := attempts[id := StageAttempt(id, runID, stage, number, Pending, "", None, [])];
    }

    method QueueTriggered(runID: string, triggered: seq<StageSpec>, byStage: ByStage) returns (extended: ByStage)
      modifies this`attempts, this`counters
      ensures Snapshot() == QueueAll(old(Snapshot()), runID, triggered)
      ensures extended == Marked(byStage, runID, triggered)
    {
      extended := byStage;
      ghost var s, queued: seq<StageSpec> := Snapshot(), [];
      for i := 0 to |triggered|
        invariant queued == triggered[..i]
        invariant Snapshot() == QueueAll(s, runID, queued) && extended == Marked(byStage, runID, queued)
      {
        extended := QueueNext(s, runID, queued, triggered[i], byStage, extended);
        TakeNext(triggered, i);
        queued := queued + [triggered[i]];
      }
      TakeAll(triggered);
    }

    /** The body of the loop. */
    method QueueNext(ghost s: State, runID: string, ghost queued: seq<StageSpec>, spec: StageSpec, ghost byStage: ByStage, extended0: ByStage)
      returns (extended: ByStage)
      requires Snapshot() == QueueAll(s, runID, queued) && extended0 == Marked(byStage, runID, queued)
      modifies this`attempts, this`counters
      ensures Snapshot() == QueueAll(s, runID, queued + [spec]) && extended == Marked(byStage, runID, queued + [spec])
    {
      QueueAllNext(s, runID, queued, spec);
      Queue(runID, spec.name, 1);
      MarkedLater(byStage, runID, queued, spec);
      extended := extended0[spec.name := Queued(runID, spec.name)];
    }

    /** Room for one more attempt of the stage, counted at some moment of the call; `s` is the state when the reconcile began. */
    method HasRoom(ghost s: State, ghost start: State, ghost runID: string, ghost accepted: seq<StageSpec>, spec: StageSpec) returns (room: bool)
      requires GoodIds(start) && OnlyPendingAdded(s, start) && s.now <= locker.clock.now
      requires attempts == QueueAll(start, runID, accepted).attempts
      modifies locker.clock
      ensures old(locker.clock.now) <= locker.clock.now
      ensures room ==> |RunningAt(s.attempts, spec.name, locker.clock.now)| < Capacity(spec)
      ensures !room ==> |RunningAt(s.attempts, spec.name, s.now)| >= Capacity(spec)
    {
      var count := RunningCount(spec.name);
      CountedSinceStart(s, start, runID, accepted, Snapshot(), spec.name);
      RunningFalls(s.attempts, spec.name, s.now, locker.clock.now);
      room := count < (if spec.maxParallelism > 1 then spec.maxParallelism else 1);
    }

    method QueueRunnable(ghost s: State, runID: string, runnable: seq<StageSpec>, byStage: ByStage) returns (ghost accepted: seq<StageSpec>)
      requires GoodIds(Snapshot()) && OnlyPendingAdded(s, Snapshot()) && s.now <= locker.clock.now
      requires UniqueNames(runnable) && forall spec :: spec in runnable ==> spec.name !in byStage
      modifies this`attempts, this`counters, locker.clock
      ensures Accepts(s.attempts, s.now, locker.clock.now, runnable, accepted)
      ensures Snapshot() == QueueAll(old(Snapshot()), runID, accepted).(now := locker.clock.now)
      ensures old(locker.clock.now) <= locker.clock.now
    {
      accepted := [];
      var extended := byStage;
      ghost var start := Snapshot();
      for i := 0 to |runnable|
        invariant start.now <= locker.clock.now
        invariant Accepts(s.attempts, s.now, locker.clock.now, runnable[..i], accepted)
        invariant Snapshot() == QueueAll(start, runID, accepted).(now := locker.clock.now)
        invariant forall j :: i <= j < |runnable| ==> runnable[j].name !in extended
      {
        ghost var before := locker.clock.now;
        var room := HasRoom(s, start, runID, accepted, runnable[i]);
        AcceptsNext(s.attempts, s.now, before, locker.clock.now, runnable, i, accepted, room);
        if !room { continue; }
        var number := NextAttemptNumber(extended, runnable[i].name);
        Queue(runID, runnable[i].name, number);
        extended := extended[runnable[i].name := Queued(runID, runnable[i].name)];
        QueuedLater(start, runID, accepted, runnable[i], locker.clock.now);
        accepted := accepted + [runnable[i]];
      }
      assert runnable[..|runnable|] == runnable;
    }

    method EvaluateRun(issue: Issue, run: Run, byStage: ByStage) returns (eval: Evaluation)
      requires run.id in plans && UniqueNames(SpecsOf(plans[run.id].stages))
      ensures eval == Evaluation0(Snapshot(), issue, run, byStage)
    {
      eval := Evaluate(plans[run.id], run.target, byStage, issue.approved || LABEL_APPROVED in issue.labels);
    }

    /** The first half of an iteration: queue what the evaluation offers. */
    method QueueOffered(issue: Issue, run: Run, byStage: ByStage) returns (ghost accepted: seq<StageSpec>)
      requires run.id in plans && UniqueNames(SpecsOf(plans[run.id].stages)) && GoodIds(Snapshot())
      modifies this`attempts, this`counters, locker.clock
      ensures var s, e := old(Snapshot()), Evaluation0(old(Snapshot()), issue, run, byStage);
        && Accepts(s.attempts, s.now, locker.clock.now, e.runnable, accepted)
        && Snapshot() == QueueAll(s, run.id, e.triggered + accepted).(now := locker.clock.now)
        && s.now <= locker.clock.now
    {
      ghost var s := Snapshot();
      var eval := EvaluateRun(issue, run, byStage);
      TriggeredFirst(s, issue, run, byStage);
      var extended := QueueTriggered(run.id, eval.triggered, byStage);
      accepted := QueueRunnable(s, run.id, eval.runnable, extended);
      QueueAllConcat(s, run.id, eval.triggered, accepted);
    }

    /** The second half: the status of the run and the labels of the issue follow from what there is now. */
    method Settle(issueID: string, issue: Issue, run: Run) returns (ghost after: ByStage)
      requires issueID in issues && issues[issueID] == issue && run.id in plans
      requires UniqueNames(SpecsOf(plans[run.id].stages))
      modifies this`runs, this`issues
      ensures var q := old(Snapshot());
        && IsByStage(q.attempts, run.id, after)
        && var status := Evaluated(Ordered(SpecsFor(q, run.id)), run.target, after, Approved(issue)).status;
        Snapshot() == q.(runs := q.runs[run.id := run.(status := status)],
                         issues := q.issues[issueID := issue.(labels := Relabel(issue.labels, status))])
    {
      var byStage := AttemptsByStage(run.id);
      after := byStage;
      var eval := EvaluateRun(issue, run, byStage);
      runs := runs[run.id := run.(status := eval.status)];
      issues := issues[issueID := issue.(labels := Relabel(issue.labels, eval.status))];
    }

    /** One iteration of the loop in `reconcile`; without a plan nothing has been touched yet. */
    method ReconcileIssue(issueID: string) returns (ok: bool)
      requires issueID in issues && Keyed(Snapshot()) && GoodPlans(Snapshot()) && GoodIds(Snapshot())
      modifies this`issues, this`runs, this`attempts, this`counters, locker.clock
      ensures ok ==> Reconciled(old(Snapshot()), Snapshot(), issueID)
      ensures !ok ==> Snapshot() == old(Snapshot()) && Unplanned(old(Snapshot()), issueID)
    {
      var issue := issues[issueID];
      if LABEL_REQUESTED !in issue.labels && LABEL_ACTIVE !in issue.labels && LABEL_AWAITING_APPROVAL !in issue.labels {
        return true;
      }
      var latest := LatestRunForIssue(issueID);
      if latest.None? {
        return true;
      }
      if latest.value.id !in plans {
        assert LacksPlan(Snapshot(), issueID, latest.value);
        return false;
      }
      ReconcileRun(issueID, latest.value);
      ok := true;
    }

    method ReconcileRun(issueID: string, run: Run)
      requires issueID in issues && Considered(issues[issueID]) && Latest(Snapshot(), issueID, run) && run.id in plans
      requires GoodPlans(Snapshot()) && GoodIds(Snapshot())
      modifies this`issues, this`runs, this`attempts, this`counters, locker.clock
      ensures Reconciled(old(Snapshot()), Snapshot(), issueID)
    {
      ghost var s := Snapshot();
      var issue := issues[issueID];
      var byStage := AttemptsByStage(run.id);
      ghost var accepted := QueueOffered(issue, run, byStage);
      QueueAllFrame(s, run.id, Evaluation0(s, issue, run, byStage).triggered + accepted);
      ghost var q := Snapshot();
      ghost var after := Settle(issueID, issue, run);
      IsReconciled(s, q, Snapshot(), issueID, run, byStage, accepted, after);
    }

    /** The body of the loop, with the filter. */
    method ReconcileNext(issueID: string, issueFilter: string,
                         ghost start: State, ghost states0: seq<State>, ghost order0: seq<string>, ghost left: set<string>)
      returns (ok: bool, ghost states: seq<State>, ghost order: seq<string>)
      requires issueID in left && left <= start.issues.Keys
      requires Underway(start, Snapshot(), states0, order0, Chosen(start.issues.Keys, issueFilter), left)
      modifies this`issues, this`runs, this`attempts, this`counters, locker.clock
      ensures ok ==> Underway(start, Snapshot(), states, order, Chosen(start.issues.Keys, issueFilter), left - {issueID})
      ensures !ok ==> Snapshot() == old(Snapshot())
    {
      states, order := states0, order0;
      if issueFilter != "" && issueID != issueFilter {
        assert Chosen(start.issues.Keys, issueFilter) - (left - {issueID}) == Chosen(start.issues.Keys, issueFilter) - left;
        return true, states, order;
      }
      ghost var s := Snapshot();
      ok := ReconcileIssue(issueID);
      if ok {
        UnderwayNext(start, s, Snapshot(), states, order, Chosen(start.issues.Keys, issueFilter), left, issueID);
        states, order := states + [Snapshot()], order + [issueID];
      }
    }

    /** All issues, or the one asked for, in whatever order the map yields them; an error undoes everything. */
    method Reconcile(issueFilter: string) returns (ok: bool, ghost states: seq<State>, ghost order: seq<string>)
      requires WellFormed(Snapshot())
      modifies this`issues, this`runs, this`attempts, this`counters, locker.clock
      ensures ok ==> WellFormed(Snapshot())
      ensures ok ==> Chain(states, order) && states[0] == old(Snapshot()) && states[|order|] == Snapshot()
      ensures ok ==> Distinct(order) && forall k :: k in order <==> k in old(issues) && (issueFilter == "" || k == issueFilter)
      ensures !ok ==> Snapshot() == old(Snapshot()).(now := locker.clock.now) && old(locker.clock.now) <= locker.clock.now
    {
      var issues0, runs0, attempts0, counters0 := issues, runs, attempts, counters;
      ghost var start := Snapshot();
      states, order := [start], [];
      var left := issues.Keys;
      while left != {}
        invariant left <= issues0.Keys && start.now <= locker.clock.now
        invariant Underway(start, Snapshot(), states, order, Chosen(issues0.Keys, issueFilter), left)
        decreases left
      {
        var issueID :| issueID in left;
        ok, states, order := ReconcileNext(issueID, issueFilter, start, states, order, left);
        if !ok {
          issues, runs, attempts, counters := issues0, runs0, attempts0, counters0;
          return;
        }
        left := left - {issueID};
      }
      ChosenOnly(order, issues0.Keys, issueFilter);
      ok := true;
    }
  }
}
