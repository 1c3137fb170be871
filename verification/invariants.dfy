/** What every step of the control plane keeps, and what follows for every reachable state. */
module Invariants {
  import opened Ids
  import opened Model
  import opened Protocol

  // ---- The invariant ----

  ghost predicate Issued(prefix: string, counter: nat, id: string) {
    exists n: nat :: 1 <= n <= counter && id == FormatID(prefix, n)
  }

  /** Every identifier in use was handed out by its counter. */
  ghost predicate GoodIds(s: State) {
    && (forall id :: id in s.attempts ==> Issued(ATTEMPT, Counter(s, ATTEMPT), id))
    && (forall id :: id in s.runs ==> Issued(RUN, Counter(s, RUN), id))
  }

  ghost predicate Keyed(s: State) {
    && (forall id :: id in s.attempts ==> s.attempts[id].id == id)
    && (forall id :: id in s.runs ==> s.runs[id].id == id)
  }

  ghost predicate GoodPlans(s: State) {
    forall r :: r in s.plans ==> r in s.runs && UniqueNames(SpecsFor(s, r))
  }

  /** Every attempt belongs to a planned stage. */
  ghost predicate GoodAttempts(s: State) {
    forall id :: id in s.attempts ==> HasPlan(s, s.attempts[id])
  }

  /** A running attempt has a lease. */
  ghost predicate Leased(s: State) {
    forall id :: id in s.attempts && s.attempts[id].status == Running ==> s.attempts[id].leaseExpiresAt.Some?
  }

  /** A running attempt has recorded the keys its stage requires. */
  ghost predicate KeysRecorded(s: State) {
    forall id :: id in s.attempts ==> KeysOf(s, s.attempts[id])
  }

  ghost predicate KeysOf(s: State, a: StageAttempt) {
    && HasPlan(s, a)
    && (a.lockKeys == [] || a.lockKeys == Keys(s, a))
    && (a.status == Running ==> a.lockKeys == Keys(s, a))
  }

  /** At most one attempt ever exists per run and stage. */
  ghost predicate OnePerStage(s: State) {
    forall a, b :: a in s.attempts && b in s.attempts && SameStage(s.attempts[a], s.attempts[b]) ==> a == b
  }

  predicate SameStage(a: StageAttempt, b: StageAttempt) {
    a.runID == b.runID && a.stage == b.stage
  }

  /** An automatically queued stage has an attempt only if all its dependencies have succeeded. */
  ghost predicate DepsSucceeded(s: State) {
    forall id, d :: id in s.attempts && NeedsDep(s, id, d) ==> exists b :: SucceededIn(s, s.attempts[id].runID, d, b)
  }

  ghost predicate NeedsDep(s: State, id: string, d: string) {
    && id in s.attempts && HasPlan(s, s.attempts[id])
    && SpecOf(s, s.attempts[id]).AutoQueue() && d in SpecOf(s, s.attempts[id]).dependencies
  }

  ghost predicate SucceededIn(s: State, runID: string, d: string, b: string) {
    b in s.attempts && s.attempts[b].runID == runID && s.attempts[b].stage == d && s.attempts[b].status == Succeeded
  }

  /** Of the runs of an issue only the latest can be unfinished. */
  ghost predicate RunsSettled(s: State) {
    && (forall r, q :: r in s.runs && q in s.runs && s.runs[r].issueID == s.runs[q].issueID && s.runs[r].createdAt < s.runs[q].createdAt
          ==> RunStatusTerminal(s.runs[r].status))
    && (forall r, q :: r in s.runs && q in s.runs && s.runs[r].issueID == s.runs[q].issueID && s.runs[r].createdAt == s.runs[q].createdAt
          ==> r == q)
  }

  /** An attempt that is running on an unexpired lease. */
  ghost predicate Live(s: State, id: string) {
    id in s.attempts && s.attempts[id].status == Running
    && s.attempts[id].leaseExpiresAt.Some? && s.attempts[id].leaseExpiresAt.value >= s.now
  }

  /** The row of `key` belongs to `id` and expires no earlier than its lease. */
  ghost predicate Owns(s: State, id: string, key: string) {
    && id in s.attempts && s.attempts[id].leaseExpiresAt.Some?
    && key in s.locks && s.locks[key].owner == id && s.locks[key].expiresAt >= s.attempts[id].leaseExpiresAt.value
  }

  ghost predicate LiveOwn(s: State) {
    forall id, key :: Live(s, id) && key in s.attempts[id].lockKeys ==> Owns(s, id, key)
  }

  /** Each lock row belongs to a running attempt that recorded its key. */
  ghost predicate NoLeaks(s: State) {
    forall key :: key in s.locks ==> RowJustified(s, key)
  }

  ghost predicate RowJustified(s: State, key: string)
    requires key in s.locks
  {
    var owner := s.locks[key].owner;
    owner in s.attempts && s.attempts[owner].status == Running && key in s.attempts[owner].lockKeys
  }

  ghost predicate Base(s: State) {
    Keyed(s) && GoodPlans(s) && GoodAttempts(s)
  }

  ghost predicate Structure(s: State) {
    Base(s) && Leased(s) && OnePerStage(s) && DepsSucceeded(s) && RunsSettled(s)
  }

  ghost predicate Locking(s: State) {
    LiveOwn(s) && NoLeaks(s)
  }

  ghost predicate Invariant(s: State) {
    Structure(s) && Locking(s) && GoodIds(s) && KeysRecorded(s)
  }

  // ---- What no step undoes ----

  /** Nothing is forgotten: runs, plans and attempts stay what they were, and success stays success. */
  ghost predicate Extends(s: State, t: State) {
    && s.now <= t.now
    && Counter(s, ATTEMPT) <= Counter(t, ATTEMPT) && Counter(s, RUN) <= Counter(t, RUN)
    && (forall r :: r in s.runs ==> r in t.runs && SameRun(s.runs[r], t.runs[r]))
    && (forall r :: r in s.plans ==> r in t.plans && t.plans[r] == s.plans[r])
    && (forall id :: id in s.attempts ==> id in t.attempts && SameAttempt(s.attempts[id], t.attempts[id]))
  }

  predicate SameRun(r: Run, q: Run) {
    q == r.(status := q.status)
  }

  predicate SameAttempt(a: StageAttempt, b: StageAttempt) {
    b.id == a.id && SameStage(a, b) && b.attempt == a.attempt && (a.status == Succeeded ==> b.status == Succeeded)
  }

  lemma ExtendsTransitive(s: State, t: State, u: State)
    requires Extends(s, t) && Extends(t, u)
    ensures Extends(s, u)
  {
  }

  // ---- Frames: what a step that adds no attempt keeps ----

  lemma FramePlan(s: State, t: State, a: StageAttempt)
    requires Extends(s, t) && HasPlan(s, a)
    ensures HasPlan(t, a) && SpecOf(t, a) == SpecOf(s, a)
  {
  }

  lemma FrameKeys(s: State, t: State, a: StageAttempt)
    requires Extends(s, t) && HasPlan(s, a)
    ensures HasPlan(t, a) && Keys(t, a) == Keys(s, a)
  {
    FramePlan(s, t, a);
  }

  lemma FrameOnePerStage(s: State, t: State)
    requires OnePerStage(s) && Extends(s, t) && t.attempts.Keys == s.attempts.Keys
    ensures OnePerStage(t)
  {
    forall a, b | a in t.attempts && b in t.attempts && SameStage(t.attempts[a], t.attempts[b]) ensures a == b {
      assert SameAttempt(s.attempts[a], t.attempts[a]) && SameAttempt(s.attempts[b], t.attempts[b]);
      assert SameStage(s.attempts[a], s.attempts[b]);
    }
  }

  lemma FrameDeps(s: State, t: State, ids: set<string>)
    requires GoodAttempts(s) && DepsSucceeded(s) && Extends(s, t) && ids <= s.attempts.Keys
    ensures forall id, d :: id in ids && NeedsDep(t, id, d) ==> exists b :: SucceededIn(t, t.attempts[id].runID, d, b)
  {
    forall id, d | id in ids && NeedsDep(t, id, d) ensures exists b :: SucceededIn(t, t.attempts[id].runID, d, b) {
      FrameNeeds(s, t, id, d);
      var b :| SucceededIn(s, s.attempts[id].runID, d, b);
      assert SameAttempt(s.attempts[id], t.attempts[id]) && SameAttempt(s.attempts[b], t.attempts[b]);
      assert SucceededIn(t, t.attempts[id].runID, d, b);
    }
  }

  lemma FrameNeeds(s: State, t: State, id: string, d: string)
    requires GoodAttempts(s) && Extends(s, t) && id in s.attempts && NeedsDep(t, id, d)
    ensures NeedsDep(s, id, d)
  {
    var a, b := s.attempts[id], t.attempts[id];
    assert SameAttempt(a, b);
    FramePlan(s, t, a);
    assert SpecOf(t, b) == SpecOf(t, a);
  }

  lemma IssuedMore(prefix: string, counter: nat, more: nat, id: string)
    requires Issued(prefix, counter, id) && counter <= more
    ensures Issued(prefix, more, id)
  {
    var n: nat :| 1 <= n <= counter && id == FormatID(prefix, n);
    assert 1 <= n <= more;
  }

  lemma FrameIds(s: State, t: State)
    requires GoodIds(s) && t.attempts.Keys == s.attempts.Keys && t.runs.Keys == s.runs.Keys
    requires Counter(s, ATTEMPT) <= Counter(t, ATTEMPT) && Counter(s, RUN) <= Counter(t, RUN)
    ensures GoodIds(t)
  {
    forall id | id in t.attempts ensures Issued(ATTEMPT, Counter(t, ATTEMPT), id) {
      IssuedMore(ATTEMPT, Counter(s, ATTEMPT), Counter(t, ATTEMPT), id);
    }
    forall id | id in t.runs ensures Issued(RUN, Counter(t, RUN), id) {
      IssuedMore(RUN, Counter(s, RUN), Counter(t, RUN), id);
    }
  }

  lemma FramePlans(s: State, t: State)
    requires GoodPlans(s) && Extends(s, t) && t.plans == s.plans
    ensures GoodPlans(t)
  {
  }

  lemma NextIDIsNew(prefix: string, counter: nat, ids: set<string>)
    requires forall id :: id in ids ==> Issued(prefix, counter, id)
    ensures FormatID(prefix, counter + 1) !in ids
  {
    if FormatID(prefix, counter + 1) in ids {
      var n: nat :| 1 <= n <= counter && FormatID(prefix, counter + 1) == FormatID(prefix, n);
      IdsAreInjective(prefix, n, counter + 1);
    }
  }
}
