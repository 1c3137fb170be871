/** Two issues whose stages need one lock, followed from the empty state until the second has taken it over from the first. */
module Stealing {
  import opened Ids
  import opened Model
  import opened Plan
  import opened Protocol
  import opened Invariants
  import opened Reach

  const ONE := "one"
  const TWO := "two"
  const WORKER := "worker"
  const BUILD := "build"
  const CHECK := "check"
  const R1 := FormatID(RUN, 1)
  const R2 := FormatID(RUN, 2)
  const A1 := FormatID(ATTEMPT, 1)
  const A2 := FormatID(ATTEMPT, 2)

  /** A stage that controls the application's repository while it runs. */
  function Needing(stage: string): StageSpec {
    StageSpec(stage, [], "", "", "", [], [], "", "", false, 1, [COMPONENTS])
  }

  function PlanOf(stage: string): ExecutionPlan {
    ExecutionPlan("", [StageFor(Needing(stage))])
  }

  const TARGET := DeliveryTarget("shop", NO_ENVIRONMENT, NO_ENVIRONMENT, NO_ENVIRONMENT, "", "")
  const KEY := "apprepo:" + TARGET.repoScope

  const FRESH := Issue({LABEL_REQUESTED}, false, TARGET)
  const LISTED := map[ONE := FRESH, TWO := FRESH]

  lemma PlanIs(stage: string)
    requires stage != ""
    ensures SpecsOf(PlanOf(stage).stages) == [Needing(stage)] && UniqueNames(SpecsOf(PlanOf(stage).stages)) && Simple(Needing(stage))
    ensures KeysForStage(TARGET, Needing(stage)) == [KEY]
  {
    var surfaces := Needing(stage).repoControl;
    assert |QUEUE_MODE_TRIGGERED| > 0 && |TARGET.repoScope| > 0;
    assert surfaces[..0] == [];
    assert KeysForSurfaces(TARGET, Needing(stage).Environment(), surfaces[..0]) == [];
    assert COMPONENTS[0] == 'c' && GITOPS[0] == 'g' && JOURNAL[0] == 'j';
  }

  lemma AllDiffer()
    ensures ONE != TWO && BUILD != CHECK && R1 != R2 && A1 != A2 && RUN != ATTEMPT && BUILD != "" && CHECK != ""
  {
    assert ONE[0] == 'o' && TWO[0] == 't' && BUILD[0] == 'b' && CHECK[0] == 'c';
    if R1 == R2 { IdsAreInjective(RUN, 1, 2); }
    if A1 == A2 { IdsAreInjective(ATTEMPT, 1, 2); }
  }

  // ---- The states on the way ----

  function Runs(first: string, second: string): map<string, Run> {
    map[R1 := Run(R1, ONE, TARGET, first, 0), R2 := Run(R2, TWO, TARGET, second, 0)]
  }

  const PLANS := map[R1 := PlanOf(BUILD), R2 := PlanOf(CHECK)]

  const ACTIVE := FRESH.(labels := Relabel(FRESH.labels, RUN_ACTIVE))

  function Waiting(id: string, runID: string, stage: string): StageAttempt {
    StageAttempt(id, runID, stage, 1, Pending, "", None, [])
  }

  function Working(id: string, runID: string, stage: string, until: int): StageAttempt {
    StageAttempt(id, runID, stage, 1, Running, WORKER, Some(until), [KEY])
  }

  const PLANNED := State(LISTED, Runs(RUN_PENDING, RUN_PENDING), map[], map[RUN := 2], PLANS, map[], 0)

  const FIRST_QUEUED := State(map[ONE := ACTIVE, TWO := FRESH], Runs(RUN_ACTIVE, RUN_PENDING), map[A1 := Waiting(A1, R1, BUILD)],
                              map[RUN := 2, ATTEMPT := 1], PLANS, map[], 0)

  /** Both attempts are there; what they are doing, who has the lock and what time it is. */
  function Both(first: StageAttempt, second: StageAttempt, locks: map<string, LockRow>, now: int): State {
    State(map[ONE := ACTIVE, TWO := ACTIVE], Runs(RUN_ACTIVE, RUN_ACTIVE), map[A1 := first, A2 := second],
          map[RUN := 2, ATTEMPT := 2], PLANS, locks, now)
  }

  const QUEUED := Both(Waiting(A1, R1, BUILD), Waiting(A2, R2, CHECK), map[], 0)
  const CLAIMED := Both(Working(A1, R1, BUILD, 10), Waiting(A2, R2, CHECK), map[KEY := LockRow(A1, 10)], 0)
  const EXPIRED := CLAIMED.(now := 20)

  /** The first attempt's lease has ended, and its lock went to the second. */
  const STOLEN := Both(Working(A1, R1, BUILD, 10), Working(A2, R2, CHECK, 100), map[KEY := LockRow(A2, 100)], 20)

  /** The first attempt's heartbeat has come after all. */
  const REVIVED := Both(Working(A1, R1, BUILD, 80), Working(A2, R2, CHECK, 100), map[KEY := LockRow(A2, 100)], 20)

  // ---- The steps ----

  const NO_RUN := INITIAL.(issues := LISTED)
  const ONE_RUN := NO_RUN.(runs := map[R1 := Run(R1, ONE, TARGET, RUN_PENDING, 0)], counters := map[RUN := 1])
  const TWO_RUNS := NO_RUN.(runs := Runs(RUN_PENDING, RUN_PENDING), counters := map[RUN := 2])

  lemma Enqueued()
    ensures Step(INITIAL, NO_RUN, Enqueue(LISTED))
  {
    assert INITIAL.issues + LISTED == LISTED;
  }

  lemma OneRun()
    ensures Step(NO_RUN, ONE_RUN, EnsureRun(ONE, Ok(NewRun(NO_RUN, ONE))))
  {
    AllDiffer();
    FirstRun(NO_RUN, ONE);
    assert WithRun(NO_RUN, ONE) == ONE_RUN;
  }

  lemma TwoRuns()
    ensures TWO in ONE_RUN.issues && Step(ONE_RUN, TWO_RUNS, EnsureRun(TWO, Ok(NewRun(ONE_RUN, TWO))))
  {
    AllDiffer();
    FirstRun(ONE_RUN, TWO);
    assert WithRun(ONE_RUN, TWO) == TWO_RUNS;
  }

  lemma RunsCreated()
    ensures Reaches(TWO_RUNS)
  {
    ReachesStart();
    Enqueued();
    ReachesNext(INITIAL, NO_RUN, Enqueue(LISTED));
    OneRun();
    ReachesNext(NO_RUN, ONE_RUN, EnsureRun(ONE, Ok(NewRun(NO_RUN, ONE))));
    TwoRuns();
    ReachesNext(ONE_RUN, TWO_RUNS, EnsureRun(TWO, Ok(NewRun(ONE_RUN, TWO))));
  }

  lemma PlansWritten()
    ensures Reaches(PLANNED)
  {
    AllDiffer();
    PlanIs(BUILD);
    PlanIs(CHECK);
    RunsCreated();
    var t := TWO_RUNS.(plans := map[R1 := PlanOf(BUILD)]);
    ReachesNext(TWO_RUNS, t, Materialize(R1, PlanOf(BUILD)));
    ReachesNext(t, PLANNED, Materialize(R2, PlanOf(CHECK)));
  }

  lemma FirstQueues()
    ensures Step(PLANNED, FIRST_QUEUED, Reconcile(ONE))
  {
    AllDiffer();
    PlanIs(BUILD);
    QueueOnlyStage(PLANNED, ONE, PLANNED.runs[R1], Needing(BUILD));
    FirstQueued();
  }

  lemma FirstQueued()
    ensures R1 in PLANNED.runs && WithQueued(PLANNED, ONE, PLANNED.runs[R1], BUILD) == FIRST_QUEUED
  {
    FirstAttempt();
    FirstRunActive();
    FirstIssueActive();
  }

  lemma FirstRunActive()
    ensures Runs(RUN_PENDING, RUN_PENDING)[R1 := Run(R1, ONE, TARGET, RUN_ACTIVE, 0)] == Runs(RUN_ACTIVE, RUN_PENDING)
    ensures R1 in Runs(RUN_PENDING, RUN_PENDING) && Runs(RUN_PENDING, RUN_PENDING)[R1] == Run(R1, ONE, TARGET, RUN_PENDING, 0)
  {
    if R1 == R2 { IdsAreInjective(RUN, 1, 2); }
  }

  lemma FirstIssueActive()
    ensures ONE in LISTED && LISTED[ONE] == FRESH && LISTED[ONE := ACTIVE] == map[ONE := ACTIVE, TWO := FRESH]
  {
    assert ONE[0] == 'o' && TWO[0] == 't';
  }

  lemma FirstAttempt()
    ensures QueueOne(PLANNED, R1, BUILD)
         == PLANNED.(attempts := map[A1 := Waiting(A1, R1, BUILD)], counters := map[RUN := 2, ATTEMPT := 1])
  {
    assert RUN != ATTEMPT;
  }

  lemma SecondQueues()
    ensures Step(FIRST_QUEUED, QUEUED, Reconcile(TWO))
  {
    AllDiffer();
    PlanIs(CHECK);
    QueueOnlyStage(FIRST_QUEUED, TWO, FIRST_QUEUED.runs[R2], Needing(CHECK));
    SecondQueued();
  }

  lemma SecondQueued()
    ensures R2 in FIRST_QUEUED.runs && WithQueued(FIRST_QUEUED, TWO, FIRST_QUEUED.runs[R2], CHECK) == QUEUED
  {
    AllDiffer();
    SecondAttempt();
  }

  lemma SecondAttempt()
    ensures QueueOne(FIRST_QUEUED, R2, CHECK)
         == FIRST_QUEUED.(attempts := map[A1 := Waiting(A1, R1, BUILD), A2 := Waiting(A2, R2, CHECK)], counters := map[RUN := 2, ATTEMPT := 2])
  {
    AllDiffer();
  }

  lemma KeysAre(first: StageAttempt, second: StageAttempt, locks: map<string, LockRow>, now: int)
    requires first.runID == R1 && first.stage == BUILD && second.runID == R2 && second.stage == CHECK
    ensures var s := Both(first, second, locks, now);
      HasPlan(s, first) && Keys(s, first) == [KEY] && HasPlan(s, second) && Keys(s, second) == [KEY]
  {
    AllDiffer();
    PlanIs(BUILD);
    PlanIs(CHECK);
    SpecMapUnique([Needing(BUILD)], 0);
    SpecMapUnique([Needing(CHECK)], 0);
  }

  lemma OnlyOneEligible(first: StageAttempt, second: StageAttempt, locks: map<string, LockRow>, now: int, issueID: string, id: string)
    requires first.runID == R1 && second.runID == R2
    requires (issueID == ONE && id == A1 && first.status == Pending) || (issueID == TWO && id == A2 && second.status == Pending)
    ensures forall other :: Eligible(Both(first, second, locks, now), other, [], issueID) <==> other == id
  {
    AllDiffer();
    assert RUN_ACTIVE[0] == 'a' && RUN_FAILED[0] == 'f' && RUN_COMPLETED[0] == 'c';
  }

  /** One of the two claims while the other is not eligible for the issue, and takes the lock if it is free or has expired. */
  lemma Claims(first: StageAttempt, second: StageAttempt, locks: map<string, LockRow>, now: int, issueID: string, id: string, lease: int)
    requires first.runID == R1 && first.stage == BUILD && second.runID == R2 && second.stage == CHECK
    requires (issueID == ONE && id == A1 && first.status == Pending) || (issueID == TWO && id == A2 && second.status == Pending)
    requires KEY in locks ==> locks[KEY].expiresAt < now
    ensures var s := Both(first, second, locks, now);
      && id in s.attempts && HasPlan(s, s.attempts[id])
      && Step(s, WithClaim(s, id, WORKER, lease), Claim(WORKER, lease, [], issueID, Attempt(id)))
  {
    AllDiffer();
    KeysAre(first, second, locks, now);
    OnlyOneEligible(first, second, locks, now, issueID, id);
    ClaimOnlyOne(Both(first, second, locks, now), id, WORKER, lease, issueID);
  }

  lemma OneLock(key: string, row: LockRow, locks: map<string, LockRow>)
    ensures locks + (map k | k in [key] :: row) == locks[key := row]
  {
  }

  /** What a claim of the lock makes of the state. */
  lemma ClaimGives(s: State, id: string, lease: int)
    requires id in s.attempts
    ensures WithClaimOf(s, id, WORKER, lease, [KEY])
         == s.(attempts := s.attempts[id := Claimant(s.attempts[id], WORKER, s.now + lease, KEY)],
               locks := s.locks[KEY := LockRow(id, s.now + lease)])
  {
    OneLock(KEY, LockRow(id, s.now + lease), s.locks);
  }

  function Claimant(a: StageAttempt, workerID: string, until: int, key: string): StageAttempt {
    a.(status := Running, workerID := workerID, leaseExpiresAt := Some(until), lockKeys := [key])
  }

  lemma FirstTakes(first: StageAttempt, second: StageAttempt, locks: map<string, LockRow>, now: int, until: int)
    requires A1 != A2
    ensures var s := Both(first, second, locks, now);
      s.(attempts := s.attempts[A1 := Claimant(first, WORKER, until, KEY)], locks := s.locks[KEY := LockRow(A1, until)])
      == Both(Claimant(first, WORKER, until, KEY), second, locks[KEY := LockRow(A1, until)], now)
  {
  }

  lemma SecondTakes(first: StageAttempt, second: StageAttempt, locks: map<string, LockRow>, now: int, until: int)
    requires A1 != A2
    ensures var s := Both(first, second, locks, now);
      s.(attempts := s.attempts[A2 := Claimant(second, WORKER, until, KEY)], locks := s.locks[KEY := LockRow(A2, until)])
      == Both(first, Claimant(second, WORKER, until, KEY), locks[KEY := LockRow(A2, until)], now)
  {
  }

  lemma FirstClaims()
    ensures Step(QUEUED, CLAIMED, Claim(WORKER, 10, [], ONE, Attempt(A1)))
  {
    FirstClaimStep(Waiting(A1, R1, BUILD), Waiting(A2, R2, CHECK), map[], 0, 10);
    ClaimedIs();
  }

  lemma ClaimedIs()
    ensures CLAIMED == Both(Claimant(Waiting(A1, R1, BUILD), WORKER, 0 + 10, KEY), Waiting(A2, R2, CHECK), map[][KEY := LockRow(A1, 0 + 10)], 0)
  {
  }

  lemma FirstClaimStep(first: StageAttempt, second: StageAttempt, locks: map<string, LockRow>, now: int, lease: int)
    requires first.runID == R1 && first.stage == BUILD && second.runID == R2 && second.stage == CHECK && first.status == Pending
    requires KEY in locks ==> locks[KEY].expiresAt < now
    ensures Step(Both(first, second, locks, now),
                 Both(Claimant(first, WORKER, now + lease, KEY), second, locks[KEY := LockRow(A1, now + lease)], now),
                 Claim(WORKER, lease, [], ONE, Attempt(A1)))
  {
    Claims(first, second, locks, now, ONE, A1, lease);
    FirstClaimGives(first, second, locks, now, lease);
  }

  lemma FirstClaimGives(first: StageAttempt, second: StageAttempt, locks: map<string, LockRow>, now: int, lease: int)
    requires first.runID == R1 && first.stage == BUILD && second.runID == R2 && second.stage == CHECK
    ensures var s := Both(first, second, locks, now);
      && A1 in s.attempts && HasPlan(s, s.attempts[A1])
      && WithClaim(s, A1, WORKER, lease)
         == Both(Claimant(first, WORKER, now + lease, KEY), second, locks[KEY := LockRow(A1, now + lease)], now)
  {
    if A1 == A2 { IdsAreInjective(ATTEMPT, 1, 2); }
    KeysAre(first, second, locks, now);
    ClaimGives(Both(first, second, locks, now), A1, lease);
    FirstTakes(first, second, locks, now, now + lease);
  }

  lemma SecondClaimStep(first: StageAttempt, second: StageAttempt, locks: map<string, LockRow>, now: int, lease: int)
    requires first.runID == R1 && first.stage == BUILD && second.runID == R2 && second.stage == CHECK && second.status == Pending
    requires KEY in locks ==> locks[KEY].expiresAt < now
    ensures Step(Both(first, second, locks, now),
                 Both(first, Claimant(second, WORKER, now + lease, KEY), locks[KEY := LockRow(A2, now + lease)], now),
                 Claim(WORKER, lease, [], TWO, Attempt(A2)))
  {
    Claims(first, second, locks, now, TWO, A2, lease);
    SecondClaimGives(first, second, locks, now, lease);
  }

  lemma SecondClaims()
    ensures Step(EXPIRED, STOLEN, Claim(WORKER, 80, [], TWO, Attempt(A2)))
  {
    SecondClaimStep(Working(A1, R1, BUILD, 10), Waiting(A2, R2, CHECK), map[KEY := LockRow(A1, 10)], 20, 80);
    StolenIs();
  }

  lemma StolenIs()
    ensures EXPIRED == Both(Working(A1, R1, BUILD, 10), Waiting(A2, R2, CHECK), map[KEY := LockRow(A1, 10)], 20)
    ensures STOLEN == Both(Working(A1, R1, BUILD, 10), Claimant(Waiting(A2, R2, CHECK), WORKER, 20 + 80, KEY),
                           map[KEY := LockRow(A1, 10)][KEY := LockRow(A2, 20 + 80)], 20)
  {
    assert map[KEY := LockRow(A1, 10)][KEY := LockRow(A2, 20 + 80)] == map[KEY := LockRow(A2, 100)];
  }

  lemma SecondClaimGives(first: StageAttempt, second: StageAttempt, locks: map<string, LockRow>, now: int, lease: int)
    requires first.runID == R1 && first.stage == BUILD && second.runID == R2 && second.stage == CHECK
    ensures var s := Both(first, second, locks, now);
      && A2 in s.attempts && HasPlan(s, s.attempts[A2])
      && WithClaim(s, A2, WORKER, lease)
         == Both(first, Claimant(second, WORKER, now + lease, KEY), locks[KEY := LockRow(A2, now + lease)], now)
  {
    if A1 == A2 { IdsAreInjective(ATTEMPT, 1, 2); }
    KeysAre(first, second, locks, now);
    ClaimGives(Both(first, second, locks, now), A2, lease);
    SecondTakes(first, second, locks, now, now + lease);
  }

  lemma StolenReached()
    ensures Reaches(STOLEN)
  {
    PlansWritten();
    FirstQueues();
    ReachesNext(PLANNED, FIRST_QUEUED, Reconcile(ONE));
    SecondQueues();
    ReachesNext(FIRST_QUEUED, QUEUED, Reconcile(TWO));
    FirstClaims();
    ReachesNext(QUEUED, CLAIMED, Claim(WORKER, 10, [], ONE, Attempt(A1)));
    ReachesNext(CLAIMED, EXPIRED, Tick);
    SecondClaims();
    ReachesNext(EXPIRED, STOLEN, Claim(WORKER, 80, [], TWO, Attempt(A2)));
  }

  /**
   From a state that trusted callers reach, a heartbeat that comes too late is accepted, and
   then two live attempts need one lock, which belongs to one of them.
   */
  lemma LateHeartbeatBreaksExclusion()
    ensures Reaches(STOLEN) && Invariant(STOLEN) && Does(STOLEN, REVIVED, Heartbeat(A1, 60, 20)) && CanBe(REVIVED)
    ensures A1 != A2 && Live(REVIVED, A1) && Live(REVIVED, A2)
    ensures HasPlan(REVIVED, REVIVED.attempts[A1]) && HasPlan(REVIVED, REVIVED.attempts[A2])
    ensures KEY in Keys(REVIVED, REVIVED.attempts[A1]) && KEY in Keys(REVIVED, REVIVED.attempts[A2])
  {
    StolenReached();
    ReachesCanBe(STOLEN);
    Revived();
    CanBeNext(STOLEN, REVIVED, Heartbeat(A1, 60, 20));
    BothLive();
    KeysAre(Working(A1, R1, BUILD, 80), Working(A2, R2, CHECK, 100), map[KEY := LockRow(A2, 100)], 20);
  }

  lemma BothLive()
    ensures A1 != A2 && Live(REVIVED, A1) && Live(REVIVED, A2)
    ensures REVIVED.attempts[A1] == Working(A1, R1, BUILD, 80) && REVIVED.attempts[A2] == Working(A2, R2, CHECK, 100)
  {
    if A1 == A2 { IdsAreInjective(ATTEMPT, 1, 2); }
  }

  lemma Revived()
    ensures Does(STOLEN, REVIVED, Heartbeat(A1, 60, 20))
  {
    NotTheFirst();
    HeartbeatOfFirst(Working(A1, R1, BUILD, 10), Working(A2, R2, CHECK, 100), map[KEY := LockRow(A2, 100)], 20, 60);
  }

  lemma NotTheFirst()
    ensures A1 != A2 && forall k :: k in map[KEY := LockRow(A2, 100)] ==> map[KEY := LockRow(A2, 100)][k].owner != A1
  {
    if A1 == A2 { IdsAreInjective(ATTEMPT, 1, 2); }
  }

  lemma HeartbeatOfFirst(first: StageAttempt, second: StageAttempt, locks: map<string, LockRow>, now: int, lease: int)
    requires A1 != A2 && forall k :: k in locks ==> locks[k].owner != A1
    ensures Does(Both(first, second, locks, now), Both(first.(leaseExpiresAt := Some(now + lease)), second, locks, now), Heartbeat(A1, lease, now))
  {
    var s, renewed := Both(first, second, locks, now), first.(leaseExpiresAt := Some(now + lease));
    ReplaceFirst(first, second, renewed);
    assert HeartbeatAt(s, s.(attempts := map[A1 := renewed, A2 := second]), A1, lease, now);
  }

  lemma ReplaceFirst(first: StageAttempt, second: StageAttempt, other: StageAttempt)
    requires A1 != A2
    ensures map[A1 := first, A2 := second][A1 := other] == map[A1 := other, A2 := second]
  {
  }
}
