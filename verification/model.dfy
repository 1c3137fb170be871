/** The entities of `internal/model/types.go`, reduced to the fields the control plane decides by. */
module Model {
  import opened Text

  const QUEUE_MODE_TRIGGERED := "triggered"

  const RUN_PENDING := "pending"
  const RUN_ACTIVE := "active"
  const RUN_AWAITING_APPROVAL := "awaiting_approval"
  const RUN_COMPLETED := "completed"
  const RUN_FAILED := "failed"

  const APP_AUTO_ROLLBACK := "app_auto_rollback"

  datatype Option<+T> = None | Some(value: T)
  datatype Result<+T> = Ok(value: T) | Err(error: string)

  datatype AttemptStatus = Pending | Running | Succeeded | Failed | Blocked

  datatype StageSpec = StageSpec(
    name: string,
    dependencies: seq<string>,
    queueMode: string,
    environment: string,
    checkpointStatus: string,
    triggerOnSuccess: seq<string>,
    triggerOnFailure: seq<string>,
    rollbackStage: string,
    rollbackPolicy: string,
    approvalRequired: bool,
    maxParallelism: int,
    repoControl: seq<string>
  ) {
    predicate AutoQueue() { queueMode != QUEUE_MODE_TRIGGERED }
    function Environment(): string { TrimSpace(environment) }
    predicate ApprovalCheckpoint() { TrimSpace(checkpointStatus) == RUN_AWAITING_APPROVAL }
    predicate CompletionCheckpoint() { TrimSpace(checkpointStatus) == RUN_COMPLETED }
    predicate FailureCheckpoint() { TrimSpace(checkpointStatus) == RUN_FAILED }
  }

  datatype StageAttempt = StageAttempt(
    id: string,
    runID: string,
    stage: string,
    attempt: int,
    status: AttemptStatus,
    workerID: string,
    leaseExpiresAt: Option<int>,
    lockKeys: seq<string>
  )

  datatype GitOpsTarget = GitOpsTarget(projectPath: string, environment: string, path: string)

  datatype EnvironmentTarget = EnvironmentTarget(gitOpsRepo: GitOpsTarget, appAutoRollback: bool)

  const NO_ENVIRONMENT := EnvironmentTarget(GitOpsTarget("", "", ""), false)

  datatype DeliveryTarget = DeliveryTarget(
    repoScope: string,
    local: EnvironmentTarget,
    dev: EnvironmentTarget,
    prod: EnvironmentTarget,
    journalProject: string,
    journalPath: string
  ) {
    function Environment(name: string): EnvironmentTarget {
      if name == "local" then local
      else if name == "dev" then dev
      else if name == "prod" then prod
      else NO_ENVIRONMENT
    }
  }

  /** `config.SpecMap` and `pipeline.PlanSpecsMap`: a later spec of the same name wins. */
  function SpecMap(specs: seq<StageSpec>): map<string, StageSpec> {
    if |specs| == 0 then map[]
    else SpecMap(specs[..|specs| - 1])[specs[|specs| - 1].name := specs[|specs| - 1]]
  }

  predicate UniqueNames(specs: seq<StageSpec>) {
    forall i, j :: 0 <= i < j < |specs| ==> specs[i].name != specs[j].name
  }

  function NamesOf(specs: seq<StageSpec>): seq<string> {
    seq(|specs|, i requires 0 <= i < |specs| => specs[i].name)
  }

  lemma {:induction false} SpecMapKeys(specs: seq<StageSpec>)
    ensures forall n :: n in SpecMap(specs) <==> exists i :: 0 <= i < |specs| && specs[i].name == n
    ensures forall n :: n in SpecMap(specs) ==> SpecMap(specs)[n].name == n && SpecMap(specs)[n] in specs
  {
    if |specs| > 0 {
      var front := specs[..|specs| - 1];
      SpecMapKeys(front);
      forall n ensures n in SpecMap(specs) <==> exists i :: 0 <= i < |specs| && specs[i].name == n {
        if n in SpecMap(front) {
          var i :| 0 <= i < |front| && front[i].name == n;
          assert specs[i].name == n;
        }
        if i :| 0 <= i < |specs| && specs[i].name == n {
          if i < |front| { assert front[i].name == n; }
        }
      }
    }
  }

  /** Of several specs of one name the last is the one that is found. */
  lemma {:induction false} SpecMapLast(specs: seq<StageSpec>, i: nat)
    requires i < |specs| && forall j :: i < j < |specs| ==> specs[j].name != specs[i].name
    ensures specs[i].name in SpecMap(specs) && SpecMap(specs)[specs[i].name] == specs[i]
  {
    if i < |specs| - 1 { SpecMapLast(specs[..|specs| - 1], i); }
  }

  lemma SpecMapHas(specs: seq<StageSpec>, i: nat)
    requires i < |specs|
    ensures specs[i].name in SpecMap(specs)
  {
    SpecMapKeys(specs);
  }

  lemma {:induction false} SpecMapUnique(specs: seq<StageSpec>, k: nat)
    requires UniqueNames(specs) && k < |specs|
    ensures specs[k].name in SpecMap(specs) && SpecMap(specs)[specs[k].name] == specs[k]
  {
    if k < |specs| - 1 {
      var front := specs[..|specs| - 1];
      assert front[k] == specs[k];
      SpecMapUnique(front, k);
    }
  }
}
