/** `internal/pipeline/plan.go`: materializing an execution plan and reading the specs back from it. */
module Plan {
  import opened Text
  import opened Model
  import opened StageGraph

  datatype PlanStage = PlanStage(
    name: string,
    spec: StageSpec,
    dependencies: seq<string>,
    environment: string,
    queueMode: string,
    checkpoint: string,
    repoControl: seq<string>
  )

  datatype ExecutionPlan = ExecutionPlan(checkpoint: string, stages: seq<PlanStage>)

  /** `stageToSpec`: the embedded spec when it is named, otherwise what the stage itself still tells. */
  function StageToSpec(stage: PlanStage): StageSpec {
    if stage.spec.name != "" then stage.spec
    else StageSpec(stage.name, stage.dependencies, stage.queueMode, stage.environment, stage.checkpoint,
                   [], [], "", "", false, 0, stage.repoControl)
  }

  function SpecsOf(stages: seq<PlanStage>): seq<StageSpec> {
    seq(|stages|, i requires 0 <= i < |stages| => StageToSpec(stages[i]))
  }

  /** `PlanSpecs`; no plan has no specs. */
  method PlanSpecs(plan: Option<ExecutionPlan>) returns (specs: seq<StageSpec>)
    ensures specs == SpecsOf(if plan.Some? then plan.value.stages else [])
  {
    specs := [];
    if plan.Some? {
      for i := 0 to |plan.value.stages|
        invariant specs == SpecsOf(plan.value.stages[..i])
      {
        specs := specs + [StageToSpec(plan.value.stages[i])];
      }
      assert plan.value.stages[..|plan.value.stages|] == plan.value.stages;
    }
  }

  /** `PlanSpecsMap`. */
  method PlanSpecsMap(plan: Option<ExecutionPlan>) returns (m: map<string, StageSpec>)
    ensures m == SpecMap(SpecsOf(if plan.Some? then plan.value.stages else []))
  {
    var specs := PlanSpecs(plan);
    m := map[];
    for i := 0 to |specs|
      invariant m == SpecMap(specs[..i])
    {
      assert specs[..i + 1][..i] == specs[..i];
      m := m[specs[i].name := specs[i]];
    }
    assert specs[..|specs|] == specs;
  }

  function StageFor(spec: StageSpec): PlanStage {
    PlanStage(spec.name, spec, spec.dependencies, spec.Environment(), spec.queueMode, spec.checkpointStatus, spec.repoControl)
  }

  /** The first checkpoint along the order, or none. */
  function FirstCheckpoint(ordered: seq<StageSpec>): string {
    if |ordered| == 0 then ""
    else
      var earlier := FirstCheckpoint(ordered[..|ordered| - 1]);
      if earlier != "" then earlier else TrimSpace(ordered[|ordered| - 1].checkpointStatus)
  }

  ghost predicate HasCheckpoint(ordered: seq<StageSpec>, i: nat) {
    i < |ordered| && TrimSpace(ordered[i].checkpointStatus) != ""
  }

  /** The plan's checkpoint is that of the first stage with one that is not blank; it is empty exactly if there is none. */
  lemma {:induction false} PlanCheckpoint(ordered: seq<StageSpec>)
    ensures FirstCheckpoint(ordered) == "" ==> forall k: nat :: !HasCheckpoint(ordered, k)
    ensures FirstCheckpoint(ordered) != "" ==> exists i: nat :: FirstToHave(ordered, i) && FirstCheckpoint(ordered) == TrimSpace(ordered[i].checkpointStatus)
  {
    if |ordered| > 0 {
      var front := ordered[..|ordered| - 1];
      PlanCheckpoint(front);
      forall k: nat | k < |front| ensures HasCheckpoint(front, k) <==> HasCheckpoint(ordered, k) { }
      if FirstCheckpoint(front) != "" {
        var i: nat :| FirstToHave(front, i) && FirstCheckpoint(front) == TrimSpace(front[i].checkpointStatus);
        assert FirstToHave(ordered, i);
      } else if HasCheckpoint(ordered, |front|) {
        assert FirstToHave(ordered, |front|);
      }
    }
  }

  ghost predicate FirstToHave(ordered: seq<StageSpec>, i: nat) {
    HasCheckpoint(ordered, i) && forall k: nat :: k < i ==> !HasCheckpoint(ordered, k)
  }

  function StagesFor(ordered: seq<StageSpec>): seq<PlanStage> {
    seq(|ordered|, i requires 0 <= i < |ordered| => StageFor(ordered[i]))
  }

  /** The loop of `BuildExecutionPlan`. */
  method Materialize(ordered: seq<StageSpec>, images: set<string>) returns (r: Result<ExecutionPlan>)
    ensures r.Ok? <==> forall i :: 0 <= i < |ordered| ==> ordered[i].name in images
    ensures r.Ok? ==> r.value == ExecutionPlan(FirstCheckpoint(ordered), StagesFor(ordered))
  {
    var stages: seq<PlanStage>, checkpoint := [], "";
    for k := 0 to |ordered|
      invariant stages == StagesFor(ordered[..k]) && checkpoint == FirstCheckpoint(ordered[..k])
      invariant forall i :: 0 <= i < k ==> ordered[i].name in images
    {
      var spec := ordered[k];
      if spec.name !in images {
        return Err("pipeline execution plan missing runtime image for stage " + spec.name);
      }
      assert ordered[..k + 1][..k] == ordered[..k];
      if checkpoint == "" && TrimSpace(spec.checkpointStatus) != "" {
        checkpoint := TrimSpace(spec.checkpointStatus);
      }
      stages := stages + [StageFor(spec)];
    }
    assert ordered[..|ordered|] == ordered;
    r := Ok(ExecutionPlan(checkpoint, stages));
  }

  /** `BuildExecutionPlan`; `images` are the stages that have a runtime image. */
  method BuildExecutionPlan(specs: seq<StageSpec>, images: set<string>) returns (r: Result<ExecutionPlan>)
    ensures |specs| == 0 ==> r.Err?
    ensures UniqueNames(specs) && |specs| > 0 ==> (r.Ok? <==> forall s :: s in specs ==> s.name in images)
    ensures UniqueNames(specs) && r.Ok? ==>
      r.value == ExecutionPlan(FirstCheckpoint(Ordered(specs)), StagesFor(Ordered(specs)))
  {
    if |specs| == 0 {
      return Err("pipeline execution plan requires at least one stage spec");
    }
    var ordered := SpecsInOrder(specs);
    r := Materialize(ordered, images);
    if UniqueNames(specs) { AllHaveImages(specs, images); }
  }

  lemma AllHaveImages(specs: seq<StageSpec>, images: set<string>)
    requires UniqueNames(specs)
    ensures (forall i :: 0 <= i < |Ordered(specs)| ==> Ordered(specs)[i].name in images)
       <==> (forall s :: s in specs ==> s.name in images)
  {
    OrderedMembers(specs);
  }

  /** The fields a stage without an embedded spec cannot give back are the ones that must be unset. */
  predicate Rebuildable(spec: StageSpec) {
    && spec.Environment() == spec.environment
    && spec.triggerOnSuccess == [] && spec.triggerOnFailure == []
    && spec.rollbackStage == "" && spec.rollbackPolicy == ""
    && !spec.approvalRequired && spec.maxParallelism == 0
  }

  /** Reading the specs back from a plan built from `specs` gives the ordered specs exactly when no unnamed spec loses a field. */
  lemma PlanRoundTrip(specs: seq<StageSpec>)
    requires UniqueNames(specs)
    ensures SpecsOf(StagesFor(Ordered(specs))) == Ordered(specs)
       <==> forall s :: s in specs ==> s.name != "" || Rebuildable(s)
  {
    OrderedMembers(specs);
    var o := Ordered(specs);
    var back := SpecsOf(StagesFor(o));
    if forall s :: s in specs ==> s.name != "" || Rebuildable(s) {
      forall i | 0 <= i < |o| ensures back[i] == o[i] {
        assert o[i] in specs;
      }
    } else {
      var s :| s in specs && !(s.name != "" || Rebuildable(s));
      var i :| 0 <= i < |o| && o[i] == s;
      assert back[i] != o[i];
    }
  }

  /** So with named stages the order computed again from the plan is the order the plan was built in. */
  lemma PlanKeepsOrder(specs: seq<StageSpec>)
    requires UniqueNames(specs) && forall s :: s in specs ==> s.name != ""
    ensures UniqueNames(SpecsOf(StagesFor(Ordered(specs))))
    ensures Ordered(SpecsOf(StagesFor(Ordered(specs)))) == Ordered(specs)
  {
    PlanRoundTrip(specs);
    OrderedNames(specs);
    OrderIdempotent(specs);
  }
}
