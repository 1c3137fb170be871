/** What an evaluation promises: progress, and that queueing what it offers leaves nothing of it to offer again. */
module Scheduling {
  import opened Kahn
  import opened Model
  import opened StageGraph
  import opened Plan
  import opened Execution

  lemma {:induction false} ReadyMembers(specs: seq<StageSpec>, byStage: ByStage, approved: bool, s: StageSpec)
    ensures s in ReadyOnes(specs, byStage, approved) <==> s in specs && IsReady(s, byStage, approved)
  {
    if |specs| > 0 {
      ReadyMembers(specs[..|specs| - 1], byStage, approved, s);
      assert specs == specs[..|specs| - 1] + [specs[|specs| - 1]];
    }
  }

  lemma {:induction false} TriggeredMembers(specs: seq<StageSpec>, target: DeliveryTarget, byStage: ByStage, s: StageSpec)
    ensures s in TriggeredOnes(specs, target, byStage) <==> s in specs && IsTriggered(s, target, byStage)
  {
    if |specs| > 0 {
      TriggeredMembers(specs[..|specs| - 1], target, byStage, s);
      assert specs == specs[..|specs| - 1] + [specs[|specs| - 1]];
    }
  }

  lemma {:induction false} ReadyUnique(specs: seq<StageSpec>, byStage: ByStage, approved: bool)
    requires UniqueNames(specs)
    ensures UniqueNames(ReadyOnes(specs, byStage, approved))
  {
    if |specs| > 0 {
      var front := specs[..|specs| - 1];
      ReadyUnique(front, byStage, approved);
      var r := ReadyOnes(front, byStage, approved);
      forall i | 0 <= i < |r| ensures r[i].name != specs[|specs| - 1].name {
        ReadyMembers(front, byStage, approved, r[i]);
      }
    }
  }

  lemma {:induction false} TriggeredUnique(specs: seq<StageSpec>, target: DeliveryTarget, byStage: ByStage)
    requires UniqueNames(specs)
    ensures UniqueNames(TriggeredOnes(specs, target, byStage))
  {
    if |specs| > 0 {
      var front := specs[..|specs| - 1];
      TriggeredUnique(front, target, byStage);
      var r := TriggeredOnes(front, target, byStage);
      forall i | 0 <= i < |r| ensures r[i].name != specs[|specs| - 1].name {
        TriggeredMembers(front, target, byStage, r[i]);
      }
    }
  }

  /** The specs an evaluation looks at, before a checkpoint stops it. */
  ghost function Looked(ordered: seq<StageSpec>, byStage: ByStage, approved: bool): seq<StageSpec> {
    ordered[..StopAt(ordered, byStage, approved)]
  }

  /** Only stages without an attempt are offered. */
  lemma OfferedWithoutAttempt(ordered: seq<StageSpec>, target: DeliveryTarget, m: ByStage, approved: bool, spec: StageSpec)
    requires var e := Evaluated(ordered, target, m, approved); spec in e.triggered || spec in e.runnable
    ensures spec.name !in m
  {
    ReadyMembers(Looked(ordered, m, approved), m, approved, spec);
    TriggeredMembers(Looked(ordered, m, approved), target, m, spec);
  }

  // ---- Progress ----

  /** The situation in which a plan must keep moving. */
  ghost predicate Flowing(specs: seq<StageSpec>, byStage: ByStage, approved: bool) {
    && UniqueNames(specs) && Acyclic(StagesGraph(specs))
    && (forall s :: s in specs ==> s.AutoQueue() && (s.approvalRequired ==> approved))
    && (forall s, d :: s in specs && d in s.dependencies ==> d in SpecMap(specs))
    && (forall s :: s in specs && s.name in byStage ==> byStage[s.name].status == Succeeded && !Stops(s, byStage, approved))
  }

  /** An acyclic automatic plan whose attempts all succeeded offers a stage as long as one is left. */
  lemma OffersUntilDone(specs: seq<StageSpec>, target: DeliveryTarget, byStage: ByStage, approved: bool)
    requires Flowing(specs, byStage, approved)
    ensures |Evaluated(Ordered(specs), target, byStage, approved).runnable| == 0
       <==> (forall s :: s in specs ==> s.name in byStage)
  {
    var runnable := Evaluated(Ordered(specs), target, byStage, approved).runnable;
    if s :| s in specs && s.name !in byStage {
      var t := FirstUnstarted(specs, byStage, approved);
      RunnableWhenFlowing(specs, target, byStage, approved, t);
    }
    if |runnable| > 0 {
      RunnableWhenFlowing(specs, target, byStage, approved, runnable[0]);
    }
  }

  lemma RunnableWhenFlowing(specs: seq<StageSpec>, target: DeliveryTarget, byStage: ByStage, approved: bool, s: StageSpec)
    requires Flowing(specs, byStage, approved)
    ensures s in Evaluated(Ordered(specs), target, byStage, approved).runnable <==> s in specs && IsReady(s, byStage, approved)
  {
    NothingStops(specs, byStage, approved);
    OrderedMembers(specs);
    ReadyMembers(Ordered(specs), byStage, approved, s);
  }

  lemma NothingStops(specs: seq<StageSpec>, byStage: ByStage, approved: bool)
    requires Flowing(specs, byStage, approved)
    ensures Looked(Ordered(specs), byStage, approved) == Ordered(specs)
  {
    var ordered := Ordered(specs);
    forall k | 0 <= k < |ordered| ensures !Stops(ordered[k], byStage, approved) {
      OrderedFromSpecs(specs, ordered[k]);
    }
    StopAtFirst(ordered, byStage, approved, |ordered|);
  }

  lemma FirstUnstarted(specs: seq<StageSpec>, byStage: ByStage, approved: bool) returns (s: StageSpec)
    requires Flowing(specs, byStage, approved)
    requires exists s :: s in specs && s.name !in byStage
    ensures s in specs && IsReady(s, byStage, approved)
  {
    var g := StagesGraph(specs);
    SpecMapKeys(specs);
    var left := set n | n in SpecMap(specs) && n !in byStage;
    var u :| u in specs && u.name !in byStage;
    var k :| 0 <= k < |specs| && specs[k] == u;
    SpecMapUnique(specs, k);
    assert u.name in left;
    var n := AcyclicHasMinimal(g, left);
    s := SpecMap(specs)[n];
    forall d | d in s.dependencies ensures HasStatus(byStage, d, Succeeded) {
      assert d in g[n];
      assert d !in left;
      assert SpecMap(specs)[d] in specs;
    }
  }

  /** Evaluating the plan built from named specs is evaluating the specs. */
  lemma PlanMeansSpecs(specs: seq<StageSpec>, target: DeliveryTarget, byStage: ByStage, approved: bool)
    requires UniqueNames(specs) && forall s :: s in specs ==> s.name != ""
    ensures Evaluated(Ordered(SpecsOf(StagesFor(Ordered(specs)))), target, byStage, approved)
         == Evaluated(Ordered(specs), target, byStage, approved)
  {
    PlanKeepsOrder(specs);
  }

  // ---- Queueing what was offered ----

  /** `after` adds pending attempts for exactly the stages `queued`. */
  ghost predicate Queues(byStage: ByStage, after: ByStage, queued: set<string>) {
    && queued !! byStage.Keys && after.Keys == byStage.Keys + queued
    && (forall n :: n in byStage ==> after[n] == byStage[n])
    && (forall n :: n in queued ==> after[n].status == Pending)
  }

  lemma QueueingKeepsStatuses(byStage: ByStage, after: ByStage, queued: set<string>, n: string, st: AttemptStatus)
    requires Queues(byStage, after, queued) && st != Pending
    ensures HasStatus(after, n, st) <==> HasStatus(byStage, n, st)
  {
  }

  lemma QueueingKeepsSpec(byStage: ByStage, after: ByStage, queued: set<string>, target: DeliveryTarget, approved: bool, s: StageSpec)
    requires Queues(byStage, after, queued)
    ensures Stops(s, after, approved) <==> Stops(s, byStage, approved)
    ensures IsReady(s, after, approved) <==> IsReady(s, byStage, approved) && s.name !in queued
    ensures IsTriggered(s, target, after) <==> IsTriggered(s, target, byStage) && s.name !in queued
  {
    forall n, st | st != Pending ensures HasStatus(after, n, st) <==> HasStatus(byStage, n, st) {
      QueueingKeepsStatuses(byStage, after, queued, n, st);
    }
  }

  /** After queueing, an evaluation looks at the same specs and offers what it offered before, minus what was queued. */
  lemma OfferedAfterQueueing(ordered: seq<StageSpec>, target: DeliveryTarget, byStage: ByStage, after: ByStage,
                             queued: set<string>, approved: bool, s: StageSpec)
    requires Queues(byStage, after, queued)
    ensures var before, then' := Evaluated(ordered, target, byStage, approved), Evaluated(ordered, target, after, approved);
      && (s in then'.runnable <==> s in before.runnable && s.name !in queued)
      && (s in then'.triggered <==> s in before.triggered && s.name !in queued)
  {
    QueueingKeepsStop(ordered, target, byStage, after, queued, approved);
    var looked := Looked(ordered, byStage, approved);
    QueueingKeepsSpec(byStage, after, queued, target, approved, s);
    ReadyMembers(looked, byStage, approved, s);
    ReadyMembers(looked, after, approved, s);
    TriggeredMembers(looked, target, byStage, s);
    TriggeredMembers(looked, target, after, s);
  }

  lemma {:induction false} QueueingKeepsStop(ordered: seq<StageSpec>, target: DeliveryTarget, byStage: ByStage, after: ByStage,
                                             queued: set<string>, approved: bool)
    requires Queues(byStage, after, queued)
    ensures StopAt(ordered, after, approved) == StopAt(ordered, byStage, approved)
  {
    if |ordered| > 0 {
      QueueingKeepsSpec(byStage, after, queued, target, approved, ordered[0]);
      QueueingKeepsStop(ordered[1..], target, byStage, after, queued, approved);
    }
  }
}
