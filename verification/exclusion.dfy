/** Which repositories a stage locks, and that no two live attempts ever work on the same one. */
module Exclusion {
  import opened Text
  import opened Model
  import opened Plan
  import opened Verdicts
  import opened Protocol
  import opened Invariants
  import opened Steps
  import opened Safety

  // ---- The keys of a stage ----

  /** The stage controls the application's repository. */
  ghost predicate ControlsApplication(target: DeliveryTarget, spec: StageSpec, scope: string) {
    COMPONENTS in spec.repoControl && scope != "" && target.repoScope == scope
  }

  ghost predicate RepoOf(target: DeliveryTarget, environment: string, repo: GitOpsTarget) {
    || (environment == LOCAL && target.local.gitOpsRepo == repo)
    || (environment == DEV && target.dev.gitOpsRepo == repo)
    || (environment == PROD && target.prod.gitOpsRepo == repo)
  }

  /** The stage controls the directory of the GitOps repository that its environment is configured with. */
  ghost predicate ControlsGitOps(target: DeliveryTarget, spec: StageSpec, repo: GitOpsTarget) {
    && GITOPS in spec.repoControl && RepoOf(target, TrimSpace(spec.environment), repo)
    && repo.projectPath != "" && repo.path != ""
  }

  /** The stage controls the journal. */
  ghost predicate ControlsJournal(target: DeliveryTarget, spec: StageSpec, project: string, path: string) {
    JOURNAL in spec.repoControl && project != "" && target.journalProject == project && target.journalPath == path
  }

  ghost predicate ApplicationKey(target: DeliveryTarget, spec: StageSpec, key: string) {
    exists scope :: ControlsApplication(target, spec, scope) && key == "apprepo:" + scope
  }

  ghost predicate GitOpsKey(target: DeliveryTarget, spec: StageSpec, key: string) {
    exists repo :: ControlsGitOps(target, spec, repo) && key == "gitops:" + repo.projectPath + ":" + repo.environment + ":" + repo.path
  }

  ghost predicate JournalKey(target: DeliveryTarget, spec: StageSpec, key: string) {
    exists project, path :: ControlsJournal(target, spec, project, path) && key == "journal:" + project + ":" + path
  }

  lemma SurfacesDiffer()
    ensures COMPONENTS != GITOPS && COMPONENTS != JOURNAL && GITOPS != JOURNAL
  {
    assert COMPONENTS[0] == 'c' && GITOPS[0] == 'g' && JOURNAL[0] == 'j';
  }

  lemma {:induction false} KeysOfSurfaces(target: DeliveryTarget, environment: string, surfaces: seq<string>, key: string)
    ensures key in KeysForSurfaces(target, environment, surfaces)
       <==> exists surface :: surface in surfaces && key in KeysForSurface(target, environment, surface)
  {
    if |surfaces| > 0 {
      var front, last := surfaces[..|surfaces| - 1], surfaces[|surfaces| - 1];
      KeysOfSurfaces(target, environment, front, key);
      assert surfaces == front + [last];
    }
  }

  lemma RepoIs(target: DeliveryTarget, environment: string, repo: GitOpsTarget)
    requires repo.projectPath != ""
    ensures RepoOf(target, environment, repo) <==> target.Environment(environment).gitOpsRepo == repo
  {
    assert LOCAL[0] == 'l' && DEV[0] == 'd' && PROD[0] == 'p';
  }

  lemma ApplicationKeys(target: DeliveryTarget, spec: StageSpec, key: string)
    ensures COMPONENTS in spec.repoControl && key in KeysForSurface(target, spec.Environment(), COMPONENTS)
       <==> ApplicationKey(target, spec, key)
  {
  }

  lemma GitOpsKeys(target: DeliveryTarget, spec: StageSpec, key: string)
    ensures GITOPS in spec.repoControl && key in KeysForSurface(target, spec.Environment(), GITOPS)
       <==> GitOpsKey(target, spec, key)
  {
    SurfacesDiffer();
    var repo := target.Environment(spec.Environment()).gitOpsRepo;
    if repo.projectPath != "" { RepoIs(target, spec.Environment(), repo); }
    forall other: GitOpsTarget | other.projectPath != ""
      ensures RepoOf(target, spec.Environment(), other) <==> other == repo { RepoIs(target, spec.Environment(), other); }
  }

  lemma JournalKeys(target: DeliveryTarget, spec: StageSpec, key: string)
    ensures JOURNAL in spec.repoControl && key in KeysForSurface(target, spec.Environment(), JOURNAL)
       <==> JournalKey(target, spec, key)
  {
    SurfacesDiffer();
  }

  /** A stage locks what it controls and what is configured, and nothing else. */
  lemma StageLocks(target: DeliveryTarget, spec: StageSpec, key: string)
    ensures key in KeysForStage(target, spec)
       <==> ApplicationKey(target, spec, key) || GitOpsKey(target, spec, key) || JournalKey(target, spec, key)
  {
    KeysOfSurfaces(target, spec.Environment(), spec.repoControl, key);
    ApplicationKeys(target, spec, key);
    GitOpsKeys(target, spec, key);
    JournalKeys(target, spec, key);
    SurfacesDiffer();
    OnlySurfaces(target, spec.Environment(), key);
  }

  lemma OnlySurfaces(target: DeliveryTarget, environment: string, key: string)
    ensures forall surface ::
      key in KeysForSurface(target, environment, surface) ==> surface == COMPONENTS || surface == GITOPS || surface == JOURNAL
  {
  }

  // ---- Nobody works on the same thing at the same time ----

  /** The attempt is one of the stage `spec` in a run for `target`. */
  ghost predicate WorksOn(s: State, id: string, target: DeliveryTarget, spec: StageSpec) {
    && id in s.attempts && s.attempts[id].runID in s.runs && s.attempts[id].runID in s.plans
    && target == s.runs[s.attempts[id].runID].target
    && spec in SpecsOf(s.plans[s.attempts[id].runID].stages) && spec.name == s.attempts[id].stage
  }

  lemma WorksOnItsSpec(s: State, id: string, target: DeliveryTarget, spec: StageSpec)
    requires GoodPlans(s) && WorksOn(s, id, target, spec)
    ensures HasPlan(s, s.attempts[id]) && Keys(s, s.attempts[id]) == KeysForStage(target, spec)
  {
    var specs := SpecsFor(s, s.attempts[id].runID);
    var k :| 0 <= k < |specs| && specs[k] == spec;
    SpecMapUnique(specs, k);
  }

  lemma OneHolder(states: seq<State>, labels: seq<Label>, i: nat, a: string, ta: DeliveryTarget, sa: StageSpec,
                  b: string, tb: DeliveryTarget, sb: StageSpec, key: string)
    requires Behaviour(states, labels) && i < |states| && Live(states[i], a) && Live(states[i], b)
    requires WorksOn(states[i], a, ta, sa) && WorksOn(states[i], b, tb, sb)
    requires key in KeysForStage(ta, sa) && key in KeysForStage(tb, sb)
    ensures a == b
  {
    Reachable(states, labels, i);
    WorksOnItsSpec(states[i], a, ta, sa);
    WorksOnItsSpec(states[i], b, tb, sb);
    if a != b { MutualExclusion(states, labels, i, a, b); }
  }

  /** Two live attempts never control the same directory of a GitOps repository. */
  lemma OneWriterPerGitOpsPath(states: seq<State>, labels: seq<Label>, i: nat, a: string, ta: DeliveryTarget, sa: StageSpec,
                               b: string, tb: DeliveryTarget, sb: StageSpec, repo: GitOpsTarget)
    requires Behaviour(states, labels) && i < |states| && Live(states[i], a) && Live(states[i], b)
    requires WorksOn(states[i], a, ta, sa) && WorksOn(states[i], b, tb, sb)
    requires ControlsGitOps(ta, sa, repo) && ControlsGitOps(tb, sb, repo)
    ensures a == b
  {
    var key := "gitops:" + repo.projectPath + ":" + repo.environment + ":" + repo.path;
    StageLocks(ta, sa, key);
    StageLocks(tb, sb, key);
    OneHolder(states, labels, i, a, ta, sa, b, tb, sb, key);
  }

  /** Nor the same application repository. */
  lemma OneWriterPerApplication(states: seq<State>, labels: seq<Label>, i: nat, a: string, ta: DeliveryTarget, sa: StageSpec,
                                b: string, tb: DeliveryTarget, sb: StageSpec, scope: string)
    requires Behaviour(states, labels) && i < |states| && Live(states[i], a) && Live(states[i], b)
    requires WorksOn(states[i], a, ta, sa) && WorksOn(states[i], b, tb, sb)
    requires ControlsApplication(ta, sa, scope) && ControlsApplication(tb, sb, scope)
    ensures a == b
  {
    var key := "apprepo:" + scope;
    StageLocks(ta, sa, key);
    StageLocks(tb, sb, key);
    OneHolder(states, labels, i, a, ta, sa, b, tb, sb, key);
  }

  /** Nor the same journal. */
  lemma OneWriterPerJournal(states: seq<State>, labels: seq<Label>, i: nat, a: string, ta: DeliveryTarget, sa: StageSpec,
                            b: string, tb: DeliveryTarget, sb: StageSpec, project: string, path: string)
    requires Behaviour(states, labels) && i < |states| && Live(states[i], a) && Live(states[i], b)
    requires WorksOn(states[i], a, ta, sa) && WorksOn(states[i], b, tb, sb)
    requires ControlsJournal(ta, sa, project, path) && ControlsJournal(tb, sb, project, path)
    ensures a == b
  {
    var key := "journal:" + project + ":" + path;
    StageLocks(ta, sa, key);
    StageLocks(tb, sb, key);
    OneHolder(states, labels, i, a, ta, sa, b, tb, sb, key);
  }
}
