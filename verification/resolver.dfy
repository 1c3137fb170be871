/** `internal/runner/resolver.go`: the recursion with a ledger, a fitness gate and three tries. */
module Resolving {
  import opened Model
  import opened Naive

  // ---- What a ledger may contain ----

  ghost predicate DepsIn(w: World, ledger: map<Goal, SHA>, g: Goal) {
    w.deps(g).Ok? && forall d :: d in w.deps(g).value ==> d in ledger
  }

  /** With each goal its dependencies. */
  ghost predicate Closed(w: World, ledger: map<Goal, SHA>) {
    forall g :: g in ledger ==> DepsIn(w, ledger, g)
  }

  /** Each entry is what the recursion without a ledger gives. */
  ghost predicate Consistent(w: World, rank: Rank, ledger: map<Goal, SHA>)
    requires RanksFall(w, rank)
  {
    forall g :: g in ledger && rank(g).Some? ==> Resolved(w, rank, g) == Some(ledger[g])
  }

  /** The entry of `g` came out fit enough of at most three calls starting with the `n`-th, made on the entries of its dependencies. */
  ghost predicate EarnedAt(w: World, ledger: map<Goal, SHA>, g: Goal, n: nat) {
    && g in ledger && Available(w, g.name) && DepsIn(w, ledger, g)
    && Verdict(w, g.name, [g.input] + Results(ledger, w.deps(g).value), n) == Some(ledger[g])
  }

  ghost predicate Earned(w: World, ledger: map<Goal, SHA>, g: Goal, from: nat, to: nat) {
    exists n: nat :: from <= n < to && EarnedAt(w, ledger, g, n)
  }

  /** Entries are only added, and only earned ones; each costs at most three calls, and `spare` calls may have been for nothing. */
  ghost predicate Grown(w: World, before: map<Goal, SHA>, after: map<Goal, SHA>, from: nat, to: nat, spare: nat) {
    && (forall g :: g in before ==> g in after && after[g] == before[g])
    && (forall g :: g in after && g !in before ==> Earned(w, after, g, from, to))
    && from <= to && to - from <= 3 * (|after| - |before|) + spare
  }

  /** Only goals of a rank below `bound` are added. */
  ghost predicate AddsBelow(rank: Rank, before: map<Goal, SHA>, after: map<Goal, SHA>, bound: nat) {
    forall g :: g in after && g !in before ==> rank(g).Some? && rank(g).value < bound
  }

  ghost predicate Recorded(ledger: map<Goal, SHA>, ds: seq<Goal>, shas: seq<SHA>) {
    (forall d :: d in ds ==> d in ledger) && shas == Results(ledger, ds)
  }

  lemma OneMoreResult(before: map<Goal, SHA>, after: map<Goal, SHA>, ds: seq<Goal>, i: nat, shas: seq<SHA>, sha: SHA)
    requires i < |ds| && Recorded(before, ds[..i], shas) && ds[i] in after && after[ds[i]] == sha
    requires forall g :: g in before ==> g in after && after[g] == before[g]
    ensures Recorded(after, ds[..i + 1], shas + [sha])
  {
    assert ds[..i + 1] == ds[..i] + [ds[i]];
  }

  lemma EarnedLater(w: World, before: map<Goal, SHA>, after: map<Goal, SHA>, g: Goal, from: nat, to: nat, more: nat)
    requires Earned(w, before, g, from, to) && to <= more
    requires forall x :: x in before ==> x in after && after[x] == before[x]
    ensures Earned(w, after, g, from, more)
  {
    var n: nat :| from <= n < to && EarnedAt(w, before, g, n);
    assert Results(after, w.deps(g).value) == Results(before, w.deps(g).value);
    assert EarnedAt(w, after, g, n);
  }

  lemma GrownTwice(w: World, a: map<Goal, SHA>, b: map<Goal, SHA>, c: map<Goal, SHA>, from: nat, mid: nat, to: nat, spare: nat)
    requires Grown(w, a, b, from, mid, 0) && Grown(w, b, c, mid, to, spare)
    ensures Grown(w, a, c, from, to, spare)
  {
    forall g | g in c && g !in a ensures Earned(w, c, g, from, to) {
      if g in b {
        EarnedLater(w, b, c, g, from, mid, to);
      } else {
        var n: nat :| mid <= n < to && EarnedAt(w, c, g, n);
      }
    }
  }

  /** Growth keeps a ledger dependency-closed. */
  lemma GrownClosed(w: World, before: map<Goal, SHA>, after: map<Goal, SHA>, from: nat, to: nat, spare: nat)
    requires Grown(w, before, after, from, to, spare) && Closed(w, before)
    ensures Closed(w, after)
  {
    forall g | g in after ensures DepsIn(w, after, g) {
      if g in before {
        assert DepsIn(w, before, g);
      } else {
        var n: nat :| from <= n < to && EarnedAt(w, after, g, n);
      }
    }
  }

  /** Growth keeps a ledger consistent, if three tries always come to the same. */
  lemma GrownConsistent(w: World, rank: Rank, before: map<Goal, SHA>, after: map<Goal, SHA>, from: nat, to: nat, spare: nat)
    requires RanksFall(w, rank) && Steady(w) && Grown(w, before, after, from, to, spare) && Consistent(w, rank, before)
    ensures Consistent(w, rank, after)
  {
    forall g | g in after && rank(g).Some? ensures Resolved(w, rank, g) == Some(after[g]) {
      EntryResolves(w, rank, before, after, from, to, spare, g);
    }
  }

  lemma {:induction false} EntryResolves(w: World, rank: Rank, before: map<Goal, SHA>, after: map<Goal, SHA>,
                                         from: nat, to: nat, spare: nat, g: Goal)
    requires Ranked(w, rank, g) && Steady(w) && Grown(w, before, after, from, to, spare) && Consistent(w, rank, before)
    requires g in after
    ensures Resolved(w, rank, g) == Some(after[g])
    decreases rank(g).value
  {
    if g !in before {
      var n: nat :| from <= n < to && EarnedAt(w, after, g, n);
      var ds := w.deps(g).value;
      assert LowerRanked(rank, g, ds);
      forall d | d in ds ensures Resolved(w, rank, d) == Some(after[d]) {
        EntryResolves(w, rank, before, after, from, to, spare, d);
      }
      ResolvedFromLedger(w, rank, g, ds, after);
      assert Verdict(w, g.name, [g.input] + Results(after, ds), n) == Verdict(w, g.name, [g.input] + Results(after, ds), 0);
    }
  }

  /** What `Resolve` ensures of the ledgers and call counts before and after it, and of its result. */
  ghost predicate ResolveEnds(w: World, rank: Rank, before: map<Goal, SHA>, after: map<Goal, SHA>,
                              from: nat, to: nat, goal: Goal, r: Result<SHA>)
    requires Ranked(w, rank, goal)
  {
    && Grown(w, before, after, from, to, if r.Ok? then 0 else 3)
    && (r.Ok? ==> goal in after && after[goal] == r.value)
    && (r.Err? && Steady(w) && Consistent(w, rank, before) ==>
          Resolved(w, rank, goal).None? || exists g, n: nat :: w.commitFails(g, n))
  }

  // ---- The resolver ----

  class Resolver {
    const world: World
    var ledger: map<Goal, SHA>
    var known: set<string>
    /** How often `Execute` has been called. */
    var calls: nat

    constructor (world: World)
      ensures this.world == world && ledger == map[] && known == world.catalog && calls == 0
    {
      this.world := world;
      ledger, known, calls := map[], world.catalog, 0;
    }

    /** The catalog has grown by nothing but what was built. */
    ghost predicate Valid()
      reads this
    {
      world.catalog <= known <= world.catalog + world.builds
    }

    /** Finding the provider, building it if need be. */
    method FindOrBuild(name: string) returns (found: bool)
      requires Valid()
      modifies this`known
      ensures Valid() && found == Available(world, name) && (found ==> name in known)
    {
      if name in known { return true; }
      if name !in world.builds { return false; }
      known := known + {name};
      found := true;
    }

    method Try(name: string, inputs: seq<SHA>) returns (r: Option<SHA>)
      modifies this`calls
      ensures old(calls) < calls <= old(calls) + 3
      ensures r == Verdict(world, name, inputs, old(calls))
      ensures forall m :: old(calls) <= m < calls - 1 ==> FallsShort(world, name, inputs, m)
      ensures if r.Some? then FitOutput(world, name, inputs, calls - 1, r.value)
              else calls == old(calls) + 3 && FallsShort(world, name, inputs, calls - 1)
    {
      for i := 0 to 3
        invariant calls == old(calls) + i && forall m :: old(calls) <= m < calls ==> FallsShort(world, name, inputs, m)
        invariant i > 0 ==> !Good(world, name, inputs, old(calls))
        invariant i > 1 ==> !Good(world, name, inputs, old(calls) + 1)
        invariant i > 2 ==> !Good(world, name, inputs, old(calls) + 2)
      {
        var output := world.execute(name, inputs, calls);
        calls := calls + 1;
        if output.Ok? && output.value.fitness >= world.threshold {
          return Some(output.value.sha);
        }
      }
      r := None;
    }

    /** Storing the output may fail, and then the ledger is as it was. */
    method Commit(goal: Goal, sha: SHA) returns (ok: bool)
      modifies this`ledger
      ensures ok == !world.commitFails(goal, calls)
      ensures ledger == if ok then old(ledger)[goal := sha] else old(ledger)
    {
      ok := !world.commitFails(goal, calls);
      if ok { ledger := ledger[goal := sha]; }
    }

    method Resolve(goal: Goal, ghost rank: Rank) returns (r: Result<SHA>)
      requires Valid() && Ranked(world, rank, goal)
      modifies this`ledger, this`known, this`calls
      decreases rank(goal).value, 1
      ensures Valid() && ResolveEnds(world, rank, old(ledger), ledger, old(calls), calls, goal, r)
      ensures AddsBelow(rank, old(ledger), ledger, rank(goal).value + 1)
    {
      if goal in ledger {
        return Ok(ledger[goal]);
      }
      var found := FindOrBuild(goal.name);
      if !found {
        return Err("capability missing for " + goal.name);
      }
      var deps := world.deps(goal);
      if deps.Err? {
        return Err("failed to compute dependencies for " + goal.name);
      }
      assert LowerRanked(rank, goal, deps.value);
      var inputs := ResolveAll(goal, deps.value, rank);
      if inputs.Err? {
        return Err(inputs.error);
      }
      ghost var before, from := ledger, calls;
      var output := Try(goal.name, [goal.input] + inputs.value);
      if output.None? {
        TriedInVain(world, rank, old(ledger), ledger, old(calls), from, goal);
        GrownTwice(world, old(ledger), before, ledger, old(calls), from, calls, 3);
        return Err("provider failed after retries");
      }
      var ok := Commit(goal, output.value);
      if !ok {
        assert world.commitFails(goal, calls);
        GrownTwice(world, old(ledger), before, ledger, old(calls), from, calls, 3);
        return Err("failed to commit transition to ledger");
      }
      CommitGrows(world, before, ledger, from, calls, goal, output.value);
      GrownTwice(world, old(ledger), before, ledger, old(calls), from, calls, 0);
      r := Ok(output.value);
    }

    /** The dependencies in their order, up to the first that fails; a goal is never in the ledger before its turn. */
    method ResolveAll(goal: Goal, deps: seq<Goal>, ghost rank: Rank) returns (r: Result<seq<SHA>>)
      requires Valid() && RanksFall(world, rank) && LowerRanked(rank, goal, deps) && goal !in ledger
      modifies this`ledger, this`known, this`calls
      decreases rank(goal).value, 0
      ensures Valid() && Grown(world, old(ledger), ledger, old(calls), calls, if r.Ok? then 0 else 3)
      ensures r.Ok? ==> Recorded(ledger, deps, r.value)
      ensures AddsBelow(rank, old(ledger), ledger, rank(goal).value)
      ensures r.Err? && Steady(world) && Consistent(world, rank, old(ledger)) ==>
        ResolvedAll(world, rank, goal, deps).None? || exists g, n: nat :: world.commitFails(g, n)
    {
      var shas: seq<SHA> := [];
      for i := 0 to |deps|
        invariant Valid() && Grown(world, old(ledger), ledger, old(calls), calls, 0)
        invariant Recorded(ledger, deps[..i], shas)
        invariant AddsBelow(rank, old(ledger), ledger, rank(goal).value)
      {
        ghost var before, from := ledger, calls;
        var sha := Resolve(deps[i], rank);
        GrownTwice(world, old(ledger), before, ledger, old(calls), from, calls, if sha.Ok? then 0 else 3);
        if sha.Err? {
          DependencyFails(world, rank, old(ledger), before, old(calls), from, goal, deps, i);
          return Err(sha.error);
        }
        OneMoreResult(before, ledger, deps, i, shas, sha.value);
        shas := shas + [sha.value];
      }
      assert deps[..|deps|] == deps;
      r := Ok(shas);
    }
  }

  lemma DependencyFails(w: World, rank: Rank, before: map<Goal, SHA>, ledger: map<Goal, SHA>, from: nat, to: nat,
                        goal: Goal, deps: seq<Goal>, i: nat)
    requires RanksFall(w, rank) && LowerRanked(rank, goal, deps) && i < |deps| && Grown(w, before, ledger, from, to, 0)
    ensures Steady(w) && Consistent(w, rank, before) ==> Consistent(w, rank, ledger)
    ensures Resolved(w, rank, deps[i]).None? ==> ResolvedAll(w, rank, goal, deps).None?
  {
    if Steady(w) && Consistent(w, rank, before) { GrownConsistent(w, rank, before, ledger, from, to, 0); }
    if Resolved(w, rank, deps[i]).None? { OneUnresolved(w, rank, goal, deps, i); }
  }

  lemma TriedInVain(w: World, rank: Rank, before: map<Goal, SHA>, ledger: map<Goal, SHA>, from: nat, to: nat, goal: Goal)
    requires Ranked(w, rank, goal) && Grown(w, before, ledger, from, to, 0) && DepsIn(w, ledger, goal)
    requires Verdict(w, goal.name, [goal.input] + Results(ledger, w.deps(goal).value), to).None?
    ensures Steady(w) && Consistent(w, rank, before) ==> Resolved(w, rank, goal).None?
  {
    if Steady(w) && Consistent(w, rank, before) {
      var ds := w.deps(goal).value;
      GrownConsistent(w, rank, before, ledger, from, to, 0);
      assert LowerRanked(rank, goal, ds);
      ResolvedFromLedger(w, rank, goal, ds, ledger);
      assert Verdict(w, goal.name, [goal.input] + Results(ledger, ds), to) == Verdict(w, goal.name, [goal.input] + Results(ledger, ds), 0);
    }
  }

  lemma OneEntryMore(before: map<Goal, SHA>, after: map<Goal, SHA>, goal: Goal)
    requires after.Keys == before.Keys + {goal} && goal !in before
    ensures |after| == |before| + 1
  {
    assert |after| == |after.Keys| && |before| == |before.Keys|;
  }

  lemma CommitGrows(w: World, before: map<Goal, SHA>, after: map<Goal, SHA>, from: nat, to: nat, goal: Goal, sha: SHA)
    requires goal !in before && after == before[goal := sha] && from < to <= from + 3
    requires Available(w, goal.name) && DepsIn(w, before, goal)
    requires Verdict(w, goal.name, [goal.input] + Results(before, w.deps(goal).value), from) == Some(sha)
    ensures Grown(w, before, after, from, to, 0)
  {
    assert Results(after, w.deps(goal).value) == Results(before, w.deps(goal).value);
    assert EarnedAt(w, after, goal, from);
    OneEntryMore(before, after, goal);
  }

  // ---- What a call of Resolve comes to ----

  /** The memoizing recursion succeeds exactly when the plain one does, with the same result, and leaves the ledger consistent. */
  lemma ResolveRefinesRecursion(w: World, rank: Rank, before: map<Goal, SHA>, after: map<Goal, SHA>,
                                from: nat, to: nat, goal: Goal, r: Result<SHA>)
    requires Ranked(w, rank, goal) && ResolveEnds(w, rank, before, after, from, to, goal, r)
    requires Steady(w) && Consistent(w, rank, before) && forall g, n: nat :: !w.commitFails(g, n)
    ensures Resolved(w, rank, goal) == if r.Ok? then Some(r.value) else None
    ensures Consistent(w, rank, after)
  {
    GrownConsistent(w, rank, before, after, from, to, if r.Ok? then 0 else 3);
  }

  /** In particular with providers whose calls always come to the same. */
  lemma DeterministicResolveRefines(w: World, rank: Rank, before: map<Goal, SHA>, after: map<Goal, SHA>,
                                    from: nat, to: nat, goal: Goal, r: Result<SHA>)
    requires Ranked(w, rank, goal) && ResolveEnds(w, rank, before, after, from, to, goal, r)
    requires forall name, inputs, n: nat :: w.execute(name, inputs, n) == w.execute(name, inputs, 0)
    requires Consistent(w, rank, before) && forall g, n: nat :: !w.commitFails(g, n)
    ensures Resolved(w, rank, goal) == if r.Ok? then Some(r.value) else None
    ensures Consistent(w, rank, after)
  {
    DeterministicIsSteady(w);
    ResolveRefinesRecursion(w, rank, before, after, from, to, goal, r);
  }

  /** Whatever the world does, every added entry is the output of a call whose fitness met the threshold, and the entries before it stand. */
  lemma OnlyFitOutputsCommitted(w: World, rank: Rank, before: map<Goal, SHA>, after: map<Goal, SHA>,
                                from: nat, to: nat, goal: Goal, r: Result<SHA>, g: Goal)
    requires Ranked(w, rank, goal) && ResolveEnds(w, rank, before, after, from, to, goal, r) && g in after
    ensures g in before ==> after[g] == before[g]
    ensures g !in before ==> DepsIn(w, after, g) && (g.name in w.catalog || g.name in w.builds)
    ensures g !in before ==> exists m: nat :: from <= m < to + 2 && FitOutput(w, g.name, [g.input] + Results(after, w.deps(g).value), m, after[g])
  {
    if g !in before {
      var n: nat :| from <= n < to && EarnedAt(w, after, g, n);
      VerdictIsFirstFit(w, g.name, [g.input] + Results(after, w.deps(g).value), n, after[g]);
    }
  }
}
