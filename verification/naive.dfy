/**
 What resolving a goal means without a ledger: resolve its dependencies, one after the other,
 and run its provider on the results, up to three times.  The foreign parts, which are the catalog, the
 providers and the ledger's storage, are a world of arbitrary functions.
 */
module Naive {
  import opened Model

  type SHA = string

  /** The ledgers and catalogs look at a contract's name only, never at its version. */
  datatype Goal = Goal(name: string, input: SHA)

  datatype Output = Output(sha: SHA, fitness: real)

  /**
   `catalog` are the capabilities known at first, `builds` those that `Build` would add; the
   `n`-th call of `Execute` in the history of the world may differ from every other.
   */
  datatype World = World(
    catalog: set<string>,
    builds: set<string>,
    deps: Goal -> Result<seq<Goal>>,
    execute: (string, seq<SHA>, nat) -> Result<Output>,
    commitFails: (Goal, nat) -> bool,
    threshold: real
  )

  predicate Available(w: World, name: string) {
    name in w.catalog || name in w.builds
  }

  /** A rank for the goals in question; the others need none. */
  type Rank = Goal -> Option<nat>

  /** None of the ranked goals depends on itself, directly or not: ranks fall along dependencies. */
  ghost predicate RanksFall(w: World, rank: Rank) {
    forall g :: rank(g).Some? && w.deps(g).Ok? ==> LowerRanked(rank, g, w.deps(g).value)
  }

  ghost predicate LowerRanked(rank: Rank, g: Goal, ds: seq<Goal>) {
    rank(g).Some? && forall d :: d in ds ==> rank(d).Some? && rank(d).value < rank(g).value
  }

  ghost predicate Ranked(w: World, rank: Rank, g: Goal) {
    RanksFall(w, rank) && rank(g).Some?
  }

  predicate Good(w: World, name: string, inputs: seq<SHA>, n: nat) {
    var r := w.execute(name, inputs, n);
    r.Ok? && r.value.fitness >= w.threshold
  }

  /** The output of the first of three calls, starting with the `n`-th, that is fit enough. */
  function Verdict(w: World, name: string, inputs: seq<SHA>, n: nat): Option<SHA> {
    if Good(w, name, inputs, n) then Some(w.execute(name, inputs, n).value.sha)
    else if Good(w, name, inputs, n + 1) then Some(w.execute(name, inputs, n + 1).value.sha)
    else if Good(w, name, inputs, n + 2) then Some(w.execute(name, inputs, n + 2).value.sha)
    else None
  }

  // ---- The gate, spelled out ----

  /** The `m`-th call succeeds with this output and with the fitness asked for. */
  ghost predicate FitOutput(w: World, name: string, inputs: seq<SHA>, m: nat, sha: SHA) {
    var o := w.execute(name, inputs, m);
    o.Ok? && o.value.fitness >= w.threshold && o.value.sha == sha
  }

  /** It fails, or its output is not fit enough. */
  ghost predicate FallsShort(w: World, name: string, inputs: seq<SHA>, m: nat) {
    w.execute(name, inputs, m).Err? || w.execute(name, inputs, m).value.fitness < w.threshold
  }

  ghost predicate FirstFit(w: World, name: string, inputs: seq<SHA>, n: nat, m: nat, sha: SHA) {
    n <= m && FitOutput(w, name, inputs, m, sha) && forall k: nat :: n <= k < m ==> FallsShort(w, name, inputs, k)
  }

  /** A verdict is the first fit output among three calls, and there is none exactly if all three fall short. */
  lemma VerdictIsFirstFit(w: World, name: string, inputs: seq<SHA>, n: nat, sha: SHA)
    ensures Verdict(w, name, inputs, n) == Some(sha) <==> exists m: nat :: m < n + 3 && FirstFit(w, name, inputs, n, m, sha)
    ensures Verdict(w, name, inputs, n).None? <==> forall m: nat :: n <= m < n + 3 ==> FallsShort(w, name, inputs, m)
  {
    forall m: nat ensures Good(w, name, inputs, m) <==> !FallsShort(w, name, inputs, m) { }
    if Verdict(w, name, inputs, n) == Some(sha) {
      var m := if Good(w, name, inputs, n) then n else if Good(w, name, inputs, n + 1) then n + 1 else n + 2;
      assert FirstFit(w, name, inputs, n, m, sha);
    }
  }

  /** What three tries come to does not depend on when they are made; deterministic providers are a special case. */
  ghost predicate Steady(w: World) {
    forall name, inputs, n: nat :: Verdict(w, name, inputs, n) == Verdict(w, name, inputs, 0)
  }

  lemma DeterministicIsSteady(w: World)
    requires forall name, inputs, n: nat :: w.execute(name, inputs, n) == w.execute(name, inputs, 0)
    ensures Steady(w)
  {
  }

  /** The recursion without a ledger. */
  ghost function Resolved(w: World, rank: Rank, g: Goal): Option<SHA>
    requires Ranked(w, rank, g)
    decreases rank(g).value, 1, 0
  {
    if !Available(w, g.name) || w.deps(g).Err? then None
    else
      assert LowerRanked(rank, g, w.deps(g).value);
      var inputs := ResolvedAll(w, rank, g, w.deps(g).value);
      if inputs.None? then None else Verdict(w, g.name, [g.input] + inputs.value, 0)
  }

  ghost function ResolvedAll(w: World, rank: Rank, g: Goal, ds: seq<Goal>): Option<seq<SHA>>
    requires RanksFall(w, rank) && LowerRanked(rank, g, ds)
    decreases rank(g).value, 0, |ds|
  {
    if |ds| == 0 then Some([])
    else
      var front := ResolvedAll(w, rank, g, ds[..|ds| - 1]);
      var last := Resolved(w, rank, ds[|ds| - 1]);
      if front.None? || last.None? then None else Some(front.value + [last.value])
  }

  /** A goal resolves if it has a provider, its dependencies resolve, and one of three calls on their results is fit: to the first that is. */
  lemma ResolvesIff(w: World, rank: Rank, g: Goal, sha: SHA)
    requires Ranked(w, rank, g)
    ensures w.deps(g).Ok? ==> LowerRanked(rank, g, w.deps(g).value)
    ensures Resolved(w, rank, g) == Some(sha) <==>
      && (g.name in w.catalog || g.name in w.builds) && w.deps(g).Ok?
      && var inputs := ResolvedAll(w, rank, g, w.deps(g).value);
      inputs.Some? && exists m: nat :: m < 3 && FirstFit(w, g.name, [g.input] + inputs.value, 0, m, sha)
  {
    if w.deps(g).Ok? {
      var inputs := ResolvedAll(w, rank, g, w.deps(g).value);
      if inputs.Some? { VerdictIsFirstFit(w, g.name, [g.input] + inputs.value, 0, sha); }
    }
  }

  /** Everything resolves to what the ledger says about it. */
  lemma {:induction false} ResolvedFromLedger(w: World, rank: Rank, g: Goal, ds: seq<Goal>, ledger: map<Goal, SHA>)
    requires RanksFall(w, rank) && LowerRanked(rank, g, ds)
    requires forall d :: d in ds ==> d in ledger && Resolved(w, rank, d) == Some(ledger[d])
    ensures ResolvedAll(w, rank, g, ds) == Some(Results(ledger, ds))
  {
    if |ds| > 0 {
      ResolvedFromLedger(w, rank, g, ds[..|ds| - 1], ledger);
      assert Results(ledger, ds) == Results(ledger, ds[..|ds| - 1]) + [ledger[ds[|ds| - 1]]];
    }
  }

  function Results(ledger: map<Goal, SHA>, ds: seq<Goal>): seq<SHA>
    requires forall d :: d in ds ==> d in ledger
  {
    seq(|ds|, i requires 0 <= i < |ds| => ledger[ds[i]])
  }

  /** One dependency that does not resolve is enough. */
  lemma {:induction false} OneUnresolved(w: World, rank: Rank, g: Goal, ds: seq<Goal>, i: nat)
    requires RanksFall(w, rank) && LowerRanked(rank, g, ds) && i < |ds| && Resolved(w, rank, ds[i]).None?
    ensures ResolvedAll(w, rank, g, ds).None?
  {
    if i < |ds| - 1 {
      assert ds[..|ds| - 1][i] == ds[i];
      OneUnresolved(w, rank, g, ds[..|ds| - 1], i);
    }
  }
}
