/** `internal/runner/projection.go`: the picture of the dependency graph and of what the ledger knows about it. */
module Projecting {
  import opened Naive
  import opened Resolving

  const PENDING := "pending"
  const SUCCEEDED := "succeeded"

  datatype Node = Node(name: string, status: string, lastSHA: SHA)
  datatype Edge = Edge(from: string, to: string)

  /** The goals that a provider names; an error counts as none. */
  function DepsOf(w: World, g: Goal): seq<Goal> {
    if w.deps(g).Ok? then w.deps(g).value else []
  }

  function NodeFor(ledger: map<Goal, SHA>, g: Goal): Node {
    if g in ledger then Node(g.name, SUCCEEDED, ledger[g]) else Node(g.name, PENDING, "")
  }

  // ---- The traversal as a function ----

  /** The goals with a known provider, in the order in which they are visited, as often as they are. */
  ghost function Visits(w: World, known: set<string>, rank: Rank, g: Goal): seq<Goal>
    requires Ranked(w, rank, g)
    decreases rank(g).value, 1, 0
  {
    if g.name !in known then []
    else
      assert w.deps(g).Ok? ==> LowerRanked(rank, g, w.deps(g).value);
      [g] + VisitsAll(w, known, rank, g, DepsOf(w, g))
  }

  ghost function VisitsAll(w: World, known: set<string>, rank: Rank, g: Goal, ds: seq<Goal>): seq<Goal>
    requires RanksFall(w, rank) && LowerRanked(rank, g, ds)
    decreases rank(g).value, 0, |ds|
  {
    if |ds| == 0 then []
    else VisitsAll(w, known, rank, g, ds[..|ds| - 1]) + Visits(w, known, rank, ds[|ds| - 1])
  }

  ghost function EdgesFrom(w: World, known: set<string>, rank: Rank, g: Goal): seq<Edge>
    requires Ranked(w, rank, g)
    decreases rank(g).value, 1, 0
  {
    if g.name !in known then []
    else
      assert w.deps(g).Ok? ==> LowerRanked(rank, g, w.deps(g).value);
      EdgesFromAll(w, known, rank, g, DepsOf(w, g))
  }

  ghost function EdgesFromAll(w: World, known: set<string>, rank: Rank, g: Goal, ds: seq<Goal>): seq<Edge>
    requires RanksFall(w, rank) && LowerRanked(rank, g, ds)
    decreases rank(g).value, 0, |ds|
  {
    if |ds| == 0 then []
    else
      var last := ds[|ds| - 1];
      EdgesFromAll(w, known, rank, g, ds[..|ds| - 1]) + [Edge(last.name, g.name)] + EdgesFrom(w, known, rank, last)
  }

  /** Writing the nodes of these goals one after the other, later ones over earlier ones of the same name. */
  function Written(nodes: map<string, Node>, ledger: map<Goal, SHA>, goals: seq<Goal>): map<string, Node> {
    if |goals| == 0 then nodes
    else
      var last := goals[|goals| - 1];
      Written(nodes, ledger, goals[..|goals| - 1])[last.name := NodeFor(ledger, last)]
  }

  lemma {:induction false} WrittenTwice(nodes: map<string, Node>, ledger: map<Goal, SHA>, a: seq<Goal>, b: seq<Goal>)
    ensures Written(Written(nodes, ledger, a), ledger, b) == Written(nodes, ledger, a + b)
  {
    if |b| == 0 {
      assert a + b == a;
    } else {
      WrittenTwice(nodes, ledger, a, b[..|b| - 1]);
      assert (a + b)[..|a + b| - 1] == a + b[..|b| - 1];
    }
  }

  lemma NextDependency(w: World, known: set<string>, rank: Rank, g: Goal, ds: seq<Goal>, i: nat, edges: seq<Edge>)
    requires RanksFall(w, rank) && LowerRanked(rank, g, ds) && i < |ds|
    ensures VisitsAll(w, known, rank, g, ds[..i + 1]) == VisitsAll(w, known, rank, g, ds[..i]) + Visits(w, known, rank, ds[i])
    ensures edges + EdgesFromAll(w, known, rank, g, ds[..i + 1])
         == edges + EdgesFromAll(w, known, rank, g, ds[..i]) + [Edge(ds[i].name, g.name)] + EdgesFrom(w, known, rank, ds[i])
  {
    assert ds[..i + 1][..i] == ds[..i];
  }

  // ---- The traversal as it is programmed ----

  class GraphProjection {
    var nodes: map<string, Node>
    var edges: seq<Edge>

    constructor ()
      ensures nodes == map[] && edges == []
    {
      nodes, edges := map[], [];
    }

    method Traverse(w: World, known: set<string>, ledger: map<Goal, SHA>, g: Goal, ghost rank: Rank)
      requires Ranked(w, rank, g)
      modifies this
      decreases rank(g).value, 1
      ensures nodes == Written(old(nodes), ledger, Visits(w, known, rank, g))
      ensures edges == old(edges) + EdgesFrom(w, known, rank, g)
    {
      if g.name !in known { return; }
      nodes := nodes[g.name := NodeFor(ledger, g)];
      assert nodes == Written(old(nodes), ledger, [g]) by { assert [g][..0] == []; }
      var deps := DepsOf(w, g);
      assert w.deps(g).Ok? ==> LowerRanked(rank, g, w.deps(g).value);
      TraverseAll(w, known, ledger, g, deps, rank);
      WrittenTwice(old(nodes), ledger, [g], VisitsAll(w, known, rank, g, deps));
    }

    /** The loop over the dependencies. */
    method TraverseAll(w: World, known: set<string>, ledger: map<Goal, SHA>, g: Goal, deps: seq<Goal>, ghost rank: Rank)
      requires RanksFall(w, rank) && LowerRanked(rank, g, deps)
      modifies this
      decreases rank(g).value, 0
      ensures nodes == Written(old(nodes), ledger, VisitsAll(w, known, rank, g, deps))
      ensures edges == old(edges) + EdgesFromAll(w, known, rank, g, deps)
    {
      for i := 0 to |deps|
        invariant nodes == Written(old(nodes), ledger, VisitsAll(w, known, rank, g, deps[..i]))
        invariant edges == old(edges) + EdgesFromAll(w, known, rank, g, deps[..i])
      {
        edges := edges + [Edge(deps[i].name, g.name)];
        Traverse(w, known, ledger, deps[i], rank);
        NextDependency(w, known, rank, g, deps, i, old(edges));
        WrittenTwice(old(nodes), ledger, VisitsAll(w, known, rank, g, deps[..i]), Visits(w, known, rank, deps[i]));
      }
      assert deps[..|deps|] == deps;
    }
  }

  method ProjectCurrentState(w: World, known: set<string>, ledger: map<Goal, SHA>, goal: Goal, ghost rank: Rank)
    returns (projection: GraphProjection)
    requires Ranked(w, rank, goal)
    ensures fresh(projection)
    ensures projection.nodes == Written(map[], ledger, Visits(w, known, rank, goal))
    ensures projection.edges == EdgesFrom(w, known, rank, goal)
  {
    projection := new GraphProjection();
    projection.Traverse(w, known, ledger, goal, rank);
  }

  // ---- What the picture shows ----

  /** The provider of `g` names `d`. */
  ghost predicate DependsOn(w: World, g: Goal, d: Goal) {
    w.deps(g).Ok? && d in w.deps(g).value
  }

  /** A path of dependencies from `root` to `g` along known providers. */
  ghost predicate Leads(w: World, known: set<string>, root: Goal, g: Goal, path: seq<Goal>) {
    && |path| > 0 && path[0] == root && path[|path| - 1] == g
    && (forall i :: 0 <= i < |path| ==> path[i].name in known)
    && (forall i :: 0 <= i < |path| - 1 ==> DependsOn(w, path[i], path[i + 1]))
  }

  ghost predicate Reachable(w: World, known: set<string>, root: Goal, g: Goal) {
    exists path :: Leads(w, known, root, g, path)
  }

  lemma ReachFurther(w: World, known: set<string>, root: Goal, d: Goal, g: Goal)
    requires root.name in known && d in DepsOf(w, root) && Reachable(w, known, d, g)
    ensures Reachable(w, known, root, g)
  {
    var path :| Leads(w, known, d, g, path);
    assert Leads(w, known, root, g, [root] + path);
  }

  lemma ReachStep(w: World, known: set<string>, root: Goal, g: Goal)
    requires Reachable(w, known, root, g)
    ensures root.name in known && g.name in known
    ensures g == root || exists d :: d in DepsOf(w, root) && Reachable(w, known, d, g)
  {
    var path :| Leads(w, known, root, g, path);
    if |path| > 1 {
      assert Leads(w, known, path[1], g, path[1..]);
    }
  }

  lemma {:induction false} InVisitsAll(w: World, known: set<string>, rank: Rank, root: Goal, ds: seq<Goal>, g: Goal)
    requires RanksFall(w, rank) && LowerRanked(rank, root, ds)
    ensures g in VisitsAll(w, known, rank, root, ds) <==> exists d :: d in ds && g in Visits(w, known, rank, d)
  {
    if |ds| > 0 {
      InVisitsAll(w, known, rank, root, ds[..|ds| - 1], g);
      assert ds == ds[..|ds| - 1] + [ds[|ds| - 1]];
      assert VisitsAll(w, known, rank, root, ds)
          == VisitsAll(w, known, rank, root, ds[..|ds| - 1]) + Visits(w, known, rank, ds[|ds| - 1]);
      if d :| d in ds && g in Visits(w, known, rank, d) {
        assert d in ds[..|ds| - 1] || d == ds[|ds| - 1];
      }
      if g in Visits(w, known, rank, ds[|ds| - 1]) { assert ds[|ds| - 1] in ds; }
    }
  }

  /** The goals visited are those reachable along known providers. */
  lemma {:induction false} VisitsAreReachable(w: World, known: set<string>, rank: Rank, root: Goal, g: Goal)
    requires Ranked(w, rank, root)
    ensures g in Visits(w, known, rank, root) <==> Reachable(w, known, root, g)
    decreases rank(root).value
  {
    if root.name in known {
      var ds := DepsOf(w, root);
      assert w.deps(root).Ok? ==> LowerRanked(rank, root, w.deps(root).value);
      InVisitsAll(w, known, rank, root, ds, g);
      forall d | d in ds ensures g in Visits(w, known, rank, d) <==> Reachable(w, known, d, g) {
        VisitsAreReachable(w, known, rank, d, g);
      }
      assert Leads(w, known, root, root, [root]);
      forall d | d in ds && Reachable(w, known, d, g) ensures Reachable(w, known, root, g) { ReachFurther(w, known, root, d, g); }
    }
    if Reachable(w, known, root, g) { ReachStep(w, known, root, g); }
  }

  /** Some goal before the `i`-th one depends on it. */
  ghost predicate HasParent(w: World, goals: seq<Goal>, i: int) {
    0 <= i < |goals| && exists j :: 0 <= j < i && DependsOn(w, goals[j], goals[i])
  }

  ghost predicate ParentsFirst(w: World, goals: seq<Goal>) {
    forall i :: 0 < i < |goals| ==> HasParent(w, goals, i)
  }

  /** Beginning with the root, a goal is visited after one that depends on it. */
  lemma {:induction false} VisitsParentsFirst(w: World, known: set<string>, rank: Rank, root: Goal)
    requires Ranked(w, rank, root)
    ensures var visits := Visits(w, known, rank, root);
      if root.name in known then |visits| > 0 && visits[0] == root && ParentsFirst(w, visits) else visits == []
    decreases rank(root).value, 1, 0
  {
    if root.name in known {
      assert w.deps(root).Ok? ==> LowerRanked(rank, root, w.deps(root).value);
      AllParentsFirst(w, known, rank, root, DepsOf(w, root));
    }
  }

  lemma {:induction false} AllParentsFirst(w: World, known: set<string>, rank: Rank, root: Goal, ds: seq<Goal>)
    requires RanksFall(w, rank) && LowerRanked(rank, root, ds) && forall d :: d in ds ==> DependsOn(w, root, d)
    ensures ParentsFirst(w, [root] + VisitsAll(w, known, rank, root, ds))
    decreases rank(root).value, 0, |ds|
  {
    if |ds| > 0 {
      var front, last := ds[..|ds| - 1], ds[|ds| - 1];
      AllParentsFirst(w, known, rank, root, front);
      VisitsParentsFirst(w, known, rank, last);
      MoreParentsFirst(w, [root] + VisitsAll(w, known, rank, root, front), Visits(w, known, rank, last));
      assert [root] + VisitsAll(w, known, rank, root, ds)
          == [root] + VisitsAll(w, known, rank, root, front) + Visits(w, known, rank, last);
    }
  }

  lemma MoreParentsFirst(w: World, a: seq<Goal>, b: seq<Goal>)
    requires |a| > 0 && ParentsFirst(w, a) && ParentsFirst(w, b) && (|b| > 0 ==> DependsOn(w, a[0], b[0]))
    ensures ParentsFirst(w, a + b)
  {
    var c := a + b;
    forall i | 0 < i < |c| ensures HasParent(w, c, i) {
      if i < |a| {
        assert HasParent(w, a, i);
        var j :| 0 <= j < i && DependsOn(w, a[j], a[i]);
        assert DependsOn(w, c[j], c[i]);
      } else if i == |a| {
        assert DependsOn(w, c[0], c[i]);
      } else {
        assert HasParent(w, b, i - |a|);
        var j :| 0 <= j < i - |a| && DependsOn(w, b[j], b[i - |a|]);
        assert DependsOn(w, c[j + |a|], c[i]);
      }
    }
  }

  /** `e` leads from a dependency to the visited goal that has it. */
  ghost predicate IsEdgeOf(w: World, e: Edge, g: Goal) {
    e.to == g.name && exists d :: DependsOn(w, g, d) && e.from == d.name
  }

  ghost predicate EdgeFrom(w: World, known: set<string>, root: Goal, e: Edge) {
    exists g :: Reachable(w, known, root, g) && IsEdgeOf(w, e, g)
  }

  lemma {:induction false} InEdgesFromAll(w: World, known: set<string>, rank: Rank, root: Goal, ds: seq<Goal>, e: Edge)
    requires RanksFall(w, rank) && LowerRanked(rank, root, ds)
    ensures e in EdgesFromAll(w, known, rank, root, ds)
       <==> exists d :: d in ds && (e == Edge(d.name, root.name) || e in EdgesFrom(w, known, rank, d))
  {
    if |ds| > 0 {
      InEdgesFromAll(w, known, rank, root, ds[..|ds| - 1], e);
      assert ds == ds[..|ds| - 1] + [ds[|ds| - 1]];
    }
  }

  /** The edges are those from the dependencies of reachable goals to these goals, no more and no fewer. */
  lemma {:induction false} EdgesAreDependencies(w: World, known: set<string>, rank: Rank, root: Goal, e: Edge)
    requires Ranked(w, rank, root)
    ensures e in EdgesFrom(w, known, rank, root) <==> EdgeFrom(w, known, root, e)
    decreases rank(root).value
  {
    if root.name in known {
      var ds := DepsOf(w, root);
      assert w.deps(root).Ok? ==> LowerRanked(rank, root, w.deps(root).value);
      InEdgesFromAll(w, known, rank, root, ds, e);
      forall d | d in ds ensures e in EdgesFrom(w, known, rank, d) <==> EdgeFrom(w, known, d, e) {
        EdgesAreDependencies(w, known, rank, d, e);
      }
      EdgeStep(w, known, root, e);
    } else if g :| Reachable(w, known, root, g) && IsEdgeOf(w, e, g) {
      ReachStep(w, known, root, g);
      assert false;
    }
  }

  lemma EdgeStep(w: World, known: set<string>, root: Goal, e: Edge)
    requires root.name in known
    ensures EdgeFrom(w, known, root, e)
       <==> exists d :: d in DepsOf(w, root) && (e == Edge(d.name, root.name) || EdgeFrom(w, known, d, e))
  {
    assert Leads(w, known, root, root, [root]);
    if d :| d in DepsOf(w, root) && (e == Edge(d.name, root.name) || EdgeFrom(w, known, d, e)) {
      if e == Edge(d.name, root.name) {
        assert IsEdgeOf(w, e, root);
      } else {
        var g :| Reachable(w, known, d, g) && IsEdgeOf(w, e, g);
        ReachFurther(w, known, root, d, g);
      }
    }
    if g :| Reachable(w, known, root, g) && IsEdgeOf(w, e, g) {
      ReachStep(w, known, root, g);
      if g == root {
        var d :| d in DepsOf(w, root) && e.from == d.name;
        assert e == Edge(d.name, root.name);
      }
    }
  }

  /** In a closed ledger everything a recorded goal leads to is recorded. */
  lemma {:induction false} ClosedReaches(w: World, known: set<string>, ledger: map<Goal, SHA>, root: Goal, g: Goal, path: seq<Goal>)
    requires Closed(w, ledger) && root in ledger && Leads(w, known, root, g, path)
    ensures g in ledger
    decreases |path|
  {
    if |path| > 1 {
      assert DepsIn(w, ledger, root);
      ClosedReaches(w, known, ledger, path[1], g, path[1..]);
    }
  }

  ghost predicate SameInput(w: World, known: set<string>, root: Goal) {
    forall g :: Reachable(w, known, root, g) ==> g.input == root.input
  }

  /** A name shows the last goal of that name that was visited. */
  lemma {:induction false} LastVisitShown(ledger: map<Goal, SHA>, goals: seq<Goal>, i: nat)
    requires i < |goals| && forall j :: i < j < |goals| ==> goals[j].name != goals[i].name
    ensures var nodes, g := Written(map[], ledger, goals), goals[i];
      && g.name in nodes
      && nodes[g.name] == if g in ledger then Node(g.name, SUCCEEDED, ledger[g]) else Node(g.name, PENDING, "")
  {
    if i < |goals| - 1 { LastVisitShown(ledger, goals[..|goals| - 1], i); }
  }

  ghost predicate WrittenBy(ledger: map<Goal, SHA>, goals: seq<Goal>, n: string, node: Node, g: Goal) {
    g in goals && g.name == n && node == NodeFor(ledger, g)
  }

  lemma {:induction false} WrittenNodes(ledger: map<Goal, SHA>, goals: seq<Goal>, n: string)
    ensures n in Written(map[], ledger, goals) <==> exists g :: g in goals && g.name == n
    ensures n in Written(map[], ledger, goals) ==> exists g :: WrittenBy(ledger, goals, n, Written(map[], ledger, goals)[n], g)
  {
    if |goals| > 0 {
      var front, last := goals[..|goals| - 1], goals[|goals| - 1];
      WrittenNodes(ledger, front, n);
      assert goals == front + [last];
      if n == last.name {
        assert WrittenBy(ledger, goals, n, Written(map[], ledger, goals)[n], last);
      } else if n in Written(map[], ledger, front) {
        var g :| WrittenBy(ledger, front, n, Written(map[], ledger, front)[n], g);
        assert WrittenBy(ledger, goals, n, Written(map[], ledger, goals)[n], g);
      }
    }
  }

  /** The projection shows reachable goal `g` under the name `n`, as the ledger has it. */
  ghost predicate Shown(w: World, known: set<string>, ledger: map<Goal, SHA>, root: Goal, n: string, node: Node, g: Goal) {
    && Reachable(w, known, root, g) && g.name == n
    && (g in ledger ==> node == Node(n, SUCCEEDED, ledger[g]))
    && (g !in ledger ==> node == Node(n, PENDING, ""))
  }

  /** There is a node for each name of a reachable goal, and it shows what the ledger has for one such goal. */
  lemma NodesShowLedger(w: World, known: set<string>, rank: Rank, ledger: map<Goal, SHA>, root: Goal, n: string)
    requires Ranked(w, rank, root)
    ensures var nodes := Written(map[], ledger, Visits(w, known, rank, root));
      && (n in nodes <==> exists g :: Reachable(w, known, root, g) && g.name == n)
      && (n in nodes ==> exists g :: Shown(w, known, ledger, root, n, nodes[n], g))
  {
    var visits := Visits(w, known, rank, root);
    forall g ensures g in visits <==> Reachable(w, known, root, g) { VisitsAreReachable(w, known, rank, root, g); }
    WrittenNodes(ledger, visits, n);
    if n in Written(map[], ledger, visits) {
      var g :| WrittenBy(ledger, visits, n, Written(map[], ledger, visits)[n], g);
      assert Shown(w, known, ledger, root, n, Written(map[], ledger, visits)[n], g);
    }
  }

  /**
   Projecting a goal found in a closed ledger shows nothing but successes; where all dependencies
   carry the input of the root, with the entry of the goal of that name and input.
   */
  lemma ProjectionAllSucceeded(w: World, known: set<string>, rank: Rank, ledger: map<Goal, SHA>, root: Goal, n: string)
    requires Ranked(w, rank, root) && Closed(w, ledger) && root in ledger
    requires n in Written(map[], ledger, Visits(w, known, rank, root))
    ensures var node := Written(map[], ledger, Visits(w, known, rank, root))[n];
      && node.status == SUCCEEDED
      && (SameInput(w, known, root) ==> Goal(n, root.input) in ledger && node.lastSHA == ledger[Goal(n, root.input)])
  {
    var nodes := Written(map[], ledger, Visits(w, known, rank, root));
    NodesShowLedger(w, known, rank, ledger, root, n);
    var g :| Shown(w, known, ledger, root, n, nodes[n], g);
    var path :| Leads(w, known, root, g, path);
    ClosedReaches(w, known, ledger, root, g, path);
    if SameInput(w, known, root) { assert g == Goal(n, root.input); }
  }
}
