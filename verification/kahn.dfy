/**
 The reference order of a dependency graph: again and again take the least name whose
 dependencies are all placed.  Neither counters nor a queue appear here; both Kahn sorts
 of the system are proved to compute this order, and its properties are proved once.
 */
module Kahn {
  import opened Names

  /** Each node with the set of nodes it depends on, dangling dependencies already dropped. */
  type Graph = g: map<string, set<string>> | forall n :: n in g ==> g[n] <= g.Keys
    witness map[]

  ghost function Available(g: Graph, done: set<string>): set<string> {
    set n | n in g && n !in done && g[n] <= done
  }

  /** The part of the order that Kahn's algorithm reaches from `done`. */
  ghost function Front(g: Graph, done: set<string>): seq<string>
    decreases g.Keys - done
  {
    var a := Available(g, done);
    if a == {} then [] else [Least(a)] + Front(g, done + {Least(a)})
  }

  /** Nodes the algorithm never reaches: they sit on a cycle or depend on one. */
  ghost function Stuck(g: Graph): set<string> {
    g.Keys - Elements(Front(g, {}))
  }

  /** The reachable part, then whatever is stuck in name order. */
  ghost function Order(g: Graph): seq<string> {
    Front(g, {}) + InOrder(Stuck(g))
  }

  // ---- Paths and cycles ----

  ghost predicate IsPath(g: Graph, p: seq<string>) {
    && |p| > 0
    && (forall i :: 0 <= i < |p| ==> p[i] in g)
    && (forall i :: 0 <= i < |p| - 1 ==> p[i + 1] in g[p[i]])
  }

  ghost predicate IsCycle(g: Graph, c: seq<string>) {
    |c| >= 2 && IsPath(g, c) && c[0] == c[|c| - 1]
  }

  /** `p` is a dependency path from `n` to a node of the cycle `c`. */
  ghost predicate LeadsInto(g: Graph, n: string, p: seq<string>, c: seq<string>) {
    IsPath(g, p) && IsCycle(g, c) && p[0] == n && p[|p| - 1] == c[0]
  }

  ghost predicate DependsOnCycle(g: Graph, n: string) {
    exists p, c :: LeadsInto(g, n, p, c)
  }

  ghost predicate Acyclic(g: Graph) {
    forall c :: !IsCycle(g, c)
  }

  // ---- Topological orders and their comparison ----

  /** Every node exactly once, each after everything it depends on. */
  ghost predicate IsTopological(g: Graph, s: seq<string>) {
    Distinct(s) && Elements(s) == g.Keys && DepsFirst(g, {}, s)
  }

  ghost predicate DepsFirst(g: Graph, done: set<string>, s: seq<string>) {
    && (forall i :: 0 <= i < |s| ==> s[i] in g)
    && (forall i, d {:trigger d in g[s[i]]} :: 0 <= i < |s| && d in g[s[i]] ==> d in done || d in s[..i])
  }

  /** Lexicographic comparison of two orders, name by name. */
  ghost predicate NoLater(s: seq<string>, t: seq<string>) {
    s == t || exists i: nat :: LessAt(s, t, i)
  }

  /** `i` is the first place where the two differ, and `s` has the smaller name there. */
  ghost predicate LessAt(s: seq<string>, t: seq<string>, i: nat) {
    i < |s| && i < |t| && s[..i] == t[..i] && Less(s[i], t[i])
  }

  // ---- The reachable part is a topological order of the nodes that are not stuck ----

  lemma {:induction false} FrontValid(g: Graph, done: set<string>)
    ensures Distinct(Front(g, done))
    ensures Elements(Front(g, done)) !! done && Elements(Front(g, done)) <= g.Keys
    ensures DepsFirst(g, done, Front(g, done))
    ensures Available(g, done + Elements(Front(g, done))) == {}
    decreases g.Keys - done
  {
    var a := Available(g, done);
    if a == {} {
      assert done + Elements([]) == done;
    } else {
      var n := Least(a);
      var rest := Front(g, done + {n});
      var f := [n] + rest;
      FrontValid(g, done + {n});
      assert Elements(f) == {n} + Elements(rest);
      assert done + Elements(f) == done + {n} + Elements(rest);
      forall i, j | 0 <= i < j < |f| ensures f[i] != f[j] {
        if i == 0 { assert rest[j - 1] in Elements(rest); }
      }
      forall i, d | 0 <= i < |f| && d in g[f[i]] ensures d in done || d in f[..i] {
        if i > 0 { assert f[..i] == [n] + rest[..i - 1]; }
      }
    }
  }

  /** Each stuck node has a dependency that is stuck too. */
  lemma {:induction false} StuckTrapped(g: Graph, n: string)
    requires n in Stuck(g)
    ensures exists d :: d in g[n] && d in Stuck(g)
  {
    FrontValid(g, {});
    var placed := Elements(Front(g, {}));
    assert {} + placed == placed;
    assert n !in Available(g, placed);
  }

  lemma {:induction false} WalkInStuck(g: Graph, n: string, len: nat) returns (p: seq<string>)
    requires n in Stuck(g)
    ensures |p| == len + 1 && IsPath(g, p) && p[0] == n
    ensures forall i :: 0 <= i < |p| ==> p[i] in Stuck(g)
    decreases len
  {
    if len == 0 {
      p := [n];
    } else {
      StuckTrapped(g, n);
      var d :| d in g[n] && d in Stuck(g);
      var q := WalkInStuck(g, d, len - 1);
      p := [n] + q;
    }
  }

  lemma {:induction false} Pigeonhole(p: seq<string>, s: set<string>)
    requires |p| > |s|
    requires forall i :: 0 <= i < |p| ==> p[i] in s
    ensures exists i, j :: 0 <= i < j < |p| && p[i] == p[j]
  {
    if Distinct(p) {
      DistinctSize(p);
      SubsetSize(Elements(p), s);
    }
  }

  lemma {:induction false} SubsetSize<T>(a: set<T>, b: set<T>)
    requires a <= b
    ensures |a| <= |b|
  {
    if a != {} {
      var x :| x in a;
      SubsetSize(a - {x}, b - {x});
    }
  }

  /** Along a dependency path that starts at a placed node every node is placed earlier than the one before it. */
  lemma {:induction false} PathsDescend(g: Graph, p: seq<string>, at: nat)
    requires IsPath(g, p) && at < |Front(g, {})| && Front(g, {})[at] == p[0]
    ensures forall i :: 0 < i < |p| ==> p[i] in Front(g, {})[..at]
    decreases |p|
  {
    var f := Front(g, {});
    FrontValid(g, {});
    if |p| > 1 {
      assert p[1] in g[f[at]] && p[1] in f[..at];
      var k :| 0 <= k < at && f[k] == p[1];
      assert IsPath(g, p[1..]);
      PathsDescend(g, p[1..], k);
      forall i | 0 < i < |p| ensures p[i] in f[..at] {
        if i > 1 {
          assert p[1..][i - 1] in f[..k];
        }
      }
    }
  }

  /** A node is stuck exactly when some dependency path leads from it into a cycle. */
  lemma {:induction false} StuckIffDependsOnCycle(g: Graph, n: string)
    requires n in g
    ensures n in Stuck(g) <==> DependsOnCycle(g, n)
  {
    if n in Stuck(g) {
      var p := WalkInStuck(g, n, |Stuck(g)|);
      Pigeonhole(p, Stuck(g));
      var i, j :| 0 <= i < j < |p| && p[i] == p[j];
      assert LeadsInto(g, n, p[..i + 1], p[i..j + 1]);
    } else if DependsOnCycle(g, n) {
      var p, c :| LeadsInto(g, n, p, c);
      FrontValid(g, {});
      var at :| 0 <= at < |Front(g, {})| && Front(g, {})[at] == n;
      PathsDescend(g, p, at);
      CycleNeverPlaced(g, c);
      assert false;
    }
  }

  lemma {:induction false} CycleNeverPlaced(g: Graph, c: seq<string>)
    requires IsCycle(g, c)
    ensures c[0] !in Elements(Front(g, {}))
  {
    var f := Front(g, {});
    if c[0] in Elements(f) {
      FrontValid(g, {});
      var at :| 0 <= at < |f| && f[at] == c[0];
      PathsDescend(g, c, at);
      assert false;
    }
  }

  lemma {:induction false} AcyclicIffNothingStuck(g: Graph)
    ensures Acyclic(g) <==> Stuck(g) == {}
  {
    if Acyclic(g) {
      forall n | n in g ensures n !in Stuck(g) {
        StuckIffDependsOnCycle(g, n);
      }
    } else {
      var c :| IsCycle(g, c);
      assert LeadsInto(g, c[0], [c[0]], c);
      StuckIffDependsOnCycle(g, c[0]);
    }
  }

  /** In an acyclic graph every nonempty set of nodes has a member that depends on no other member. */
  lemma {:induction false} AcyclicHasMinimal(g: Graph, s: set<string>) returns (n: string)
    requires Acyclic(g) && s <= g.Keys && s != {}
    ensures n in s && g[n] !! s
  {
    AcyclicIffNothingStuck(g);
    FrontValid(g, {});
    var f := Front(g, {});
    var i := FirstMember(f, s);
    n := f[i];
    forall d | d in g[n] ensures d !in s {
      assert d in Elements(f[..i]);
    }
  }

  lemma {:induction false} FirstMember(f: seq<string>, s: set<string>) returns (i: nat)
    requires Elements(f) * s != {}
    ensures i < |f| && f[i] in s && Elements(f[..i]) !! s
    decreases |f|
  {
    if f[0] in s {
      i := 0;
    } else {
      assert Elements(f) == {f[0]} + Elements(f[1..]);
      var k := FirstMember(f[1..], s);
      i := k + 1;
      assert f[..i] == [f[0]] + f[1..][..k];
      assert Elements(f[..i]) == {f[0]} + Elements(f[1..][..k]);
    }
  }

  // ---- What the order is worth ----

  /** Nothing is lost and nothing is duplicated, cycles or not. */
  lemma {:induction false} OrderComplete(g: Graph)
    ensures Distinct(Order(g)) && Elements(Order(g)) == g.Keys
  {
    FrontValid(g, {});
    InOrderDistinct(Stuck(g));
    InOrderElements(Stuck(g));
    DistinctConcat(Front(g, {}), InOrder(Stuck(g)));
  }

  lemma {:induction false} DistinctConcat(f: seq<string>, r: seq<string>)
    requires Distinct(f) && Distinct(r) && Elements(f) !! Elements(r)
    ensures Distinct(f + r) && Elements(f + r) == Elements(f) + Elements(r)
  {
    forall i, j | 0 <= i < j < |f + r| ensures (f + r)[i] != (f + r)[j] {
      if i < |f| <= j {
        assert f[i] in Elements(f);
        assert r[j - |f|] in Elements(r);
      }
    }
  }

  /** If as many nodes were reached as there are, none is stuck. */
  lemma {:induction false} FullFront(g: Graph)
    requires |Front(g, {})| == |g.Keys|
    ensures Order(g) == Front(g, {})
  {
    FrontValid(g, {});
    DistinctSize(Front(g, {}));
    SubsetEqual(Elements(Front(g, {})), g.Keys);
    assert InOrder({}) == [];
  }

  lemma {:induction false} OrderFromRest(g: Graph, rest: seq<string>)
    requires Increasing(rest)
    requires forall x :: x in rest <==> x in g && x !in Front(g, {})
    ensures Order(g) == Front(g, {}) + rest
  {
    assert Elements(rest) == Stuck(g);
    IncreasingIsInOrder(rest);
  }

  lemma {:induction false} SubsetEqual<T>(a: set<T>, b: set<T>)
    requires a <= b && |a| == |b|
    ensures a == b
  {
    if x :| x in b && x !in a {
      SubsetSize(a, b - {x});
    }
  }

  /** On an acyclic graph the order is topological. */
  lemma {:induction false} OrderIsTopological(g: Graph)
    requires Acyclic(g)
    ensures IsTopological(g, Order(g))
  {
    AcyclicOrder(g);
    FrontValid(g, {});
    OrderComplete(g);
  }

  /** ... and no topological order comes before it lexicographically. */
  lemma {:induction false} OrderIsLeast(g: Graph, t: seq<string>)
    requires Acyclic(g) && IsTopological(g, t)
    ensures NoLater(Order(g), t)
  {
    AcyclicOrder(g);
    var none: seq<string> := [];
    assert Elements(none) == {} && none + t == t;
    FrontNoLater(g, none, t);
  }

  lemma {:induction false} AcyclicOrder(g: Graph)
    requires Acyclic(g)
    ensures Order(g) == Front(g, {})
  {
    AcyclicIffNothingStuck(g);
    assert InOrder({}) == [];
  }

  lemma {:induction false} FrontNoLater(g: Graph, common: seq<string>, t: seq<string>)
    requires Distinct(common + t) && Elements(common + t) == g.Keys
    requires DepsFirst(g, {}, common + t)
    ensures NoLater(Front(g, Elements(common)), t)
    decreases |t|
  {
    var done := Elements(common);
    var u := common + t;
    if |t| == 0 {
      assert u == common;
      assert Available(g, done) == {};
    } else {
      NextIsAvailable(g, common, t);
      var n := Least(Available(g, done));
      if n == t[0] {
        assert (common + [n]) + t[1..] == u;
        assert Elements(common + [n]) == done + {n};
        FrontNoLater(g, common + [n], t[1..]);
        assert t == [n] + t[1..];
        NoLaterCons(n, Front(g, done + {n}), t[1..]);
      } else {
        assert LessAt(Front(g, done), t, 0);
      }
    }
  }

  /** The next name of any topological order is one the algorithm could have picked too. */
  lemma {:induction false} NextIsAvailable(g: Graph, common: seq<string>, t: seq<string>)
    requires |t| > 0 && Distinct(common + t) && Elements(common + t) == g.Keys
    requires DepsFirst(g, {}, common + t)
    ensures t[0] in Available(g, Elements(common))
  {
    var u := common + t;
    assert u[|common|] == t[0] && u[..|common|] == common;
    assert t[0] in Elements(u);
    forall k | 0 <= k < |common| ensures common[k] != t[0] {
      assert u[k] == common[k];
    }
    forall d | d in g[u[|common|]] ensures d in Elements(common) {
      assert d in u[..|common|];
    }
  }

  lemma {:induction false} NoLaterCons(n: string, s: seq<string>, t: seq<string>)
    requires NoLater(s, t)
    ensures NoLater([n] + s, [n] + t)
  {
    if s != t {
      var i: nat :| LessAt(s, t, i);
      var f, u := [n] + s, [n] + t;
      assert f[..i + 1] == [n] + s[..i] == [n] + t[..i] == u[..i + 1];
      assert LessAt(f, u, i + 1);
    }
  }

  /** Two topological orders neither of which comes after the other are the same order. */
  lemma {:induction false} NoLaterAntisymmetric(s: seq<string>, t: seq<string>)
    requires NoLater(s, t) && NoLater(t, s)
    ensures s == t
  {
    if s != t {
      var i: nat :| LessAt(s, t, i);
      var j: nat :| LessAt(t, s, j);
      if i < j { assert s[..j][i] == t[..j][i]; LessIrreflexive(s[i]); }
      else if j < i { assert s[..i][j] == t[..i][j]; LessIrreflexive(s[j]); }
      else { LessAsymmetric(s[i], t[i]); }
    }
  }

  /**
   With cycles: the reached part is exactly the nodes from which no dependency path leads
   into a cycle, each after its dependencies; the others follow in name order.
   */
  lemma {:induction false} OrderWithCycles(g: Graph, n: string)
    requires n in g
    ensures Front(g, {}) <= Order(g)
    ensures DepsFirst(g, {}, Front(g, {}))
    ensures n in Elements(Front(g, {})) <==> !DependsOnCycle(g, n)
    ensures Increasing(Order(g)[|Front(g, {})|..])
  {
    FrontValid(g, {});
    StuckIffDependsOnCycle(g, n);
    InOrderIncreasing(Stuck(g));
    assert Order(g)[|Front(g, {})|..] == InOrder(Stuck(g));
  }
}
