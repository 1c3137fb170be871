/** `internal/pipeline/graph.go`: the stage order, computed with in-degree counters and a sorted ready queue. */
module StageGraph {
  import opened Names
  import opened Kahn
  import opened Counting
  import opened Model

  ghost function ListsOf(specs: seq<StageSpec>): Lists {
    var index := SpecMap(specs);
    map n | n in index :: index[n].dependencies
  }

  /** The dependency graph the specs describe; dependencies on unknown stages do not count. */
  ghost function StagesGraph(specs: seq<StageSpec>): Graph {
    GraphOf(ListsOf(specs))
  }

  function Pick(index: map<string, StageSpec>, names: seq<string>): seq<StageSpec>
    requires forall n :: n in names ==> n in index
  {
    seq(|names|, i requires 0 <= i < |names| => index[names[i]])
  }

  /** The specs in the reference order of their graph. */
  ghost function Ordered(specs: seq<StageSpec>): seq<StageSpec> {
    var o := Order(StagesGraph(specs));
    OrderComplete(StagesGraph(specs));
    assert forall n :: n in o ==> n in Elements(o);
    Pick(SpecMap(specs), o)
  }

  ghost predicate Within(dependents: map<string, seq<string>>, index: map<string, StageSpec>) {
    forall d, n :: d in dependents && n in dependents[d] ==> n in index
  }

  /** The tables after the first `i` specs have been counted. */
  ghost function TablesUpTo(specs: seq<StageSpec>, t: Tables, i: nat): Tables
    requires i <= |specs|
  {
    if i == 0 then t
    else RecordAll(TablesUpTo(specs, t, i - 1), SpecMap(specs).Keys, specs[i - 1].name, specs[i - 1].dependencies)
  }

  /** ... and the dependency lists that they describe. */
  ghost function ListsUpTo(specs: seq<StageSpec>, i: nat): (lists: Lists)
    requires i <= |specs|
    ensures lists.Keys == SpecMap(specs).Keys
  {
    if i == 0 then map n | n in SpecMap(specs) :: []
    else var l := ListsUpTo(specs, i - 1);
      SpecMapHas(specs, i - 1);
      l[specs[i - 1].name := l[specs[i - 1].name] + specs[i - 1].dependencies]
  }

  lemma {:induction false} TablesCorrect(specs: seq<StageSpec>, t: Tables, i: nat)
    requires i <= |specs| && t.dependents == map[]
    requires forall n :: n in t.indegree ==> t.indegree[n] == 0
    ensures Correct(ListsUpTo(specs, i), TablesUpTo(specs, t, i))
  {
    if i == 0 {
      NothingRecorded(ListsUpTo(specs, 0), t);
    } else {
      TablesCorrect(specs, t, i - 1);
      SpecMapHas(specs, i - 1);
      RecordAllCorrect(ListsUpTo(specs, i - 1), TablesUpTo(specs, t, i - 1), specs[i - 1].name, specs[i - 1].dependencies);
    }
  }

  lemma {:induction false} ListsUpToUnique(specs: seq<StageSpec>, i: nat, k: nat)
    requires UniqueNames(specs) && i <= |specs| && k < |specs|
    ensures specs[k].name in ListsUpTo(specs, i)
    ensures ListsUpTo(specs, i)[specs[k].name] == if k < i then specs[k].dependencies else []
  {
    SpecMapUnique(specs, k);
    if i > 0 { ListsUpToUnique(specs, i - 1, k); }
  }

  lemma ListsUpToAll(specs: seq<StageSpec>)
    requires UniqueNames(specs)
    ensures ListsUpTo(specs, |specs|) == ListsOf(specs)
  {
    SpecMapKeys(specs);
    forall n | n in SpecMap(specs) ensures ListsUpTo(specs, |specs|)[n] == ListsOf(specs)[n] {
      var k :| 0 <= k < |specs| && specs[k].name == n;
      SpecMapUnique(specs, k);
      ListsUpToUnique(specs, |specs|, k);
    }
  }

  method IndexSpecs(specs: seq<StageSpec>)
    returns (index: map<string, StageSpec>, names: seq<string>, indegree: map<string, int>)
    ensures index == SpecMap(specs) && names == NamesOf(specs)
    ensures indegree.Keys == index.Keys && forall n :: n in indegree ==> indegree[n] == 0
  {
    index, names, indegree := map[], [], map[];
    for i := 0 to |specs|
      invariant index == SpecMap(specs[..i]) && names == NamesOf(specs[..i])
      invariant indegree.Keys == index.Keys && forall n :: n in indegree ==> indegree[n] == 0
    {
      assert specs[..i + 1][..i] == specs[..i];
      index := index[specs[i].name := specs[i]];
      if specs[i].name !in indegree { indegree := indegree[specs[i].name := 0]; }
      names := names + [specs[i].name];
    }
    assert specs[..|specs|] == specs;
  }

  method CountDependencies(specs: seq<StageSpec>, index: map<string, StageSpec>, indegree0: map<string, int>)
    returns (indegree: map<string, int>, dependents: map<string, seq<string>>)
    requires index == SpecMap(specs)
    ensures Tables(indegree, dependents) == TablesUpTo(specs, Tables(indegree0, map[]), |specs|)
    ensures Within(dependents, index)
  {
    indegree, dependents := indegree0, map[];
    for i := 0 to |specs|
      invariant Tables(indegree, dependents) == TablesUpTo(specs, Tables(indegree0, map[]), i)
      invariant Within(dependents, index)
    {
      var spec := specs[i];
      SpecMapHas(specs, i);
      ghost var t := Tables(indegree, dependents);
      for j := 0 to |spec.dependencies|
        invariant Tables(indegree, dependents) == RecordAll(t, index.Keys, spec.name, spec.dependencies[..j])
        invariant Within(dependents, index)
      {
        assert spec.dependencies[..j + 1][..j] == spec.dependencies[..j];
        var dep := spec.dependencies[j];
        if dep in index {
          indegree := indegree[spec.name := Get(indegree, spec.name, 0) + 1];
          dependents := dependents[dep := Get(dependents, dep, []) + [spec.name]];
        }
      }
      assert spec.dependencies[..|spec.dependencies|] == spec.dependencies;
    }
  }

  /** The names whose counter is zero, in name order. */
  method InitialReady(sorted: seq<string>, indegree: map<string, int>) returns (ready: seq<string>)
    ensures forall x :: x in ready <==> x in sorted && Get(indegree, x, 0) == 0
    ensures Increasing(sorted) ==> Increasing(ready)
  {
    ready := [];
    for i := 0 to |sorted|
      invariant forall x :: x in ready <==> x in sorted[..i] && Get(indegree, x, 0) == 0
      invariant Increasing(sorted) ==> Increasing(ready)
    {
      if Get(indegree, sorted[i], 0) == 0 {
        if Increasing(sorted) {
          forall k | 0 <= k < |ready| ensures Less(ready[k], sorted[i]) {
            assert ready[k] in sorted[..i];
          }
        }
        ready := ready + [sorted[i]];
      }
    }
    assert sorted[..|sorted|] == sorted;
  }

  method TellChildren(indegree0: map<string, int>, ready0: seq<string>, children: seq<string>)
    returns (indegree: map<string, int>, ready: seq<string>)
    ensures Queue(indegree, ready) == TellAll(Queue(indegree0, ready0), children)
  {
    indegree, ready := indegree0, ready0;
    for c := 0 to |children|
      invariant Queue(indegree, ready) == TellAll(Queue(indegree0, ready0), children[..c])
    {
      assert children[..c + 1][..c] == children[..c];
      var child := children[c];
      indegree := indegree[child := Get(indegree, child, 0) - 1];
      if indegree[child] == 0 {
        ready := Sort(ready + [child]);
      }
    }
    assert children[..|children|] == children;
  }

  /** The main loop: pop the least ready name, emit it, tell its children in name order. */
  method Drain(ghost lists: Lists, index: map<string, StageSpec>, dependents: map<string, seq<string>>,
               indegree0: map<string, int>, ready0: seq<string>, ghost valid: bool) returns (ordered: seq<string>)
    requires Within(dependents, index) && forall x :: x in ready0 ==> x in index
    requires valid ==> Inverse(lists, dependents) && Draining(lists, Queue(indegree0, ready0), [])
    ensures forall x :: x in ordered ==> x in index
    ensures valid ==> ordered == Front(GraphOf(lists), {})
  {
    var indegree, ready := indegree0, ready0;
    ordered := [];
    while |ready| > 0
      invariant forall x :: x in ready ==> x in index
      invariant forall x :: x in ordered ==> x in index
      invariant valid ==> Draining(lists, Queue(indegree, ready), ordered)
      decreases Waiting(indegree), |ready|
    {
      ghost var q := Queue(indegree, ready);
      var name := ready[0];
      ready := ready[1..];
      ghost var popped := Queue(indegree, ready);
      var children := Sort(Get(dependents, name, []));
      indegree, ready := TellChildren(indegree, ready, children);
      ChildrenKnown(dependents, index, name);
      TellAllProgress(popped, children, index.Keys);
      if valid { DrainStep(lists, dependents, q, ordered, children); }
      ordered := ordered + [name];
    }
    if valid { DrainedAll(lists, Queue(indegree, ready), ordered); }
  }

  lemma ChildrenKnown(dependents: map<string, seq<string>>, index: map<string, StageSpec>, name: string)
    requires Within(dependents, index)
    ensures forall x :: x in Sort(Get(dependents, name, [])) ==> x in index
  {
    SortElements(Get(dependents, name, []));
    forall x | x in Sort(Get(dependents, name, [])) ensures x in index {
      assert x in Elements(Sort(Get(dependents, name, [])));
    }
  }

  // ---- SpecsInOrder ----

  /** The names the drain never reached, in sorted order. */
  method Leftover(sorted: seq<string>, seen: seq<string>) returns (rest: seq<string>)
    ensures forall x :: x in rest <==> x in sorted && x !in seen
    ensures Increasing(sorted) ==> Increasing(rest)
  {
    rest := [];
    for i := 0 to |sorted|
      invariant forall x :: x in rest <==> x in sorted[..i] && x !in seen
      invariant Increasing(sorted) ==> Increasing(rest)
    {
      if sorted[i] !in seen {
        if Increasing(sorted) {
          forall k | 0 <= k < |rest| ensures Less(rest[k], sorted[i]) {
            assert rest[k] in sorted[..i];
          }
        }
        rest := rest + [sorted[i]];
      }
    }
    assert sorted[..|sorted|] == sorted;
  }

  /** Everything up to the end of the main loop. */
  method PlaceReachable(specs: seq<StageSpec>)
    returns (index: map<string, StageSpec>, sorted: seq<string>, placed: seq<string>)
    ensures index == SpecMap(specs)
    ensures forall x :: x in sorted <==> x in index
    ensures forall x :: x in placed ==> x in index
    ensures UniqueNames(specs) ==> Increasing(sorted) && placed == Front(StagesGraph(specs), {})
  {
    var names, indegree0;
    index, names, indegree0 := IndexSpecs(specs);
    var indegree, dependents := CountDependencies(specs, index, indegree0);
    sorted := Sort(names);
    NamesKnown(specs);
    var ready := InitialReady(sorted, indegree);
    ghost var lists, valid := ListsUpTo(specs, |specs|), UniqueNames(specs);
    TablesCorrect(specs, Tables(indegree0, map[]), |specs|);
    if valid {
      SortedNames(specs);
      ReadyAtStart(lists, sorted, indegree, ready);
    }
    placed := Drain(lists, index, dependents, indegree, ready, valid);
    if valid { ListsUpToAll(specs); }
  }

  /**
   `SpecsInOrder`.  With unique names the result lists the specs in the reference order;
   the method itself accepts any specs and always ends.
   */
  method SpecsInOrder(specs: seq<StageSpec>) returns (ordered: seq<StageSpec>)
    ensures UniqueNames(specs) ==> ordered == Ordered(specs)
  {
    var index, sorted, placed := PlaceReachable(specs);
    ordered := Pick(index, placed);
    if |ordered| == |specs| {
      if UniqueNames(specs) { AllPlaced(specs, placed); }
      return;
    }
    var rest := Leftover(sorted, placed);
    if UniqueNames(specs) { LeftInOrder(specs, placed, rest); }
    ordered := ordered + Pick(index, rest);
  }

  lemma NamesKnown(specs: seq<StageSpec>)
    ensures forall x :: x in Sort(NamesOf(specs)) <==> x in SpecMap(specs)
  {
    SortElements(NamesOf(specs));
    SpecMapKeys(specs);
    forall x ensures x in Sort(NamesOf(specs)) <==> x in SpecMap(specs) {
      assert x in Sort(NamesOf(specs)) <==> x in Elements(Sort(NamesOf(specs)));
      if x in SpecMap(specs) {
        var i :| 0 <= i < |specs| && specs[i].name == x;
        assert NamesOf(specs)[i] == x;
      }
    }
  }

  lemma SortedNames(specs: seq<StageSpec>)
    requires UniqueNames(specs)
    ensures Increasing(Sort(NamesOf(specs)))
  {
    SortIncreasing(NamesOf(specs));
  }

  lemma GraphSize(specs: seq<StageSpec>)
    requires UniqueNames(specs)
    ensures |StagesGraph(specs).Keys| == |specs|
  {
    var names := NamesOf(specs);
    DistinctSize(names);
    NamesKnown(specs);
    SortElements(names);
    forall x ensures x in Elements(names) <==> x in StagesGraph(specs).Keys {
      assert x in Elements(names) <==> x in Elements(Sort(names));
    }
    assert Elements(names) == StagesGraph(specs).Keys;
  }

  lemma ReadyAtStart(lists: Lists, sorted: seq<string>, indegree: map<string, int>, ready: seq<string>)
    requires Degrees(lists, indegree, {}) && Increasing(ready)
    requires forall x :: x in sorted <==> x in lists
    requires forall x :: x in ready <==> x in sorted && Get(indegree, x, 0) == 0
    ensures Draining(lists, Queue(indegree, ready), [])
  {
    assert Elements(ready) == set n | n in lists && Get(indegree, n, 0) == 0;
    StartDraining(lists, Queue(indegree, ready));
  }

  lemma AllPlaced(specs: seq<StageSpec>, placed: seq<string>)
    requires UniqueNames(specs) && placed == Front(StagesGraph(specs), {}) && |placed| == |specs|
    requires forall x :: x in placed ==> x in SpecMap(specs)
    ensures Pick(SpecMap(specs), placed) == Ordered(specs)
  {
    GraphSize(specs);
    FullFront(StagesGraph(specs));
  }

  lemma LeftInOrder(specs: seq<StageSpec>, placed: seq<string>, rest: seq<string>)
    requires placed == Front(StagesGraph(specs), {}) && Increasing(rest)
    requires forall x :: x in placed ==> x in SpecMap(specs)
    requires forall x :: x in rest <==> x in SpecMap(specs) && x !in placed
    ensures Pick(SpecMap(specs), placed) + Pick(SpecMap(specs), rest) == Ordered(specs)
  {
    OrderFromRest(StagesGraph(specs), rest);
    PickBoth(SpecMap(specs), placed, rest);
  }

  lemma PickBoth(index: map<string, StageSpec>, a: seq<string>, b: seq<string>)
    requires forall n :: n in a || n in b ==> n in index
    ensures forall n :: n in a + b ==> n in index
    ensures Pick(index, a) + Pick(index, b) == Pick(index, a + b)
  {
  }

  lemma PickNames(index: map<string, StageSpec>, names: seq<string>)
    requires forall n :: n in names ==> n in index && index[n].name == n
    ensures NamesOf(Pick(index, names)) == names
    ensures Distinct(names) ==> UniqueNames(Pick(index, names))
  {
  }

  // ---- What the order promises about the specs ----

  lemma OrderedNames(specs: seq<StageSpec>)
    requires UniqueNames(specs)
    ensures NamesOf(Ordered(specs)) == Order(StagesGraph(specs))
    ensures UniqueNames(Ordered(specs))
  {
    var g, o := StagesGraph(specs), Order(StagesGraph(specs));
    SpecMapKeys(specs);
    OrderComplete(g);
    forall n | n in o ensures n in SpecMap(specs) { assert n in Elements(o); }
    PickNames(SpecMap(specs), o);
  }

  lemma OrderedMembers(specs: seq<StageSpec>)
    requires UniqueNames(specs)
    ensures forall s :: s in Ordered(specs) <==> s in specs
  {
    var r := Ordered(specs);
    forall s | s in r ensures s in specs {
      OrderedFromSpecs(specs, s);
    }
    forall k | 0 <= k < |specs| ensures specs[k] in r {
      SpecIsOrdered(specs, k);
    }
  }

  lemma OrderedFromSpecs(specs: seq<StageSpec>, s: StageSpec)
    requires s in Ordered(specs)
    ensures s in specs
  {
    OrderComplete(StagesGraph(specs));
    var o := Order(StagesGraph(specs));
    var i :| 0 <= i < |o| && Ordered(specs)[i] == s;
    assert o[i] in Elements(o);
    SpecMapKeys(specs);
  }

  lemma SpecIsOrdered(specs: seq<StageSpec>, k: nat)
    requires UniqueNames(specs) && k < |specs|
    ensures specs[k] in Ordered(specs)
  {
    OrderComplete(StagesGraph(specs));
    var o := Order(StagesGraph(specs));
    SpecMapUnique(specs, k);
    assert specs[k].name in Elements(o);
    var i :| 0 <= i < |o| && o[i] == specs[k].name;
    assert Ordered(specs)[i] == specs[k];
  }

  lemma {:induction false} SameMembers<T>(a: seq<T>, b: seq<T>)
    requires Distinct(a) && Distinct(b) && forall x :: x in a <==> x in b
    ensures multiset(a) == multiset(b)
  {
    forall x ensures multiset(a)[x] == multiset(b)[x] {
      CountDistinct(a, x);
      CountDistinct(b, x);
    }
  }

  lemma {:induction false} CountDistinct<T>(a: seq<T>, x: T)
    requires Distinct(a)
    ensures multiset(a)[x] == if x in a then 1 else 0
  {
    if |a| > 0 {
      assert a == [a[0]] + a[1..];
      CountDistinct(a[1..], x);
    }
  }

  /** Every spec comes out exactly once, cycles or not. */
  lemma OrderedIsPermutation(specs: seq<StageSpec>)
    requires UniqueNames(specs)
    ensures multiset(Ordered(specs)) == multiset(specs)
  {
    OrderedNames(specs);
    OrderedMembers(specs);
    SameMembers(Ordered(specs), specs);
  }

  /** The order does not depend on the order the specs are given in. */
  lemma OrderIgnoresInputOrder(specs: seq<StageSpec>, shuffled: seq<StageSpec>)
    requires UniqueNames(specs) && UniqueNames(shuffled)
    requires forall s :: s in specs <==> s in shuffled
    ensures Ordered(specs) == Ordered(shuffled)
  {
    SpecMapSame(specs, shuffled);
    SpecMapSame(shuffled, specs);
    assert SpecMap(specs) == SpecMap(shuffled);
  }

  lemma SpecMapSame(specs: seq<StageSpec>, shuffled: seq<StageSpec>)
    requires UniqueNames(specs) && UniqueNames(shuffled)
    requires forall s :: s in specs ==> s in shuffled
    ensures forall n :: n in SpecMap(specs) ==> n in SpecMap(shuffled) && SpecMap(shuffled)[n] == SpecMap(specs)[n]
  {
    SpecMapKeys(specs);
    forall n | n in SpecMap(specs)
      ensures n in SpecMap(shuffled) && SpecMap(shuffled)[n] == SpecMap(specs)[n]
    {
      var s := SpecMap(specs)[n];
      var k :| 0 <= k < |shuffled| && shuffled[k] == s;
      SpecMapUnique(shuffled, k);
    }
  }

  /** Sorting an already sorted plan changes nothing. */
  lemma OrderIdempotent(specs: seq<StageSpec>)
    requires UniqueNames(specs)
    ensures Ordered(Ordered(specs)) == Ordered(specs)
  {
    OrderedNames(specs);
    OrderedMembers(specs);
    OrderIgnoresInputOrder(Ordered(specs), specs);
  }

  /** No dependency-respecting listing of an acyclic plan comes lexicographically before the one produced. */
  lemma OrderedIsLeastTopological(specs: seq<StageSpec>, listing: seq<StageSpec>)
    requires UniqueNames(specs) && Acyclic(StagesGraph(specs))
    ensures IsTopological(StagesGraph(specs), NamesOf(Ordered(specs)))
    ensures IsTopological(StagesGraph(specs), NamesOf(listing)) ==> NoLater(NamesOf(Ordered(specs)), NamesOf(listing))
  {
    OrderedNames(specs);
    OrderIsTopological(StagesGraph(specs));
    if IsTopological(StagesGraph(specs), NamesOf(listing)) {
      OrderIsLeast(StagesGraph(specs), NamesOf(listing));
    }
  }
}
