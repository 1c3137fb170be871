/** The component order of `internal/model/types.go`: a second Kahn sort, over the selected delivery components. */
module Components {
  import opened Names
  import opened Kahn
  import opened Counting
  import opened Model
  import opened StageGraph

  datatype Delivery = Delivery(
    primaryComponent: string,
    selectedComponents: seq<string>,
    dependsOn: map<string, seq<string>>   // the components of the target, each with what it depends on
  )

  ghost function Selected(t: Delivery): seq<string> {
    if |t.selectedComponents| > 0 then t.selectedComponents
    else if t.primaryComponent != "" then [t.primaryComponent]
    else InOrder(t.dependsOn.Keys)
  }

  method SelectedComponentNames(t: Delivery) returns (names: seq<string>)
    ensures names == Selected(t)
    ensures t.selectedComponents != [] ==> names == t.selectedComponents
    ensures t.selectedComponents == [] && t.primaryComponent != "" ==> names == [t.primaryComponent]
    ensures t.selectedComponents == [] && t.primaryComponent == "" ==> Increasing(names) && Elements(names) == t.dependsOn.Keys
  {
    names := t.selectedComponents;
    if |names| == 0 && t.primaryComponent != "" {
      names := [t.primaryComponent];
    }
    if |names| == 0 {
      names := AnyOrder(t.dependsOn.Keys);
      SortIncreasing(names);
      SortElements(names);
      names := Sort(names);
    }
  }

  /** Ranging over the keys of a map: each key once, in no particular order. */
  method AnyOrder(keys: set<string>) returns (names: seq<string>)
    ensures Distinct(names) && Elements(names) == keys
  {
    names := [];
    var left := keys;
    while left != {}
      invariant left <= keys && Elements(names) == keys - left && Distinct(names)
      decreases left
    {
      var key :| key in left;
      assert key !in Elements(names);
      assert Elements(names + [key]) == Elements(names) + {key};
      names, left := names + [key], left - {key};
    }
  }

  /** What each selected component lists; a selected name without a component lists nothing. */
  ghost function SelectedLists(t: Delivery): Lists {
    map n | n in Selected(t) :: Get(t.dependsOn, n, [])
  }

  /** The tables after the first `i` selected components have been counted. */
  ghost function TablesUpTo(dependsOn: map<string, seq<string>>, selected: seq<string>, i: nat): Tables
    requires i <= |selected|
  {
    if i == 0 then Tables(map[], map[])
    else
      var n := selected[i - 1];
      RecordAll(TablesUpTo(dependsOn, selected, i - 1), Elements(selected), n, Get(dependsOn, n, []))
  }

  /** ... and the dependency lists that they describe. */
  ghost function ListsUpTo(dependsOn: map<string, seq<string>>, selected: seq<string>, i: nat): (lists: Lists)
    requires i <= |selected|
    ensures lists.Keys == Elements(selected)
  {
    if i == 0 then map n | n in Elements(selected) :: []
    else
      var l, n := ListsUpTo(dependsOn, selected, i - 1), selected[i - 1];
      l[n := l[n] + Get(dependsOn, n, [])]
  }

  lemma {:induction false} TablesCorrect(dependsOn: map<string, seq<string>>, selected: seq<string>, i: nat)
    requires i <= |selected|
    ensures Correct(ListsUpTo(dependsOn, selected, i), TablesUpTo(dependsOn, selected, i))
  {
    if i == 0 {
      NothingRecorded(ListsUpTo(dependsOn, selected, 0), Tables(map[], map[]));
    } else {
      var n := selected[i - 1];
      TablesCorrect(dependsOn, selected, i - 1);
      RecordAllCorrect(ListsUpTo(dependsOn, selected, i - 1), TablesUpTo(dependsOn, selected, i - 1), n, Get(dependsOn, n, []));
    }
  }

  lemma {:induction false} ListsUpToDistinct(dependsOn: map<string, seq<string>>, selected: seq<string>, i: nat, k: nat)
    requires Distinct(selected) && i <= |selected| && k < |selected|
    ensures selected[k] in ListsUpTo(dependsOn, selected, i)
    ensures ListsUpTo(dependsOn, selected, i)[selected[k]] == if k < i then Get(dependsOn, selected[k], []) else []
  {
    assert selected[k] in Elements(selected);
    if i > 0 {
      ListsUpToDistinct(dependsOn, selected, i - 1, k);
      var l, n := ListsUpTo(dependsOn, selected, i - 1), selected[i - 1];
      assert n in Elements(selected) && ListsUpTo(dependsOn, selected, i) == l[n := l[n] + Get(dependsOn, n, [])];
      assert k != i - 1 ==> n != selected[k];
    }
  }

  lemma ListsUpToAll(t: Delivery)
    requires Distinct(Selected(t))
    ensures ListsUpTo(t.dependsOn, Selected(t), |Selected(t)|) == SelectedLists(t)
  {
    var lists := ListsUpTo(t.dependsOn, Selected(t), |Selected(t)|);
    forall n | n in Selected(t) ensures n in lists && lists[n] == SelectedLists(t)[n] {
      var k :| 0 <= k < |Selected(t)| && Selected(t)[k] == n;
      ListsUpToDistinct(t.dependsOn, Selected(t), |Selected(t)|, k);
    }
  }

  method CountDependencies(t: Delivery, selected: seq<string>)
    returns (indegree: map<string, int>, dependents: map<string, seq<string>>)
    ensures Tables(indegree, dependents) == TablesUpTo(t.dependsOn, selected, |selected|)
  {
    indegree, dependents := map[], map[];
    for i := 0 to |selected|
      invariant Tables(indegree, dependents) == TablesUpTo(t.dependsOn, selected, i)
    {
      var name := selected[i];
      ghost var before := Tables(indegree, dependents);
      if name in t.dependsOn {
        var deps := t.dependsOn[name];
        for j := 0 to |deps|
          invariant Tables(indegree, dependents) == RecordAll(before, Elements(selected), name, deps[..j])
        {
          assert deps[..j + 1][..j] == deps[..j];
          if deps[j] in selected {
            indegree := indegree[name := Get(indegree, name, 0) + 1];
            dependents := dependents[deps[j] := Get(dependents, deps[j], []) + [name]];
          }
        }
        assert deps[..|deps|] == deps;
      }
    }
  }

  /** The queue starts with the selected names that have no counted dependency, in name order. */
  method InitialQueue(selected: seq<string>, indegree: map<string, int>) returns (queue: seq<string>)
    ensures forall x :: x in queue <==> x in selected && Get(indegree, x, 0) == 0
    ensures Distinct(selected) ==> Distinct(queue)
  {
    queue := [];
    for i := 0 to |selected|
      invariant forall x :: x in queue <==> x in selected[..i] && Get(indegree, x, 0) == 0
      invariant Distinct(selected) ==> Distinct(queue)
    {
      if Get(indegree, selected[i], 0) == 0 {
        forall k | 0 <= k < |queue| && Distinct(selected) ensures queue[k] != selected[i] {
          assert queue[k] in selected[..i];
        }
        queue := queue + [selected[i]];
      }
    }
    assert selected[..|selected|] == selected;
  }

  /** The main loop; unlike the stage order it tells the children in the order they were recorded. */
  method Drain(ghost lists: Lists, dependents: map<string, seq<string>>, indegree0: map<string, int>, queue0: seq<string>,
               ghost valid: bool) returns (ordered: seq<string>)
    requires valid ==> Inverse(lists, dependents) && Draining(lists, Queue(indegree0, queue0), [])
    ensures valid ==> ordered == Front(GraphOf(lists), {})
  {
    var indegree, queue := indegree0, queue0;
    ordered := [];
    while |queue| > 0
      invariant valid ==> Draining(lists, Queue(indegree, queue), ordered)
      decreases Waiting(indegree), |queue|
    {
      ghost var q := Queue(indegree, queue);
      var current := queue[0];
      queue := queue[1..];
      ghost var popped := Queue(indegree, queue);
      var children := Get(dependents, current, []);
      indegree, queue := TellChildren(indegree, queue, children);
      TellAllProgress(popped, children, Elements(popped.ready) + Elements(children));
      if valid { DrainStep(lists, dependents, q, ordered, children); }
      ordered := ordered + [current];
    }
    if valid { DrainedAll(lists, Queue(indegree, queue), ordered); }
  }

  ghost function SelectedGraph(t: Delivery): Graph {
    GraphOf(SelectedLists(t))
  }

  /**
   `OrderedSelectedComponentNames`.  On distinct names: the reference order of the selected
   components when their dependencies are acyclic, the selection unchanged when they are not.
   */
  method OrderedSelectedComponentNames(t: Delivery) returns (ordered: seq<string>)
    ensures Distinct(Selected(t)) && Acyclic(SelectedGraph(t)) ==> ordered == Order(SelectedGraph(t))
    ensures Distinct(Selected(t)) && !Acyclic(SelectedGraph(t)) ==> ordered == Selected(t)
  {
    var selected := SelectedComponentNames(t);
    ghost var valid := Distinct(selected);
    if |selected| <= 1 {
      if valid { FewSelected(t); }
      return selected;
    }
    var indegree, dependents := CountDependencies(t, selected);
    var queue := InitialQueue(selected, indegree);
    if valid { QueueAtStart(t, Tables(indegree, dependents), queue); }
    ordered := Drain(SelectedLists(t), dependents, indegree, Sort(queue), valid);
    if valid { LengthDecides(t); }
    if |ordered| != |selected| {
      return selected;
    }
  }

  lemma QueueAtStart(t: Delivery, tables: Tables, queue: seq<string>)
    requires Distinct(Selected(t)) && tables == TablesUpTo(t.dependsOn, Selected(t), |Selected(t)|)
    requires Distinct(queue) && forall x :: x in queue <==> x in Selected(t) && Get(tables.indegree, x, 0) == 0
    ensures Inverse(SelectedLists(t), tables.dependents)
    ensures Draining(SelectedLists(t), Queue(tables.indegree, Sort(queue)), [])
  {
    TablesCorrect(t.dependsOn, Selected(t), |Selected(t)|);
    ListsUpToAll(t);
    SortedQueue(SelectedLists(t), tables.indegree, queue);
  }

  lemma SortedQueue(lists: Lists, indegree: map<string, int>, queue: seq<string>)
    requires Degrees(lists, indegree, {}) && Distinct(queue)
    requires forall x :: x in queue <==> x in lists && Get(indegree, x, 0) == 0
    ensures Draining(lists, Queue(indegree, Sort(queue)), [])
  {
    SortIncreasing(queue);
    SortElements(queue);
    assert Elements(queue) == set n | n in lists && Get(indegree, n, 0) == 0;
    StartDraining(lists, Queue(indegree, Sort(queue)));
  }

  /** The drain emits as many names as were selected exactly when nothing is stuck. */
  lemma LengthDecides(t: Delivery)
    requires Distinct(Selected(t))
    ensures |Front(SelectedGraph(t), {})| == |Selected(t)| <==> Acyclic(SelectedGraph(t))
    ensures Acyclic(SelectedGraph(t)) ==> Order(SelectedGraph(t)) == Front(SelectedGraph(t), {})
  {
    var g := SelectedGraph(t);
    assert g.Keys == Elements(Selected(t));
    DistinctSize(Selected(t));
    AcyclicIffNothingStuck(g);
    FrontValid(g, {});
    DistinctSize(Front(g, {}));
    if Acyclic(g) {
      AcyclicOrder(g);
      assert Elements(Front(g, {})) == g.Keys;
    } else if |Front(g, {})| == |g.Keys| {
      SubsetEqual(Elements(Front(g, {})), g.Keys);
    }
  }

  /** At most one component: its order is the selection itself. */
  lemma FewSelected(t: Delivery)
    requires Distinct(Selected(t)) && |Selected(t)| <= 1
    ensures Acyclic(SelectedGraph(t)) ==> Selected(t) == Order(SelectedGraph(t))
  {
    var g := SelectedGraph(t);
    assert g.Keys == Elements(Selected(t));
    OrderComplete(g);
    DistinctSize(Selected(t));
    DistinctSize(Order(g));
    if |Selected(t)| == 1 {
      assert Selected(t)[0] in Elements(Order(g));
    }
  }

  /** The two sorts agree: stage specs that carry the selected names and their dependencies come out in the same order. */
  lemma TwoSortsAgree(t: Delivery, specs: seq<StageSpec>)
    requires Distinct(Selected(t)) && UniqueNames(specs)
    requires ListsOf(specs) == SelectedLists(t)
    ensures NamesOf(Ordered(specs)) == Order(SelectedGraph(t))
  {
    OrderedNames(specs);
  }
}
