/**
 The bookkeeping both Kahn sorts share: how many listed dependencies of a node are still
 open, who is to be told when a node is placed, and why draining the sorted ready queue
 follows the reference order of the graph.
 */
module Counting {
  import opened Names
  import opened Kahn

  /** Each node with its dependencies as listed: repetitions and dangling names included. */
  type Lists = map<string, seq<string>>

  ghost function GraphOf(lists: Lists): Graph {
    map n | n in lists :: set d | d in lists[n] && d in lists
  }

  /** What indexing a Go map gives: the zero value when the key is missing. */
  function Get<T>(m: map<string, T>, k: string, zero: T): T {
    if k in m then m[k] else zero
  }

  /** How many entries of `deps` are open, repeated ones as often as they are listed. */
  ghost function OpenCount(deps: seq<string>, open: set<string>): nat {
    if |deps| == 0 then 0
    else OpenCount(deps[..|deps| - 1], open) + (if deps[|deps| - 1] in open then 1 else 0)
  }

  lemma {:induction false} OpenCountZero(deps: seq<string>, open: set<string>)
    ensures OpenCount(deps, open) == 0 <==> forall d :: d in deps ==> d !in open
  {
    if |deps| > 0 {
      OpenCountZero(deps[..|deps| - 1], open);
      assert deps == deps[..|deps| - 1] + [deps[|deps| - 1]];
    }
  }

  lemma {:induction false} OpenCountClose(deps: seq<string>, open: set<string>, x: string)
    requires x in open
    ensures OpenCount(deps, open) == OpenCount(deps, open - {x}) + multiset(deps)[x]
  {
    if |deps| > 0 {
      OpenCountClose(deps[..|deps| - 1], open, x);
      assert deps == deps[..|deps| - 1] + [deps[|deps| - 1]];
    }
  }

  ghost predicate Degrees(lists: Lists, indegree: map<string, int>, done: set<string>) {
    forall n :: n in lists ==> Get(indegree, n, 0) == OpenCount(lists[n], lists.Keys - done)
  }

  /** `dependents[d]` lists each node once per time it lists `d`. */
  ghost predicate Inverse(lists: Lists, dependents: map<string, seq<string>>) {
    && (forall d, n :: d in lists && n in Get(dependents, d, []) ==> n in lists)
    && (forall d, n {:trigger Listed(lists, dependents, d, n)} ::
         d in lists && n in lists ==> Listed(lists, dependents, d, n))
  }

  ghost predicate Listed(lists: Lists, dependents: map<string, seq<string>>, d: string, n: string)
    requires n in lists
  {
    multiset(Get(dependents, d, []))[n] == multiset(lists[n])[d]
  }

  ghost predicate ReadyIs(ready: seq<string>, s: set<string>) {
    Increasing(ready) && Elements(ready) == s
  }

  // ---- Building the two tables ----

  datatype Tables = Tables(indegree: map<string, int>, dependents: map<string, seq<string>>)

  /** Recording that `n` lists `d`: it counts only when `d` is a known node. */
  function Record(t: Tables, known: set<string>, n: string, d: string): Tables {
    if d in known then
      Tables(t.indegree[n := Get(t.indegree, n, 0) + 1], t.dependents[d := Get(t.dependents, d, []) + [n]])
    else t
  }

  function RecordAll(t: Tables, known: set<string>, n: string, deps: seq<string>): Tables {
    if |deps| == 0 then t
    else Record(RecordAll(t, known, n, deps[..|deps| - 1]), known, n, deps[|deps| - 1])
  }

  ghost predicate Correct(lists: Lists, t: Tables) {
    Degrees(lists, t.indegree, {}) && Inverse(lists, t.dependents)
  }

  lemma NothingRecorded(lists: Lists, t: Tables)
    requires t.dependents == map[]
    requires forall n :: n in lists ==> lists[n] == [] && Get(t.indegree, n, 0) == 0
    ensures Correct(lists, t)
  {
  }

  lemma RecordDegree(lists: Lists, t: Tables, n: string, d: string)
    requires n in lists && Correct(lists, t)
    ensures Degrees(lists[n := lists[n] + [d]], Record(t, lists.Keys, n, d).indegree, {})
  {
    var lists' := lists[n := lists[n] + [d]];
    assert lists'.Keys == lists.Keys;
    assert lists'[n][..|lists'[n]| - 1] == lists[n];
  }

  lemma RecordInverse(lists: Lists, t: Tables, n: string, d: string)
    requires n in lists && Correct(lists, t)
    ensures Inverse(lists[n := lists[n] + [d]], Record(t, lists.Keys, n, d).dependents)
  {
    var lists' := lists[n := lists[n] + [d]];
    var dependents, dependents' := t.dependents, Record(t, lists.Keys, n, d).dependents;
    forall e, m | e in lists' && m in lists' ensures Listed(lists', dependents', e, m) {
      assert Listed(lists, dependents, e, m);
      assert multiset(lists[n] + [d])[e] == multiset(lists[n])[e] + (if e == d then 1 else 0);
      if d in lists {
        var was := Get(dependents, d, []);
        assert multiset(was + [n])[m] == multiset(was)[m] + (if m == n then 1 else 0);
      }
    }
    forall e, m | e in lists' && m in Get(dependents', e, []) ensures m in lists' {
      if m !in Get(dependents, e, []) { assert m == n; }
    }
  }

  lemma {:induction false} RecordAllCorrect(lists: Lists, t: Tables, n: string, deps: seq<string>)
    requires n in lists && Correct(lists, t)
    ensures Correct(lists[n := lists[n] + deps], RecordAll(t, lists.Keys, n, deps))
  {
    if |deps| == 0 {
      assert lists[n] + deps == lists[n];
      assert lists[n := lists[n]] == lists;
    } else {
      var front, last := deps[..|deps| - 1], deps[|deps| - 1];
      RecordAllCorrect(lists, t, n, front);
      var lists1 := lists[n := lists[n] + front];
      assert lists1.Keys == lists.Keys;
      assert lists[n] + deps == lists1[n] + [last];
      assert lists[n := lists[n] + deps] == lists1[n := lists1[n] + [last]];
      RecordDegree(lists1, RecordAll(t, lists.Keys, n, front), n, last);
      RecordInverse(lists1, RecordAll(t, lists.Keys, n, front), n, last);
    }
  }

  // ---- Draining the ready queue ----

  datatype Queue = Queue(indegree: map<string, int>, ready: seq<string>)

  /** Telling one child that a dependency has been placed; at zero it joins the queue, which is sorted again. */
  function Tell(q: Queue, child: string): Queue {
    var indegree := q.indegree[child := Get(q.indegree, child, 0) - 1];
    Queue(indegree, if indegree[child] == 0 then Sort(q.ready + [child]) else q.ready)
  }

  function TellAll(q: Queue, told: seq<string>): Queue {
    if |told| == 0 then q else Tell(TellAll(q, told[..|told| - 1]), told[|told| - 1])
  }

  ghost function Waiting(indegree: map<string, int>): set<string> {
    set n | n in indegree && indegree[n] > 0
  }

  /** Telling children either queues a node that was waiting or leaves the queue alone; so draining ends. */
  lemma {:induction false} TellAllProgress(q: Queue, told: seq<string>, known: set<string>)
    requires (forall x :: x in q.ready ==> x in known) && (forall x :: x in told ==> x in known)
    ensures Waiting(TellAll(q, told).indegree) <= Waiting(q.indegree)
    ensures Waiting(TellAll(q, told).indegree) == Waiting(q.indegree) ==> TellAll(q, told).ready == q.ready
    ensures forall x :: x in TellAll(q, told).ready ==> x in known
  {
    if |told| > 0 {
      var front, child := told[..|told| - 1], told[|told| - 1];
      TellAllProgress(q, front, known);
      var q1 := TellAll(q, front);
      if Tell(q1, child).indegree[child] == 0 {
        assert child in Waiting(q1.indegree) && child !in Waiting(Tell(q1, child).indegree);
        SortElements(q1.ready + [child]);
        forall x | x in Sort(q1.ready + [child]) ensures x in known {
          assert x in Elements(Sort(q1.ready + [child]));
        }
      }
    }
  }

  /** Between two pops: `placed` is the part of the reference order emitted so far. */
  ghost predicate Draining(lists: Lists, q: Queue, placed: seq<string>) {
    var g, done := GraphOf(lists), Elements(placed);
    && placed + Front(g, done) == Front(g, {})
    && Degrees(lists, q.indegree, done)
    && ReadyIs(q.ready, Available(g, done))
    && (forall n :: n in done ==> n in g && g[n] <= done)
  }

  /** After a pop: `free` is the rest of the queue, `open` the nodes not placed before, `told` the children told so far. */
  ghost predicate Releasing(lists: Lists, q: Queue, open: set<string>, free: set<string>, told: seq<string>) {
    && (forall n :: n in lists ==> Get(q.indegree, n, 0) == OpenCount(lists[n], open) - multiset(told)[n])
    && ReadyIs(q.ready, Released(q.indegree, free, told))
  }

  ghost function Released(indegree: map<string, int>, free: set<string>, told: seq<string>): set<string> {
    free + set n | n in told && Get(indegree, n, 0) == 0
  }

  /** The nodes left in the queue have no open dependency. */
  ghost predicate NothingOpen(lists: Lists, open: set<string>, free: set<string>) {
    forall n :: n in free ==> n in lists && OpenCount(lists[n], open) == 0
  }

  lemma AvailableIsZero(lists: Lists, done: set<string>, n: string)
    requires n in lists
    ensures n in Available(GraphOf(lists), done) <==> n !in done && OpenCount(lists[n], lists.Keys - done) == 0
  {
    OpenCountZero(lists[n], lists.Keys - done);
    var g := GraphOf(lists);
    if forall d :: d in lists[n] ==> d !in lists.Keys - done {
      assert g[n] <= done;
    } else {
      var d :| d in lists[n] && d in lists.Keys - done;
      assert d in g[n];
    }
  }

  lemma StartDraining(lists: Lists, q: Queue)
    requires Degrees(lists, q.indegree, {})
    requires ReadyIs(q.ready, set n | n in lists && Get(q.indegree, n, 0) == 0)
    ensures Draining(lists, q, [])
  {
    var indegree := q.indegree;
    var none: seq<string> := [];
    assert Elements(none) == {} && none + Front(GraphOf(lists), {}) == Front(GraphOf(lists), {});
    forall n | n in lists ensures n in Available(GraphOf(lists), {}) <==> Get(indegree, n, 0) == 0 {
      AvailableIsZero(lists, {}, n);
    }
    assert Available(GraphOf(lists), {}) == set n | n in lists && Get(indegree, n, 0) == 0;
  }

  /** The head of the ready queue is the next name of the reference order. */
  lemma PopNext(lists: Lists, q: Queue, placed: seq<string>)
    requires Draining(lists, q, placed) && |q.ready| > 0
    ensures var g, done, name := GraphOf(lists), Elements(placed), q.ready[0];
      && name in Available(g, done)
      && placed + [name] + Front(g, done + {name}) == Front(g, {})
      && Releasing(lists, q.(ready := q.ready[1..]), lists.Keys - done, Available(g, done) - {name}, [])
      && NothingOpen(lists, lists.Keys - done, Available(g, done) - {name})
  {
    var g, done := GraphOf(lists), Elements(placed);
    var ready, name := q.ready, q.ready[0];
    assert name in Elements(ready);
    assert IsLeast(name, Available(g, done)) by {
      forall m | m in Available(g, done) && m != name ensures Less(name, m) {
        assert m in Elements(ready);
      }
    }
    LeastUnique(name, Available(g, done));
    assert Front(g, done) == [name] + Front(g, done + {name});
    assert placed + [name] + Front(g, done + {name}) == placed + Front(g, done);
    IncreasingDistinct(ready);
    assert Elements(ready[1..]) == Elements(ready) - {name};
    assert Released(q.indegree, Available(g, done) - {name}, []) == Available(g, done) - {name};
    forall n | n in Available(g, done) ensures OpenCount(lists[n], lists.Keys - done) == 0 {
      AvailableIsZero(lists, done, n);
    }
  }

  /** `children` lists each node once per time it lists `name` as a dependency. */
  ghost predicate ChildrenOf(lists: Lists, name: string, children: seq<string>) {
    && (forall n :: n in children ==> n in lists)
    && (forall n :: n in lists ==> multiset(children)[n] == multiset(lists[n])[name])
  }

  lemma InverseChildren(lists: Lists, dependents: map<string, seq<string>>, name: string, children: seq<string>)
    requires Inverse(lists, dependents) && name in lists
    requires multiset(children) == multiset(Get(dependents, name, []))
    ensures ChildrenOf(lists, name, children)
  {
    forall n | n in children ensures n in lists {
      assert n in multiset(children);
    }
    forall n | n in lists ensures multiset(children)[n] == multiset(lists[n])[name] {
      assert Listed(lists, dependents, name, n);
    }
  }

  lemma PrefixCount(s: seq<string>, c: nat)
    requires c < |s|
    ensures multiset(s[..c])[s[c]] < multiset(s)[s[c]]
  {
    assert s == s[..c] + [s[c]] + s[c + 1..];
  }

  /** A child still to be told has `name` among its open dependencies, so it is not in the queue yet. */
  lemma ChildStillOpen(lists: Lists, q: Queue, open: set<string>, free: set<string>, name: string, children: seq<string>, c: nat)
    requires name in open && ChildrenOf(lists, name, children) && c < |children|
    requires Releasing(lists, q, open, free, children[..c]) && NothingOpen(lists, open, free)
    ensures children[c] in lists && Get(q.indegree, children[c], 0) > 0
    ensures children[c] !in Elements(q.ready)
  {
    PrefixCount(children, c);
    OpenCountClose(lists[children[c]], open, name);
  }

  /** Telling one more child: its counter drops, and at zero it joins the queue for the first time. */
  lemma TellChild(lists: Lists, q: Queue, open: set<string>, free: set<string>, told: seq<string>, child: string)
    requires Releasing(lists, q, open, free, told)
    requires child in lists && Get(q.indegree, child, 0) > 0 && child !in Elements(q.ready)
    ensures Releasing(lists, Tell(q, child), open, free, told + [child])
  {
    var indegree' := Tell(q, child).indegree;
    ReleasedStep(q.indegree, free, told, child);
    if indegree'[child] == 0 { JoinQueue(q.ready, child); }
    forall n | n in lists
      ensures Get(indegree', n, 0) == OpenCount(lists[n], open) - multiset(told + [child])[n]
    {
      assert multiset(told + [child])[n] == multiset(told)[n] + (if n == child then 1 else 0);
    }
  }

  lemma ReleasedStep(indegree: map<string, int>, free: set<string>, told: seq<string>, child: string)
    requires Get(indegree, child, 0) > 0
    ensures var indegree' := indegree[child := Get(indegree, child, 0) - 1];
      Released(indegree', free, told + [child])
      == Released(indegree, free, told) + (if indegree'[child] == 0 then {child} else {})
  {
    var indegree' := indegree[child := Get(indegree, child, 0) - 1];
    var zero := set n | n in told && Get(indegree, n, 0) == 0;
    var zero' := set n | n in told + [child] && Get(indegree', n, 0) == 0;
    assert zero' == zero + (if indegree'[child] == 0 then {child} else {});
  }

  lemma JoinQueue(ready: seq<string>, child: string)
    requires Increasing(ready) && child !in Elements(ready)
    ensures ReadyIs(Sort(ready + [child]), Elements(ready) + {child})
  {
    IncreasingDistinct(ready);
    SortIncreasing(ready + [child]);
    SortElements(ready + [child]);
    assert Elements(ready + [child]) == Elements(ready) + {child};
  }

  lemma TellAllStep(q: Queue, children: seq<string>, c: nat)
    requires c < |children|
    ensures TellAll(q, children[..c + 1]) == Tell(TellAll(q, children[..c]), children[c])
  {
    assert children[..c + 1][..c] == children[..c];
  }

  lemma {:induction false} TellAllReleases(lists: Lists, q: Queue, open: set<string>, free: set<string>,
                                           name: string, children: seq<string>, c: nat)
    requires name in open && ChildrenOf(lists, name, children) && c <= |children|
    requires Releasing(lists, q, open, free, []) && NothingOpen(lists, open, free)
    ensures Releasing(lists, TellAll(q, children[..c]), open, free, children[..c])
  {
    if c == 0 {
      assert children[..c] == [];
    } else {
      var k := c - 1;
      TellAllReleases(lists, q, open, free, name, children, k);
      ChildStillOpen(lists, TellAll(q, children[..k]), open, free, name, children, k);
      TellChild(lists, TellAll(q, children[..k]), open, free, children[..k], children[k]);
      assert children[..c] == children[..k] + [children[k]];
      TellAllStep(q, children, k);
    }
  }

  /** Once all children are told the counters and the queue are right for the larger prefix. */
  lemma AllTold(lists: Lists, q: Queue, placed: seq<string>, name: string, children: seq<string>)
    requires name in Available(GraphOf(lists), Elements(placed)) && ChildrenOf(lists, name, children)
    requires var g, done := GraphOf(lists), Elements(placed);
      && Releasing(lists, q, lists.Keys - done, Available(g, done) - {name}, children)
      && placed + [name] + Front(g, done + {name}) == Front(g, {})
      && forall n :: n in done ==> n in g && g[n] <= done
    ensures Draining(lists, q, placed + [name])
  {
    var g, done := GraphOf(lists), Elements(placed);
    var done' := Elements(placed + [name]);
    assert done' == done + {name};
    var open := lists.Keys - done;
    assert lists.Keys - done' == open - {name};
    forall n | n in lists
      ensures Get(q.indegree, n, 0) == OpenCount(lists[n], lists.Keys - done')
    {
      OpenCountClose(lists[n], open, name);
    }
    assert Degrees(lists, q.indegree, done');
    assert Available(g, done') == Released(q.indegree, Available(g, done) - {name}, children) by {
      AvailableAfter(lists, q.indegree, done, name, children);
    }
  }

  lemma AvailableAfter(lists: Lists, indegree: map<string, int>, done: set<string>, name: string, children: seq<string>)
    requires name in Available(GraphOf(lists), done) && ChildrenOf(lists, name, children)
    requires Degrees(lists, indegree, done + {name})
    requires forall n :: n in done ==> n in lists && GraphOf(lists)[n] <= done
    ensures Available(GraphOf(lists), done + {name})
         == Released(indegree, Available(GraphOf(lists), done) - {name}, children)
  {
    var g := GraphOf(lists);
    forall n ensures n in Available(g, done + {name}) <==> n in Released(indegree, Available(g, done) - {name}, children) {
      if n in lists {
        AvailableIsZero(lists, done + {name}, n);
        assert n in children <==> n in multiset(children);
        assert name in lists[n] <==> name in multiset(lists[n]);
        if n in children {
          assert name in g[n];
        }
      }
    }
  }

  /** One turn of the main loop: pop the head, emit it, tell its children. */
  lemma DrainStep(lists: Lists, dependents: map<string, seq<string>>, q: Queue, placed: seq<string>, children: seq<string>)
    requires Inverse(lists, dependents) && Draining(lists, q, placed) && |q.ready| > 0
    requires multiset(children) == multiset(Get(dependents, q.ready[0], []))
    ensures Draining(lists, TellAll(q.(ready := q.ready[1..]), children), placed + [q.ready[0]])
  {
    var g, done, name := GraphOf(lists), Elements(placed), q.ready[0];
    PopNext(lists, q, placed);
    InverseChildren(lists, dependents, name, children);
    var popped := q.(ready := q.ready[1..]);
    TellAllReleases(lists, popped, lists.Keys - done, Available(g, done) - {name}, name, children, |children|);
    assert children[..|children|] == children;
    AllTold(lists, TellAll(popped, children), placed, name, children);
  }

  /** An empty queue means the whole reachable part has been emitted. */
  lemma DrainedAll(lists: Lists, q: Queue, placed: seq<string>)
    requires Draining(lists, q, placed) && q.ready == []
    ensures placed == Front(GraphOf(lists), {})
  {
    assert Available(GraphOf(lists), Elements(placed)) == {};
    assert placed + [] == placed;
  }
}
