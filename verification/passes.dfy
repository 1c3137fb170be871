/** Whole passes of the reconcile loop at a fixed clock: their result does not depend on the order, and a second pass changes nothing. */
module Passes {
  import opened Names
  import opened Model
  import opened Protocol
  import opened Invariants
  import opened Queueing
  import opened Confluence

  /** The loop of `reconcile` visiting the issues in this order, the clock standing still. */
  ghost predicate Pass(states: seq<State>, order: seq<string>) {
    && |states| == |order| + 1 && Distinct(order)
    && forall i: nat :: i < |order| ==> VisitAt(states, order, i)
  }

  ghost predicate VisitAt(states: seq<State>, order: seq<string>, i: nat) {
    i < |order| && |states| == |order| + 1 && Visit(states[i], states[i + 1], order[i])
  }

  ghost predicate Visit(s: State, t: State, issueID: string) {
    Reconciled(s, t, issueID) && t.now == s.now
  }

  // ---- The result of carrying out decisions, by run ----

  /** The decisions for all issues of `visited`, taken in state `s`. */
  ghost function Decisions(s: State, visited: set<string>): map<string, Decision> {
    map id | id in VisitedRuns(s, visited) :: Decided(s, s.runs[id].issueID, s.runs[id])
  }

  ghost function VisitedRuns(s: State, visited: set<string>): set<string> {
    set id | id in s.runs && Visited(s, visited, s.runs[id])
  }

  ghost predicate Visited(s: State, visited: set<string>, r: Run) {
    r.issueID in visited && Acts(s, r.issueID, r)
  }

  ghost function NamesFor(d: map<string, Decision>, id: string): set<string> {
    if id in d then d[id].names else {}
  }

  ghost predicate SameBut(s: State, t: State) {
    && t == s.(runs := t.runs, issues := t.issues, attempts := t.attempts, counters := t.counters)
    && (t.attempts == s.attempts ==> t.counters == s.counters)
  }

  ghost predicate RunsAfter(s: State, t: State, d: map<string, Decision>) {
    && t.runs.Keys == s.runs.Keys
    && forall id :: id in s.runs ==> t.runs[id] == if id in d then s.runs[id].(status := d[id].status) else s.runs[id]
  }

  ghost predicate IssuesAfter(s: State, t: State, d: map<string, Decision>) {
    t.issues.Keys == s.issues.Keys && forall k :: k in s.issues ==> IssueAfter(s, t, d, k)
  }

  ghost predicate IssueAfter(s: State, t: State, d: map<string, Decision>, k: string)
    requires k in s.issues && k in t.issues
  {
    && (forall id :: id in d && IsOf(s, id, k) ==> t.issues[k] == s.issues[k].(labels := Relabel(s.issues[k].labels, d[id].status)))
    && ((forall id :: id in d ==> !IsOf(s, id, k)) ==> t.issues[k] == s.issues[k])
  }

  ghost predicate IsOf(s: State, id: string, k: string) {
    id in s.runs && s.runs[id].issueID == k
  }

  ghost predicate AttemptsKept(s: State, t: State) {
    && (forall id :: id in s.attempts ==> id in t.attempts && t.attempts[id] == s.attempts[id])
    && (forall id :: id in t.attempts && id !in s.attempts ==> t.attempts[id].runID in s.runs && t.attempts[id].status == Pending)
  }

  ghost predicate AttemptsAfter(s: State, t: State, d: map<string, Decision>) {
    AttemptsKept(s, t) && forall id :: id in s.runs ==> Adds(s, t, id, NamesFor(d, id))
  }

  ghost predicate After(s: State, t: State, d: map<string, Decision>) {
    SameBut(s, t) && RunsAfter(s, t, d) && IssuesAfter(s, t, d) && AttemptsAfter(s, t, d)
  }

  /** No decision concerns the issue. */
  ghost predicate Undecided(s: State, d: map<string, Decision>, k: string) {
    d.Keys <= s.runs.Keys && forall id :: id in d ==> !IsOf(s, id, k)
  }

  // ---- One decision more ----

  lemma MoreAttempts(s: State, t: State, u: State, d: map<string, Decision>, r: Run, one: Decision)
    requires r.id in s.runs && r.id !in d && AttemptsAfter(s, t, d) && AttemptsKept(t, u) && t.runs.Keys == s.runs.Keys
    requires Adds(t, u, r.id, one.names) && AddsOnlyTo(t, u, r.id)
    ensures AttemptsAfter(s, u, d[r.id := one])
  {
    forall id | id in s.runs ensures Adds(s, u, id, NamesFor(d[r.id := one], id)) {
      assert Adds(s, t, id, NamesFor(d, id));
      if id == r.id {
        AddsFirst(s, t, u, id, one.names);
      } else {
        AddsElsewhere(s, t, u, id, NamesFor(d, id), r.id);
      }
    }
  }

  lemma AddsFirst(s: State, t: State, u: State, runID: string, names: set<string>)
    requires Adds(s, t, runID, {}) && Adds(t, u, runID, names)
    ensures Adds(s, u, runID, names)
  {
    forall n | n in names ensures exists id :: AddedFor(s, u, runID, n, id) {
      var id :| AddedFor(t, u, runID, n, id);
      assert AddedFor(s, u, runID, n, id);
    }
  }

  lemma AddsElsewhere(s: State, t: State, u: State, runID: string, names: set<string>, other: string)
    requires Adds(s, t, runID, names) && AddsOnlyTo(t, u, other) && other != runID && AttemptsKept(t, u)
    ensures Adds(s, u, runID, names)
  {
    forall n | n in names ensures exists id :: AddedFor(s, u, runID, n, id) {
      var id :| AddedFor(s, t, runID, n, id);
      assert AddedFor(s, u, runID, n, id);
    }
  }

  lemma MoreIssues(s: State, t: State, u: State, d: map<string, Decision>, k: string, r: Run, one: Decision)
    requires IsOf(s, r.id, k) && k in s.issues && Undecided(s, d, k) && IssuesAfter(s, t, d)
    requires u.issues == t.issues[k := t.issues[k].(labels := Relabel(t.issues[k].labels, one.status))]
    ensures IssuesAfter(s, u, d[r.id := one])
  {
    assert IssueAfter(s, t, d, k);
    forall j | j in s.issues ensures IssueAfter(s, u, d[r.id := one], j) {
      assert IssueAfter(s, t, d, j);
      if j == k { ThisIssue(s, u, d, k, r.id, one); } else { OtherIssue(s, t, u, d, j, r.id, one); }
    }
  }

  lemma ThisIssue(s: State, u: State, d: map<string, Decision>, k: string, id: string, one: Decision)
    requires k in s.issues && k in u.issues && IsOf(s, id, k) && Undecided(s, d, k)
    requires u.issues[k] == s.issues[k].(labels := Relabel(s.issues[k].labels, one.status))
    ensures IssueAfter(s, u, d[id := one], k)
  {
    assert id in d[id := one];
  }

  lemma OtherIssue(s: State, t: State, u: State, d: map<string, Decision>, j: string, id: string, one: Decision)
    requires j in s.issues && j in t.issues && j in u.issues && !IsOf(s, id, j) && u.issues[j] == t.issues[j] && IssueAfter(s, t, d, j)
    ensures IssueAfter(s, u, d[id := one], j)
  {
    if forall x :: x in d[id := one] ==> !IsOf(s, x, j) {
      forall x | x in d ensures !IsOf(s, x, j) { assert x in d[id := one]; }
    }
  }

  lemma MoreRuns(s: State, t: State, u: State, d: map<string, Decision>, r: Run, one: Decision)
    requires r.id in s.runs && s.runs[r.id] == r && r.id !in d && RunsAfter(s, t, d) && u.runs == t.runs[r.id := r.(status := one.status)]
    ensures RunsAfter(s, u, d[r.id := one])
  {
  }

  lemma MoreSameBut(s: State, t: State, u: State, r: Run, one: Decision)
    requires SameBut(s, t) && AttemptsKept(s, t) && AttemptsKept(t, u) && Adds(t, u, r.id, one.names)
    requires one.names == {} ==> u.counters == t.counters
    requires u == t.(runs := u.runs, issues := u.issues, attempts := u.attempts, counters := u.counters)
    ensures SameBut(s, u)
  {
    if u.attempts == s.attempts {
      assert t.attempts == s.attempts;
      if n :| n in one.names {
        var id :| AddedFor(t, u, r.id, n, id);
      }
    }
  }

  lemma CarriesKeeps(t: State, u: State, k: string, r: Run, one: Decision)
    requires Carries(t, u, k, r, one) && r.id in t.runs
    ensures AttemptsKept(t, u)
  {
    forall id | id in u.attempts && id !in t.attempts ensures u.attempts[id].runID in t.runs && u.attempts[id].status == Pending {
      assert u.attempts[id].runID == r.id;
      assert IsQueued(u.attempts[id], r.id, u.attempts[id].stage);
    }
  }

  lemma OneMore(s: State, t: State, u: State, d: map<string, Decision>, k: string, r: Run, one: Decision)
    requires After(s, t, d) && IsOf(s, r.id, k) && s.runs[r.id] == r && k in s.issues && Undecided(s, d, k) && Carries(t, u, k, r, one)
    ensures After(s, u, d[r.id := one])
  {
    assert r.id !in d;
    CarriesKeeps(t, u, k, r, one);
    MoreRuns(s, t, u, d, r, one);
    MoreAttempts(s, t, u, d, r, one);
    MoreIssues(s, t, u, d, k, r, one);
    MoreSameBut(s, t, u, r, one);
  }

  // ---- An issue not decided yet is decided as at the start ----

  lemma LatestSame(s: State, t: State, d: map<string, Decision>, k: string, r: Run)
    requires RunsAfter(s, t, d) && Undecided(s, d, k)
    ensures Latest(t, k, r) <==> Latest(s, k, r)
  {
    forall id | id in s.runs ensures t.runs[id].createdAt == s.runs[id].createdAt && t.runs[id].issueID == s.runs[id].issueID { }
    forall id | IsOf(s, id, k) ensures t.runs[id] == s.runs[id] { }
    if Latest(t, k, r) { assert IsOf(s, r.id, k); }
    if Latest(s, k, r) { assert IsOf(s, r.id, k); }
  }

  lemma ActsSame(s: State, t: State, d: map<string, Decision>, k: string, r: Run)
    requires SameBut(s, t) && RunsAfter(s, t, d) && IssuesAfter(s, t, d) && Undecided(s, d, k)
    ensures Acts(t, k, r) <==> Acts(s, k, r)
    ensures k in s.issues ==> k in t.issues && t.issues[k] == s.issues[k]
  {
    LatestSame(s, t, d, k, r);
    assert k in s.issues ==> IssueAfter(s, t, d, k);
  }

  lemma RunningSame(s: State, t: State, n: string, at: int)
    requires AttemptsKept(s, t)
    ensures RunningAt(t.attempts, n, at) == RunningAt(s.attempts, n, at)
  {
  }

  lemma AttemptsSame(s: State, t: State, id: string)
    requires OnePerStage(s) && OnePerStage(t) && Adds(s, t, id, {})
    ensures Attempts(t, id) == Attempts(s, id)
  {
    forall n | n in Attempts(s, id) ensures n in Attempts(t, id) && Attempts(t, id)[n] == Attempts(s, id)[n] { KeptStatus(s, t, id, {}, n); }
    forall n | n in Attempts(t, id) ensures n in Attempts(s, id) { NothingElse(s, t, id, {}, n); }
    SameMap(Attempts(s, id), Attempts(t, id));
  }

  lemma SameInputs(s: State, t: State, k: string, r: Run)
    requires Acts(s, k, r) && Acts(t, k, r) && t.issues[k] == s.issues[k] && t.plans == s.plans && t.now == s.now
    requires Attempts(t, r.id) == Attempts(s, r.id) && forall n :: RunningAt(t.attempts, n, t.now) == RunningAt(s.attempts, n, s.now)
    ensures Decided(t, k, r) == Decided(s, k, r)
  {
    WithRoomSame(t.attempts, s.attempts, s.now, Evaluation0(s, s.issues[k], r, Attempts(s, r.id)).runnable);
    assert Offers(t, k, r) == Offers(s, k, r);
  }

  lemma DecidedTheSame(s: State, t: State, d: map<string, Decision>, k: string, r: Run)
    requires OnePerStage(s) && OnePerStage(t) && After(s, t, d) && Undecided(s, d, k) && Acts(s, k, r)
    ensures Acts(t, k, r) && Decided(t, k, r) == Decided(s, k, r)
  {
    ActsSame(s, t, d, k, r);
    assert Adds(s, t, r.id, NamesFor(d, r.id)) && IsOf(s, r.id, k);
    AttemptsSame(s, t, r.id);
    forall n ensures RunningAt(t.attempts, n, t.now) == RunningAt(s.attempts, n, s.now) { RunningSame(s, t, n, s.now); }
    SameInputs(s, t, k, r);
  }

  // ---- A pass carries out the decisions taken at its start ----

  lemma IdleVisit(t: State, u: State, k: string)
    requires Visit(t, u, k) && forall r :: !Acts(t, k, r)
    ensures u == t
  {
    if Considered(t.issues[k]) && !NoRun(t, k) {
      var r, m, accepted, after :| ReconciledWith(t, u, k, r, m, accepted, after);
      assert Acts(t, k, r);
    }
  }

  lemma DecisionsMore(s: State, visited: set<string>, k: string, r: Run)
    requires RunsSettled(s) && Acts(s, k, r)
    ensures Decisions(s, visited + {k}) == Decisions(s, visited)[r.id := Decided(s, k, r)]
  {
    VisitedMore(s, visited, k, r);
    MoreDecided(s, visited + {k}, visited, r.id);
  }

  lemma MoreDecided(s: State, v: set<string>, w: set<string>, id: string)
    requires VisitedRuns(s, v) == VisitedRuns(s, w) + {id}
    ensures id in Decisions(s, v) && Decisions(s, v) == Decisions(s, w)[id := Decisions(s, v)[id]]
  {
    forall x | x in VisitedRuns(s, w) ensures Decisions(s, v)[x] == Decisions(s, w)[x] { SameDecision(s, v, w, x); }
    OneKeyMore(Decisions(s, w), Decisions(s, v), id);
  }

  lemma SameDecision(s: State, v: set<string>, w: set<string>, id: string)
    requires id in VisitedRuns(s, v) && id in VisitedRuns(s, w)
    ensures Decisions(s, v)[id] == Decisions(s, w)[id]
  {
  }

  lemma OneKeyMore(m: map<string, Decision>, n: map<string, Decision>, id: string)
    requires n.Keys == m.Keys + {id} && forall x :: x in m ==> n[x] == m[x]
    ensures n == m[id := n[id]]
  {
  }

  lemma VisitedMore(s: State, visited: set<string>, k: string, r: Run)
    requires RunsSettled(s) && Acts(s, k, r)
    ensures VisitedRuns(s, visited + {k}) == VisitedRuns(s, visited) + {r.id}
  {
    forall id | id in s.runs && id != r.id ensures Visited(s, visited + {k}, s.runs[id]) == Visited(s, visited, s.runs[id]) {
      if Acts(s, k, s.runs[id]) { RunForced(s, k, r, s.runs[id]); }
    }
    assert Visited(s, visited + {k}, s.runs[r.id]);
  }

  lemma DecisionsIdle(s: State, visited: set<string>, k: string)
    requires forall id :: id in s.runs ==> !Acts(s, k, s.runs[id])
    ensures Decisions(s, visited + {k}) == Decisions(s, visited)
  {
    forall id | id in s.runs ensures Visited(s, visited + {k}, s.runs[id]) == Visited(s, visited, s.runs[id]) {
      IdleRun(s, visited, k, s.runs[id]);
    }
    SameDecided(s, visited + {k}, visited);
  }

  lemma IdleRun(s: State, visited: set<string>, k: string, r: Run)
    requires !Acts(s, k, r)
    ensures Visited(s, visited + {k}, r) == Visited(s, visited, r)
  {
  }

  lemma SameDecided(s: State, v: set<string>, w: set<string>)
    requires forall id :: id in s.runs ==> Visited(s, v, s.runs[id]) == Visited(s, w, s.runs[id])
    ensures Decisions(s, v) == Decisions(s, w)
  {
    assert VisitedRuns(s, v) == VisitedRuns(s, w);
  }

  lemma AfterOneMore(s: State, t: State, u: State, visited: set<string>, k: string)
    requires Structure(s) && Structure(t) && GoodIds(t) && After(s, t, Decisions(s, visited)) && k !in visited && Visit(t, u, k)
    ensures After(s, u, Decisions(s, visited + {k}))
  {
    var d := Decisions(s, visited);
    assert Undecided(s, d, k);
    if r :| Acts(s, k, r) {
      ActingVisit(s, t, u, d, k, r);
      DecisionsMore(s, visited, k, r);
    } else {
      forall r ensures !Acts(t, k, r) { ActsSame(s, t, d, k, r); }
      IdleVisit(t, u, k);
      DecisionsIdle(s, visited, k);
    }
  }

  lemma ActingVisit(s: State, t: State, u: State, d: map<string, Decision>, k: string, r: Run)
    requires OnePerStage(s) && Structure(t) && GoodIds(t) && After(s, t, d) && Undecided(s, d, k) && Acts(s, k, r) && Visit(t, u, k)
    ensures After(s, u, d[r.id := Decided(s, k, r)])
  {
    DecidedTheSame(s, t, d, k, r);
    ReconcileForced(t, u, k, r);
    OneMore(s, t, u, d, k, r, Decided(s, k, r));
  }

  lemma NothingDecided(s: State, visited: set<string>)
    requires visited == {}
    ensures After(s, s, Decisions(s, visited))
  {
    assert Decisions(s, visited) == map[];
    AfterNothing(s);
  }

  lemma AfterNothing(s: State)
    ensures After(s, s, map[])
  {
  }

  /** From `s`, the issues of `visited` have been decided and dealt with, and `t` is the result. */
  ghost predicate Done(s: State, t: State, visited: set<string>) {
    After(s, t, Decisions(s, visited)) && Structure(t) && GoodIds(t)
  }

  lemma {:induction false} PassIs(states: seq<State>, order: seq<string>, i: nat)
    requires Pass(states, order) && i <= |order| && Structure(states[0]) && GoodIds(states[0])
    ensures Done(states[0], states[i], Elements(order[..i]))
  {
    if i == 0 {
      NothingDecided(states[0], Elements(order[..0]));
    } else {
      PassIs(states, order, i - 1);
      PassStep(states, order, i - 1);
    }
  }

  lemma PassStep(states: seq<State>, order: seq<string>, i: nat)
    requires Pass(states, order) && i < |order| && Structure(states[0]) && Done(states[0], states[i], Elements(order[..i]))
    ensures Done(states[0], states[i + 1], Elements(order[..i + 1]))
  {
    NextElement(order, i);
    assert VisitAt(states, order, i);
    DoneOneMore(states[0], states[i], states[i + 1], Elements(order[..i]), order[i]);
  }

  lemma DoneOneMore(s: State, t: State, u: State, visited: set<string>, k: string)
    requires Structure(s) && Done(s, t, visited) && k !in visited && Visit(t, u, k)
    ensures Done(s, u, visited + {k})
  {
    AfterOneMore(s, t, u, visited, k);
    ReconcileKeeps(t, u, k);
  }

  lemma NextElement(order: seq<string>, i: nat)
    requires i < |order| && Distinct(order)
    ensures Elements(order[..i + 1]) == Elements(order[..i]) + {order[i]} && order[i] !in Elements(order[..i])
  {
    assert order[..i + 1] == order[..i] + [order[i]];
  }

  /** A pass over `order` that starts in `s` and ends in `t`. */
  ghost predicate PassLeads(s: State, order: seq<string>, t: State) {
    exists states :: Leads(s, order, t, states)
  }

  ghost predicate Leads(s: State, order: seq<string>, t: State, states: seq<State>) {
    Pass(states, order) && states[0] == s && states[|order|] == t
  }

  lemma PassDecides(s: State, order: seq<string>, t: State)
    requires Structure(s) && GoodIds(s) && PassLeads(s, order, t)
    ensures Done(s, t, Elements(order))
  {
    var states :| Leads(s, order, t, states);
    PassIs(states, order, |order|);
    assert order[..|order|] == order;
  }

  // ---- Order does not matter ----

  /** The same attempts under possibly different identifiers, and otherwise the same state but for the counters. */
  ghost predicate SameUpToIds(t: State, u: State) {
    u == t.(attempts := u.attempts, counters := u.counters) && exists f :: IsRenaming(t, u, f)
  }

  /** `f` takes the attempts of `t` to those of `u`, one to one, and the identifier is all that it changes. */
  ghost predicate IsRenaming(t: State, u: State, f: map<string, string>) {
    && f.Keys == t.attempts.Keys && f.Values == u.attempts.Keys
    && (forall a, b :: a in f && b in f && f[a] == f[b] ==> a == b)
    && (forall id :: id in f ==> Renamed(t, u, id, f[id]))
  }

  ghost predicate Renamed(t: State, u: State, id: string, other: string) {
    id in t.attempts && other in u.attempts && u.attempts[other].(id := "") == t.attempts[id].(id := "")
  }

  lemma SameAttemptsUpToIds(s: State, t: State, u: State, d: map<string, Decision>, id: string)
    requires AttemptsAfter(s, t, d) && AttemptsAfter(s, u, d) && id in t.attempts
    ensures HasPartner(t, u, id)
  {
    if id in s.attempts {
      assert Renamed(t, u, id, id);
    } else {
      var a := t.attempts[id];
      assert Adds(s, t, a.runID, NamesFor(d, a.runID)) && Adds(s, u, a.runID, NamesFor(d, a.runID));
      var other :| AddedFor(s, u, a.runID, a.stage, other);
      assert Renamed(t, u, id, other);
    }
  }

  ghost predicate HasPartner(t: State, u: State, id: string) {
    exists other :: Renamed(t, u, id, other)
  }

  ghost predicate AllMatched(t: State, u: State) {
    forall id {:trigger HasPartner(t, u, id)} :: id in t.attempts ==> HasPartner(t, u, id)
  }

  ghost function Partner(t: State, u: State, id: string): (other: string)
    requires HasPartner(t, u, id)
    ensures Renamed(t, u, id, other)
  {
    var other :| Renamed(t, u, id, other);
    other
  }

  /** Attempts with the same contents are for the same stage of the same run, and there is only one of those. */
  lemma RenamedOnce(t: State, u: State, a: string, b: string, other: string)
    requires OnePerStage(t) && Renamed(t, u, a, other) && Renamed(t, u, b, other)
    ensures a == b
  {
    assert t.attempts[a].(id := "") == t.attempts[b].(id := "");
    assert t.attempts[a].(id := "").stage == t.attempts[a].stage && t.attempts[b].(id := "").stage == t.attempts[b].stage;
    assert SameStage(t.attempts[a], t.attempts[b]);
  }

  lemma MatchedBothWays(t: State, u: State)
    requires OnePerStage(t) && OnePerStage(u) && AllMatched(t, u) && AllMatched(u, t)
    ensures exists f :: IsRenaming(t, u, f)
  {
    assert forall id :: id in t.attempts ==> HasPartner(t, u, id);
    var f := map id | id in t.attempts :: Partner(t, u, id);
    forall a, b | a in f && b in f && f[a] == f[b] ensures a == b { RenamedOnce(t, u, a, b, f[a]); }
    AllPartners(t, u, f);
    assert IsRenaming(t, u, f);
  }

  lemma AllPartners(t: State, u: State, f: map<string, string>)
    requires OnePerStage(u) && AllMatched(u, t)
    requires f.Keys == t.attempts.Keys && forall id :: id in f ==> Renamed(t, u, id, f[id])
    ensures f.Values == u.attempts.Keys
  {
    forall other | other in u.attempts ensures other in f.Values {
      assert HasPartner(u, t, other);
      PartnerOfPartner(t, u, f, other);
    }
    forall x | x in f.Values ensures x in u.attempts {
      var id :| id in f && f[id] == x;
      assert Renamed(t, u, id, f[id]);
    }
  }

  lemma PartnerOfPartner(t: State, u: State, f: map<string, string>, other: string)
    requires OnePerStage(u) && HasPartner(u, t, other)
    requires f.Keys == t.attempts.Keys && forall id :: id in f ==> Renamed(t, u, id, f[id])
    ensures other in f.Values
  {
    var id :| Renamed(u, t, other, id);
    assert Renamed(t, u, id, f[id]) && Renamed(u, t, f[id], id);
    RenamedOnce(u, t, other, f[id], id);
    assert f[id] in f.Values;
  }

  /** The order in which the issues are reconciled does not matter. */
  lemma ReconcileIsConfluent(s: State, order: seq<string>, t: State, another: seq<string>, u: State)
    requires Structure(s) && GoodIds(s) && Elements(order) == Elements(another)
    requires PassLeads(s, order, t) && PassLeads(s, another, u)
    ensures SameUpToIds(t, u)
  {
    PassDecides(s, order, t);
    PassDecides(s, another, u);
    SameDecisions(s, t, u, Decisions(s, Elements(order)));
  }

  lemma SameDecisions(s: State, t: State, u: State, d: map<string, Decision>)
    requires After(s, t, d) && After(s, u, d) && OnePerStage(t) && OnePerStage(u)
    ensures SameUpToIds(t, u)
  {
    SameAttemptSets(s, t, u, d);
    SameOutside(s, t, u, d);
  }

  lemma SameAttemptSets(s: State, t: State, u: State, d: map<string, Decision>)
    requires AttemptsAfter(s, t, d) && AttemptsAfter(s, u, d) && OnePerStage(t) && OnePerStage(u)
    ensures exists f :: IsRenaming(t, u, f)
  {
    forall id | id in t.attempts ensures HasPartner(t, u, id) { SameAttemptsUpToIds(s, t, u, d, id); }
    forall id | id in u.attempts ensures HasPartner(u, t, id) { SameAttemptsUpToIds(s, u, t, d, id); }
    MatchedBothWays(t, u);
  }

  lemma SameOutside(s: State, t: State, u: State, d: map<string, Decision>)
    requires SameBut(s, t) && RunsAfter(s, t, d) && IssuesAfter(s, t, d)
    requires SameBut(s, u) && RunsAfter(s, u, d) && IssuesAfter(s, u, d)
    ensures u == t.(attempts := u.attempts, counters := u.counters)
  {
    assert t.runs == u.runs;
    forall k | k in s.issues ensures t.issues[k] == u.issues[k] { SameIssue(s, t, u, d, k); }
  }

  lemma SameIssue(s: State, t: State, u: State, d: map<string, Decision>, k: string)
    requires k in s.issues && IssuesAfter(s, t, d) && IssuesAfter(s, u, d)
    ensures t.issues[k] == u.issues[k]
  {
    assert IssueAfter(s, t, d, k) && IssueAfter(s, u, d, k);
    if id :| id in d && IsOf(s, id, k) {
      assert t.issues[k] == s.issues[k].(labels := Relabel(s.issues[k].labels, d[id].status));
    }
  }

  // ---- Nor does it matter for giving up ----

  /** Whether an issue makes the loop give up was settled before the pass. */
  lemma UnplannedSame(s: State, t: State, d: map<string, Decision>, k: string)
    requires SameBut(s, t) && RunsAfter(s, t, d) && IssuesAfter(s, t, d) && Undecided(s, d, k)
    ensures Unplanned(t, k) <==> Unplanned(s, k)
  {
    forall r ensures LacksPlan(t, k, r) <==> LacksPlan(s, k, r) { LatestSame(s, t, d, k, r); }
    assert k in s.issues ==> IssueAfter(s, t, d, k);
  }

  lemma VisitedIsPlanned(s: State, t: State, k: string)
    requires RunsSettled(s) && Visit(s, t, k)
    ensures !Unplanned(s, k)
  {
    if Considered(s.issues[k]) && !NoRun(s, k) {
      var r, m, accepted, after :| ReconciledWith(s, t, k, r, m, accepted, after);
      forall q ensures !LacksPlan(s, k, q) {
        if Latest(s, k, q) { RunForced(s, k, r, q); }
      }
    }
  }

  /** At its place in the order an issue makes the loop give up exactly if it would have done so at the start. */
  lemma GivesUpAsAtStart(s: State, order: seq<string>, i: nat, t: State)
    requires Structure(s) && GoodIds(s) && Distinct(order) && i < |order| && PassLeads(s, order[..i], t)
    ensures Unplanned(t, order[i]) <==> Unplanned(s, order[i])
  {
    PassDecides(s, order[..i], t);
    NextElement(order, i);
    assert Undecided(s, Decisions(s, Elements(order[..i])), order[i]);
    UnplannedSame(s, t, Decisions(s, Elements(order[..i])), order[i]);
  }

  lemma CompletedPassIsPlanned(s: State, order: seq<string>, t: State, i: nat)
    requires Structure(s) && GoodIds(s) && PassLeads(s, order, t) && i < |order|
    ensures !Unplanned(s, order[i])
  {
    var states :| Leads(s, order, t, states);
    PassIs(states, order, i);
    assert VisitAt(states, order, i);
    VisitedIsPlanned(states[i], states[i + 1], order[i]);
    PassPart(states, order, i);
    GivesUpAsAtStart(s, order, i, states[i]);
  }

  lemma PassPart(states: seq<State>, order: seq<string>, i: nat)
    requires Pass(states, order) && i <= |order|
    ensures PassLeads(states[0], order[..i], states[i])
  {
    var part, front := states[..i + 1], order[..i];
    forall j: nat | j < i ensures VisitAt(part, front, j) { assert VisitAt(states, order, j); }
    assert Leads(states[0], front, states[i], part);
  }

  /** If a pass in one order gives up somewhere, no pass over the same issues comes to its end. */
  lemma GivingUpIgnoresOrder(s: State, order: seq<string>, i: nat, t: State, another: seq<string>, u: State)
    requires Structure(s) && GoodIds(s) && Distinct(order) && Elements(order) == Elements(another)
    requires i < |order| && PassLeads(s, order[..i], t) && Unplanned(t, order[i])
    ensures !PassLeads(s, another, u)
  {
    GivesUpAsAtStart(s, order, i, t);
    assert order[i] in Elements(another);
    var j :| 0 <= j < |another| && another[j] == order[i];
    if PassLeads(s, another, u) { CompletedPassIsPlanned(s, another, u, j); }
  }
}
