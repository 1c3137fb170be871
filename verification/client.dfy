/** Whatever a client calls, in any order: the calls make up a history of the protocol. */
module Clients {
  import opened Plan
  import opened Protocol
  import opened WellFormedness
  import opened Reach
  import opened ControlPlane

  datatype Call =
    | EnqueueFromGitLab(listed: map<string, Issue>)
    | EnsureRunForIssue(issueID: string)
    | PersistPlan(runID: string, plan: ExecutionPlan)
    | Reconcile(filter: string)
    | ClaimNext(workerID: string, lease: int, allowed: seq<string>, issueID: string)
    | Heartbeat(id: string, lease: int)
    | Complete(id: string, result: string)
    | RecoverStuckRuns(maxAge: int)

  /** One call more, with what it has recorded. */
  lemma Grows(states: seq<State>, labels: seq<Label>, s: State, t: State, l: Label)
    requires HistoryTo(states, labels, s) && WellFormed(s) && Does(s, t, l)
    ensures HistoryTo(states + [t], labels + [l], t) && WellFormed(t)
  {
    HistoryGrows(states, labels, t, l);
    DoesKeepsWellFormed(s, t, l);
  }

  lemma ReconcileGrows(states: seq<State>, labels: seq<Label>, s: State, t: State, issueID: string)
    requires HistoryTo(states, labels, s) && Reconciled(s, t, issueID)
    ensures HistoryTo(states + [t], labels + [Label.Reconcile(issueID)], t)
  {
    HistoryGrows(states, labels, t, Label.Reconcile(issueID));
  }

  /** Every iteration of a reconcile is a step of its own. */
  lemma {:induction false} GrowsByChain(states0: seq<State>, labels0: seq<Label>, chain: seq<State>, order: seq<string>, i: nat)
    returns (states: seq<State>, labels: seq<Label>)
    requires Chain(chain, order) && i <= |order| && HistoryTo(states0, labels0, chain[0])
    ensures HistoryTo(states, labels, chain[i])
  {
    if i == 0 {
      states, labels := states0, labels0;
    } else {
      states, labels := GrowsByChain(states0, labels0, chain, order, i - 1);
      assert ReconciledAt(chain, order, i - 1);
      ReconcileGrows(states, labels, chain[i - 1], chain[i], order[i - 1]);
      states, labels := states + [chain[i]], labels + [Label.Reconcile(order[i - 1])];
    }
  }

  method Perform(service: Service, call: Call, ghost states0: seq<State>, ghost labels0: seq<Label>)
    returns (ghost states: seq<State>, ghost labels: seq<Label>)
    requires HistoryTo(states0, labels0, service.Snapshot()) && WellFormed(service.Snapshot())
    modifies service, service.locker, service.locker.clock
    ensures HistoryTo(states, labels, service.Snapshot()) && WellFormed(service.Snapshot())
  {
    ghost var s := service.Snapshot();
    ghost var l := Tick;
    match call {
      case EnqueueFromGitLab(listed) =>
        service.EnqueueFromGitLab(listed);
        l := Enqueue(listed);
      case EnsureRunForIssue(issueID) =>
        var run := service.EnsureRunForIssue(issueID);
        l := EnsureRun(issueID, run);
      case PersistPlan(runID, plan) =>
        if Usable(plan) {
          var ok := service.PersistPlan(runID, plan);
          if ok { l := Materialize(runID, plan); }
        }
      case ClaimNext(workerID, lease, allowed, issueID) =>
        var outcome := service.ClaimNext(workerID, lease, allowed, issueID);
        l := Claim(workerID, lease, allowed, issueID, outcome);
      case Heartbeat(id, lease) =>
        var ok, at := service.Heartbeat(id, lease);
        if ok { l := Label.Heartbeat(id, lease, at); }
      case Complete(id, result) =>
        var ok := service.Complete(id, result);
        if ok { l := Label.Complete(id, result); }
      case RecoverStuckRuns(maxAge) =>
        ghost var at := service.RecoverStuckRuns(maxAge);
        l := Recover(maxAge, at);
      case Reconcile(filter) =>
        var ok, chain, order := service.Reconcile(filter);
        if ok {
          states, labels := GrowsByChain(states0, labels0, chain, order, |order|);
          return states, labels;
        }
    }
    Grows(states0, labels0, s, service.Snapshot(), l);
    states, labels := states0 + [service.Snapshot()], labels0 + [l];
  }

  /** From a new service on, all calls together are a history that ends in its state. */
  method Serve(service: Service, calls: seq<Call>) returns (ghost states: seq<State>, ghost labels: seq<Label>)
    requires service.Snapshot() == INITIAL
    modifies service, service.locker, service.locker.clock
    ensures HistoryTo(states, labels, service.Snapshot()) && WellFormed(service.Snapshot())
  {
    states, labels := [INITIAL], [];
    for i := 0 to |calls|
      invariant HistoryTo(states, labels, service.Snapshot()) && WellFormed(service.Snapshot())
    {
      states, labels := Perform(service, calls[i], states, labels);
    }
  }
}
