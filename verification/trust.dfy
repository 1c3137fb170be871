/** The trust that the code puts in its callers, without checking it: what comes of breaking it, and that none of it can be spared. */
module Trust {
  import opened Model
  import opened Protocol
  import opened Invariants
  import opened Steps

  // ---- Heartbeats ----

  /** A heartbeat keeps the locks safe exactly when it revives no lease, or no row has been stolen since. */
  lemma HeartbeatSafeIff(s: State, t: State, id: string, lease: int, at: int)
    requires Locking(s) && HeartbeatAt(s, t, id, lease, at)
    ensures Locking(t) <==> HarmlessHeartbeat(s, t, id, at + lease)
  {
    if HarmlessHeartbeat(s, t, id, at + lease) {
      HeartbeatLocking(s, t, id, lease, at);
    } else {
      var k :| k in s.attempts[id].lockKeys && !(k in s.locks && s.locks[k].owner == id);
      assert Live(t, id) && !Owns(t, id, k);
    }
  }

  /** A heartbeat that arrives before the lease expires is harmless. */
  lemma TimelyIsHarmless(s: State, t: State, id: string, lease: int, at: int)
    requires Locking(s) && HeartbeatAt(s, t, id, lease, at)
    requires s.attempts[id].status == Running ==> s.attempts[id].leaseExpiresAt.Some? && s.attempts[id].leaseExpiresAt.value >= at
    ensures HarmlessHeartbeat(s, t, id, at + lease)
  {
    if s.attempts[id].status == Running {
      forall k | k in s.attempts[id].lockKeys ensures k in s.locks && s.locks[k].owner == id {
        assert Live(s, id);
        assert Owns(s, id, k);
      }
    }
  }

  // ---- Completions ----

  /** A completion forgets nothing, and keeps the invariant, exactly when it does not turn a success into something else. */
  lemma CompletionSafeIff(s: State, t: State, id: string, result: string)
    requires Invariant(s) && Completed(s, t, id, result)
    ensures Extends(s, t) <==> HarmlessCompletion(s.attempts[id], result)
    ensures Invariant(t) && Extends(s, t) <==> HarmlessCompletion(s.attempts[id], result)
  {
    if HarmlessCompletion(s.attempts[id], result) {
      StepKeeps(s, t, Complete(id, result));
    } else {
      SuccessUndone(s, t, id, result);
    }
  }

  lemma SuccessUndone(s: State, t: State, id: string, result: string)
    requires Completed(s, t, id, result) && !HarmlessCompletion(s.attempts[id], result)
    ensures !Extends(s, t)
  {
    assert !SameAttempt(s.attempts[id], t.attempts[id]);
  }

  /** Completing an attempt in any status leaks no lock and takes none from a live attempt. */
  lemma CompletionKeepsLocking(s: State, t: State, id: string, result: string)
    requires Locking(s) && Completed(s, t, id, result)
    ensures Locking(t)
  {
    ReleaseLocking(s, t, {id});
  }

  // ---- Creation times ----

  /** Creating a run keeps all but one run of the issue finished exactly when it is created later than all of them. */
  lemma CreationSafeIff(s: State, t: State, issueID: string, r: Run)
    requires RunsSettled(s) && RunCreated(s, t, issueID, r) && r.id !in s.runs
    ensures RunsSettled(t) <==> LaterThanAll(s, issueID, r.createdAt)
  {
    if LaterThanAll(s, issueID, r.createdAt) {
      CreateRunSettled(s, t, issueID, r);
    } else {
      var q :| q in s.runs && s.runs[q].issueID == issueID && s.runs[q].createdAt >= r.createdAt;
      assert t.runs[q] == s.runs[q] && t.runs[r.id] == r && q != r.id;
      PendingIsUnfinished();
    }
  }

  lemma PendingIsUnfinished()
    ensures !RunStatusTerminal(RUN_PENDING) && !RunStatusTerminal(RUN_ACTIVE)
  {
    assert RUN_PENDING[0] == 'p' && RUN_ACTIVE[1] == 'c';
    assert RUN_AWAITING_APPROVAL[1] == 'w' && RUN_COMPLETED[1] == 'o' && RUN_FAILED[0] == 'f' && RUN_AWAITING_APPROVAL[0] == 'a';
  }

  // ---- All of it is needed ----

  /** Whatever the code does from a sound state, it stays sound and forgets nothing if and only if the caller could be trusted. */
  lemma TrustIsExact(s: State, t: State, l: Label)
    requires Invariant(s) && Does(s, t, l)
    ensures Invariant(t) && Extends(s, t) <==> Trusted(s, t, l)
  {
    if Trusted(s, t, l) {
      StepKeeps(s, t, l);
    } else {
      DistrustMatters(s, t, l);
    }
  }

  lemma DistrustMatters(s: State, t: State, l: Label)
    requires Locking(s) && RunsSettled(s) && GoodIds(s) && Does(s, t, l) && !Trusted(s, t, l)
    ensures !(Locking(t) && RunsSettled(t) && Extends(s, t))
  {
    match l
    case Heartbeat(id, lease, at) => HeartbeatSafeIff(s, t, id, lease, at);
    case Complete(id, result) => SuccessUndone(s, t, id, result);
    case EnsureRun(issueID, run) => CreationSafeIff(s, t, issueID, run.value);
    case _ =>
  }
}
