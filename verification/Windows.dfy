/** The challenge window over whole runs, pauses included. */
module Windows {
  import opened Ledger

  /** Reference clock: the seconds of a run that pass while the registry is not paused. */
  ghost function UnpausedSeconds(env: Env, s: State, ops: seq<Op>): nat
    decreases ops
  {
    if ops == [] then 0
    else UnpausedIn(s, ops[0]) + UnpausedSeconds(env, Next(env, s, ops[0]), ops[1..])
  }

  ghost function UnpausedIn(s: State, op: Op): nat {
    if op.Tick? && !s.paused then op.seconds else 0
  }

  lemma {:induction false} StepElapsed(env: Env, s: State, op: Op, id: BatchId)
    requires Inv(s) && id in s.batches
    ensures id in Next(env, s, op).batches
    ensures TrueElapsed(Next(env, s, op), Next(env, s, op).batches[id])
            == TrueElapsed(s, s.batches[id]) + UnpausedIn(s, op)
  {
    EvolveStep(env, s, op, id);
    if !op.Tick? && !op.PauseRegistry? && !op.UnpauseRegistry? {
      OthersKeepTime(env, s, op);
    }
  }

  lemma {:induction false} RunElapsed(env: Env, s: State, ops: seq<Op>, id: BatchId)
    requires Inv(s) && id in s.batches
    ensures id in Run(env, s, ops).batches
    ensures TrueElapsed(Run(env, s, ops), Run(env, s, ops).batches[id])
         == TrueElapsed(s, s.batches[id]) + UnpausedSeconds(env, s, ops)
    decreases ops
  {
    if ops != [] {
      StepElapsed(env, s, ops[0], id);
      StepFacts(env, s, ops[0]);
      RunElapsed(env, Next(env, s, ops[0]), ops[1..], id);
    }
  }

  /** What the contract computes: exact when unpaused, too much by the running pause otherwise. */
  lemma {:induction false} ElapsedIsTrue(s: State, id: BatchId)
    requires Inv(s) && id in s.batches
    ensures Elapsed(s, s.batches[id]) == TrueElapsed(s, s.batches[id]) + PauseInProgress(s)
  {
  }

  /**
   The promise made at commit: whatever anyone does afterwards (pausing and changing the global window
   included), the batch keeps the window of its commit, finalizes only after that many unpaused seconds,
   and can be challenged only before.
   */
  lemma {:induction false} WindowPromise(env: Env, s: State, commit: Op, ops: seq<Op>)
    requires Inv(s) && commit.Commit? && Try(env, s, commit).Done?
    ensures
      var first := Next(env, s, commit);
      var last := Run(env, first, ops);
      var unpaused := UnpausedSeconds(env, first, ops);
      && commit.id in last.batches
      && last.batches[commit.id].window == s.window
      && Elapsed(last, last.batches[commit.id]) == unpaused + PauseInProgress(last)
      && (Try(env, last, Finalize(commit.id)).Done? ==> unpaused >= s.window)
      && (!last.paused ==> (IsFinalizable(last, commit.id) <==>
                            last.batches[commit.id].status.Pending? && unpaused >= s.window))
      && forall op: Op :: op.Challenge? && op.id == commit.id && Try(env, last, op).Done? ==> unpaused < s.window
  {
    var first := Next(env, s, commit);
    StepFacts(env, s, commit);
    RunElapsed(env, first, ops, commit.id);
    RunFacts(env, first, ops);
    ElapsedIsTrue(Run(env, first, ops), commit.id);
  }

  ghost predicate TrulyElapsed(s: State, id: BatchId) {
    id in s.batches && (s.batches[id].status.Finalized? || TrueElapsed(s, s.batches[id]) >= s.batches[id].window)
  }

  /** Once a window has truly elapsed it stays so; a batch never reopens. */
  lemma {:induction false} ElapsedForever(env: Env, s: State, ops: seq<Op>, id: BatchId)
    requires Inv(s) && TrulyElapsed(s, id)
    ensures TrulyElapsed(Run(env, s, ops), id)
  {
    RunElapsed(env, s, ops, id);
    RunFacts(env, s, ops);
  }

  /**
   Exactly when `isFinalizable` says yes although the window has not truly elapsed: a pause is running
   and the part of it counted so far reaches over the missing seconds.
   */
  lemma {:induction false} ViewOverReportsExactly(s: State, id: BatchId)
    requires Inv(s) && id in s.batches && s.batches[id].status.Pending?
    ensures
      var b := s.batches[id];
      IsFinalizable(s, id) && !TrulyElapsed(s, id) <==>
      s.paused && TrueElapsed(s, b) < b.window <= TrueElapsed(s, b) + (s.now - s.pauseStartedAt)
  {
    ElapsedIsTrue(s, id);
  }

  /** The remaining-time view and the finalizable view never contradict each other. */
  lemma {:induction false} ViewsAgree(s: State, id: BatchId)
    requires Inv(s)
    ensures SecondsUntilFinalizable(s, id) > 0 ==> !IsFinalizable(s, id) && !TrulyElapsed(s, id)
    ensures SecondsUntilFinalizable(s, id) > 0 && !s.paused ==>
      SecondsUntilFinalizable(s, id) == s.batches[id].window - TrueElapsed(s, s.batches[id])
  {
    if id in s.batches {
      ElapsedIsTrue(s, id);
    }
  }
}
