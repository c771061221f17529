/**
 Reads through lagging replicas: the finalize countdown of scripts/settlement_sepolia_e2e.py and the
 single-batch finalizer scripts/finalize_batch_base_sepolia.py. A replica answers from some earlier
 state of the run; every read may come from a different one.
 */
module Replicas {
  import opened Totals
  import opened Ledger
  import opened Windows
  import opened Solvency
  import opened Outcomes
  import opened Words
  import Chain

  /** `v` is the state after some prefix of the run. */
  ghost predicate Stale(env: Env, s: State, ops: seq<Op>, v: State) {
    exists k :: 0 <= k <= |ops| && v == Run(env, s, ops[..k])
  }

  /** One polling attempt: the two replicas that answered, or an RPC error. */
  datatype Attempt = RpcError | Reads(first: State, second: State)
  datatype Eta = Now | Countdown(seconds: nat) | Fallback

  predicate Invisible(a: Attempt, id: BatchId) {
    a.Reads? && !IsFinalizable(a.first, id) && SecondsUntilFinalizable(a.second, id) == 0
  }

  /** `max(1, retries)`. */
  function Bound(retries: int): (n: nat)
    ensures n >= 1 && n >= retries && (n == 1 || n == retries)
  {
    if retries > 1 then retries else 1
  }

  /** The loop from attempt `k` on: its answer and the number of attempts made. */
  function Resolve(id: BatchId, attempts: seq<Attempt>, n: nat, k: nat): (Eta, nat)
    requires k < n <= |attempts|
    decreases n - k
  {
    match attempts[k]
    case RpcError => (Fallback, k + 1)
    case Reads(first, second) =>
      if IsFinalizable(first, id) then (Now, k + 1)
      else if SecondsUntilFinalizable(second, id) > 0 then (Countdown(SecondsUntilFinalizable(second, id)), k + 1)
      else if k + 1 == n then (Fallback, n)
      else Resolve(id, attempts, n, k + 1)
  }

  /** `_resolve_finalizable_eta`: poll until something is visible, at most `max(1, retries)` times. */
  method ResolveFinalizableEta(id: BatchId, attempts: seq<Attempt>, retries: int) returns (eta: Eta, used: nat)
    requires |attempts| >= Bound(retries)
    ensures (eta, used) == Resolve(id, attempts, Bound(retries), 0)
    ensures 1 <= used <= Bound(retries)
    ensures forall j :: 0 <= j < used - 1 ==> Invisible(attempts[j], id)
    ensures
      var last := attempts[used - 1];
      match eta
      case Now => last.Reads? && IsFinalizable(last.first, id)
      case Countdown(n) =>
        last.Reads? && !IsFinalizable(last.first, id) && n > 0 && n == SecondsUntilFinalizable(last.second, id)
      case Fallback => last.RpcError? || (used == Bound(retries) && Invisible(last, id))
  {
    used := 0;
    for attempt := 0 to Bound(retries)
      invariant used == attempt
      invariant forall j :: 0 <= j < used ==> Invisible(attempts[j], id)
      invariant attempt < Bound(retries) ==>
        Resolve(id, attempts, Bound(retries), attempt) == Resolve(id, attempts, Bound(retries), 0)
      invariant attempt == Bound(retries) ==> Resolve(id, attempts, Bound(retries), 0) == (Fallback, used)
    {
      used := attempt + 1;
      match attempts[attempt]
      case RpcError =>
        return Fallback, used;
      case Reads(first, second) =>
        if IsFinalizable(first, id) {
          return Now, used;
        }
        var secs := SecondsUntilFinalizable(second, id);
        if secs > 0 {
          return Countdown(secs), used;
        }
    }
    eta := Fallback;
  }

  lemma {:induction false} StaleSplit(env: Env, s: State, ops: seq<Op>, v: State) returns (k: nat)
    requires Stale(env, s, ops, v)
    ensures k <= |ops| && v == Run(env, s, ops[..k]) && Run(env, s, ops) == Run(env, v, ops[k..])
  {
    k :| 0 <= k <= |ops| && v == Run(env, s, ops[..k]);
    RunConcat(env, s, ops[..k], ops[k..]);
    assert ops[..k] + ops[k..] == ops;
  }

  /**
   A finalizable view, judged by the chain as it is now. The window is over there exactly when the batch is final
   already, or the seconds that had truly elapsed at the read and the unpaused seconds since reach it; and only a
   read taken inside a pause can be wrong.
   */
  lemma {:induction false} NowExactly(env: Env, s: State, ops: seq<Op>, k: nat, id: BatchId)
    requires Inv(s) && k <= |ops| && IsFinalizable(Run(env, s, ops[..k]), id)
    ensures NowVerdict(env, Run(env, s, ops[..k]), ops[k..], id)
    ensures Run(env, Run(env, s, ops[..k]), ops[k..]) == Run(env, s, ops)
  {
    var v := Run(env, s, ops[..k]);
    RunConcat(env, s, ops[..k], ops[k..]);
    assert ops[..k] + ops[k..] == ops;
    RunFacts(env, s, ops[..k]);
    RunFacts(env, v, ops[k..]);
    RunElapsed(env, v, ops[k..], id);
    ElapsedIsTrue(v, id);
  }

  ghost predicate NowVerdict(env: Env, v: State, since: seq<Op>, id: BatchId)
    requires id in v.batches
  {
    var last := Run(env, v, since);
    && (TrulyElapsed(last, id) <==>
        IsFinal(last, id) || TrueElapsed(v, v.batches[id]) + UnpausedSeconds(env, v, since) >= v.batches[id].window)
    && (!TrulyElapsed(last, id) ==> v.paused)
  }

  /** Every read of the loop was answered by a replica that had seen some prefix of the run. */
  ghost predicate FromReplicas(env: Env, s: State, ops: seq<Op>, attempts: seq<Attempt>) {
    forall k :: 0 <= k < |attempts| && attempts[k].Reads? ==>
      Stale(env, s, ops, attempts[k].first) && Stale(env, s, ops, attempts[k].second)
  }

  /**
   The answer "now" of the whole loop: it rests on one stale finalizable view, and is right about the chain exactly
   then.
   */
  lemma {:induction false} LoopNow(
    env: Env, s: State, ops: seq<Op>, id: BatchId, attempts: seq<Attempt>, n: nat, k: nat)
    requires Inv(s) && FromReplicas(env, s, ops, attempts) && k < n <= |attempts|
    requires Resolve(id, attempts, n, k).0.Now?
    ensures exists p :: 0 <= p <= |ops| && NowFrom(env, s, ops, id, p)
    decreases n - k
  {
    match attempts[k]
    case Reads(first, second) =>
      if IsFinalizable(first, id) {
        var p :| 0 <= p <= |ops| && first == Run(env, s, ops[..p]);
        NowExactly(env, s, ops, p, id);
        assert NowFrom(env, s, ops, id, p);
      } else {
        LoopNow(env, s, ops, id, attempts, n, k + 1);
      }
  }

  /** "Now" was read behind the first `p` transactions, with the verdict about the chain that follows. */
  ghost predicate NowFrom(env: Env, s: State, ops: seq<Op>, id: BatchId, p: nat)
    requires p <= |ops|
  {
    var v := Run(env, s, ops[..p]);
    IsFinalizable(v, id) && NowVerdict(env, v, ops[p..], id) && Run(env, v, ops[p..]) == Run(env, s, ops)
  }

  /** A countdown of the whole loop: some stale view really had the window open. */
  lemma {:induction false} LoopCountdown(
    env: Env, s: State, ops: seq<Op>, id: BatchId, attempts: seq<Attempt>, n: nat, k: nat)
    requires Inv(s) && FromReplicas(env, s, ops, attempts) && k < n <= |attempts|
    requires Resolve(id, attempts, n, k).0.Countdown?
    ensures exists v ::
              && Stale(env, s, ops, v) && id in v.batches && v.batches[id].status.Pending?
              && !TrulyElapsed(v, id)
              && Resolve(id, attempts, n, k).0.seconds == SecondsUntilFinalizable(v, id)
    decreases n - k
  {
    match attempts[k]
    case Reads(first, second) =>
      if SecondsUntilFinalizable(second, id) > 0 && !IsFinalizable(first, id) {
        CountdownIsSound(env, s, ops, second, id);
      } else {
        LoopCountdown(env, s, ops, id, attempts, n, k + 1);
      }
  }

  /**
   What "now" means at the state that was read. If it was not paused, the window has truly elapsed there and ever
   after. If it was, the answer is wrong there exactly when the running pause reaches over the seconds that are missing.
   */
  lemma {:induction false} NowIsSound(env: Env, s: State, ops: seq<Op>, v: State, id: BatchId)
    requires Inv(s) && Stale(env, s, ops, v) && IsFinalizable(v, id)
    ensures !v.paused ==> TrulyElapsed(Run(env, s, ops), id)
    ensures TrulyElapsed(v, id) ==> TrulyElapsed(Run(env, s, ops), id)
    ensures !TrulyElapsed(v, id) <==>
      && v.paused
      && TrueElapsed(v, v.batches[id]) < v.batches[id].window
      && v.batches[id].window <= TrueElapsed(v, v.batches[id]) + (v.now - v.pauseStartedAt)
  {
    var k := StaleSplit(env, s, ops, v);
    RunFacts(env, s, ops[..k]);
    ViewOverReportsExactly(v, id);
    if TrulyElapsed(v, id) {
      ElapsedForever(env, v, ops[k..], id);
    }
  }

  /** A countdown is printed only while the window of the state read was really open. */
  lemma {:induction false} CountdownIsSound(env: Env, s: State, ops: seq<Op>, v: State, id: BatchId)
    requires Inv(s) && Stale(env, s, ops, v) && SecondsUntilFinalizable(v, id) > 0
    ensures id in v.batches && v.batches[id].status.Pending? && !TrulyElapsed(v, id)
    ensures !v.paused ==> SecondsUntilFinalizable(v, id) == v.batches[id].window - TrueElapsed(v, v.batches[id])
  {
    var k := StaleSplit(env, s, ops, v);
    RunFacts(env, s, ops[..k]);
    ViewsAgree(v, id);
  }

  /** A batch no replica has seen looks exactly like an attempt to poll again, never like "now". */
  lemma {:induction false} UnseenIsInvisible(a: Attempt, id: BatchId)
    requires a.Reads? && id !in a.first.batches && id !in a.second.batches
    ensures Invisible(a, id)
  {
  }

  /**
   A pending batch that both replicas have seen is polled again exactly when the first one still has the window
   open and the second one has it over; one replica answering both reads always ends the polling.
   */
  lemma {:induction false} SeenIsVisible(a: Attempt, id: BatchId)
    requires a.Reads? && id in a.first.batches && id in a.second.batches
    requires a.first.batches[id].status.Pending? && a.second.batches[id].status.Pending?
    ensures Invisible(a, id) <==>
            Elapsed(a.first, a.first.batches[id]) < a.first.batches[id].window
            && a.second.batches[id].window <= Elapsed(a.second, a.second.batches[id])
    ensures a.first == a.second ==> !Invisible(a, id)
  {
  }

  /** The run where "now" is wrong: paused right after the commit, read an hour later. */
  lemma {:induction false} PausedReadWitness(env: Env, s: State, id: BatchId)
    requires Inv(s) && !s.paused && id in s.batches && s.batches[id].status.Pending?
    requires TrueElapsed(s, s.batches[id]) < s.batches[id].window
    ensures
      var later := Run(env, s, [PauseRegistry, Tick(s.batches[id].window)]);
      && IsFinalizable(later, id) && !TrulyElapsed(later, id)
      && !IsFinalizable(Next(env, later, UnpauseRegistry), id)
  {
    var tick := Tick(s.batches[id].window);
    var p := Next(env, s, PauseRegistry);
    assert [PauseRegistry, tick][1..] == [tick];
    assert Run(env, p, [tick]) == Next(env, p, tick);
    assert Run(env, s, [PauseRegistry, tick]) == Next(env, p, tick);
  }

  // ---- finalize_batch_base_sepolia.py ----

  const SCRIPT_POLLS := 10

  /** The batch read says PENDING, and the window read of another replica says finalizable. */
  ghost predicate ShownReady(batch: State, window: State, id: BatchId) {
    && id in batch.batches && batch.batches[id].status.Pending?
    && id in window.batches && window.batches[id].status.Pending?
    && Elapsed(window, window.batches[id]) >= window.batches[id].window
  }

  /** Decide on possibly stale views, send at most one transaction, then poll for the final status. */
  method FinalizeScript(
    chain: Chain.Contracts, batch: State, window: State, id: BatchId, checkOnly: bool, signer: Option<Account>,
    posts: seq<State>)
    returns (code: nat, submitted: bool)
    requires |posts| >= SCRIPT_POLLS
    modifies chain
    ensures IsFinal(batch, id) ==> code == 0 && !submitted
    ensures submitted <==>
              ShownReady(batch, window, id) && !checkOnly && signer == Some(batch.batches[id].provider)
    ensures !submitted && code == 0 <==> IsFinal(batch, id) || (checkOnly && id in batch.batches)
    ensures code == 2 <==> ShownReady(batch, window, id) && !checkOnly && signer == None
    ensures code <= 2
    ensures chain.View() == if submitted then Next(chain.env, old(chain.View()), Finalize(id)) else old(chain.View())
    ensures submitted ==>
      (code == 0 <==>
       Try(chain.env, old(chain.View()), Finalize(id)).Done?
       && exists i :: 0 <= i < SCRIPT_POLLS && IsFinal(posts[i], id))
  {
    submitted := false;
    if id !in batch.batches {
      return 1, false;
    }
    if batch.batches[id].status.Finalized? {
      return 0, false;
    }
    if !IsFinalizable(window, id) {
      return if checkOnly then 0 else 1, false;
    }
    if checkOnly {
      return 0, false;
    }
    if signer.None? {
      return 2, false;
    }
    if signer.value != batch.batches[id].provider {
      return 1, false;
    }
    submitted := true;
    var mined := chain.FinalizeBatch(id);
    if !mined {
      return 1, true;
    }
    for i := 0 to SCRIPT_POLLS
      invariant forall j :: 0 <= j < i ==> !IsFinal(posts[j], id)
    {
      if IsFinal(posts[i], id) {
        return 0, true;
      }
    }
    code := 1;
  }

  /**
   Stale views cannot mislead the script about whom it pays: if it submits on views of two replicas and the
   transaction goes through, the batch was unpaid, is now final, and its value moved to the signer's wallet.
   */
  lemma {:induction false} ScriptPaysSigner(
    env: Env, s: State, ops: seq<Op>, batch: State, window: State, id: BatchId, signer: Account)
    requires Inv(s) && Stale(env, s, ops, batch) && Stale(env, s, ops, window)
    requires ShownReady(batch, window, id) && batch.batches[id].provider == signer
    requires Try(env, Run(env, s, ops), Finalize(id)).Done?
    ensures
      var before := Run(env, s, ops);
      var after := Next(env, before, Finalize(id));
      && !IsFinal(before, id) && IsFinal(after, id)
      && Get(after.wallets, signer)
         == Get(before.wallets, signer) + (before.batches[id].total - before.batches[id].invalidated)
  {
    var k := StaleSplit(env, s, ops, batch);
    BatchesStay(env, batch, ops[k..], id);
    WalletStep(env, Run(env, s, ops), Finalize(id), signer);
    SettledStep(env, Run(env, s, ops), Finalize(id), id);
  }

  /** And if a stale view says FINALIZED, it is: exit 0 of `FinalizeScript` on a FINALIZED batch view is right. */
  lemma {:induction false} StaleFinalIsFinal(env: Env, s: State, ops: seq<Op>, view: State, id: BatchId)
    requires Stale(env, s, ops, view) && IsFinal(view, id)
    ensures IsFinal(Run(env, s, ops), id)
  {
    var k := StaleSplit(env, s, ops, view);
    ExactlyOnce(env, view, ops[k..], id);
  }
}
