/**
 The publisher-key anchor read through a client cache and lagging replicas:
 scripts/sprint_675_register_operator_pubkey.py, prsm/security/publisher_key_anchor/client.py,
 contracts/contracts/PublisherKeyAnchor.sol.
 */
module Anchor {
  import opened Words
  import opened Outcomes

  type NodeId = Bytes
  type Key = Bytes

  // ---- The contract ----

  type Registry = map<NodeId, Key>

  datatype Step = Register(node: NodeId, key: Key) | Override(node: NodeId, key: Key)

  /** Registration is write-once; only the admin override replaces a key; keys are 32 bytes. */
  function Apply(r: Registry, step: Step): Registry {
    if |step.key| != 32 then r
    else match step
      case Register(node, key) => if node in r then r else r[node := key]
      case Override(node, key) => if node in r then r[node := key] else r
  }

  /** A transaction concerns one node: it registers a 32-byte key where none is, or overrides one that is there. */
  lemma {:induction false} ApplyExactly(r: Registry, step: Step, node: NodeId)
    ensures Answer(Apply(r, step), node) ==
            if step.node == node && |step.key| == 32 && (step.Register? <==> node !in r) then step.key
            else Answer(r, node)
    ensures node in Apply(r, step) <==>
              node in r || (step.Register? && step.node == node && |step.key| == 32)
  {
  }

  function ApplyAll(r: Registry, steps: seq<Step>): Registry
    decreases steps
  {
    if steps == [] then r else ApplyAll(Apply(r, steps[0]), steps[1..])
  }

  /** What a replica that has seen `steps` answers: the key, or nothing. */
  function Answer(r: Registry, node: NodeId): Bytes {
    if node in r then r[node] else []
  }

  ghost predicate KeysOk(r: Registry) {
    forall n :: n in r ==> |r[n]| == 32
  }

  lemma {:induction false} KeysStayOk(r: Registry, steps: seq<Step>)
    requires KeysOk(r)
    ensures KeysOk(ApplyAll(r, steps))
    decreases steps
  {
    if steps != [] {
      KeysStayOk(Apply(r, steps[0]), steps[1..]);
    }
  }

  /** Without an override a registered key stays the registered key. */
  lemma {:induction false} WriteOnce(r: Registry, steps: seq<Step>, node: NodeId)
    requires node in r
    requires forall st :: st in steps && st.Override? ==> st.node != node
    ensures node in ApplyAll(r, steps) && ApplyAll(r, steps)[node] == r[node]
    decreases steps
  {
    if steps != [] {
      assert steps[0] in steps;
      WriteOnce(Apply(r, steps[0]), steps[1..], node);
    }
  }

  lemma {:induction false} ApplyConcat(r: Registry, a: seq<Step>, b: seq<Step>)
    ensures ApplyAll(r, a + b) == ApplyAll(ApplyAll(r, a), b)
    decreases a
  {
    if a == [] {
      assert a + b == b;
    } else {
      assert (a + b)[1..] == a[1..] + b;
      ApplyConcat(Apply(r, a[0]), a[1..], b);
    }
  }

  // ---- The client ----

  datatype Entry = Entry(value: Option<Key>, expires: nat)

  /** One contract call: a transport error, or the raw bytes of some replica. */
  datatype Rpc = Failed | Raw(bytes: Bytes)

  /** The first call that went through among the first `n`. */
  function FirstRaw(calls: seq<Rpc>, n: nat): Option<Bytes>
    decreases n
  {
    if n == 0 || calls == [] then None
    else if calls[0].Raw? then Some(calls[0].bytes)
    else FirstRaw(calls[1..], n - 1)
  }

  /** What a lookup without cache makes of the calls; `Raised` is AnchorRPCError. */
  function FreshRead(calls: seq<Rpc>, n: nat): Result<Option<Key>> {
    var raw := FirstRaw(calls, n);
    if raw.None? then Raised
    else if raw.value == [] then Ok(None)
    else if |raw.value| != 32 then Raised
    else Ok(Some(raw.value))
  }

  /** Call `i` is the first that went through, and it is within the `n` attempts. */
  ghost predicate FirstAnswer(calls: seq<Rpc>, n: nat, i: int) {
    0 <= i < n && i < |calls| && calls[i].Raw? && forall j :: 0 <= j < i ==> calls[j].Failed?
  }

  /**
   A lookup by the bytes of its first answer: none at all means not registered, 32 are the key, and any other length
   raises; without an answer within the attempts it raises too.
   */
  lemma {:induction false} FreshReadExactly(calls: seq<Rpc>, n: nat)
    ensures FreshRead(calls, n) == Ok(None) <==> exists i :: FirstAnswer(calls, n, i) && calls[i].bytes == []
    ensures forall key :: FreshRead(calls, n) == Ok(Some(key)) <==>
              |key| == 32 && exists i :: FirstAnswer(calls, n, i) && calls[i].bytes == key
    ensures FreshRead(calls, n) == Raised <==>
              forall i :: FirstAnswer(calls, n, i) ==> |calls[i].bytes| != 0 && |calls[i].bytes| != 32
  {
    FirstRawExactly(calls, n);
    if i :| FirstAnswer(calls, n, i) {
      assert forall k :: FirstAnswer(calls, n, k) ==> k == i;
    }
  }

  lemma {:induction false} FirstRawExactly(calls: seq<Rpc>, n: nat)
    ensures FirstRaw(calls, n) == None <==> forall i :: !FirstAnswer(calls, n, i)
    ensures forall i :: FirstAnswer(calls, n, i) ==> FirstRaw(calls, n) == Some(calls[i].bytes)
    decreases n
  {
    if n > 0 && calls != [] {
      if calls[0].Raw? {
        assert FirstAnswer(calls, n, 0);
      } else {
        var rest := calls[1..];
        FirstRawExactly(rest, n - 1);
        forall i | FirstAnswer(calls, n, i) ensures FirstAnswer(rest, n - 1, i - 1) && rest[i - 1] == calls[i] {
          assert forall j :: 0 <= j < i - 1 ==> rest[j] == calls[j + 1];
        }
        if FirstRaw(rest, n - 1).Some? {
          var i :| FirstAnswer(rest, n - 1, i);
          assert forall j :: 0 < j < i + 1 ==> calls[j] == rest[j - 1];
          assert FirstAnswer(calls, n, i + 1);
        }
      }
    }
  }

  class Client {
    const ttl: nat
    const retryAttempts: nat
    var cache: map<NodeId, Entry>

    constructor (ttl: nat, retryAttempts: nat)
      ensures cache == map[] && this.ttl == ttl && this.retryAttempts == retryAttempts
    {
      this.ttl, this.retryAttempts := ttl, retryAttempts;
      cache := map[];
    }

    /** A live cache entry, positive or negative, answers; otherwise the chain does and the answer is cached. */
    method Lookup(node: NodeId, now: nat, calls: seq<Rpc>) returns (r: Result<Option<Key>>)
      modifies this
      ensures
        var live := node in old(cache) && now < old(cache)[node].expires;
        && r == (if live then Ok(old(cache)[node].value) else FreshRead(calls, retryAttempts))
        && cache == if live || r.Raised? then old(cache) else old(cache)[node := Entry(r.value, now + ttl)]
    {
      if node in cache && now < cache[node].expires {
        return Ok(cache[node].value);
      }
      var raw := None;
      var i := 0;
      while i < retryAttempts && i < |calls| && raw.None?
        invariant i <= retryAttempts && i <= |calls|
        invariant raw.None? ==> FirstRaw(calls[i..], retryAttempts - i) == FirstRaw(calls, retryAttempts)
        invariant raw.Some? ==> raw == FirstRaw(calls, retryAttempts)
      {
        assert calls[i..][1..] == calls[i + 1..];
        if calls[i].Raw? {
          raw := Some(calls[i].bytes);
        }
        i := i + 1;
      }
      if raw.None? {
        return Raised;
      }
      if raw.value == [] {
        cache := cache[node := Entry(None, now + ttl)];
        return Ok(None);
      }
      if |raw.value| != 32 {
        return Raised;
      }
      cache := cache[node := Entry(Some(raw.value), now + ttl)];
      r := Ok(Some(raw.value));
    }

    method Invalidate(node: NodeId)
      modifies this
      ensures cache == old(cache) - {node}
    {
      cache := cache - {node};
    }
  }

  /** One round of the loop: the time and the contract calls of its lookup. */
  datatype Round = Round(now: nat, calls: seq<Rpc>)

  /** The outcome of the loop as a function of the chain reads alone. */
  function FreshResult(rounds: seq<Round>, n: nat, retryAttempts: nat, k: nat): Result<Option<Key>>
    requires k < n <= |rounds|
    decreases n - k
  {
    var r := FreshRead(rounds[k].calls, retryAttempts);
    if r.Raised? || r.value.Some? || k + 1 == n then r else FreshResult(rounds, n, retryAttempts, k + 1)
  }

  /** `max(1, attempts)`. */
  function Bound(attempts: int): (n: nat)
    ensures n >= 1 && n >= attempts && (n == 1 || n == attempts)
  {
    if attempts > 1 then attempts else 1
  }

  /** `_fresh_anchor_lookup`: whatever the cache held, the result depends on the chain reads only. */
  method FreshAnchorLookup(
    client: Client, node: NodeId, attempts: int, rounds: seq<Round>) returns (r: Result<Option<Key>>)
    requires |rounds| >= Bound(attempts)
    modifies client
    ensures r == FreshResult(rounds, Bound(attempts), client.retryAttempts, 0)
  {
    r := Ok(None);
    for k := 0 to Bound(attempts)
      invariant k < Bound(attempts) ==>
        FreshResult(rounds, Bound(attempts), client.retryAttempts, k)
          == FreshResult(rounds, Bound(attempts), client.retryAttempts, 0)
      invariant k == Bound(attempts) ==> r == FreshResult(rounds, Bound(attempts), client.retryAttempts, 0)
    {
      client.Invalidate(node);
      r := client.Lookup(node, rounds[k].now, rounds[k].calls);
      if r.Raised? || r.value.Some? {
        return;
      }
    }
  }

  /** The same loop without `invalidate`: a live negative entry answers every round. */
  method StaleAnchorLookup(
    client: Client, node: NodeId, attempts: int, rounds: seq<Round>) returns (r: Result<Option<Key>>)
    requires |rounds| >= Bound(attempts)
    requires node in client.cache && client.cache[node].value.None?
    requires forall k :: 0 <= k < Bound(attempts) ==> rounds[k].now < client.cache[node].expires
    modifies client
    ensures r == Ok(None)
  {
    r := Ok(None);
    for k := 0 to Bound(attempts)
      invariant client.cache == old(client.cache)
      invariant r == Ok(None)
    {
      r := client.Lookup(node, rounds[k].now, rounds[k].calls);
    }
  }

  /** Every successful call of the rounds was answered by a replica that had seen some prefix of the steps. */
  ghost predicate FromReplicas(r0: Registry, steps: seq<Step>, node: NodeId, rounds: seq<Round>) {
    forall k, i :: 0 <= k < |rounds| && 0 <= i < |rounds[k].calls| && rounds[k].calls[i].Raw? ==>
      SomePrefix(r0, steps, node, rounds[k].calls[i].bytes)
  }

  ghost predicate SomePrefix(r0: Registry, steps: seq<Step>, node: NodeId, answer: Bytes) {
    exists p :: 0 <= p <= |steps| && answer == Answer(ApplyAll(r0, steps[..p]), node)
  }

  lemma {:induction false} FirstRawIsACall(calls: seq<Rpc>, n: nat)
    requires FirstRaw(calls, n).Some?
    ensures exists i :: 0 <= i < |calls| && calls[i] == Raw(FirstRaw(calls, n).value)
    decreases n
  {
    if !calls[0].Raw? {
      FirstRawIsACall(calls[1..], n - 1);
      var i :| 0 <= i < |calls[1..]| && calls[1..][i] == Raw(FirstRaw(calls, n).value);
      assert calls[i + 1] == Raw(FirstRaw(calls, n).value);
    }
  }

  /**
   Soundness: a key returned was registered at some prefix of the chain, and it is the key the chain holds
   now unless the admin has overridden that node.
   */
  lemma {:induction false} FreshIsSound(
    r0: Registry, steps: seq<Step>, node: NodeId, rounds: seq<Round>, n: nat, retryAttempts: nat, k: nat)
    requires FromReplicas(r0, steps, node, rounds) && k < n <= |rounds|
    requires FreshResult(rounds, n, retryAttempts, k).Ok? && FreshResult(rounds, n, retryAttempts, k).value.Some?
    ensures
      var key := FreshResult(rounds, n, retryAttempts, k).value.value;
      && SomePrefix(r0, steps, node, key)
      && node in ApplyAll(r0, steps)
      && ((forall st :: st in steps && st.Override? ==> st.node != node) ==> ApplyAll(r0, steps)[node] == key)
    decreases n - k
  {
    var read := FreshRead(rounds[k].calls, retryAttempts);
    if read.Ok? && read.value.Some? {
      var key := read.value.value;
      FirstRawIsACall(rounds[k].calls, retryAttempts);
      assert SomePrefix(r0, steps, node, key);
      var p :| 0 <= p <= |steps| && key == Answer(ApplyAll(r0, steps[..p]), node);
      var seen := ApplyAll(r0, steps[..p]);
      ApplyConcat(r0, steps[..p], steps[p..]);
      assert steps[..p] + steps[p..] == steps;
      StaysRegistered(seen, steps[p..], node);
      if forall st :: st in steps && st.Override? ==> st.node != node {
        WriteOnce(seen, steps[p..], node);
      }
    } else {
      FreshIsSound(r0, steps, node, rounds, n, retryAttempts, k + 1);
    }
  }

  lemma {:induction false} StaysRegistered(r: Registry, steps: seq<Step>, node: NodeId)
    requires node in r
    ensures node in ApplyAll(r, steps)
    decreases steps
  {
    if steps != [] {
      StaysRegistered(Apply(r, steps[0]), steps[1..], node);
    }
  }

  predicate Misses(rounds: seq<Round>, k: nat, n: nat, retryAttempts: nat)
    requires n <= |rounds|
  {
    forall j :: k <= j < n ==> FreshRead(rounds[j].calls, retryAttempts) == Ok(None)
  }

  /**
   The outcome of the loop is that of its first round that is not a miss; it is a miss exactly when all rounds are.
   */
  lemma {:induction false} FreshExactly(rounds: seq<Round>, n: nat, retryAttempts: nat, k: nat, r: Result<Option<Key>>)
    requires k < n <= |rounds| && r != Ok(None)
    ensures FreshResult(rounds, n, retryAttempts, k) == r <==>
            exists i :: k <= i < n
              && FreshRead(rounds[i].calls, retryAttempts) == r && Misses(rounds, k, i, retryAttempts)
    ensures FreshResult(rounds, n, retryAttempts, k) == Ok(None) <==> Misses(rounds, k, n, retryAttempts)
    decreases n - k
  {
    if FreshRead(rounds[k].calls, retryAttempts) == Ok(None) {
      if k + 1 < n {
        FreshExactly(rounds, n, retryAttempts, k + 1, r);
        LaterHit(rounds, n, retryAttempts, k, r);
      }
    } else {
      assert Misses(rounds, k, k, retryAttempts);
    }
  }

  lemma {:induction false} LaterHit(rounds: seq<Round>, n: nat, retryAttempts: nat, k: nat, r: Result<Option<Key>>)
    requires k < n <= |rounds| && r != Ok(None) && FreshRead(rounds[k].calls, retryAttempts) == Ok(None)
    ensures (exists i :: k <= i < n
               && FreshRead(rounds[i].calls, retryAttempts) == r && Misses(rounds, k, i, retryAttempts))
       <==> (exists i :: k + 1 <= i < n
               && FreshRead(rounds[i].calls, retryAttempts) == r && Misses(rounds, k + 1, i, retryAttempts))
  {
    if i :| k <= i < n && FreshRead(rounds[i].calls, retryAttempts) == r && Misses(rounds, k, i, retryAttempts) {
      assert Misses(rounds, k + 1, i, retryAttempts);
    }
    if i :|
      k + 1 <= i < n && FreshRead(rounds[i].calls, retryAttempts) == r && Misses(rounds, k + 1, i, retryAttempts)
    {
      assert Misses(rounds, k, i, retryAttempts);
    }
  }

  /**
   Completeness: once a round is answered by a replica that has seen the node's registration and every earlier
   round was a miss, the key of that replica is returned, whatever the cache held before.
   */
  lemma {:induction false} FreshIsComplete(
    r0: Registry, steps: seq<Step>, node: NodeId, rounds: seq<Round>, n: nat, retryAttempts: nat, hit: nat, p: nat)
    requires KeysOk(r0) && hit < n <= |rounds| && p <= |steps|
    requires Misses(rounds, 0, hit, retryAttempts)
    requires node in ApplyAll(r0, steps[..p])
    requires FirstRaw(rounds[hit].calls, retryAttempts) == Some(Answer(ApplyAll(r0, steps[..p]), node))
    ensures FreshResult(rounds, n, retryAttempts, 0) == Ok(Some(ApplyAll(r0, steps[..p])[node]))
  {
    KeysStayOk(r0, steps[..p]);
    FreshExactly(rounds, n, retryAttempts, 0, Ok(Some(ApplyAll(r0, steps[..p])[node])));
  }
}
