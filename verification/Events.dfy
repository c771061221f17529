/** Event decoders over receipt logs: scripts/exercise_canonical_workflow_base_sepolia.py. */
module Events {
  import opened Words
  import opened Outcomes
  import opened Abi

  datatype Log = Log(address: Bytes, topics: seq<Bytes>, data: Bytes)

  datatype RoyaltyPaid = RoyaltyPaid(
    contentHash: Bytes, payer: Bytes, creator: Bytes, servingNode: Bytes,
    creatorAmount: nat, networkAmount: nat, servingNodeAmount: nat)

  datatype Transfer = Transfer(from: Bytes, to: Bytes, amount: nat)

  /** The last 20 bytes: `[-40:]` of the hexadecimal text. Fewer do not make an address. */
  function Last20(b: Bytes): Bytes
    requires |b| >= 20
  {
    b[|b| - 20..]
  }

  /** There are at least `n` topics and those from number `from` on are long enough for an address. */
  predicate Addresses(topics: seq<Bytes>, from: nat, n: nat) {
    |topics| >= n && forall i :: from <= i < n ==> |topics[i]| >= 20
  }

  // ---- What a log means, on its own ----

  /** What one log contributes: nothing, a value, or an exception that ends the loop. */
  datatype Reading<T> = Skip | Broken | Read(value: T)

  function RoyaltyFields(topics: seq<Bytes>, data: Bytes): RoyaltyPaid
    requires Addresses(topics, 2, 4) && |data| == 128
  {
    RoyaltyPaid(topics[1], Last20(topics[2]), Last20(topics[3]), data[12..32],
                Nat(data[32..64]), Nat(data[64..96]), Nat(data[96..128]))
  }

  function ReadRoyalty(log: Log, distributor: Bytes, topic0: Bytes): Reading<RoyaltyPaid> {
    if log.address != distributor then Skip
    else if log.topics == [] then Broken
    else if log.topics[0] != topic0 then Skip
    else if !Addresses(log.topics, 2, 4) then Broken
    else if |log.data| != 128 then Skip
    else Read(RoyaltyFields(log.topics, log.data))
  }

  function ReadTransfer(log: Log, token: Bytes, topic0: Bytes): Reading<Transfer> {
    if log.address != token then Skip
    else if log.topics == [] then Broken
    else if log.topics[0] != topic0 then Skip
    else if !Addresses(log.topics, 1, 3) || log.data == [] then Broken
    else Read(Transfer(Last20(log.topics[1]), Last20(log.topics[2]), Nat(log.data)))
  }

  /** What a log of the distributor says, by topics and byte ranges. */
  lemma {:induction false} RoyaltyReadingExactly(log: Log, distributor: Bytes, topic0: Bytes)
    ensures
      var ours := log.address == distributor;
      var named := ours && log.topics != [] && log.topics[0] == topic0;
      var long := |log.topics| >= 4 && |log.topics[2]| >= 20 && |log.topics[3]| >= 20;
      && (ReadRoyalty(log, distributor, topic0) == Broken <==> ours && (log.topics == [] || (named && !long)))
      && (forall e :: ReadRoyalty(log, distributor, topic0) == Read(e) <==>
            && named && long && |log.data| == 128
            && e.contentHash == log.topics[1]
            && e.payer == log.topics[2][|log.topics[2]| - 20..] && e.creator == log.topics[3][|log.topics[3]| - 20..]
            && e.servingNode == log.data[12..32] && e.creatorAmount == Nat(log.data[32..64])
            && e.networkAmount == Nat(log.data[64..96]) && e.servingNodeAmount == Nat(log.data[96..128]))
  {
  }

  /** What a log of the token says. */
  lemma {:induction false} TransferReadingExactly(log: Log, token: Bytes, topic0: Bytes)
    ensures
      var ours := log.address == token;
      var named := ours && log.topics != [] && log.topics[0] == topic0;
      var long := |log.topics| >= 3 && |log.topics[1]| >= 20 && |log.topics[2]| >= 20 && log.data != [];
      && (ReadTransfer(log, token, topic0) == Broken <==> ours && (log.topics == [] || (named && !long)))
      && (forall e :: ReadTransfer(log, token, topic0) == Read(e) <==>
            && named && long && e.amount == Nat(log.data)
            && e.from == log.topics[1][|log.topics[1]| - 20..] && e.to == log.topics[2][|log.topics[2]| - 20..])
  {
  }

  // ---- The royalty decoder: the first matching log ----

  method DecodeRoyaltyPaid(logs: seq<Log>, distributor: Bytes, topic0: Bytes) returns (r: Result<Option<RoyaltyPaid>>)
    ensures r == Ok(None) <==> forall i :: 0 <= i < |logs| ==> ReadRoyalty(logs[i], distributor, topic0) == Skip
    ensures forall e :: r == Ok(Some(e)) <==>
              exists i :: 0 <= i < |logs| && ReadRoyalty(logs[i], distributor, topic0) == Read(e)
                          && forall j :: 0 <= j < i ==> ReadRoyalty(logs[j], distributor, topic0) == Skip
    ensures r == Raised <==>
              exists i :: 0 <= i < |logs| && ReadRoyalty(logs[i], distributor, topic0) == Broken
                          && forall j :: 0 <= j < i ==> ReadRoyalty(logs[j], distributor, topic0) == Skip
  {
    for i := 0 to |logs|
      invariant forall j :: 0 <= j < i ==> ReadRoyalty(logs[j], distributor, topic0) == Skip
    {
      var log := logs[i];
      if log.address != distributor {
        continue;
      }
      var topics := log.topics;
      if |topics| == 0 {
        assert ReadRoyalty(logs[i], distributor, topic0) == Broken;
        return Raised;
      }
      if topics[0] != topic0 {
        continue;
      }
      if |topics| < 4 || |topics[2]| < 20 || |topics[3]| < 20 {
        assert ReadRoyalty(logs[i], distributor, topic0) == Broken;
        return Raised;
      }
      var contentHash, payer, creator := topics[1], Last20(topics[2]), Last20(topics[3]);
      var raw := log.data;
      if |raw| != 32 * 4 {
        continue;
      }
      var event := RoyaltyPaid(contentHash, payer, creator, raw[12..32], Nat(raw[32..64]), Nat(raw[64..96]),
        Nat(raw[96..128]));
      assert ReadRoyalty(logs[i], distributor, topic0) == Read(event);
      return Ok(Some(event));
    }
    r := Ok(None);
  }

  // ---- The log a contract emits, by the Contract ABI ----

  ghost predicate ValidRoyalty(e: RoyaltyPaid) {
    && |e.contentHash| == 32 && |e.payer| == |e.creator| == |e.servingNode| == 20
    && e.creatorAmount < Pow256(32) && e.networkAmount < Pow256(32) && e.servingNodeAmount < Pow256(32)
  }

  function RoyaltyData(e: RoyaltyPaid): Bytes {
    PaddedAddress(e.servingNode)
      + (Big(e.creatorAmount, 32) + (Big(e.networkAmount, 32) + Big(e.servingNodeAmount, 32)))
  }

  function RoyaltyLog(e: RoyaltyPaid, distributor: Bytes, topic0: Bytes): Log {
    Log(distributor, [topic0, e.contentHash, PaddedAddress(e.payer), PaddedAddress(e.creator)], RoyaltyData(e))
  }

  lemma {:induction false} PaddedLast20(address: Bytes)
    requires |address| == 20
    ensures Last20(PaddedAddress(address)) == address && |PaddedAddress(address)| == 32
    ensures PaddedAddress(address)[12..32] == address
  {
  }

  lemma {:induction false} FourWords(a: Bytes, b: Bytes, c: Bytes, d: Bytes)
    requires |a| == |b| == |c| == |d| == 32
    ensures
      var w := a + (b + (c + d));
      |w| == 128 && w[12..32] == a[12..32] && w[32..64] == b && w[64..96] == c && w[96..128] == d
  {
  }

  lemma {:induction false} WordsRead(node: Bytes, a: Bytes, b: Bytes, c: Bytes, topics: seq<Bytes>)
    requires |node| == 20 && |a| == |b| == |c| == 32 && Addresses(topics, 2, 4)
    ensures
      var data := PaddedAddress(node) + (a + (b + c));
      |data| == 128 && RoyaltyFields(topics, data)
                       == RoyaltyPaid(topics[1], Last20(topics[2]), Last20(topics[3]), node, Nat(a), Nat(b), Nat(c))
  {
    PaddedLast20(node);
    FourWords(PaddedAddress(node), a, b, c);
  }

  /** Decoding inverts the encoding: the reading of an emitted log is the emitted event. */
  lemma {:induction false} RoyaltyRoundTrip(e: RoyaltyPaid, distributor: Bytes, topic0: Bytes)
    requires ValidRoyalty(e)
    ensures ReadRoyalty(RoyaltyLog(e, distributor, topic0), distributor, topic0) == Read(e)
  {
    PaddedLast20(e.payer);
    PaddedLast20(e.creator);
    var log := RoyaltyLog(e, distributor, topic0);
    assert log.topics[2] == PaddedAddress(e.payer) && log.topics[3] == PaddedAddress(e.creator);
    WordsRead(e.servingNode, Big(e.creatorAmount, 32), Big(e.networkAmount, 32), Big(e.servingNodeAmount, 32),
      log.topics);
    NatOfBig(e.creatorAmount, 32);
    NatOfBig(e.networkAmount, 32);
    NatOfBig(e.servingNodeAmount, 32);
  }

  // ---- The transfer decoder: every matching log, in order ----

  /** The values read from the first `n` logs, in order; an exception anywhere loses them all. */
  function Collect(logs: seq<Log>, token: Bytes, topic0: Bytes, n: nat): Result<seq<Transfer>>
    requires n <= |logs|
  {
    if n == 0 then Ok([])
    else
      var front :- Collect(logs, token, topic0, n - 1);
      match ReadTransfer(logs[n - 1], token, topic0)
      case Skip => Ok(front)
      case Broken => Raised
      case Read(t) => Ok(front + [t])
  }

  /** The decoder fails exactly when some log of the token is malformed. */
  lemma {:induction false} CollectRaisedIff(logs: seq<Log>, token: Bytes, topic0: Bytes, n: nat)
    requires n <= |logs|
    ensures Collect(logs, token, topic0, n).Raised? <==>
            exists i :: 0 <= i < n && ReadTransfer(logs[i], token, topic0) == Broken
  {
    if n > 0 {
      CollectRaisedIff(logs, token, topic0, n - 1);
    }
  }

  lemma {:induction false} BrokenRaises(logs: seq<Log>, token: Bytes, topic0: Bytes, i: nat)
    requires i < |logs| && ReadTransfer(logs[i], token, topic0) == Broken
    ensures Collect(logs, token, topic0, |logs|) == Raised
  {
    CollectRaisedIff(logs, token, topic0, |logs|);
  }

  method DecodeTransfers(logs: seq<Log>, token: Bytes, topic0: Bytes) returns (r: Result<seq<Transfer>>)
    ensures r == Collect(logs, token, topic0, |logs|)
  {
    var out := [];
    for i := 0 to |logs|
      invariant Collect(logs, token, topic0, i) == Ok(out)
    {
      var log := logs[i];
      if log.address != token {
        continue;
      }
      var topics := log.topics;
      if |topics| == 0 {
        BrokenRaises(logs, token, topic0, i);
        return Raised;
      }
      if topics[0] != topic0 {
        continue;
      }
      if |topics| < 3 || |topics[1]| < 20 || |topics[2]| < 20 || log.data == [] {
        BrokenRaises(logs, token, topic0, i);
        return Raised;
      }
      out := out + [Transfer(Last20(topics[1]), Last20(topics[2]), Nat(log.data))];
    }
    r := Ok(out);
  }

  ghost predicate ValidTransfer(t: Transfer) {
    |t.from| == |t.to| == 20 && t.amount < Pow256(32)
  }

  function TransferLog(t: Transfer, token: Bytes, topic0: Bytes): Log {
    Log(token, [topic0, PaddedAddress(t.from), PaddedAddress(t.to)], Big(t.amount, 32))
  }

  lemma {:induction false} TransferRoundTrip(t: Transfer, token: Bytes, topic0: Bytes)
    requires ValidTransfer(t)
    ensures ReadTransfer(TransferLog(t, token, topic0), token, topic0) == Read(t)
  {
    PaddedLast20(t.from);
    PaddedLast20(t.to);
    NatOfBig(t.amount, 32);
  }

  /** What a transaction puts into its receipt: transfers of the token, or logs of no interest. */
  datatype Emission = Moved(transfer: Transfer) | Other(log: Log)

  function LogOf(e: Emission, token: Bytes, topic0: Bytes): Log {
    if e.Moved? then TransferLog(e.transfer, token, topic0) else e.log
  }

  function Emitted(es: seq<Emission>, token: Bytes, topic0: Bytes): (logs: seq<Log>)
    ensures |logs| == |es|
  {
    seq(|es|, i requires 0 <= i < |es| => LogOf(es[i], token, topic0))
  }

  function Transfers(es: seq<Emission>, n: nat): seq<Transfer>
    requires n <= |es|
  {
    if n == 0 then [] else Transfers(es, n - 1) + if es[n - 1].Moved? then [es[n - 1].transfer] else []
  }

  /** However transfers and foreign logs interleave, the decoder returns exactly the transfers, in order. */
  lemma {:induction false} TransfersRecovered(es: seq<Emission>, token: Bytes, topic0: Bytes, n: nat)
    requires n <= |es|
    requires forall i :: 0 <= i < |es| ==>
               if es[i].Moved? then ValidTransfer(es[i].transfer) else ReadTransfer(es[i].log, token, topic0) == Skip
    ensures Collect(Emitted(es, token, topic0), token, topic0, n) == Ok(Transfers(es, n))
  {
    if n > 0 {
      var e := es[n - 1];
      TransfersRecovered(es, token, topic0, n - 1);
      assert Emitted(es, token, topic0)[n - 1] == LogOf(e, token, topic0);
      if e.Moved? {
        TransferRoundTrip(e.transfer, token, topic0);
      } else {
        assert Transfers(es, n - 1) + [] == Transfers(es, n - 1);
      }
    }
  }
}
