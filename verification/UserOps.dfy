/**
 The ERC-4337 v0.7 packed user operation and its hash (the Specification section of ERC-4337):
 scripts/sprint_867_paymaster_live_exec.py. The CREATE2 preimage (the Specification section of
 EIP-1014): scripts/generate_safe_deploy_payload.py.
 */
module UserOps {
  import opened Words
  import opened Outcomes
  import opened Abi

  /** A concatenation of fields, in order. */
  function Concat(words: seq<Bytes>): Bytes {
    if words == [] then [] else words[0] + Concat(words[1..])
  }

  lemma {:induction false} ConcatLength(ws: seq<Bytes>)
    requires forall i :: 0 <= i < |ws| ==> |ws[i]| == 32
    ensures |Concat(ws)| == 32 * |ws|
  {
    if ws != [] {
      ConcatLength(ws[1..]);
    }
  }

  /** Equal concatenations of equally many 32-byte words hold equal words. */
  lemma {:induction false} ConcatInjective(ws: seq<Bytes>, vs: seq<Bytes>)
    requires |ws| == |vs|
    requires forall i :: 0 <= i < |ws| ==> |ws[i]| == 32 && |vs[i]| == 32
    requires Concat(ws) == Concat(vs)
    ensures ws == vs
  {
    if ws != [] {
      assert Concat(ws)[..32] == ws[0] && Concat(vs)[..32] == vs[0];
      assert Concat(ws)[32..] == Concat(ws[1..]) && Concat(vs)[32..] == Concat(vs[1..]);
      ConcatInjective(ws[1..], vs[1..]);
      assert ws == [ws[0]] + ws[1..] && vs == [vs[0]] + vs[1..];
    }
  }

  datatype UserOp = UserOp(
    sender: Bytes, nonce: int, initCode: Bytes, callData: Bytes,
    callGas: int, verificationGas: int, preVerificationGas: int,
    maxFee: int, maxPriorityFee: int, paymasterAndData: Bytes)

  /** `v & ((1 << 128) - 1)`; for any Python integer that is the remainder modulo 2^128. */
  function Mask(v: int): (m: nat)
    ensures m < Pow256(16)
  {
    v % Pow256(16)
  }

  const TWO128 := 0x1_0000_0000_0000_0000_0000_0000_0000_0000

  /** The bounds in numbers: the mask keeps the remainder modulo 2^128, and a word holds what lies below 2^256. */
  lemma {:induction false} WordBounds(v: int)
    ensures Mask(v) == v % TWO128
    ensures Uint(v, 32).Ok? <==> 0 <= v < TWO128 * TWO128
    ensures Uint(v, 16).Ok? <==> 0 <= v < TWO128
  {
    WordSizes();
  }

  /** `(Mask(hi) << 128) | Mask(lo)`; the halves share no bit, so `|` is a sum. */
  function TwoHalves(hi: int, lo: int): nat {
    Join(Mask(hi), Mask(lo), 16)
  }

  /** `(hi << 8n) | lo` for `lo` of `n` bytes. */
  function Join(hi: nat, lo: nat, n: nat): nat {
    hi * Pow256(n) + lo
  }

  function PackUserOp(h: Bytes -> Bytes, op: UserOp): Result<Bytes> {
    var nonce :- Uint(op.nonce, 32);
    var gasLimits :- Uint(TwoHalves(op.verificationGas, op.callGas), 32);
    var preVerification :- Uint(op.preVerificationGas, 32);
    var gasFees :- Uint(TwoHalves(op.maxPriorityFee, op.maxFee), 32);
    Ok(Concat([PaddedAddress(op.sender), nonce, h(op.initCode), h(op.callData),
               gasLimits, preVerification, gasFees, h(op.paymasterAndData)]))
  }

  /** Two 16-byte big-endian numbers side by side. */
  ghost function Halves(hi: nat, lo: nat): (w: Bytes)
    ensures |w| == 32
  {
    Big(hi, 16) + Big(lo, 16)
  }

  /** The gas word is the two masked numbers side by side: neither leaks into the other's half. */
  lemma {:induction false} GasWordHalves(hi: int, lo: int)
    ensures Uint(TwoHalves(hi, lo), 32) == Ok(Halves(Mask(hi), Mask(lo)))
  {
    HalvesAsWord(Mask(hi), Mask(lo), 16, 32);
  }

  lemma {:induction false} HalvesAsWord(hi: nat, lo: nat, n: nat, m: nat)
    requires m == n + n && hi < Pow256(n) && lo < Pow256(n)
    ensures Uint(Join(hi, lo, n), m) == Ok(Big(hi, n) + Big(lo, n))
  {
    BigHalves(hi, lo, n, n);
  }

  lemma {:induction false} HalvesInjective(hi: nat, lo: nat, hi': nat, lo': nat)
    requires hi < Pow256(16) && lo < Pow256(16) && hi' < Pow256(16) && lo' < Pow256(16)
    requires Halves(hi, lo) == Halves(hi', lo')
    ensures hi == hi' && lo == lo'
  {
    var w := Halves(hi, lo);
    assert w[..16] == Big(hi, 16) && w[16..] == Big(lo, 16);
    assert w[..16] == Big(hi', 16) && w[16..] == Big(lo', 16);
    BigInjective(hi, hi', 16);
    BigInjective(lo, lo', 16);
  }

  /** In range, masking changes nothing. */
  lemma {:induction false} MaskInRange(v: int)
    requires 0 <= v < Pow256(16)
    ensures Mask(v) == v
  {
    SmallRemainder(v, Pow256(16));
  }

  lemma {:induction false} SmallRemainder(v: nat, m: nat)
    requires v < m
    ensures v % m == v
  {
  }

  ghost predicate Encodable(op: UserOp) {
    0 <= op.nonce < Pow256(32) && 0 <= op.preVerificationGas < Pow256(32)
  }

  /** Two operations that are the same up to what the masks throw away. */
  ghost predicate SamePacking(a: UserOp, b: UserOp) {
    && a.sender == b.sender && a.nonce == b.nonce && a.preVerificationGas == b.preVerificationGas
    && a.initCode == b.initCode && a.callData == b.callData && a.paymasterAndData == b.paymasterAndData
    && Mask(a.callGas) == Mask(b.callGas) && Mask(a.verificationGas) == Mask(b.verificationGas)
    && Mask(a.maxFee) == Mask(b.maxFee) && Mask(a.maxPriorityFee) == Mask(b.maxPriorityFee)
  }

  ghost function HashedFields(op: UserOp): set<Bytes> {
    {op.initCode, op.callData, op.paymasterAndData}
  }

  /** The eight words of an encodable operation. */
  ghost function PackedWords(h: Bytes -> Bytes, op: UserOp): seq<Bytes>
    requires Encodable(op)
  {
    [PaddedAddress(op.sender), Big(op.nonce, 32), h(op.initCode), h(op.callData),
     Halves(Mask(op.verificationGas), Mask(op.callGas)), Big(op.preVerificationGas, 32),
     Halves(Mask(op.maxPriorityFee), Mask(op.maxFee)), h(op.paymasterAndData)]
  }

  lemma {:induction false} PackUserOpWords(h: Bytes -> Bytes, op: UserOp)
    ensures PackUserOp(h, op).Ok? <==> Encodable(op)
    ensures Encodable(op) ==> PackUserOp(h, op) == Ok(Concat(PackedWords(h, op)))
  {
    GasWordHalves(op.verificationGas, op.callGas);
    GasWordHalves(op.maxPriorityFee, op.maxFee);
  }

  /** The packed form is 256 bytes when the sender is a 20-byte address. */
  lemma {:induction false} PackedLength(h: Bytes -> Bytes, op: UserOp)
    requires GoodHash(h, HashedFields(op)) && |op.sender| == 20
    ensures PackUserOp(h, op).Ok? <==> Encodable(op)
    ensures Encodable(op) ==> |PackUserOp(h, op).value| == 256
  {
    PackUserOpWords(h, op);
    if Encodable(op) {
      ConcatLength(PackedWords(h, op));
    }
  }

  /**
   Packing is exact: two operations pack to the same bytes if and only if they agree on sender, nonce,
   preVerificationGas, the three byte strings, and the four masked gas numbers modulo 2^128.
   */
  lemma {:induction false} PackInjective(h: Bytes -> Bytes, a: UserOp, b: UserOp)
    requires |a.sender| == |b.sender| == 20 && Encodable(a) && Encodable(b)
    requires GoodHash(h, HashedFields(a) + HashedFields(b))
    ensures PackUserOp(h, a) == PackUserOp(h, b) <==> SamePacking(a, b)
  {
    SamePackedWords(h, a, b);
    if PackedWords(h, a) == PackedWords(h, b) {
      WordsInjective(h, a, b);
    }
  }

  lemma {:induction false} SamePackedWords(h: Bytes -> Bytes, a: UserOp, b: UserOp)
    requires |a.sender| == |b.sender| == 20 && Encodable(a) && Encodable(b)
    requires GoodHash(h, HashedFields(a) + HashedFields(b))
    ensures PackUserOp(h, a) == PackUserOp(h, b) <==> PackedWords(h, a) == PackedWords(h, b)
  {
    PackUserOpWords(h, a);
    PackUserOpWords(h, b);
    WordsWide(h, a);
    WordsWide(h, b);
    SameConcat(PackedWords(h, a), PackedWords(h, b));
  }

  lemma {:induction false} WordsWide(h: Bytes -> Bytes, op: UserOp)
    requires |op.sender| == 20 && Encodable(op) && GoodHash(h, HashedFields(op))
    ensures forall w :: w in PackedWords(h, op) ==> |w| == 32
  {
    assert op.initCode in HashedFields(op) && op.callData in HashedFields(op);
    assert op.paymasterAndData in HashedFields(op);
  }

  lemma {:induction false} SameConcat(ws: seq<Bytes>, vs: seq<Bytes>)
    requires |ws| == |vs| && (forall w :: w in ws ==> |w| == 32) && (forall v :: v in vs ==> |v| == 32)
    ensures Concat(ws) == Concat(vs) <==> ws == vs
  {
    if Concat(ws) == Concat(vs) {
      ConcatInjective(ws, vs);
    }
  }

  lemma {:induction false} WordsInjective(h: Bytes -> Bytes, a: UserOp, b: UserOp)
    requires |a.sender| == |b.sender| == 20 && Encodable(a) && Encodable(b)
    requires GoodHash(h, HashedFields(a) + HashedFields(b))
    requires PackedWords(h, a) == PackedWords(h, b)
    ensures SamePacking(a, b)
  {
    EachWord(h, a, b);
    SameAddress(a.sender, b.sender);
    BigInjective(a.nonce, b.nonce, 32);
    BigInjective(a.preVerificationGas, b.preVerificationGas, 32);
    HalvesInjective(Mask(a.verificationGas), Mask(a.callGas), Mask(b.verificationGas), Mask(b.callGas));
    HalvesInjective(Mask(a.maxPriorityFee), Mask(a.maxFee), Mask(b.maxPriorityFee), Mask(b.maxFee));
  }

  lemma {:induction false} SameAddress(x: Bytes, y: Bytes)
    requires PaddedAddress(x) == PaddedAddress(y)
    ensures x == y
  {
    assert PaddedAddress(x)[12..] == x && PaddedAddress(y)[12..] == y;
  }

  lemma {:induction false} EachWord(h: Bytes -> Bytes, a: UserOp, b: UserOp)
    requires Encodable(a) && Encodable(b) && PackedWords(h, a) == PackedWords(h, b)
    ensures PaddedAddress(a.sender) == PaddedAddress(b.sender) && Big(a.nonce, 32) == Big(b.nonce, 32)
    ensures h(a.initCode) == h(b.initCode) && h(a.callData) == h(b.callData)
            && h(a.paymasterAndData) == h(b.paymasterAndData)
    ensures Halves(Mask(a.verificationGas), Mask(a.callGas)) == Halves(Mask(b.verificationGas), Mask(b.callGas))
    ensures Big(a.preVerificationGas, 32) == Big(b.preVerificationGas, 32)
    ensures Halves(Mask(a.maxPriorityFee), Mask(a.maxFee)) == Halves(Mask(b.maxPriorityFee), Mask(b.maxFee))
  {
    var ws, vs := PackedWords(h, a), PackedWords(h, b);
    assert ws[0] == vs[0] && ws[1] == vs[1] && ws[2] == vs[2] && ws[3] == vs[3];
    assert ws[4] == vs[4] && ws[5] == vs[5] && ws[6] == vs[6] && ws[7] == vs[7];
  }

  ghost predicate GasInRange(op: UserOp) {
    && 0 <= op.callGas < Pow256(16) && 0 <= op.verificationGas < Pow256(16)
    && 0 <= op.maxFee < Pow256(16) && 0 <= op.maxPriorityFee < Pow256(16)
  }

  function UserOpHash(h: Bytes -> Bytes, packed: Bytes, entryPoint: Bytes, chainId: int): Result<Bytes> {
    var chain :- Uint(chainId, 32);
    Ok(h(h(packed) + PaddedAddress(entryPoint) + chain))
  }

  ghost function OuterPayload(h: Bytes -> Bytes, packed: Bytes, entryPoint: Bytes, chainId: nat): Bytes {
    h(packed) + PaddedAddress(entryPoint) + Big(chainId, 32)
  }

  /** The signed hash pins down the whole operation, the entry point and the chain. */
  lemma {:induction false} UserOpHashBinds(
    h: Bytes -> Bytes, a: UserOp, b: UserOp, ep: Bytes, ep': Bytes, chain: nat, chain': nat)
    requires |a.sender| == |b.sender| == |ep| == |ep'| == 20
    requires Encodable(a) && Encodable(b) && GasInRange(a) && GasInRange(b)
    requires chain < Pow256(32) && chain' < Pow256(32)
    requires
      var p, q := PackUserOp(h, a), PackUserOp(h, b);
      && p.Ok? && q.Ok?
      && GoodHash(h, HashedFields(a) + HashedFields(b) + {p.value, q.value}
                     + {OuterPayload(h, p.value, ep, chain), OuterPayload(h, q.value, ep', chain')})
    ensures UserOpHash(h, PackUserOp(h, a).value, ep, chain) == UserOpHash(h, PackUserOp(h, b).value, ep', chain')
        <==> a == b && ep == ep' && chain == chain'
  {
    var p, q := PackUserOp(h, a).value, PackUserOp(h, b).value;
    if h(OuterPayload(h, p, ep, chain)) == h(OuterPayload(h, q, ep', chain')) {
      OuterInjective(h, p, q, ep, ep', chain, chain');
      PackInjective(h, a, b);
      InRangeSame(a, b);
    }
  }

  lemma {:induction false} OuterInjective(
    h: Bytes -> Bytes, p: Bytes, q: Bytes, ep: Bytes, ep': Bytes, chain: nat, chain': nat)
    requires |ep| == |ep'| == 20 && |h(p)| == |h(q)| == 32
    requires chain < Pow256(32) && chain' < Pow256(32)
    requires OuterPayload(h, p, ep, chain) == OuterPayload(h, q, ep', chain')
    ensures h(p) == h(q) && ep == ep' && chain == chain'
  {
    OuterParts(h(p), ep, Big(chain, 32), h(q), ep', Big(chain', 32));
    BigInjective(chain, chain', 32);
  }

  lemma {:induction false} OuterParts(a: Bytes, ep: Bytes, c: Bytes, a': Bytes, ep': Bytes, c': Bytes)
    requires |a| == |a'| == 32 && |ep| == |ep'|
    requires a + PaddedAddress(ep) + c == a' + PaddedAddress(ep') + c'
    ensures a == a' && ep == ep' && c == c'
  {
    var x, y := a + PaddedAddress(ep) + c, a' + PaddedAddress(ep') + c';
    assert x[..32] == a && y[..32] == a';
    assert x[44..44 + |ep|] == ep && y[44..44 + |ep|] == ep';
    assert x[44 + |ep|..] == c && y[44 + |ep|..] == c';
  }

  lemma {:induction false} InRangeSame(a: UserOp, b: UserOp)
    requires GasInRange(a) && GasInRange(b) && SamePacking(a, b)
    ensures a == b
  {
    MaskInRange(a.callGas);
    MaskInRange(b.callGas);
    MaskInRange(a.verificationGas);
    MaskInRange(b.verificationGas);
    MaskInRange(a.maxFee);
    MaskInRange(b.maxFee);
    MaskInRange(a.maxPriorityFee);
    MaskInRange(b.maxPriorityFee);
  }

  /** `paymaster ++ uint128 ++ uint128 ++ data`, or nothing when no paymaster is named. */
  function PaymasterAndData(paymaster: Bytes, verificationGas: int, postOpGas: int, data: Bytes): Result<Bytes> {
    if paymaster == [] then Ok([])
    else
      var v :- Uint(verificationGas, 16);
      var p :- Uint(postOpGas, 16);
      Ok(paymaster + v + p + data)
  }

  /** The four parts come back out of the assembled bytes, at the offsets the EntryPoint reads. */
  lemma {:induction false} PaymasterAndDataParts(paymaster: Bytes, v: int, p: int, data: Bytes)
    requires |paymaster| == 20
    ensures PaymasterAndData(paymaster, v, p, data).Ok? <==> 0 <= v < Pow256(16) && 0 <= p < Pow256(16)
    ensures PaymasterAndData(paymaster, v, p, data).Ok? ==>
      var b := PaymasterAndData(paymaster, v, p, data).value;
      |b| >= 52 && b[..20] == paymaster && Nat(b[20..36]) == v && Nat(b[36..52]) == p && b[52..] == data
  {
    UintReads(v, 16);
    UintReads(p, 16);
    if Uint(v, 16).Ok? && Uint(p, 16).Ok? {
      FourParts(paymaster, Uint(v, 16).value, Uint(p, 16).value, data);
    }
  }

  lemma {:induction false} UintReads(v: int, n: nat)
    ensures Uint(v, n).Ok? <==> 0 <= v < Pow256(n)
    ensures Uint(v, n).Ok? ==> |Uint(v, n).value| == n && Nat(Uint(v, n).value) == v
  {
    if 0 <= v < Pow256(n) {
      NatOfBig(v, n);
    }
  }

  lemma {:induction false} FourParts(a: Bytes, b: Bytes, c: Bytes, d: Bytes)
    requires |a| == 20 && |b| == |c| == 16
    ensures
      var s := a + b + c + d;
      |s| >= 52 && s[..20] == a && s[20..36] == b && s[36..52] == c && s[52..] == d
  {
  }

  /** `0xff ++ factory ++ salt ++ keccak256(initcode)`. */
  function Create2Preimage(h: Bytes -> Bytes, factory: Bytes, salt: Bytes, initcode: Bytes): Bytes {
    [0xff] + factory + salt + h(initcode)
  }

  /** `initcode = bytecode ++ abi.encode(admin)`. */
  function InitCode(bytecode: Bytes, admin: Bytes): Result<Bytes> {
    if |admin| == 20 then Ok(bytecode + PaddedAddress(admin)) else Raised
  }

  /** The 85-byte preimage determines factory, salt, bytecode and constructor argument. */
  lemma {:induction false} Create2Binds(h: Bytes -> Bytes, f: Bytes, s: Bytes, code: Bytes, admin: Bytes,
                     f': Bytes, s': Bytes, code': Bytes, admin': Bytes)
    requires |f| == |f'| == 20 && |s| == |s'| == 32 && |admin| == |admin'| == 20
    requires GoodHash(h, {InitCode(code, admin).value, InitCode(code', admin').value})
    ensures |Create2Preimage(h, f, s, InitCode(code, admin).value)| == 85
    ensures Create2Preimage(h, f, s, InitCode(code, admin).value)
            == Create2Preimage(h, f', s', InitCode(code', admin').value)
        <==> f == f' && s == s' && code == code' && admin == admin'
  {
    var i, i' := InitCode(code, admin).value, InitCode(code', admin').value;
    var x, y := Create2Preimage(h, f, s, i), Create2Preimage(h, f', s', i');
    if x == y {
      assert x[1..21] == f && y[1..21] == f';
      assert x[21..53] == s && y[21..53] == s';
      assert x[53..] == h(i) && y[53..] == h(i');
      assert i[..|i| - 32] == code && i'[..|i'| - 32] == code';
      assert i[|i| - 20..] == admin && i'[|i'| - 20..] == admin';
    }
  }
}
