/**
 Where each field stands in the bytes, read by position only: scripts/sprint_867_paymaster_live_exec.py,
 scripts/generate_safe_deploy_payload.py, prsm/settlement/merkle.py.
 */
module Layouts {
  import opened Words
  import opened Outcomes
  import opened Abi
  import opened UserOps
  import opened Receipts

  ghost predicate AllZero(b: Bytes) {
    forall i :: 0 <= i < |b| ==> b[i] == 0
  }

  /** The bytes from `from` up to `to`; nothing when they are not all there. */
  ghost function Part(b: Bytes, from: nat, to: nat): Option<Bytes> {
    if from <= to <= |b| then Some(b[from..to]) else None
  }

  ghost predicate NumberAt(b: Bytes, from: nat, to: nat, v: int) {
    from <= to <= |b| && Nat(b[from..to]) == v
  }

  ghost predicate ZerosAt(b: Bytes, from: nat, to: nat) {
    from <= to <= |b| && AllZero(b[from..to])
  }

  lemma {:induction false} Pieces(a: Bytes, b: Bytes, c: Bytes)
    ensures (a + b + c)[|a|..|a| + |b|] == b
  {
  }

  // ---- Calls with an address and a number ----

  /** Selector, twelve zeros, the address, the number: 68 bytes. */
  ghost predicate AddressUintBytes(d: Bytes, selector: Bytes, address: Bytes, v: int) {
    && |d| == 68 && Part(d, 0, 4) == Some(selector)
    && ZerosAt(d, 4, 16) && Part(d, 16, 36) == Some(address) && NumberAt(d, 36, 68, v)
  }

  lemma {:induction false} AddressUintAt(selector: Bytes, address: Bytes, word: Bytes)
    requires |selector| == 4 && |address| == 20 && |word| == 32
    ensures AddressUintBytes(selector + PaddedAddress(address) + word, selector, address, Nat(word))
  {
    var d := selector + PaddedAddress(address) + word;
    assert d[0..4] == selector && d[4..16] == Zeros(12) && d[16..36] == address && d[36..68] == word;
  }

  lemma {:induction false} StaticCallBytes(address: Bytes, v: int)
    requires |address| == 20 && 0 <= v < Pow256(32)
    ensures AddressUintBytes(EncodeApprove(address, v).value, [0x09, 0x5e, 0xa7, 0xb3], address, v)
    ensures AddressUintBytes(EncodeCreateAccount(address, v).value, [0x5f, 0xbf, 0xb9, 0xcf], address, v)
  {
    UintWord(v);
    AddressUintAt(SELECTOR_APPROVE, address, Uint(v, 32).value);
    AddressUintAt(SELECTOR_CREATE_ACCOUNT, address, Uint(v, 32).value);
  }

  // ---- Calls with dynamic bytes ----

  lemma {:induction false} PaddingIsZero(n: nat)
    ensures AllZero(Padding(n)) && |Padding(n)| < 32 && (n + |Padding(n)|) % 32 == 0
  {
  }

  /** At `pos` the length, then the data, then zeros up to the next whole word, and the end. */
  ghost predicate TailBytes(d: Bytes, pos: nat, data: Bytes) {
    && NumberAt(d, pos, pos + 32, |data|) && Part(d, pos + 32, pos + 32 + |data|) == Some(data)
    && ZerosAt(d, pos + 32 + |data|, |d|)
    && |d| - (pos + 32 + |data|) < 32 && (|d| - pos) % 32 == 0
  }

  lemma {:induction false} TailAt(pre: Bytes, length: Bytes, data: Bytes)
    requires IsWord(length, |data|)
    ensures TailBytes(pre + length + data + Padding(|data|), |pre|, data)
  {
    var pad := Padding(|data|);
    var d := pre + length + data + pad;
    PaddingIsZero(|data|);
    assert d == pre + length + (data + pad);
    Pieces(pre, length, data + pad);
    Pieces(pre + length, data, pad);
    assert d[|pre| + 32 + |data|..] == pad;
    WholeWords(|data|, |pad|);
  }

  lemma {:induction false} WholeWords(n: nat, m: nat)
    requires (n + m) % 32 == 0
    ensures (32 + n + m) % 32 == 0
  {
  }

  /** `execute`: selector, target, value, the offset 96, then length, inner bytes and zeros. */
  lemma {:induction false} ExecuteBytes(target: Bytes, value: int, inner: Bytes)
    requires |target| == 20 && 0 <= value < Pow256(32) && |inner| < Pow256(32)
    ensures EncodeExecute(target, value, inner).Ok?
    ensures
      var d := EncodeExecute(target, value, inner).value;
      && Part(d, 0, 4) == Some([0xb6, 0x1d, 0x27, 0xf6])
      && ZerosAt(d, 4, 16) && Part(d, 16, 36) == Some(target)
      && NumberAt(d, 36, 68, value) && NumberAt(d, 68, 100, 96) && TailBytes(d, 100, inner)
  {
    UintWord(value);
    UintWord(96);
    UintWord(|inner|);
    ExecuteAt(target, Uint(value, 32).value, Uint(96, 32).value, Uint(|inner|, 32).value, inner);
  }

  lemma {:induction false} ExecuteAt(target: Bytes, value: Bytes, offset: Bytes, length: Bytes, inner: Bytes)
    requires |target| == 20 && |value| == 32 && |offset| == 32 && IsWord(length, |inner|)
    ensures
      var d := SELECTOR_EXECUTE + ExecuteLayout(target, value, offset, length, inner);
      && Part(d, 0, 4) == Some(SELECTOR_EXECUTE)
      && ZerosAt(d, 4, 16) && Part(d, 16, 36) == Some(target)
      && Part(d, 36, 68) == Some(value) && Part(d, 68, 100) == Some(offset) && TailBytes(d, 100, inner)
  {
    var head := SELECTOR_EXECUTE + PaddedAddress(target) + value + offset;
    var d := SELECTOR_EXECUTE + ExecuteLayout(target, value, offset, length, inner);
    assert d == head + length + inner + Padding(|inner|);
    TailAt(head, length, inner);
    assert head[0..4] == SELECTOR_EXECUTE && head[4..16] == Zeros(12) && head[16..36] == target;
    assert head[36..68] == value && head[68..100] == offset;
    assert d[..100] == head;
    assert d[0..4] == head[0..4] && d[4..16] == head[4..16] && d[16..36] == head[16..36];
    assert d[36..68] == head[36..68] && d[68..100] == head[68..100];
  }

  /** `getSenderAddress`: selector, the offset 32, then length, factory, factory data and zeros. */
  lemma {:induction false} GetSenderBytes(factory: Bytes, data: Bytes)
    requires |factory| == 20 && 20 + |data| < Pow256(32)
    ensures EncodeGetSender(factory, data).Ok?
    ensures
      var d := EncodeGetSender(factory, data).value;
      && Part(d, 0, 4) == Some([0x9b, 0x24, 0x9f, 0x69]) && NumberAt(d, 4, 36, 32)
      && TailBytes(d, 36, factory + data)
  {
    UintWord(32);
    UintWord(|factory + data|);
    GetSenderAt(Uint(32, 32).value, Uint(|factory + data|, 32).value, factory + data);
  }

  lemma {:induction false} GetSenderAt(offset: Bytes, length: Bytes, data: Bytes)
    requires |offset| == 32 && IsWord(length, |data|)
    ensures
      var d := SELECTOR_GET_SENDER + BytesLayout(offset, length, data);
      Part(d, 0, 4) == Some(SELECTOR_GET_SENDER) && Part(d, 4, 36) == Some(offset) && TailBytes(d, 36, data)
  {
    var head := SELECTOR_GET_SENDER + offset;
    var d := SELECTOR_GET_SENDER + BytesLayout(offset, length, data);
    assert d == head + length + data + Padding(|data|);
    TailAt(head, length, data);
    assert head[0..4] == SELECTOR_GET_SENDER && head[4..36] == offset;
    assert d[..36] == head;
    assert d[0..4] == head[0..4] && d[4..36] == head[4..36];
  }

  // ---- Rows of words ----

  /** The `k`-th word of 32-byte words in a row. */
  lemma {:induction false} WordOfConcat(ws: seq<Bytes>, k: nat)
    requires k < |ws| && forall w :: w in ws ==> |w| == 32
    ensures Part(Concat(ws), 32 * k, 32 * k + 32) == Some(ws[k])
  {
    assert forall i :: 0 <= i < |ws| ==> ws[i] in ws;
    ConcatLength(ws);
    if k > 0 {
      WordOfConcat(ws[1..], k - 1);
      var d, rest := Concat(ws), Concat(ws[1..]);
      assert d == ws[0] + rest;
      assert d[32 * k..32 * k + 32] == rest[32 * (k - 1)..32 * (k - 1) + 32];
    }
  }

  lemma {:induction false} HalvesSlices(b: Bytes, from: nat, x: Bytes, y: Bytes)
    requires Part(b, from, from + |x| + |y|) == Some(x + y)
    ensures Part(b, from, from + |x|) == Some(x) && Part(b, from + |x|, from + |x| + |y|) == Some(y)
  {
    var w := b[from..from + |x| + |y|];
    assert b[from..from + |x|] == w[..|x|] && b[from + |x|..from + |x| + |y|] == w[|x|..];
  }

  lemma {:induction false} HalvesRead(b: Bytes, from: nat, hi: nat, lo: nat)
    requires Part(b, from, from + 32) == Some(Halves(hi, lo)) && hi < Pow256(16) && lo < Pow256(16)
    ensures NumberAt(b, from, from + 16, hi) && NumberAt(b, from + 16, from + 32, lo)
  {
    NatOfBig(hi, 16);
    NatOfBig(lo, 16);
    HalvesSlices(b, from, Big(hi, 16), Big(lo, 16));
  }

  lemma {:induction false} PaddedRead(b: Bytes, from: nat, address: Bytes)
    requires Part(b, from, from + 32) == Some(PaddedAddress(address)) && |address| == 20
    ensures ZerosAt(b, from, from + 12) && Part(b, from + 12, from + 32) == Some(address)
  {
    var w := b[from..from + 32];
    assert b[from..from + 12] == w[..12] && b[from + 12..from + 32] == w[12..];
    PaddedParts(address);
  }

  /**
   The packed operation of ERC-4337 v0.7, byte by byte: sender, nonce, the hashes of initCode and callData, the two
   gas limits in one word, preVerificationGas, the two fees in one word, the hash of paymasterAndData.
   */
  lemma {:induction false} PackedBytes(h: Bytes -> Bytes, op: UserOp)
    requires |op.sender| == 20 && Encodable(op) && GoodHash(h, HashedFields(op))
    ensures PackUserOp(h, op).Ok?
    ensures
      var d := PackUserOp(h, op).value;
      && |d| == 256
      && ZerosAt(d, 0, 12) && Part(d, 12, 32) == Some(op.sender)
      && NumberAt(d, 32, 64, op.nonce)
      && Part(d, 64, 96) == Some(h(op.initCode)) && Part(d, 96, 128) == Some(h(op.callData))
      && NumberAt(d, 128, 144, Mask(op.verificationGas)) && NumberAt(d, 144, 160, Mask(op.callGas))
      && NumberAt(d, 160, 192, op.preVerificationGas)
      && NumberAt(d, 192, 208, Mask(op.maxPriorityFee)) && NumberAt(d, 208, 224, Mask(op.maxFee))
      && Part(d, 224, 256) == Some(h(op.paymasterAndData))
  {
    PackUserOpWords(h, op);
    PackedLength(h, op);
    var d := PackUserOp(h, op).value;
    PackedWordsAt(h, op);
    PaddedRead(d, 0, op.sender);
    NatOfBig(op.nonce, 32);
    NatOfBig(op.preVerificationGas, 32);
    HalvesRead(d, 128, Mask(op.verificationGas), Mask(op.callGas));
    HalvesRead(d, 192, Mask(op.maxPriorityFee), Mask(op.maxFee));
  }

  lemma {:induction false} PackedWordsAt(h: Bytes -> Bytes, op: UserOp)
    requires |op.sender| == 20 && Encodable(op) && GoodHash(h, HashedFields(op))
    ensures
      var d := Concat(PackedWords(h, op));
      && Part(d, 0, 32) == Some(PaddedAddress(op.sender)) && Part(d, 32, 64) == Some(Big(op.nonce, 32))
      && Part(d, 64, 96) == Some(h(op.initCode)) && Part(d, 96, 128) == Some(h(op.callData))
      && Part(d, 128, 160) == Some(Halves(Mask(op.verificationGas), Mask(op.callGas)))
      && Part(d, 160, 192) == Some(Big(op.preVerificationGas, 32))
      && Part(d, 192, 224) == Some(Halves(Mask(op.maxPriorityFee), Mask(op.maxFee)))
      && Part(d, 224, 256) == Some(h(op.paymasterAndData))
  {
    WordsWide(h, op);
    EightWords(PackedWords(h, op));
  }

  lemma {:induction false} EightWords(ws: seq<Bytes>)
    requires |ws| == 8 && forall w :: w in ws ==> |w| == 32
    ensures
      var d := Concat(ws);
      && Part(d, 0, 32) == Some(ws[0]) && Part(d, 32, 64) == Some(ws[1])
      && Part(d, 64, 96) == Some(ws[2]) && Part(d, 96, 128) == Some(ws[3])
      && Part(d, 128, 160) == Some(ws[4]) && Part(d, 160, 192) == Some(ws[5])
      && Part(d, 192, 224) == Some(ws[6]) && Part(d, 224, 256) == Some(ws[7])
  {
    WordOfConcat(ws, 0);
    WordOfConcat(ws, 1);
    WordOfConcat(ws, 2);
    WordOfConcat(ws, 3);
    WordOfConcat(ws, 4);
    WordOfConcat(ws, 5);
    WordOfConcat(ws, 6);
    WordOfConcat(ws, 7);
  }

  /** What is hashed last: the hash of the packed operation, the entry point, the chain id, in 96 bytes. */
  lemma {:induction false} OuterBytes(h: Bytes -> Bytes, packed: Bytes, entryPoint: Bytes, chainId: int)
    requires |h(packed)| == 32 && |entryPoint| == 20
    ensures UserOpHash(h, packed, entryPoint, chainId).Ok? <==> 0 <= chainId < Pow256(32)
    ensures 0 <= chainId < Pow256(32) ==>
      var d := OuterPayload(h, packed, entryPoint, chainId);
      UserOpHash(h, packed, entryPoint, chainId) == Ok(h(d)) && OuterLayout(h, d, packed, entryPoint, chainId)
  {
    if 0 <= chainId < Pow256(32) {
      NatOfBig(chainId, 32);
      ThreeWords(h(packed), entryPoint, Big(chainId, 32));
    }
  }

  lemma {:induction false} ThreeWords(a: Bytes, address: Bytes, c: Bytes)
    requires |a| == |c| == 32 && |address| == 20
    ensures
      var d := a + PaddedAddress(address) + c;
      && |d| == 96 && Part(d, 0, 32) == Some(a) && Part(d, 64, 96) == Some(c)
      && ZerosAt(d, 32, 44) && Part(d, 44, 64) == Some(address)
  {
    var d := a + PaddedAddress(address) + c;
    assert d[0..32] == a && d[64..96] == c && d[32..44] == Zeros(12) && d[44..64] == address;
  }

  ghost predicate OuterLayout(h: Bytes -> Bytes, d: Bytes, packed: Bytes, entryPoint: Bytes, chainId: int) {
    && |d| == 96 && Part(d, 0, 32) == Some(h(packed))
    && ZerosAt(d, 32, 44) && Part(d, 44, 64) == Some(entryPoint) && NumberAt(d, 64, 96, chainId)
  }

  // ---- The receipt leaf ----

  /** The nine words of a leaf, as the contract's `abi.encode` lays out the struct. */
  lemma {:induction false} LeafBytes(l: ReceiptLeaf)
    requires l.Valid()
    ensures
      var d := EncodeLeaf(l);
      && |d| == 288
      && Part(d, 0, 32) == Some(l.jobIdHash) && NumberAt(d, 32, 64, l.shardIndex)
      && Part(d, 64, 96) == Some(l.providerIdHash) && Part(d, 96, 128) == Some(l.providerPubkeyHash)
      && Part(d, 128, 160) == Some(l.outputHash) && NumberAt(d, 160, 192, l.executedAt)
      && NumberAt(d, 192, 224, l.value) && Part(d, 224, 256) == Some(l.signatureHash)
      && Part(d, 256, 288) == Some(l.signingMessageHash)
  {
    LeafLength(l);
    LeafWordsAt(l);
    PowMonotone(4, 32);
    PowMonotone(8, 32);
    PowMonotone(16, 32);
    NatOfBig(l.shardIndex, 32);
    NatOfBig(l.executedAt, 32);
    NatOfBig(l.value, 32);
  }

  lemma {:induction false} LeafWordsAt(l: ReceiptLeaf)
    requires l.Valid()
    ensures
      var d := EncodeLeaf(l);
      && Part(d, 0, 32) == Some(l.jobIdHash) && Part(d, 32, 64) == Some(Big(l.shardIndex, 32))
      && Part(d, 64, 96) == Some(l.providerIdHash) && Part(d, 96, 128) == Some(l.providerPubkeyHash)
      && Part(d, 128, 160) == Some(l.outputHash) && Part(d, 160, 192) == Some(Big(l.executedAt, 32))
      && Part(d, 192, 224) == Some(Big(l.value, 32)) && Part(d, 224, 256) == Some(l.signatureHash)
      && Part(d, 256, 288) == Some(l.signingMessageHash)
  {
    var ws := LeafWords(l);
    WordOfConcat(ws, 0);
    WordOfConcat(ws, 1);
    WordOfConcat(ws, 2);
    WordOfConcat(ws, 3);
    WordOfConcat(ws, 4);
    WordOfConcat(ws, 5);
    WordOfConcat(ws, 6);
    WordOfConcat(ws, 7);
    WordOfConcat(ws, 8);
  }

  // ---- Return data ----

  /** A returned string is the bytes behind the first two words, as many as the second word says and there are. */
  lemma {:induction false} StringReading(blob: Bytes)
    ensures |blob| < 64 ==> DecodeString(blob) == []
    ensures |blob| >= 64 ==>
              var length := Nat(blob[32..64]);
              DecodeString(blob) == if 64 + length <= |blob| then blob[64..64 + length] else blob[64..]
  {
  }

  /** Owner `i` is the last 20 bytes of word `i` behind the first two; fewer than 20 bytes raise. */
  lemma {:induction false} OwnerReading(blob: Bytes, i: nat)
    ensures
      var owner := DecodeAddress(Abi.Slice(blob, 64 + 32 * i, 64 + 32 * (i + 1)));
      && (owner.Ok? <==> 64 + 32 * i + 20 <= |blob|)
      && (96 + 32 * i <= |blob| ==> owner == Ok(blob[76 + 32 * i..96 + 32 * i]))
  {
    var from, to := 64 + 32 * i, 64 + 32 * (i + 1);
    assert to == from + 32;
    SliceEnd(blob, from);
  }

  lemma {:induction false} SliceEnd(blob: Bytes, from: nat)
    ensures
      var w := Abi.Slice(blob, from, from + 32);
      && (|w| >= 20 <==> from + 20 <= |blob|)
      && (from + 32 <= |blob| ==> |w| == 32 && w[12..] == blob[from + 12..from + 32])
  {
  }

  lemma {:induction false} OwnersOk(blob: Bytes, i: nat, length: nat)
    requires i <= length
    ensures OwnersFrom(blob, i, length).Ok? <==> forall k :: i <= k < length ==> OwnerThere(blob, k)
    ensures OwnersFrom(blob, i, length).Ok? ==> |OwnersFrom(blob, i, length).value| == length - i
    decreases length - i
  {
    if i < length {
      OwnersOk(blob, i + 1, length);
      OwnerReading(blob, i);
      assert OwnersFrom(blob, i, length).Ok? <==> OwnerThere(blob, i) && OwnersFrom(blob, i + 1, length).Ok?;
    }
  }

  ghost predicate OwnerThere(blob: Bytes, k: nat) {
    64 + 32 * k + 20 <= |blob|
  }

  lemma {:induction false} OwnersReading(blob: Bytes, i: nat, length: nat, k: nat)
    requires i <= k < length && 64 + 32 * length <= |blob| && OwnersFrom(blob, i, length).Ok?
    ensures k - i < |OwnersFrom(blob, i, length).value| && OwnerIs(blob, k, OwnersFrom(blob, i, length).value[k - i])
    decreases length - i
  {
    OwnersOk(blob, i, length);
    if i == k {
      OwnerReading(blob, i);
    } else {
      OwnersReading(blob, i + 1, length, k);
    }
  }

  ghost predicate OwnerIs(blob: Bytes, k: nat, owner: Bytes) {
    Part(blob, 76 + 32 * k, 96 + 32 * k) == Some(owner)
  }

  /** The owners are as many as the second word says, or the decoder raises because one is not there. */
  lemma {:induction false} OwnersExactly(blob: Bytes)
    requires |blob| >= 64
    ensures
      var length := Nat(blob[32..64]);
      && (DecodeOwners(blob).Ok? <==> forall k :: 0 <= k < length ==> OwnerThere(blob, k))
      && (DecodeOwners(blob).Ok? ==> |DecodeOwners(blob).value| == length)
      && (DecodeOwners(blob).Ok? && 64 + 32 * length <= |blob| ==>
            forall k :: 0 <= k < length ==> OwnerIs(blob, k, DecodeOwners(blob).value[k]))
  {
    var length := Nat(blob[32..64]);
    OwnersOk(blob, 0, length);
    if DecodeOwners(blob).Ok? && 64 + 32 * length <= |blob| {
      forall k | 0 <= k < length ensures OwnerIs(blob, k, DecodeOwners(blob).value[k]) {
        OwnersReading(blob, 0, length, k);
      }
    }
  }

  // ---- The CREATE2 preimage ----

  /** 0xff, factory, salt, hash of the initcode; the initcode is the bytecode and one word with the admin address. */
  lemma {:induction false} Create2Bytes(h: Bytes -> Bytes, factory: Bytes, salt: Bytes, code: Bytes, admin: Bytes)
    requires |factory| == 20 && |salt| == 32 && |admin| == 20
    ensures InitCode(code, admin).Ok?
    ensures
      var init := InitCode(code, admin).value;
      var d := Create2Preimage(h, factory, salt, init);
      && |init| == |code| + 32 && Part(init, 0, |code|) == Some(code)
      && ZerosAt(init, |code|, |code| + 12) && Part(init, |code| + 12, |code| + 32) == Some(admin)
      && Part(d, 0, 1) == Some([0xff]) && Part(d, 1, 21) == Some(factory)
      && Part(d, 21, 53) == Some(salt) && Part(d, 53, |d|) == Some(h(init))
  {
    var init := InitCode(code, admin).value;
    var d := Create2Preimage(h, factory, salt, init);
    assert init[0..|code|] == code && init[|code|..|code| + 12] == Zeros(12);
    assert init[|code| + 12..|code| + 32] == admin;
    assert d[0..1] == [0xff] && d[1..21] == factory && d[21..53] == salt && d[53..|d|] == h(init);
  }
}
