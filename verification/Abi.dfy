/**
 Hand-written ABI encoders and decoders, against the "Formal Specification of the Encoding" of the
 Solidity Contract ABI Specification: scripts/sprint_867_paymaster_live_exec.py (encoders),
 scripts/foundation-safe-health-check.py (return-data decoders).
 */
module Abi {
  import opened Words
  import opened Outcomes

  const SELECTOR_CREATE_ACCOUNT: Bytes := [0x5f, 0xbf, 0xb9, 0xcf]
  const SELECTOR_EXECUTE: Bytes := [0xb6, 0x1d, 0x27, 0xf6]
  const SELECTOR_APPROVE: Bytes := [0x09, 0x5e, 0xa7, 0xb3]
  const SELECTOR_GET_SENDER: Bytes := [0x9b, 0x24, 0x9f, 0x69]

  // ---- Encoders of the source ----

  /** Python's `v.to_bytes(width, "big")`, OverflowError included. */
  function Uint(v: int, width: nat): Result<Bytes> {
    if 0 <= v < Pow256(width) then Ok(Big(v, width)) else Raised
  }

  function PaddedAddress(address: Bytes): Bytes {
    Zeros(12) + address
  }

  /** The zero bytes that fill `n` bytes up to whole words; Python's `(-n) % 32`. */
  function Padding(n: nat): (b: Bytes)
    ensures |b| < 32 && (n + |b|) % 32 == 0
  {
    var m: int := n;
    Zeros(-m % 32)
  }

  function EncodeCreateAccount(owner: Bytes, salt: int): Result<Bytes> {
    var word :- Uint(salt, 32);
    Ok(SELECTOR_CREATE_ACCOUNT + PaddedAddress(owner) + word)
  }

  function EncodeApprove(spender: Bytes, amount: int): Result<Bytes> {
    var word :- Uint(amount, 32);
    Ok(SELECTOR_APPROVE + PaddedAddress(spender) + word)
  }

  function EncodeExecute(target: Bytes, value: int, inner: Bytes): Result<Bytes> {
    var valueWord :- Uint(value, 32);
    var offsetWord :- Uint(96, 32);
    var lengthWord :- Uint(|inner|, 32);
    Ok(SELECTOR_EXECUTE + ExecuteLayout(target, valueWord, offsetWord, lengthWord, inner))
  }

  function ExecuteLayout(target: Bytes, value: Bytes, offset: Bytes, length: Bytes, inner: Bytes): Bytes {
    PaddedAddress(target) + value + offset + length + inner + Padding(|inner|)
  }

  /** The `getSenderAddress(bytes)` call around `factory ++ factoryData`. */
  function EncodeGetSender(factory: Bytes, factoryData: Bytes): Result<Bytes> {
    var initCode := factory + factoryData;
    var offsetWord :- Uint(32, 32);
    var lengthWord :- Uint(|initCode|, 32);
    Ok(SELECTOR_GET_SENDER + BytesLayout(offsetWord, lengthWord, initCode))
  }

  function BytesLayout(offset: Bytes, length: Bytes, data: Bytes): Bytes {
    offset + length + data + Padding(|data|)
  }

  // ---- A standard decoder, written from the ABI specification ----

  function WordAt(d: Bytes, pos: nat): Option<Bytes> {
    if pos + 32 <= |d| then Some(d[pos..pos + 32]) else None
  }

  function UintAt(d: Bytes, pos: nat): Option<nat> {
    var word :- WordAt(d, pos);
    Some(Nat(word))
  }

  function AddressAt(d: Bytes, pos: nat): Option<Bytes> {
    var word :- WordAt(d, pos);
    if word[..12] == Zeros(12) then Some(word[12..]) else None
  }

  /** A dynamic `bytes` argument: follow the offset, read the length, take that many bytes. */
  function BytesAt(d: Bytes, pos: nat): Option<Bytes> {
    var offset :- UintAt(d, pos);
    var length :- UintAt(d, offset);
    if offset + 32 + length <= |d| then Some(d[offset + 32..offset + 32 + length]) else None
  }

  function Arguments(selector: Bytes, calldata: Bytes): Option<Bytes> {
    if |selector| <= |calldata| && calldata[..|selector|] == selector
    then Some(calldata[|selector|..]) else None
  }

  function DecodeAddressUint(selector: Bytes, calldata: Bytes): Option<(Bytes, nat)> {
    var args :- Arguments(selector, calldata);
    var address :- AddressAt(args, 0);
    var v :- UintAt(args, 32);
    Some((address, v))
  }

  function DecodeExecute(calldata: Bytes): Option<(Bytes, nat, Bytes)> {
    var args :- Arguments(SELECTOR_EXECUTE, calldata);
    var target :- AddressAt(args, 0);
    var value :- UintAt(args, 32);
    var inner :- BytesAt(args, 64);
    Some((target, value, inner))
  }

  function DecodeGetSender(calldata: Bytes): Option<Bytes> {
    var args :- Arguments(SELECTOR_GET_SENDER, calldata);
    BytesAt(args, 0)
  }

  // ---- Slices of concatenations ----

  lemma {:induction false} Middle(pre: Bytes, mid: Bytes, post: Bytes)
    ensures (pre + mid + post)[|pre|..|pre| + |mid|] == mid
  {
  }

  ghost predicate IsWord(w: Bytes, v: nat) {
    |w| == 32 && Nat(w) == v
  }

  lemma {:induction false} BigIsWord(v: nat)
    requires v < Pow256(32)
    ensures IsWord(Big(v, 32), v)
  {
    NatOfBig(v, 32);
  }

  lemma {:induction false} UintWord(v: nat)
    ensures Uint(v, 32).Ok? <==> v < Pow256(32)
    ensures Uint(v, 32).Ok? ==> IsWord(Uint(v, 32).value, v)
  {
    if v < Pow256(32) {
      BigIsWord(v);
    }
  }

  lemma {:induction false} UintAtWord(pre: Bytes, w: Bytes, post: Bytes)
    requires |w| == 32
    ensures UintAt(pre + w + post, |pre|) == Some(Nat(w))
  {
    Middle(pre, w, post);
  }

  lemma {:induction false} AddressAtStart(address: Bytes, post: Bytes)
    requires |address| == 20
    ensures AddressAt(PaddedAddress(address) + post, 0) == Some(address)
  {
    var d := PaddedAddress(address) + post;
    assert d[0..32] == PaddedAddress(address);
    assert PaddedAddress(address)[..12] == Zeros(12) && PaddedAddress(address)[12..] == address;
  }

  /** A dynamic argument laid out right after its own head word is found again. */
  lemma {:induction false} BytesAtTail(pre: Bytes, offset: Bytes, length: Bytes, data: Bytes, post: Bytes)
    requires IsWord(offset, |pre| + 32) && IsWord(length, |data|)
    ensures BytesAt(pre + offset + length + data + post, |pre|) == Some(data)
  {
    var d := pre + offset + length + data + post;
    var head := pre + offset;
    assert d == pre + offset + (length + data + post);
    UintAtWord(pre, offset, length + data + post);
    assert d == head + length + (data + post);
    UintAtWord(head, length, data + post);
    Middle(head + length, data, post);
  }

  lemma {:induction false} Assoc(a: Bytes, b: Bytes, c: Bytes)
    ensures a + b + c == a + (b + c)
  {
  }

  /** Two static words in front of a dynamic argument. */
  lemma {:induction false} TwoWordsThenBytes(first: Bytes, second: Bytes, tail: Bytes)
    requires |first| == |second| == 32
    ensures WordAt(first + second + tail, 0) == Some(first)
    ensures WordAt(first + second + tail, 32) == Some(second)
  {
    var d := first + second + tail;
    assert d[0..32] == first;
    assert d[32..64] == second;
  }

  lemma {:induction false} PaddedParts(address: Bytes)
    requires |address| == 20
    ensures PaddedAddress(address)[..12] == Zeros(12) && PaddedAddress(address)[12..] == address
  {
  }

  /** The layout of `execute` arguments decodes field by field. */
  lemma {:induction false} ExecuteArguments(target: Bytes, value: Bytes, offset: Bytes, length: Bytes, inner: Bytes)
    requires |target| == 20 && |value| == 32 && IsWord(offset, 96) && IsWord(length, |inner|)
    ensures
      var args := ExecuteLayout(target, value, offset, length, inner);
      && AddressAt(args, 0) == Some(target)
      && UintAt(args, 32) == Some(Nat(value))
      && BytesAt(args, 64) == Some(inner)
  {
    var head, pad := PaddedAddress(target), Padding(|inner|);
    var args := head + value + offset + length + inner + pad;
    assert WordAt(args, 0) == Some(head) && WordAt(args, 32) == Some(value) by {
      Assoc(head + value, offset, length);
      Assoc(head + value, offset + length, inner);
      Assoc(head + value, offset + length + inner, pad);
      TwoWordsThenBytes(head, value, offset + length + inner + pad);
    }
    assert BytesAt(args, 64) == Some(inner) by {
      BytesAtTail(head + value, offset, length, inner, pad);
    }
    PaddedParts(target);
  }

  lemma {:induction false} BytesArguments(offset: Bytes, length: Bytes, data: Bytes)
    requires IsWord(offset, 32) && IsWord(length, |data|)
    ensures BytesAt(BytesLayout(offset, length, data), 0) == Some(data)
  {
    assert BytesLayout(offset, length, data) == [] + offset + length + data + Padding(|data|);
    BytesAtTail([], offset, length, data, Padding(|data|));
  }

  lemma {:induction false} ArgumentsOf(selector: Bytes, args: Bytes)
    ensures Arguments(selector, selector + args) == Some(args)
  {
  }

  // ---- Round trips ----

  /** `createAccount(owner, salt)` and `approve(spender, amount)` calldata decode back to their arguments. */
  lemma {:induction false} AddressUintRoundTrip(address: Bytes, v: int)
    requires |address| == 20
    ensures EncodeApprove(address, v).Ok? <==> 0 <= v < Pow256(32)
    ensures EncodeCreateAccount(address, v).Ok? <==> 0 <= v < Pow256(32)
    ensures 0 <= v < Pow256(32) ==>
      && DecodeAddressUint(SELECTOR_APPROVE, EncodeApprove(address, v).value) == Some((address, v))
      && DecodeAddressUint(SELECTOR_CREATE_ACCOUNT, EncodeCreateAccount(address, v).value) == Some((address, v))
      && |EncodeApprove(address, v).value| == |EncodeCreateAccount(address, v).value| == 68
  {
    if 0 <= v < Pow256(32) {
      UintWord(v);
      var word := Uint(v, 32).value;
      StaticCall(SELECTOR_APPROVE, address, word);
      StaticCall(SELECTOR_CREATE_ACCOUNT, address, word);
    }
  }

  lemma {:induction false} StaticCall(selector: Bytes, address: Bytes, word: Bytes)
    requires |address| == 20 && |word| == 32
    ensures DecodeAddressUint(selector, selector + PaddedAddress(address) + word) == Some((address, Nat(word)))
  {
    var args := PaddedAddress(address) + word;
    assert selector + PaddedAddress(address) + word == selector + args;
    ArgumentsOf(selector, args);
    AddressAtStart(address, word);
    assert args == PaddedAddress(address) + word + [];
    UintAtWord(PaddedAddress(address), word, []);
  }

  lemma {:induction false} LayoutLengths(target: Bytes, value: Bytes, offset: Bytes, length: Bytes, data: Bytes)
    requires |target| == 20 && |value| == |offset| == |length| == 32
    ensures |ExecuteLayout(target, value, offset, length, data)| == 128 + (|data| + |Padding(|data|)|)
    ensures |BytesLayout(offset, length, data)| == 64 + (|data| + |Padding(|data|)|)
  {
  }

  /** Selector and whole words. */
  lemma {:induction false} ExecuteLength(target: Bytes, value: int, inner: Bytes)
    requires |target| == 20 && EncodeExecute(target, value, inner).Ok?
    ensures (|EncodeExecute(target, value, inner).value| - 4) % 32 == 0
  {
    LayoutLengths(target, Big(value, 32), Big(96, 32), Big(|inner|, 32), inner);
  }

  lemma {:induction false} ExecuteDecodes(target: Bytes, value: Bytes, offset: Bytes, length: Bytes, inner: Bytes)
    requires |target| == 20 && |value| == 32 && IsWord(offset, 96) && IsWord(length, |inner|)
    ensures DecodeExecute(SELECTOR_EXECUTE + ExecuteLayout(target, value, offset, length, inner))
            == Some((target, Nat(value), inner))
  {
    ExecuteArguments(target, value, offset, length, inner);
    ArgumentsOf(SELECTOR_EXECUTE, ExecuteLayout(target, value, offset, length, inner));
  }

  lemma {:induction false} GetSenderDecodes(offset: Bytes, length: Bytes, data: Bytes)
    requires IsWord(offset, 32) && IsWord(length, |data|)
    ensures DecodeGetSender(SELECTOR_GET_SENDER + BytesLayout(offset, length, data)) == Some(data)
  {
    BytesArguments(offset, length, data);
    ArgumentsOf(SELECTOR_GET_SENDER, BytesLayout(offset, length, data));
  }

  /**
   The dynamic-bytes encoder: a standard decoder recovers target, value and inner bytes from
   `execute` calldata.
   */
  lemma {:induction false} ExecuteRoundTrip(target: Bytes, value: int, inner: Bytes)
    requires |target| == 20
    ensures EncodeExecute(target, value, inner).Ok? <==> 0 <= value < Pow256(32) && |inner| < Pow256(32)
    ensures EncodeExecute(target, value, inner).Ok? ==>
      var c := EncodeExecute(target, value, inner).value;
      DecodeExecute(c) == Some((target, value, inner))
  {
    UintWord(96);
    UintWord(|inner|);
    if 0 <= value < Pow256(32) && |inner| < Pow256(32) {
      UintWord(value);
      ExecuteDecodes(target, Uint(value, 32).value, Uint(96, 32).value, Uint(|inner|, 32).value, inner);
    }
  }

  lemma {:induction false} GetSenderRoundTrip(factory: Bytes, data: Bytes)
    requires |factory| == 20
    ensures EncodeGetSender(factory, data).Ok? <==> 20 + |data| < Pow256(32)
    ensures EncodeGetSender(factory, data).Ok? ==>
      var c := EncodeGetSender(factory, data).value;
      DecodeGetSender(c) == Some(factory + data)
  {
    if 20 + |data| < Pow256(32) {
      var initCode := factory + data;
      UintWord(32);
      UintWord(|initCode|);
      GetSenderDecodes(Uint(32, 32).value, Uint(|initCode|, 32).value, initCode);
    }
  }

  /** An `execute` whose inner bytes are an `approve`: target, value, spender, amount. */
  function DecodeExecuteApprove(calldata: Bytes): Option<(Bytes, nat, Bytes, nat)> {
    var outer :- DecodeExecute(calldata);
    var inner :- DecodeAddressUint(SELECTOR_APPROVE, outer.2);
    Some((outer.0, outer.1, inner.0, inner.1))
  }

  /** The initCode wrapper around a `createAccount`: factory, owner, salt. */
  function DecodeInitCall(calldata: Bytes): Option<(Bytes, Bytes, nat)> {
    var init :- DecodeGetSender(calldata);
    if |init| < 20 then None
    else
      var create :- DecodeAddressUint(SELECTOR_CREATE_ACCOUNT, init[20..]);
      Some((init[..20], create.0, create.1))
  }

  /** Decoding composes with the nested encodings. */
  lemma {:induction false} ApproveInExecute(target: Bytes, value: int, spender: Bytes, amount: int)
    requires |target| == |spender| == 20
    requires 0 <= value < Pow256(32) && 0 <= amount < Pow256(32)
    ensures EncodeApprove(spender, amount).Ok?
    ensures EncodeExecute(target, value, EncodeApprove(spender, amount).value).Ok?
    ensures DecodeExecuteApprove(EncodeExecute(target, value, EncodeApprove(spender, amount).value).value)
         == Some((target, value, spender, amount))
  {
    AddressUintRoundTrip(spender, amount);
    ExecuteRoundTrip(target, value, EncodeApprove(spender, amount).value);
  }

  lemma {:induction false} CreateAccountInInitCode(factory: Bytes, owner: Bytes, salt: int)
    requires |factory| == |owner| == 20
    requires 0 <= salt < Pow256(32)
    ensures EncodeCreateAccount(owner, salt).Ok?
    ensures EncodeGetSender(factory, EncodeCreateAccount(owner, salt).value).Ok?
    ensures DecodeInitCall(EncodeGetSender(factory, EncodeCreateAccount(owner, salt).value).value)
         == Some((factory, owner, salt))
  {
    AddressUintRoundTrip(owner, salt);
    var data := EncodeCreateAccount(owner, salt).value;
    GetSenderRoundTrip(factory, data);
    SplitAt20(factory, data);
  }

  lemma {:induction false} SplitAt20(factory: Bytes, data: Bytes)
    requires |factory| == 20
    ensures (factory + data)[..20] == factory && (factory + data)[20..] == data
  {
  }

  // ---- Return-data decoders of the health check ----

  /** Python's `b[lo:hi]` for non-negative bounds: out-of-range bounds are clamped. */
  function Slice(b: Bytes, lo: nat, hi: nat): Bytes {
    var h := if hi <= |b| then hi else |b|;
    if lo <= h then b[lo..h] else []
  }

  /** `blob[-20:]` turned into a checksum address, which raises unless it is 20 bytes. */
  function DecodeAddress(blob: Bytes): Result<Bytes> {
    if |blob| >= 20 then Ok(blob[|blob| - 20..]) else Raised
  }

  /** The text as bytes. */
  function DecodeString(blob: Bytes): Bytes {
    if |blob| < 64 then [] else Slice(blob, 64, 64 + Nat(Slice(blob, 32, 64)))
  }

  function DecodeOwners(blob: Bytes): Result<seq<Bytes>> {
    OwnersFrom(blob, 0, Nat(Slice(blob, 32, 64)))
  }

  function OwnersFrom(blob: Bytes, i: nat, length: nat): Result<seq<Bytes>>
    requires i <= length
    decreases length - i
  {
    if i == length then Ok([])
    else
      var owner :- DecodeAddress(Slice(blob, 64 + 32 * i, 64 + 32 * (i + 1)));
      var rest :- OwnersFrom(blob, i + 1, length);
      Ok([owner] + rest)
  }

  /** What the ABI specification makes a contract return for a `string`. */
  function ReturnString(s: Bytes): Bytes {
    Big(32, 32) + Big(|s|, 32) + s + Padding(|s|)
  }

  function AddressWords(owners: seq<Bytes>): Bytes {
    if owners == [] then [] else PaddedAddress(owners[0]) + AddressWords(owners[1..])
  }

  /** What the ABI specification makes a contract return for an `address[]`. */
  function ReturnOwners(owners: seq<Bytes>): Bytes {
    Big(32, 32) + Big(|owners|, 32) + AddressWords(owners)
  }

  lemma {:induction false} StringRoundTrip(s: Bytes)
    requires |s| < Pow256(32)
    ensures DecodeString(ReturnString(s)) == s
  {
    var blob := ReturnString(s);
    assert blob[32..64] == Big(|s|, 32);
    NatOfBig(|s|, 32);
    assert blob[64..64 + |s|] == s;
  }

  lemma {:induction false} AddressWordsLength(owners: seq<Bytes>)
    requires forall o :: o in owners ==> |o| == 20
    ensures |AddressWords(owners)| == 32 * |owners|
  {
    if owners != [] {
      AddressWordsLength(owners[1..]);
    }
  }

  lemma {:induction false} AddressWordsAt(owners: seq<Bytes>, i: nat)
    requires forall o :: o in owners ==> |o| == 20
    requires i < |owners|
    ensures WordAt(AddressWords(owners), 32 * i) == Some(PaddedAddress(owners[i]))
  {
    var head, tail := PaddedAddress(owners[0]), AddressWords(owners[1..]);
    if i == 0 {
      assert (head + tail)[0..32] == head;
    } else {
      AddressWordsAt(owners[1..], i - 1);
      WordAfter(head, tail, 32 * (i - 1));
    }
  }

  lemma {:induction false} WordAfter(head: Bytes, tail: Bytes, pos: nat)
    ensures WordAt(head + tail, |head| + pos) == WordAt(tail, pos)
  {
    if pos + 32 <= |tail| {
      assert (head + tail)[|head| + pos..|head| + pos + 32] == tail[pos..pos + 32];
    }
  }

  lemma {:induction false} OwnerWord(owners: seq<Bytes>, i: nat)
    requires forall o :: o in owners ==> |o| == 20
    requires i < |owners|
    ensures DecodeAddress(Slice(ReturnOwners(owners), 64 + 32 * i, 64 + 32 * (i + 1))) == Ok(owners[i])
  {
    AddressWordsAt(owners, i);
    WordAfter(Big(32, 32) + Big(|owners|, 32), AddressWords(owners), 32 * i);
    SliceIsWord(ReturnOwners(owners), 64 + 32 * i, PaddedAddress(owners[i]));
    PaddedParts(owners[i]);
  }

  lemma {:induction false} SliceIsWord(b: Bytes, pos: nat, w: Bytes)
    requires WordAt(b, pos) == Some(w)
    ensures Slice(b, pos, pos + 32) == w
  {
  }

  lemma {:induction false} HeadTail(s: seq<Bytes>, i: nat)
    requires i < |s|
    ensures s[i..] == [s[i]] + s[i + 1..]
  {
  }

  lemma {:induction false} OwnersFromWords(blob: Bytes, owners: seq<Bytes>, i: nat)
    requires i <= |owners|
    requires forall k {:trigger owners[k]} :: 0 <= k < |owners| ==>
      DecodeAddress(Slice(blob, 64 + 32 * k, 64 + 32 * (k + 1))) == Ok(owners[k])
    ensures OwnersFrom(blob, i, |owners|) == Ok(owners[i..])
    decreases |owners| - i
  {
    if i < |owners| {
      OwnersFromWords(blob, owners, i + 1);
      HeadTail(owners, i);
      var word := Slice(blob, 64 + 32 * i, 64 + 32 * (i + 1));
      assert DecodeAddress(word) == Ok(owners[i]);
      NextOwner(blob, owners, i);
    } else {
      assert owners[i..] == [];
    }
  }

  lemma {:induction false} NextOwner(blob: Bytes, owners: seq<Bytes>, i: nat)
    requires i < |owners| && OwnersFrom(blob, i + 1, |owners|) == Ok(owners[i + 1..])
    requires DecodeAddress(Slice(blob, 64 + 32 * i, 64 + 32 * (i + 1))) == Ok(owners[i])
    ensures OwnersFrom(blob, i, |owners|) == Ok([owners[i]] + owners[i + 1..])
  {
  }

  lemma {:induction false} OwnersRoundTrip(owners: seq<Bytes>)
    requires forall o :: o in owners ==> |o| == 20
    requires |owners| < Pow256(32)
    ensures DecodeOwners(ReturnOwners(owners)) == Ok(owners)
  {
    var blob := ReturnOwners(owners);
    assert blob[32..64] == Big(|owners|, 32);
    NatOfBig(|owners|, 32);
    forall k | 0 <= k < |owners|
      ensures DecodeAddress(Slice(blob, 64 + 32 * k, 64 + 32 * (k + 1))) == Ok(owners[k])
    {
      OwnerWord(owners, k);
    }
    OwnersFromWords(blob, owners, 0);
  }
}
