/** Receipts, the bytes a settler signs and the standalone verifier: scripts/verify_prsm_receipt.py. */
module Verifier {
  import opened Outcomes
  import opened Words
  import opened Hex
  import opened JsonNumbers
  import opened Canonical
  import opened Payload

  datatype Position = Position(stage: int, slot: int, node: string)

  /** One proof of the activation chain: its stage index and everything else it holds. */
  datatype StageProof = StageProof(stageIndex: int, rest: string)

  datatype StageChain = StageChain(requestId: string, proofs: seq<StageProof>)

  datatype PerStage = Missing | NotNumbers | Numbers(epsilons: seq<Number>)

  /** The claimed total: null or missing, something that is no number, or a number. */
  datatype ClaimedTotal = NoTotal | NotNumeric(text: string) | Total(number: Number)

  datatype Trace = Trace(perStage: PerStage, total: ClaimedTotal, rest: string)

  /** A parsed receipt. Numbers the payload formats are held as their formatted text. */
  datatype Receipt = Receipt(
    jobId: string, requestId: string, modelId: string, contentTier: string, privacyTier: string,
    epsilon: string, teeType: string, attestation: string, outputHash: string, duration: string,
    cost: string, settler: string, signature: string, streamed: bool, trace: Option<Trace>,
    topology: Option<seq<Position>>, partial: Option<string>, promptHash: Option<string>,
    chain: Option<StageChain>)

  /** SHA-256 in hexadecimal and the `json.dumps(..., sort_keys=True)` texts that go into it. */
  datatype Codec = Codec(
    digest: string -> string, dumpTrace: Trace -> string, dumpPositions: seq<Position> -> string,
    dumpPartial: string -> string, dumpChain: StageChain -> string)

  function ByPlace(p: Position): Key {
    (p.stage, p.slot)
  }

  function ByStage(p: StageProof): Key {
    (p.stageIndex, 0)
  }

  // ---- The six hashed or copied sections ----

  function TraceText(c: Codec, r: Receipt): Option<string> {
    if r.trace.None? then None else Some(c.dumpTrace(r.trace.value))
  }

  function TopologyText(c: Codec, r: Receipt): Option<string> {
    if r.topology.None? then None else Some(c.dumpPositions(Sort(ByPlace, r.topology.value)))
  }

  function PartialText(c: Codec, r: Receipt): Option<string> {
    if r.partial.None? then None else Some(c.dumpPartial(r.partial.value))
  }

  function ChainText(c: Codec, r: Receipt): Option<string> {
    if r.chain.None? then None
    else Some(c.dumpChain(StageChain(r.chain.value.requestId, Sort(ByStage, r.chain.value.proofs))))
  }

  function Digested(c: Codec, text: Option<string>): Option<string> {
    if text.None? then None else Some(c.digest(text.value))
  }

  /** What the settler's signature covers. */
  function ContentOf(c: Codec, r: Receipt): Content {
    Content(
      [r.jobId, r.requestId, r.modelId, r.contentTier, r.privacyTier, r.epsilon, r.teeType,
       r.attestation, r.outputHash, r.duration, r.cost, r.settler],
      [if r.streamed then Some("true") else None, Digested(c, TraceText(c, r)), Digested(c, TopologyText(c, r)),
       Digested(c, PartialText(c, r)), r.promptHash, Digested(c, ChainText(c, r))])
  }

  /** Append the sections one after the other, as the source does. */
  method BuildSigningPayload(c: Codec, r: Receipt) returns (payload: string)
    ensures payload == PayloadOf(ContentOf(c, r))
    ensures SingleLines(r) ==> FieldLines(r, payload)
    ensures SingleLines(r) && DigestsOneLine(c, r) ==> SectionLines(c, r, payload)
  {
    if SingleLines(r) {
      PayloadLines(c, r);
    }
    var parts := [r.jobId, r.requestId, r.modelId, r.contentTier, r.privacyTier, r.epsilon, r.teeType,
                  r.attestation, r.outputHash, r.duration, r.cost, r.settler];
    var half := AppendFirst(c, r, parts);
    FirstHalf(c, r, half);
    parts := AppendLast(c, r, half);
    SecondHalf(c, r, half, parts);
    payload := Join(parts);
  }

  /** The twelve fields stand in the first twelve lines, in this order. */
  ghost predicate FieldLines(r: Receipt, payload: string) {
    && Line(payload, 0) == Some(r.jobId)
    && Line(payload, 1) == Some(r.requestId)
    && Line(payload, 2) == Some(r.modelId)
    && Line(payload, 3) == Some(r.contentTier)
    && Line(payload, 4) == Some(r.privacyTier)
    && Line(payload, 5) == Some(r.epsilon)
    && Line(payload, 6) == Some(r.teeType)
    && Line(payload, 7) == Some(r.attestation)
    && Line(payload, 8) == Some(r.outputHash)
    && Line(payload, 9) == Some(r.duration)
    && Line(payload, 10) == Some(r.cost)
    && Line(payload, 11) == Some(r.settler)
  }

  /** The lines of the sections a receipt has. */
  function Sections(c: Codec, r: Receipt): seq<string> {
    (if r.streamed then ["streamed_output:true"] else [])
    + (if r.trace.Some? then ["activation_noise_trace:" + c.digest(c.dumpTrace(r.trace.value))] else [])
    + (if r.topology.Some?
       then ["topology_assignment:" + c.digest(c.dumpPositions(Sort(ByPlace, r.topology.value)))] else [])
    + (if r.partial.Some? then ["partial_completion:" + c.digest(c.dumpPartial(r.partial.value))] else [])
    + (if r.promptHash.Some? then ["prompt_hash:" + r.promptHash.value] else [])
    + (if r.chain.Some?
       then ["stage_activation_chain:"
             + c.digest(c.dumpChain(StageChain(r.chain.value.requestId, Sort(ByStage, r.chain.value.proofs))))]
       else [])
  }

  /** From line 12 on come these sections and nothing else. */
  ghost predicate SectionLines(c: Codec, r: Receipt, payload: string) {
    forall k :: k >= 12 ==>
      Line(payload, k) == if k - 12 < |Sections(c, r)| then Some(Sections(c, r)[k - 12]) else None
  }

  ghost predicate DigestsOneLine(c: Codec, r: Receipt) {
    forall x :: x in Texts(c, r) ==> OneLine(c.digest(x))
  }

  /** The signed bytes line by line, whatever the receipt. */
  lemma {:induction false} PayloadLines(c: Codec, r: Receipt)
    requires SingleLines(r)
    ensures FieldLines(r, PayloadOf(ContentOf(c, r)))
    ensures DigestsOneLine(c, r) ==> SectionLines(c, r, PayloadOf(ContentOf(c, r)))
  {
    BaseLinesRead(c, r);
    if DigestsOneLine(c, r) {
      SingleLinesContent(c, r);
      SectionsInOrder(c, r);
      forall k | k >= 12
        ensures Line(PayloadOf(ContentOf(c, r)), k)
             == if k - 12 < |Sections(c, r)| then Some(Sections(c, r)[k - 12]) else None
      {
        LaterLines(ContentOf(c, r), k);
      }
    }
  }

  lemma {:induction false} BaseLinesRead(c: Codec, r: Receipt)
    requires SingleLines(r)
    ensures FieldLines(r, PayloadOf(ContentOf(c, r)))
  {
    var k := ContentOf(c, r);
    var payload := PayloadOf(k);
    forall i | 0 <= i < 12 ensures Line(payload, i) == Some(k.base[i]) {
      BaseLines(k, i);
    }
    Named(c, r, payload);
  }

  /** Which field is which line. */
  lemma {:induction false} Named(c: Codec, r: Receipt, payload: string)
    requires forall i :: 0 <= i < 12 ==> Line(payload, i) == Some(ContentOf(c, r).base[i])
    ensures FieldLines(r, payload)
  {
    var b := ContentOf(c, r).base;
    assert Line(payload, 0) == Some(b[0]) && Line(payload, 1) == Some(b[1]) && Line(payload, 2) == Some(b[2]);
    assert Line(payload, 3) == Some(b[3]) && Line(payload, 4) == Some(b[4]) && Line(payload, 5) == Some(b[5]);
    assert Line(payload, 6) == Some(b[6]) && Line(payload, 7) == Some(b[7]) && Line(payload, 8) == Some(b[8]);
    assert Line(payload, 9) == Some(b[9]) && Line(payload, 10) == Some(b[10]) && Line(payload, 11) == Some(b[11]);
  }

  lemma {:induction false} SectionsInOrder(c: Codec, r: Receipt)
    ensures SectionParts(ContentOf(c, r).sections, 0) == Sections(c, r)
  {
    SixParts(ContentOf(c, r).sections);
    SectionsOneByOne(c, r);
  }

  lemma {:induction false} SectionsOneByOne(c: Codec, r: Receipt)
    ensures
      var s := ContentOf(c, r).sections;
      Sections(c, r) == SectionPart(s, 0) + SectionPart(s, 1) + SectionPart(s, 2)
                        + SectionPart(s, 3) + SectionPart(s, 4) + SectionPart(s, 5)
  {
    var s := ContentOf(c, r).sections;
    StreamedLine();
    assert SectionPart(s, 0) == if r.streamed then ["streamed_output:true"] else [];
    assert SectionPart(s, 1)
        == if r.trace.Some? then ["activation_noise_trace:" + c.digest(c.dumpTrace(r.trace.value))] else [];
    assert SectionPart(s, 3)
        == if r.partial.Some? then ["partial_completion:" + c.digest(c.dumpPartial(r.partial.value))] else [];
    assert SectionPart(s, 4) == if r.promptHash.Some? then ["prompt_hash:" + r.promptHash.value] else [];
  }

  method AppendFirst(c: Codec, r: Receipt, base: seq<string>) returns (parts: seq<string>)
    ensures
      var s := ContentOf(c, r).sections;
      parts == base + SectionPart(s, 0) + SectionPart(s, 1) + SectionPart(s, 2)
  {
    ghost var s := ContentOf(c, r).sections;
    parts := base;
    if r.streamed {
      StreamedLine();
      parts := parts + ["streamed_output:true"];
    }
    assert parts == base + SectionPart(s, 0);
    ghost var before := parts;
    if r.trace.Some? {
      parts := parts + ["activation_noise_trace:" + c.digest(c.dumpTrace(r.trace.value))];
    }
    assert parts == before + SectionPart(s, 1);
    before := parts;
    if r.topology.Some? {
      var stableHash := TopologyStableHash(c, r.topology.value);
      parts := parts + ["topology_assignment:" + stableHash];
    }
    assert parts == before + SectionPart(s, 2);
  }

  method AppendLast(c: Codec, r: Receipt, half: seq<string>) returns (parts: seq<string>)
    ensures
      var s := ContentOf(c, r).sections;
      parts == half + SectionPart(s, 3) + SectionPart(s, 4) + SectionPart(s, 5)
  {
    ghost var s := ContentOf(c, r).sections;
    parts := half;
    if r.partial.Some? {
      parts := parts + ["partial_completion:" + c.digest(c.dumpPartial(r.partial.value))];
    }
    assert parts == half + SectionPart(s, 3);
    ghost var before := parts;
    if r.promptHash.Some? {
      parts := parts + ["prompt_hash:" + r.promptHash.value];
    }
    assert parts == before + SectionPart(s, 4);
    before := parts;
    if r.chain.Some? {
      var proofs := Sort(ByStage, r.chain.value.proofs);
      parts := parts + ["stage_activation_chain:" + c.digest(c.dumpChain(StageChain(r.chain.value.requestId, proofs)))];
    }
    assert parts == before + SectionPart(s, 5);
  }

  lemma {:induction false} StreamedLine()
    ensures "streamed_output:true" == Tag(0) + "true"
  {
  }

  /** The positions that are hashed: the given ones, by stage and within a stage by slot, stable otherwise. */
  lemma {:induction false} PositionsSorted(positions: seq<Position>)
    ensures
      var s := Sort(ByPlace, positions);
      && (forall i, j :: 0 <= i < j < |s| ==>
            s[i].stage < s[j].stage || (s[i].stage == s[j].stage && s[i].slot <= s[j].slot))
      && forall stage, slot :: Class(ByPlace, s, (stage, slot)) == Class(ByPlace, positions, (stage, slot))
  {
    SortFacts(ByPlace, positions);
    var s := Sort(ByPlace, positions);
    forall i, j | 0 <= i < j < |s|
      ensures s[i].stage < s[j].stage || (s[i].stage == s[j].stage && s[i].slot <= s[j].slot)
    {
      assert !Before(ByPlace(s[j]), ByPlace(s[i]));
    }
  }

  /** The proofs that are hashed: the given ones by stage index, stable otherwise. */
  lemma {:induction false} ProofsSorted(proofs: seq<StageProof>)
    ensures
      var s := Sort(ByStage, proofs);
      && (forall i, j :: 0 <= i < j < |s| ==> s[i].stageIndex <= s[j].stageIndex)
      && forall stage :: Class(ByStage, s, (stage, 0)) == Class(ByStage, proofs, (stage, 0))
  {
    SortFacts(ByStage, proofs);
    var s := Sort(ByStage, proofs);
    forall i, j | 0 <= i < j < |s| ensures s[i].stageIndex <= s[j].stageIndex {
      assert !Before(ByStage(s[j]), ByStage(s[i]));
    }
  }

  function TopologyStableHash(c: Codec, positions: seq<Position>): string {
    c.digest(c.dumpPositions(Sort(ByPlace, positions)))
  }

  lemma {:induction false} Regroup(base: seq<string>, a: seq<string>, b: seq<string>, x: seq<string>, rest: seq<string>)
    ensures base + (a + (b + (x + rest))) == base + a + b + x + rest
    ensures a + (b + (x + [])) == a + b + x
  {
  }

  lemma {:induction false} FirstHalf(c: Codec, r: Receipt, half: seq<string>)
    requires
      var k := ContentOf(c, r);
      half == k.base + SectionPart(k.sections, 0) + SectionPart(k.sections, 1) + SectionPart(k.sections, 2)
    ensures Parts(ContentOf(c, r)) == half + SectionParts(ContentOf(c, r).sections, 3)
  {
    var k := ContentOf(c, r);
    Regroup(k.base, SectionPart(k.sections, 0), SectionPart(k.sections, 1), SectionPart(k.sections, 2),
      SectionParts(k.sections, 3));
  }

  lemma {:induction false} SecondHalf(c: Codec, r: Receipt, half: seq<string>, parts: seq<string>)
    requires Parts(ContentOf(c, r)) == half + SectionParts(ContentOf(c, r).sections, 3)
    requires
      var s := ContentOf(c, r).sections;
      parts == half + SectionPart(s, 3) + SectionPart(s, 4) + SectionPart(s, 5)
    ensures parts == Parts(ContentOf(c, r))
  {
    var s := ContentOf(c, r).sections;
    Regroup(half, SectionPart(s, 3), SectionPart(s, 4), SectionPart(s, 5), []);
    assert parts + [] == parts;
  }

  // ---- What equal payloads mean for the receipts ----

  ghost predicate SameList<T(!new)>(key: T -> Key, a: Option<seq<T>>, b: Option<seq<T>>) {
    a.Some? == b.Some? && (a.Some? ==> SameClasses(key, a.value, b.value))
  }

  /** Agreement on everything signed: positions and proofs up to a reordering that keeps equal keys in place. */
  ghost predicate Agree(a: Receipt, b: Receipt) {
    && a.(signature := "", topology := None, chain := None) == b.(signature := "", topology := None, chain := None)
    && SameList(ByPlace, a.topology, b.topology)
    && a.chain.Some? == b.chain.Some?
    && (a.chain.Some? ==>
          && a.chain.value.requestId == b.chain.value.requestId
          && SameClasses(ByStage, a.chain.value.proofs, b.chain.value.proofs))
  }

  function Present(text: Option<string>): set<string> {
    if text.None? then {} else {text.value}
  }

  /** The texts a receipt feeds to the digest. */
  function Texts(c: Codec, r: Receipt): set<string> {
    Present(TraceText(c, r)) + Present(TopologyText(c, r)) + Present(PartialText(c, r)) + Present(ChainText(c, r))
  }

  /** The JSON texts of the two receipts at hand determine what they were dumped from. */
  ghost predicate Faithful(c: Codec, a: Receipt, b: Receipt) {
    && (TraceText(c, a) == TraceText(c, b) ==> a.trace == b.trace)
    && (PartialText(c, a) == PartialText(c, b) ==> a.partial == b.partial)
    && (a.topology.Some? && b.topology.Some? ==> FaithfulPositions(c, a.topology.value, b.topology.value))
    && (a.chain.Some? && b.chain.Some? && ChainText(c, a) == ChainText(c, b) ==>
          && a.chain.value.requestId == b.chain.value.requestId
          && Sort(ByStage, a.chain.value.proofs) == Sort(ByStage, b.chain.value.proofs))
  }

  ghost predicate FaithfulPositions(c: Codec, p: seq<Position>, q: seq<Position>) {
    c.dumpPositions(Sort(ByPlace, p)) == c.dumpPositions(Sort(ByPlace, q)) ==> Sort(ByPlace, p) == Sort(ByPlace, q)
  }

  ghost predicate CollisionFree(c: Codec, texts: set<string>) {
    && (forall x :: x in texts ==> OneLine(c.digest(x)))
    && (forall x, y :: x in texts && y in texts && c.digest(x) == c.digest(y) ==> x == y)
  }

  /** The digest of the positions is canonical: equal exactly for lists that agree place by place. */
  lemma {:induction false} TopologyDigest(c: Codec, p: seq<Position>, q: seq<Position>)
    requires FaithfulPositions(c, p, q)
    requires CollisionFree(c, {c.dumpPositions(Sort(ByPlace, p)), c.dumpPositions(Sort(ByPlace, q))})
    ensures TopologyStableHash(c, p) == TopologyStableHash(c, q) <==> SameClasses(ByPlace, p, q)
    ensures DistinctKeys(ByPlace, p) && DistinctKeys(ByPlace, q) ==>
              (TopologyStableHash(c, p) == TopologyStableHash(c, q) <==> forall x :: x in p <==> x in q)
  {
    SameSortIff(ByPlace, p, q);
    if DistinctKeys(ByPlace, p) && DistinctKeys(ByPlace, q) {
      PermutationInvariant(ByPlace, p, q);
    }
  }

  lemma {:induction false} TopologySection(c: Codec, a: Receipt, b: Receipt)
    requires Faithful(c, a, b) && CollisionFree(c, Texts(c, a) + Texts(c, b))
    ensures Digested(c, TopologyText(c, a)) == Digested(c, TopologyText(c, b))
            <==> SameList(ByPlace, a.topology, b.topology)
  {
    if a.topology.Some? && b.topology.Some? {
      assert TopologyText(c, a).value in Texts(c, a) && TopologyText(c, b).value in Texts(c, b);
      SameSortIff(ByPlace, a.topology.value, b.topology.value);
    }
  }

  /** The chain section pins the request and, with distinct stage indices, exactly the set of proofs. */
  lemma {:induction false} ChainSection(c: Codec, a: Receipt, b: Receipt)
    requires Faithful(c, a, b) && CollisionFree(c, Texts(c, a) + Texts(c, b))
    ensures Digested(c, ChainText(c, a)) == Digested(c, ChainText(c, b)) <==>
            a.chain.Some? == b.chain.Some? &&
            (a.chain.Some? ==>
               a.chain.value.requestId == b.chain.value.requestId &&
               SameClasses(ByStage, a.chain.value.proofs, b.chain.value.proofs))
    ensures a.chain.Some? && b.chain.Some? && a.chain.value.requestId == b.chain.value.requestId &&
            DistinctKeys(ByStage, a.chain.value.proofs) && DistinctKeys(ByStage, b.chain.value.proofs) ==>
              (Digested(c, ChainText(c, a)) == Digested(c, ChainText(c, b)) <==>
               forall x :: x in a.chain.value.proofs <==> x in b.chain.value.proofs)
  {
    if a.chain.Some? && b.chain.Some? {
      var x, y := a.chain.value, b.chain.value;
      assert ChainText(c, a).value in Texts(c, a) && ChainText(c, b).value in Texts(c, b);
      SameSortIff(ByStage, x.proofs, y.proofs);
      if DistinctKeys(ByStage, x.proofs) && DistinctKeys(ByStage, y.proofs) {
        PermutationInvariant(ByStage, x.proofs, y.proofs);
      }
    }
  }

  lemma {:induction false} PlainSections(c: Codec, a: Receipt, b: Receipt)
    requires Faithful(c, a, b) && CollisionFree(c, Texts(c, a) + Texts(c, b))
    ensures Digested(c, TraceText(c, a)) == Digested(c, TraceText(c, b)) <==> a.trace == b.trace
    ensures Digested(c, PartialText(c, a)) == Digested(c, PartialText(c, b)) <==> a.partial == b.partial
  {
    if a.trace.Some? && b.trace.Some? {
      assert TraceText(c, a).value in Texts(c, a) && TraceText(c, b).value in Texts(c, b);
    }
    if a.partial.Some? && b.partial.Some? {
      assert PartialText(c, a).value in Texts(c, a) && PartialText(c, b).value in Texts(c, b);
    }
  }

  /** Equal signed contents are exactly agreement of the receipts. */
  lemma {:induction false} SameContentIff(c: Codec, a: Receipt, b: Receipt)
    requires Faithful(c, a, b) && CollisionFree(c, Texts(c, a) + Texts(c, b))
    ensures ContentOf(c, a) == ContentOf(c, b) <==> Agree(a, b)
  {
    TopologySection(c, a, b);
    ChainSection(c, a, b);
    PlainSections(c, a, b);
    var x, y := ContentOf(c, a), ContentOf(c, b);
    if x == y {
      BaseFields(c, a, b);
      assert x.sections[0] == y.sections[0] && x.sections[1] == y.sections[1] && x.sections[2] == y.sections[2];
      assert x.sections[3] == y.sections[3] && x.sections[4] == y.sections[4] && x.sections[5] == y.sections[5];
    }
  }

  lemma {:induction false} BaseFields(c: Codec, a: Receipt, b: Receipt)
    requires ContentOf(c, a).base == ContentOf(c, b).base
    ensures a.jobId == b.jobId && a.requestId == b.requestId && a.modelId == b.modelId && a.contentTier == b.contentTier
    ensures a.privacyTier == b.privacyTier && a.epsilon == b.epsilon && a.teeType == b.teeType
    ensures a.attestation == b.attestation && a.outputHash == b.outputHash && a.duration == b.duration
    ensures a.cost == b.cost && a.settler == b.settler
  {
    var x, y := ContentOf(c, a).base, ContentOf(c, b).base;
    assert x[0] == y[0] && x[1] == y[1] && x[2] == y[2] && x[3] == y[3];
    assert x[4] == y[4] && x[5] == y[5] && x[6] == y[6] && x[7] == y[7];
    assert x[8] == y[8] && x[9] == y[9] && x[10] == y[10] && x[11] == y[11];
  }

  /** No field that is copied into the payload holds a newline. */
  ghost predicate SingleLines(r: Receipt) {
    && OneLiners([r.jobId, r.requestId, r.modelId, r.contentTier, r.privacyTier, r.epsilon, r.teeType,
                  r.attestation, r.outputHash, r.duration, r.cost, r.settler])
    && (r.promptHash.Some? ==> OneLine(r.promptHash.value))
  }

  lemma {:induction false} SingleLinesContent(c: Codec, r: Receipt)
    requires SingleLines(r) && DigestsOneLine(c, r)
    ensures ContentOf(c, r).Valid() && ContentOf(c, r).NewlineFree()
  {
    assert r.trace.Some? ==> TraceText(c, r).value in Texts(c, r);
    assert r.topology.Some? ==> TopologyText(c, r).value in Texts(c, r);
    assert r.partial.Some? ==> PartialText(c, r).value in Texts(c, r);
    assert r.chain.Some? ==> ChainText(c, r).value in Texts(c, r);
  }

  /** The signed bytes of two receipts are equal if and only if the receipts agree on everything signed. */
  lemma {:induction false} SamePayloadIff(c: Codec, a: Receipt, b: Receipt)
    requires SingleLines(a) && SingleLines(b)
    requires Faithful(c, a, b) && CollisionFree(c, Texts(c, a) + Texts(c, b))
    ensures PayloadOf(ContentOf(c, a)) == PayloadOf(ContentOf(c, b)) <==> Agree(a, b)
  {
    SingleLinesContent(c, a);
    SingleLinesContent(c, b);
    PayloadUnambiguous(ContentOf(c, a), ContentOf(c, b));
    SameContentIff(c, a, b);
  }

  // ---- The verifier ----

  datatype Envelope = Envelope(version: string, stages: seq<string>)

  datatype Finding =
    | MissingSettler | LookupFailed | NotRegistered | BadSignature | BadEnvelope
    | TraceIncomplete | TraceNotNumbers | TraceSumDiffers

  /** The chain read and the library calls the verifier makes. */
  datatype Env = Env(
    lookup: string -> Result<Bytes>,
    base64: Bytes -> Result<Bytes>,
    parse: Bytes -> Result<Envelope>,
    ed25519: (Bytes, string, Bytes) -> bool)

  datatype Report = Report(
    valid: bool, anchorLookup: Option<Bytes>, signatureValid: Option<bool>,
    envelope: Option<Envelope>, noiseTrace: Option<seq<Finding>>, findings: seq<Finding>)

  /** "PRSM-MS-ATT-V1:" in ASCII. */
  const PREFIX: Bytes := [0x50, 0x52, 0x53, 0x4D, 0x2D, 0x4D, 0x53, 0x2D, 0x41, 0x54, 0x54, 0x2D, 0x56, 0x31, 0x3A]

  lemma {:induction false} PrefixText()
    ensures |PREFIX| == |"PRSM-MS-ATT-V1:"|
    ensures forall i :: 0 <= i < |PREFIX| ==> PREFIX[i] == "PRSM-MS-ATT-V1:"[i] as int
  {
  }

  function DecodeEnvelope(e: Env, attestation: string): Result<Envelope> {
    var blob :- FromHex(attestation);
    if PREFIX <= blob then e.parse(blob[|PREFIX|..]) else Raised
  }

  /** What a settler puts into a receipt: the prefixed JSON text of the envelope, in hexadecimal. */
  function EncodeEnvelope(dump: Envelope -> Bytes, x: Envelope): string {
    ToHex(PREFIX + dump(x))
  }

  /**
   Whatever JSON codec is used, an encoded envelope is decoded to itself, and a receipt with another prefix is not
   accepted.
   */
  lemma {:induction false} EnvelopeRoundTrip(e: Env, dump: Envelope -> Bytes, x: Envelope, other: Bytes)
    requires e.parse(dump(x)) == Ok(x)
    ensures DecodeEnvelope(e, EncodeEnvelope(dump, x)) == Ok(x)
    ensures !(PREFIX <= other) ==> DecodeEnvelope(e, ToHex(other)).Raised?
  {
    HexRoundTrip(PREFIX + dump(x));
    HexRoundTrip(other);
    assert (PREFIX + dump(x))[|PREFIX|..] == dump(x);
  }

  const TOLERANCE := 0.000001

  /** Stages and total are there, the stages are numbers and the total is none: the subtraction raises. */
  predicate TraceRaises(t: Trace) {
    t.perStage.Numbers? && t.total.NotNumeric?
  }

  /** What the check computes: the sum of the stages less the claimed total. */
  function Gap(t: Trace): Number
    requires t.perStage.Numbers? && t.total.Total?
  {
    Add(Sum(t.perStage.epsilons), Negate(t.total.number))
  }

  /** A trace passes when its stages and total are numbers whose gap does not exceed 1e-6. */
  ghost predicate TraceBalances(t: Trace) {
    t.perStage.Numbers? && t.total.Total? && !Exceeds(Gap(t), TOLERANCE)
  }

  ghost function TraceFindings(t: Trace): seq<Finding> {
    if t.perStage.Missing? || t.total.NoTotal? then [TraceIncomplete]
    else if t.perStage.NotNumbers? then [TraceNotNumbers]
    else if TraceBalances(t) then [] else [TraceSumDiffers]
  }

  method CheckTrace(t: Trace) returns (r: Result<seq<Finding>>)
    ensures r.Raised? <==> t.perStage.Numbers? && t.total.NotNumeric?
    ensures r == Ok([]) <==> TraceBalances(t)
    ensures r.Ok? ==> r.value == TraceFindings(t)
  {
    if t.perStage.Missing? || t.total.NoTotal? {
      return Ok([TraceIncomplete]);
    }
    if t.perStage.NotNumbers? {
      return Ok([TraceNotNumbers]);
    }
    var xs := t.perStage.epsilons;
    var summed := Finite(0.0);
    for i := 0 to |xs|
      invariant summed == Sum(xs[..i])
    {
      assert xs[..i + 1][..i] == xs[..i];
      summed := Add(summed, xs[i]);
    }
    assert xs[..|xs|] == xs;
    if t.total.NotNumeric? {
      return Raised;
    }
    r := Ok(if Exceeds(Add(summed, Negate(t.total.number)), TOLERANCE) then [TraceSumDiffers] else []);
  }

  /**
   What passes, exactly: finite numbers that add up within 1e-6, and every trace whose gap is not a number: a NaN
   among the stages or as the total, infinities of both signs, or an infinite total reached by the sum.
   */
  lemma {:induction false} BalancesExactly(t: Trace)
    requires t.perStage.Numbers? && t.total.Total?
    ensures
      var xs, total := t.perStage.epsilons, t.total.number;
      TraceBalances(t) <==>
        || (total.Finite? && (forall x :: x in xs ==> x.Finite?)
            && -0.000001 <= RealSum(xs) - total.value <= 0.000001)
        || NaN in xs || total.NaN? || (Infinite(true) in xs && Infinite(false) in xs)
        || (total.Infinite? && total in xs)
  {
    var xs, total := t.perStage.epsilons, t.total.number;
    SumExactly(xs);
    if Sum(xs).Infinite? {
      assert Infinite(Sum(xs).positive) in xs;
    }
  }

  /** The key a registration stands for: 32 raw bytes, or whatever base64 makes of it. */
  function KeyOf(e: Env, registered: Bytes): Bytes {
    if |registered| == 32 then registered
    else if e.base64(registered).Ok? then e.base64(registered).value else registered
  }

  ghost predicate Signed(c: Codec, e: Env, r: Receipt) {
    && r.settler != "" && r.signature != ""
    && e.lookup(r.settler).Ok? && e.lookup(r.settler).value != []
    && FromHex(r.signature).Ok?
    && e.ed25519(KeyOf(e, e.lookup(r.settler).value), PayloadOf(ContentOf(c, r)), FromHex(r.signature).value)
  }

  /** What a valid receipt is, all checks together. */
  ghost predicate Genuine(c: Codec, e: Env, r: Receipt) {
    && Signed(c, e, r)
    && DecodeEnvelope(e, r.attestation).Ok?
    && (r.trace.Some? ==> TraceBalances(r.trace.value))
  }

  /** The receipts on which the verifier stops before it looks at the signature. */
  predicate Unchecked(e: Env, r: Receipt) {
    r.settler == "" || r.signature == "" || e.lookup(r.settler).Raised? || e.lookup(r.settler).value == []
  }

  /** Every finding of a verification, in order. */
  ghost function Findings(c: Codec, e: Env, r: Receipt): seq<Finding> {
    if r.settler == "" || r.signature == "" then [MissingSettler]
    else if e.lookup(r.settler).Raised? then [LookupFailed]
    else if e.lookup(r.settler).value == [] then [NotRegistered]
    else
      (if Signed(c, e, r) then [] else [BadSignature])
      + (if DecodeEnvelope(e, r.attestation).Ok? then [] else [BadEnvelope])
      + (if r.trace.Some? then TraceFindings(r.trace.value) else [])
  }

  /** Each finding by name: when it is among the findings, whatever else is. */
  lemma {:induction false} FindingsExactly(c: Codec, e: Env, r: Receipt)
    ensures
      var found := Findings(c, e, r);
      var named := r.settler != "" && r.signature != "";
      var checked := !Unchecked(e, r);
      && (MissingSettler in found <==> !named)
      && (LookupFailed in found <==> named && e.lookup(r.settler).Raised?)
      && (NotRegistered in found <==> named && e.lookup(r.settler) == Ok([]))
      && (BadSignature in found <==> checked && !Signed(c, e, r))
      && (BadEnvelope in found <==> checked && DecodeEnvelope(e, r.attestation).Raised?)
      && (TraceIncomplete in found <==>
            checked && r.trace.Some? && (r.trace.value.perStage.Missing? || r.trace.value.total.NoTotal?))
      && (TraceNotNumbers in found <==>
            checked && r.trace.Some? && r.trace.value.perStage.NotNumbers? && !r.trace.value.total.NoTotal?)
      && (TraceSumDiffers in found <==>
            checked && r.trace.Some? && r.trace.value.perStage.Numbers? && !r.trace.value.total.NoTotal?
            && !TraceBalances(r.trace.value))
  {
  }

  function Decoded(envelope: Result<Envelope>): Option<Envelope> {
    if envelope.Ok? then Some(envelope.value) else None
  }

  method Verify(c: Codec, e: Env, r: Receipt) returns (out: Result<Report>)
    ensures out.Ok? && out.value.valid <==> Genuine(c, e, r)
    ensures out.Raised? <==>
              !Unchecked(e, r) && (FromHex(r.signature).Raised? || (r.trace.Some? && TraceRaises(r.trace.value)))
    ensures out.Ok? ==> out.value.findings == Findings(c, e, r) && (out.value.valid <==> out.value.findings == [])
    ensures out.Ok? ==>
              && (out.value.signatureValid == None <==> Unchecked(e, r))
              && (out.value.signatureValid == Some(true) <==> Signed(c, e, r))
              && (Unchecked(e, r) ==> out.value.anchorLookup == None)
              && (!Unchecked(e, r) ==>
                    var raw := e.lookup(r.settler).value;
                    out.value.anchorLookup ==
                      Some(if |raw| != 32 && e.base64(raw).Ok? then e.base64(raw).value else raw))
              && out.value.envelope == (if Unchecked(e, r) then None else Decoded(DecodeEnvelope(e, r.attestation)))
  {
    var report := Report(false, None, None, None, None, []);
    if r.settler == "" || r.signature == "" {
      return Ok(report.(findings := [MissingSettler]));
    }
    var registered := e.lookup(r.settler);
    if registered.Raised? {
      return Ok(report.(findings := [LookupFailed]));
    }
    if registered.value == [] {
      return Ok(report.(findings := [NotRegistered]));
    }
    out := VerifyRegistered(c, e, r, KeyOf(e, registered.value));
  }

  method CheckSignature(c: Codec, e: Env, r: Receipt, key: Bytes) returns (out: Result<bool>)
    requires !Unchecked(e, r) && key == KeyOf(e, e.lookup(r.settler).value)
    ensures out.Raised? <==> FromHex(r.signature).Raised?
    ensures out.Ok? ==> (out.value <==> Signed(c, e, r))
  {
    var payload := BuildSigningPayload(c, r);
    var signature :- FromHex(r.signature);
    out := Ok(e.ed25519(key, payload, signature));
  }

  /** The checks behind the key lookup. */
  method VerifyRegistered(c: Codec, e: Env, r: Receipt, key: Bytes) returns (out: Result<Report>)
    requires !Unchecked(e, r) && key == KeyOf(e, e.lookup(r.settler).value)
    ensures out.Raised? <==> FromHex(r.signature).Raised? || (r.trace.Some? && TraceRaises(r.trace.value))
    ensures out.Ok? ==>
              && out.value.findings == Findings(c, e, r)
              && out.value.valid == (out.value.findings == [])
              && out.value.signatureValid == Some(Signed(c, e, r))
              && out.value.anchorLookup == Some(key)
              && out.value.envelope == Decoded(DecodeEnvelope(e, r.attestation))
  {
    var report := Report(false, Some(key), None, None, None, []);
    var signed :- CheckSignature(c, e, r, key);
    report := report.(signatureValid := Some(signed));
    if !signed {
      report := report.(findings := report.findings + [BadSignature]);
    }
    var envelope := DecodeEnvelope(e, r.attestation);
    if envelope.Ok? {
      report := report.(envelope := Some(envelope.value));
    } else {
      report := report.(findings := report.findings + [BadEnvelope]);
    }
    if r.trace.Some? {
      var checked := CheckTrace(r.trace.value);
      var found :- checked;
      report := report.(noiseTrace := Some(found), findings := report.findings + found);
    }
    out := Ok(report.(valid := signed && report.findings == []));
  }

  /** The settler's key accepts, under any signature, only payloads of the receipts the settler issued. */
  ghost predicate SignsOnly(c: Codec, e: Env, settler: string, issued: set<Receipt>) {
    e.lookup(settler).Ok? ==>
      forall m, s :: e.ed25519(KeyOf(e, e.lookup(settler).value), m, s) ==>
        exists i :: i in issued && PayloadOf(ContentOf(c, i)) == m
  }

  /**
   Tamper evidence, exactly. A receipt the verifier calls valid agrees on everything signed with one the settler
   issued if and only if none of its fields that are copied into the payload holds a newline.
   */
  lemma {:induction false} TamperEvidentExactly(c: Codec, e: Env, issued: set<Receipt>, r: Receipt)
    requires Genuine(c, e, r) && SignsOnly(c, e, r.settler, issued)
    requires forall i :: i in issued ==>
               SingleLines(i) && Faithful(c, i, r) && CollisionFree(c, Texts(c, i) + Texts(c, r))
    ensures exists i :: i in issued && PayloadOf(ContentOf(c, i)) == PayloadOf(ContentOf(c, r))
    ensures (exists i :: i in issued && Agree(i, r)) <==> SingleLines(r)
  {
    var m := PayloadOf(ContentOf(c, r));
    var i :| i in issued && PayloadOf(ContentOf(c, i)) == m;
    if SingleLines(r) {
      SamePayloadIff(c, i, r);
    }
    if j :| j in issued && Agree(j, r) {
      AgreeSingleLines(j, r);
    }
  }

  lemma {:induction false} AgreeSingleLines(i: Receipt, r: Receipt)
    requires Agree(i, r) && SingleLines(i)
    ensures SingleLines(r)
  {
    assert r.(signature := "", topology := None, chain := None).jobId == i.jobId;
  }

  // ---- What gets past the verifier ----

  /** The chain section dropped, its line moved into the prompt hash. */
  function Forged(c: Codec, a: Receipt): Receipt
    requires a.promptHash.Some? && a.chain.Some?
  {
    a.(promptHash := Some(a.promptHash.value + "\n" + Tag(5) + Digested(c, ChainText(c, a)).value), chain := None)
  }

  lemma {:induction false} ForgedPayload(c: Codec, a: Receipt)
    requires a.promptHash.Some? && a.chain.Some?
    ensures PayloadOf(ContentOf(c, Forged(c, a))) == PayloadOf(ContentOf(c, a))
  {
    var k, f := ContentOf(c, a), ContentOf(c, Forged(c, a));
    assert k.base == f.base;
    assert f.sections == k.sections[4 := Some(k.sections[4].value + "\n" + Tag(5) + k.sections[5].value)][5 := None];
    SectionsSpliced(k, k.sections[4].value, k.sections[5].value);
  }

  /**
   The newline condition is not checked, and it matters: from every valid receipt with a prompt hash and a stage
   chain, a receipt without the chain is made that is still valid, under the same signature, and does not agree.
   */
  lemma {:induction false} ForgeryPasses(c: Codec, e: Env, a: Receipt)
    requires Genuine(c, e, a) && a.promptHash.Some? && a.chain.Some?
    ensures Genuine(c, e, Forged(c, a)) && Forged(c, a).signature == a.signature
    ensures !Agree(a, Forged(c, a)) && !SingleLines(Forged(c, a))
  {
    ForgedPayload(c, a);
    var hash := Forged(c, a).promptHash.value;
    assert hash[|a.promptHash.value|] == '\n';
  }
}
