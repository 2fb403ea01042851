/** Blocks and what is signed about them: `Block`, `_slice_hash` and `_sig_payload` of
    dude/consensus/round.py, `_settle_payload` and `SettledBlock` of
    dude/consensus/settle_round.py. */
module Blocks {
  import opened Bytes
  import opened Codec
  import opened Ops
  import opened Slice
  import Smt
  import CodecLoops
  import opened Canonical
  import opened Promotion
  import opened Multisig

  /** The hash, and how digests and accumulators are written. */
  datatype Wire = Wire(h: Bytes -> Bytes, digest: Smt.Digest -> Bytes, acc: int -> Bytes)

  ghost predicate Faithful(w: Wire) {
    Injective(w.h) && (forall a, b :: w.digest(a) == w.digest(b) ==> a == b) &&
      (forall a, b :: w.acc(a) == w.acc(b) ==> a == b)
  }

  datatype Block = Block(bucket: int, hashes: seq<Bytes>)

  datatype SettledBlock = SettledBlock(block: Block, anchors: Anchors, multisig: MultiSig)

  /** `"dude.round.slice"` and `"dude.settle_round.anchors"`. */
  const SLICE_DOMAIN: Bytes := [100, 117, 100, 101, 46, 114, 111, 117, 110, 100, 46, 115, 108, 105, 99, 101]
  const ANCHORS_DOMAIN: Bytes :=
    [100, 117, 100, 101, 46, 115, 101, 116, 116, 108, 101, 95, 114, 111, 117, 110, 100, 46, 97, 110, 99, 104, 111, 114,
      115]

  function SliceValue(b: Block): Value { List([Int(b.bucket), List(Strs(Hashes(b.hashes)))]) }

  function SigValue(bucket: int, prev: Bytes, sliceHash: Bytes): Value {
    List([Str(SLICE_DOMAIN), Int(bucket), Str(prev), Str(sliceHash)])
  }

  function AnchorValues(w: Wire, a: Anchors): seq<Value> {
    [Int(a.blockNum), Int(a.height), Str(a.prevBlock), Str(w.digest(a.stateRoot)), Str(w.acc(a.accState)),
      Str(w.acc(a.accLog))]
  }

  function SettleValue(w: Wire, sliceHash: Bytes, a: Anchors): Value {
    List([Str(ANCHORS_DOMAIN), Str(sliceHash)] + AnchorValues(w, a))
  }

  function IdentityValue(w: Wire, sb: SettledBlock): Value {
    List([Int(sb.block.bucket), List(Strs(Hashes(sb.block.hashes)))] + AnchorValues(w, sb.anchors))
  }

  ghost function SliceHashOf(w: Wire, b: Block): Bytes { w.h(Encode(SliceValue(b))) }

  ghost function SigPayload(bucket: int, prev: Bytes, sliceHash: Bytes): Bytes {
    Encode(SigValue(bucket, prev, sliceHash))
  }

  ghost function SettlePayload(w: Wire, sliceHash: Bytes, a: Anchors): Bytes { Encode(SettleValue(w, sliceHash, a)) }

  ghost function BlockHash(w: Wire, sb: SettledBlock): Bytes { w.h(Encode(IdentityValue(w, sb))) }

  /** What the signers of a settled block signed. */
  ghost function PayloadOf(w: Wire, sb: SettledBlock): Bytes { SettlePayload(w, SliceHashOf(w, sb.block), sb.anchors) }

  method ComputePayload(w: Wire, sb: SettledBlock) returns (payload: Bytes)
    ensures payload == PayloadOf(w, sb)
  {
    var slice := CodecLoops.EncodeBytes(SliceValue(sb.block));
    payload := CodecLoops.EncodeBytes(SettleValue(w, w.h(slice), sb.anchors));
  }

  method ComputeBlockHash(w: Wire, sb: SettledBlock) returns (hash: Bytes)
    ensures hash == BlockHash(w, sb)
  {
    var identity := CodecLoops.EncodeBytes(IdentityValue(w, sb));
    hash := w.h(identity);
  }

  lemma AnchorValuesInjective(w: Wire, a: Anchors, b: Anchors)
    requires Faithful(w) && AnchorValues(w, a) == AnchorValues(w, b)
    ensures a == b
  {
    var x, y := AnchorValues(w, a), AnchorValues(w, b);
    assert x[0] == y[0] && x[1] == y[1] && x[2] == y[2] && x[3] == y[3] && x[4] == y[4] && x[5] == y[5];
  }

  lemma StrsInjective(a: seq<Bytes>, b: seq<Bytes>)
    requires Strs(a) == Strs(b)
    ensures a == b
  {
    assert |a| == |Strs(a)| == |b|;
    forall i | 0 <= i < |a| ensures a[i] == b[i] { assert Strs(a)[i] == Strs(b)[i]; }
  }

  /** A signature on a slice is never one on anchors. */
  lemma PayloadsDisjoint(w: Wire, bucket: int, prev: Bytes, sliceHash: Bytes, other: Bytes, a: Anchors)
    ensures SigPayload(bucket, prev, sliceHash) != SettlePayload(w, other, a)
  {
    var v, u := SigValue(bucket, prev, sliceHash), SettleValue(w, other, a);
    assert |v.items| == 4 && |u.items| == 8;
    if Encode(v) == Encode(u) { EncodeInjective(v, u); }
  }

  lemma SigPayloadInjective(b: int, p: Bytes, s: Bytes, c: int, q: Bytes, t: Bytes)
    requires SigPayload(b, p, s) == SigPayload(c, q, t)
    ensures b == c && p == q && s == t
  {
    var v, u := SigValue(b, p, s), SigValue(c, q, t);
    EncodeInjective(v, u);
    assert v.items[1] == u.items[1] && v.items[2] == u.items[2] && v.items[3] == u.items[3];
  }

  lemma SettlePayloadInjective(w: Wire, s: Bytes, a: Anchors, t: Bytes, b: Anchors)
    requires Faithful(w) && SettlePayload(w, s, a) == SettlePayload(w, t, b)
    ensures s == t && a == b
  {
    var v, u := SettleValue(w, s, a), SettleValue(w, t, b);
    EncodeInjective(v, u);
    assert v.items[1] == u.items[1];
    assert v.items[2..] == AnchorValues(w, a) && u.items[2..] == AnchorValues(w, b);
    AnchorValuesInjective(w, a, b);
  }

  /** A slice hash names one bucket and one list of hashes, up to order. */
  lemma SliceHashOfInjective(w: Wire, a: Block, b: Block)
    requires Faithful(w) && SliceHashOf(w, a) == SliceHashOf(w, b)
    ensures a.bucket == b.bucket && Hashes(a.hashes) == Hashes(b.hashes)
  {
    var v, u := SliceValue(a), SliceValue(b);
    EncodeInjective(v, u);
    assert v.items[0] == u.items[0] && v.items[1] == u.items[1];
    StrsInjective(Hashes(a.hashes), Hashes(b.hashes));
  }

  /** A block hash names the bucket, the hashes and the anchors, so everything that is signed;
      the signatures themselves are not part of a block's identity. */
  lemma BlockHashInjective(w: Wire, a: SettledBlock, b: SettledBlock)
    requires Faithful(w)
    ensures BlockHash(w, a) == BlockHash(w, b) <==>
              a.block.bucket == b.block.bucket && Hashes(a.block.hashes) == Hashes(b.block.hashes) &&
              a.anchors == b.anchors
  {
    var v, u := IdentityValue(w, a), IdentityValue(w, b);
    if BlockHash(w, a) == BlockHash(w, b) {
      EncodeInjective(v, u);
      assert v.items[0] == u.items[0] && v.items[1] == u.items[1];
      StrsInjective(Hashes(a.block.hashes), Hashes(b.block.hashes));
      assert v.items[2..] == AnchorValues(w, a.anchors) && u.items[2..] == AnchorValues(w, b.anchors);
      AnchorValuesInjective(w, a.anchors, b.anchors);
    }
  }

  /** The slice hash of a ratified block is the one its round signed. */
  lemma SliceHashOfSet(w: Wire, bucket: int, hashes: set<Bytes>)
    ensures SliceHashOf(w, Block(bucket, SortedKeys(hashes))) == SliceHash(w.h, bucket, hashes)
  {
    var ks := SortedKeys(hashes);
    SortIs(Itself, ks);
    forall i, j | 0 <= i < j < |ks| ensures !Less(Itself(ks[j]), Itself(ks[i])) {
      if Less(ks[j], ks[i]) { LessAsymmetric(ks[j], ks[i]); }
    }
    OrderedUnique(Itself, Hashes(ks), ks);
  }
}
