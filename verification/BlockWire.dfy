/** How what is signed and hashed about blocks is spelled, byte for byte (dude/consensus/round.py and
    dude/consensus/settle_round.py). */
module BlockWire {
  import opened Bytes
  import opened Codec
  import opened Ops
  import opened Blocks
  import opened Promotion
  import C = Canonical
  import W = Wire

  lemma {:induction false} EncodeAllJoin(a: seq<Value>, b: seq<Value>)
    ensures EncodeAll(a + b) == EncodeAll(a) + EncodeAll(b)
    decreases |a|
  {
    if a == [] {
      assert a + b == b;
    } else {
      assert (a + b)[1..] == a[1..] + b;
      EncodeAllJoin(a[1..], b);
    }
  }

  /** Block number, height, parent, state root and the two accumulators, in this order. */
  lemma AnchorsSpelled(w: Wire, a: Anchors)
    ensures EncodeAll(AnchorValues(w, a)) ==
            Encode(Int(a.blockNum)) + (Encode(Int(a.height)) + (EncodeStr(a.prevBlock) +
              (EncodeStr(w.digest(a.stateRoot)) + (EncodeStr(w.acc(a.accState)) + EncodeStr(w.acc(a.accLog))))))
  {
    var xs := AnchorValues(w, a);
    W.Four(xs[2], xs[3], xs[4], xs[5]);
    assert xs == [xs[0]] + ([xs[1]] + [xs[2], xs[3], xs[4], xs[5]]);
    W.Cons(xs[1], [xs[2], xs[3], xs[4], xs[5]]);
    W.Cons(xs[0], [xs[1]] + [xs[2], xs[3], xs[4], xs[5]]);
  }

  /** "16:dude.round.slice", then bucket, base and slice hash. */
  lemma SigSpelled(bucket: int, prev: Bytes, sliceHash: Bytes)
    ensures SigPayload(bucket, prev, sliceHash) ==
            [108] + ([49, 54, 58, 100, 117, 100, 101, 46, 114, 111, 117, 110, 100, 46, 115, 108, 105, 99, 101] +
                     (Encode(Int(bucket)) + (EncodeStr(prev) + EncodeStr(sliceHash)))) + [101]
  {
    W.Four(Str(SLICE_DOMAIN), Int(bucket), Str(prev), Str(sliceHash));
    assert NatAscii(1) == [49] && NatAscii(16) == NatAscii(1) + [54];
    assert EncodeStr(SLICE_DOMAIN) ==
           [49, 54, 58, 100, 117, 100, 101, 46, 114, 111, 117, 110, 100, 46, 115, 108, 105, 99, 101];
  }

  /** "25:dude.settle_round.anchors", then slice hash and anchors. */
  lemma SettleSpelled(w: Wire, sliceHash: Bytes, a: Anchors)
    ensures SettlePayload(w, sliceHash, a) ==
            [108] + ([50, 53, 58] + [100, 117, 100, 101, 46, 115, 101, 116, 116, 108, 101, 95, 114, 111, 117, 110, 100,
              46,
                      97, 110, 99, 104, 111, 114, 115] +
                     EncodeStr(sliceHash) + EncodeAll(AnchorValues(w, a))) + [101]
  {
    EncodeAllJoin([Str(ANCHORS_DOMAIN), Str(sliceHash)], AnchorValues(w, a));
    W.Two(Str(ANCHORS_DOMAIN), Str(sliceHash));
    AnchorsDomainSpelled();
  }

  lemma AnchorsDomainSpelled()
    ensures Encode(Str(ANCHORS_DOMAIN)) ==
            [50, 53, 58] + [100, 117, 100, 101, 46, 115, 101, 116, 116, 108, 101, 95, 114, 111, 117, 110, 100, 46,
                            97, 110, 99, 104, 111, 114, 115]
  {
    assert NatAscii(2) == [50] && NatAscii(25) == NatAscii(2) + [53] && |ANCHORS_DOMAIN| == 25;
    assert [50, 53] + [58] == [50, 53, 58];
    assert EncodeStr(ANCHORS_DOMAIN) == NatAscii(25) + [58] + ANCHORS_DOMAIN;
  }

  /** What is hashed: bucket and sorted hashes for the slice, and the anchors after them for a block. */
  lemma HashedSpelled(w: Wire, sb: SettledBlock)
    ensures var slice := Encode(Int(sb.block.bucket)) + Encode(List(Strs(C.Hashes(sb.block.hashes))));
            SliceHashOf(w, sb.block) == w.h([108] + slice + [101]) &&
            BlockHash(w, sb) == w.h([108] + (slice + EncodeAll(AnchorValues(w, sb.anchors))) + [101])
  {
    var bucket, hashes := Int(sb.block.bucket), List(Strs(C.Hashes(sb.block.hashes)));
    W.Two(bucket, hashes);
    EncodeAllJoin([bucket, hashes], AnchorValues(w, sb.anchors));
  }
}
