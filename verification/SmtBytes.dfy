/** The byte arithmetic of dude/store/smt.py: `bit`, `with_bit`, `_flip` and `bounds` on 32-byte
    paths, and that they are the bit operations the tree is stated in. */
module SmtBytes {
  import opened Bits
  import Smt

  type Path32 = p: seq<bv8> | |p| == 32 witness seq(32, _ => 0)

  function Bit(path: Path32, i: nat): bool
    requires i < 256
  {
    BitOf(path[i / 8], i % 8)
  }

  /** The 256 bits of a path, which is how the tree sees it. */
  function BitsOf(path: Path32): Smt.Path {
    seq(256, i requires 0 <= i < 256 => Bit(path, i))
  }

  /** `with_bit(path, depth, bit)` on a path already 32 bytes long. */
  function WithBit(path: Path32, depth: nat, bit: bool): Path32
    requires depth < 256
  {
    var byte, mask := depth / 8, OneBit(depth % 8);
    var val := if bit then path[byte] | mask else path[byte] & !mask;
    path[byte := val]
  }

  function Flip(path: Path32, i: nat): Path32
    requires i < 256
  {
    path[i / 8 := path[i / 8] ^ OneBit(i % 8)]
  }

  // ----------------------------------------------------------- ordered sequences

  /** Lexicographic order, over any order on the elements. */
  predicate AtMost<T(==)>(lt: (T, T) -> bool, a: seq<T>, b: seq<T>) {
    a == [] || (b != [] && (lt(a[0], b[0]) || (a[0] == b[0] && AtMost(lt, a[1..], b[1..]))))
  }

  predicate Between<T(==)>(lt: (T, T) -> bool, low: seq<T>, q: seq<T>, high: seq<T>) {
    AtMost(lt, low, q) && AtMost(lt, q, high)
  }

  ghost predicate Strict<T(!new)>(lt: (T, T) -> bool) { forall x, y :: lt(x, y) ==> x != y && !lt(y, x) }

  ghost predicate Extremes<T(!new)>(lt: (T, T) -> bool, least: T, most: T) {
    forall x :: (x == least || lt(least, x)) && (x == most || lt(x, most))
  }

  function Fill<T>(n: nat, b: T): (s: seq<T>)
    ensures |s| == n
  {
    if n == 0 then [] else [b] + Fill(n - 1, b)
  }

  lemma {:induction false} AtMostFilled<T(!new)>(lt: (T, T) -> bool, least: T, most: T, t: seq<T>)
    requires Extremes(lt, least, most)
    ensures AtMost(lt, Fill(|t|, least), t) && AtMost(lt, t, Fill(|t|, most))
  {
    if t != [] { AtMostFilled(lt, least, most, t[1..]); }
  }

  /** Between `head + low` and `head + high` lie exactly the extensions of `head` by something
      between `low` and `high`. */
  lemma {:induction false} BetweenAfterHead<T(!new)>(lt: (T, T) -> bool, head: seq<T>, low: seq<T>, high: seq<T>,
      q: seq<T>)
    requires Strict(lt) && |low| == |high| && |q| == |head| + |low|
    ensures Between(lt, head + low, q, head + high) <==> q[..|head|] == head && Between(lt, low, q[|head|..], high)
  {
    if head == [] {
      assert head + low == low && head + high == high && q[0..] == q;
    } else {
      var h, rest := head[0], head[1..];
      BetweenAfterHead(lt, rest, low, high, q[1..]);
      assert (head + low)[1..] == rest + low && (head + high)[1..] == rest + high;
      assert q[1..][|rest|..] == q[|head|..];
      assert q[..|head|] == [q[0]] + q[1..][..|rest|];
      assert head == [h] + rest;
    }
  }

  predicate Le<T(==)>(lt: (T, T) -> bool, x: T, y: T) { lt(x, y) || x == y }

  lemma TailRange<T(!new)>(lt: (T, T) -> bool, least: T, most: T, b: T, c: T, q: seq<T>)
    requires Extremes(lt, least, most) && q != []
    ensures Between(lt, [b] + Fill(|q| - 1, least), q, [c] + Fill(|q| - 1, most)) <==>
            Le(lt, b, q[0]) && Le(lt, q[0], c)
  {
    AtMostFilled(lt, least, most, q[1..]);
    var s, t := [b] + Fill(|q| - 1, least), [c] + Fill(|q| - 1, most);
    assert s[1..] == Fill(|q| - 1, least) && t[1..] == Fill(|q| - 1, most);
  }

  lemma RangeAfterHead<T(!new)>(lt: (T, T) -> bool, least: T, most: T, head: seq<T>, b: T, c: T, q: seq<T>)
    requires Strict(lt) && Extremes(lt, least, most) && |head| < |q|
    ensures var n := |q| - |head| - 1;
            Between(lt, head + ([b] + Fill(n, least)), q, head + ([c] + Fill(n, most))) <==>
            q[..|head|] == head && Le(lt, b, q[|head|]) && Le(lt, q[|head|], c)
  {
    var n := |q| - |head| - 1;
    TailRange(lt, least, most, b, c, q[|head|..]);
    BetweenAfterHead(lt, head, [b] + Fill(n, least), [c] + Fill(n, most), q);
  }

  // --------------------------------------------------------------------------- bounds

  /** The order of bytes, and the lowest and the highest byte with the first `rem` bits of `b`. */
  datatype Edges = Edges(lt: (bv8, bv8) -> bool, low: (bv8, nat) -> bv8, high: (bv8, nat) -> bv8)

  /** `path[full] & mask` and `(path[full] & mask) | (~mask & 0xFF)`. */
  const MASKED := Edges(
    (a: bv8, b: bv8) => a < b,
    (b: bv8, rem: nat) => b & HighMask(rem),
    (b: bv8, rem: nat) => (b & HighMask(rem)) | !HighMask(rem))

  predicate InByte(e: Edges, b: bv8, c: bv8, rem: nat) { Le(e.lt, e.low(b, rem), c) && Le(e.lt, c, e.high(b, rem)) }

  ghost predicate Right(e: Edges) {
    Strict(e.lt) && Extremes(e.lt, 0x00, 0xFF) &&
    (forall b, c, rem: nat :: 1 <= rem < 8 ==> (InByte(e, b, c, rem) <==> SameTop(b, c, rem))) &&
    (forall b, rem: nat, k: nat :: 1 <= rem < 8 && k < 8 ==> LowKeeps(e, b, rem, k))
  }

  predicate LowKeeps(e: Edges, b: bv8, rem: nat, k: nat)
    requires k < 8
  {
    BitOf(e.low(b, rem), k) == (k < rem && BitOf(b, k))
  }

  lemma MaskedInByte(b: bv8, c: bv8, rem: nat)
    requires 1 <= rem < 8
    ensures InByte(MASKED, b, c, rem) <==> SameTop(b, c, rem)
  {
    TopIsMask(b, c, b ^ c, rem);
    MaskedEdges(b, c, rem, HighMask(rem));
  }

  lemma MaskedEdges(b: bv8, c: bv8, rem: nat, mask: bv8)
    requires 1 <= rem < 8 && mask == HighMask(rem)
    ensures InByte(MASKED, b, c, rem) <==> (b ^ c) & mask == 0
  {
    HighMaskIs(rem);
    EdgeOrder(b, c, mask, b & mask, (b & mask) | !mask);
    assert MASKED.low(b, rem) == b & mask && MASKED.high(b, rem) == (b & mask) | !mask;
  }

  lemma EdgeOrder(b: bv8, c: bv8, mask: bv8, low: bv8, high: bv8)
    requires IsHighMask(mask) && low == b & mask && high == low | !mask
    ensures Le(MASKED.lt, low, c) && Le(MASKED.lt, c, high) <==> (b ^ c) & mask == 0
  {
    MaskInterval(b, c, mask);
    ByteOrder(low, c);
    ByteOrder(c, high);
  }

  lemma ByteOrder(b: bv8, c: bv8)
    ensures Le(MASKED.lt, b, c) <==> b <= c
  {
  }

  lemma MaskedIsRight()
    ensures Right(MASKED)
  {
    assert Strict(MASKED.lt) && Extremes(MASKED.lt, 0x00, 0xFF);
    forall b, c, rem: nat | 1 <= rem < 8 ensures InByte(MASKED, b, c, rem) <==> SameTop(b, c, rem) {
      MaskedInByte(b, c, rem);
    }
    forall b, rem: nat, k: nat | 1 <= rem < 8 && k < 8 ensures LowKeeps(MASKED, b, rem, k) { BitOfMasked(b, rem, k); }
  }

  function BoundsBy(e: Edges, path: Path32, depth: nat): (seq<bv8>, seq<bv8>)
    requires depth <= 256
  {
    var full, rem := depth / 8, depth % 8;
    var head := path[..full];
    if rem != 0 then
      (head + ([e.low(path[full], rem)] + Fill(31 - full, 0)),
        head + ([e.high(path[full], rem)] + Fill(31 - full, 0xFF)))
    else
      (head + Fill(32 - full, 0), head + Fill(32 - full, 0xFF))
  }

  /** `bounds(path, depth)`. */
  function Bounds(path: Path32, depth: nat): (Path32, Path32)
    requires depth <= 256
  {
    BoundsBy(MASKED, path, depth)
  }

  predicate SameBits(p: Path32, q: Path32, depth: nat)
    requires depth <= 256
  {
    forall i :: 0 <= i < depth ==> Bit(p, i) == Bit(q, i)
  }

  /** The whole bytes of the first `depth` bits agree, and so do the bits of the byte cut short. */
  predicate SamePrefix(p: Path32, q: Path32, depth: nat)
    requires depth <= 256
  {
    var full, rem := depth / 8, depth % 8;
    q[..full] == p[..full] && (rem == 0 || SameTop(p[full], q[full], rem))
  }

  lemma BytesAndBits(p: Path32, q: Path32, depth: nat)
    requires depth <= 256
    ensures SameBits(p, q, depth) <==> SamePrefix(p, q, depth)
  {
    if SameBits(p, q, depth) { BitsGiveBytes(p, q, depth); }
    if SamePrefix(p, q, depth) { BytesGiveBits(p, q, depth); }
  }

  lemma BitsGiveBytes(p: Path32, q: Path32, depth: nat)
    requires depth <= 256 && SameBits(p, q, depth)
    ensures SamePrefix(p, q, depth)
  {
    var full, rem := depth / 8, depth % 8;
    forall j | 0 <= j < full ensures q[j] == p[j] {
      forall k | 0 <= k < 8 ensures BitOf(p[j], k) == BitOf(q[j], k) {
        SlotOf(j, k); assert Bit(p, 8 * j + k) == Bit(q, 8 * j + k);
      }
      ByteFromBits(p[j], q[j]);
    }
    forall k | 0 <= k < rem ensures BitOf(p[full], k) == BitOf(q[full], k) {
      SlotOf(full, k);
      assert Bit(p, 8 * full + k) == Bit(q, 8 * full + k);
    }
  }

  lemma SlotOf(j: nat, k: nat)
    requires k < 8
    ensures (8 * j + k) / 8 == j && (8 * j + k) % 8 == k
  {
  }

  lemma BytesGiveBits(p: Path32, q: Path32, depth: nat)
    requires depth <= 256 && SamePrefix(p, q, depth)
    ensures SameBits(p, q, depth)
  {
    var full := depth / 8;
    forall i | 0 <= i < depth ensures Bit(p, i) == Bit(q, i) {
      if i / 8 < full { assert q[..full][i / 8] == p[..full][i / 8]; } else { assert i / 8 == full; }
    }
  }

  predicate InBounds(e: Edges, p: Path32, q: Path32, depth: nat)
    requires depth <= 256
  {
    Between(e.lt, BoundsBy(e, p, depth).0, q, BoundsBy(e, p, depth).1)
  }

  /** The range query `lo <= path <= hi` selects exactly the paths with the same first `depth` bits. */
  lemma BoundsSelectPrefix(p: Path32, q: Path32, depth: nat)
    requires depth <= 256
    ensures Between(MASKED.lt, Bounds(p, depth).0, q, Bounds(p, depth).1) <==> Smt.Under(BitsOf(q), BitsOf(p), depth)
  {
    MaskedIsRight();
    BytesAndBits(p, q, depth);
    PrefixIsSameBits(p, q, depth);
    BoundsAreBytes(MASKED, p, q, depth);
    assert InBounds(MASKED, p, q, depth) <==> Smt.Under(BitsOf(q), BitsOf(p), depth);
  }

  lemma BoundsAreBytes(e: Edges, p: Path32, q: Path32, depth: nat)
    requires depth <= 256 && Right(e)
    ensures InBounds(e, p, q, depth) <==> SamePrefix(p, q, depth)
  {
    if depth % 8 == 0 {
      WholeBytes(e, p, q, depth);
    } else {
      PartialRange(e, p, q, depth);
    }
  }

  lemma WholeBytes(e: Edges, p: Path32, q: Path32, depth: nat)
    requires depth <= 256 && depth % 8 == 0 && Strict(e.lt) && Extremes(e.lt, 0x00, 0xFF)
    ensures InBounds(e, p, q, depth) <==> SamePrefix(p, q, depth)
  {
    var full := depth / 8;
    var zeros := Fill(32 - full, 0x00);
    var ones := Fill(32 - full, 0xFF);
    BetweenAfterHead(e.lt, p[..full], zeros, ones, q);
    AtMostFilled(e.lt, 0x00, 0xFF, q[full..]);
  }

  lemma PartialRange(e: Edges, p: Path32, q: Path32, depth: nat)
    requires depth <= 256 && depth % 8 != 0 && Strict(e.lt) && Extremes(e.lt, 0x00, 0xFF)
    ensures InBounds(e, p, q, depth) <==>
              q[..depth / 8] == p[..depth / 8] && InByte(e, p[depth / 8], q[depth / 8], depth % 8)
  {
    var full, rem := depth / 8, depth % 8;
    RangeAfterHead(e.lt, 0x00, 0xFF, p[..full], e.low(p[full], rem), e.high(p[full], rem), q);
  }

  lemma PrefixIsSameBits(p: Path32, q: Path32, depth: nat)
    requires depth <= 256
    ensures Smt.Under(BitsOf(q), BitsOf(p), depth) <==> SameBits(p, q, depth)
  {
    var a, b := BitsOf(q)[..depth], BitsOf(p)[..depth];
    assert forall i :: 0 <= i < depth ==> a[i] == Bit(q, i) && b[i] == Bit(p, i);
    if a == b { forall i | 0 <= i < depth ensures Bit(p, i) == Bit(q, i) { assert a[i] == b[i]; } }
  }

  lemma {:induction false} FillAt<T>(n: nat, b: T, i: nat)
    requires i < n
    ensures Fill(n, b)[i] == b
  {
    if i > 0 { FillAt(n - 1, b, i - 1); }
  }

  lemma Earlier(i: nat, depth: nat)
    ensures i < depth <==> i / 8 < depth / 8 || (i / 8 == depth / 8 && i % 8 < depth % 8)
  {
  }

  lemma LowBoundAt(e: Edges, p: Path32, depth: nat, i: nat)
    requires depth <= 256 && i < 256 && Right(e)
    ensures |BoundsBy(e, p, depth).0| == 32 && Bit(BoundsBy(e, p, depth).0, i) == (i < depth && Bit(p, i))
  {
    var full, rem, j, k := depth / 8, depth % 8, i / 8, i % 8;
    LowByteAt(e, p, depth, j);
    Earlier(i, depth);
    if j == full && rem != 0 {
      assert LowKeeps(e, p[j], rem, k);
    } else if j >= full {
      NoBits(k);
    }
  }

  lemma NoBits(k: nat)
    requires k < 8
    ensures !BitOf(0, k)
  {
  }

  lemma LowByteAt(e: Edges, p: Path32, depth: nat, j: nat)
    requires depth <= 256 && j < 32
    ensures |BoundsBy(e, p, depth).0| == 32
    ensures BoundsBy(e, p, depth).0[j] ==
            if j < depth / 8 then p[j]
            else if j == depth / 8 && depth % 8 != 0 then e.low(p[j], depth % 8)
            else 0
  {
    var full := depth / 8;
    if depth % 8 == 0 {
      if j >= full { FillAt(32 - full, 0 as bv8, j - full); }
    } else {
      if j > full { FillAt(31 - full, 0 as bv8, j - full - 1); }
    }
  }

  /** The low bound is the zero-padded prefix that names a node. */
  lemma LowBound(p: Path32, depth: nat)
    requires depth <= 256
    ensures BitsOf(Bounds(p, depth).0) == Smt.Lo(BitsOf(p), depth)
  {
    MaskedIsRight();
    var lo := BitsOf(Bounds(p, depth).0);
    forall i | 0 <= i < 256 ensures lo[i] == Smt.Lo(BitsOf(p), depth)[i] {
      LowBoundAt(MASKED, p, depth, i);
    }
  }

  lemma SameSlot(i: nat, j: nat)
    ensures i == j <==> i / 8 == j / 8 && i % 8 == j % 8
  {
  }

  lemma ByteReplaced(p: Path32, byte: nat, val: bv8, i: nat)
    requires byte < 32 && i < 256
    ensures Bit(p[byte := val], i) == if i / 8 == byte then BitOf(val, i % 8) else Bit(p, i)
  {
  }

  lemma SetAt(p: Path32, depth: nat, i: nat)
    requires depth < 256 && i < 256
    ensures Bit(WithBit(p, depth, true), i) == (i == depth || Bit(p, i))
  {
    SameSlot(i, depth);
    ByteReplaced(p, depth / 8, p[depth / 8] | OneBit(depth % 8), i);
    SetBit(p[depth / 8], depth % 8, i % 8);
  }

  lemma ClearAt(p: Path32, depth: nat, i: nat)
    requires depth < 256 && i < 256
    ensures Bit(WithBit(p, depth, false), i) == (i != depth && Bit(p, i))
  {
    SameSlot(i, depth);
    ByteReplaced(p, depth / 8, p[depth / 8] & !OneBit(depth % 8), i);
    ClearBit(p[depth / 8], depth % 8, i % 8);
  }

  lemma FlipAt(p: Path32, depth: nat, i: nat)
    requires depth < 256 && i < 256
    ensures Bit(Flip(p, depth), i) == (Bit(p, i) != (i == depth))
  {
    SameSlot(i, depth);
    ByteReplaced(p, depth / 8, p[depth / 8] ^ OneBit(depth % 8), i);
    FlipBit(p[depth / 8], depth % 8, i % 8);
  }

  /** `with_bit` and `_flip` change the one bit they name. */
  lemma BitWritten(p: Path32, depth: nat, bit: bool)
    requires depth < 256
    ensures BitsOf(WithBit(p, depth, bit)) == BitsOf(p)[depth := bit]
    ensures BitsOf(Flip(p, depth)) == Smt.Flip(BitsOf(p), depth)
  {
    var w, f := BitsOf(WithBit(p, depth, bit)), BitsOf(Flip(p, depth));
    forall i | 0 <= i < 256
      ensures w[i] == BitsOf(p)[depth := bit][i] && f[i] == Smt.Flip(BitsOf(p), depth)[i]
    {
      if bit { SetAt(p, depth, i); } else { ClearAt(p, depth, i); }
      FlipAt(p, depth, i);
    }
  }

  /** Two byte paths with the same bits are the same path. */
  lemma BitsInjective(p: Path32, q: Path32)
    requires BitsOf(p) == BitsOf(q)
    ensures p == q
  {
    PrefixIsSameBits(p, q, 256);
    assert BitsOf(q)[..256] == BitsOf(p)[..256];
    BytesAndBits(p, q, 256);
    assert p[..32] == p && q[..32] == q;
  }
}
