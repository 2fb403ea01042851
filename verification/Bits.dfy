/** Single bits of a byte, most significant first, as dude/store/smt.py and the signer bitmaps of
    dude/core/crypto.py address them. The masks are written out; that they are the source's shifts
    is proved. */
module Bits {

  /** The mask of one bit. */
  function OneBit(k: nat): bv8
    requires k < 8
  {
    if k == 0 then 0x80 else if k == 1 then 0x40 else if k == 2 then 0x20 else if k == 3 then 0x10
    else if k == 4 then 0x08 else if k == 5 then 0x04 else if k == 6 then 0x02 else 0x01
  }

  function BitOf(b: bv8, k: nat): bool
    requires k < 8
  {
    b & OneBit(k) != 0
  }

  /** The mask of the first `rem` bits. */
  function HighMask(rem: nat): bv8 {
    if rem == 0 then 0x00 else if rem == 1 then 0x80 else if rem == 2 then 0xC0 else if rem == 3 then 0xE0
    else if rem == 4 then 0xF0 else if rem == 5 then 0xF8 else if rem == 6 then 0xFC else if rem == 7 then 0xFE
      else 0xFF
  }

  /** `0x80 >> k`. */
  lemma OneBitIsShift(k: nat)
    requires k < 8
    ensures OneBit(k) == 0x80 >> k
  {
    if k == 0 {} else if k == 1 {} else if k == 2 {} else if k == 3 {}
    else if k == 4 {} else if k == 5 {} else if k == 6 {} else {}
  }

  /** `(b >> (7 - k)) & 1`. */
  lemma BitIsShift(b: bv8, k: nat)
    requires k < 8
    ensures BitOf(b, k) <==> (b >> (7 - k)) & 1 == 1
  {
    if k == 0 {} else if k == 1 {} else if k == 2 {} else if k == 3 {}
    else if k == 4 {} else if k == 5 {} else if k == 6 {} else {}
  }

  /** `(0xFF << (8 - rem)) & 0xFF`. */
  lemma HighMaskIsShift(rem: nat)
    requires 1 <= rem < 8
    ensures HighMask(rem) == 0xFF << (8 - rem)
  {
    if rem == 1 {} else if rem == 2 {} else if rem == 3 {} else if rem == 4 {}
    else if rem == 5 {} else if rem == 6 {} else {}
  }

  predicate IsOneBit(m: bv8) {
    m == 0x80 || m == 0x40 || m == 0x20 || m == 0x10 || m == 0x08 || m == 0x04 || m == 0x02 || m == 0x01
  }

  lemma OneBitOnce(k: nat, j: nat)
    requires k < 8 && j < 8
    ensures IsOneBit(OneBit(k)) && (OneBit(k) == OneBit(j) <==> k == j)
  {
  }

  lemma MaskAlgebra(b: bv8, m: bv8, n: bv8)
    requires IsOneBit(m) && IsOneBit(n)
    ensures ((b | m) & n != 0) == (m == n || b & n != 0)
    ensures ((b & !m) & n != 0) == (m != n && b & n != 0)
    ensures ((b ^ m) & n != 0) == ((b & n != 0) != (m == n))
  {
  }

  /** A bit set, cleared or flipped in a byte changes that bit and no other. */
  lemma SetBit(b: bv8, k: nat, j: nat)
    requires k < 8 && j < 8
    ensures BitOf(b | OneBit(k), j) == (j == k || BitOf(b, j))
  {
    OneBitOnce(k, j);
    OneBitOnce(j, k);
    MaskAlgebra(b, OneBit(k), OneBit(j));
  }

  lemma ClearBit(b: bv8, k: nat, j: nat)
    requires k < 8 && j < 8
    ensures BitOf(b & !OneBit(k), j) == (j != k && BitOf(b, j))
  {
    OneBitOnce(k, j);
    OneBitOnce(j, k);
    MaskAlgebra(b, OneBit(k), OneBit(j));
  }

  lemma FlipBit(b: bv8, k: nat, j: nat)
    requires k < 8 && j < 8
    ensures BitOf(b ^ OneBit(k), j) == (BitOf(b, j) != (j == k))
  {
    OneBitOnce(k, j);
    OneBitOnce(j, k);
    MaskAlgebra(b, OneBit(k), OneBit(j));
  }

  predicate SameTop(b: bv8, c: bv8, rem: nat) { forall k :: 0 <= k < rem && k < 8 ==> BitOf(b, k) == BitOf(c, k) }

  /** No bit of `x` is set under the mask of the first `rem` bits, or at bit `k`. */
  predicate Blank(x: bv8, rem: nat) { x & HighMask(rem) == 0 }

  predicate BlankAt(x: bv8, k: nat)
    requires k < 8
  {
    x & OneBit(k) == 0
  }

  /** Two bytes agree in a bit exactly when their difference is blank there. */
  lemma XorBit(b: bv8, c: bv8, k: nat)
    requires k < 8
    ensures BitOf(b, k) == BitOf(c, k) <==> BlankAt(b ^ c, k)
  {
    OneBitOnce(k, k);
    XorMask(b, c, OneBit(k));
  }

  lemma XorMask(b: bv8, c: bv8, n: bv8)
    requires IsOneBit(n)
    ensures (b & n != 0) == (c & n != 0) <==> (b ^ c) & n == 0
  {
  }

  lemma BlankSplit(x: bv8, rem: nat)
    requires 1 <= rem < 8
    ensures Blank(x, rem) <==> Blank(x, rem - 1) && BlankAt(x, rem - 1)
  {
    MaskJoin(rem);
    NoneOf(x, HighMask(rem - 1), OneBit(rem - 1));
  }

  lemma NoneOf(x: bv8, m: bv8, n: bv8)
    ensures x & (m | n) == 0 <==> x & m == 0 && x & n == 0
  {
  }

  lemma MaskJoin(rem: nat)
    requires 1 <= rem < 8
    ensures HighMask(rem) == HighMask(rem - 1) | OneBit(rem - 1)
  {
  }

  /** The first `rem` bits agree exactly when the difference is blank under their mask. */
  lemma {:induction false} TopIsMask(b: bv8, c: bv8, x: bv8, rem: nat)
    requires rem < 8 && x == b ^ c
    ensures SameTop(b, c, rem) <==> Blank(x, rem)
  {
    if rem == 0 {
      NothingBlank(x);
    } else {
      TopIsMask(b, c, x, rem - 1);
      TopSplit(b, c, rem);
      BlankSplit(x, rem);
      XorBit(b, c, rem - 1);
    }
  }

  lemma NothingBlank(x: bv8)
    ensures Blank(x, 0)
  {
  }

  lemma TopSplit(b: bv8, c: bv8, rem: nat)
    requires 1 <= rem <= 8
    ensures SameTop(b, c, rem) <==> SameTop(b, c, rem - 1) && BitOf(b, rem - 1) == BitOf(c, rem - 1)
  {
  }

  predicate IsHighMask(m: bv8) {
    m == 0x80 || m == 0xC0 || m == 0xE0 || m == 0xF0 || m == 0xF8 || m == 0xFC || m == 0xFE
  }

  /** Masking keeps the first `rem` bits and clears the rest. */
  lemma BitOfMasked(b: bv8, rem: nat, k: nat)
    requires 1 <= rem < 8 && k < 8
    ensures BitOf(b & HighMask(rem), k) == (k < rem && BitOf(b, k))
  {
    var m, n := HighMask(rem), OneBit(k);
    assert (m & n != 0) == (k < rem) && IsOneBit(n);
    MaskedBit(b, m, n);
  }

  lemma MaskedBit(b: bv8, m: bv8, n: bv8)
    requires IsOneBit(n)
    ensures ((b & m) & n != 0) == (m & n != 0 && b & n != 0)
  {
  }

  /** A byte lies between the masked byte and the masked byte filled with ones exactly when it
      agrees under the mask. */
  lemma MaskInterval(b: bv8, c: bv8, m: bv8)
    requires IsHighMask(m)
    ensures b & m <= c && c <= (b & m) | !m <==> (b ^ c) & m == 0
  {
  }

  lemma HighMaskIs(rem: nat)
    requires 1 <= rem < 8
    ensures IsHighMask(HighMask(rem))
  {
  }

  /** Eight bits determine a byte. */
  lemma ByteFromBits(b: bv8, c: bv8)
    requires SameTop(b, c, 8)
    ensures b == c
  {
    assert BitOf(b, 0) == BitOf(c, 0) && BitOf(b, 1) == BitOf(c, 1) && BitOf(b, 2) == BitOf(c, 2) &&
           BitOf(b, 3) == BitOf(c, 3);
    assert BitOf(b, 4) == BitOf(c, 4) && BitOf(b, 5) == BitOf(c, 5) && BitOf(b, 6) == BitOf(c, 6) &&
           BitOf(b, 7) == BitOf(c, 7);
  }
}
