/** What the decoder's limits mean for transactions, and how their parts are spelled on the wire
    (dude/core/codec.py and dude/store/ops.py). */
module Wire {
  import opened Bytes
  import opened Codec
  import opened Ops

  // ------------------------------------------------------------------------- the limits

  /** An integer of at most 4096 digits. */
  predicate Printable(n: int) { |NatAscii(if n < 0 then -n else n)| <= 4096 }

  /** `k` lists around an empty one. */
  function Nested(k: nat): Value { if k == 0 then List([]) else List([Nested(k - 1)]) }

  lemma {:induction false} NestedAdmits(k: nat, depth: nat)
    ensures Admits(SOURCE, Nested(k), depth) <==> k + depth <= 64
    decreases k
  {
    if k > 0 {
      NestedAdmits(k - 1, depth + 1);
      assert Nested(k).items[0] == Nested(k - 1);
    }
  }

  /** A list comes back with 64 levels in it and not with 65; an integer, or a string by its length,
      with 4096 digits and not with 4097. */
  lemma LimitsAre(k: nat, n: int, b: Bytes)
    ensures Decode(SOURCE, Encode(Nested(k))) == Ok(Nested(k)) <==> k <= 64
    ensures Decode(SOURCE, Encode(Int(n))) == Ok(Int(n)) <==> Printable(n)
    ensures Decode(SOURCE, Encode(Str(b))) == Ok(Str(b)) <==> Printable(|b|)
  {
    NestedAdmits(k, 0);
    DecodeEncode(SOURCE, Nested(k));
    DecodeEncode(SOURCE, Int(n));
    DecodeEncode(SOURCE, Str(b));
  }

  // ------------------------------------------------------------------------ transactions

  predicate MutationShort(m: Mutation) {
    Printable(m.store) && Printable(|m.name|) && (m.Set? ==> Printable(|m.value|) && Printable(m.epoch))
  }

  predicate PredicateShort(p: Predicate) {
    Printable(p.store) && Printable(|p.name|) && (p.Holds? ==> Printable(|p.digest|)) &&
    (p.HoldsAny? ==> forall i :: 0 <= i < |p.digests| ==> Printable(|p.digests[i]|))
  }

  predicate StepShort(s: Step) {
    MutationShort(s.mutation) && forall i :: 0 <= i < |s.guards| ==> PredicateShort(s.guards[i])
  }

  /** Every integer in the transaction, and the length of every byte string in it and of its body,
      has at most 4096 digits. */
  ghost predicate TxShort(tx: Signed) {
    Printable(tx.ts) && Printable(|Body(tx)|) && forall i :: 0 <= i < |tx.steps| ==> StepShort(tx.steps[i])
  }

  lemma SmallIsShort()
    ensures Printable(0) && Printable(1) && Printable(32) && Printable(64)
  {
    assert |NatAscii(32)| == 2 && |NatAscii(64)| == 2;
  }

  lemma MutationAdmits(m: Mutation, depth: nat)
    requires depth < 64
    ensures Admits(SOURCE, MutationValue(m), depth) <==> MutationShort(m)
  {
    SmallIsShort();
    var xs := MutationValue(m).items;
    assert Admits(SOURCE, xs[0], depth + 1);
    assert Admits(SOURCE, xs[1], depth + 1) <==> Printable(m.store);
    assert Admits(SOURCE, xs[2], depth + 1) <==> Printable(|m.name|);
    if m.Set? {
      assert Admits(SOURCE, xs[3], depth + 1) <==> Printable(|m.value|);
      assert Admits(SOURCE, xs[4], depth + 1) <==> Printable(m.epoch);
    }
  }

  lemma DigestsAdmit(ds: seq<Bytes>, depth: nat)
    requires depth < 64
    ensures Admits(SOURCE, List(Strs(ds)), depth) <==> forall i :: 0 <= i < |ds| ==> Printable(|ds[i]|)
  {
    var xs := Strs(ds);
    forall i | 0 <= i < |ds| ensures Admits(SOURCE, xs[i], depth + 1) <==> Printable(|ds[i]|) { }
  }

  lemma PredicateAdmits(p: Predicate, depth: nat)
    requires depth < 63
    ensures Admits(SOURCE, PredicateValue(p), depth) <==> PredicateShort(p)
  {
    SmallIsShort();
    var xs := PredicateValue(p).items;
    assert Admits(SOURCE, xs[0], depth + 1);
    assert Admits(SOURCE, xs[1], depth + 1) <==> Printable(p.store);
    assert Admits(SOURCE, xs[2], depth + 1) <==> Printable(|p.name|);
    if p.Holds? { assert Admits(SOURCE, xs[3], depth + 1) <==> Printable(|p.digest|); }
    if p.HoldsAny? {
      DigestsAdmit(p.digests, depth + 1);
      assert xs[3] == List(Strs(p.digests));
    }
  }

  lemma StepAdmits(s: Step, depth: nat)
    requires depth < 60
    ensures Admits(SOURCE, StepValue(s), depth) <==> StepShort(s)
  {
    SmallIsShort();
    var xs, gs := StepValue(s).items, PredicateValues(s.guards);
    MutationAdmits(s.mutation, depth + 1);
    forall i | 0 <= i < |gs| ensures Admits(SOURCE, gs[i], depth + 2) <==> PredicateShort(s.guards[i]) {
      PredicateAdmits(s.guards[i], depth + 2);
    }
    assert xs[0] == List(gs) && xs[1] == MutationValue(s.mutation) && xs[2] == Int(if s.soft then 1 else 0);
    assert Admits(SOURCE, xs[0], depth + 1) <==> forall i :: 0 <= i < |gs| ==> Admits(SOURCE, gs[i], depth + 2);
    assert Admits(SOURCE, xs[2], depth + 1);
  }

  lemma BodyAdmits(tx: Signed)
    requires |tx.author| == 32
    ensures Admits(SOURCE, BodyValue(tx), 0) <==>
            Printable(tx.ts) && forall i :: 0 <= i < |tx.steps| ==> StepShort(tx.steps[i])
  {
    SmallIsShort();
    var xs, ss := BodyValue(tx).items, StepValues(tx.steps);
    forall i | 0 <= i < |ss| ensures Admits(SOURCE, ss[i], 2) <==> StepShort(tx.steps[i]) {
      StepAdmits(tx.steps[i], 2);
    }
    assert xs[0] == Str(tx.author) && xs[1] == Int(tx.ts) && xs[2] == List(ss);
    assert Admits(SOURCE, xs[2], 1) <==> forall i :: 0 <= i < |ss| ==> Admits(SOURCE, ss[i], 2);
    assert Admits(SOURCE, xs[0], 1);
  }

  /** A transaction comes back from the wire as itself exactly when no integer in it and no length has
      more than 4096 digits. How its guards and digests nest never matters. */
  lemma TransactionRoundTrips(tx: Signed)
    requires Sized(tx)
    ensures DecodeSigned(Raw(tx)) == Ok(tx) <==> TxShort(tx)
  {
    SignedRoundTrip(tx);
    BodyAdmits(tx);
    SmallIsShort();
    var xs := OuterValue(tx).items;
    assert Admits(SOURCE, xs[0], 1) <==> Printable(|Body(tx)|);
    assert Admits(SOURCE, xs[1], 1);
  }

  // ------------------------------------------------------------------------- spellings

  lemma Cons(x: Value, xs: seq<Value>)
    ensures EncodeAll([x] + xs) == Encode(x) + EncodeAll(xs)
  {
    assert ([x] + xs)[1..] == xs;
  }

  lemma Two(a: Value, b: Value)
    ensures EncodeAll([a, b]) == Encode(a) + Encode(b)
  {
    Cons(b, []);
    Cons(a, [b]);
    assert [a, b] == [a] + [b] && [b] == [b] + [] && Encode(b) + [] == Encode(b);
  }

  lemma Three(a: Value, b: Value, c: Value)
    ensures EncodeAll([a, b, c]) == Encode(a) + (Encode(b) + Encode(c))
  {
    Two(b, c);
    Cons(a, [b, c]);
    assert [a, b, c] == [a] + [b, c];
  }

  lemma Four(a: Value, b: Value, c: Value, d: Value)
    ensures EncodeAll([a, b, c, d]) == Encode(a) + (Encode(b) + (Encode(c) + Encode(d)))
  {
    Three(b, c, d);
    Cons(a, [b, c, d]);
    assert [a, b, c, d] == [a] + [b, c, d];
  }

  lemma Letter(c: byte)
    ensures Encode(Str([c])) == [49, 58, c]
  {
    assert NatAscii(1) == [49];
  }

  /** "s" and "d" for writing and deleting, then store and name; a write goes on with value and epoch. */
  lemma MutationSpelled(store: int, name: Bytes, value: Bytes, epoch: int)
    ensures Encode(MutationValue(Set(store, name, value, epoch))) ==
            [108] + ([49, 58, 115] +
                     (Encode(Int(store)) + (EncodeStr(name) + (EncodeStr(value) + Encode(Int(epoch)))))) + [101]
    ensures Encode(MutationValue(Del(store, name))) ==
            [108] + ([49, 58, 100] + (Encode(Int(store)) + EncodeStr(name))) + [101]
  {
    Letter(115);
    Letter(100);
    Four(Int(store), Str(name), Str(value), Int(epoch));
    Cons(Str([115]), [Int(store), Str(name), Str(value), Int(epoch)]);
    assert [Str([115])] + [Int(store), Str(name), Str(value), Int(epoch)] ==
           [Str([115]), Int(store), Str(name), Str(value), Int(epoch)];
    Three(Str([100]), Int(store), Str(name));
  }

  /** "a", "h", "e" and "A" for the four guards, then store and name, then what is to be held. */
  lemma GuardSpelled(store: int, name: Bytes, d: Bytes, ds: seq<Bytes>)
    ensures Encode(PredicateValue(Absent(store, name))) ==
            [108] + ([49, 58, 97] + (Encode(Int(store)) + EncodeStr(name))) + [101]
    ensures Encode(PredicateValue(Holds(store, name, d))) ==
            [108] + ([49, 58, 104] + (Encode(Int(store)) + (EncodeStr(name) + EncodeStr(d)))) + [101]
    ensures Encode(PredicateValue(Exists(store, name))) ==
            [108] + ([49, 58, 101] + (Encode(Int(store)) + EncodeStr(name))) + [101]
    ensures Encode(PredicateValue(HoldsAny(store, name, ds))) ==
            [108] + ([49, 58, 65] + (Encode(Int(store)) + (EncodeStr(name) + Encode(List(Strs(ds)))))) + [101]
  {
    Letter(97);
    Letter(104);
    Letter(101);
    Letter(65);
    Three(Str([97]), Int(store), Str(name));
    Four(Str([104]), Int(store), Str(name), Str(d));
    Three(Str([101]), Int(store), Str(name));
    Four(Str([65]), Int(store), Str(name), List(Strs(ds)));
  }

  /** A step is its guards, its mutation and a flag; a signed transaction is the encoding of author,
      time and steps, as a string, and the signature. */
  lemma StepSpelled(s: Step, tx: Signed)
    ensures Encode(StepValue(s)) ==
            [108] + (Encode(List(PredicateValues(s.guards))) +
                     (Encode(MutationValue(s.mutation)) + [105, if s.soft then 49 else 48, 101])) + [101]
    ensures Raw(tx) == [108] + (EncodeStr(Body(tx)) + EncodeStr(tx.sig)) + [101]
    ensures Body(tx) ==
            [108] + (EncodeStr(tx.author) + (Encode(Int(tx.ts)) + Encode(List(StepValues(tx.steps))))) + [101]
  {
    Three(List(PredicateValues(s.guards)), MutationValue(s.mutation), Int(if s.soft then 1 else 0));
    assert Encode(Int(0)) == [105, 48, 101] && Encode(Int(1)) == [105, 49, 101];
    Two(Str(Body(tx)), Str(tx.sig));
    Three(Str(tx.author), Int(tx.ts), List(StepValues(tx.steps)));
  }
}
