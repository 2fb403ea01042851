/** The transaction language of dude/store/ops.py and its wire form. */
module Ops {
  import opened Bytes
  import opened Codec

  const STORE_MANAGEMENT := 0
  const EPOCH_NONE := 0
  const MAX_NAME_BYTES := 128
  const DIGEST_SIZE := 32
  const SIG_SIZE := 64

  /** A key's identity includes its store. */
  datatype Key = Key(store: int, name: Bytes)

  /** A live row: the value, the keyepoch it is under and the transaction that authorised it. */
  datatype Held = Held(value: Bytes, epoch: int, cred: Bytes)

  datatype Mutation =
    | Set(store: int, name: Bytes, value: Bytes, epoch: int)
    | Del(store: int, name: Bytes)
  {
    function Target(): Key { Key(store, name) }
  }

  datatype Predicate =
    | Absent(store: int, name: Bytes)
    | Holds(store: int, name: Bytes, digest: Bytes)
    | Exists(store: int, name: Bytes)
    | HoldsAny(store: int, name: Bytes, digests: seq<Bytes>)

  datatype Step = Step(guards: seq<Predicate>, mutation: Mutation, soft: bool)

  datatype Signed = Signed(author: Bytes, ts: int, steps: seq<Step>, sig: Bytes)

  // ------------------------------------------------------------------ encoding

  function Strs(bs: seq<Bytes>): seq<Value> {
    seq(|bs|, i requires 0 <= i < |bs| => Str(bs[i]))
  }

  function MutationValue(m: Mutation): Value {
    match m
    case Set(st, name, value, epoch) => List([Str([115]), Int(st), Str(name), Str(value), Int(epoch)])
    case Del(st, name) => List([Str([100]), Int(st), Str(name)])
  }

  function PredicateValue(p: Predicate): Value {
    match p
    case Absent(st, name) => List([Str([97]), Int(st), Str(name)])
    case Holds(st, name, d) => List([Str([104]), Int(st), Str(name), Str(d)])
    case Exists(st, name) => List([Str([101]), Int(st), Str(name)])
    case HoldsAny(st, name, ds) => List([Str([65]), Int(st), Str(name), List(Strs(ds))])
  }

  function PredicateValues(ps: seq<Predicate>): seq<Value> {
    seq(|ps|, i requires 0 <= i < |ps| => PredicateValue(ps[i]))
  }

  function StepValue(s: Step): Value {
    List([List(PredicateValues(s.guards)), MutationValue(s.mutation), Int(if s.soft then 1 else 0)])
  }

  function StepValues(ss: seq<Step>): seq<Value> {
    seq(|ss|, i requires 0 <= i < |ss| => StepValue(ss[i]))
  }

  function BodyValue(tx: Signed): Value {
    List([Str(tx.author), Int(tx.ts), List(StepValues(tx.steps))])
  }

  ghost function Body(tx: Signed): Bytes { Encode(BodyValue(tx)) }

  ghost function OuterValue(tx: Signed): Value { List([Str(Body(tx)), Str(tx.sig)]) }

  /** `SignedTransaction.raw`: what is hashed into `op_hash` and stored as a row's credential. */
  ghost function Raw(tx: Signed): Bytes { Encode(OuterValue(tx)) }

  // ------------------------------------------------------------------ decoding

  predicate IsSeq(v: Value, n: nat) { v.List? && |v.items| == n }

  function DecodeMutation(v: Value): Result<Mutation> {
    if !v.List? || v.items == [] || !v.items[0].Str? then Err
    else
      var p := v.items;
      if p[0].b == [115] then
        if |p| == 5 && p[1].Int? && p[2].Str? && p[3].Str? && p[4].Int? then
          Ok(Set(p[1].n, p[2].b, p[3].b, p[4].n)) else Err
      else if p[0].b == [100] then
        if |p| == 3 && p[1].Int? && p[2].Str? then Ok(Del(p[1].n, p[2].b)) else Err
      else Err
  }

  predicate IsDigest(v: Value) { v.Str? && |v.b| == DIGEST_SIZE }

  function DecodePredicate(v: Value): Result<Predicate> {
    if !v.List? || v.items == [] || !v.items[0].Str? then Err
    else
      var p := v.items;
      if p[0].b == [97] then
        if |p| == 3 && p[1].Int? && p[2].Str? then Ok(Absent(p[1].n, p[2].b)) else Err
      else if p[0].b == [104] then
        if |p| == 4 && p[1].Int? && p[2].Str? && IsDigest(p[3]) then
          Ok(Holds(p[1].n, p[2].b, p[3].b)) else Err
      else if p[0].b == [101] then
        if |p| == 3 && p[1].Int? && p[2].Str? then Ok(Exists(p[1].n, p[2].b)) else Err
      else if p[0].b == [65] then
        if |p| == 4 && p[1].Int? && p[2].Str? && p[3].List? &&
           (forall i :: 0 <= i < |p[3].items| ==> IsDigest(p[3].items[i])) then
          Ok(HoldsAny(p[1].n, p[2].b, seq(|p[3].items|, i requires 0 <= i < |p[3].items| => p[3].items[i].b)))
        else Err
      else Err
  }

  function DecodePredicates(vs: seq<Value>): Result<seq<Predicate>> {
    if vs == [] then Ok([]) else
      match (DecodePredicate(vs[0]), DecodePredicates(vs[1..]))
      case (Ok(p), Ok(ps)) => Ok([p] + ps)
      case _ => Err
  }

  function DecodeStep(v: Value): Result<Step> {
    if !IsSeq(v, 3) || !v.items[0].List? || !v.items[2].Int? then Err
    else
      match (DecodePredicates(v.items[0].items), DecodeMutation(v.items[1]))
      case (Ok(gs), Ok(m)) => Ok(Step(gs, m, v.items[2].n != 0))
      case _ => Err
  }

  function DecodeSteps(vs: seq<Value>): Result<seq<Step>> {
    if vs == [] then Ok([]) else
      match (DecodeStep(vs[0]), DecodeSteps(vs[1..]))
      case (Ok(s), Ok(ss)) => Ok([s] + ss)
      case _ => Err
  }

  function DecodeBody(v: Value, sig: Bytes): Result<Signed> {
    if !IsSeq(v, 3) || !v.items[0].Str? || |v.items[0].b| != 32 || !v.items[1].Int? || !v.items[2].List? then Err
    else
      match DecodeSteps(v.items[2].items)
      case Err => Err
      case Ok(ss) => Ok(Signed(v.items[0].b, v.items[1].n, ss, sig))
  }

  function DecodeOuter(v: Value): Result<Signed> {
    if !IsSeq(v, 2) || !v.items[0].Str? || !v.items[1].Str? || |v.items[1].b| != SIG_SIZE then Err
    else
      match Decode(SOURCE, v.items[0].b)
      case Err => Err
      case Ok(body) => DecodeBody(body, v.items[1].b)
  }

  function DecodeSigned(raw: Bytes): Result<Signed> {
    match Decode(SOURCE, raw)
    case Err => Err
    case Ok(v) => DecodeOuter(v)
  }

  // ---------------------------------------------------------------- round trips

  predicate PredicateSized(p: Predicate) {
    match p
    case Holds(_, _, d) => |d| == DIGEST_SIZE
    case HoldsAny(_, _, ds) => forall i :: 0 <= i < |ds| ==> |ds[i]| == DIGEST_SIZE
    case _ => true
  }

  predicate StepSized(s: Step) { forall i :: 0 <= i < |s.guards| ==> PredicateSized(s.guards[i]) }

  /** The widths the source's `Digest`, `PublicKey` and `Signature` types enforce. */
  predicate Sized(tx: Signed) {
    |tx.author| == 32 && |tx.sig| == SIG_SIZE && forall i :: 0 <= i < |tx.steps| ==> StepSized(tx.steps[i])
  }

  lemma PredicateRoundTrip(p: Predicate)
    requires PredicateSized(p)
    ensures DecodePredicate(PredicateValue(p)) == Ok(p)
  {
    if p.HoldsAny? {
      var v := PredicateValue(p).items[3];
      assert v.items == Strs(p.digests);
      assert seq(|v.items|, i requires 0 <= i < |v.items| => v.items[i].b) == p.digests;
    }
  }

  lemma {:induction false} PredicatesRoundTrip(ps: seq<Predicate>)
    requires forall i :: 0 <= i < |ps| ==> PredicateSized(ps[i])
    ensures DecodePredicates(PredicateValues(ps)) == Ok(ps)
  {
    if ps != [] {
      var vs := PredicateValues(ps);
      PredicateRoundTrip(ps[0]);
      assert vs[1..] == PredicateValues(ps[1..]);
      PredicatesRoundTrip(ps[1..]);
      assert ps == [ps[0]] + ps[1..];
    }
  }

  lemma StepRoundTrip(s: Step)
    requires StepSized(s)
    ensures DecodeStep(StepValue(s)) == Ok(s)
  {
    PredicatesRoundTrip(s.guards);
  }

  lemma DecodeStepsCons(v: Value, vs: seq<Value>, s: Step, ss: seq<Step>)
    requires DecodeStep(v) == Ok(s) && DecodeSteps(vs) == Ok(ss)
    ensures DecodeSteps([v] + vs) == Ok([s] + ss)
  {
    assert ([v] + vs)[1..] == vs;
  }

  lemma {:induction false} StepsRoundTrip(ss: seq<Step>)
    requires forall i :: 0 <= i < |ss| ==> StepSized(ss[i])
    ensures DecodeSteps(StepValues(ss)) == Ok(ss)
  {
    if ss != [] {
      assert ss == [ss[0]] + ss[1..];
      StepValuesCons(ss[0], ss[1..]);
      StepRoundTrip(ss[0]);
      StepsRoundTrip(ss[1..]);
      DecodeStepsCons(StepValue(ss[0]), StepValues(ss[1..]), ss[0], ss[1..]);
    }
  }

  /** A signed transaction comes back from the wire as itself exactly when both of its encodings
      are within the decoder's limits. */
  lemma SignedRoundTrip(tx: Signed)
    requires Sized(tx)
    ensures DecodeSigned(Raw(tx)) == Ok(tx) <==>
            Admits(SOURCE, OuterValue(tx), 0) && Admits(SOURCE, BodyValue(tx), 0)
  {
    DecodeEncode(SOURCE, OuterValue(tx));
    DecodeEncode(SOURCE, BodyValue(tx));
    StepsRoundTrip(tx.steps);
    if DecodeSigned(Raw(tx)) == Ok(tx) {
      EncodeDecode(SOURCE, Raw(tx));
      var v := Decode(SOURCE, Raw(tx)).value;
      EncodeInjective(v, OuterValue(tx));
      EncodeDecode(SOURCE, Body(tx));
      EncodeInjective(Decode(SOURCE, Body(tx)).value, BodyValue(tx));
    }
  }

  // ------------------------------------------------------------- identity on the wire

  lemma {:induction false} PredicateValuesInjective(ps: seq<Predicate>, qs: seq<Predicate>)
    requires PredicateValues(ps) == PredicateValues(qs)
    ensures ps == qs
  {
    assert |ps| == |PredicateValues(ps)| == |qs|;
    forall i | 0 <= i < |ps| ensures ps[i] == qs[i] {
      assert PredicateValues(ps)[i] == PredicateValues(qs)[i];
      PredicateValueInjective(ps[i], qs[i]);
    }
  }

  lemma PredicateValueInjective(p: Predicate, q: Predicate)
    requires PredicateValue(p) == PredicateValue(q)
    ensures p == q
  {
    var a, b := PredicateValue(p).items, PredicateValue(q).items;
    assert a[0] == b[0] && a[1] == b[1] && a[2] == b[2];
    if p.Holds? { assert a[3] == b[3]; }
    if p.HoldsAny? {
      assert a[3] == b[3];
      assert |p.digests| == |q.digests|;
      forall i | 0 <= i < |p.digests| ensures p.digests[i] == q.digests[i] {
        assert a[3].items[i] == b[3].items[i];
      }
      assert p.digests == q.digests;
    }
  }

  lemma StepValueInjective(s: Step, t: Step)
    requires StepValue(s) == StepValue(t)
    ensures s == t
  {
    var a, b := StepValue(s).items, StepValue(t).items;
    assert a[0] == b[0] && a[1] == b[1] && a[2] == b[2];
    PredicateValuesInjective(s.guards, t.guards);
    var m, n := a[1].items, b[1].items;
    assert m[0] == n[0] && m[1] == n[1] && m[2] == n[2];
    if s.mutation.Set? { assert m[3] == n[3] && m[4] == n[4]; }
  }

  /** Two different transactions never have the same raw bytes, whatever their sizes, so a
      collision-free hash gives them different `op_hash`es. */
  lemma RawInjective(tx: Signed, ty: Signed)
    requires Raw(tx) == Raw(ty)
    ensures tx == ty
  {
    EncodeInjective(OuterValue(tx), OuterValue(ty));
    var a, b := OuterValue(tx).items, OuterValue(ty).items;
    assert a[0] == b[0] && a[1] == b[1];
    EncodeInjective(BodyValue(tx), BodyValue(ty));
    var c, d := BodyValue(tx).items, BodyValue(ty).items;
    assert c[0] == d[0] && c[1] == d[1] && c[2] == d[2];
    assert |tx.steps| == |StepValues(tx.steps)| == |ty.steps|;
    forall i | 0 <= i < |tx.steps| ensures tx.steps[i] == ty.steps[i] {
      assert c[2].items[i] == d[2].items[i];
      StepValueInjective(tx.steps[i], ty.steps[i]);
    }
  }

  // ---------------------------------------------------- re-encoding what arrived

  /** Every step's `soft` field is spelled 0 or 1. */
  predicate SoftSpelled(steps: seq<Value>) {
    forall i :: 0 <= i < |steps| ==> IsSeq(steps[i], 3) && steps[i].items[2].Int? && 0 <= steps[i].items[2].n <= 1
  }

  lemma {:induction false} PredicatesValueOfDecoded(vs: seq<Value>)
    requires DecodePredicates(vs).Ok?
    ensures PredicateValues(DecodePredicates(vs).value) == vs
  {
    if vs != [] {
      PredicatesValueOfDecoded(vs[1..]);
      PredicateValueOfDecoded(vs[0]);
      var ps := DecodePredicates(vs[1..]).value;
      var p := DecodePredicate(vs[0]).value;
      assert PredicateValues([p] + ps) == [PredicateValue(p)] + PredicateValues(ps);
      assert vs == [vs[0]] + vs[1..];
    }
  }

  lemma PredicateValueOfDecoded(v: Value)
    requires DecodePredicate(v).Ok?
    ensures PredicateValue(DecodePredicate(v).value) == v
  {
    var p, w := v.items, PredicateValue(DecodePredicate(v).value).items;
    if p[0].b == [65] {
      assert w[3].items == p[3].items;
      assert w == [p[0], p[1], p[2], p[3]] == p;
    } else if p[0].b == [104] {
      assert w == [p[0], p[1], p[2], p[3]] == p;
    } else {
      assert w == [p[0], p[1], p[2]] == p;
    }
  }

  lemma StepValueOfDecoded(v: Value)
    requires DecodeStep(v).Ok?
    ensures StepValue(DecodeStep(v).value) == v <==> 0 <= v.items[2].n <= 1
  {
    PredicatesValueOfDecoded(v.items[0].items);
    var m := v.items[1];
    var w := MutationValue(DecodeMutation(m).value);
    if m.items[0].b == [115] {
      assert w.items == [m.items[0], m.items[1], m.items[2], m.items[3], m.items[4]] == m.items;
    } else {
      assert w.items == [m.items[0], m.items[1], m.items[2]] == m.items;
    }
    var s := StepValue(DecodeStep(v).value);
    assert v.items == [v.items[0], v.items[1], v.items[2]];
    assert s.items[2] == v.items[2] <==> 0 <= v.items[2].n <= 1;
  }

  lemma {:induction false} StepsValueOfDecoded(vs: seq<Value>)
    requires DecodeSteps(vs).Ok?
    ensures StepValues(DecodeSteps(vs).value) == vs <==> SoftSpelled(vs)
  {
    if vs != [] {
      StepsValueOfDecoded(vs[1..]);
      StepValueOfDecoded(vs[0]);
      StepsCons(vs, DecodeStep(vs[0]).value, DecodeSteps(vs[1..]).value);
    }
  }

  lemma StepsCons(vs: seq<Value>, s: Step, ss: seq<Step>)
    requires vs != [] && DecodeSteps(vs).Ok? && DecodeStep(vs[0]) == Ok(s) && DecodeSteps(vs[1..]) == Ok(ss)
    ensures DecodeSteps(vs).value == [s] + ss
    ensures StepValues([s] + ss) == vs <==> StepValue(s) == vs[0] && StepValues(ss) == vs[1..]
    ensures SoftSpelled(vs) <==> 0 <= vs[0].items[2].n <= 1 && SoftSpelled(vs[1..])
  {
    StepValuesCons(s, ss);
    SplitEqual(StepValue(s), StepValues(ss), vs);
    SpelledCons(vs);
  }

  lemma StepValuesCons(s: Step, ss: seq<Step>)
    ensures StepValues([s] + ss) == [StepValue(s)] + StepValues(ss)
  {
    assert ([s] + ss)[1..] == ss;
  }

  lemma SplitEqual(v: Value, ws: seq<Value>, vs: seq<Value>)
    requires vs != []
    ensures [v] + ws == vs <==> v == vs[0] && ws == vs[1..]
  {
    assert vs == [vs[0]] + vs[1..];
    assert ([v] + ws)[1..] == ws;
  }

  lemma SpelledCons(vs: seq<Value>)
    requires vs != []
    ensures SoftSpelled(vs) <==> SoftSpelled([vs[0]]) && SoftSpelled(vs[1..])
  {
    assert forall i :: 0 < i < |vs| ==> vs[i] == vs[1..][i - 1];
    assert forall i :: 0 <= i < |vs[1..]| ==> vs[1..][i] == vs[i + 1];
    assert [vs[0]][0] == vs[0];
  }

  /** Re-encoding an accepted transaction gives back the bytes that arrived exactly when its
      `soft` flags were spelled 0 or 1: the decoder also takes any other integer as true. */
  lemma RawOfDecoded(raw: Bytes)
    requires DecodeSigned(raw).Ok?
    ensures Raw(DecodeSigned(raw).value) == raw <==>
            SoftSpelled(Decode(SOURCE, Decode(SOURCE, raw).value.items[0].b).value.items[2].items)
  {
    var v := Decode(SOURCE, raw).value;
    var body := Decode(SOURCE, v.items[0].b).value;
    var tx := DecodeSigned(raw).value;
    EncodeDecode(SOURCE, raw);
    EncodeDecode(SOURCE, v.items[0].b);
    StepsValueOfDecoded(body.items[2].items);
    assert v.items == [v.items[0], v.items[1]];
    assert body.items == [body.items[0], body.items[1], body.items[2]];
    if SoftSpelled(body.items[2].items) {
      assert BodyValue(tx) == body;
    }
    if Raw(tx) == raw {
      EncodeInjective(OuterValue(tx), v);
      assert OuterValue(tx).items[0] == v.items[0];
      EncodeInjective(BodyValue(tx), body);
      assert BodyValue(tx).items[2] == body.items[2];
    }
  }

  /** A transaction whose one step spells its flag 2: accepted, and re-encoded differently. */
  lemma SoftSpelledTwo() returns (raw: Bytes)
    ensures DecodeSigned(raw).Ok? && Raw(DecodeSigned(raw).value) != raw
  {
    var author, sig: Bytes := seq(32, _ => 0), seq(64, _ => 0);
    var step := List([List([]), MutationValue(Del(1, [])), Int(2)]);
    var body := List([Str(author), Int(0), List([step])]);
    var outer := List([Str(Encode(body)), Str(sig)]);
    raw := Encode(outer);
    SmallAdmitted(body, outer, step, author, sig);
    DecodeEncode(SOURCE, body);
    DecodeEncode(SOURCE, outer);
    assert DecodeMutation(step.items[1]) == Ok(Del(1, []));
    assert DecodeStep(step) == Ok(Step([], Del(1, []), true));
    assert DecodeSteps([step]) == Ok([Step([], Del(1, []), true)]) by {
      assert [step][1..] == [] && DecodeSteps([]) == Ok([]);
      assert [Step([], Del(1, []), true)] + [] == [Step([], Del(1, []), true)];
    }
    RawOfDecoded(raw);
    assert [step][0].items[2].n == 2;
  }

  lemma SmallAdmitted(body: Value, outer: Value, step: Value, author: Bytes, sig: Bytes)
    requires step == List([List([]), MutationValue(Del(1, [])), Int(2)])
    requires body == List([Str(author), Int(0), List([step])]) && outer == List([Str(Encode(body)), Str(sig)])
    requires |author| == 32 && |sig| == 64
    ensures Admits(SOURCE, body, 0) && Admits(SOURCE, outer, 0)
  {
    assert |NatAscii(32)| == 2 && |NatAscii(64)| == 2;
    assert Admits(SOURCE, MutationValue(Del(1, [])), 3);
    assert Admits(SOURCE, step, 2);
    assert Admits(SOURCE, List([step]), 1);
    assert |NatAscii(|Encode(body)|)| <= 4 by { SmallEncoding(body, step, author); }
  }

  lemma SmallEncoding(body: Value, step: Value, author: Bytes)
    requires step == List([List([]), MutationValue(Del(1, [])), Int(2)])
    requires body == List([Str(author), Int(0), List([step])]) && |author| == 32
    ensures |NatAscii(|Encode(body)|)| <= 4
  {
    assert |NatAscii(32)| == 2;
    var m := MutationValue(Del(1, []));
    assert |Encode(m)| <= 20 by { EncodeThree(m); }
    assert |Encode(step)| <= 40 by { EncodeThree(step); }
    assert |Encode(List([step]))| <= 50 by { assert [step][1..] == []; }
    assert |Encode(body)| <= 100 by { EncodeThree(body); }
    assert forall n: nat :: n <= 100 ==> |NatAscii(n)| <= 4;
  }

  lemma EncodeThree(v: Value)
    requires IsSeq(v, 3)
    ensures |Encode(v)| == |Encode(v.items[0])| + |Encode(v.items[1])| + |Encode(v.items[2])| + 2
  {
    var xs := v.items;
    assert xs[1..][1..] == xs[2..] && xs[2..][1..] == [];
    assert EncodeAll(xs[2..]) == Encode(xs[2]) + [];
    assert EncodeAll(xs[1..]) == Encode(xs[1]) + EncodeAll(xs[2..]);
  }
}
