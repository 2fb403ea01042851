/** The canonical bencoding of dude/core/codec.py (section "bencoding" of BEP 3, made strict).

    The decoder is stated over explicit limits; the source's are `SOURCE`. */
module Codec {
  import opened Bytes

  datatype Value =
    | Int(n: int)
    | Str(b: Bytes)
    | List(items: seq<Value>)
    | Dict(entries: map<Bytes, Value>)

  datatype Result<+T> = Ok(value: T) | Err

  datatype Limits = Limits(depth: nat, digits: nat)

  const SOURCE := Limits(64, 4096)

  // ---------------------------------------------------------------- printing

  function NatAscii(n: nat): Bytes {
    if n < 10 then [48 + n] else NatAscii(n / 10) + [48 + n % 10]
  }

  function IntAscii(n: int): Bytes {
    if n < 0 then [45] + NatAscii(-n) else NatAscii(n)
  }

  function EncodeStr(b: Bytes): Bytes {
    NatAscii(|b|) + [58] + b
  }

  ghost function Encode(v: Value): Bytes
    decreases v
  {
    match v
    case Int(n) => [105] + IntAscii(n) + [101]
    case Str(b) => EncodeStr(b)
    case List(xs) => [108] + EncodeAll(xs) + [101]
    case Dict(m) => [100] + EncodePairs(v, SortedKeys(m.Keys)) + [101]
  }

  ghost function EncodeAll(xs: seq<Value>): Bytes
    decreases xs
  {
    if xs == [] then [] else Encode(xs[0]) + EncodeAll(xs[1..])
  }

  ghost function EncodePairs(v: Value, ks: seq<Bytes>): Bytes
    requires v.Dict? && forall k :: k in ks ==> k in v.entries
    decreases v, |ks|
  {
    if ks == [] then [] else
      assert ks[0] in ks;
      EncodeStr(ks[0]) + Encode(v.entries[ks[0]]) + EncodePairs(v, ks[1..])
  }

  // ----------------------------------------------------------------- parsing
  // The decoders are stated on the input that remains: `data[pos..]` in the source's terms.

  predicate IsDigit(c: byte) { 48 <= c <= 57 }

  predicate AllDigits(ds: Bytes) { forall i :: 0 <= i < |ds| ==> IsDigit(ds[i]) }

  /** How far the run of digits at the front of `s` reaches. */
  function DigitRun(s: Bytes): (k: nat)
    ensures k <= |s| && AllDigits(s[..k]) && (k < |s| ==> !IsDigit(s[k]))
  {
    if s != [] && IsDigit(s[0]) then
      var k := 1 + DigitRun(s[1..]);
      assert s[..k] == [s[0]] + s[1..][..k - 1];
      k
    else 0
  }

  function ParseNat(ds: Bytes): nat
    requires AllDigits(ds)
  {
    if ds == [] then 0 else
      var d := ds[|ds| - 1];
      assert IsDigit(d);
      ParseNat(ds[..|ds| - 1]) * 10 + (d as int - 48)
  }

  /** The digits of an integer, without a leading zero, and the step over the terminator. */
  function ReadDigits(lim: Limits, t: Bytes, terminator: byte, neg: bool): (r: Result<(int, Bytes)>)
    ensures r.Ok? ==> |r.value.1| < |t| && (!neg ==> r.value.0 >= 0)
  {
    var k := DigitRun(t);
    var digits := t[..k];
    if k == 0 then Err
    else if k > 1 && digits[0] == 48 then Err
    else if neg && digits == [48] then Err
    else if k >= |t| || t[k] != terminator then Err
    else if k > lim.digits then Err
    else
      var n: int := ParseNat(digits);
      Ok((if neg then -n else n, t[k + 1..]))
  }

  /** `_read_int_token` and the step over its terminator: the integer and what follows. */
  function ReadIntToken(lim: Limits, s: Bytes, terminator: byte, allowNegative: bool)
    : (r: Result<(int, Bytes)>)
    ensures r.Ok? ==> |r.value.1| < |s|
    ensures r.Ok? && !allowNegative ==> r.value.0 >= 0
  {
    var neg := s != [] && s[0] == 45;
    if neg && !allowNegative then Err else ReadDigits(lim, if neg then s[1..] else s, terminator, neg)
  }

  function DecodeStr(lim: Limits, s: Bytes): (r: Result<(Bytes, Bytes)>)
    ensures r.Ok? ==> |r.value.1| < |s|
  {
    match ReadIntToken(lim, s, 58, false)
    case Err => Err
    case Ok((length, t)) =>
      if length > |t| then Err else Ok((t[..length], t[length..]))
  }

  function DecodeInt(lim: Limits, s: Bytes): (r: Result<(Value, Bytes)>)
    requires s != []
    ensures r.Ok? ==> |r.value.1| < |s|
  {
    match ReadIntToken(lim, s[1..], 101, true)
    case Err => Err
    case Ok((n, rest)) => Ok((Int(n), rest))
  }

  function DecodeAt(lim: Limits, s: Bytes, depth: nat): (r: Result<(Value, Bytes)>)
    ensures r.Ok? ==> |r.value.1| < |s|
    decreases |s|, 0
  {
    if s == [] || depth > lim.depth then Err
    else if s[0] == 105 then DecodeInt(lim, s)
    else if s[0] == 108 then
      match DecodeItems(lim, s[1..], depth)
      case Err => Err
      case Ok((xs, rest)) => Ok((List(xs), rest))
    else if s[0] == 100 then
      match DecodePairs(lim, s[1..], depth, None)
      case Err => Err
      case Ok((ps, rest)) => Ok((Dict(MapOf(ps)), rest))
    else if IsDigit(s[0]) then
      match DecodeStr(lim, s)
      case Err => Err
      case Ok((b, rest)) => Ok((Str(b), rest))
    else Err
  }

  /** The loop of `_decode_list`: the items still to come and what follows the list. */
  function DecodeItems(lim: Limits, s: Bytes, depth: nat): (r: Result<(seq<Value>, Bytes)>)
    ensures r.Ok? ==> |r.value.1| < |s|
    decreases |s|, 1
  {
    if s == [] then Err
    else if s[0] == 101 then Ok(([], s[1..]))
    else
      match DecodeAt(lim, s, depth + 1)
      case Err => Err
      case Ok((x, t)) =>
        match DecodeItems(lim, t, depth)
        case Err => Err
        case Ok((xs, rest)) => Ok(([x] + xs, rest))
  }

  /** The loop of `_decode_dict` after a pair whose key was `prev`. */
  function DecodePairs(lim: Limits, s: Bytes, depth: nat, prev: Option<Bytes>)
    : (r: Result<(seq<(Bytes, Value)>, Bytes)>)
    ensures r.Ok? ==> |r.value.1| < |s|
    decreases |s|, 1
  {
    if s == [] then Err
    else if s[0] == 101 then Ok(([], s[1..]))
    else if !IsDigit(s[0]) then Err
    else
      match DecodeStr(lim, s)
      case Err => Err
      case Ok((key, t)) =>
        if prev.Some? && (key == prev.value || Less(key, prev.value)) then Err else
          match DecodeAt(lim, t, depth + 1)
          case Err => Err
          case Ok((v, u)) =>
            match DecodePairs(lim, u, depth, Some(key))
            case Err => Err
            case Ok((ps, rest)) => Ok(([(key, v)] + ps, rest))
  }

  function MapOf(ps: seq<(Bytes, Value)>): map<Bytes, Value> {
    if ps == [] then map[] else MapOf(ps[..|ps| - 1])[ps[|ps| - 1].0 := ps[|ps| - 1].1]
  }

  function Decode(lim: Limits, data: Bytes): Result<Value> {
    match DecodeAt(lim, data, 0)
    case Err => Err
    case Ok((v, rest)) => if rest == [] then Ok(v) else Err
  }

  // ------------------------------------------------------- what the limits admit

  /** No integer or length of `v` has more digits than `lim` allows, and no value sits deeper
      than `lim.depth` when `v` itself sits at `depth`. */
  ghost predicate Admits(lim: Limits, v: Value, depth: nat)
    decreases v
  {
    depth <= lim.depth &&
    match v
    case Int(n) => Short(lim, if n < 0 then -n else n)
    case Str(b) => Short(lim, |b|)
    case List(xs) => forall i :: 0 <= i < |xs| ==> Admits(lim, xs[i], depth + 1)
    case Dict(m) => forall k :: k in m ==> Short(lim, |k|) && Admits(lim, m[k], depth + 1)
  }

  predicate Short(lim: Limits, n: nat) { |NatAscii(n)| <= lim.digits }

  // ------------------------------------------------------------- integer tokens

  lemma {:induction false} NatAsciiCanonical(n: nat)
    ensures NatAscii(n) != [] && AllDigits(NatAscii(n))
    ensures NatAscii(n)[0] == 48 <==> n == 0
    ensures n == 0 ==> NatAscii(n) == [48]
    ensures ParseNat(NatAscii(n)) == n
  {
    if n >= 10 {
      NatAsciiCanonical(n / 10);
      var s := NatAscii(n);
      assert s[..|s| - 1] == NatAscii(n / 10);
    }
  }

  lemma {:induction false} ParseNatCanonical(ds: Bytes)
    requires ds != [] && AllDigits(ds) && (|ds| > 1 ==> ds[0] != 48)
    ensures NatAscii(ParseNat(ds)) == ds
    ensures ParseNat(ds) == 0 ==> ds == [48]
  {
    var init, last := ds[..|ds| - 1], ds[|ds| - 1];
    assert ds == init + [last];
    if init == [] {
      assert ParseNat(ds) == last as int - 48;
    } else {
      assert init[0] == ds[0];
      ParseNatCanonical(init);
      NatAsciiCanonical(ParseNat(init));
      assert ParseNat(ds) / 10 == ParseNat(init) && ParseNat(ds) % 10 == last as int - 48;
    }
  }

  lemma {:induction false} DigitRunAt(ds: Bytes, rest: Bytes)
    requires AllDigits(ds) && (rest != [] ==> !IsDigit(rest[0]))
    ensures DigitRun(ds + rest) == |ds|
  {
    if ds == [] {
      assert ds + rest == rest;
    } else {
      DigitRunAt(ds[1..], rest);
      assert (ds + rest)[1..] == ds[1..] + rest;
    }
  }

  lemma DigitsPrinted(lim: Limits, m: nat, terminator: byte, rest: Bytes, neg: bool)
    requires !IsDigit(terminator) && (neg ==> m > 0) && Short(lim, m)
    ensures var n: int := m;
            ReadDigits(lim, NatAscii(m) + ([terminator] + rest), terminator, neg) == Ok((if neg then -n else n, rest))
    ensures IsDigit((NatAscii(m) + ([terminator] + rest))[0])
  {
    var ds, tail := NatAscii(m), [terminator] + rest;
    NatAsciiCanonical(m);
    DigitRunAt(ds, tail);
    var t := ds + tail;
    assert t[..|ds|] == ds && t[|ds| + 1..] == rest && t[|ds|] == terminator;
  }

  lemma TokenIsDigits(lim: Limits, t: Bytes, terminator: byte, allowNegative: bool)
    ensures t != [] && IsDigit(t[0]) ==>
              ReadIntToken(lim, t, terminator, allowNegative) == ReadDigits(lim, t, terminator, false)
    ensures ReadIntToken(lim, [45] + t, terminator, true) == ReadDigits(lim, t, terminator, true)
  {
    assert ([45] + t)[1..] == t;
  }

  lemma Assoc3(a: Bytes, b: Bytes, c: Bytes, d: Bytes)
    ensures a + b + c == a + (b + c) && d + a + b + c == d + (a + (b + c))
  {
  }

  lemma ReadPrinted(lim: Limits, n: int, terminator: byte, rest: Bytes, allowNegative: bool)
    requires !IsDigit(terminator) && (n < 0 ==> allowNegative) && Short(lim, if n < 0 then -n else n)
    ensures ReadIntToken(lim, IntAscii(n) + [terminator] + rest, terminator, allowNegative) == Ok((n, rest))
  {
    var m: nat := if n < 0 then -n else n;
    DigitsPrinted(lim, m, terminator, rest, n < 0);
    TokenIsDigits(lim, NatAscii(m) + ([terminator] + rest), terminator, allowNegative);
    Assoc3(NatAscii(m), [terminator], rest, [45]);
  }

  lemma PrintDigits(lim: Limits, t: Bytes, terminator: byte, neg: bool)
    requires ReadDigits(lim, t, terminator, neg).Ok?
    ensures var (n, rest) := ReadDigits(lim, t, terminator, neg).value;
            var m: int := if neg then -n else n;
            m >= 0 && (neg ==> m > 0) && t == NatAscii(m) + [terminator] + rest && Short(lim, m)
  {
    var k := DigitRun(t);
    ParseNatCanonical(t[..k]);
    assert t == t[..k] + [t[k]] + t[k + 1..];
  }

  lemma PrintRead(lim: Limits, s: Bytes, terminator: byte, allowNegative: bool)
    requires ReadIntToken(lim, s, terminator, allowNegative).Ok?
    ensures var (n, rest) := ReadIntToken(lim, s, terminator, allowNegative).value;
            s == IntAscii(n) + [terminator] + rest && Short(lim, if n < 0 then -n else n)
  {
    var neg := s != [] && s[0] == 45;
    PrintDigits(lim, if neg then s[1..] else s, terminator, neg);
    if neg {
      var (n, rest) := ReadDigits(lim, s[1..], terminator, neg).value;
      assert s == [45] + s[1..];
      Regroup([45], NatAscii(-n), [terminator], rest);
    }
  }

  lemma StrPrinted(lim: Limits, b: Bytes, rest: Bytes)
    requires Short(lim, |b|)
    ensures DecodeStr(lim, EncodeStr(b) + rest) == Ok((b, rest))
    ensures IsDigit(EncodeStr(b)[0])
  {
    NatAsciiCanonical(|b|);
    ReadPrinted(lim, |b|, 58, b + rest, false);
    assert EncodeStr(b) + rest == IntAscii(|b|) + [58] + (b + rest);
    assert (b + rest)[..|b|] == b && (b + rest)[|b|..] == rest;
  }

  lemma PrintStr(lim: Limits, s: Bytes)
    requires DecodeStr(lim, s).Ok?
    ensures var (b, rest) := DecodeStr(lim, s).value; s == EncodeStr(b) + rest && Short(lim, |b|)
  {
    PrintRead(lim, s, 58, false);
    var (n, t) := ReadIntToken(lim, s, 58, false).value;
    assert t == t[..n] + t[n..];
    assert s == (NatAscii(n) + [58]) + t;
  }

  // ---------------------------------------------------------- dictionaries as pairs

  ghost function PairsOf(v: Value, ks: seq<Bytes>): seq<(Bytes, Value)>
    requires v.Dict? && forall k :: k in ks ==> k in v.entries
  {
    seq(|ks|, i requires 0 <= i < |ks| => (ks[i], v.entries[ks[i]]))
  }

  ghost function Keys(ps: seq<(Bytes, Value)>): seq<Bytes> {
    seq(|ps|, i requires 0 <= i < |ps| => ps[i].0)
  }

  lemma {:induction false} MapOfLookup(ps: seq<(Bytes, Value)>)
    requires Ascending(Keys(ps))
    ensures forall k :: k in MapOf(ps) <==> k in Keys(ps)
    ensures forall i :: 0 <= i < |ps| ==> ps[i].0 in MapOf(ps) && MapOf(ps)[ps[i].0] == ps[i].1
  {
    if ps != [] {
      var n := |ps| - 1;
      var init := ps[..n];
      assert Keys(init) == Keys(ps)[..n];
      MapOfLookup(init);
      assert Keys(ps) == Keys(init) + [ps[n].0];
      forall i | 0 <= i < n ensures MapOf(ps)[ps[i].0] == ps[i].1 {
        assert ps[i] == init[i];
        assert Less(Keys(ps)[i], Keys(ps)[n]);
        LessAsymmetric(ps[i].0, ps[n].0);
      }
    }
  }

  lemma MapOfPairs(v: Value)
    requires v.Dict?
    ensures MapOf(PairsOf(v, SortedKeys(v.entries.Keys))) == v.entries
  {
    var ks := SortedKeys(v.entries.Keys);
    PairsAt(v, ks);
    MapOfLookup(PairsOf(v, ks));
    LookupIsMap(v.entries, ks, PairsOf(v, ks), MapOf(PairsOf(v, ks)));
  }

  lemma PairsAt(v: Value, ks: seq<Bytes>)
    requires v.Dict? && forall k :: k in ks ==> k in v.entries
    ensures |PairsOf(v, ks)| == |ks| && Keys(PairsOf(v, ks)) == ks
    ensures forall i :: 0 <= i < |ks| ==> ks[i] in v.entries && PairsOf(v, ks)[i] == (ks[i], v.entries[ks[i]])
  {
  }

  lemma LookupIsMap(m: map<Bytes, Value>, ks: seq<Bytes>, ps: seq<(Bytes, Value)>, got: map<Bytes, Value>)
    requires |ps| == |ks| && (forall k :: k in ks <==> k in m) && (forall k :: k in got <==> k in ks)
    requires forall i :: 0 <= i < |ks| ==>
               ks[i] in m && ks[i] in got && ps[i] == (ks[i], m[ks[i]]) && got[ks[i]] == ps[i].1
    ensures got == m
  {
    forall k | k in m ensures got[k] == m[k] {
      var i :| 0 <= i < |ks| && ks[i] == k;
    }
  }

  // ------------------------------------------------------ decoding what was printed

  /** The printed form of an admitted value, whatever follows it, is read as that value and no
      further: encodings are self-delimiting. */
  lemma {:induction false} DecodePrinted(lim: Limits, v: Value, rest: Bytes, depth: nat)
    requires Admits(lim, v, depth)
    ensures DecodeAt(lim, Encode(v) + rest, depth) == Ok((v, rest))
    decreases v
  {
    match v
    case Int(n) =>
      ReadPrinted(lim, n, 101, rest, true);
      Regroup([105], IntAscii(n), [101], rest);
      assert ([105] + (IntAscii(n) + [101] + rest))[1..] == IntAscii(n) + [101] + rest;
    case Str(b) =>
      StrPrinted(lim, b, rest);
    case List(xs) =>
      DecodePrintedItems(lim, xs, rest, depth);
      AtList(lim, EncodeAll(xs) + [101] + rest, depth);
      Regroup([108], EncodeAll(xs), [101], rest);
    case Dict(m) =>
      DecodePrintedDict(lim, v, rest, depth);
  }

  lemma AtList(lim: Limits, t: Bytes, depth: nat)
    requires depth <= lim.depth && DecodeItems(lim, t, depth).Ok?
    ensures var (xs, rest) := DecodeItems(lim, t, depth).value;
            DecodeAt(lim, [108] + t, depth) == Ok((List(xs), rest))
  {
    assert ([108] + t)[1..] == t;
  }

  lemma Regroup(a: Bytes, b: Bytes, c: Bytes, d: Bytes)
    ensures a + b + c + d == a + (b + c + d)
  {
  }

  lemma Flatten(a: Bytes, b: Bytes, c: Bytes, d: Bytes, e: Bytes)
    ensures a + (b + (c + d + e)) == a + b + c + d + e
  {
  }

  lemma AtDict(lim: Limits, t: Bytes, depth: nat)
    requires depth <= lim.depth && DecodePairs(lim, t, depth, None).Ok?
    ensures var (ps, rest) := DecodePairs(lim, t, depth, None).value;
            DecodeAt(lim, [100] + t, depth) == Ok((Dict(MapOf(ps)), rest))
  {
    assert ([100] + t)[1..] == t;
  }

  lemma {:induction false} DecodePrintedDict(lim: Limits, v: Value, rest: Bytes, depth: nat)
    requires v.Dict? && Admits(lim, v, depth)
    ensures DecodeAt(lim, Encode(v) + rest, depth) == Ok((v, rest))
    decreases v, |v.entries| + 1
  {
    var ks := SortedKeys(v.entries.Keys);
    DecodePrintedPairs(lim, v, ks, rest, depth, None);
    var body := EncodePairs(v, ks);
    AtDict(lim, body + [101] + rest, depth);
    Regroup([100], body, [101], rest);
    assert Encode(v) == [100] + body + [101];
    MapOfPairs(v);
  }

  lemma PrintedFirst(v: Value)
    ensures Encode(v) != [] && Encode(v)[0] != 101
  {
    if v.Str? { NatAsciiCanonical(|v.b|); assert IsDigit(NatAscii(|v.b|)[0]); }
  }

  lemma ItemsStep(lim: Limits, s: Bytes, depth: nat, x: Value, t: Bytes, xs: seq<Value>, rest: Bytes)
    requires s != [] && s[0] != 101
    requires DecodeAt(lim, s, depth + 1) == Ok((x, t))
    requires DecodeItems(lim, t, depth) == Ok((xs, rest))
    ensures DecodeItems(lim, s, depth) == Ok(([x] + xs, rest))
  {
  }

  lemma {:induction false} DecodePrintedItems(lim: Limits, xs: seq<Value>, rest: Bytes, depth: nat)
    requires forall i :: 0 <= i < |xs| ==> Admits(lim, xs[i], depth + 1)
    ensures DecodeItems(lim, EncodeAll(xs) + [101] + rest, depth) == Ok((xs, rest))
    decreases xs
  {
    var s := EncodeAll(xs) + [101] + rest;
    if xs == [] {
      assert s == [101] + rest;
    } else {
      var e, t := Encode(xs[0]), EncodeAll(xs[1..]) + [101] + rest;
      assert s == e + t;
      PrintedFirst(xs[0]);
      DecodePrinted(lim, xs[0], t, depth + 1);
      DecodePrintedItems(lim, xs[1..], rest, depth);
      ItemsStep(lim, s, depth, xs[0], t, xs[1..], rest);
      assert xs == [xs[0]] + xs[1..];
    }
  }

  lemma PairsStep(lim: Limits, s: Bytes, depth: nat, prev: Option<Bytes>,
                  k: Bytes, t: Bytes, x: Value, u: Bytes, ps: seq<(Bytes, Value)>, rest: Bytes)
    requires s != [] && IsDigit(s[0]) && DecodeStr(lim, s) == Ok((k, t))
    requires prev.Some? ==> Less(prev.value, k)
    requires DecodeAt(lim, t, depth + 1) == Ok((x, u))
    requires DecodePairs(lim, u, depth, Some(k)) == Ok((ps, rest))
    ensures DecodePairs(lim, s, depth, prev) == Ok(([(k, x)] + ps, rest))
  {
    if prev.Some? { LessAsymmetric(prev.value, k); }
  }

  lemma {:induction false} DecodePrintedPairs(lim: Limits, v: Value, ks: seq<Bytes>, rest: Bytes, depth: nat,
      prev: Option<Bytes>)
    requires v.Dict? && Ascending(ks) && forall k :: k in ks ==> k in v.entries
    requires prev.Some? && ks != [] ==> Less(prev.value, ks[0])
    requires forall k :: k in ks ==> Short(lim, |k|) && Admits(lim, v.entries[k], depth + 1)
    ensures DecodePairs(lim, EncodePairs(v, ks) + [101] + rest, depth, prev) == Ok((PairsOf(v, ks), rest))
    decreases v, |ks|
  {
    var s := EncodePairs(v, ks) + [101] + rest;
    if ks == [] {
      assert s == [101] + rest;
      assert PairsOf(v, ks) == [];
    } else {
      var k, x := ks[0], v.entries[ks[0]];
      assert k in ks;
      var u := EncodePairs(v, ks[1..]) + [101] + rest;
      var t := Encode(x) + u;
      Flatten(EncodeStr(k), Encode(x), EncodePairs(v, ks[1..]), [101], rest);
      StrPrinted(lim, k, t);
      DecodePrinted(lim, x, u, depth + 1);
      AscendingTail(ks);
      assert ks[1..] != [] ==> ks[1..][0] in ks[1..];
      DecodePrintedPairs(lim, v, ks[1..], rest, depth, Some(k));
      PairsStep(lim, s, depth, prev, k, t, x, u, PairsOf(v, ks[1..]), rest);
      PairsOfCons(v, ks);
    }
  }

  lemma PairsOfCons(v: Value, ks: seq<Bytes>)
    requires v.Dict? && (forall k :: k in ks ==> k in v.entries) && ks != []
    ensures PairsOf(v, ks) == [(ks[0], v.entries[ks[0]])] + PairsOf(v, ks[1..])
  {
  }

  // -------------------------------------------------------- printing what was decoded

  ghost function EncodeEach(ps: seq<(Bytes, Value)>): Bytes {
    if ps == [] then [] else EncodeStr(ps[0].0) + Encode(ps[0].1) + EncodeEach(ps[1..])
  }

  lemma {:induction false} EncodeEachPairs(v: Value, ks: seq<Bytes>)
    requires v.Dict? && forall k :: k in ks ==> k in v.entries
    ensures EncodeEach(PairsOf(v, ks)) == EncodePairs(v, ks)
  {
    if ks != [] {
      EncodeEachPairs(v, ks[1..]);
      assert PairsOf(v, ks)[1..] == PairsOf(v, ks[1..]);
    }
  }

  lemma PairsAreCanonical(ps: seq<(Bytes, Value)>)
    requires Ascending(Keys(ps))
    ensures Encode(Dict(MapOf(ps))) == [100] + EncodeEach(ps) + [101]
  {
    MapOfLookup(ps);
    var v := Dict(MapOf(ps));
    var ks := SortedKeys(v.entries.Keys);
    AscendingUnique(Keys(ps), ks);
    assert ps == PairsOf(v, ks);
    EncodeEachPairs(v, ks);
  }

  /** Whatever the decoder accepts is the printed form of the value it read, followed by what it
      left, and that value is within the limits. */
  lemma {:induction false} PrintDecoded(lim: Limits, s: Bytes, depth: nat)
    requires DecodeAt(lim, s, depth).Ok?
    ensures var (v, rest) := DecodeAt(lim, s, depth).value;
            s == Encode(v) + rest && Admits(lim, v, depth)
    decreases |s|, 0
  {
    if s[0] == 105 {
      PrintRead(lim, s[1..], 101, true);
      var (n, rest) := ReadIntToken(lim, s[1..], 101, true).value;
      Headed(105, IntAscii(n), rest, s);
    } else if s[0] == 108 {
      PrintDecodedItems(lim, s[1..], depth);
      var (xs, rest) := DecodeItems(lim, s[1..], depth).value;
      Headed(108, EncodeAll(xs), rest, s);
      ItemsAdmitted(lim, xs, depth);
    } else if s[0] == 100 {
      PrintDecodedDict(lim, s, depth);
    } else {
      PrintStr(lim, s);
    }
  }

  lemma Headed(tag: byte, body: Bytes, rest: Bytes, s: Bytes)
    requires s != [] && s[0] == tag && s[1..] == body + [101] + rest
    ensures s == [tag] + body + [101] + rest
  {
    assert s == [tag] + s[1..];
    Regroup([tag], body, [101], rest);
  }

  lemma {:induction false} PrintDecodedDict(lim: Limits, s: Bytes, depth: nat)
    requires s != [] && s[0] == 100 && DecodeAt(lim, s, depth).Ok?
    ensures var (v, rest) := DecodeAt(lim, s, depth).value;
            s == Encode(v) + rest && Admits(lim, v, depth)
    decreases |s| - 1, 2
  {
    var (ps, rest) := DecodePairs(lim, s[1..], depth, None).value;
    PrintDecodedPairs(lim, s[1..], depth, None);
    PairsAreCanonical(ps);
    PairsAdmitted(lim, ps, depth);
    Regroup([100], EncodeEach(ps), [101], rest);
    assert s == [100] + s[1..];
  }

  lemma PairsAdmitted(lim: Limits, ps: seq<(Bytes, Value)>, depth: nat)
    requires depth <= lim.depth && GoodPairs(lim, ps, depth, None)
    ensures Admits(lim, Dict(MapOf(ps)), depth)
  {
    var m := MapOf(ps);
    MapOfLookup(ps);
    forall k | k in m ensures Short(lim, |k|) && Admits(lim, m[k], depth + 1) {
      assert k in Keys(ps);
      var i :| 0 <= i < |ps| && Keys(ps)[i] == k;
      assert m[k] == ps[i].1;
    }
  }

  lemma {:induction false} PrintDecodedItems(lim: Limits, s: Bytes, depth: nat)
    requires DecodeItems(lim, s, depth).Ok?
    ensures var (xs, rest) := DecodeItems(lim, s, depth).value;
            s == EncodeAll(xs) + [101] + rest && AllAdmit(lim, xs, depth + 1)
    decreases |s|, 1
  {
    if s[0] == 101 {
      assert s == [101] + s[1..] == [] + [101] + s[1..];
    } else {
      var (x, t) := DecodeAt(lim, s, depth + 1).value;
      var (ys, rest) := DecodeItems(lim, t, depth).value;
      ItemsSplit(lim, s, depth);
      PrintDecoded(lim, s, depth + 1);
      PrintDecodedItems(lim, t, depth);
      ItemsPrinted(lim, x, ys, depth);
      Regroup(Encode(x), EncodeAll(ys), [101], rest);
    }
  }

  ghost predicate AllAdmit(lim: Limits, xs: seq<Value>, depth: nat) {
    forall i :: 0 <= i < |xs| ==> Admits(lim, xs[i], depth)
  }

  lemma ItemsSplit(lim: Limits, s: Bytes, depth: nat)
    requires DecodeItems(lim, s, depth).Ok? && s[0] != 101
    ensures var (x, t) := DecodeAt(lim, s, depth + 1).value;
            var (ys, rest) := DecodeItems(lim, t, depth).value;
            DecodeItems(lim, s, depth) == Ok(([x] + ys, rest))
  {
  }

  lemma ItemsPrinted(lim: Limits, x: Value, ys: seq<Value>, depth: nat)
    requires Admits(lim, x, depth + 1) && AllAdmit(lim, ys, depth + 1)
    ensures EncodeAll([x] + ys) == Encode(x) + EncodeAll(ys) && AllAdmit(lim, [x] + ys, depth + 1)
  {
    assert ([x] + ys)[1..] == ys;
  }

  ghost predicate GoodPairs(lim: Limits, ps: seq<(Bytes, Value)>, depth: nat, prev: Option<Bytes>) {
    Ascending(Keys(ps)) &&
    (prev.Some? ==> forall i :: 0 <= i < |ps| ==> Less(prev.value, ps[i].0)) &&
    forall i :: 0 <= i < |ps| ==> Short(lim, |ps[i].0|) && Admits(lim, ps[i].1, depth + 1)
  }

  lemma GoodPairsCons(lim: Limits, k: Bytes, v: Value, ps: seq<(Bytes, Value)>, depth: nat, prev: Option<Bytes>)
    requires GoodPairs(lim, ps, depth, Some(k)) && Short(lim, |k|) && Admits(lim, v, depth + 1)
    requires prev.Some? ==> Less(prev.value, k)
    ensures GoodPairs(lim, [(k, v)] + ps, depth, prev)
    ensures EncodeEach([(k, v)] + ps) == EncodeStr(k) + Encode(v) + EncodeEach(ps)
  {
    var qs := [(k, v)] + ps;
    assert qs[1..] == ps;
    assert Keys(qs) == [k] + Keys(ps);
    if prev.Some? {
      forall i | 0 <= i < |qs| ensures Less(prev.value, qs[i].0) {
        if i > 0 { LessTransitive(prev.value, k, ps[i - 1].0); }
      }
    }
  }

  lemma {:induction false} PrintDecodedPairs(lim: Limits, s: Bytes, depth: nat, prev: Option<Bytes>)
    requires DecodePairs(lim, s, depth, prev).Ok?
    ensures var (ps, rest) := DecodePairs(lim, s, depth, prev).value;
            s == EncodeEach(ps) + [101] + rest && GoodPairs(lim, ps, depth, prev)
    decreases |s|, 1
  {
    if s[0] == 101 {
      assert s == [101] + s[1..] == [] + [101] + s[1..];
    } else {
      var (k, t) := DecodeStr(lim, s).value;
      var (v, u) := DecodeAt(lim, t, depth + 1).value;
      var (ps, rest) := DecodePairs(lim, u, depth, Some(k)).value;
      PairsSplit(lim, s, depth, prev);
      PrintStr(lim, s);
      PrintDecoded(lim, t, depth + 1);
      PrintDecodedPairs(lim, u, depth, Some(k));
      PairAssembled(lim, s, t, u, k, v, ps, rest, depth, prev);
    }
  }

  lemma PairAssembled(lim: Limits, s: Bytes, t: Bytes, u: Bytes, k: Bytes, v: Value, ps: seq<(Bytes, Value)>,
                      rest: Bytes, depth: nat, prev: Option<Bytes>)
    requires s == EncodeStr(k) + t && t == Encode(v) + u && u == EncodeEach(ps) + [101] + rest
    requires GoodPairs(lim, ps, depth, Some(k)) && Short(lim, |k|) && Admits(lim, v, depth + 1)
    requires prev.Some? ==> Less(prev.value, k)
    ensures s == EncodeEach([(k, v)] + ps) + [101] + rest && GoodPairs(lim, [(k, v)] + ps, depth, prev)
  {
    GoodPairsCons(lim, k, v, ps, depth, prev);
    Flatten(EncodeStr(k), Encode(v), EncodeEach(ps), [101], rest);
  }

  lemma PairsSplit(lim: Limits, s: Bytes, depth: nat, prev: Option<Bytes>)
    requires DecodePairs(lim, s, depth, prev).Ok? && s[0] != 101
    ensures var (k, t) := DecodeStr(lim, s).value;
            var (v, u) := DecodeAt(lim, t, depth + 1).value;
            var (ps, rest) := DecodePairs(lim, u, depth, Some(k)).value;
            DecodePairs(lim, s, depth, prev) == Ok(([(k, v)] + ps, rest)) &&
            (prev.Some? ==> Less(prev.value, k))
  {
    if prev.Some? { LessTotal(prev.value, DecodeStr(lim, s).value.0); }
  }

  // -------------------------------------------------------------- the codec's laws

  /** `decode(encode(v)) == v` holds exactly for the values within the decoder's limits. */
  lemma DecodeEncode(lim: Limits, v: Value)
    ensures Decode(lim, Encode(v)) == Ok(v) <==> Admits(lim, v, 0)
  {
    var data := Encode(v);
    assert data + [] == data;
    if Admits(lim, v, 0) { DecodePrinted(lim, v, [], 0); }
    if Decode(lim, data) == Ok(v) { PrintDecoded(lim, data, 0); }
  }

  /** `encode(decode(b)) == b` for every accepted input: each value has one accepted spelling. */
  lemma EncodeDecode(lim: Limits, data: Bytes)
    requires Decode(lim, data).Ok?
    ensures Encode(Decode(lim, data).value) == data
    ensures Admits(lim, Decode(lim, data).value, 0)
  {
    PrintDecoded(lim, data, 0);
    var v := Decode(lim, data).value;
    assert Encode(v) + [] == Encode(v);
  }

  lemma {:induction false} EncodeAllLength(xs: seq<Value>, i: nat)
    requires i < |xs|
    ensures |Encode(xs[i])| <= |EncodeAll(xs)|
  {
    assert |EncodeAll(xs)| == |Encode(xs[0])| + |EncodeAll(xs[1..])|;
    if i > 0 {
      EncodeAllLength(xs[1..], i - 1);
      assert xs[1..][i - 1] == xs[i];
    }
  }

  lemma {:induction false} EncodePairsLength(v: Value, ks: seq<Bytes>, i: nat)
    requires v.Dict? && (forall k :: k in ks ==> k in v.entries) && i < |ks|
    ensures |NatAscii(|ks[i]|)| + |Encode(v.entries[ks[i]])| <= |EncodePairs(v, ks)|
  {
    var k := ks[0];
    assert k in ks;
    assert |EncodePairs(v, ks)| == |EncodeStr(k)| + |Encode(v.entries[k])| + |EncodePairs(v, ks[1..])|;
    if i > 0 {
      EncodePairsLength(v, ks[1..], i - 1);
      assert ks[1..][i - 1] == ks[i];
    }
  }

  lemma ItemsAdmitted(lim: Limits, xs: seq<Value>, depth: nat)
    requires depth <= lim.depth && AllAdmit(lim, xs, depth + 1)
    ensures Admits(lim, List(xs), depth)
  {
  }

  lemma ListLength(v: Value, i: nat)
    requires v.List? && i < |v.items|
    ensures |Encode(v.items[i])| < |Encode(v)|
  {
    EncodeAllLength(v.items, i);
  }

  lemma DictLength(v: Value, k: Bytes)
    requires v.Dict? && k in v.entries
    ensures |NatAscii(|k|)| < |Encode(v)| && |Encode(v.entries[k])| < |Encode(v)|
  {
    var ks := SortedKeys(v.entries.Keys);
    assert k in ks;
    var i :| 0 <= i < |ks| && ks[i] == k;
    EncodePairsLength(v, ks, i);
  }

  /** Limits as large as the printed form admit any value. */
  lemma {:induction false} AdmitsByLength(lim: Limits, v: Value, depth: nat)
    requires depth + |Encode(v)| <= lim.depth && |Encode(v)| <= lim.digits
    ensures Admits(lim, v, depth)
    decreases v
  {
    match v
    case Int(_) =>
    case Str(_) =>
    case List(xs) =>
      forall i | 0 <= i < |xs| ensures Admits(lim, xs[i], depth + 1) {
        ListLength(v, i);
        AdmitsByLength(lim, xs[i], depth + 1);
      }
      ItemsAdmitted(lim, xs, depth);
    case Dict(m) =>
      forall k | k in m ensures Short(lim, |k|) && Admits(lim, m[k], depth + 1) {
        DictLength(v, k);
        AdmitsByLength(lim, m[k], depth + 1);
      }
  }

  /** Distinct values never share an encoding, within the limits or beyond them. */
  lemma EncodeInjective(v: Value, w: Value)
    requires Encode(v) == Encode(w)
    ensures v == w
  {
    var n := |Encode(v)|;
    var lim := Limits(n, n);
    AdmitsByLength(lim, v, 0);
    AdmitsByLength(lim, w, 0);
    DecodeEncode(lim, v);
    DecodeEncode(lim, w);
  }
}
