/** The encoder and decoders of dude/core/codec.py as they run: appending to a byte array,
    advancing a position, filling lists and dictionaries. Each is proved to compute what
    `Codec.Encode` and `Codec.Decode` say. */
module CodecLoops {
  import opened Bytes
  import opened Codec

  class ByteArray {
    var data: Bytes

    constructor ()
      ensures data == []
    {
      data := [];
    }

    method Extend(b: Bytes)
      modifies this
      ensures data == old(data) + b
    {
      data := data + b;
    }
  }

  // ---------------------------------------------------------------- encoding

  function InsertKey(ks: seq<Bytes>, k: Bytes): (r: seq<Bytes>)
    requires Ascending(ks) && k !in ks
    ensures Ascending(r) && forall x :: x in r <==> x in ks || x == k
  {
    if ks == [] then [k]
    else if Less(k, ks[0]) then
      assert Ascending([k] + ks) by { AscendingCons(k, ks); }
      [k] + ks
    else
      AscendingTail(ks);
      var rest := InsertKey(ks[1..], k);
      assert Ascending([ks[0]] + rest) by {
        LessTotal(k, ks[0]);
        AscendingCons(ks[0], rest);
      }
      assert ks == [ks[0]] + ks[1..];
      [ks[0]] + rest
  }

  lemma AscendingCons(k: Bytes, ks: seq<Bytes>)
    requires Ascending(ks) && ((ks != [] && Less(k, ks[0])) || forall x :: x in ks ==> Less(k, x))
    ensures Ascending([k] + ks)
  {
    var r := [k] + ks;
    forall i, j | 0 <= i < j < |r| ensures Less(r[i], r[j]) {
      if i > 0 {
        assert Less(ks[i - 1], ks[j - 1]);
      } else if j > 1 && Less(k, ks[0]) {
        assert Less(ks[0], ks[j - 1]);
        LessTransitive(k, ks[0], ks[j - 1]);
      } else {
        assert ks[j - 1] in ks;
      }
    }
  }

  method SortKeys(s: set<Bytes>) returns (ks: seq<Bytes>)
    ensures ks == SortedKeys(s)
  {
    ks := [];
    var todo := s;
    while todo != {}
      invariant todo <= s && Ascending(ks)
      invariant forall x :: x in ks <==> x in s && x !in todo
      decreases |todo|
    {
      var k :| k in todo;
      ks := InsertKey(ks, k);
      todo := todo - {k};
    }
    AscendingUnique(ks, SortedKeys(s));
  }

  lemma Assoc(a: Bytes, b: Bytes, c: Bytes)
    ensures a + (b + c) == a + b + c
  {
  }

  lemma {:induction false} EncodeAllSnoc(xs: seq<Value>, x: Value)
    ensures EncodeAll(xs + [x]) == EncodeAll(xs) + Encode(x)
  {
    var ys := xs + [x];
    if xs == [] {
      assert ys[1..] == [] && Encode(x) + [] == [] + Encode(x);
    } else {
      EncodeAllSnoc(xs[1..], x);
      assert ys[0] == xs[0] && ys[1..] == xs[1..] + [x];
      Assoc(Encode(xs[0]), EncodeAll(xs[1..]), Encode(x));
    }
  }

  lemma {:induction false} EncodePairsSnoc(v: Value, ks: seq<Bytes>, k: Bytes)
    requires v.Dict? && (forall j :: j in ks ==> j in v.entries) && k in v.entries
    ensures EncodePairs(v, ks + [k]) == EncodePairs(v, ks) + (EncodeStr(k) + Encode(v.entries[k]))
  {
    if ks == [] {
      assert ks + [k] == [k];
    } else {
      EncodePairsSnoc(v, ks[1..], k);
      assert (ks + [k])[1..] == ks[1..] + [k];
    }
  }

  method EncodeInto(v: Value, out: ByteArray)
    modifies out
    ensures out.data == old(out.data) + Encode(v)
    decreases v
  {
    ghost var before := out.data;
    match v
    case Int(n) =>
      out.Extend([105]);
      out.Extend(IntAscii(n));
      out.Extend([101]);
      assert out.data == before + Encode(v);
    case Str(b) =>
      out.Extend(NatAscii(|b|));
      out.Extend([58]);
      out.Extend(b);
      assert out.data == before + Encode(v);
    case List(xs) =>
      EncodeListInto(v, out);
    case Dict(m) =>
      EncodeDictInto(v, out);
  }

  method EncodeListInto(v: Value, out: ByteArray)
    requires v.List?
    modifies out
    ensures out.data == old(out.data) + Encode(v)
    decreases v, 0
  {
    ghost var before := out.data;
    var xs := v.items;
    out.Extend([108]);
    for i := 0 to |xs|
      invariant out.data == before + ([108] + EncodeAll(xs[..i]))
    {
      EncodeInto(xs[i], out);
      ItemAppended(xs, i, before);
    }
    assert xs[..|xs|] == xs;
    out.Extend([101]);
    Regroup(before, [108], EncodeAll(xs), [101]);
  }

  lemma ItemAppended(xs: seq<Value>, i: nat, before: Bytes)
    requires i < |xs|
    ensures before + ([108] + EncodeAll(xs[..i])) + Encode(xs[i]) == before + ([108] + EncodeAll(xs[..i + 1]))
  {
    EncodeAllSnoc(xs[..i], xs[i]);
    assert xs[..i] + [xs[i]] == xs[..i + 1];
    Append4(before, [108], EncodeAll(xs[..i]), Encode(xs[i]));
  }

  method EncodeDictInto(v: Value, out: ByteArray)
    requires v.Dict?
    modifies out
    ensures out.data == old(out.data) + Encode(v)
    decreases v, 0
  {
    ghost var before := out.data;
    var ks := SortKeys(v.entries.Keys);
    out.Extend([100]);
    for i := 0 to |ks|
      invariant out.data == before + ([100] + EncodePairs(v, ks[..i]))
    {
      assert ks[i] in ks;
      EncodePairInto(v, ks[i], out);
      PairAppended(v, ks, i, before);
    }
    assert ks[..|ks|] == ks;
    out.Extend([101]);
    Regroup(before, [100], EncodePairs(v, ks), [101]);
  }

  method EncodePairInto(v: Value, k: Bytes, out: ByteArray)
    requires v.Dict? && k in v.entries
    modifies out
    ensures out.data == old(out.data) + (EncodeStr(k) + Encode(v.entries[k]))
    decreases v, 0, 0
  {
    ghost var before := out.data;
    out.Extend(EncodeStr(k));
    EncodeInto(v.entries[k], out);
    Assoc(before, EncodeStr(k), Encode(v.entries[k]));
  }

  lemma PairAppended(v: Value, ks: seq<Bytes>, i: nat, before: Bytes)
    requires v.Dict? && i < |ks| && forall k :: k in ks ==> k in v.entries
    ensures before + ([100] + EncodePairs(v, ks[..i])) + (EncodeStr(ks[i]) + Encode(v.entries[ks[i]])) ==
            before + ([100] + EncodePairs(v, ks[..i + 1]))
  {
    EncodePairsSnoc(v, ks[..i], ks[i]);
    assert ks[..i] + [ks[i]] == ks[..i + 1];
    Append4(before, [100], EncodePairs(v, ks[..i]), EncodeStr(ks[i]) + Encode(v.entries[ks[i]]));
  }

  lemma Append4(a: Bytes, b: Bytes, c: Bytes, d: Bytes)
    ensures a + (b + c) + d == a + (b + (c + d))
  {
  }

  method EncodeBytes(v: Value) returns (b: Bytes)
    ensures b == Encode(v)
  {
    var out := new ByteArray();
    EncodeInto(v, out);
    b := out.data;
  }

  // ---------------------------------------------------------------- decoding

  /** A decoder's answer, with the position it stopped at, says what the specification says of
      the input from the position it started at. */
  ghost predicate Agrees<T>(data: Bytes, spec: Result<(T, Bytes)>, r: Result<(T, nat)>) {
    (spec.Err? <==> r.Err?) &&
    (r.Ok? ==> r.value.0 == spec.value.0 && r.value.1 <= |data| && data[r.value.1..] == spec.value.1)
  }

  lemma Slices(data: Bytes, a: nat, b: nat)
    requires a <= b <= |data|
    ensures data[a..][..b - a] == data[a..b] && data[a..][b - a..] == data[b..]
    ensures b < |data| ==> data[a..][b - a] == data[b]
  {
  }

  method ReadToken(data: Bytes, start: nat, terminator: byte, allowNegative: bool) returns (r: Result<(int, nat)>)
    requires start <= |data|
    ensures Agrees(data, ReadIntToken(SOURCE, data[start..], terminator, allowNegative), Past(r))
    ensures r.Ok? ==> start <= r.value.1 < |data|
  {
    var pos := start;
    var neg := false;
    if pos < |data| && data[pos] == 45 {
      if !allowNegative { return Err; }
      neg := true;
      pos := pos + 1;
    }
    r := ReadDigitsAt(data, pos, terminator, neg);
    assert neg ==> data[start..][1..] == data[pos..];
  }

  method ReadDigitsAt(data: Bytes, start: nat, terminator: byte, neg: bool) returns (r: Result<(int, nat)>)
    requires start <= |data|
    ensures Agrees(data, ReadDigits(SOURCE, data[start..], terminator, neg), Past(r))
    ensures r.Ok? ==> start <= r.value.1 < |data|
  {
    var pos := SkipDigits(data, start);
    var digits := data[start..pos];
    Slices(data, start, pos);
    if pos == start { return Err; }
    if |digits| > 1 && digits[0] == 48 { return Err; }
    if neg && digits == [48] { return Err; }
    if pos >= |data| || data[pos] != terminator { return Err; }
    if |digits| > 4096 { return Err; }
    var n: int := ParseNat(digits);
    Slices(data, start, pos + 1);
    return Ok((if neg then -n else n, pos));
  }

  /** The position just past the terminator a token stopped at. */
  function Past(r: Result<(int, nat)>): Result<(int, nat)> {
    match r
    case Err => Err
    case Ok((n, end)) => Ok((n, end + 1))
  }

  method SkipDigits(data: Bytes, start: nat) returns (pos: nat)
    requires start <= |data|
    ensures start <= pos <= |data| && pos == start + DigitRun(data[start..])
  {
    pos := start;
    while pos < |data| && IsDigit(data[pos])
      invariant start <= pos <= |data|
      invariant DigitRun(data[start..]) == (pos - start) + DigitRun(data[pos..])
    {
      assert data[pos..][1..] == data[pos + 1..];
      pos := pos + 1;
    }
  }

  method DecodeStrAt(data: Bytes, pos: nat) returns (r: Result<(Bytes, nat)>)
    requires pos <= |data|
    ensures Agrees(data, DecodeStr(SOURCE, data[pos..]), r)
    ensures r.Ok? ==> pos < r.value.1 <= |data|
  {
    var tok := ReadToken(data, pos, 58, false);
    if tok.Err? { return Err; }
    var (length, colon) := tok.value;
    var start := colon + 1;
    var end := start + length;
    ghost var t := data[start..];
    if end > |data| { return Err; }
    assert t[..length] == data[start..end] && t[length..] == data[end..];
    return Ok((data[start..end], end));
  }

  method DecodeValueAt(data: Bytes, pos: nat, depth: nat) returns (r: Result<(Value, nat)>)
    requires pos <= |data|
    ensures Agrees(data, DecodeAt(SOURCE, data[pos..], depth), r)
    ensures r.Ok? ==> pos < r.value.1 <= |data|
    decreases |data| - pos, 0
  {
    if pos >= |data| { return Err; }
    if depth > 64 { return Err; }
    ghost var s := data[pos..];
    assert s[1..] == data[pos + 1..];
    var tag := data[pos];
    if tag == 0x69 {
      var tok := ReadToken(data, pos + 1, 0x65, true);
      if tok.Err? { return Err; }
      return Ok((Int(tok.value.0), tok.value.1 + 1));
    }
    if tag == 0x6C {
      var xs := DecodeListAt(data, pos, depth);
      if xs.Err? { return Err; }
      return Ok((List(xs.value.0), xs.value.1));
    }
    if tag == 0x64 {
      r := DecodeDictAt(data, pos, depth);
      return;
    }
    if 0x30 <= tag <= 0x39 {
      var b := DecodeStrAt(data, pos);
      if b.Err? { return Err; }
      return Ok((Str(b.value.0), b.value.1));
    }
    return Err;
  }

  function Prepend<T>(xs: seq<T>, r: Result<(seq<T>, Bytes)>): Result<(seq<T>, Bytes)> {
    match r
    case Err => Err
    case Ok((ys, rest)) => Ok((xs + ys, rest))
  }

  method DecodeListAt(data: Bytes, start: nat, depth: nat) returns (r: Result<(seq<Value>, nat)>)
    requires start < |data|
    ensures Agrees(data, DecodeItems(SOURCE, data[start + 1..], depth), r)
    ensures r.Ok? ==> start < r.value.1 <= |data|
    decreases |data| - start - 1, 2
  {
    var pos := start + 1;
    var items: seq<Value> := [];
    ghost var spec := DecodeItems(SOURCE, data[start + 1..], depth);
    assert spec == Prepend([], spec) by { if spec.Ok? { assert [] + spec.value.0 == spec.value.0; } }
    while true
      invariant start < pos <= |data|
      invariant spec == Prepend(items, DecodeItems(SOURCE, data[pos..], depth))
      decreases |data| - pos
    {
      if pos >= |data| { return Err; }
      ghost var s := data[pos..];
      assert s[1..] == data[pos + 1..];
      if data[pos] == 0x65 { assert items + [] == items; return Ok((items, pos + 1)); }
      var item := DecodeValueAt(data, pos, depth + 1);
      if item.Err? { return Err; }
      assert forall ys: seq<Value> :: items + ([item.value.0] + ys) == items + [item.value.0] + ys;
      items := items + [item.value.0];
      pos := item.value.1;
    }
  }

  method DecodeDictAt(data: Bytes, start: nat, depth: nat) returns (r: Result<(Value, nat)>)
    requires start < |data| && data[start] == 100 && depth <= 64
    ensures Agrees(data, DecodeAt(SOURCE, data[start..], depth), r)
    ensures r.Ok? ==> start < r.value.1 <= |data|
    decreases |data| - start - 1, 2
  {
    var pos := start + 1;
    var result: map<Bytes, Value> := map[];
    var prev: Option<Bytes> := None;
    ghost var pairs: seq<(Bytes, Value)> := [];
    ghost var spec := DecodePairs(SOURCE, data[start + 1..], depth, None);
    assert spec == Prepend([], spec) by { if spec.Ok? { assert [] + spec.value.0 == spec.value.0; } }
    assert data[start..][1..] == data[start + 1..];
    while true
      invariant start < pos <= |data|
      invariant result == MapOf(pairs)
      invariant spec == Prepend(pairs, DecodePairs(SOURCE, data[pos..], depth, prev))
      decreases |data| - pos
    {
      if pos >= |data| { return Err; }
      ghost var s := data[pos..];
      assert s[1..] == data[pos + 1..];
      if data[pos] == 0x65 { assert pairs + [] == pairs; return Ok((Dict(result), pos + 1)); }
      var pair := DecodePairAt(data, pos, depth, prev);
      if pair.Err? { return Err; }
      ghost var p := (pair.value.0, pair.value.1);
      PrependOne(pairs, p, DecodePairs(SOURCE, data[pair.value.2..], depth, Some(p.0)));
      pairs := pairs + [p];
      result := result[pair.value.0 := pair.value.1];
      pos := pair.value.2;
      prev := Some(pair.value.0);
    }
  }

  lemma PrependOne(pairs: seq<(Bytes, Value)>, p: (Bytes, Value), rest: Result<(seq<(Bytes, Value)>, Bytes)>)
    ensures Prepend(pairs, Prepend([p], rest)) == Prepend(pairs + [p], rest)
    ensures MapOf(pairs + [p]) == MapOf(pairs)[p.0 := p.1]
  {
    if rest.Ok? { assert pairs + ([p] + rest.value.0) == pairs + [p] + rest.value.0; }
    assert (pairs + [p])[..|pairs|] == pairs;
  }

  /** One key and its value: the key a string that follows the one before it. */
  method DecodePairAt(data: Bytes, pos: nat, depth: nat, prev: Option<Bytes>) returns (r: Result<(Bytes, Value, nat)>)
    requires pos < |data| && data[pos] != 0x65
    ensures r.Err? ==> DecodePairs(SOURCE, data[pos..], depth, prev).Err?
    ensures r.Ok? ==> pos < r.value.2 <= |data|
    ensures r.Ok? ==> DecodePairs(SOURCE, data[pos..], depth, prev) ==
                      Prepend([(r.value.0, r.value.1)], DecodePairs(SOURCE, data[r.value.2..], depth, Some(r.value.0)))
    decreases |data| - pos, 1
  {
    if !(0x30 <= data[pos] <= 0x39) { return Err; }
    var key := DecodeStrAt(data, pos);
    if key.Err? { return Err; }
    if prev.Some? {
      if key.value.0 == prev.value { return Err; }
      if Less(key.value.0, prev.value) { return Err; }
    }
    var value := DecodeValueAt(data, key.value.1, depth + 1);
    if value.Err? { return Err; }
    return Ok((key.value.0, value.value.0, value.value.1));
  }

  method DecodeBytes(data: Bytes) returns (r: Result<Value>)
    ensures r == Decode(SOURCE, data)
  {
    assert data[0..] == data;
    var v := DecodeValueAt(data, 0, 0);
    if v.Err? || v.value.1 != |data| { return Err; }
    return Ok(v.value.0);
  }
}
