/** The indexed map of dude/ds/managed_map.py: a meta row with the count and an accumulator over the
    keys, a row per slot, and a row per key that points back to its slot. Removal moves the last
    key into the vacated slot. */
module ManagedMap {
  import opened Bytes
  import opened Codec
  import opened Ops
  import opened Views
  import opened Settle
  import opened RowTables
  import Epochs
  import Modular
  import Slice

  const SLOTS := 0x1_0000_0000

  datatype RowId = MetaRow | SlotRow(idx: nat) | EntryRow(key: Bytes)

  /** Accumulators are a cyclic group of `order` elements, in which `wrap` takes sums, written in 32
      bytes by `enc` and read by `dec`; `elem` is the element of a key; `meta` and `entry` are
      `MapMeta.encode` and `MapEntry.encode`. */
  datatype Map = Map(
    store: int, prefix: Bytes, order: int, wrap: int -> int, elem: Bytes -> int,
    meta: (int, int) -> Bytes, entry: (int, Bytes) -> Bytes,
    enc: int -> Bytes, dec: Bytes -> int)

  ghost predicate Sane(m: Map) {
    Cyclic(m) &&
    (forall a :: 0 <= a < m.order ==> |m.enc(a)| == 32 && m.dec(m.enc(a)) == a) &&
    (forall count, acc :: m.meta(count, acc) == Encode(List([Int(count), Str(m.enc(acc))]))) &&
    (forall idx, value :: m.entry(idx, value) == Encode(List([Int(idx), Str(value)])))
  }

  ghost predicate Cyclic(m: Map) { m.order >= 1 && forall a :: Reduced(m, a) }

  predicate Reduced(m: Map, a: int)
    requires m.order >= 1
  {
    m.wrap(a) == a % m.order
  }

  /** There are such maps, with as many accumulators as 32 bytes can tell apart. */
  lemma SaneExists(store: int, prefix: Bytes, elem: Bytes -> int) returns (m: Map)
    ensures Sane(m) && m.order == Epochs.Pow256(32) && m.store == store && m.prefix == prefix && m.elem == elem
  {
    var enc: int -> Bytes := a => if a >= 0 then BigEndian(a, 32) else [];
    var dec: Bytes -> int := b => FromBigEndian(b);
    Pow256Positive(32);
    m := Map(store, prefix, Epochs.Pow256(32), a => a % Epochs.Pow256(32), elem,
             (count, acc) => Encode(List([Int(count), Str(enc(acc))])),
             (idx, value) => Encode(List([Int(idx), Str(value)])),
             enc, dec);
    forall a | 0 <= a < m.order ensures |m.enc(a)| == 32 && m.dec(m.enc(a)) == a { Epochs.BigEndianRoundTrip(a, 32); }
  }

  lemma {:induction false} Pow256Positive(n: nat)
    ensures Epochs.Pow256(n) >= 1
  {
    if n > 0 { Pow256Positive(n - 1); }
  }

  // ---------------------------------------------------------------------- accumulators

  function Sum(elem: Bytes -> int, keys: seq<Bytes>): int {
    if keys == [] then 0 else Sum(elem, keys[..|keys| - 1]) + elem(keys[|keys| - 1])
  }

  /** The accumulator of a set of keys: the sum of their elements in the group. */
  function AccOf(m: Map, keys: seq<Bytes>): int { m.wrap(Sum(m.elem, keys)) }

  lemma WrapFirst(m: Map, a: int, b: int)
    requires Cyclic(m)
    ensures m.wrap(m.wrap(a) + b) == m.wrap(a + b) && m.wrap(m.wrap(a) - b) == m.wrap(a - b)
  {
    Modular.ReduceFirst(a, b, m.order);
    assert Reduced(m, a) && Reduced(m, a + b) && Reduced(m, a - b);
    assert Reduced(m, m.wrap(a) + b) && Reduced(m, m.wrap(a) - b);
  }

  // ---------------------------------------------------------------------------- names

  function Suffix(r: RowId): Bytes {
    match r
    case MetaRow => [0]
    case SlotRow(i) => [1] + BigEndian(i, 4)
    case EntryRow(k) => [2] + k
  }

  predicate RowOk(r: RowId) { r.SlotRow? ==> r.idx < SLOTS }

  predicate Owns(m: Map, name: Bytes) {
    |name| > |m.prefix| && name[..|m.prefix|] == m.prefix &&
    var s := name[|m.prefix|..];
    s == [0] || s[0] == 1 || s[0] == 2
  }

  function Rows(m: Map): Layout<RowId> {
    Layout(m.store, r => m.prefix + Suffix(r), r => RowOk(r), name => Owns(m, name))
  }

  lemma FourBytes()
    ensures Epochs.Pow256(4) == SLOTS
  {
    assert Epochs.Pow256(2) == 65536;
  }

  lemma SuffixInjective(r: RowId, s: RowId)
    requires RowOk(r) && RowOk(s) && Suffix(r) == Suffix(s)
    ensures r == s
  {
    var a, b := Suffix(r), Suffix(s);
    assert a[0] == b[0] && a[1..] == b[1..];
    if r.SlotRow? {
      FourBytes();
      assert a[1..] == BigEndian(r.idx, 4) && b[1..] == BigEndian(s.idx, 4);
      Epochs.BigEndianRoundTrip(r.idx, 4);
      Epochs.BigEndianRoundTrip(s.idx, 4);
    } else if r.EntryRow? {
      assert a[1..] == r.key && b[1..] == s.key;
    }
  }

  lemma RowsProper(m: Map)
    ensures Proper(Rows(m))
  {
    var l := Rows(m);
    forall r | l.ok(r) ensures l.mine(l.name(r)) { assert (m.prefix + Suffix(r))[|m.prefix|..] == Suffix(r); }
    forall r, s | l.ok(r) && l.ok(s) && l.name(r) == l.name(s) ensures r == s {
      assert l.name(r)[|m.prefix|..] == Suffix(r) && l.name(s)[|m.prefix|..] == Suffix(s);
      SuffixInjective(r, s);
    }
  }

  // --------------------------------------------------------------------------- values

  /** `MapMeta.decode`; `None` where it raises. */
  function ReadMeta(m: Map, raw: Bytes): Option<(int, int)> {
    match Decode(SOURCE, raw)
    case Ok(List(items)) =>
      if |items| == 2 && items[0].Int? && items[1].Str? &&
        |items[1].b| == 32 then Some((items[0].n, m.dec(items[1].b))) else None
    case _ => None
  }

  /** `MapEntry.decode`. */
  function ReadEntry(raw: Bytes): Option<(int, Bytes)> {
    match Decode(SOURCE, raw)
    case Ok(List(items)) => if |items| == 2 && items[0].Int? && items[1].Str? then Some((items[0].n, items[1].b))
      else None
    case _ => None
  }

  function Pow10(k: nat): nat { if k == 0 then 1 else 10 * Pow10(k - 1) }

  lemma {:induction false} DigitsBound(n: nat, k: nat)
    requires n < Pow10(k) && k > 0
    ensures |NatAscii(n)| <= k
  {
    if n >= 10 {
      assert n / 10 < Pow10(k - 1);
      DigitsBound(n / 10, k - 1);
    }
  }

  lemma SmallIsShort(n: nat)
    requires n <= SLOTS
    ensures Short(SOURCE, n)
  {
    assert Pow10(5) == 100000;
    assert Pow10(10) == 10 * (10 * (10 * (10 * (10 * Pow10(5)))));
    DigitsBound(n, 10);
  }

  lemma PairDecodes(n: nat, b: Bytes)
    requires n <= SLOTS && Short(SOURCE, |b|)
    ensures Decode(SOURCE, Encode(List([Int(n), Str(b)]))) == Ok(List([Int(n), Str(b)]))
  {
    SmallIsShort(n);
    var v := List([Int(n), Str(b)]);
    assert Admits(SOURCE, v.items[0], 1) && Admits(SOURCE, v.items[1], 1);
    assert Admits(SOURCE, v, 0);
    DecodeEncode(SOURCE, v);
  }

  lemma MetaReads(m: Map, count: nat, acc: int)
    requires Sane(m) && count <= SLOTS && 0 <= acc < m.order
    ensures ReadMeta(m, m.meta(count, acc)) == Some((count, acc))
  {
    SmallIsShort(32);
    PairDecodes(count, m.enc(acc));
  }

  lemma EntryReads(m: Map, idx: nat, value: Bytes)
    requires Sane(m) && idx <= SLOTS && Short(SOURCE, |value|)
    ensures ReadEntry(m.entry(idx, value)) == Some((idx, value))
  {
    PairDecodes(idx, value);
  }

  // ------------------------------------------------------------------- the invariant

  type Table = map<RowId, Bytes>

  /** The keys in slot order, where each key is, its value, and whether the meta row was ever
      written. */
  datatype Contents = Contents(keys: seq<Bytes>, index: map<Bytes, nat>, values: map<Bytes, Bytes>, created: bool)

  const NOTHING := Contents([], map[], map[], false)

  /** Slots and keys are a bijection. */
  predicate Bijection(keys: seq<Bytes>, index: map<Bytes, nat>) {
    (forall i :: 0 <= i < |keys| ==> keys[i] in index && index[keys[i]] == i) &&
    (forall k :: k in index ==> index[k] < |keys| && keys[index[k]] == k)
  }

  ghost predicate WellFormed(c: Contents) {
    Bijection(c.keys, c.index) && |c.keys| <= SLOTS && (!c.created ==> c.keys == []) && c.values.Keys == c.index.Keys &&
    (forall k :: k in c.values ==> Short(SOURCE, |c.values[k]|))
  }

  function Expected(m: Map, c: Contents, r: RowId): Option<Bytes> {
    match r
    case MetaRow => if c.created then Some(m.meta(|c.keys|, AccOf(m, c.keys))) else None
    case SlotRow(i) => if i < |c.keys| then Some(c.keys[i]) else None
    case EntryRow(k) => if k in c.values && k in c.index then Some(m.entry(c.index[k], c.values[k])) else None
  }

  /** Slots 0..count-1 and entries are a bijection, each entry pointing back to its slot; the meta
      row has the count and the sum over the keys; there is no other row. */
  ghost predicate Represents(m: Map, t: Table, c: Contents) { WellFormed(c) && Tabled(m, t, c) }

  ghost predicate Tabled(m: Map, t: Table, c: Contents) { forall r :: RowAs(t, r, Expected(m, c, r)) }

  function Added(c: Contents, key: Bytes, value: Bytes): Contents {
    Contents(c.keys + [key], c.index[key := |c.keys|], c.values[key := value], true)
  }

  /** The last key takes the slot of the one removed. */
  function Removed(c: Contents, key: Bytes): Contents
    requires key in c.index && c.index[key] < |c.keys|
  {
    var n, at := |c.keys| - 1, c.index[key];
    var last := c.keys[n];
    Contents(c.keys[at := last][..n], c.index[last := at] - {key}, c.values - {key}, true)
  }

  function Updated(c: Contents, key: Bytes, value: Bytes): Contents { c.(values := c.values[key := value]) }

  // ------------------------------------------------------------------------ composing

  /** A point read of the view the transaction is composed on. */
  function Read(m: Map, live: Live, r: RowId): Option<Bytes> {
    var k := KeyOf(Rows(m), r);
    if k in live then Some(live[k].value) else None
  }

  function MetaGuard(raw: Option<Bytes>): Guard { if raw.Some? then Holding(raw.value) else Missing }

  /** The meta row read and decoded, or an empty map's; `None` where decoding raises. */
  function CurrentMeta(m: Map, raw: Option<Bytes>): Option<(int, int)> {
    if raw.Some? then ReadMeta(m, raw.value) else Some((0, 0))
  }

  function AddSteps(m: Map, raw: Option<Bytes>, count: nat, acc: int, key: Bytes, value: Bytes): seq<RowStep<RowId>> {
    [Put(MetaRow, MetaGuard(raw), m.meta(count + 1, m.wrap(acc + m.elem(key)))),
     Put(SlotRow(count), NoGuard, key),
     Put(EntryRow(key), Missing, m.entry(count, value))]
  }

  function RemoveSteps(m: Map, raw: Bytes, count: int, acc: int, key: Bytes, at: nat, lastKey: Bytes,
      lastValue: Bytes): seq<RowStep<RowId>>
    requires count >= 1
  {
    [Put(MetaRow, Holding(raw), m.meta(count - 1, m.wrap(acc - m.elem(key)))),
     Delete(EntryRow(key), NoGuard),
     Delete(SlotRow(count - 1), NoGuard)] +
    (if at == count - 1 then [] else [Put(SlotRow(at), NoGuard, lastKey),
      Put(EntryRow(lastKey), NoGuard, m.entry(at, lastValue))])
  }

  function UpdateSteps(m: Map, key: Bytes, raw: Bytes, at: int, value: Bytes): seq<RowStep<RowId>> {
    [Put(EntryRow(key), Holding(raw), m.entry(at, value))]
  }

  function Entry(m: Map, live: Live, key: Bytes): Option<(int, Bytes)> {
    match Read(m, live, EntryRow(key))
    case None => None
    case Some(raw) => ReadEntry(raw)
  }

  datatype Op = Add(key: Bytes, value: Bytes) | Remove(key: Bytes) | Update(key: Bytes, value: Bytes)
    | BatchAdd(entries: seq<(Bytes, Bytes)>)

  predicate SlotFits(i: int) { 0 <= i < SLOTS }

  function EntrySteps(m: Map, entries: seq<(Bytes, Bytes)>, count: int): seq<RowStep<RowId>>
    requires entries == [] || count >= 0
  {
    if entries == [] then [] else
      [Put(SlotRow(count), NoGuard, entries[0].0), Put(EntryRow(entries[0].0), Missing, m.entry(count, entries[0].1))] +
      EntrySteps(m, entries[1..], count + 1)
  }

  /** The accumulator after each entry's key has been added in turn. */
  function AccAfter(m: Map, acc: int, entries: seq<(Bytes, Bytes)>): int
    decreases |entries|
  {
    if entries == [] then acc else AccAfter(m, m.wrap(acc + m.elem(entries[0].0)), entries[1..])
  }

  function BatchSteps(m: Map, raw: Option<Bytes>, count: int, acc: int,
      entries: seq<(Bytes, Bytes)>): seq<RowStep<RowId>>
    requires entries == [] || count >= 0
  {
    EntrySteps(m, entries, count) + [Put(MetaRow, MetaGuard(raw), m.meta(count + |entries|, AccAfter(m, acc, entries)))]
  }

  /** The second half of `remove`: the last slot and the entry of the key in it. */
  function RemoveFrom(m: Map, live: Live, raw: Bytes, count: nat, acc: int, key: Bytes,
      at: nat): Option<seq<RowStep<RowId>>>
    requires count >= 1
  {
    match Read(m, live, SlotRow(count - 1))
    case None => None
    case Some(lastKey) =>
      match Entry(m, live, lastKey)
      case None => None
      case Some((_, lastValue)) => Some(RemoveSteps(m, raw, count, acc, key, at, lastKey, lastValue))
  }

  /** Every entry gets a slot number of four bytes. */
  predicate BatchFits(count: int, entries: seq<(Bytes, Bytes)>) {
    entries == [] || (count >= 0 && count + |entries| <= SLOTS)
  }

  /** What the map composes from the view `live`; `None` where it raises. */
  function Compose(m: Map, live: Live, op: Op): Option<seq<RowStep<RowId>>> {
    var raw := Read(m, live, MetaRow);
    match op
    case Add(key, value) =>
      (match CurrentMeta(m, raw)
       case None => None
       case Some((count, acc)) => if SlotFits(count) then Some(AddSteps(m, raw, count, acc, key, value)) else None)
    case Remove(key) =>
      (match (raw, CurrentMeta(m, raw), Entry(m, live, key))
       case (Some(meta), Some((count, acc)), Some((at, _))) =>
         if SlotFits(count - 1) && SlotFits(at) then RemoveFrom(m, live, meta, count, acc, key, at) else None
       case _ => None)
    case Update(key, value) =>
      (match (Read(m, live, EntryRow(key)), Entry(m, live, key))
       case (Some(entry), Some((at, _))) => Some(UpdateSteps(m, key, entry, at, value))
       case _ => None)
    case BatchAdd(entries) =>
      (match CurrentMeta(m, raw)
       case None => None
       case Some((count, acc)) =>
         if BatchFits(count, entries) then Some(BatchSteps(m, raw, count, acc, entries)) else None)
  }

  /** `batch_add`, entry by entry. */
  method ComposeBatch(m: Map, live: Live, entries: seq<(Bytes, Bytes)>) returns (r: Option<seq<RowStep<RowId>>>)
    ensures r == Compose(m, live, BatchAdd(entries))
  {
    var raw := Read(m, live, MetaRow);
    var meta := CurrentMeta(m, raw);
    if meta.None? { return None; }
    var (count0, acc0) := meta.value;
    if !BatchFits(count0, entries) { return None; }
    var steps, acc := ComposeEntries(m, entries, count0, acc0);
    r := Some(steps + [Put(MetaRow, MetaGuard(raw), m.meta(count0 + |entries|, acc))]);
  }

  method ComposeEntries(m: Map, entries: seq<(Bytes, Bytes)>, count0: int, acc0: int)
      returns (steps: seq<RowStep<RowId>>, acc: int)
    requires BatchFits(count0, entries)
    ensures steps == EntrySteps(m, entries, count0) && acc == AccAfter(m, acc0, entries)
  {
    steps, acc := [], acc0;
    BatchStarts(m, entries, count0, acc0);
    for i := 0 to |entries|
      invariant BatchGoes(m, entries, i, count0, acc0, steps, acc)
    {
      var (key, value) := entries[i];
      BatchNext(m, entries, i, count0, acc0, steps, acc);
      steps := steps + [Put(SlotRow(count0 + i), NoGuard, key),
        Put(EntryRow(key), Missing, m.entry(count0 + i, value))];
      acc := m.wrap(acc + m.elem(key));
    }
    BatchEnds(m, entries, count0, acc0, steps, acc);
  }

  /** The first `i` entries are in `steps` and `acc`; the rest completes both. */
  ghost predicate BatchGoes(m: Map, entries: seq<(Bytes, Bytes)>, i: nat, count0: int, acc0: int,
      steps: seq<RowStep<RowId>>, acc: int)
    requires BatchFits(count0, entries)
  {
    i <= |entries| && AccAfter(m, acc, entries[i..]) == AccAfter(m, acc0, entries) &&
    steps + EntrySteps(m, entries[i..], count0 + i) == EntrySteps(m, entries, count0)
  }

  lemma BatchStarts(m: Map, entries: seq<(Bytes, Bytes)>, count0: int, acc0: int)
    requires BatchFits(count0, entries)
    ensures BatchGoes(m, entries, 0, count0, acc0, [], acc0)
  {
    assert entries[0..] == entries;
  }

  lemma BatchNext(m: Map, entries: seq<(Bytes, Bytes)>, i: nat, count0: int, acc0: int, steps: seq<RowStep<RowId>>,
      acc: int)
    requires BatchFits(count0, entries) && i < |entries| && BatchGoes(m, entries, i, count0, acc0, steps, acc)
    ensures var (key, value) := entries[i];
            var two := [Put(SlotRow(count0 + i), NoGuard, key),
              Put(EntryRow(key), Missing, m.entry(count0 + i, value))];
            BatchGoes(m, entries, i + 1, count0, acc0, steps + two, m.wrap(acc + m.elem(key)))
  {
    var rest := entries[i..];
    assert rest[0] == entries[i] && rest[1..] == entries[i + 1..];
  }

  lemma BatchEnds(m: Map, entries: seq<(Bytes, Bytes)>, count0: int, acc0: int, steps: seq<RowStep<RowId>>, acc: int)
    requires BatchFits(count0, entries) && BatchGoes(m, entries, |entries|, count0, acc0, steps, acc)
    ensures steps == EntrySteps(m, entries, count0) && acc == AccAfter(m, acc0, entries)
  {
    assert entries[|entries|..] == [] && steps + [] == steps;
  }

  // ------------------------------------------------------------------- keeping it

  lemma {:induction false} SumReplace(elem: Bytes -> int, keys: seq<Bytes>, i: nat, x: Bytes)
    requires i < |keys|
    ensures Sum(elem, keys[i := x]) == Sum(elem, keys) - elem(keys[i]) + elem(x)
  {
    var n := |keys| - 1;
    if i == n {
      assert keys[i := x][..n] == keys[..n];
    } else {
      SumReplace(elem, keys[..n], i, x);
      assert keys[i := x][..n] == keys[..n][i := x];
    }
  }

  lemma AddedIs(c: Contents, key: Bytes, value: Bytes)
    requires WellFormed(c) && key !in c.index && |c.keys| < SLOTS && Short(SOURCE, |value|)
    ensures WellFormed(Added(c, key, value))
  {
  }

  lemma AddedAcc(m: Map, keys: seq<Bytes>, key: Bytes)
    requires Cyclic(m)
    ensures AccOf(m, keys + [key]) == m.wrap(AccOf(m, keys) + m.elem(key))
  {
    assert (keys + [key])[..|keys|] == keys;
    WrapFirst(m, Sum(m.elem, keys), m.elem(key));
  }

  lemma RemovedIs(c: Contents, key: Bytes)
    requires WellFormed(c) && key in c.index
    ensures WellFormed(Removed(c, key))
  {
    SwapKeepsBijection(c.keys, c.index, key);
  }

  lemma RemovedAcc(m: Map, keys: seq<Bytes>, at: nat)
    requires Cyclic(m) && at < |keys|
    ensures AccOf(m, keys[at := keys[|keys| - 1]][..|keys| - 1]) == m.wrap(AccOf(m, keys) - m.elem(keys[at]))
  {
    SwapSum(m.elem, keys, at);
    WrapFirst(m, Sum(m.elem, keys), m.elem(keys[at]));
  }

  lemma SwapSum(elem: Bytes -> int, keys: seq<Bytes>, at: nat)
    requires at < |keys|
    ensures Sum(elem, keys[at := keys[|keys| - 1]][..|keys| - 1]) == Sum(elem, keys) - elem(keys[at])
  {
    var n := |keys| - 1;
    SumReplace(elem, keys, at, keys[n]);
    assert keys[at := keys[n]][n] == keys[n];
  }

  lemma SwapKeepsBijection(keys: seq<Bytes>, index: map<Bytes, nat>, key: Bytes)
    requires Bijection(keys, index) && key in index
    ensures var n, at := |keys| - 1, index[key];
            Bijection(keys[at := keys[n]][..n], index[keys[n] := at] - {key})
  {
    var n, at := |keys| - 1, index[key];
    var keys2, index2 := keys[at := keys[n]][..n], index[keys[n] := at] - {key};
    forall i | 0 <= i < n ensures keys2[i] in index2 && index2[keys2[i]] == i {
      assert keys2[i] == if i == at then keys[n] else keys[i];
      assert index[keys[n]] == n && index[keys[i]] == i;
    }
    forall k | k in index2 ensures index2[k] < n && keys2[index2[k]] == k {
      assert k != key && k in index;
      assert index[keys[n]] == n;
    }
  }

  lemma AddKeeps(m: Map, t: Table, c: Contents, raw: Option<Bytes>, key: Bytes, value: Bytes, u: Table)
    requires Cyclic(m) && Represents(m, t, c) && |c.keys| < SLOTS && Short(SOURCE, |value|)
    requires RunRows(t, AddSteps(m, raw, |c.keys|, AccOf(m, c.keys), key, value)) == Some(u)
    ensures key !in c.index && Represents(m, u, Added(c, key, value))
  {
    var n, acc := |c.keys|, m.wrap(AccOf(m, c.keys) + m.elem(key));
    var meta, entry := m.meta(n + 1, acc), m.entry(n, value);
    AddedTable(t, raw, meta, n, key, entry, u);
    assert RowAs(t, EntryRow(key), Expected(m, c, EntryRow(key)));
    AddedIs(c, key, value);
    AddedAcc(m, c.keys, key);
    AddedRows(m, t, c, key, value, acc, meta, entry, u);
  }

  lemma AddedTable(t: Table, raw: Option<Bytes>, meta: Bytes, n: nat, key: Bytes, entry: Bytes, u: Table)
    requires RunRows(t, [Put(MetaRow, MetaGuard(raw), meta), Put(SlotRow(n), NoGuard, key),
             Put(EntryRow(key), Missing, entry)]) == Some(u)
    ensures EntryRow(key) !in t && u == t[MetaRow := meta][SlotRow(n) := key][EntryRow(key) := entry]
  {
    RunThree(t, Put(MetaRow, MetaGuard(raw), meta), Put(SlotRow(n), NoGuard, key), Put(EntryRow(key), Missing, entry));
  }

  lemma AddedRows(m: Map, t: Table, c: Contents, key: Bytes, value: Bytes, acc: int, meta: Bytes, entry: Bytes,
      u: Table)
    requires Tabled(m, t, c) && acc == AccOf(m, c.keys + [key])
    requires meta == m.meta(|c.keys| + 1, acc) && entry == m.entry(|c.keys|, value)
    requires u == t[MetaRow := meta][SlotRow(|c.keys|) := key][EntryRow(key) := entry]
    ensures Tabled(m, u, Added(c, key, value))
  {
    var next := Added(c, key, value);
    forall r ensures RowAs(u, r, Expected(m, next, r)) { assert RowAs(t, r, Expected(m, c, r)); }
  }

  /** Removing through the swap keeps the bijection, whichever slot is vacated. */
  lemma RemoveKeeps(m: Map, t: Table, c: Contents, key: Bytes, u: Table)
    requires Cyclic(m) && Represents(m, t, c) && key in c.index && MetaRow in t
    requires var last := c.keys[|c.keys| - 1];
             last in c.values &&
             RunRows(t, RemoveSteps(m, t[MetaRow], |c.keys|, AccOf(m, c.keys), key, c.index[key], last,
               c.values[last])) == Some(u)
    ensures Represents(m, u, Removed(c, key))
  {
    var n, at, last := |c.keys| - 1, c.index[key], c.keys[|c.keys| - 1];
    var acc := m.wrap(AccOf(m, c.keys) - m.elem(key));
    var meta, entry := m.meta(n, acc), m.entry(at, c.values[last]);
    RemovedTable(t, n, key, at, last, entry, meta, u);
    RemovedOver(m, t, c, key, acc, meta, entry, u);
  }

  lemma RemovedOver(m: Map, t: Table, c: Contents, key: Bytes, acc: int, meta: Bytes, entry: Bytes, u: Table)
    requires Cyclic(m) && Represents(m, t, c) && key in c.index && c.keys[|c.keys| - 1] in c.values
    requires acc == m.wrap(AccOf(m, c.keys) - m.elem(key))
    requires meta == m.meta(|c.keys| - 1, acc) && entry == m.entry(c.index[key], c.values[c.keys[|c.keys| - 1]])
    requires IsRemoved(t, |c.keys| - 1, key, c.index[key], c.keys[|c.keys| - 1], entry, meta, u)
    ensures Represents(m, u, Removed(c, key))
  {
    var n, at := |c.keys| - 1, c.index[key];
    RemovedIs(c, key);
    assert c.index[c.keys[n]] == n && c.keys[at] == key;
    RemovedAcc(m, c.keys, at);
    RemovedRows(m, t, c, key, n, at, c.keys[n], acc, meta, entry, u);
  }

  /** The table a removal leaves. */
  ghost predicate IsRemoved(t: Table, n: nat, key: Bytes, at: nat, last: Bytes, entry: Bytes, meta: Bytes, u: Table) {
    var bare := (t[MetaRow := meta] - {EntryRow(key)}) - {SlotRow(n)};
    u == if at == n then bare else bare[SlotRow(at) := last][EntryRow(last) := entry]
  }

  lemma RemovedRows(m: Map, t: Table, c: Contents, key: Bytes, n: nat, at: nat, last: Bytes, acc: int, meta: Bytes,
      entry: Bytes, u: Table)
    requires Tabled(m, t, c) && key in c.index && c.index[key] == at < |c.keys| == n + 1 && last == c.keys[n]
    requires last in c.values && last in c.index && (at == n <==> last == key) && acc == AccOf(m, Removed(c, key).keys)
    requires meta == m.meta(n, acc) && entry == m.entry(at, c.values[last])
    requires IsRemoved(t, n, key, at, last, entry, meta, u)
    ensures Tabled(m, u, Removed(c, key))
  {
    var next := Removed(c, key);
    forall r ensures RowAs(u, r, Expected(m, next, r)) { assert RowAs(t, r, Expected(m, c, r)); }
  }

  lemma RemovedTable(t: Table, n: nat, key: Bytes, at: nat, last: Bytes, entry: Bytes, meta: Bytes, u: Table)
    requires MetaRow in t
    requires RunRows(t, [Put(MetaRow, Holding(t[MetaRow]), meta), Delete(EntryRow(key), NoGuard),
             Delete(SlotRow(n), NoGuard)] +
                        (if at == n then [] else [Put(SlotRow(at), NoGuard, last),
                          Put(EntryRow(last), NoGuard, entry)])) == Some(u)
    ensures IsRemoved(t, n, key, at, last, entry, meta, u)
  {
    var a, b, d := Put(MetaRow, Holding(t[MetaRow]), meta), Delete(EntryRow(key), NoGuard), Delete(SlotRow(n), NoGuard);
    var first: seq<RowStep<RowId>>, swap := [a, b, d],
      [Put(SlotRow(at), NoGuard, last), Put(EntryRow(last), NoGuard, entry)];
    RunAppend(t, first, if at == n then [] else swap);
    RunThree(t, a, b, d);
    if at != n { RunTwo(RunRows(t, first).value, swap[0], swap[1]); }
  }

  lemma UpdateKeeps(m: Map, t: Table, c: Contents, key: Bytes, raw: Bytes, value: Bytes, u: Table)
    requires Represents(m, t, c) && key in c.index && Short(SOURCE, |value|)
    requires RunRows(t, UpdateSteps(m, key, raw, c.index[key], value)) == Some(u)
    ensures Represents(m, u, Updated(c, key, value))
  {
    var next := Updated(c, key, value);
    RunOne(t, Put(EntryRow(key), Holding(raw), m.entry(c.index[key], value)));
    forall r ensures RowAs(u, r, Expected(m, next, r)) { assert RowAs(t, r, Expected(m, c, r)); }
  }

  function Extended(c: Contents, entries: seq<(Bytes, Bytes)>): Contents
    decreases |entries|
  {
    if entries == [] then c else Extended(Added(c, entries[0].0, entries[0].1), entries[1..])
  }

  predicate AllShort(entries: seq<(Bytes, Bytes)>) { forall i :: 0 <= i < |entries| ==> Short(SOURCE, |entries[i].1|) }

  /** Every row but the meta row, which a batch writes last, is as it should be. */
  ghost predicate Indexed(m: Map, t: Table, c: Contents) { WellFormed(c) && NearlyTabled(m, t, c) }

  ghost predicate NearlyTabled(m: Map, t: Table, c: Contents) {
    forall r :: r != MetaRow ==> RowAs(t, r, Expected(m, c, r))
  }

  lemma EntryKeeps(m: Map, t: Table, c: Contents, key: Bytes, value: Bytes, u: Table)
    requires Indexed(m, t, c) && |c.keys| < SLOTS && Short(SOURCE, |value|) && EntryRow(key) !in t
    requires u == t[SlotRow(|c.keys|) := key][EntryRow(key) := m.entry(|c.keys|, value)]
    ensures key !in c.index && Indexed(m, u, Added(c, key, value))
  {
    assert RowAs(t, EntryRow(key), Expected(m, c, EntryRow(key)));
    AddedIs(c, key, value);
    EntryRows(m, t, c, key, value, u);
  }

  lemma EntryRows(m: Map, t: Table, c: Contents, key: Bytes, value: Bytes, u: Table)
    requires NearlyTabled(m, t, c) && u == t[SlotRow(|c.keys|) := key][EntryRow(key) := m.entry(|c.keys|, value)]
    ensures NearlyTabled(m, u, Added(c, key, value))
  {
    var next := Added(c, key, value);
    forall r | r != MetaRow ensures RowAs(u, r, Expected(m, next, r)) { assert RowAs(t, r, Expected(m, c, r)); }
  }

  lemma {:induction false} EntriesKeep(m: Map, t: Table, c: Contents, entries: seq<(Bytes, Bytes)>, u: Table)
    requires Indexed(m, t, c) && |c.keys| + |entries| <= SLOTS && AllShort(entries)
    requires RunRows(t, EntrySteps(m, entries, |c.keys|)) == Some(u)
    ensures Indexed(m, u, Extended(c, entries)) && |Extended(c, entries).keys| == |c.keys| + |entries|
    decreases |entries|
  {
    if entries != [] {
      var (key, value) := entries[0];
      var n, next := |c.keys|, Added(c, key, value);
      var two := [Put(SlotRow(n), NoGuard, key), Put(EntryRow(key), Missing, m.entry(n, value))];
      RunAppend(t, two, EntrySteps(m, entries[1..], n + 1));
      RunTwo(t, two[0], two[1]);
      var mid := RunRows(t, two).value;
      EntryKeeps(m, t, c, key, value, mid);
      EntriesKeep(m, mid, next, entries[1..], u);
    }
  }

  lemma {:induction false} EntriesAcc(m: Map, c: Contents, entries: seq<(Bytes, Bytes)>)
    requires Cyclic(m)
    ensures AccOf(m, Extended(c, entries).keys) == AccAfter(m, AccOf(m, c.keys), entries)
    decreases |entries|
  {
    if entries != [] {
      var (key, value) := entries[0];
      AddedAcc(m, c.keys, key);
      EntriesAcc(m, Added(c, key, value), entries[1..]);
    }
  }

  lemma BatchKeeps(m: Map, t: Table, c: Contents, raw: Option<Bytes>, entries: seq<(Bytes, Bytes)>, u: Table)
    requires Cyclic(m) && Represents(m, t, c) && |c.keys| + |entries| <= SLOTS && AllShort(entries)
    requires RunRows(t, BatchSteps(m, raw, |c.keys|, AccOf(m, c.keys), entries)) == Some(u)
    ensures Represents(m, u, Extended(c, entries).(created := true))
  {
    var meta := m.meta(|c.keys| + |entries|, AccAfter(m, AccOf(m, c.keys), entries));
    var mid := BatchTable(t, EntrySteps(m, entries, |c.keys|), raw, meta, u);
    BatchOver(m, t, c, entries, mid, meta, u);
  }

  lemma BatchOver(m: Map, t: Table, c: Contents, entries: seq<(Bytes, Bytes)>, mid: Table, meta: Bytes, u: Table)
    requires Cyclic(m) && Represents(m, t, c) && |c.keys| + |entries| <= SLOTS && AllShort(entries)
    requires RunRows(t, EntrySteps(m, entries, |c.keys|)) == Some(mid) && u == mid[MetaRow := meta]
    requires meta == m.meta(|c.keys| + |entries|, AccAfter(m, AccOf(m, c.keys), entries))
    ensures Represents(m, u, Extended(c, entries).(created := true))
  {
    IndexedToo(m, t, c);
    EntriesKeep(m, t, c, entries, mid);
    EntriesAcc(m, c, entries);
    MetaLast(m, mid, Extended(c, entries), meta, u);
  }

  lemma IndexedToo(m: Map, t: Table, c: Contents)
    requires Represents(m, t, c)
    ensures Indexed(m, t, c)
  {
  }

  lemma BatchTable(t: Table, ss: seq<RowStep<RowId>>, raw: Option<Bytes>, meta: Bytes, u: Table) returns (mid: Table)
    requires RunRows(t, ss + [Put(MetaRow, MetaGuard(raw), meta)]) == Some(u)
    ensures RunRows(t, ss) == Some(mid) && u == mid[MetaRow := meta]
  {
    var last: RowStep<RowId> := Put(MetaRow, MetaGuard(raw), meta);
    RunAppend(t, ss, [last]);
    mid := RunRows(t, ss).value;
    RunOne(mid, last);
  }

  lemma MetaLast(m: Map, t: Table, c: Contents, meta: Bytes, u: Table)
    requires Indexed(m, t, c) && meta == m.meta(|c.keys|, AccOf(m, c.keys)) && u == t[MetaRow := meta]
    ensures Represents(m, u, c.(created := true))
  {
    var next := c.(created := true);
    forall r ensures RowAs(u, r, Expected(m, next, r)) {
      if r != MetaRow { assert RowAs(t, r, Expected(m, c, r)); }
    }
  }

  // ------------------------------------------------------------- settled transactions

  /** The live rows hold a map with these contents. */
  ghost predicate Holds(m: Map, live: Live, c: Contents) {
    exists t :: Shows(Rows(m), live, t) && Represents(m, t, c)
  }

  lemma ReadIs(m: Map, live: Live, t: Table, c: Contents, r: RowId)
    requires Shows(Rows(m), live, t) && Represents(m, t, c) && RowOk(r)
    ensures Read(m, live, r) == Expected(m, c, r)
  {
    assert Rows(m).ok(r);
    assert RowShown(Rows(m), live, t, r);
    assert RowAs(t, r, Expected(m, c, r));
  }

  /** What is read when composing: the meta row, and the entry and slot of any key. */
  lemma ReadsAre(m: Map, live: Live, t: Table, c: Contents, key: Bytes)
    requires Sane(m) && Shows(Rows(m), live, t) && Represents(m, t, c)
    ensures var raw := Read(m, live, MetaRow);
            CurrentMeta(m, raw) == Some((|c.keys|, AccOf(m, c.keys))) && (raw.Some? <==> c.created) &&
            (c.created ==> MetaRow in t && raw.value == t[MetaRow])
    ensures Entry(m, live, key) == if key in c.index then Some((c.index[key], c.values[key])) else None
    ensures Read(m, live, EntryRow(key)).Some? <==> key in c.index
  {
    ReadIs(m, live, t, c, MetaRow);
    assert RowAs(t, MetaRow, Expected(m, c, MetaRow));
    assert Reduced(m, Sum(m.elem, c.keys));
    if c.created { MetaReads(m, |c.keys|, AccOf(m, c.keys)); }
    ReadIs(m, live, t, c, EntryRow(key));
    if key in c.index { EntryReads(m, c.index[key], c.values[key]); }
  }

  predicate OpOk(op: Op) {
    match op
    case Add(_, value) => Short(SOURCE, |value|)
    case Remove(_) => true
    case Update(_, value) => Short(SOURCE, |value|)
    case BatchAdd(entries) => AllShort(entries)
  }

  /** What a settled transaction makes of the contents. */
  function Effect(c: Contents, op: Op): Contents {
    match op
    case Add(key, value) => Added(c, key, value)
    case Remove(key) => if key in c.index && c.index[key] < |c.keys| then Removed(c, key) else c
    case Update(key, value) => Updated(c, key, value)
    case BatchAdd(entries) => Extended(c, entries).(created := true)
  }

  /** Composed on a table and run on it, every operation takes the contents to what they should
      become; one on a key that is not there cannot be composed. */
  lemma ComposedKeeps(m: Map, live: Live, t: Table, c: Contents, op: Op, ss: seq<RowStep<RowId>>, u: Table)
    requires Sane(m) && Shows(Rows(m), live, t) && Represents(m, t, c) && OpOk(op)
    requires Compose(m, live, op) == Some(ss) && RunRows(t, ss) == Some(u)
    ensures (op.Remove? || op.Update? ==> op.key in c.index) && (op.Add? ==> op.key !in c.index)
    ensures Represents(m, u, Effect(c, op))
  {
    var raw := Read(m, live, MetaRow);
    match op
    case Add(key, value) =>
      ReadsAre(m, live, t, c, key);
      AddKeeps(m, t, c, raw, key, value, u);
    case Remove(key) => RemoveComposed(m, live, t, c, key, ss, u);
    case Update(key, value) =>
      ReadsAre(m, live, t, c, key);
      UpdateKeeps(m, t, c, key, Read(m, live, EntryRow(key)).value, value, u);
    case BatchAdd(entries) =>
      ReadsAre(m, live, t, c, []);
      BatchKeeps(m, t, c, raw, entries, u);
  }

  lemma RemoveComposed(m: Map, live: Live, t: Table, c: Contents, key: Bytes, ss: seq<RowStep<RowId>>, u: Table)
    requires Sane(m) && Shows(Rows(m), live, t) && Represents(m, t, c)
    requires Compose(m, live, Remove(key)) == Some(ss) && RunRows(t, ss) == Some(u)
    ensures key in c.index && Represents(m, u, Removed(c, key))
  {
    RemoveReads(m, live, t, c, key);
    RemoveKeeps(m, t, c, key, u);
  }

  lemma LastReads(m: Map, live: Live, t: Table, c: Contents, key: Bytes, raw: Bytes, at: nat)
    requires Sane(m) && Shows(Rows(m), live, t) && Represents(m, t, c) && c.keys != []
    ensures var count, acc, last := |c.keys|, AccOf(m, c.keys), c.keys[|c.keys| - 1];
            last in c.values && RemoveFrom(m, live, raw, count, acc, key, at) ==
              Some(RemoveSteps(m, raw, count, acc, key, at, last, c.values[last]))
  {
    var n := |c.keys| - 1;
    ReadIs(m, live, t, c, SlotRow(n));
    ReadsAre(m, live, t, c, c.keys[n]);
    assert c.keys[n] in c.index;
  }

  /** A removal is composed exactly for a key of the map, from its slot and the last key's. */
  lemma RemoveReads(m: Map, live: Live, t: Table, c: Contents, key: Bytes)
    requires Sane(m) && Shows(Rows(m), live, t) && Represents(m, t, c)
    ensures if key !in c.index then Compose(m, live, Remove(key)) == None
            else var last := c.keys[|c.keys| - 1];
                 MetaRow in t && last in c.values &&
                 Compose(m, live, Remove(key)) ==
                 Some(RemoveSteps(m, t[MetaRow], |c.keys|, AccOf(m, c.keys), key, c.index[key], last, c.values[last]))
  {
    ReadsAre(m, live, t, c, key);
    if key in c.index {
      LastReads(m, live, t, c, key, t[MetaRow], c.index[key]);
    }
  }

  lemma ComposeRowsOk(m: Map, live: Live, op: Op, ss: seq<RowStep<RowId>>)
    requires Compose(m, live, op) == Some(ss)
    ensures RowsOk(Rows(m), ss)
  {
    var raw := Read(m, live, MetaRow);
    match op
    case Add(_, _) =>
    case Update(_, _) =>
    case Remove(key) =>
      var (count, acc) := CurrentMeta(m, raw).value;
      RemoveStepsOk(m, live, raw.value, count, acc, key, Entry(m, live, key).value.0, ss);
    case BatchAdd(entries) =>
      EntryStepsOk(m, entries, CurrentMeta(m, raw).value.0);
  }

  lemma RemoveStepsOk(m: Map, live: Live, raw: Bytes, count: nat, acc: int, key: Bytes, at: nat,
      ss: seq<RowStep<RowId>>)
    requires count >= 1 && SlotFits(count - 1) && SlotFits(at) &&
             RemoveFrom(m, live, raw, count, acc, key, at) == Some(ss)
    ensures RowsOk(Rows(m), ss)
  {
  }

  lemma {:induction false} EntryStepsOk(m: Map, entries: seq<(Bytes, Bytes)>, count: int)
    requires BatchFits(count, entries)
    ensures RowsOk(Rows(m), EntrySteps(m, entries, count))
  {
    if entries != [] { EntryStepsOk(m, entries[1..], count + 1); }
  }

  /** A transaction composed on the state it is applied to keeps the map; if it does not settle,
      the map is as it was. */
  lemma OpKeeps(env: Env, m: Map, live: Live, c: Contents, op: Op, ss: seq<RowStep<RowId>>, tx: Signed)
    requires Slice.Injective(env.h) && Sane(m) && Holds(m, live, c) && (Evaluate(env, live, tx).Pass? ==> OpOk(op))
    requires Compose(m, live, op) == Some(ss) && tx.steps == StepsOf(env.h, Rows(m), ss)
    ensures Holds(m, After(env, live, tx), if Evaluate(env, live, tx).Pass? then Effect(c, op) else c)
  {
    var t :| Shows(Rows(m), live, t) && Represents(m, t, c);
    RowsProper(m);
    ComposeRowsOk(m, live, op, ss);
    SettlesAsRun(env, Rows(m), live, t, tx, ss);
    if Evaluate(env, live, tx).Pass? { ComposedKeeps(m, live, t, c, op, ss, RunRows(t, ss).value); }
  }

  datatype Event = Mine(op: Op, tx: Signed) | Foreign(tx: Signed)

  ghost predicate EventOk(env: Env, m: Map, live: Live, e: Event) {
    match e
    case Mine(op, tx) =>
      (Evaluate(env, live, tx).Pass? ==> OpOk(op)) &&
      exists ss :: Compose(m, live, op) == Some(ss) && tx.steps == StepsOf(env.h, Rows(m), ss)
    case Foreign(tx) => TouchesNone(Rows(m), tx)
  }

  function ContentsOf(env: Env, live: Live, c: Contents, e: Event): Contents {
    if e.Mine? && Evaluate(env, live, e.tx).Pass? then Effect(c, e.op) else c
  }

  ghost predicate RunOk(env: Env, m: Map, live: Live, run: seq<Event>)
    decreases |run|
  {
    run == [] || (EventOk(env, m, live, run[0]) && RunOk(env, m, After(env, live, run[0].tx), run[1..]))
  }

  function LiveAfter(env: Env, live: Live, run: seq<Event>): Live
    decreases |run|
  {
    if run == [] then live else LiveAfter(env, After(env, live, run[0].tx), run[1..])
  }

  function ContentsAfter(env: Env, live: Live, c: Contents, run: seq<Event>): Contents
    decreases |run|
  {
    if run == [] then c else ContentsAfter(env, After(env, live, run[0].tx), ContentsOf(env, live, c, run[0]), run[1..])
  }

  /** Over every run of operations, each composed on the state it is applied to, among transactions
      that touch none of its rows, the rows hold exactly the contents the settled operations add
      up to. */
  lemma {:induction false} RunKeeps(env: Env, m: Map, live: Live, c: Contents, run: seq<Event>)
    requires Slice.Injective(env.h) && Sane(m) && Holds(m, live, c) && RunOk(env, m, live, run)
    ensures Holds(m, LiveAfter(env, live, run), ContentsAfter(env, live, c, run))
    decreases |run|
  {
    if run != [] {
      var next := After(env, live, run[0].tx);
      match run[0] {
        case Mine(op, tx) =>
          var ss :| Compose(m, live, op) == Some(ss) && tx.steps == StepsOf(env.h, Rows(m), ss);
          OpKeeps(env, m, live, c, op, ss, tx);
        case Foreign(tx) =>
          var t :| Shows(Rows(m), live, t) && Represents(m, t, c);
          RowsProper(m);
          ForeignShows(env, Rows(m), live, t, tx);
      }
      RunKeeps(env, m, next, ContentsOf(env, live, c, run[0]), run[1..]);
    }
  }

  lemma EmptyHolds(m: Map, live: Live)
    requires forall k :: k in live ==> Elsewhere(Rows(m), k)
    ensures Holds(m, live, NOTHING)
  {
    var t: Table := map[];
    RowsProper(m);
    EmptyShows(Rows(m), live);
    assert Represents(m, t, NOTHING);
  }

  /** `keys()` lists each key once, in slot order; `None` where a read raises. */
  method Keys(m: Map, live: Live, ghost c: Contents) returns (r: Option<seq<Bytes>>)
    requires Sane(m)
    ensures Holds(m, live, c) ==> r == Some(c.keys)
  {
    ghost var sane := Holds(m, live, c);
    if sane { KeysRead(m, live, c); }
    r := ListSlots(m, live, c.keys, sane);
  }

  ghost predicate Lists(m: Map, live: Live, keys: seq<Bytes>) {
    |keys| <= SLOTS && forall i :: 0 <= i < |keys| ==> Read(m, live, SlotRow(i)) == Some(keys[i])
  }

  method ListSlots(m: Map, live: Live, ghost expected: seq<Bytes>, ghost sane: bool) returns (r: Option<seq<Bytes>>)
    requires sane ==> Lists(m, live, expected)
    requires sane ==> var meta := CurrentMeta(m, Read(m, live, MetaRow)); meta.Some? && meta.value.0 == |expected|
    ensures sane ==> r == Some(expected)
  {
    var raw := Read(m, live, MetaRow);
    if raw.None? { return Some([]); }
    var meta := ReadMeta(m, raw.value);
    if meta.None? { return None; }
    var keys := [];
    var i := 0;
    while i < meta.value.0
      invariant 0 <= i && (sane ==> i <= |expected| && keys == expected[..i])
    {
      if i >= SLOTS { return None; }
      var k := Read(m, live, SlotRow(i));
      if k.Some? { keys := keys + [k.value]; }
      i := i + 1;
    }
    assert sane ==> keys == expected;
    r := Some(keys);
  }

  /** The keys a map lists are distinct, and are exactly those with a value. */
  lemma KeysRead(m: Map, live: Live, c: Contents)
    requires Sane(m) && Holds(m, live, c)
    ensures CurrentMeta(m, Read(m, live, MetaRow)) == Some((|c.keys|, AccOf(m, c.keys))) && Lists(m, live, c.keys)
    ensures forall i, j :: 0 <= i < j < |c.keys| ==> c.keys[i] != c.keys[j]
    ensures forall k :: k in c.keys <==> k in c.values
  {
    var t :| Shows(Rows(m), live, t) && Represents(m, t, c);
    ReadsAre(m, live, t, c, []);
    forall i | 0 <= i < |c.keys| ensures Read(m, live, SlotRow(i)) == Some(c.keys[i]) {
      ReadIs(m, live, t, c, SlotRow(i));
    }
    ListedOnce(c);
  }

  lemma ListedOnce(c: Contents)
    requires Bijection(c.keys, c.index) && c.values.Keys == c.index.Keys
    ensures forall i, j :: 0 <= i < j < |c.keys| ==> c.keys[i] != c.keys[j]
    ensures forall k :: k in c.keys <==> k in c.values
  {
    forall i, j | 0 <= i < j < |c.keys| ensures c.keys[i] != c.keys[j] {
      assert c.index[c.keys[i]] == i && c.index[c.keys[j]] == j;
    }
    forall k | k in c.values ensures k in c.keys { assert c.keys[c.index[k]] == k; }
  }
}
