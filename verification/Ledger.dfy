/** The tables of dude/store/store.py as values: the settled log, the live rows, the blocks and the
    accumulators, and what committing a block or collecting below one makes of them. */
module Ledger {
  import opened Bytes
  import opened Ops
  import opened Views
  import opened Settle
  import opened LayerRoot

  datatype Entry = Entry(opHash: Bytes, tx: Signed)

  /** A block row: its log range and its hash. An empty block has `first == height + 1`. */
  datatype BlockRow = BlockRow(first: int, height: int, hash: Bytes)

  datatype State = State(
    entries: map<int, Entry>,
    live: Live,
    blocks: map<int, BlockRow>,
    acc: int,
    accLog: int,
    floor: int)

  const EMPTY := State(map[], map[], map[], 0, 0, 0)

  type LogElement = (int, Bytes) -> int

  // ------------------------------------------------------------------------ the head

  ghost predicate IsMax(m: int, keys: set<int>) { m in keys && forall i :: i in keys ==> i <= m }

  lemma SomeElement<T>(keys: set<T>) returns (k: T)
    requires keys != {}
    ensures k in keys
  {
    k :| k in keys;
  }

  lemma SomeInt(keys: set<int>)
    requires keys != {}
    ensures exists k :: k in keys
  {
    var _ := SomeElement(keys);
  }

  lemma {:induction false} MaxExists(keys: set<int>)
    requires exists k :: k in keys
    ensures exists m :: IsMax(m, keys)
    decreases |keys|
  {
    var a :| a in keys;
    var rest := keys - {a};
    assert forall i :: i in keys ==> i == a || i in rest;
    if k :| k in rest {
      MaxExists(rest);
      var m :| IsMax(m, rest);
      assert IsMax(if a > m then a else m, keys);
    } else {
      assert IsMax(a, keys);
    }
  }

  /** `head()`: the last index of the log, or the floor a checkpoint left. */
  ghost function Head(entries: map<int, Entry>, floor: int): int {
    if exists k :: k in entries.Keys then
      MaxExists(entries.Keys);
      var m :| IsMax(m, entries.Keys);
      m
    else floor
  }

  lemma HeadIs(entries: map<int, Entry>, floor: int, n: int)
    requires IsMax(n, entries.Keys) || (entries == map[] && n == floor)
    ensures Head(entries, floor) == n
  {
    if exists k :: k in entries.Keys { MaxExists(entries.Keys); }
  }

  lemma HeadBounds(entries: map<int, Entry>, floor: int)
    ensures forall i :: i in entries ==> i <= Head(entries, floor)
    ensures (exists k :: k in entries.Keys) ==> Head(entries, floor) in entries
  {
    if exists k :: k in entries.Keys { MaxExists(entries.Keys); }
  }

  /** `head_block_num() or 0`. */
  ghost function HeadNum(blocks: map<int, BlockRow>): int {
    if exists k :: k in blocks.Keys then
      MaxExists(blocks.Keys);
      var m :| IsMax(m, blocks.Keys);
      m
    else 0
  }

  lemma HeadNumIs(blocks: map<int, BlockRow>, n: int)
    requires IsMax(n, blocks.Keys) || (blocks == map[] && n == 0)
    ensures HeadNum(blocks) == n
  {
    if exists k :: k in blocks.Keys { MaxExists(blocks.Keys); }
  }

  lemma HeadNumBounds(blocks: map<int, BlockRow>)
    ensures forall i :: i in blocks ==> i <= HeadNum(blocks)
    ensures (exists k :: k in blocks.Keys) ==> HeadNum(blocks) in blocks
  {
    if exists k :: k in blocks.Keys { MaxExists(blocks.Keys); }
  }

  function SettledHashes(entries: map<int, Entry>): set<Bytes> {
    set i | i in entries :: entries[i].opHash
  }

  // -------------------------------------------------------------------- applying a batch

  /** The log with `keep` appended after index `at`. */
  function Logged(env: Env, entries: map<int, Entry>, at: int, keep: seq<Signed>): map<int, Entry>
    decreases |keep|
  {
    if keep == [] then entries
    else Logged(env, entries[at + 1 := Entry(OpHash(env, keep[0]), keep[0])], at + 1, keep[1..])
  }

  /** What appending `keep` after index `at` adds to the log accumulator. */
  function LogSum(env: Env, logElem: LogElement, at: int, keep: seq<Signed>): int
    decreases |keep|
  {
    if keep == [] then 0 else logElem(at + 1, OpHash(env, keep[0])) + LogSum(env, logElem, at + 1, keep[1..])
  }

  // ----------------------------------------------------- what the database takes for an integer

  const INT64 := 0x8000_0000_0000_0000

  /** SQLite integers are signed and 64 bits wide; binding any other raises. */
  predicate Binds(n: int) { -INT64 <= n < INT64 }

  predicate WriteBinds(m: Mutation) { m.Set? ==> Binds(m.epoch) }

  /** The log entry takes the timestamp, each row written its epoch. */
  predicate TxBinds(tx: Signed, ms: seq<Mutation>) {
    Binds(tx.ts) && forall i :: 0 <= i < |ms| ==> WriteBinds(ms[i])
  }

  /** Every transaction the screen keeps can be written as it is reached. */
  predicate KeptBind(env: Env, live: Live, seen: set<Bytes>, batch: seq<Signed>)
    decreases |batch|
  {
    batch == [] ||
    var tx, hash := batch[0], OpHash(env, batch[0]);
    if hash in seen then KeptBind(env, live, seen, batch[1..])
    else
      match Evaluate(env, live, tx)
      case Pass(ms) => TxBinds(tx, ms) && KeptBind(env, ApplyAll(live, ms, env.raw(tx)), seen + {hash}, batch[1..])
      case Fail(_) => KeptBind(env, live, seen, batch[1..])
  }

  /** The batch loop as it writes: a screen that also raises where a kept transaction cannot be
      written. */
  function Settling(env: Env, live: Live, seen: set<Bytes>, batch: seq<Signed>): Screening
    decreases |batch|
  {
    if batch == [] then Screened(live, [], []) else
      var tx, hash := batch[0], OpHash(env, batch[0]);
      if hash in seen then Dropping(tx, Rejected(Settled, None), Settling(env, live, seen, batch[1..]))
      else
        match Evaluate(env, live, tx)
        case Pass(ms) =>
          if !TxBinds(tx, ms) then Crashed
          else Keeping(tx, Settling(env, ApplyAll(live, ms, env.raw(tx)), seen + {hash}, batch[1..]))
        case Fail(Raised) => Crashed
        case Fail(v) => Dropping(tx, v, Settling(env, live, seen, batch[1..]))
  }

  /** It is the screen, unless something kept cannot be written. */
  lemma {:induction false} SettlingIs(env: Env, live: Live, seen: set<Bytes>, batch: seq<Signed>)
    ensures var screened := Screen(env, live, seen, batch);
            Settling(env, live, seen, batch) ==
            if screened.Screened? && KeptBind(env, live, seen, batch) then screened else Crashed
    decreases |batch|
  {
    if batch != [] {
      var tx, hash := batch[0], OpHash(env, batch[0]);
      if hash !in seen && Evaluate(env, live, tx).Pass? {
        SettlingIs(env, ApplyAll(live, Evaluate(env, live, tx).mutations, env.raw(tx)), seen + {hash}, batch[1..]);
      } else {
        SettlingIs(env, live, seen, batch[1..]);
      }
    }
  }

  /** A kept transaction can be written exactly when its time and the epochs it writes are signed
      64-bit integers. */
  lemma WritableExactly(tx: Signed, ms: seq<Mutation>)
    ensures TxBinds(tx, ms) <==>
            -9223372036854775808 <= tx.ts <= 9223372036854775807 &&
            forall i :: 0 <= i < |ms| && ms[i].Set? ==> -9223372036854775808 <= ms[i].epoch <= 9223372036854775807
  {
  }

  /** One more transaction can be written if what came before could and it is not kept or it can. */
  lemma {:induction false} KeptBindOneMore(env: Env, live: Live, seen: set<Bytes>, batch: seq<Signed>, tx: Signed)
    requires Screen(env, live, seen, batch).Screened?
    ensures var s := Screen(env, live, seen, batch);
            KeptBind(env, live, seen, batch + [tx]) <==>
            KeptBind(env, live, seen, batch) &&
            (OpHash(env, tx) in seen || (exists k :: k in s.keep && OpHash(env, k) == OpHash(env, tx)) ||
             Evaluate(env, s.live, tx).Fail? || TxBinds(tx, Evaluate(env, s.live, tx).mutations))
    decreases |batch|
  {
    if batch == [] {
      assert [] + [tx] == [tx] && [tx][1..] == [];
    } else {
      var first, rest := batch[0], batch[1..];
      assert (batch + [tx])[0] == first && (batch + [tx])[1..] == rest + [tx];
      var hash := OpHash(env, first);
      if hash !in seen && Evaluate(env, live, first).Pass? {
        var next := ApplyAll(live, Evaluate(env, live, first).mutations, env.raw(first));
        KeptBindOneMore(env, next, seen + {hash}, rest, tx);
        var keep := Screen(env, next, seen + {hash}, rest).keep;
        assert Screen(env, live, seen, batch).keep == [first] + keep;
        assert first in [first] + keep && forall k :: k in keep ==> k in [first] + keep;
      } else {
        KeptBindOneMore(env, live, seen, rest, tx);
      }
    }
  }

  /** What the log holds of other transactions makes no difference. */
  lemma {:induction false} KeptBindFresh(env: Env, live: Live, seen: set<Bytes>, settled: set<Bytes>,
                                         batch: seq<Signed>)
    requires forall i :: 0 <= i < |batch| ==> OpHash(env, batch[i]) !in settled
    ensures KeptBind(env, live, seen + settled, batch) <==> KeptBind(env, live, seen, batch)
    decreases |batch|
  {
    if batch != [] {
      var tx, hash := batch[0], OpHash(env, batch[0]);
      if hash !in seen && Evaluate(env, live, tx).Pass? {
        var next := ApplyAll(live, Evaluate(env, live, tx).mutations, env.raw(tx));
        KeptBindFresh(env, next, seen + {hash}, settled, batch[1..]);
        assert seen + {hash} + settled == seen + settled + {hash};
      } else {
        KeptBindFresh(env, live, seen, settled, batch[1..]);
      }
    }
  }

  /** `_apply_within`; `None` where it raises and the write is rolled back. */
  ghost function Applied(env: Env, elem: Element, logElem: LogElement, s: State, batch: seq<Signed>): Option<State> {
    match Settling(env, s.live, SettledHashes(s.entries), batch)
    case Crashed => None
    case Screened(live, keep, _) =>
      var head := Head(s.entries, s.floor);
      Some(s.(entries := Logged(env, s.entries, head, keep), live := live,
              acc := s.acc - Sum(elem, s.live) + Sum(elem, live),
              accLog := s.accLog + LogSum(env, logElem, head, keep)))
  }

  datatype Commit = Committed(state: State) | Repeated | Fork | Aborted

  /** `commit_block` with `first_height = head + 1`. The block table takes no hash twice. */
  ghost function CommitBlock(env: Env, elem: Element, logElem: LogElement, s: State,
                             num: int, hash: Bytes, batch: seq<Signed>): Commit {
    if num in s.blocks then (if s.blocks[num].hash == hash then Repeated else Fork)
    else if exists b :: b in s.blocks && s.blocks[b].hash == hash then Aborted
    else
      match Applied(env, elem, logElem, s, batch)
      case None => Aborted
      case Some(t) =>
        var row := BlockRow(Head(s.entries, s.floor) + 1, Head(t.entries, t.floor), hash);
        Committed(t.(blocks := t.blocks[num := row]))
  }

  /** `gc_below(pivot)`. */
  function GcBelow(s: State, pivot: int): State {
    if pivot !in s.blocks then s else
      s.(entries := map i | i in s.entries && i >= s.blocks[pivot].first :: s.entries[i],
         blocks := map b | b in s.blocks && b >= pivot :: s.blocks[b])
  }

  /** `bodies_of_block`: the transactions of the block's log range. */
  function BodiesOf(s: State, num: int): seq<Signed>
    requires num in s.blocks ==> forall i :: s.blocks[num].first <= i <= s.blocks[num].height ==> i in s.entries
  {
    if num !in s.blocks || s.blocks[num].first > s.blocks[num].height then [] else
      var b := s.blocks[num];
      seq(b.height - b.first + 1, i requires 0 <= i < b.height - b.first + 1 => s.entries[b.first + i].tx)
  }

  /** `settlement_of` joins the entry to any block whose range holds its index. */
  ghost predicate SettledIn(s: State, opHash: Bytes, num: int) {
    exists i :: i in s.entries && s.entries[i].opHash == opHash && num in s.blocks &&
      s.blocks[num].first <= i <= s.blocks[num].height
  }

  // ----------------------------------------------------------------------- the invariant

  /** The sum over the log's entries `lo..hi`. */
  ghost function LogTotal(logElem: LogElement, entries: map<int, Entry>, lo: int, hi: int): int
    requires forall i :: lo <= i <= hi ==> i in entries
    decreases hi - lo + 1
  {
    if hi < lo then 0 else LogTotal(logElem, entries, lo, hi - 1) + logElem(hi, entries[hi].opHash)
  }

  /** The log is `lo..hi` with no hash twice. */
  ghost predicate LogIs(env: Env, entries: map<int, Entry>, lo: int, hi: int) {
    (forall i :: i in entries <==> lo <= i <= hi) && lo <= hi + 1 &&
    (forall i :: i in entries ==> entries[i].opHash == OpHash(env, entries[i].tx)) &&
    (forall i, j :: i in entries && j in entries && entries[i].opHash == entries[j].opHash ==> i == j)
  }

  /** The blocks are `b0..bn` and their ranges tile `lo..hi`. */
  ghost predicate BlocksTile(blocks: map<int, BlockRow>, lo: int, hi: int, b0: int, bn: int) {
    (forall b :: b in blocks <==> b0 <= b <= bn) && b0 <= bn + 1 &&
    (forall b :: b0 <= b <= bn ==> blocks[b].first <= blocks[b].height + 1) &&
    (forall b :: b0 < b <= bn ==> blocks[b].first == blocks[b - 1].height + 1) &&
    (if b0 <= bn then blocks[b0].first == lo && blocks[bn].height == hi else hi + 1 == lo)
  }

  ghost predicate Tiled(env: Env, s: State, lo: int, hi: int, b0: int, bn: int) {
    LogIs(env, s.entries, lo, hi) && Head(s.entries, s.floor) == hi && BlocksTile(s.blocks, lo, hi, b0, bn)
  }

  lemma {:induction false} LoggedEntries(env: Env, entries: map<int, Entry>, at: int, keep: seq<Signed>)
    requires forall i :: i in entries ==> i <= at
    ensures var after := Logged(env, entries, at, keep);
            (forall i :: i in after <==> i in entries || at < i <= at + |keep|) &&
            (forall i :: i in entries ==> after[i] == entries[i]) &&
            (forall i :: at < i <= at + |keep| ==> after[i] == Entry(OpHash(env, keep[i - at - 1]), keep[i - at - 1]))
    decreases |keep|
  {
    if keep != [] {
      var next := entries[at + 1 := Entry(OpHash(env, keep[0]), keep[0])];
      var rest := keep[1..];
      LoggedEntries(env, next, at + 1, rest);
      assert forall j :: 0 <= j < |rest| ==> rest[j] == keep[j + 1];
    }
  }

  lemma {:induction false} LoggedTotal(env: Env, logElem: LogElement, entries: map<int, Entry>, lo: int, at: int,
      keep: seq<Signed>)
    requires (forall i :: i in entries <==> lo <= i <= at) && lo <= at + 1
    ensures var after := Logged(env, entries, at, keep);
            (forall i :: lo <= i <= at + |keep| ==> i in after) &&
            LogTotal(logElem, after, lo, at + |keep|) ==
              LogTotal(logElem, entries, lo, at) + LogSum(env, logElem, at, keep)
    decreases |keep|
  {
    if keep != [] {
      var next := entries[at + 1 := Entry(OpHash(env, keep[0]), keep[0])];
      LoggedTotal(env, logElem, next, lo, at + 1, keep[1..]);
      SameTotal(logElem, entries, next, lo, at);
    }
  }

  lemma {:induction false} SameTotal(logElem: LogElement, e: map<int, Entry>, f: map<int, Entry>, lo: int, hi: int)
    requires forall i :: lo <= i <= hi ==> i in e && i in f && e[i] == f[i]
    ensures LogTotal(logElem, e, lo, hi) == LogTotal(logElem, f, lo, hi)
    decreases hi - lo + 1
  {
    if lo <= hi { SameTotal(logElem, e, f, lo, hi - 1); }
  }

  lemma LogExtends(env: Env, entries: map<int, Entry>, lo: int, hi: int, keep: seq<Signed>)
    requires LogIs(env, entries, lo, hi)
    requires forall i :: 0 <= i < |keep| ==> OpHash(env, keep[i]) !in SettledHashes(entries)
    requires forall i, j :: 0 <= i < j < |keep| ==> OpHash(env, keep[i]) != OpHash(env, keep[j])
    ensures LogIs(env, Logged(env, entries, hi, keep), lo, hi + |keep|)
  {
    var after := Logged(env, entries, hi, keep);
    LoggedEntries(env, entries, hi, keep);
    forall i, j | i in after && j in after && i < j ensures after[i].opHash != after[j].opHash {
      if i <= hi < j {
        assert entries[i].opHash in SettledHashes(entries);
        assert after[j].opHash == OpHash(env, keep[j - hi - 1]);
      } else if hi < i {
        assert OpHash(env, keep[i - hi - 1]) != OpHash(env, keep[j - hi - 1]);
      }
    }
  }

  lemma BlocksExtend(blocks: map<int, BlockRow>, lo: int, hi: int, b0: int, bn: int, row: BlockRow)
    requires BlocksTile(blocks, lo, hi, b0, bn) && row.first == hi + 1 && hi <= row.height
    ensures BlocksTile(blocks[bn + 1 := row], lo, row.height, b0, bn + 1)
  {
  }

  /** `t` is `s` with block `num` added, having settled `keep`. */
  ghost predicate Extends(env: Env, elem: Element, logElem: LogElement, s: State, t: State, num: int, hash: Bytes,
      keep: seq<Signed>) {
    var head := Head(s.entries, s.floor);
    t.entries == Logged(env, s.entries, head, keep) && t.floor == s.floor &&
    t.blocks == s.blocks[num := BlockRow(head + 1, Head(t.entries, t.floor), hash)] &&
    t.acc == s.acc - Sum(elem, s.live) + Sum(elem, t.live) &&
    t.accLog == s.accLog + LogSum(env, logElem, head, keep) &&
    (forall i :: 0 <= i < |keep| ==> OpHash(env, keep[i]) !in SettledHashes(s.entries)) &&
    (forall i, j :: 0 <= i < j < |keep| ==> OpHash(env, keep[i]) != OpHash(env, keep[j]))
  }

  /** When a block is committed, when it is a repeat or a fork, and when it raises. */
  lemma CommitExactly(env: Env, elem: Element, logElem: LogElement, s: State, num: int, hash: Bytes,
                      batch: seq<Signed>)
    ensures var c, seen := CommitBlock(env, elem, logElem, s, num, hash, batch), SettledHashes(s.entries);
            (c == Repeated <==> num in s.blocks && s.blocks[num].hash == hash) &&
            (c == Fork <==> num in s.blocks && s.blocks[num].hash != hash) &&
            (c.Committed? <==>
               num !in s.blocks && (forall b :: b in s.blocks ==> s.blocks[b].hash != hash) &&
               Screen(env, s.live, seen, batch).Screened? && KeptBind(env, s.live, seen, batch))
  {
    SettlingIs(env, s.live, SettledHashes(s.entries), batch);
  }

  lemma CommitExtends(env: Env, elem: Element, logElem: LogElement, s: State, num: int, hash: Bytes, batch: seq<Signed>)
    requires CommitBlock(env, elem, logElem, s, num, hash, batch).Committed?
    ensures var t := CommitBlock(env, elem, logElem, s, num, hash, batch).state;
            var screened := Screen(env, s.live, SettledHashes(s.entries), batch);
            screened.Screened? && KeptBind(env, s.live, SettledHashes(s.entries), batch) &&
            t.live == screened.live && Extends(env, elem, logElem, s, t, num, hash, screened.keep)
  {
    SettlingIs(env, s.live, SettledHashes(s.entries), batch);
    KeptAreDistinct(env, s.live, SettledHashes(s.entries), batch);
  }

  /** A committed block extends the tiling by exactly what it settled. */
  lemma ExtendsTiles(env: Env, elem: Element, logElem: LogElement, s: State, t: State, num: int, hash: Bytes,
                     keep: seq<Signed>, lo: int, hi: int, b0: int, bn: int)
    requires Tiled(env, s, lo, hi, b0, bn) && num == bn + 1 && Extends(env, elem, logElem, s, t, num, hash, keep)
    ensures Tiled(env, t, lo, hi + |keep|, b0, num)
  {
    LogExtends(env, s.entries, lo, hi, keep);
    HeadAfter(env, s, hi, keep);
    BlocksExtend(s.blocks, lo, hi, b0, bn, BlockRow(hi + 1, hi + |keep|, hash));
  }

  /** The accumulators stay the sums they stand for. */
  lemma ExtendsSums(env: Env, elem: Element, logElem: LogElement, s: State, t: State, num: int, hash: Bytes,
                    keep: seq<Signed>, lo: int, hi: int)
    requires LogIs(env, s.entries, lo, hi) && Head(s.entries, s.floor) == hi &&
             Extends(env, elem, logElem, s, t, num, hash, keep)
    requires s.acc == Sum(elem, s.live) && s.accLog == LogTotal(logElem, s.entries, lo, hi)
    ensures t.acc == Sum(elem, t.live)
    ensures LogIs(env, t.entries, lo, hi + |keep|) && t.accLog == LogTotal(logElem, t.entries, lo, hi + |keep|)
  {
    LogExtends(env, s.entries, lo, hi, keep);
    LoggedTotal(env, logElem, s.entries, lo, hi, keep);
  }

  lemma HeadAfter(env: Env, s: State, hi: int, keep: seq<Signed>)
    requires Head(s.entries, s.floor) == hi && forall i :: i in s.entries ==> i <= hi
    ensures Head(Logged(env, s.entries, hi, keep), s.floor) == hi + |keep|
  {
    var after := Logged(env, s.entries, hi, keep);
    LoggedEntries(env, s.entries, hi, keep);
    if keep != [] {
      HeadIs(after, s.floor, hi + |keep|);
    }
  }

  /** The block's bodies are what it settled, and no earlier block's bodies change. */
  lemma ExtendsBodies(env: Env, elem: Element, logElem: LogElement, s: State, t: State, num: int, hash: Bytes,
                      keep: seq<Signed>, lo: int, hi: int, b0: int, bn: int)
    requires Tiled(env, s, lo, hi, b0, bn) && num == bn + 1 && Extends(env, elem, logElem, s, t, num, hash, keep)
    ensures RangesHeld(s) && RangesHeld(t) && BodiesOf(t, num) == keep
    ensures forall b :: b in s.blocks ==> BodiesOf(t, b) == BodiesOf(s, b)
  {
    ExtendsTiles(env, elem, logElem, s, t, num, hash, keep, lo, hi, b0, bn);
    BodiesAfter(env, s, t, lo, hi, b0, bn, keep);
  }

  lemma BodiesAfter(env: Env, s: State, t: State, lo: int, hi: int, b0: int, bn: int, keep: seq<Signed>)
    requires Tiled(env, s, lo, hi, b0, bn) && Tiled(env, t, lo, hi + |keep|, b0, bn + 1)
    requires t.entries == Logged(env, s.entries, hi, keep)
    requires forall b :: b in s.blocks ==> t.blocks[b] == s.blocks[b]
    ensures RangesHeld(s) && RangesHeld(t) && BodiesOf(t, bn + 1) == keep
    ensures forall b :: b in s.blocks ==> BodiesOf(t, b) == BodiesOf(s, b)
  {
    TiledRanges(env, s, lo, hi, b0, bn);
    TiledRanges(env, t, lo, hi + |keep|, b0, bn + 1);
    NewBodies(env, s, t, lo, hi, b0, bn, keep);
    KeptBodies(env, s, t, lo, hi, b0, bn, keep);
  }

  lemma NewBodies(env: Env, s: State, t: State, lo: int, hi: int, b0: int, bn: int, keep: seq<Signed>)
    requires BlocksTile(s.blocks, lo, hi, b0, bn) && BlocksTile(t.blocks, lo, hi + |keep|, b0, bn + 1)
    requires (forall i :: i in s.entries ==> i <= hi) && t.entries == Logged(env, s.entries, hi, keep)
    requires forall b :: b in s.blocks ==> t.blocks[b] == s.blocks[b]
    ensures Holds(t, bn + 1, hi, keep) && BodiesOf(t, bn + 1) == keep
  {
    NewRange(env, s, t, lo, hi, b0, bn, keep);
    BodiesAre(t, bn + 1, hi, keep);
  }

  lemma KeptBodies(env: Env, s: State, t: State, lo: int, hi: int, b0: int, bn: int, keep: seq<Signed>)
    requires Tiled(env, s, lo, hi, b0, bn) && RangesHeld(s) && RangesHeld(t)
    requires BlocksTile(t.blocks, lo, hi + |keep|, b0, bn + 1) && t.entries == Logged(env, s.entries, hi, keep)
    requires forall b :: b in s.blocks ==> t.blocks[b] == s.blocks[b]
    ensures forall b :: b in s.blocks ==> BodiesOf(t, b) == BodiesOf(s, b)
  {
    LoggedEntries(env, s.entries, hi, keep);
    OldBodies(env, s, t, lo, hi, b0, bn);
  }

  lemma LastBlock(blocks: map<int, BlockRow>, more: map<int, BlockRow>, lo: int, hi: int, end: int, b0: int, bn: int)
    requires BlocksTile(blocks, lo, hi, b0, bn) && BlocksTile(more, lo, end, b0, bn + 1)
    requires forall b :: b in blocks ==> more[b] == blocks[b]
    ensures bn + 1 in more && more[bn + 1].first == hi + 1 && more[bn + 1].height == end
  {
    assert b0 <= bn ==> more[bn] == blocks[bn];
    assert b0 < bn + 1 ==> more[bn + 1].first == more[bn + 1 - 1].height + 1;
  }

  /** Block `num` covers the log just after `at`, which holds `keep`. */
  ghost predicate Holds(t: State, num: int, at: int, keep: seq<Signed>) {
    num in t.blocks && t.blocks[num].first == at + 1 && t.blocks[num].height == at + |keep| &&
    forall i :: at < i <= at + |keep| ==> i in t.entries && t.entries[i].tx == keep[i - at - 1]
  }

  lemma NewRange(env: Env, s: State, t: State, lo: int, hi: int, b0: int, bn: int, keep: seq<Signed>)
    requires BlocksTile(s.blocks, lo, hi, b0, bn) && BlocksTile(t.blocks, lo, hi + |keep|, b0, bn + 1)
    requires (forall i :: i in s.entries ==> i <= hi) && t.entries == Logged(env, s.entries, hi, keep)
    requires forall b :: b in s.blocks ==> t.blocks[b] == s.blocks[b]
    ensures Holds(t, bn + 1, hi, keep)
  {
    LastBlock(s.blocks, t.blocks, lo, hi, hi + |keep|, b0, bn);
    LoggedEntries(env, s.entries, hi, keep);
  }

  lemma BodiesAre(t: State, num: int, at: int, keep: seq<Signed>)
    requires Holds(t, num, at, keep)
    ensures BodiesOf(t, num) == keep
  {
  }

  lemma OldBodies(env: Env, s: State, t: State, lo: int, hi: int, b0: int, bn: int)
    requires Tiled(env, s, lo, hi, b0, bn) && RangesHeld(s) && RangesHeld(t)
    requires forall i :: i in s.entries ==> i in t.entries && t.entries[i] == s.entries[i]
    requires forall b :: b in s.blocks ==> b in t.blocks && t.blocks[b] == s.blocks[b]
    ensures forall b :: b in s.blocks ==> BodiesOf(t, b) == BodiesOf(s, b)
  {
    forall b | b in s.blocks ensures BodiesOf(t, b) == BodiesOf(s, b) {
      BlockWithin(env, s, lo, hi, b0, bn, b);
    }
  }

  ghost predicate RangesHeld(s: State) {
    forall b, i :: b in s.blocks && s.blocks[b].first <= i <= s.blocks[b].height ==> i in s.entries
  }

  /** Every block's range lies within the log, after every earlier block's. */
  lemma {:induction false} BlockWithin(env: Env, s: State, lo: int, hi: int, b0: int, bn: int, b: int)
    requires Tiled(env, s, lo, hi, b0, bn) && b0 <= b <= bn
    ensures lo <= s.blocks[b].first && s.blocks[b].height <= hi
  {
    BlockAfter(env, s, lo, hi, b0, bn, b0, b);
    BlockAfter(env, s, lo, hi, b0, bn, b, bn);
  }

  lemma {:induction false} BlockAfter(env: Env, s: State, lo: int, hi: int, b0: int, bn: int, a: int, b: int)
    requires Tiled(env, s, lo, hi, b0, bn) && b0 <= a <= b <= bn
    ensures s.blocks[a].first <= s.blocks[b].first && s.blocks[a].height <= s.blocks[b].height
    ensures a < b ==> s.blocks[a].height < s.blocks[b].first
    decreases b - a
  {
    if a < b { BlockAfter(env, s, lo, hi, b0, bn, a, b - 1); }
  }

  lemma TiledRanges(env: Env, s: State, lo: int, hi: int, b0: int, bn: int)
    requires Tiled(env, s, lo, hi, b0, bn)
    ensures RangesHeld(s)
  {
    forall b | b in s.blocks ensures lo <= s.blocks[b].first && s.blocks[b].height <= hi {
      BlockWithin(env, s, lo, hi, b0, bn, b);
    }
  }

  /** Each settled transaction lies in exactly one block: `settlement_of` has one answer. */
  lemma SettlementUnique(env: Env, s: State, lo: int, hi: int, b0: int, bn: int, i: int)
    requires Tiled(env, s, lo, hi, b0, bn) && i in s.entries
    ensures exists b :: SettledIn(s, s.entries[i].opHash, b)
    ensures forall a, b :: SettledIn(s, s.entries[i].opHash, a) && SettledIn(s, s.entries[i].opHash, b) ==> a == b
  {
    var b := FindBlock(env, s, lo, hi, b0, bn, i);
    assert SettledIn(s, s.entries[i].opHash, b);
    forall a, b | SettledIn(s, s.entries[i].opHash, a) && SettledIn(s, s.entries[i].opHash, b) ensures a == b {
      if a < b { BlockAfter(env, s, lo, hi, b0, bn, a, b); }
      if b < a { BlockAfter(env, s, lo, hi, b0, bn, b, a); }
    }
  }

  lemma {:induction false} FindBlock(env: Env, s: State, lo: int, hi: int, b0: int, bn: int, i: int) returns (b: int)
    requires Tiled(env, s, lo, hi, b0, bn) && lo <= i <= hi
    ensures b in s.blocks && s.blocks[b].first <= i <= s.blocks[b].height
  {
    b := bn;
    while s.blocks[b].first > i
      invariant b0 <= b <= bn && i <= s.blocks[b].height
      decreases b - b0
    {
      b := b - 1;
    }
  }

  // ------------------------------------------------------------------------- whole runs

  datatype Op = Op(hash: Bytes, batch: seq<Signed>)

  /** The store after a run of `commit_block` calls from an empty one, each numbered one past the
      last block; a call that raises leaves the store as it was. */
  ghost function Run(env: Env, elem: Element, logElem: LogElement, ops: seq<Op>): (State, nat)
    decreases |ops|
  {
    if ops == [] then (EMPTY, 0) else
      var (s, bn) := Run(env, elem, logElem, ops[..|ops| - 1]);
      var op := ops[|ops| - 1];
      match CommitBlock(env, elem, logElem, s, bn + 1, op.hash, op.batch)
      case Committed(t) => (t, bn + 1)
      case _ => (s, bn)
  }

  /** The log is `1..head` with no hash twice, the accumulators are the sums over the live rows and
      the log, and the ranges of blocks `1..bn` tile the log. */
  ghost predicate InOrder(env: Env, elem: Element, logElem: LogElement, s: State, bn: int) {
    var head := Head(s.entries, s.floor);
    Tiled(env, s, 1, head, 1, bn) && s.acc == Sum(elem, s.live) && s.accLog == LogTotal(logElem, s.entries, 1, head)
  }

  lemma EmptyInOrder(env: Env, elem: Element, logElem: LogElement)
    ensures InOrder(env, elem, logElem, EMPTY, 0)
  {
    HeadIs(map[], 0, 0);
  }

  /** A committed block keeps the tables in order. */
  lemma CommitInOrder(env: Env, elem: Element, logElem: LogElement, s: State, bn: int, hash: Bytes, batch: seq<Signed>,
      t: State)
    requires InOrder(env, elem, logElem, s, bn) &&
             CommitBlock(env, elem, logElem, s, bn + 1, hash, batch) == Committed(t)
    ensures InOrder(env, elem, logElem, t, bn + 1)
  {
    CommitExtends(env, elem, logElem, s, bn + 1, hash, batch);
    ExtendsInOrder(env, elem, logElem, s, t, bn, hash, Screen(env, s.live, SettledHashes(s.entries), batch).keep);
  }

  lemma ExtendsInOrder(env: Env, elem: Element, logElem: LogElement, s: State, t: State, bn: int, hash: Bytes,
                       keep: seq<Signed>)
    requires InOrder(env, elem, logElem, s, bn) && Extends(env, elem, logElem, s, t, bn + 1, hash, keep)
    ensures InOrder(env, elem, logElem, t, bn + 1)
  {
    var head := Head(s.entries, s.floor);
    ExtendsTiles(env, elem, logElem, s, t, bn + 1, hash, keep, 1, head, 1, bn);
    ExtendsSums(env, elem, logElem, s, t, bn + 1, hash, keep, 1, head);
  }

  /** Over every run the tables are in order. */
  lemma {:induction false} RunInvariant(env: Env, elem: Element, logElem: LogElement, ops: seq<Op>)
    ensures var (s, bn) := Run(env, elem, logElem, ops); InOrder(env, elem, logElem, s, bn)
    decreases |ops|
  {
    if ops == [] {
      EmptyInOrder(env, elem, logElem);
    } else {
      RunInvariant(env, elem, logElem, ops[..|ops| - 1]);
      var (s, bn) := Run(env, elem, logElem, ops[..|ops| - 1]);
      var op := ops[|ops| - 1];
      var c := CommitBlock(env, elem, logElem, s, bn + 1, op.hash, op.batch);
      if c.Committed? { CommitInOrder(env, elem, logElem, s, bn, op.hash, op.batch, c.state); }
    }
  }

  // ------------------------------------------------------------------------- collection

  /** `gc_below` keeps the live rows, the accumulators and everything from the pivot up, and the
      tiling above the pivot; it keeps `head()` exactly when some block at or above the pivot
      settled something, or the floor already stands at the head. */
  lemma GcKeeps(env: Env, s: State, lo: int, hi: int, b0: int, bn: int, pivot: int)
    requires Tiled(env, s, lo, hi, b0, bn) && pivot in s.blocks
    ensures var t := GcBelow(s, pivot); var first := s.blocks[pivot].first;
            t.live == s.live && t.acc == s.acc && t.accLog == s.accLog &&
            LogIs(env, t.entries, first, hi) && BlocksTile(t.blocks, first, hi, pivot, bn) &&
            (forall i :: i in t.entries ==> t.entries[i] == s.entries[i]) &&
            (forall b :: b in t.blocks ==> t.blocks[b] == s.blocks[b]) &&
            (Head(t.entries, t.floor) == Head(s.entries, s.floor) <==> SettledFrom(s, pivot) || s.floor == hi)
  {
    var t, first := GcBelow(s, pivot), s.blocks[pivot].first;
    BlockWithin(env, s, lo, hi, b0, bn, pivot);
    assert first <= hi + 1;
    forall b | pivot <= b <= bn ensures first <= s.blocks[b].first && s.blocks[b].height <= hi {
      BlockAfter(env, s, lo, hi, b0, bn, pivot, b);
      BlockWithin(env, s, lo, hi, b0, bn, b);
    }
    GcHead(env, s, lo, hi, b0, bn, pivot);
  }

  /** A pivot it does not know deletes nothing. */
  lemma GcUnknown(s: State, pivot: int)
    requires pivot !in s.blocks
    ensures GcBelow(s, pivot) == s
  {
  }

  lemma GcHead(env: Env, s: State, lo: int, hi: int, b0: int, bn: int, pivot: int)
    requires Tiled(env, s, lo, hi, b0, bn) && pivot in s.blocks
    ensures Head(GcBelow(s, pivot).entries, s.floor) == hi <==> SettledFrom(s, pivot) || s.floor == hi
  {
    var t, first := GcBelow(s, pivot), s.blocks[pivot].first;
    BlockWithin(env, s, lo, hi, b0, bn, pivot);
    if first <= hi {
      assert hi in t.entries.Keys;
      HeadIs(t.entries, t.floor, hi);
      var b := FindBlock(env, s, lo, hi, b0, bn, first);
      if b < pivot { BlockAfter(env, s, lo, hi, b0, bn, b, pivot); }
    } else {
      forall b | pivot <= b <= bn ensures s.blocks[b].first > s.blocks[b].height {
        BlockAfter(env, s, lo, hi, b0, bn, pivot, b);
        BlockWithin(env, s, lo, hi, b0, bn, b);
      }
      assert t.entries == map[];
      HeadIs(t.entries, t.floor, t.floor);
    }
  }

  /** Some block at or above `pivot` is not empty. */
  ghost predicate SettledFrom(s: State, pivot: int) {
    exists b :: b in s.blocks && b >= pivot && s.blocks[b].first <= s.blocks[b].height
  }

  /** A log of one transaction under an empty block, as two commits leave it: collecting below the
      empty block takes the head back to the floor. */
  lemma GcCanLoseHead(env: Env, tx: Signed, h1: Bytes, h2: Bytes)
    ensures var e := Entry(OpHash(env, tx), tx);
            var s := State(map[1 := e], map[], map[1 := BlockRow(1, 1, h1), 2 := BlockRow(2, 1, h2)], 0, 0, 0);
            Tiled(env, s, 1, 1, 1, 2) && Head(s.entries, s.floor) == 1 && Head(GcBelow(s, 2).entries, s.floor) == 0
  {
    var e := Entry(OpHash(env, tx), tx);
    var s := State(map[1 := e], map[], map[1 := BlockRow(1, 1, h1), 2 := BlockRow(2, 1, h2)], 0, 0, 0);
    HeadIs(s.entries, 0, 1);
    assert GcBelow(s, 2).entries == map[];
    HeadIs(map[], 0, 0);
  }

  /** And a run reaches such tables: a first block of one transaction that passes and can be written,
      then one of none. */
  lemma GcLosesHeadOnARun(env: Env, elem: Element, logElem: LogElement, tx: Signed, h1: Bytes, h2: Bytes)
    requires Evaluate(env, map[], tx).Pass? && TxBinds(tx, Evaluate(env, map[], tx).mutations) && h1 != h2
    ensures var (s, bn) := Run(env, elem, logElem, [Op(h1, [tx]), Op(h2, [])]);
            bn == 2 && Head(s.entries, s.floor) == 1 && Head(GcBelow(s, 2).entries, s.floor) == 0
  {
    var a, b := Op(h1, [tx]), Op(h2, []);
    assert [a, b][..1] == [a] && [a][..0] == [];
    FirstBlock(env, elem, logElem, tx, h1);
    var one := CommitBlock(env, elem, logElem, EMPTY, 1, h1, [tx]).state;
    assert Run(env, elem, logElem, [a]) == (one, 1);
    SecondBlock(env, elem, logElem, one, h1, h2);
    var two := CommitBlock(env, elem, logElem, one, 2, h2, []).state;
    assert Run(env, elem, logElem, [a, b]) == (two, 2);
    assert GcBelow(two, 2).entries == map[];
    HeadIs(map[], 0, 0);
  }

  lemma FirstBlock(env: Env, elem: Element, logElem: LogElement, tx: Signed, h1: Bytes)
    requires Evaluate(env, map[], tx).Pass? && TxBinds(tx, Evaluate(env, map[], tx).mutations)
    ensures var c := CommitBlock(env, elem, logElem, EMPTY, 1, h1, [tx]);
            c.Committed? && c.state.entries.Keys == {1} && c.state.floor == 0 &&
            c.state.blocks == map[1 := BlockRow(1, 1, h1)]
  {
    assert [tx][1..] == [] && SettledHashes(map[]) == {};
    SettlingIs(env, map[], {}, [tx]);
    assert Screen(env, map[], {}, [tx]).Screened? && Screen(env, map[], {}, [tx]).keep == [tx] + [] == [tx];
    HeadIs(map[], 0, 0);
    CommitExtends(env, elem, logElem, EMPTY, 1, h1, [tx]);
    var t := CommitBlock(env, elem, logElem, EMPTY, 1, h1, [tx]).state;
    var none: map<int, Entry> := map[];
    assert EMPTY.entries == none && Screen(env, map[], {}, [tx]).keep[1..] == [];
    assert Logged(env, none, 0, [tx]) == Logged(env, none[1 := Entry(OpHash(env, tx), tx)], 1, []);
    assert t.entries == none[1 := Entry(OpHash(env, tx), tx)];
    HeadIs(t.entries, 0, 1);
  }

  lemma SecondBlock(env: Env, elem: Element, logElem: LogElement, s: State, h1: Bytes, h2: Bytes)
    requires s.entries.Keys == {1} && s.floor == 0 && s.blocks == map[1 := BlockRow(1, 1, h1)] && h1 != h2
    ensures var c := CommitBlock(env, elem, logElem, s, 2, h2, []);
            c.Committed? && c.state.entries == s.entries && c.state.floor == 0 && Head(s.entries, 0) == 1 &&
            2 in c.state.blocks && c.state.blocks[2].first == 2
  {
    HeadIs(s.entries, 0, 1);
  }
}
