/** `StoreWriter` of dude/store/store.py as it runs: the tables as fields, changed row by row. */
module Store {
  import opened Bytes
  import opened Ops
  import opened Views
  import opened Smt
  import opened SmtTree
  import opened Settle
  import opened LayerRoot
  import opened Ledger
  import O = Overlay

  predicate AllTarget(ms: seq<Mutation>, keys: set<Key>) {
    forall i :: 0 <= i < |ms| ==> ms[i].Target() in keys
  }

  /** A transaction's surviving mutations are among its own. */
  lemma {:induction false} SurvivorsTarget(env: Env, live: Live, tx: Signed, i: nat, keys: set<Key>)
    requires i <= |tx.steps| && Targets(tx, keys) && EvaluateFrom(env, live, tx, i).Pass?
    ensures AllTarget(EvaluateFrom(env, live, tx, i).mutations, keys)
    decreases |tx.steps| - i
  {
    if i < |tx.steps| {
      var m := tx.steps[i].mutation;
      if GuardsHold(env, live, tx.steps[i].guards) {
        SurvivorsTarget(env, ApplyOne(live, m, env.raw(tx)), tx, i + 1, keys);
      } else {
        SurvivorsTarget(env, live, tx, i + 1, keys);
      }
    }
  }

  lemma RowsPut(pathOf: Key -> Path, live: Live, k: Key, h: Held, keys: set<Key>)
    requires NoCollision(pathOf, keys) && live.Keys <= keys && k in keys
    ensures NoCollision(pathOf, live.Keys) && NoCollision(pathOf, live[k := h].Keys)
    ensures RowsOf(pathOf, live[k := h]) == RowsOf(pathOf, live)[pathOf(k) := h]
  {
    var l, r := RowsOf(pathOf, live[k := h]), RowsOf(pathOf, live)[pathOf(k) := h];
    forall q ensures q in l <==> q in r {
      if j :| j in live && pathOf(j) == q { assert j in live[k := h]; }
    }
    forall q | q in l ensures l[q] == r[q] {
      var j :| j in live[k := h] && pathOf(j) == q;
      assert j == k <==> q == pathOf(k);
    }
  }

  lemma RowsDel(pathOf: Key -> Path, live: Live, k: Key, keys: set<Key>)
    requires NoCollision(pathOf, keys) && live.Keys <= keys && k in keys
    ensures NoCollision(pathOf, live.Keys) && NoCollision(pathOf, (live - {k}).Keys)
    ensures RowsOf(pathOf, live - {k}) == RowsOf(pathOf, live) - {pathOf(k)}
  {
    var l, r := RowsOf(pathOf, live - {k}), RowsOf(pathOf, live) - {pathOf(k)};
    forall q ensures q in l <==> q in r {
      if j :| j in live && pathOf(j) == q { assert j in live - {k} <==> j != k; }
    }
  }

  method HeadNumOf(blocks: map<int, BlockRow>) returns (head: int)
    ensures head == HeadNum(blocks)
  {
    var todo, found := blocks.Keys, false;
    head := 0;
    while todo != {}
      invariant todo <= blocks.Keys
      invariant if found then head in blocks else head == 0
      invariant forall i :: i in blocks ==> i in todo || (found && i <= head)
      decreases |todo|
    {
      SomeInt(todo);
      var i :| i in todo;
      todo := todo - {i};
      if !found || i > head { head := i; found := true; }
    }
    if found {
      assert IsMax(head, blocks.Keys);
    } else {
      assert forall i :: i !in blocks;
      assert blocks == map[];
    }
    HeadNumIs(blocks, head);
  }

  predicate StoresBind(keys: set<Key>) { forall k :: k in keys ==> Binds(k.store) }

  class Store {
    const pathOf: Key -> Path
    const elem: Element
    const logElem: LogElement
    /** The keys in play: no two share a path, and the database takes their store ids. */
    ghost const universe: set<Key>
    const tree: Tree
    var entries: map<int, Entry>
    var live: Live
    var blocks: map<int, BlockRow>
    var acc: int
    var accLog: int
    var floor: int

    ghost function Tables(): State
      reads this
    {
      State(entries, live, blocks, acc, accLog, floor)
    }

    ghost predicate Valid()
      reads this, tree
    {
      NoCollision(pathOf, universe) && StoresBind(universe) && live.Keys <= universe &&
      NoCollision(pathOf, live.Keys) &&
      tree.Valid() && tree.rows == RowsOf(pathOf, live)
    }

    constructor (pathOf: Key -> Path, elem: Element, logElem: LogElement, ghost universe: set<Key>)
      requires NoCollision(pathOf, universe) && StoresBind(universe)
      ensures Valid() && Tables() == EMPTY && fresh(tree) && this.universe == universe
      ensures this.pathOf == pathOf && this.elem == elem && this.logElem == logElem
    {
      this.pathOf, this.elem, this.logElem, this.universe := pathOf, elem, logElem, universe;
      tree := new Tree(true);
      entries, live, blocks, acc, accLog, floor := map[], map[], map[], 0, 0, 0;
    }

    method HeadOf() returns (head: int)
      ensures head == Head(entries, floor)
    {
      var todo := entries.Keys;
      var found := false;
      head := floor;
      while todo != {}
        invariant todo <= entries.Keys
        invariant found ==> head in entries
        invariant forall i :: i in entries ==> i in todo || (found && i <= head)
        invariant !found ==> head == floor
        decreases |todo|
      {
        SomeInt(todo);
        var i :| i in todo;
        todo := todo - {i};
        if !found || i > head { head := i; found := true; }
      }
      if found {
        assert IsMax(head, entries.Keys);
      } else {
        assert forall i :: i !in entries;
        assert entries == map[];
      }
      HeadIs(entries, floor, head);
    }

    /** One mutation: the old element out, the way to the row invalidated, the row written or
        deleted, the new element in. `None` where the database refuses the row. */
    method CommitOne(m: Mutation, cred: Bytes, acc0: int) returns (r: Option<int>)
      requires Valid() && m.Target() in universe
      modifies this`live, tree
      ensures Valid() && r.Some? == WriteBinds(m)
      ensures r.Some? ==> live == ApplyOne(old(live), m, cred)
      ensures r.Some? ==> r.value == acc0 - Sum(elem, old(live)) + Sum(elem, live)
    {
      var acc1 := acc0;
      var k := m.Target();
      var cur := Lookup(live, k);
      if cur.Some? { acc1 := acc1 - elem(k, cur.value.value, cur.value.epoch); }
      var path := pathOf(k);
      if !WriteBinds(m) {
        tree.Invalidate(path);
        return None;
      }
      SumWrite(elem, live, k, Written(m, cred));
      assert ApplyOne(live, m, cred) == if m.Set? then live[k := Held(m.value, m.epoch, cred)] else live - {k};
      if m.Set? {
        var row := Held(m.value, m.epoch, cred);
        RowsPut(pathOf, live, k, row, universe);
        tree.Put(path, row);
        live := live[k := row];
        acc1 := acc1 + elem(k, m.value, m.epoch);
      } else {
        RowsDel(pathOf, live, k, universe);
        tree.Remove(path);
        live := live - {k};
      }
      r := Some(acc1);
    }

    method CommitAll(ms: seq<Mutation>, cred: Bytes, acc0: int) returns (r: Option<int>)
      requires Valid() && AllTarget(ms, universe)
      modifies this`live, tree
      ensures Valid() && r.Some? == (forall i :: 0 <= i < |ms| ==> WriteBinds(ms[i]))
      ensures r.Some? ==> live == ApplyAll(old(live), ms, cred)
      ensures r.Some? ==> r.value == acc0 - Sum(elem, old(live)) + Sum(elem, live)
    {
      var acc1 := acc0;
      ghost var before := live;
      assert ms[0..] == ms;
      for i := 0 to |ms|
        invariant Valid() && ApplyAll(before, ms, cred) == ApplyAll(live, ms[i..], cred)
        invariant acc1 == acc0 - Sum(elem, before) + Sum(elem, live)
        invariant forall j :: 0 <= j < i ==> WriteBinds(ms[j])
      {
        assert ms[i..][0] == ms[i] && ms[i..][1..] == ms[i + 1..];
        var next := CommitOne(ms[i], cred, acc1);
        if next.None? { return None; }
        acc1 := next.value;
      }
      r := Some(acc1);
    }

    /** `_commit`: the log entry, the log accumulator, then each mutation. */
    method Commit(env: Env, idx: int, tx: Signed, ms: seq<Mutation>, acc0: int) returns (r: Option<int>)
      requires Valid() && AllTarget(ms, universe)
      modifies this`entries, this`accLog, this`live, tree
      ensures Valid() && r.Some? == TxBinds(tx, ms)
      ensures r.Some? ==> live == ApplyAll(old(live), ms, env.raw(tx))
      ensures r.Some? ==> entries == old(entries)[idx := Entry(OpHash(env, tx), tx)]
      ensures r.Some? ==> accLog == old(accLog) + logElem(idx, OpHash(env, tx))
      ensures r.Some? ==> r.value == acc0 - Sum(elem, old(live)) + Sum(elem, live)
    {
      if !Binds(tx.ts) { return None; }
      entries := entries[idx := Entry(OpHash(env, tx), tx)];
      accLog := accLog + logElem(idx, OpHash(env, tx));
      r := CommitAll(ms, env.raw(tx), acc0);
    }

    /** Evaluate one transaction and, if it passes, commit it at `idx`. */
    method SettleOne(env: Env, tx: Signed, idx: int, acc0: int) returns (failure: Option<Verdict>, acc1: int)
      requires Valid() && Targets(tx, universe)
      modifies this`entries, this`accLog, this`live, tree
      ensures Valid()
      ensures match Evaluate(env, old(live), tx)
              case Pass(ms) =>
                if TxBinds(tx, ms) then failure == None && live == ApplyAll(old(live), ms, env.raw(tx))
                else failure == Some(Raised)
              case Fail(v) => failure == Some(v)
      ensures failure.None? ==>
                entries == old(entries)[idx := Entry(OpHash(env, tx), tx)] &&
                accLog == old(accLog) + logElem(idx, OpHash(env, tx)) &&
                acc1 == acc0 - Sum(elem, old(live)) + Sum(elem, live)
      ensures failure.Some? && failure.value.Rejected? ==>
                entries == old(entries) && accLog == old(accLog) && live == old(live)
    {
      acc1 := acc0;
      var layer;
      failure, layer := O.EvaluateOn(env, live, tx, universe);
      if failure.None? {
        SurvivorsTarget(env, live, tx, 0, universe);
        var r := Commit(env, idx, tx, layer.log, acc0);
        if r.None? { return Some(Raised), acc0; }
        acc1 := r.value;
      }
    }

    /** `_apply_within`. */
    method ApplyWithin(env: Env, batch: seq<Signed>) returns (crashed: bool, keep: seq<Signed>,
        drop: seq<(Signed, Verdict)>)
      requires Valid() && forall i :: 0 <= i < |batch| ==> Targets(batch[i], universe)
      modifies this`entries, this`accLog, this`live, this`acc, tree
      ensures Valid()
      ensures match Settling(env, old(live), SettledHashes(old(entries)), batch)
              case Crashed => crashed
              case Screened(l, k, d) => !crashed && keep == k && drop == d && live == l
      ensures !crashed ==> entries == Logged(env, old(entries), Head(old(entries), floor), keep)
      ensures !crashed ==> accLog == old(accLog) + LogSum(env, logElem, Head(old(entries), floor), keep)
      ensures !crashed ==> acc == old(acc) - Sum(elem, old(live)) + Sum(elem, live)
    {
      keep, drop := [], [];
      ghost var start := Tables();
      ghost var spec := Settling(env, live, SettledHashes(entries), batch);
      var already := SettledHashes(entries);
      var acc1 := acc;
      var idx := HeadOf();
      var i := 0;
      assert batch[0..] == batch;
      StartOut(env, elem, logElem, start, batch);
      while i < |batch|
        invariant 0 <= i <= |batch| && Valid()
        invariant Midway(env, elem, logElem, start, spec, Tables(), already, keep, drop, idx, acc1, batch[i..])
      {
        assert batch[i..][0] == batch[i] && batch[i..][1..] == batch[i + 1..];
        crashed, already, keep, drop, idx, acc1 := Consider(env, batch[i], already, keep, drop, idx, acc1, start, spec,
          batch[i..]);
        if crashed { return; }
        i := i + 1;
      }
      Finished(env, elem, logElem, start, spec, Tables(), already, keep, drop, idx, acc1, batch[i..]);
      acc := acc1;
      crashed := false;
    }

    /** One transaction of a batch: dropped if settled, dropped if it fails, committed if it passes. */
    method Consider(env: Env, tx: Signed, already: set<Bytes>, keep: seq<Signed>, drop: seq<(Signed, Verdict)>,
                    idx: int, acc1: int, ghost start: State, ghost spec: Screening, ghost rest: seq<Signed>)
      returns (crashed: bool, already2: set<Bytes>, keep2: seq<Signed>, drop2: seq<(Signed, Verdict)>, idx2: int,
        acc2: int)
      requires Valid() && Targets(tx, universe) && rest != [] && rest[0] == tx
      requires Midway(env, elem, logElem, start, spec, Tables(), already, keep, drop, idx, acc1, rest)
      modifies this`entries, this`accLog, this`live, tree
      ensures Valid()
      ensures if crashed then spec.Crashed?
              else Midway(env, elem, logElem, start, spec, Tables(), already2, keep2, drop2, idx2, acc2, rest[1..])
    {
      ghost var before := Tables();
      crashed, already2, keep2, drop2, idx2, acc2 := false, already, keep, drop, idx, acc1;
      if OpHash(env, tx) in already {
        DropOne(env, elem, logElem, start, spec, before, already, keep, drop, idx, acc1, rest, Rejected(Settled, None));
        drop2 := drop + [(tx, Rejected(Settled, None))];
        return;
      }
      var failure;
      failure, acc2 := SettleOne(env, tx, idx + 1, acc1);
      if failure.None? {
        KeepOne(env, elem, logElem, start, spec, before, Tables(), already, keep, drop, idx, acc1, acc2, rest);
        idx2, already2, keep2 := idx + 1, already + {OpHash(env, tx)}, keep + [tx];
      } else if failure.value.Raised? {
        crashed := true;
      } else {
        DropOne(env, elem, logElem, start, spec, before, already, keep, drop, idx, acc1, rest, failure.value);
        drop2, acc2 := drop + [(tx, failure.value)], acc1;
      }
    }

    /** `commit_block` with `first_height = head + 1`, inside the write block that rolls back. */
    method CommitBlockAt(env: Env, num: int, hash: Bytes, batch: seq<Signed>) returns (done: bool)
      requires Valid() && forall i :: 0 <= i < |batch| ==> Targets(batch[i], universe)
      modifies this`entries, this`accLog, this`live, this`acc, this`blocks, tree
      ensures Valid()
      ensures match CommitBlock(env, elem, logElem, old(Tables()), num, hash, batch)
              case Committed(t) => done && Tables() == t
              case _ => !done && Tables() == old(Tables())
    {
      if num in blocks || exists b :: b in blocks && blocks[b].hash == hash { return false; }
      ghost var before := Tables();
      var first := HeadOf();
      var crashed := Write(env, batch);
      if crashed { return false; }
      var height := HeadOf();
      CommitIs(env, elem, logElem, before, num, hash, batch, Tables());
      blocks := blocks[num := BlockRow(first + 1, height, hash)];
      done := true;
    }

    /** A write block around `_apply_within`: an exception rolls the tables back. */
    method Write(env: Env, batch: seq<Signed>) returns (crashed: bool)
      requires Valid() && forall i :: 0 <= i < |batch| ==> Targets(batch[i], universe)
      modifies this`entries, this`accLog, this`live, this`acc, tree
      ensures Valid()
      ensures match Applied(env, elem, logElem, old(Tables()), batch)
              case None => crashed && Tables() == old(Tables())
              case Some(t) => !crashed && Tables() == t
    {
      var entries0, live0, acc0, accLog0, rows0, memo0 := entries, live, acc, accLog, tree.rows, tree.memo;
      var keep, drop;
      crashed, keep, drop := ApplyWithin(env, batch);
      if crashed {
        entries, live, acc, accLog := entries0, live0, acc0, accLog0;
        tree.rows, tree.memo := rows0, memo0;
      }
    }

    /** `state_root`: `None` where a live row does not fit. */
    method StateRoot() returns (root: Option<Digest>)
      requires Valid()
      modifies tree`memo
      ensures Valid() && root == RootResult(pathOf, live)
    {
      RootIs(pathOf, live, tree.rows);
      root := tree.RootOf();
    }

    /** `insert_live_row`, which the importer calls; false where the database refuses the row. */
    method InsertLiveRow(k: Key, h: Held) returns (ok: bool)
      requires Valid() && k in universe
      modifies this`live, tree
      ensures Valid() && ok == Binds(h.epoch)
      ensures live == if ok then old(live)[k := h] else old(live)
    {
      if !Binds(h.epoch) {
        tree.Invalidate(pathOf(k));
        return false;
      }
      ok := true;
      RowsPut(pathOf, live, k, h, universe);
      tree.Put(pathOf(k), h);
      live := live[k := h];
    }

    /** `reset_for_checkpoint`. */
    method Reset()
      requires Valid()
      modifies this, tree
      ensures Valid() && Tables() == EMPTY
    {
      tree.Reset();
      entries, live, blocks, acc, accLog, floor := map[], map[], map[], 0, 0, 0;
    }

    /** `gc_below`. */
    method Gc(pivot: int) returns (deleted: int)
      requires Valid()
      modifies this`entries, this`blocks
      ensures Valid() && Tables() == GcBelow(old(Tables()), pivot)
      ensures deleted == |old(entries)| - |entries|
      ensures pivot !in old(blocks) ==> Tables() == old(Tables()) && deleted == 0
      ensures pivot in old(blocks) ==>
                var first := old(blocks)[pivot].first;
                (forall i :: i in entries <==> i in old(entries) && i >= first) &&
                (forall b :: b in blocks <==> b in old(blocks) && b >= pivot)
    {
      if pivot !in blocks { return 0; }
      var before := |entries|;
      var first := blocks[pivot].first;
      entries := map i | i in entries && i >= first :: entries[i];
      deleted := before - |entries|;
      blocks := map b | b in blocks && b >= pivot :: blocks[b];
    }
  }

  /** Part of a batch is in: what is kept is logged after the head `start` had, the accumulators
      follow, and screening the rest completes the screening of the whole. */
  ghost predicate Midway(env: Env, elem: Element, logElem: LogElement, start: State, spec: Screening, s: State,
                         already: set<Bytes>,
                         keep: seq<Signed>, drop: seq<(Signed, Verdict)>, idx: int, acc: int, rest: seq<Signed>) {
    var head := Head(start.entries, start.floor);
    spec == O.Continue(keep, drop, Settling(env, s.live, already, rest)) && idx == head + |keep| &&
    s.entries == Logged(env, start.entries, head, keep) &&
    s.accLog == start.accLog + LogSum(env, logElem, head, keep) &&
    acc == start.acc - Sum(elem, start.live) + Sum(elem, s.live)
  }

  lemma StartOut(env: Env, elem: Element, logElem: LogElement, s: State, batch: seq<Signed>)
    ensures var spec, already := Settling(env, s.live, SettledHashes(s.entries), batch), SettledHashes(s.entries);
            Midway(env, elem, logElem, s, spec, s, already, [], [], Head(s.entries, s.floor), s.acc, batch)
  {
    var spec := Settling(env, s.live, SettledHashes(s.entries), batch);
    if spec.Screened? { assert [] + spec.keep == spec.keep && [] + spec.drop == spec.drop; }
  }

  lemma Finished(env: Env, elem: Element, logElem: LogElement, start: State, spec: Screening, s: State,
                 already: set<Bytes>,
                 keep: seq<Signed>, drop: seq<(Signed, Verdict)>, idx: int, acc: int, rest: seq<Signed>)
    requires Midway(env, elem, logElem, start, spec, s, already, keep, drop, idx, acc, rest) && rest == []
    ensures spec == Screened(s.live, keep, drop)
  {
    assert keep + [] == keep && drop + [] == drop;
  }

  lemma DropOne(env: Env, elem: Element, logElem: LogElement, start: State, spec: Screening, s: State,
                already: set<Bytes>,
                keep: seq<Signed>, drop: seq<(Signed, Verdict)>, idx: int, acc: int, rest: seq<Signed>, v: Verdict)
    requires Midway(env, elem, logElem, start, spec, s, already, keep, drop, idx, acc, rest) && rest != []
    requires Settling(env, s.live, already, rest) == Dropping(rest[0], v, Settling(env, s.live, already, rest[1..]))
    ensures Midway(env, elem, logElem, start, spec, s, already, keep, drop + [(rest[0], v)], idx, acc, rest[1..])
  {
    O.ContinueDrop(keep, drop, rest[0], v, Settling(env, s.live, already, rest[1..]));
  }

  lemma KeepOne(env: Env, elem: Element, logElem: LogElement, start: State, spec: Screening, s: State, t: State,
                already: set<Bytes>,
                keep: seq<Signed>, drop: seq<(Signed, Verdict)>, idx: int, acc: int, acc2: int, rest: seq<Signed>)
    requires Midway(env, elem, logElem, start, spec, s, already, keep, drop, idx, acc, rest) && rest != []
    requires var tx := rest[0];
             Settling(env, s.live, already, rest) ==
               Keeping(tx, Settling(env, t.live, already + {OpHash(env, tx)}, rest[1..])) &&
             t.entries == s.entries[idx + 1 := Entry(OpHash(env, tx), tx)] &&
               t.accLog == s.accLog + logElem(idx + 1, OpHash(env, tx))
    requires acc2 == acc - Sum(elem, s.live) + Sum(elem, t.live)
    ensures Midway(env, elem, logElem, start, spec, t, already + {OpHash(env, rest[0])}, keep + [rest[0]], drop,
            idx + 1, acc2, rest[1..])
  {
    var tx, head := rest[0], Head(start.entries, start.floor);
    O.ContinueKeep(keep, drop, tx, Settling(env, t.live, already + {OpHash(env, tx)}, rest[1..]));
    LoggedSnoc(env, logElem, start.entries, head, keep, tx, idx + 1);
  }

  lemma CommitIs(env: Env, elem: Element, logElem: LogElement, s: State, num: int, hash: Bytes, batch: seq<Signed>,
      t: State)
    requires num !in s.blocks && (forall b :: b in s.blocks ==> s.blocks[b].hash != hash)
    requires Applied(env, elem, logElem, s, batch) == Some(t)
    ensures var row := BlockRow(Head(s.entries, s.floor) + 1, Head(t.entries, t.floor), hash);
            CommitBlock(env, elem, logElem, s, num, hash, batch) == Committed(t.(blocks := t.blocks[num := row]))
    ensures t.floor == s.floor && t.blocks == s.blocks
  {
  }

  lemma {:induction false} LoggedSnoc(env: Env, logElem: LogElement, entries: map<int, Entry>, at: int,
      keep: seq<Signed>, tx: Signed, idx: int)
    requires idx == at + |keep| + 1
    ensures Logged(env, entries, at, keep + [tx]) == Logged(env, entries, at, keep)[idx := Entry(OpHash(env, tx), tx)]
    ensures LogSum(env, logElem, at, keep + [tx]) == LogSum(env, logElem, at, keep) + logElem(idx, OpHash(env, tx))
    decreases |keep|
  {
    var ks := keep + [tx];
    if keep == [] {
      assert ks[1..] == [];
    } else {
      assert ks[1..] == keep[1..] + [tx];
      LoggedSnoc(env, logElem, entries[at + 1 := Entry(OpHash(env, keep[0]), keep[0])], at + 1, keep[1..], tx, idx);
    }
  }
}
