/** From preview to settlement: `_promote_to_settling`, `_do_settled` and `_expect_anchors` of
    dude/consensus/coordinator.py, which sign what `Layer` predicts and check what the store
    reached. */
module Promotion {
  import opened Bytes
  import opened Ops
  import opened Views
  import opened Smt
  import opened Settle
  import opened LayerRoot
  import opened Ledger
  import O = Overlay
  import L = Layer
  import S = Store

  datatype Anchors = Anchors(blockNum: int, height: int, prevBlock: Bytes, stateRoot: Digest, accState: int,
      accLog: int)

  ghost function RootOf(pathOf: Key -> Path, live: Live): Digest {
    if NoCollision(pathOf, live.Keys) then Root(RowsOf(pathOf, live)) else Empty
  }

  /** `a` is what previewing `batch` over the tables `s` gives, with nothing rejected. */
  ghost predicate IsPreview(env: Env, pathOf: Key -> Path, elem: Element, logElem: LogElement, s: State,
      batch: seq<Signed>, a: Anchors) {
    var screened, head := Screen(env, s.live, {}, batch), Head(s.entries, s.floor);
    screened.Screened? && screened.keep == batch && screened.drop == [] && Fits(screened.live) &&
    a.height == head + |batch| &&
    a.stateRoot == RootOf(pathOf, screened.live) &&
    a.accState == s.acc - Sum(elem, s.live) + Sum(elem, screened.live) &&
    a.accLog == s.accLog + LogSum(env, logElem, head, batch)
  }

  /** What a preview comes to: the anchors, a transaction it rejects, or an exception, from the
      evaluator or from hashing a row that does not fit. */
  datatype Preview = Previewed(anchors: Anchors) | Rejecting | Throws

  ghost predicate PreviewPasses(env: Env, live: Live, batch: seq<Signed>) {
    var screened := Screen(env, live, {}, batch);
    screened.Screened? && screened.drop == [] && Fits(screened.live)
  }

  ghost predicate PreviewThrows(env: Env, live: Live, batch: seq<Signed>) {
    var screened := Screen(env, live, {}, batch);
    screened.Crashed? || (screened.drop == [] && !Fits(screened.live))
  }

  /** `_expect_anchors` passes: the root can be computed and all four agree. */
  ghost predicate Meets(pathOf: Key -> Path, t: State, a: Anchors) {
    Head(t.entries, t.floor) == a.height && Fits(t.live) && RootOf(pathOf, t.live) == a.stateRoot &&
    t.acc == a.accState && t.accLog == a.accLog
  }

  ghost predicate NoneLogged(env: Env, s: State, batch: seq<Signed>) {
    forall i :: 0 <= i < |batch| ==> OpHash(env, batch[i]) !in SettledHashes(s.entries)
  }

  lemma {:induction false} KeepsFewer(env: Env, live: Live, seen: set<Bytes>, batch: seq<Signed>)
    requires Screen(env, live, seen, batch).Screened?
    ensures |Screen(env, live, seen, batch).keep| <= |batch|
    ensures (exists i :: 0 <= i < |batch| && OpHash(env, batch[i]) in seen) ==>
            |Screen(env, live, seen, batch).keep| < |batch|
    decreases |batch|
  {
    if batch != [] {
      var tx, hash := batch[0], OpHash(env, batch[0]);
      if hash !in seen && Evaluate(env, live, tx).Pass? {
        var next := ApplyAll(live, Evaluate(env, live, tx).mutations, env.raw(tx));
        KeepsFewer(env, next, seen + {hash}, batch[1..]);
        if i :| 0 <= i < |batch| && OpHash(env, batch[i]) in seen { assert batch[1..][i - 1] == batch[i]; }
      } else {
        KeepsFewer(env, live, seen, batch[1..]);
      }
    }
  }

  /** A block settled on the tables it was previewed on reaches its signed anchors exactly when
      none of its transactions was already in the log. */
  lemma PreviewIsSettlement(env: Env, pathOf: Key -> Path, elem: Element, logElem: LogElement, s: State,
                            num: int, hash: Bytes, batch: seq<Signed>, a: Anchors)
    requires IsPreview(env, pathOf, elem, logElem, s, batch, a)
    requires CommitBlock(env, elem, logElem, s, num, hash, batch).Committed?
    ensures Meets(pathOf, CommitBlock(env, elem, logElem, s, num, hash, batch).state, a) <==> NoneLogged(env, s, batch)
  {
    var seen := SettledHashes(s.entries);
    var t := CommitBlock(env, elem, logElem, s, num, hash, batch).state;
    CommitExtends(env, elem, logElem, s, num, hash, batch);
    var keep := Screen(env, s.live, seen, batch).keep;
    HeadBounds(s.entries, s.floor);
    HeadAfter(env, s, Head(s.entries, s.floor), keep);
    KeepsFewer(env, s.live, seen, batch);
    if NoneLogged(env, s, batch) {
      FreshIsAll(env, seen, batch);
      SettledAreIgnored(env, s.live, {}, seen, batch);
      assert {} + seen == seen;
    }
  }

  /** Preview a batch, freeze, and compute the anchors to sign: what `_promote_to_settling` and
      `_preview_matches_signed_anchors` share. */
  method PreviewOf(store: S.Store, env: Env, batch: seq<Signed>, prevBlock: Bytes, blockNum: int)
      returns (r: Preview)
    requires store.Valid() && forall i :: 0 <= i < |batch| ==> Targets(batch[i], store.universe)
    modifies store.tree`memo
    ensures store.Valid()
    ensures r.Previewed? <==> PreviewPasses(env, store.live, batch)
    ensures r.Throws? <==> PreviewThrows(env, store.live, batch)
    ensures r.Previewed? ==>
              IsPreview(env, store.pathOf, store.elem, store.logElem, store.Tables(), batch, r.anchors) &&
              r.anchors.prevBlock == prevBlock && r.anchors.blockNum == blockNum
  {
    var layer := new L.Layer(store.pathOf, store.elem, store.tree, store.live, store.acc);
    var crashed, applied, rejects := O.ApplyTo(env, layer.over, batch, store.universe);
    if crashed { return Throws; }
    if rejects != [] { return Rejecting; }
    layer.over.Freeze();
    AllKept(env, store.live, {}, batch);
    L.NoCollisionWithin(store.pathOf, store.live.Keys + layer.over.delta.Keys, store.universe);
    var baseHead := store.HeadOf();
    var accLog := LogAfter(env, store.logElem, baseHead, applied, store.accLog);
    var root := layer.StateRoot();
    if root.None? { return Throws; }
    var acc := layer.Accumulator();
    r := Previewed(Anchors(blockNum, baseHead + |applied|, prevBlock, root.value, acc, accLog));
  }

  /** `_promote_to_settling` from the screened slice on, for the next block. A rejected transaction
      drops the promotion; an exception leaves it. */
  method Promote(store: S.Store, env: Env, batch: seq<Signed>, prevBlock: Bytes) returns (r: Preview)
    requires store.Valid() && forall i :: 0 <= i < |batch| ==> Targets(batch[i], store.universe)
    modifies store.tree`memo
    ensures store.Valid()
    ensures r.Previewed? <==> PreviewPasses(env, store.live, batch)
    ensures r.Throws? <==> PreviewThrows(env, store.live, batch)
    ensures r.Previewed? ==>
              IsPreview(env, store.pathOf, store.elem, store.logElem, store.Tables(), batch, r.anchors) &&
              r.anchors.prevBlock == prevBlock && r.anchors.blockNum == HeadNum(store.blocks) + 1
  {
    var last := S.HeadNumOf(store.blocks);
    r := PreviewOf(store, env, batch, prevBlock, last + 1);
  }

  /** Nothing rejected means everything kept. */
  lemma {:induction false} AllKept(env: Env, live: Live, seen: set<Bytes>, batch: seq<Signed>)
    requires Screen(env, live, seen, batch).Screened? && Screen(env, live, seen, batch).drop == []
    ensures Screen(env, live, seen, batch).keep == batch
    decreases |batch|
  {
    if batch != [] {
      var tx, hash := batch[0], OpHash(env, batch[0]);
      assert hash !in seen && Evaluate(env, live, tx).Pass?;
      AllKept(env, ApplyAll(live, Evaluate(env, live, tx).mutations, env.raw(tx)), seen + {hash}, batch[1..]);
      assert batch == [tx] + batch[1..];
    }
  }

  method LogAfter(env: Env, logElem: LogElement, head: int, applied: seq<Signed>, start: int) returns (accLog: int)
    ensures accLog == start + LogSum(env, logElem, head, applied)
  {
    accLog := start;
    assert applied[0..] == applied;
    for i := 0 to |applied|
      invariant accLog + LogSum(env, logElem, head + i, applied[i..]) == start + LogSum(env, logElem, head, applied)
    {
      assert applied[i..][0] == applied[i] && applied[i..][1..] == applied[i + 1..];
      accLog := accLog + logElem(head + i + 1, OpHash(env, applied[i]));
    }
  }

  /** `_expect_anchors`: true where the source does not raise. */
  method ExpectAnchors(signed: Anchors, store: S.Store) returns (ok: bool)
    requires store.Valid()
    modifies store.tree`memo
    ensures store.Valid() && ok == Meets(store.pathOf, store.Tables(), signed)
  {
    var head := store.HeadOf();
    if head != signed.height { return false; }
    var root := store.StateRoot();
    ok := root.Some? && root.value == signed.stateRoot && store.acc == signed.accState &&
      store.accLog == signed.accLog;
  }

  ghost predicate HashIsNew(blocks: map<int, BlockRow>, hash: Bytes) {
    forall b :: b in blocks ==> blocks[b].hash != hash
  }

  /** `_do_settled` while the store stands where it stood at promotion. The block is numbered next,
      so it is neither a repeat nor a fork; it commits as the tables say, and then the check on the
      anchors passes exactly when no transaction of it was already in the log. With none logged and
      a new hash it commits exactly when the database takes all it writes. */
  method DoSettled(store: S.Store, env: Env, batch: seq<Signed>, hash: Bytes, signed: Anchors)
      returns (committed: bool, ok: bool)
    requires store.Valid() && forall i :: 0 <= i < |batch| ==> Targets(batch[i], store.universe)
    requires IsPreview(env, store.pathOf, store.elem, store.logElem, store.Tables(), batch, signed)
    requires signed.blockNum == HeadNum(store.blocks) + 1
    modifies store, store.tree
    ensures store.Valid()
    ensures var commit := CommitBlock(env, store.elem, store.logElem, old(store.Tables()), signed.blockNum, hash,
            batch);
            if commit.Committed?
            then committed && store.Tables() == commit.state && ok == NoneLogged(env, old(store.Tables()), batch)
            else commit == Aborted && !committed && !ok && store.Tables() == old(store.Tables())
    ensures NoneLogged(env, old(store.Tables()), batch) && HashIsNew(old(store.blocks), hash) ==>
              (committed <==> KeptBind(env, old(store.live), {}, batch)) && (committed ==> ok)
  {
    ghost var before := store.Tables();
    HeadNumBounds(store.blocks);
    ok := false;
    if NoneLogged(env, before, batch) && HashIsNew(store.blocks, hash) {
      CommitsUnmoved(env, store.pathOf, store.elem, store.logElem, before, signed.blockNum, hash, batch, signed);
    }
    committed := store.CommitBlockAt(env, signed.blockNum, hash, batch);
    if !committed { return; }
    PreviewIsSettlement(env, store.pathOf, store.elem, store.logElem, before, signed.blockNum, hash, batch, signed);
    ok := ExpectAnchors(signed, store);
  }

  lemma CommitsUnmoved(env: Env, pathOf: Key -> Path, elem: Element, logElem: LogElement, s: State,
                       num: int, hash: Bytes, batch: seq<Signed>, a: Anchors)
    requires IsPreview(env, pathOf, elem, logElem, s, batch, a) && NoneLogged(env, s, batch)
    requires num !in s.blocks && HashIsNew(s.blocks, hash)
    ensures CommitBlock(env, elem, logElem, s, num, hash, batch) == Aborted <==> !KeptBind(env, s.live, {}, batch)
    ensures CommitBlock(env, elem, logElem, s, num, hash, batch).Committed? <==> KeptBind(env, s.live, {}, batch)
  {
    SettlingIs(env, s.live, SettledHashes(s.entries), batch);
    KeptBindFresh(env, s.live, {}, SettledHashes(s.entries), batch);
    var seen := SettledHashes(s.entries);
    FreshIsAll(env, seen, batch);
    SettledAreIgnored(env, s.live, {}, seen, batch);
    assert {} + seen == seen;
  }
}
