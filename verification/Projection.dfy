/** What a stack of frozen layers predicts is what the store reaches: `Layer.state_root` and
    `accumulator` of dude/store/layer.py against `_commit` of dude/store/store.py. */
module Projection {
  import opened Bytes
  import opened Ops
  import opened Views
  import opened Smt
  import opened LayerRoot
  import opened Ledger
  import L = Layer
  import S = Store

  /** A mutation and the raw transaction it is written under. */
  datatype Change = Change(mutation: Mutation, cred: Bytes)

  /** What one layer was given, in order: a layer may absorb many transactions. */
  type Batch = seq<Change>

  /** The delta a layer has after applying its mutations in order. */
  function DeltaOf(delta: Delta, b: Batch): Delta
    decreases |b|
  {
    if b == [] then delta else DeltaOf(delta[b[0].mutation.Target() := Written(b[0].mutation, b[0].cred)], b[1..])
  }

  function ApplyBatch(live: Live, b: Batch): Live
    decreases |b|
  {
    if b == [] then live else ApplyBatch(ApplyOne(live, b[0].mutation, b[0].cred), b[1..])
  }

  lemma {:induction false} DeltaShows(base: Live, delta: Delta, b: Batch)
    ensures Patch(base, DeltaOf(delta, b)) == ApplyBatch(Patch(base, delta), b)
    decreases |b|
  {
    if b != [] {
      PatchWrite(base, delta, b[0].mutation, b[0].cred);
      DeltaShows(base, delta[b[0].mutation.Target() := Written(b[0].mutation, b[0].cred)], b[1..]);
    }
  }

  /** What an accumulator adds up: nothing for no rows, and for each row the element of its key, its
      value and its epoch. */
  lemma AccumulatorIs(elem: Element, live: Live, k: Key, h: Held)
    requires k !in live
    ensures Sum(elem, map[]) == 0 && Sum(elem, live[k := h]) == Sum(elem, live) + elem(k, h.value, h.epoch)
  {
    SumWrite(elem, live, k, Some(h));
  }

  /** One frozen layer per batch over the store's rows. */
  function Stack(live: Live, bs: seq<Batch>): View {
    if bs == [] then Stored(live) else
      var n := |bs| - 1;
      Over(Stack(live, bs[..n]), DeltaOf(map[], bs[n]))
  }

  function ApplyEach(live: Live, bs: seq<Batch>): Live {
    if bs == [] then live else
      var n := |bs| - 1;
      ApplyBatch(ApplyEach(live, bs[..n]), bs[n])
  }

  /** The stack shows the mutations applied in turn, over the rows it stands on. */
  lemma {:induction false} StackShows(live: Live, bs: seq<Batch>)
    ensures Contents(Stack(live, bs)) == ApplyEach(live, bs) && L.StoredIn(Stack(live, bs)) == live
  {
    if bs != [] {
      var n := |bs| - 1;
      StackShows(live, bs[..n]);
      var below := ApplyEach(live, bs[..n]);
      DeltaShows(below, map[], bs[n]);
      assert Patch(below, map[]) == below;
    }
  }

  ghost predicate Within(b: Batch, keys: set<Key>) { forall i :: 0 <= i < |b| ==> b[i].mutation.Target() in keys }

  ghost predicate AllWithin(bs: seq<Batch>, keys: set<Key>) { forall i :: 0 <= i < |bs| ==> Within(bs[i], keys) }

  lemma {:induction false} DeltaWithin(delta: Delta, b: Batch, keys: set<Key>)
    requires delta.Keys <= keys && Within(b, keys)
    ensures DeltaOf(delta, b).Keys <= keys
    decreases |b|
  {
    if b != [] { DeltaWithin(delta[b[0].mutation.Target() := Written(b[0].mutation, b[0].cred)], b[1..], keys); }
  }

  lemma {:induction false} StackWithin(live: Live, bs: seq<Batch>, keys: set<Key>)
    requires live.Keys <= keys && AllWithin(bs, keys)
    ensures KeysOf(Stack(live, bs)) <= keys
  {
    if bs != [] {
      var n := |bs| - 1;
      StackWithin(live, bs[..n], keys);
      DeltaWithin(map[], bs[n], keys);
    }
  }

  /** The root a stack predicts is the root of the rows its mutations lead to, and computing it
      raises exactly when one of those rows does not fit. */
  lemma StackRoot(pathOf: Key -> Path, live: Live, bs: seq<Batch>, keys: set<Key>)
    requires NoCollision(pathOf, keys) && live.Keys <= keys && AllWithin(bs, keys)
    ensures NoCollision(pathOf, KeysOf(Stack(live, bs))) && NoCollision(pathOf, ApplyEach(live, bs).Keys)
    ensures LayerHash(pathOf, Stack(live, bs), Top(), 0) == Root(RowsOf(pathOf, ApplyEach(live, bs)))
    ensures LayerFits(pathOf, Stack(live, bs), Top(), 0) <==> Fits(ApplyEach(live, bs))
  {
    StackShows(live, bs);
    StackWithin(live, bs, keys);
    L.NoCollisionWithin(pathOf, KeysOf(Stack(live, bs)), keys);
    ViewRoot(pathOf, Stack(live, bs));
  }

  lemma ViewRoot(pathOf: Key -> Path, v: View)
    requires NoCollision(pathOf, KeysOf(v))
    ensures NoCollision(pathOf, Contents(v).Keys)
    ensures LayerHash(pathOf, v, Top(), 0) == Root(RowsOf(pathOf, Contents(v)))
    ensures LayerFits(pathOf, v, Top(), 0) <==> Fits(Contents(v))
  {
    TopPadded();
    LayerHashIsTreeHash(pathOf, v, Top(), 0);
    LayerFitsIs(pathOf, v, Top(), 0);
    FitsByPath(pathOf, Contents(v));
  }

  /** The database takes every row the batches write. */
  ghost predicate BatchBinds(b: Batch) { forall i :: 0 <= i < |b| ==> WriteBinds(b[i].mutation) }

  ghost predicate EachBinds(bs: seq<Batch>) { forall i :: 0 <= i < |bs| ==> BatchBinds(bs[i]) }

  /** Committing one batch, mutation by mutation; `None` where the database refuses one. */
  method CommitBatch(store: S.Store, b: Batch, acc0: int) returns (r: Option<int>)
    requires store.Valid() && Within(b, store.universe)
    modifies store`live, store.tree
    ensures store.Valid() && (r.Some? <==> BatchBinds(b))
    ensures r.Some? ==>
              store.live == ApplyBatch(old(store.live), b) &&
              r.value == acc0 - Sum(store.elem, old(store.live)) + Sum(store.elem, store.live)
  {
    ghost var before := store.live;
    var acc := acc0;
    assert b[0..] == b;
    for i := 0 to |b|
      invariant store.Valid() && ApplyBatch(store.live, b[i..]) == ApplyBatch(before, b)
      invariant acc == acc0 - Sum(store.elem, before) + Sum(store.elem, store.live)
      invariant forall j :: 0 <= j < i ==> WriteBinds(b[j].mutation)
    {
      assert b[i..][0] == b[i] && b[i..][1..] == b[i + 1..];
      var next := store.CommitOne(b[i].mutation, b[i].cred, acc);
      if next.None? { return None; }
      acc := next.value;
    }
    r := Some(acc);
  }

  /** What a stack computes as `state_root`: `None` where it raises. */
  ghost function StackResult(pathOf: Key -> Path, v: View): Option<Digest>
    requires NoCollision(pathOf, KeysOf(v))
  {
    if LayerFits(pathOf, v, Top(), 0) then Some(LayerHash(pathOf, v, Top(), 0)) else None
  }

  lemma StackResultIs(pathOf: Key -> Path, live: Live, bs: seq<Batch>, keys: set<Key>)
    requires NoCollision(pathOf, keys) && live.Keys <= keys && AllWithin(bs, keys)
    ensures NoCollision(pathOf, KeysOf(Stack(live, bs))) && NoCollision(pathOf, ApplyEach(live, bs).Keys)
    ensures StackResult(pathOf, Stack(live, bs)) == RootResult(pathOf, ApplyEach(live, bs))
  {
    StackRoot(pathOf, live, bs, keys);
  }

  /** The first `i` batches are in, and the accumulator has moved by the difference. */
  ghost predicate Upto(elem: Element, before: Live, acc0: int, bs: seq<Batch>, i: nat, live: Live, acc: int)
    requires i <= |bs|
  {
    live == ApplyEach(before, bs[..i]) && acc == acc0 - Sum(elem, before) + Sum(elem, live) && EachBinds(bs[..i])
  }

  lemma UptoNext(elem: Element, before: Live, acc0: int, bs: seq<Batch>, i: nat, live: Live, acc: int, next: Live,
                 acc1: int)
    requires i < |bs| && Upto(elem, before, acc0, bs, i, live, acc) && BatchBinds(bs[i])
    requires next == ApplyBatch(live, bs[i]) && acc1 == acc - Sum(elem, live) + Sum(elem, next)
    ensures Upto(elem, before, acc0, bs, i + 1, next, acc1)
  {
    assert bs[..i + 1][..i] == bs[..i];
  }

  lemma UptoAll(elem: Element, before: Live, acc0: int, bs: seq<Batch>, live: Live, acc: int)
    requires Upto(elem, before, acc0, bs, |bs|, live, acc)
    ensures live == ApplyEach(before, bs) && acc == acc0 - Sum(elem, before) + Sum(elem, live) && EachBinds(bs)
  {
    assert bs[..|bs|] == bs;
  }

  method CommitBatches(store: S.Store, bs: seq<Batch>) returns (r: Option<int>)
    requires store.Valid() && AllWithin(bs, store.universe)
    modifies store`live, store.tree
    ensures store.Valid() && (r.Some? <==> EachBinds(bs))
    ensures r.Some? ==>
              store.live == ApplyEach(old(store.live), bs) &&
              r.value == store.acc - Sum(store.elem, old(store.live)) + Sum(store.elem, store.live)
  {
    ghost var before := store.live;
    var acc := store.acc;
    for i := 0 to |bs|
      invariant store.Valid() && Upto(store.elem, before, store.acc, bs, i, store.live, acc)
    {
      ghost var live := store.live;
      var next := CommitBatch(store, bs[i], acc);
      if next.None? { return None; }
      UptoNext(store.elem, before, store.acc, bs, i, live, acc, store.live, next.value);
      acc := next.value;
    }
    UptoAll(store.elem, before, store.acc, bs, store.live, acc);
    r := Some(acc);
  }

  /** Committing the same batches takes the store to the predicted root and accumulator. */
  method CommitEach(store: S.Store, bs: seq<Batch>) returns (done: bool, root: Option<Digest>, acc: int)
    requires store.Valid() && AllWithin(bs, store.universe)
    modifies store`live, store.tree
    ensures store.Valid() && (done <==> EachBinds(bs))
    ensures done ==> store.live == ApplyEach(old(store.live), bs)
    ensures var v := Stack(old(store.live), bs);
            NoCollision(store.pathOf, KeysOf(v)) &&
            (done ==> root == StackResult(store.pathOf, v) &&
                      acc == store.acc - Sum(store.elem, L.StoredIn(v)) + Sum(store.elem, Contents(v)))
  {
    StackShows(store.live, bs);
    StackResultIs(store.pathOf, store.live, bs, store.universe);
    var r := CommitBatches(store, bs);
    if r.None? { return false, None, 0; }
    root := store.StateRoot();
    done, acc := true, r.value;
  }

  /** And that is the accumulator the stack itself computes. */
  method PredictThenCommit(store: S.Store, bs: seq<Batch>) returns (predicted: int, done: bool, reached: int)
    requires store.Valid() && AllWithin(bs, store.universe)
    modifies store`live, store.tree
    ensures store.Valid() && (done <==> EachBinds(bs))
    ensures done ==> store.live == ApplyEach(old(store.live), bs) && predicted == reached
  {
    predicted := L.StackAccumulator(store.elem, Stack(store.live, bs), store.acc);
    var root;
    done, root, reached := CommitEach(store, bs);
  }
}
