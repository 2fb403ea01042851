/** `Layer` of dude/store/layer.py as it runs: an overlay over a store's tree that predicts the
    root and the accumulator its delta will lead to. */
module Layer {
  import opened Bytes
  import opened Ops
  import opened Views
  import opened Smt
  import opened SmtTree
  import opened LayerRoot
  import O = Overlay

  type PathDelta = map<Path, Option<Held>>

  /** The delta as `_delta_touches_range` and `_effective_leaves` see it: by path. */
  function ByPath(pathOf: Key -> Path, delta: Delta): PathDelta
    requires NoCollision(pathOf, delta.Keys)
  {
    map k | k in delta :: pathOf(k) := delta[k]
  }

  function PatchRows(base: Rows, delta: PathDelta): Rows {
    map q | q in base.Keys + delta.Keys && (q in delta ==> delta[q].Some?) ::
      if q in delta then delta[q].value else base[q]
  }

  lemma ByPathLookup(pathOf: Key -> Path, delta: Delta, k: Key)
    requires NoCollision(pathOf, delta.Keys + {k})
    ensures NoCollision(pathOf, delta.Keys)
    ensures pathOf(k) in ByPath(pathOf, delta) <==> k in delta
    ensures k in delta ==> ByPath(pathOf, delta)[pathOf(k)] == delta[k]
  {
    assert forall j :: j in delta ==> j in delta.Keys + {k};
  }

  lemma NoCollisionWithin(pathOf: Key -> Path, keys: set<Key>, all: set<Key>)
    requires NoCollision(pathOf, all) && keys <= all
    ensures NoCollision(pathOf, keys)
  {
  }

  lemma PatchedAt(pathOf: Key -> Path, base: Live, delta: Delta, k: Key)
    requires NoCollision(pathOf, base.Keys + {k}) && NoCollision(pathOf, delta.Keys + {k})
    ensures NoCollision(pathOf, base.Keys) && NoCollision(pathOf, delta.Keys)
    ensures Smt.Get(PatchRows(RowsOf(pathOf, base), ByPath(pathOf, delta)), pathOf(k)) == Lookup(Patch(base, delta), k)
  {
    RowsLookup(pathOf, base, k);
    ByPathLookup(pathOf, delta, k);
  }

  lemma RowAt(pathOf: Key -> Path, live: Live, k: Key)
    requires NoCollision(pathOf, live.Keys + {k})
    ensures NoCollision(pathOf, live.Keys) && Smt.Get(RowsOf(pathOf, live), pathOf(k)) == Lookup(live, k)
  {
    RowsLookup(pathOf, live, k);
  }

  lemma SameAt(pathOf: Key -> Path, base: Live, delta: Delta, all: set<Key>, k: Key)
    requires NoCollision(pathOf, all) && all == base.Keys + delta.Keys && k in all
    ensures NoCollision(pathOf, base.Keys) && NoCollision(pathOf, delta.Keys) &&
            NoCollision(pathOf, Patch(base, delta).Keys)
    ensures Smt.Get(PatchRows(RowsOf(pathOf, base), ByPath(pathOf, delta)), pathOf(k)) ==
            Smt.Get(RowsOf(pathOf, Patch(base, delta)), pathOf(k))
  {
    NoCollisionWithin(pathOf, base.Keys + {k}, all);
    NoCollisionWithin(pathOf, delta.Keys + {k}, all);
    NoCollisionWithin(pathOf, Patch(base, delta).Keys + {k}, all);
    PatchedAt(pathOf, base, delta, k);
    RowAt(pathOf, Patch(base, delta), k);
  }

  lemma NoneAt(pathOf: Key -> Path, base: Live, delta: Delta, q: Path)
    requires NoCollision(pathOf, base.Keys) && NoCollision(pathOf, delta.Keys)
    requires NoCollision(pathOf, Patch(base, delta).Keys)
    requires forall k :: k in base.Keys + delta.Keys ==> pathOf(k) != q
    ensures Smt.Get(PatchRows(RowsOf(pathOf, base), ByPath(pathOf, delta)), q) == None
    ensures Smt.Get(RowsOf(pathOf, Patch(base, delta)), q) == None
  {
  }

  /** Patching by path is patching by key. */
  lemma PatchedRows(pathOf: Key -> Path, base: Live, delta: Delta)
    requires NoCollision(pathOf, base.Keys + delta.Keys)
    ensures NoCollision(pathOf, base.Keys) && NoCollision(pathOf, delta.Keys) &&
            NoCollision(pathOf, Patch(base, delta).Keys)
    ensures PatchRows(RowsOf(pathOf, base), ByPath(pathOf, delta)) == RowsOf(pathOf, Patch(base, delta))
  {
    var all := base.Keys + delta.Keys;
    NoCollisionWithin(pathOf, base.Keys, all);
    NoCollisionWithin(pathOf, delta.Keys, all);
    NoCollisionWithin(pathOf, Patch(base, delta).Keys, all);
    var l, r := PatchRows(RowsOf(pathOf, base), ByPath(pathOf, delta)), RowsOf(pathOf, Patch(base, delta));
    forall q ensures Smt.Get(l, q) == Smt.Get(r, q) {
      if k :| k in all && pathOf(k) == q {
        SameAt(pathOf, base, delta, all, k);
      } else {
        NoneAt(pathOf, base, delta, q);
      }
    }
    SameGets(l, r);
  }

  lemma PatchedRoot(pathOf: Key -> Path, base: Live, delta: Delta)
    requires NoCollision(pathOf, base.Keys + delta.Keys)
    ensures NoCollision(pathOf, base.Keys) && NoCollision(pathOf, delta.Keys) &&
            NoCollision(pathOf, Patch(base, delta).Keys) && Padded(Top(), 0)
    ensures HashResult(PatchRows(RowsOf(pathOf, base), ByPath(pathOf, delta)), Top(), 0) ==
            RootResult(pathOf, Patch(base, delta))
  {
    PatchedRows(pathOf, base, delta);
    RootIs(pathOf, Patch(base, delta), PatchRows(RowsOf(pathOf, base), ByPath(pathOf, delta)));
    TopPadded();
  }

  lemma SameGets(l: Rows, r: Rows)
    requires forall q :: Smt.Get(l, q) == Smt.Get(r, q)
    ensures l == r
  {
    forall q ensures q in l <==> q in r { assert Smt.Get(l, q) == Smt.Get(r, q); }
    forall q | q in l ensures l[q] == r[q] { assert Smt.Get(l, q) == Smt.Get(r, q); }
  }

  lemma UntouchedRows(base: Rows, delta: PathDelta, prefix: Path, depth: nat)
    requires depth <= MAX_DEPTH && forall q :: q in delta ==> !Under(q, prefix, depth)
    ensures HashResult(base, prefix, depth) == HashResult(PatchRows(base, delta), prefix, depth)
  {
    HashLocal(base, PatchRows(base, delta), prefix, depth);
  }

  /** `hash_under` over a frozen delta, with its `_smt_memo`. */
  class Hasher {
    const tree: Tree
    const delta: PathDelta
    var memo: Memo

    ghost function Rows(): Rows
      reads tree`rows
    {
      PatchRows(tree.rows, delta)
    }

    ghost predicate Valid()
      reads this, tree
    {
      tree.Valid() && Coherent(Rows(), memo)
    }

    constructor (tree: Tree, delta: PathDelta)
      requires tree.Valid()
      ensures Valid() && this.tree == tree && this.delta == delta
    {
      this.tree, this.delta, memo := tree, delta, map[];
    }

    /** Two of the effective leaves in a range, or all there are. All of them are hashed before two
        are kept, so one that does not fit raises wherever it is. */
    method EffectiveLeaves(prefix: Path, depth: nat) returns (r: Option<seq<(Path, Digest)>>)
      requires depth <= MAX_DEPTH
      ensures r.Some? <==> FitsUnder(Rows(), prefix, depth)
      ensures r.Some? ==> IsEffective(Rows(), prefix, depth, r.value)
    {
      var merged := new Tree(false);
      merged.rows := PatchRows(tree.rows, delta);
      var rows := merged.rows;
      if exists q :: q in rows && Under(q, prefix, depth) && !RowFits(rows[q]) { return None; }
      r := merged.Leaves(prefix, depth);
    }

    /** `hash_under` at a zero-padded prefix. */
    method HashOf(prefix: Path, depth: nat) returns (r: Option<Digest>)
      requires Valid() && depth <= MAX_DEPTH && Padded(prefix, depth)
      modifies this`memo, tree`memo
      ensures Valid() && r == HashResult(Rows(), prefix, depth)
      decreases MAX_DEPTH - depth, 1
    {
      if !exists q :: q in delta && Under(q, prefix, depth) {
        UntouchedRows(tree.rows, delta, prefix, depth);
        r := tree.HashOf(prefix, depth);
        return;
      }
      if (depth, prefix) in memo { return Some(memo[(depth, prefix)]); }
      r := Compute(prefix, depth);
      if r.None? { return; }
      CoherentAdd(Rows(), memo, prefix, depth);
      memo := memo[(depth, prefix) := r.value];
    }

    /** One level from the effective leaves. */
    method Compute(prefix: Path, depth: nat) returns (r: Option<Digest>)
      requires Valid() && depth <= MAX_DEPTH && Padded(prefix, depth)
      modifies this`memo, tree`memo
      ensures Valid() && r == HashResult(Rows(), prefix, depth)
      decreases MAX_DEPTH - depth, 0
    {
      var effective := EffectiveLeaves(prefix, depth);
      if effective.None? { return None; }
      if effective.value == [] { return Some(Empty); }
      if |effective.value| == 1 {
        OneLeaf(Rows(), prefix, depth);
        return Some(effective.value[0].1);
      }
      FullDepth(Rows(), prefix);
      var node := ComputeBranch(prefix, depth);
      r := Some(node);
    }

    method ComputeBranch(prefix: Path, depth: nat) returns (node: Digest)
      requires Valid() && depth < MAX_DEPTH && Padded(prefix, depth)
      requires !AtMostOne(Rows(), prefix, depth) && FitsUnder(Rows(), prefix, depth)
      modifies this`memo, tree`memo
      ensures Valid() && node == HashUnder(Rows(), prefix, depth)
      decreases MAX_DEPTH - depth - 1, 2
    {
      SubCalls(prefix, depth);
      ghost var rows := Rows();
      SidesFit(rows, prefix, depth);
      var left, right := LeftOf(prefix, depth), RightOf(prefix, depth);
      var l := HashOf(left, depth + 1);
      assert Rows() == rows;
      var r := HashOf(right, depth + 1);
      assert Rows() == rows;
      Branched(rows, prefix, depth, l.value, r.value);
      node := Branch(depth, Lo(prefix, depth), l.value, r.value);
    }
  }

  ghost predicate IsEffective(rows: Rows, prefix: Path, depth: nat, found: seq<(Path, Digest)>)
    requires depth <= MAX_DEPTH
  {
    (found == [] <==> NoneUnder(rows, prefix, depth)) && (|found| <= 1 <==> AtMostOne(rows, prefix, depth)) &&
    (|found| == 1 ==>
       found[0].0 in rows && Under(found[0].0, prefix, depth) && found[0].1 == LeafOf(found[0].0, rows[found[0].0]))
  }

  lemma Branched(rows: Rows, prefix: Path, depth: nat, l: Digest, r: Digest)
    requires depth < MAX_DEPTH && !AtMostOne(rows, prefix, depth) && Padded(prefix, depth)
    requires l == HashUnder(rows, LeftOf(prefix, depth), depth + 1)
    requires r == HashUnder(rows, RightOf(prefix, depth), depth + 1)
    ensures HashUnder(rows, prefix, depth) == Branch(depth, Lo(prefix, depth), l, r)
  {
    SubCalls(prefix, depth);
    TreeBranch(rows, prefix, depth);
  }

  /** The two sub-calls at a padded prefix go to its two children, themselves padded. */
  lemma SubCalls(prefix: Path, depth: nat)
    requires depth < MAX_DEPTH && Padded(prefix, depth)
    ensures LeftOf(prefix, depth) == Child(prefix, depth, false) && Padded(LeftOf(prefix, depth), depth + 1)
    ensures RightOf(prefix, depth) == Child(prefix, depth, true) && Padded(RightOf(prefix, depth), depth + 1)
  {
    assert Lo(prefix, depth)[depth] == false;
    PaddedChildren(prefix, depth);
    ChildPadded(prefix, depth, false);
    ChildPadded(prefix, depth, true);
  }

  lemma CoherentAdd(rows: Rows, memo: Memo, prefix: Path, depth: nat)
    requires Coherent(rows, memo) && depth <= MAX_DEPTH && Padded(prefix, depth) && FitsUnder(rows, prefix, depth)
    ensures Coherent(rows, memo[(depth, prefix) := HashUnder(rows, prefix, depth)])
  {
  }

  class Layer {
    const pathOf: Key -> Path
    const elem: Element
    /** The store's tree and accumulator: the base, which must not move while this layer is asked. */
    const tree: Tree
    const baseAcc: int
    const over: O.Overlay

    ghost predicate Valid()
      reads this, tree, over
    {
      NoCollision(pathOf, over.base.Keys + over.delta.Keys) && NoCollision(pathOf, over.base.Keys) &&
      tree.Valid() && tree.rows == RowsOf(pathOf, over.base)
    }

    constructor (pathOf: Key -> Path, elem: Element, tree: Tree, live: Live, acc: int)
      requires NoCollision(pathOf, live.Keys) && tree.Valid() && tree.rows == RowsOf(pathOf, live)
      ensures Valid() && fresh(over) && over.base == live && over.Contents() == live && !over.frozen &&
              over.delta == map[]
      ensures this.pathOf == pathOf && this.elem == elem && this.tree == tree && baseAcc == acc
    {
      this.pathOf, this.elem, this.tree, this.baseAcc := pathOf, elem, tree, acc;
      over := new O.Overlay(live);
      new;
      assert live.Keys + over.delta.Keys == live.Keys;
    }

    /** `state_root`: `None` where a row the layer shows does not fit. */
    method StateRoot() returns (root: Option<Digest>)
      requires Valid()
      modifies tree`memo
      ensures Valid() && NoCollision(pathOf, over.Contents().Keys)
      ensures root == RootResult(pathOf, over.Contents())
    {
      PatchedRoot(pathOf, over.base, over.delta);
      var hasher := new Hasher(tree, ByPath(pathOf, over.delta));
      root := hasher.HashOf(Top(), 0);
    }

    /** The base's accumulator, each key of the delta taken out as it was and put in as it is. */
    method Accumulator() returns (acc: int)
      ensures acc == baseAcc - Sum(elem, over.base) + Sum(elem, over.Contents())
    {
      acc := MovedBy(elem, over.base, over.delta, baseAcc);
    }
  }

  method MovedBy(elem: Element, base: Live, delta: Delta, start: int) returns (acc: int)
    ensures acc == start - Sum(elem, base) + Sum(elem, Patch(base, delta))
  {
    acc := start;
    var todo := delta.Keys;
    O.DoneAll(base, delta);
    while todo != {}
      invariant todo <= delta.Keys
      invariant acc == start - Sum(elem, base) + Sum(elem, Patch(base, O.Done(delta, todo)))
      decreases |todo|
    {
      var k :| k in todo;
      O.DoneOne(base, delta, todo, k);
      SumWrite(elem, Patch(base, O.Done(delta, todo)), k, delta[k]);
      todo := todo - {k};
      var was := Lookup(base, k);
      if was.Some? { acc := acc - elem(k, was.value.value, was.value.epoch); }
      if delta[k].Some? { acc := acc + elem(k, delta[k].value.value, delta[k].value.epoch); }
    }
  }

  function StoredIn(v: View): Live {
    match v
    case Stored(live) => live
    case Over(base, _) => StoredIn(base)
  }

  /** `accumulator` of a stack of frozen layers: whatever the stack shows, the store's accumulator
      has moved by exactly the difference. */
  method StackAccumulator(elem: Element, v: View, storeAcc: int) returns (acc: int)
    ensures acc == storeAcc - Sum(elem, StoredIn(v)) + Sum(elem, LayerRoot.Contents(v))
    decreases v
  {
    match v
    case Stored(_) => acc := storeAcc;
    case Over(base, delta) =>
      var below := StackAccumulator(elem, base, storeAcc);
      acc := MovedBy(elem, LayerRoot.Contents(base), delta, below);
  }
}
