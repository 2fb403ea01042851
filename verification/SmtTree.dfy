/** `Tree` of dude/store/smt.py as it runs: the live rows by path, and the `smt_memo` table that
    caches branch hashes. */
module SmtTree {
  import opened Bytes
  import opened Ops
  import opened Smt

  type Memo = map<(nat, Path), Digest>

  /** Every memo row is keyed by a zero-padded prefix and equals the pure hash below it, which did
      not raise. */
  ghost predicate Coherent(rows: Rows, memo: Memo) {
    forall d, p :: (d, p) in memo ==>
      d <= MAX_DEPTH && p == Lo(p, d) && FitsUnder(rows, p, d) && memo[(d, p)] == HashUnder(rows, p, d)
  }

  /** `memo` without the rows on the way to `path`. */
  ghost predicate ForgetsWay(before: Memo, after: Memo, path: Path) {
    (forall k :: k in after ==> k in before && after[k] == before[k]) &&
    (forall d: nat :: d <= MAX_DEPTH ==> (d, Lo(path, d)) !in after)
  }

  /** Forgetting the way to a path keeps the memo true when the row at that path changes. */
  lemma ForgetKeepsCoherent(rows: Rows, changed: Rows, before: Memo, after: Memo, path: Path)
    requires Coherent(rows, before) && ForgetsWay(before, after, path)
    requires forall q :: q != path ==> (q in rows <==> q in changed) && (q in rows ==> rows[q] == changed[q])
    ensures Coherent(changed, after)
  {
    forall d, p | (d, p) in after
      ensures d <= MAX_DEPTH && p == Lo(p, d) && FitsUnder(changed, p, d) && after[(d, p)] == HashUnder(changed, p, d)
    {
      assert (d, p) in before;
      assert !Under(path, p, d) by { if Under(path, p, d) { SamePrefix(p, path, d); } }
      HashLocal(rows, changed, p, d);
    }
  }

  class Tree {
    var rows: Rows
    var memo: Memo
    const memoize: bool

    ghost predicate Valid()
      reads this
    {
      Coherent(rows, memo)
    }

    constructor (memoize: bool)
      ensures Valid() && rows == map[] && memo == map[] && this.memoize == memoize
    {
      this.memoize := memoize;
      rows := map[];
      memo := map[];
    }

    ghost predicate IsLeaf(leaf: (Path, Digest), path: Path, depth: nat)
      requires depth <= MAX_DEPTH
      reads this
    {
      leaf.0 in rows && Under(leaf.0, path, depth) && RowFits(rows[leaf.0]) && leaf.1 == LeafOf(leaf.0, rows[leaf.0])
    }

    /** At most two of the rows within `bounds(path, depth)`, with their leaf hashes; `None` where
        one of them does not fit. */
    method Leaves(path: Path, depth: nat) returns (r: Option<seq<(Path, Digest)>>)
      requires depth <= MAX_DEPTH
      ensures r.None? ==> !FitsUnder(rows, path, depth)
      ensures r.Some? ==> IsLeaves(r.value, path, depth)
    {
      var found: seq<(Path, Digest)> := [];
      var todo := rows.Keys;
      ghost var seen: set<Path> := {};
      while todo != {} && |found| < 2
        invariant todo <= rows.Keys && |found| <= 2 && seen !! todo
        invariant forall q :: q in rows && Under(q, path, depth) ==> q in todo || q in seen
        invariant forall i :: 0 <= i < |found| ==> IsLeaf(found[i], path, depth)
        invariant |found| == 0 ==> seen == {}
        invariant |found| == 1 ==> seen == {found[0].0}
        invariant |found| == 2 ==> found[0].0 != found[1].0
        decreases |todo|
      {
        var q :| q in todo;
        todo := todo - {q};
        if Under(q, path, depth) {
          if !RowFits(rows[q]) { return None; }
          found := found + [(q, LeafOf(q, rows[q]))];
          seen := seen + {q};
        }
      }
      assert |found| >= 1 ==> IsLeaf(found[0], path, depth);
      assert |found| == 2 ==> IsLeaf(found[1], path, depth);
      r := Some(found);
    }

    /** Two different rows of the range, or all there are. */
    ghost predicate IsLeaves(found: seq<(Path, Digest)>, path: Path, depth: nat)
      requires depth <= MAX_DEPTH
      reads this
    {
      |found| <= 2 && (found == [] <==> NoneUnder(rows, path, depth)) &&
      (|found| <= 1 <==> AtMostOne(rows, path, depth)) &&
      (forall i :: 0 <= i < |found| ==> IsLeaf(found[i], path, depth)) &&
      (|found| == 2 ==> found[0].0 != found[1].0)
    }

    /** `hash_under`: the memo answers, or one level is computed and remembered. It raises exactly
        when some row below the prefix does not fit, memo or no memo. */
    method HashOf(path: Path, depth: nat) returns (r: Option<Digest>)
      requires Valid() && depth <= MAX_DEPTH
      modifies this`memo
      ensures Valid() && r == HashResult(rows, path, depth)
      decreases MAX_DEPTH - depth, 0
    {
      var lo := Lo(path, depth);
      SameUnderLo(rows, path, depth);
      if (depth, lo) in memo { return Some(memo[(depth, lo)]); }
      var found := Leaves(path, depth);
      if found.None? { return None; }
      if found.value == [] { return Some(Empty); }
      if |found.value| == 1 {
        OneLeaf(rows, path, depth);
        return Some(found.value[0].1);
      }
      FullDepth(rows, path);
      r := HashSides(path, depth);
      if r.Some? && memoize { memo := memo[(depth, lo) := r.value]; }
    }

    /** Both sides of a branch. */
    method HashSides(path: Path, depth: nat) returns (r: Option<Digest>)
      requires Valid() && depth < MAX_DEPTH && !AtMostOne(rows, path, depth)
      modifies this`memo
      ensures Valid() && r == HashResult(rows, path, depth)
      decreases MAX_DEPTH - depth - 1, 1
    {
      var left, right := Lo(path, depth + 1), Lo(Flip(path, depth), depth + 1);
      if path[depth] { left, right := right, left; }
      SidesAreChildren(path, depth);
      FitsSplit(rows, path, depth);
      var l := HashOf(left, depth + 1);
      if l.None? { return None; }
      var r1 := HashOf(right, depth + 1);
      if r1.None? { return None; }
      TreeBranch(rows, path, depth);
      r := Some(Branch(depth, Lo(path, depth), l.value, r1.value));
    }

    method RootOf() returns (r: Option<Digest>)
      requires Valid()
      modifies this`memo
      ensures Valid() && r == HashResult(rows, Top(), 0)
    {
      r := HashOf(Top(), 0);
    }

    method Invalidate(path: Path)
      requires Valid()
      modifies this`memo
      ensures Valid() && ForgetsWay(old(memo), memo, path)
    {
      ghost var before := memo;
      for d := 0 to MAX_DEPTH + 1
        invariant forall k :: k in memo ==> k in before && memo[k] == before[k]
        invariant forall e: nat :: e < d ==> (e, Lo(path, e)) !in memo
      {
        memo := memo - {(d, Lo(path, d))};
      }
    }

    /** `INSERT OR REPLACE INTO live`, after the way to the row has been invalidated. */
    method Put(path: Path, held: Held)
      requires Valid()
      modifies this
      ensures Valid() && rows == old(rows)[path := held]
    {
      ghost var before := memo;
      Invalidate(path);
      ForgetKeepsCoherent(rows, rows[path := held], before, memo, path);
      rows := rows[path := held];
    }

    /** `DELETE FROM live`, after the way to the row has been invalidated. */
    method Remove(path: Path)
      requires Valid()
      modifies this
      ensures Valid() && rows == old(rows) - {path}
    {
      ghost var before := memo;
      Invalidate(path);
      ForgetKeepsCoherent(rows, rows - {path}, before, memo, path);
      rows := rows - {path};
    }

    /** `reset_for_checkpoint` empties both tables. */
    method Reset()
      modifies this
      ensures Valid() && rows == map[] && memo == map[]
    {
      rows := map[];
      memo := map[];
    }

    /** `prove`: the sibling at each level until at most one row is left. Between them the siblings
        and the last leaves cover the tree, so it raises exactly when some row does not fit. */
    method ProofOf(path: Path) returns (r: Option<Proof>)
      requires Valid()
      modifies this`memo
      ensures Valid() && r == if FitsUnder(rows, path, 0) then Some(Prove(rows, path)) else None
    {
      var siblings: seq<Digest> := [];
      var depth := 0;
      while depth < MAX_DEPTH
        invariant Valid() && Descended(rows, path, depth, siblings)
        invariant FitsBeside(rows, path, depth) && (depth == MAX_DEPTH && path in rows ==> RowFits(rows[path]))
      {
        var found := Leaves(path, depth);
        FitsFromBeside(rows, path, depth);
        if found.None? { return None; }
        if |found.value| <= 1 {
          var occupant := if found.value == [] then None else Some(found.value[0]);
          ProveIs(rows, path, depth, siblings, occupant);
          return Some(Proof(siblings, occupant));
        }
        var sib := HashOf(Flip(path, depth), depth + 1);
        FitsBesideNext(rows, path, depth);
        if sib.None? { return None; }
        if depth == MAX_DEPTH - 1 { OneIsPath(path, found.value[0].0, found.value[1].0); }
        DescendOne(rows, path, depth, siblings, sib.value);
        siblings := siblings + [sib.value];
        depth := depth + 1;
      }
      FitsFromBeside(rows, path, depth);
      ProveIs(rows, path, depth, siblings, None);
      return Some(Proof(siblings, None));
    }
  }

  /** Every row outside the prefix fits. */
  ghost predicate FitsBeside(rows: Rows, path: Path, depth: nat)
    requires depth <= MAX_DEPTH
  {
    forall q :: q in rows && !Under(q, path, depth) ==> RowFits(rows[q])
  }

  lemma FitsFromBeside(rows: Rows, path: Path, depth: nat)
    requires depth <= MAX_DEPTH && FitsBeside(rows, path, depth)
    ensures FitsUnder(rows, path, 0) <==> FitsUnder(rows, path, depth)
    ensures depth == MAX_DEPTH ==> (FitsUnder(rows, path, depth) <==> (path in rows ==> RowFits(rows[path])))
  {
    assert forall q: Path :: Under(q, path, 0);
    forall q: Path ensures Under(q, path, MAX_DEPTH) <==> q == path {
      assert q[..MAX_DEPTH] == q && path[..MAX_DEPTH] == path;
    }
  }

  lemma FitsBesideNext(rows: Rows, path: Path, depth: nat)
    requires depth < MAX_DEPTH && FitsBeside(rows, path, depth)
    ensures FitsUnder(rows, path, depth) ==> FitsUnder(rows, Flip(path, depth), depth + 1)
    ensures FitsUnder(rows, Flip(path, depth), depth + 1) ==> FitsBeside(rows, path, depth + 1)
  {
    forall q: Path
      ensures Under(q, path, depth) <==> Under(q, path, depth + 1) || Under(q, Flip(path, depth), depth + 1)
    {
      UnderSplit(q, path, depth);
    }
  }

  /** Of two rows that share 255 bits with a path, one is the path's own. */
  lemma OneIsPath(path: Path, q: Path, r: Path)
    requires Under(q, path, MAX_DEPTH - 1) && Under(r, path, MAX_DEPTH - 1) && q != r
    ensures path == q || path == r
  {
    var n := MAX_DEPTH - 1;
    assert q == path[..n] + [q[n]] && r == path[..n] + [r[n]] && path == path[..n] + [path[n]];
    assert path[n] == q[n] || path[n] == r[n];
  }

  lemma SameUnderLo(rows: Rows, path: Path, depth: nat)
    requires depth <= MAX_DEPTH
    ensures var lo := Lo(path, depth);
            Lo(lo, depth) == lo && HashResult(rows, lo, depth) == HashResult(rows, path, depth)
  {
    UnderLo(path, depth);
    HashSamePrefix(rows, path, Lo(path, depth), depth);
  }

  /** `siblings` are those of the levels above `depth`, each with more than one row below it. */
  ghost predicate Descended(rows: Rows, path: Path, depth: nat, siblings: seq<Digest>) {
    depth <= MAX_DEPTH && |siblings| == depth &&
    forall d :: 0 <= d < depth ==> !AtMostOne(rows, path, d) && siblings[d] == SiblingAt(rows, path, d)
  }

  lemma DescendOne(rows: Rows, path: Path, depth: nat, siblings: seq<Digest>, sib: Digest)
    requires Descended(rows, path, depth, siblings) && depth < MAX_DEPTH
    requires !AtMostOne(rows, path, depth) && sib == HashUnder(rows, Flip(path, depth), depth + 1)
    ensures Descended(rows, path, depth + 1, siblings + [sib])
  {
  }

  lemma ProveIs(rows: Rows, path: Path, k: nat, siblings: seq<Digest>, occupant: Option<(Path, Digest)>)
    requires Descended(rows, path, k, siblings) && (k < MAX_DEPTH ==> AtMostOne(rows, path, k))
    requires occupant.None? ==> k == MAX_DEPTH || NoneUnder(rows, path, k)
    requires occupant.Some? ==> k < MAX_DEPTH && var (q, t) := occupant.value;
               q in rows && Under(q, path, k) && t == LeafOf(q, rows[q])
    ensures Proof(siblings, occupant) == Prove(rows, path)
  {
    var p := Prove(rows, path);
    assert |p.siblings| == k;
    forall d | 0 <= d < k ensures p.siblings[d] == siblings[d] { }
    assert p.siblings == siblings;
    assert p.occupant == OccupantAt(rows, path, k);
    if occupant.Some? {
      var q, r := occupant.value.0, p.occupant.value.0;
      assert r in rows && Under(r, path, k);
      assert q == r;
    }
  }

  lemma SidesAreChildren(path: Path, depth: nat)
    requires depth < MAX_DEPTH
    ensures Lo(path, depth + 1) == Child(path, depth, path[depth])
    ensures Lo(Flip(path, depth), depth + 1) == Child(path, depth, !path[depth])
  {
    assert path[..depth + 1] == path[..depth] + [path[depth]];
    assert Flip(path, depth)[..depth + 1] == path[..depth] + [!path[depth]];
  }

  /** `_fold`: from the deepest sibling back to the root. */
  method Fold(path: Path, terminal: Digest, siblings: seq<Digest>) returns (node: Digest)
    requires |siblings| <= MAX_DEPTH
    ensures node == FoldFrom(path, terminal, siblings, 0)
  {
    node := terminal;
    var depth := |siblings|;
    while depth > 0
      invariant 0 <= depth <= |siblings|
      invariant node == FoldFrom(path, terminal, siblings, depth)
    {
      depth := depth - 1;
      var sib, at := siblings[depth], Lo(path, depth);
      node := if !path[depth] then Branch(depth, at, node, sib) else Branch(depth, at, sib, node);
    }
  }
}
