/** The compressed sparse Merkle tree of dude/store/smt.py, over paths of 256 bits.

    Hashes are terms: `leaf_hash` and `branch_hash` are constructors, so they are injective, are
    told apart by their domain and never yield `EMPTY`. */
module Smt {
  import opened Bytes
  import opened Ops

  const MAX_DEPTH := 256

  type Path = p: seq<bool> | |p| == MAX_DEPTH witness seq(MAX_DEPTH, _ => false)

  datatype Hash = Hash(preimage: Bytes)

  datatype Digest =
    | Empty
    | Leaf(path: Path, vhash: Hash, chash: Hash, epoch: int)
    | Branch(depth: nat, prefix: Path, left: Digest, right: Digest)

  /** The `live` table by its path index. */
  type Rows = map<Path, Held>

  const EPOCH_LIMIT := 0x1_0000_0000_0000_0000

  /** `leaf_hash` writes the epoch in eight bytes, and raises for one that needs more or a sign. */
  predicate RowFits(h: Held) { 0 <= h.epoch < EPOCH_LIMIT }

  /** The leaf hash of a row that fits. */
  function LeafOf(p: Path, h: Held): Digest {
    Leaf(p, Hash(h.value), Hash(h.cred), h.epoch)
  }

  /** The low end of `bounds(path, depth)`: the first `depth` bits, zero-padded. */
  function Lo(path: Path, depth: nat): Path
    requires depth <= MAX_DEPTH
  {
    path[..depth] + seq(MAX_DEPTH - depth, _ => false)
  }

  function Flip(path: Path, i: nat): Path
    requires i < MAX_DEPTH
  {
    path[i := !path[i]]
  }

  /** The zero-padded prefix of the child on side `b`. */
  function Child(path: Path, depth: nat, b: bool): Path
    requires depth < MAX_DEPTH
  {
    path[..depth] + [b] + seq(MAX_DEPTH - depth - 1, _ => false)
  }

  /** `q` lies within `bounds(path, depth)`. */
  predicate Under(q: Path, path: Path, depth: nat)
    requires depth <= MAX_DEPTH
  {
    q[..depth] == path[..depth]
  }

  lemma UnderSplit(q: Path, path: Path, depth: nat)
    requires depth < MAX_DEPTH
    ensures Under(q, path, depth + 1) <==> Under(q, path, depth) && q[depth] == path[depth]
    ensures Under(q, Child(path, depth, false), depth + 1) <==> Under(q, path, depth) && !q[depth]
    ensures Under(q, Child(path, depth, true), depth + 1) <==> Under(q, path, depth) && q[depth]
    ensures Under(q, Flip(path, depth), depth + 1) <==> Under(q, path, depth) && q[depth] != path[depth]
  {
    assert q[..depth + 1] == q[..depth] + [q[depth]];
    assert path[..depth + 1] == path[..depth] + [path[depth]];
    assert Child(path, depth, false)[..depth + 1] == path[..depth] + [false];
    assert Child(path, depth, true)[..depth + 1] == path[..depth] + [true];
    assert Flip(path, depth)[..depth + 1] == path[..depth] + [!path[depth]];
  }

  ghost predicate NoneUnder(rows: Rows, path: Path, depth: nat)
    requires depth <= MAX_DEPTH
  {
    forall q :: q in rows ==> !Under(q, path, depth)
  }

  ghost predicate AtMostOne(rows: Rows, path: Path, depth: nat)
    requires depth <= MAX_DEPTH
  {
    forall q, r :: q in rows && r in rows && Under(q, path, depth) && Under(r, path, depth) ==> q == r
  }

  /** Hashing what lies below the prefix raises for none of its rows. */
  ghost predicate FitsUnder(rows: Rows, path: Path, depth: nat)
    requires depth <= MAX_DEPTH
  {
    forall q :: q in rows && Under(q, path, depth) ==> RowFits(rows[q])
  }

  lemma FitsSplit(rows: Rows, path: Path, depth: nat)
    requires depth < MAX_DEPTH
    ensures FitsUnder(rows, path, depth) <==>
              FitsUnder(rows, Child(path, depth, false), depth + 1) &&
              FitsUnder(rows, Child(path, depth, true), depth + 1)
  {
    forall q: Path
      ensures Under(q, path, depth) <==>
                Under(q, Child(path, depth, false), depth + 1) || Under(q, Child(path, depth, true), depth + 1)
    {
      UnderSplit(q, path, depth);
    }
  }

  /** The hash of the rows below a prefix, without any memo: a lone leaf stands for its whole
      subtree. */
  ghost function HashUnder(rows: Rows, path: Path, depth: nat): Digest
    requires depth <= MAX_DEPTH
    decreases MAX_DEPTH - depth
  {
    if NoneUnder(rows, path, depth) then Empty
    else if AtMostOne(rows, path, depth) then
      var q :| q in rows && Under(q, path, depth);
      LeafOf(q, rows[q])
    else
      assert depth < MAX_DEPTH by { FullDepth(rows, path); }
      Branch(depth, Lo(path, depth),
             HashUnder(rows, Child(path, depth, false), depth + 1),
             HashUnder(rows, Child(path, depth, true), depth + 1))
  }

  function Top(): Path { seq(MAX_DEPTH, _ => false) }

  ghost function Root(rows: Rows): Digest { HashUnder(rows, Top(), 0) }

  /** What hashing below a prefix gives: `None` where it raises. */
  ghost function HashResult(rows: Rows, path: Path, depth: nat): Option<Digest>
    requires depth <= MAX_DEPTH
  {
    if FitsUnder(rows, path, depth) then Some(HashUnder(rows, path, depth)) else None
  }

  lemma FullDepth(rows: Rows, path: Path)
    ensures AtMostOne(rows, path, MAX_DEPTH)
  {
    assert forall q: Path :: q[..MAX_DEPTH] == q;
  }

  /** The hash of two or more rows, by its children. */
  lemma TreeBranch(rows: Rows, prefix: Path, depth: nat)
    requires depth < MAX_DEPTH && !AtMostOne(rows, prefix, depth)
    ensures HashUnder(rows, prefix, depth) ==
            Branch(depth, Lo(prefix, depth),
                   HashUnder(rows, Child(prefix, depth, false), depth + 1),
                   HashUnder(rows, Child(prefix, depth, true), depth + 1))
  {
  }

  lemma SamePrefix(path: Path, q: Path, depth: nat)
    requires depth <= MAX_DEPTH && Under(q, path, depth)
    ensures Lo(path, depth) == Lo(q, depth)
    ensures forall r: Path :: Under(r, path, depth) <==> Under(r, q, depth)
    ensures depth < MAX_DEPTH ==> forall b :: Child(path, depth, b) == Child(q, depth, b)
  {
  }

  /** Only the first `depth` bits of the prefix matter. */
  lemma HashSamePrefix(rows: Rows, path: Path, q: Path, depth: nat)
    requires depth <= MAX_DEPTH && Under(q, path, depth)
    ensures HashUnder(rows, path, depth) == HashUnder(rows, q, depth)
  {
    SamePrefix(path, q, depth);
    if !NoneUnder(rows, path, depth) && AtMostOne(rows, path, depth) {
      OneLeaf(rows, path, depth);
      OneLeaf(rows, q, depth);
    }
  }

  lemma OneLeaf(rows: Rows, path: Path, depth: nat)
    requires depth <= MAX_DEPTH && !NoneUnder(rows, path, depth) && AtMostOne(rows, path, depth)
    ensures HashUnder(rows, path, depth).Leaf?
    ensures forall q :: q in rows && Under(q, path, depth) ==> HashUnder(rows, path, depth) == LeafOf(q, rows[q])
  {
  }

  lemma UnderLo(path: Path, depth: nat)
    requires depth <= MAX_DEPTH
    ensures Under(Lo(path, depth), path, depth)
    ensures Lo(Lo(path, depth), depth) == Lo(path, depth)
  {
    assert Lo(path, depth)[..depth] == path[..depth];
  }

  // ------------------------------------------------------------- what a hash depends on

  ghost predicate Agree(r: Rows, s: Rows, path: Path, depth: nat)
    requires depth <= MAX_DEPTH
  {
    forall q :: Under(q, path, depth) ==> (q in r <==> q in s) && (q in r ==> r[q] == s[q])
  }

  lemma AgreeChild(r: Rows, s: Rows, path: Path, depth: nat, b: bool)
    requires depth < MAX_DEPTH && Agree(r, s, path, depth)
    ensures Agree(r, s, Child(path, depth, b), depth + 1)
  {
    forall q | Under(q, Child(path, depth, b), depth + 1)
      ensures (q in r <==> q in s) && (q in r ==> r[q] == s[q])
    {
      UnderSplit(q, path, depth);
    }
  }

  lemma AgreeShape(r: Rows, s: Rows, path: Path, depth: nat)
    requires depth <= MAX_DEPTH && Agree(r, s, path, depth)
    ensures NoneUnder(r, path, depth) <==> NoneUnder(s, path, depth)
    ensures AtMostOne(r, path, depth) <==> AtMostOne(s, path, depth)
  {
  }

  /** A hash depends on nothing but the rows below its prefix. */
  lemma {:induction false} HashLocal(r: Rows, s: Rows, path: Path, depth: nat)
    requires depth <= MAX_DEPTH && Agree(r, s, path, depth)
    ensures HashUnder(r, path, depth) == HashUnder(s, path, depth)
    decreases MAX_DEPTH - depth, 1
  {
    AgreeShape(r, s, path, depth);
    if NoneUnder(r, path, depth) {
    } else if AtMostOne(r, path, depth) {
      SameLeaf(r, s, path, depth);
    } else {
      HashLocalBranch(r, s, path, depth);
    }
  }

  lemma {:induction false} HashLocalBranch(r: Rows, s: Rows, path: Path, depth: nat)
    requires depth <= MAX_DEPTH && Agree(r, s, path, depth) && !AtMostOne(r, path, depth) && !AtMostOne(s, path, depth)
    ensures HashUnder(r, path, depth) == HashUnder(s, path, depth)
    decreases MAX_DEPTH - depth, 0
  {
    FullDepth(r, path);
    var left, right := Child(path, depth, false), Child(path, depth, true);
    AgreeChild(r, s, path, depth, false);
    AgreeChild(r, s, path, depth, true);
    HashLocal(r, s, left, depth + 1);
    HashLocal(r, s, right, depth + 1);
    SameBranch(r, s, path, depth);
  }

  lemma SameLeaf(r: Rows, s: Rows, path: Path, depth: nat)
    requires depth <= MAX_DEPTH && Agree(r, s, path, depth)
    requires !NoneUnder(r, path, depth) && AtMostOne(r, path, depth) && !NoneUnder(s, path, depth) &&
             AtMostOne(s, path, depth)
    ensures HashUnder(r, path, depth) == HashUnder(s, path, depth)
  {
    OneLeaf(r, path, depth);
    OneLeaf(s, path, depth);
  }

  lemma SameBranch(r: Rows, s: Rows, path: Path, depth: nat)
    requires depth < MAX_DEPTH && !AtMostOne(r, path, depth) && !AtMostOne(s, path, depth)
    requires HashUnder(r, Child(path, depth, false), depth + 1) == HashUnder(s, Child(path, depth, false), depth + 1)
    requires HashUnder(r, Child(path, depth, true), depth + 1) == HashUnder(s, Child(path, depth, true), depth + 1)
    ensures HashUnder(r, path, depth) == HashUnder(s, path, depth)
  {
  }

  /** And it determines them: equal hashes mean equal rows. */
  lemma {:induction false} HashInjective(r: Rows, s: Rows, path: Path, depth: nat)
    requires depth <= MAX_DEPTH && HashUnder(r, path, depth) == HashUnder(s, path, depth)
    ensures Agree(r, s, path, depth)
    decreases MAX_DEPTH - depth
  {
    if NoneUnder(r, path, depth) || NoneUnder(s, path, depth) {
    } else if AtMostOne(r, path, depth) || AtMostOne(s, path, depth) {
      if AtMostOne(r, path, depth) { OneLeaf(r, path, depth); }
      if AtMostOne(s, path, depth) { OneLeaf(s, path, depth); }
    } else {
      FullDepth(r, path);
      HashInjective(r, s, Child(path, depth, false), depth + 1);
      HashInjective(r, s, Child(path, depth, true), depth + 1);
      forall q | Under(q, path, depth)
        ensures (q in r <==> q in s) && (q in r ==> r[q] == s[q])
      {
        UnderSplit(q, path, depth);
        assert Under(q, Child(path, depth, q[depth]), depth + 1);
      }
    }
  }

  /** Two stores with one root hold the same rows. */
  lemma RootInjective(r: Rows, s: Rows)
    requires Root(r) == Root(s)
    ensures r == s
  {
    var zero: Path := seq(MAX_DEPTH, _ => false);
    HashInjective(r, s, zero, 0);
    assert forall q: Path :: Under(q, zero, 0);
  }

  // ------------------------------------------------------------------------- proofs

  datatype Proof = Proof(siblings: seq<Digest>, occupant: Option<(Path, Digest)>)

  /** The node `_fold` has reached when it stands at `depth`. */
  function FoldFrom(path: Path, terminal: Digest, siblings: seq<Digest>, depth: nat): Digest
    requires depth <= |siblings| <= MAX_DEPTH
    decreases |siblings| - depth
  {
    if depth == |siblings| then terminal else
      var node := FoldFrom(path, terminal, siblings, depth + 1);
      if !path[depth] then Branch(depth, Lo(path, depth), node, siblings[depth])
      else Branch(depth, Lo(path, depth), siblings[depth], node)
  }

  predicate Present(root: Digest, path: Path, held: Held, proof: Proof)
    requires |proof.siblings| <= MAX_DEPTH
  {
    var term := LeafOf(path, held);
    proof.occupant.Some? && proof.occupant.value.0 == path && RowFits(held) && proof.occupant.value.1 == term &&
    FoldFrom(path, term, proof.siblings, 0) == root
  }

  predicate AbsentAt(root: Digest, path: Path, proof: Proof)
    requires |proof.siblings| <= MAX_DEPTH
  {
    match proof.occupant
    case None => FoldFrom(path, Empty, proof.siblings, 0) == root
    case Some((other, term)) =>
      other != path && Under(other, path, |proof.siblings|) &&
      FoldFrom(path, term, proof.siblings, 0) == root
  }

  /** `verify` answers yes. Of a row that does not fit it raises instead of answering, unless the
      proof names no occupant or another path. */
  predicate Verify(root: Digest, path: Path, held: Option<Held>, proof: Proof) {
    |proof.siblings| <= MAX_DEPTH &&
    match held
    case None => AbsentAt(root, path, proof)
    case Some(h) => Present(root, path, h, proof)
  }

  /** What is refused whatever the root: a proof deeper than the tree, a present row without its own
      leaf, an absent key whose occupant is itself or lies off its way. */
  lemma Refuses(root: Digest, path: Path, held: Option<Held>, proof: Proof)
    requires |proof.siblings| > 256 ||
             (held.Some? && (proof.occupant.None? || proof.occupant.value.0 != path)) ||
             (held.None? && proof.occupant.Some? &&
              (proof.occupant.value.0 == path ||
               (|proof.siblings| <= 256 && !Under(proof.occupant.value.0, path, |proof.siblings|))))
    ensures !Verify(root, path, held, proof)
  {
  }

  /** If folding meets the tree's hash at `depth`, the terminal is the tree's own hash where the
      siblings run out. */
  lemma {:induction false} FoldDescends(rows: Rows, path: Path, term: Digest, siblings: seq<Digest>, depth: nat)
    requires depth <= |siblings| <= MAX_DEPTH
    requires FoldFrom(path, term, siblings, depth) == HashUnder(rows, path, depth)
    ensures term == HashUnder(rows, path, |siblings|)
    decreases |siblings| - depth
  {
    if depth < |siblings| {
      var c := Child(path, depth, path[depth]);
      UnderSplit(c, path, depth);
      UnderSplit(path, path, depth);
      assert c[..depth] == path[..depth];
      assert FoldFrom(path, term, siblings, depth).Branch?;
      if !NoneUnder(rows, path, depth) && AtMostOne(rows, path, depth) { OneLeaf(rows, path, depth); }
      HashSamePrefix(rows, path, c, depth + 1);
      FoldDescends(rows, path, term, siblings, depth + 1);
    }
  }

  /** What `verify` accepts against a tree's root is true of the tree: a present row is held with
      exactly that value, credential and epoch; a row is absent when the proof ends in nothing or
      in the leaf of another path. */
  lemma VerifySound(rows: Rows, path: Path, held: Option<Held>, proof: Proof)
    requires Verify(Root(rows), path, held, proof)
    requires held.None? && proof.occupant.Some? ==>
               proof.occupant.value.1.Leaf? && proof.occupant.value.1.path == proof.occupant.value.0
    ensures held.Some? ==> path in rows && rows[path] == held.value && RowFits(held.value)
    ensures held.None? ==> path !in rows
  {
    var k := |proof.siblings|;
    var term := match (held, proof.occupant)
      case (Some(h), _) => LeafOf(path, h)
      case (None, None) => Empty
      case (None, Some((_, t))) => t;
    var zero: Path := seq(MAX_DEPTH, _ => false);
    assert Under(path, zero, 0);
    HashSamePrefix(rows, zero, path, 0);
    FoldDescends(rows, path, term, proof.siblings, 0);
    assert Under(path, path, k);
    if !NoneUnder(rows, path, k) && AtMostOne(rows, path, k) { OneLeaf(rows, path, k); }
  }

  /** The depth at which `prove` stops: the first with at most one row below it, or 256. */
  ghost function StopDepth(rows: Rows, path: Path, depth: nat): (k: nat)
    requires depth <= MAX_DEPTH
    ensures depth <= k <= MAX_DEPTH
    ensures k < MAX_DEPTH ==> AtMostOne(rows, path, k)
    ensures forall d :: depth <= d < k ==> !AtMostOne(rows, path, d)
    decreases MAX_DEPTH - depth
  {
    if depth == MAX_DEPTH || AtMostOne(rows, path, depth) then depth else StopDepth(rows, path, depth + 1)
  }

  ghost function OccupantAt(rows: Rows, path: Path, k: nat): Option<(Path, Digest)>
    requires k <= MAX_DEPTH
  {
    if k == MAX_DEPTH || NoneUnder(rows, path, k) then None
    else
      var q :| q in rows && Under(q, path, k);
      Some((q, LeafOf(q, rows[q])))
  }

  ghost function SiblingAt(rows: Rows, path: Path, d: nat): Digest
    requires d < MAX_DEPTH
  {
    HashUnder(rows, Flip(path, d), d + 1)
  }

  ghost function Prove(rows: Rows, path: Path): Proof {
    var k := StopDepth(rows, path, 0);
    Proof(seq(k, d requires 0 <= d < k => SiblingAt(rows, path, d)), OccupantAt(rows, path, k))
  }

  function Get(rows: Rows, path: Path): Option<Held> {
    if path in rows then Some(rows[path]) else None
  }

  /** Folding the collected siblings below `depth` over the right terminal rebuilds the hash. */
  lemma {:induction false} FoldRebuilds(rows: Rows, path: Path, siblings: seq<Digest>, depth: nat)
    requires depth <= |siblings| <= MAX_DEPTH
    requires forall d :: depth <= d < |siblings| ==>
             siblings[d] == SiblingAt(rows, path, d) && !AtMostOne(rows, path, d)
    ensures FoldFrom(path, HashUnder(rows, path, |siblings|), siblings, depth) == HashUnder(rows, path, depth)
    decreases |siblings| - depth
  {
    if depth < |siblings| {
      FoldRebuilds(rows, path, siblings, depth + 1);
      BranchHere(rows, path, depth);
    }
  }

  /** A branch in terms of the path's own side and the sibling's. */
  lemma BranchHere(rows: Rows, path: Path, depth: nat)
    requires depth < MAX_DEPTH && !AtMostOne(rows, path, depth)
    ensures var mine, other := HashUnder(rows, path, depth + 1), SiblingAt(rows, path, depth);
            HashUnder(rows, path, depth) ==
            if !path[depth] then Branch(depth, Lo(path, depth), mine, other)
            else Branch(depth, Lo(path, depth), other, mine)
  {
    var c, d := Child(path, depth, path[depth]), Child(path, depth, !path[depth]);
    assert c[..depth] == d[..depth] == path[..depth];
    UnderSplit(c, path, depth);
    UnderSplit(d, path, depth);
    HashSamePrefix(rows, path, c, depth + 1);
    HashSamePrefix(rows, Flip(path, depth), d, depth + 1);
  }

  lemma {:induction false} AtMostOneDeeper(rows: Rows, path: Path, depth: nat, deeper: nat)
    requires depth <= deeper <= MAX_DEPTH && AtMostOne(rows, path, depth)
    ensures AtMostOne(rows, path, deeper)
  {
    forall q: Path | Under(q, path, deeper) ensures Under(q, path, depth) {
      assert q[..deeper][..depth] == q[..depth] && path[..deeper][..depth] == path[..depth];
    }
  }

  /** `prove` followed by `verify` succeeds for a key, present or absent, exactly when no two
      live paths share the key's first 255 bits and the key's row, if any, can be hashed. */
  lemma ProveVerifies(rows: Rows, path: Path)
    ensures Verify(Root(rows), path, Get(rows, path), Prove(rows, path)) <==>
            AtMostOne(rows, path, MAX_DEPTH - 1) && (path in rows ==> RowFits(rows[path]))
  {
    var p, k := Prove(rows, path), StopDepth(rows, path, 0);
    if k < MAX_DEPTH {
      AtMostOneDeeper(rows, path, k, MAX_DEPTH - 1);
      var zero: Path := seq(MAX_DEPTH, _ => false);
      assert Under(path, zero, 0);
      HashSamePrefix(rows, zero, path, 0);
      FoldRebuilds(rows, path, p.siblings, 0);
      EndVerifies(rows, path, p);
    } else {
      assert !AtMostOne(rows, path, MAX_DEPTH - 1);
      TwoShare255(rows, path);
    }
  }

  lemma EndVerifies(rows: Rows, path: Path, p: Proof)
    requires |p.siblings| < MAX_DEPTH && p.occupant == OccupantAt(rows, path, |p.siblings|)
    requires AtMostOne(rows, path, |p.siblings|)
    requires FoldFrom(path, HashUnder(rows, path, |p.siblings|), p.siblings, 0) == Root(rows)
    ensures Verify(Root(rows), path, Get(rows, path), p) <==> (path in rows ==> RowFits(rows[path]))
  {
    assert Under(path, path, |p.siblings|);
    if !NoneUnder(rows, path, |p.siblings|) { OneLeaf(rows, path, |p.siblings|); }
  }

  lemma TwoShare255(rows: Rows, path: Path)
    requires !AtMostOne(rows, path, MAX_DEPTH - 1)
    ensures path in rows
  {
    var n := MAX_DEPTH - 1;
    var q, r :| q in rows && r in rows && Under(q, path, n) && Under(r, path, n) && q != r;
    assert q == path[..n] + [q[n]] && r == path[..n] + [r[n]] && path == path[..n] + [path[n]];
    assert path[n] == q[n] || path[n] == r[n];
  }

  /** Two rows whose paths differ in the last bit alone: the proof of either is refused. */
  lemma TwinsAreRefused(p: Path, h: Held, g: Held)
    requires RowFits(h) && RowFits(g)
    ensures var rows: Rows := map[p := h, Flip(p, MAX_DEPTH - 1) := g];
            !Verify(Root(rows), p, Get(rows, p), Prove(rows, p))
  {
    var q, n := Flip(p, MAX_DEPTH - 1), MAX_DEPTH - 1;
    var rows: Rows := map[p := h, q := g];
    assert q[..n] == p[..n] && q[n] != p[n];
    assert Under(p, p, n) && Under(q, p, n);
    ProveVerifies(rows, p);
  }
}
