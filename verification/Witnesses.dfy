/** The assumptions the consensus results rest on can be met: there are wire forms without
    collisions, networks for every roster within tolerance, and runs that settle. */
module Witnesses {
  import opened Bytes
  import opened Codec
  import opened Ops
  import opened Smt
  import opened Slice
  import opened Rounds
  import opened Blocks
  import opened Promotion
  import opened Protocol
  import opened Views
  import opened Settle
  import M = Multisig
  import Quorum
  import Canonical
  import Follower
  import Convergence

  // --------------------------------------------------------------- a faithful wire form

  function PathBytes(p: Path): Bytes { seq(MAX_DEPTH, i requires 0 <= i < MAX_DEPTH => if p[i] then 1 else 0) }

  lemma PathBytesInjective(p: Path, q: Path)
    requires PathBytes(p) == PathBytes(q)
    ensures p == q
  {
    forall i | 0 <= i < MAX_DEPTH ensures p[i] == q[i] { assert PathBytes(p)[i] == PathBytes(q)[i]; }
  }

  function DigestValue(d: Digest): Value {
    match d
    case Empty => List([])
    case Leaf(p, v, c, e) => List([Str(PathBytes(p)), Str(v.preimage), Str(c.preimage), Int(e)])
    case Branch(depth, p, l, r) => List([Int(depth), Str(PathBytes(p)), DigestValue(l), DigestValue(r), Int(0)])
  }

  lemma {:induction false} DigestValueInjective(a: Digest, b: Digest)
    requires DigestValue(a) == DigestValue(b)
    ensures a == b
    decreases a
  {
    var x, y := DigestValue(a).items, DigestValue(b).items;
    assert |x| == |y|;
    match a
    case Empty =>
    case Leaf(p, v, c, e) =>
      assert x[0] == y[0] && x[1] == y[1] && x[2] == y[2] && x[3] == y[3];
      PathBytesInjective(p, b.path);
    case Branch(depth, p, l, r) =>
      assert x[0] == y[0] && x[1] == y[1] && x[2] == y[2] && x[3] == y[3];
      PathBytesInjective(p, b.prefix);
      DigestValueInjective(l, b.left);
      DigestValueInjective(r, b.right);
  }

  lemma FaithfulExists() returns (w: Wire)
    ensures Faithful(w)
  {
    w := Wire(b => b, d => Encode(DigestValue(d)), a => Encode(Int(a)));
    forall a, b | w.digest(a) == w.digest(b) ensures a == b {
      EncodeInjective(DigestValue(a), DigestValue(b));
      DigestValueInjective(a, b);
    }
    forall a, b | w.acc(a) == w.acc(b) ensures a == b { EncodeInjective(Int(a), Int(b)); }
  }

  /** There are nodes whose hashes tell transactions, blocks and the genesis stamp apart. */
  lemma DistinguishedExists(verify: M.Verifier, anchor: Node, rosterOf: Live -> seq<Node>,
                            mayWrite: (Live, Bytes, int) -> bool) returns (f: Follower.Setup)
    ensures Convergence.Distinguished(f)
  {
    var w := FaithfulExists();
    var env := Env(_ => true, tx => Raw(tx), b => b, mayWrite);
    f := Follower.Setup(env, w.(h := Tagged), verify, anchor, [], rosterOf);
    forall a, b | Tagged(a) == Tagged(b) ensures a == b { assert Tagged(a)[1..] == a && Tagged(b)[1..] == b; }
    forall tx, ty | Canonical.ByHash(env)(tx) == Canonical.ByHash(env)(ty) ensures tx == ty { RawInjective(tx, ty); }
  }

  function Tagged(b: Bytes): Bytes { [1] + b }

  // ------------------------------------------------------------------------- networks

  /** Any roster with at most `tolerates(n)` faulty members, each honest member at its own bucket
      and head, is a network the agreement results speak of. */
  lemma NetworkExists(roster: set<Node>, faulty: set<Node>, bucket: Node -> int, head: Node -> Bytes)
      returns (cfg: Config, net: Net)
    requires roster != {} && |faulty| <= Quorum.Tolerates(|roster|)
    ensures Sound(cfg) && Initial(cfg, net) && cfg.roster == roster && cfg.faulty == faulty
    ensures forall p :: p in net.members ==> net.members[p].currentBucket == bucket(p) && net.members[p].head == head(p)
  {
    var w := FaithfulExists();
    cfg := Config(roster, faulty, w);
    net := Net(map p | p in roster - faulty :: Member(bucket(p), head(p), None, None, map[], map[], map[]), {});
  }
}
