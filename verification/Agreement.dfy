/** What agreement on anchors buys: nodes that settle together hold the same rows, and a light client
    is told what they hold. The anchors are all that links the protocol to the stores. */
module Agreement {
  import opened Bytes
  import opened Ops
  import opened Views
  import opened Smt
  import opened LayerRoot
  import opened Ledger
  import opened Promotion
  import opened Blocks
  import opened Protocol
  import Chain
  import Checkpoint
  import M = Multisig
  import Slice

  /** Everything a node's tables can be asked about through the anchors. */
  ghost predicate SameState(s: State, t: State) {
    s.live == t.live && s.acc == t.acc && s.accLog == t.accLog && Head(s.entries, s.floor) == Head(t.entries, t.floor)
  }

  /** Tables that meet one set of anchors hold the same rows, at the same height, with the same
      accumulators. */
  lemma AnchorsFixState(pathOf: Key -> Path, s: State, t: State, a: Anchors)
    requires NoCollision(pathOf, s.live.Keys + t.live.Keys) && Meets(pathOf, s, a) && Meets(pathOf, t, a)
    ensures SameState(s, t)
  {
    NoCollisionSides(pathOf, s.live.Keys, t.live.Keys);
    Checkpoint.SameRootSameRows(pathOf, s.live, t.live);
  }

  lemma NoCollisionSides(pathOf: Key -> Path, a: set<Key>, b: set<Key>)
    requires NoCollision(pathOf, a + b)
    ensures NoCollision(pathOf, a) && NoCollision(pathOf, b)
  {
    assert forall k :: k in a || k in b ==> k in a + b;
  }

  /** Over every run with at most `tolerates(n)` faulty members: two honest members that settled in
      one bucket, each with tables that meet the anchors it signed, hold the same state. */
  lemma SettledStatesAgree(cfg: Config, start: Net, run: seq<Action>, p: Slice.Node, q: Slice.Node, bucket: int,
                           pathOf: Key -> Path, s: State, t: State)
    requires Sound(cfg) && Initial(cfg, start)
    requires var net := Protocol.Run(cfg, start, run);
             p in net.members && q in net.members && bucket in net.members[p].settled &&
             bucket in net.members[q].settled &&
             Meets(pathOf, s, net.members[p].settled[bucket].anchors) &&
             Meets(pathOf, t, net.members[q].settled[bucket].anchors)
    requires NoCollision(pathOf, s.live.Keys + t.live.Keys)
    ensures SameState(s, t)
  {
    BucketAgreement(cfg, start, run, p, q, bucket);
    AnchorsFixState(pathOf, s, t, Protocol.Run(cfg, start, run).members[p].settled[bucket].anchors);
  }

  /** The same for anyone who only follows blocks the roster authorised. */
  lemma FollowedStatesAgree(cfg: Config, start: Net, run: seq<Action>, verify: M.Verifier, roster: seq<Slice.Node>,
                            anchor: Slice.Node,
                            a: SettledBlock, b: SettledBlock, pathOf: Key -> Path, s: State, t: State)
    requires Sound(cfg) && Initial(cfg, start) && Slice.Distinct(roster) && Slice.SetOf(roster) == cfg.roster
    requires Unforgeable(verify, Protocol.Run(cfg, start, run).wire, cfg.roster)
    requires AcceptedByRoster(cfg, verify, roster, anchor, a) && AcceptedByRoster(cfg, verify, roster, anchor, b)
    requires a.block.bucket == b.block.bucket && Meets(pathOf, s, a.anchors) && Meets(pathOf, t, b.anchors)
    requires NoCollision(pathOf, s.live.Keys + t.live.Keys)
    ensures SameState(s, t) && BlockHash(cfg.w, a) == BlockHash(cfg.w, b)
  {
    AuthorisedBlocksAgree(cfg, start, run, verify, roster, anchor, a, b);
    AnchorsFixState(pathOf, s, t, a.anchors);
  }

  /** What a light client believes under a block's root is what any store that meets the block's
      anchors holds at that key, present or absent. */
  lemma ReadIsStoreRow(pathOf: Key -> Path, t: State, a: Anchors, k: Key, held: Option<Held>, proof: Proof)
    requires NoCollision(pathOf, t.live.Keys + {k}) && Meets(pathOf, t, a)
    requires Verify(a.stateRoot, pathOf(k), held, proof) && (held.Some? || Chain.LeafOccupant(proof))
    ensures Lookup(t.live, k) == held
  {
    RowsLookup(pathOf, t.live, k);
    VerifySound(RowsOf(pathOf, t.live), pathOf(k), held, proof);
  }
}
