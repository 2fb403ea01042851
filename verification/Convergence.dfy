/** What a tip hash stands for. Nodes come by their blocks in two ways, settling them
    (dude/consensus/coordinator.py) and adopting them (dude/sync/follower.py), and either way a block
    names its parent, its transactions and its anchors. So nodes with one tip hold one history. */
module Convergence {
  import opened Bytes
  import opened Ops
  import opened Views
  import opened Settle
  import opened Ledger
  import opened Blocks
  import opened Promotion
  import opened Follower
  import C = Canonical
  import LayerRoot
  import Slice
  import Screening
  import Smt

  // -------------------------------------------------------------------------- chains

  /** One body for each hash the block names. */
  ghost predicate Named(env: Env, o: Offer) {
    Screening.Hashes(env, o.bodies) == Slice.SetOf(o.block.block.hashes) &&
    |o.bodies| == |Screening.Hashes(env, o.bodies)|
  }

  /** The block of `o` extends the tip of `s`, and committing it makes `t`. */
  ghost predicate IsLink(f: Setup, elem: LayerRoot.Element, logElem: LogElement, s: State, o: Offer, t: State) {
    var num := o.block.anchors.blockNum;
    o.block.anchors.prevBlock == Tip(f, s.blocks) && num == HeadNum(s.blocks) + 1 && Named(f.env, o) &&
    CommitBlock(f.env, elem, logElem, s, num, BlockHash(f.w, o.block), C.Bodies(f.env, o.bodies)) == Committed(t)
  }

  ghost predicate LinkAt(f: Setup, elem: LayerRoot.Element, logElem: LogElement, states: seq<State>,
                         offers: seq<Offer>, k: nat)
    requires k < |offers| && |states| == |offers| + 1
  {
    IsLink(f, elem, logElem, states[k], offers[k], states[k + 1])
  }

  /** The tables of a node from its start on, each block settled or adopted. */
  ghost predicate IsChain(f: Setup, elem: LayerRoot.Element, logElem: LogElement, states: seq<State>,
                          offers: seq<Offer>) {
    |states| == |offers| + 1 && states[0] == EMPTY &&
    forall k {:trigger LinkAt(f, elem, logElem, states, offers, k)} ::
      0 <= k < |offers| ==> LinkAt(f, elem, logElem, states, offers, k)
  }

  lemma LinkTip(f: Setup, elem: LayerRoot.Element, logElem: LogElement, s: State, o: Offer, t: State)
    requires IsLink(f, elem, logElem, s, o, t)
    ensures HeadNum(t.blocks) == HeadNum(s.blocks) + 1 && Tip(f, t.blocks) == BlockHash(f.w, o.block)
  {
    CommittedBlocks(f, elem, logElem, s, o.block.anchors.blockNum, BlockHash(f.w, o.block), C.Bodies(f.env, o.bodies),
      t);
  }

  /** A run of adoptions is a chain. */
  lemma AdoptionsAreChain(f: Setup, pathOf: Key -> Smt.Path, elem: LayerRoot.Element, logElem: LogElement,
                          states: seq<State>, offers: seq<Offer>)
    requires IsRun(f, pathOf, elem, logElem, states, offers)
    ensures IsChain(f, elem, logElem, states, offers)
  {
    forall k | 0 <= k < |offers| ensures LinkAt(f, elem, logElem, states, offers, k) {
      RunInOrder(f, pathOf, elem, logElem, states, offers, k);
      assert Turn(f, pathOf, elem, logElem, states, offers, k);
      AdoptedIsLink(f, pathOf, elem, logElem, states[k], offers[k], states[k + 1]);
    }
  }

  lemma AdoptedIsLink(f: Setup, pathOf: Key -> Smt.Path, elem: LayerRoot.Element, logElem: LogElement, s: State,
                      o: Offer, t: State)
    requires AdoptOf(f, pathOf, elem, logElem, s, o) == (Adopted, t)
    requires o.block.anchors.blockNum == HeadNum(s.blocks) + 1
    ensures IsLink(f, elem, logElem, s, o, t)
  {
    HeadNumBounds(s.blocks);
    NamedExactly(f, pathOf, elem, logElem, s, o);
  }

  /** So is a block settled on the tables it was previewed on: `_promote_to_settling` numbers it
      next and puts it on the tip, and its slice is in canonical order. */
  lemma SettledIsLink(f: Setup, pathOf: Key -> Smt.Path, elem: LayerRoot.Element, logElem: LogElement, s: State,
                      sb: SettledBlock, slice: seq<Signed>, t: State)
    requires IsPreview(f.env, pathOf, elem, logElem, s, slice, sb.anchors)
    requires sb.anchors.prevBlock == Tip(f, s.blocks) && sb.anchors.blockNum == HeadNum(s.blocks) + 1
    requires Slice.SetOf(sb.block.hashes) == Screening.Hashes(f.env, slice) && C.Bodies(f.env, slice) == slice
    requires CommitBlock(f.env, elem, logElem, s, sb.anchors.blockNum, BlockHash(f.w, sb), slice) == Committed(t)
    ensures IsLink(f, elem, logElem, s, Offer(sb, slice), t)
  {
    KeptAreDistinct(f.env, s.live, {}, slice);
    DistinctHashes(f.env, slice);
  }

  // ------------------------------------------------------------- one tip, one history

  lemma {:induction false} HashesAtMost(env: Env, txs: seq<Signed>)
    ensures |Screening.Hashes(env, txs)| <= |txs|
  {
    if txs != [] {
      var n := |txs| - 1;
      HashesAtMost(env, txs[..n]);
      HashesSnoc(env, txs);
    }
  }

  lemma HashesSnoc(env: Env, txs: seq<Signed>)
    requires txs != []
    ensures var n := |txs| - 1;
            txs == txs[..n] + [txs[n]] &&
            Screening.Hashes(env, txs) == Screening.Hashes(env, txs[..n]) + {OpHash(env, txs[n])} &&
            (txs[n] in txs[..n] ==> OpHash(env, txs[n]) in Screening.Hashes(env, txs[..n]))
  {
    var n := |txs| - 1;
    assert txs == txs[..n] + [txs[n]];
  }

  /** As many hashes as transactions means no transaction twice. */
  lemma {:induction false} OnceEach(env: Env, txs: seq<Signed>, tx: Signed)
    requires |txs| == |Screening.Hashes(env, txs)|
    ensures multiset(txs)[tx] == if tx in txs then 1 else 0
  {
    if txs != [] {
      var n := |txs| - 1;
      HashesSnoc(env, txs);
      HashesAtMost(env, txs[..n]);
      OnceEach(env, txs[..n], tx);
      assert multiset(txs) == multiset(txs[..n]) + multiset{txs[n]};
    }
  }

  ghost predicate HashesApart(env: Env) { C.OneToOne(C.ByHash(env)) }

  /** The bodies of one set of hashes, each once, are one canonical batch. */
  lemma SameBodies(env: Env, a: seq<Signed>, b: seq<Signed>)
    requires HashesApart(env) && Screening.Hashes(env, a) == Screening.Hashes(env, b)
    requires |a| == |Screening.Hashes(env, a)| && |b| == |Screening.Hashes(env, b)|
    ensures C.Bodies(env, a) == C.Bodies(env, b)
  {
    forall tx ensures multiset(a)[tx] == multiset(b)[tx] {
      OnceEach(env, a, tx);
      OnceEach(env, b, tx);
      SameMember(env, a, b, tx);
      SameMember(env, b, a, tx);
    }
    C.SortForgetsOrder(C.ByHash(env), a, b);
  }

  lemma SameMember(env: Env, a: seq<Signed>, b: seq<Signed>, tx: Signed)
    requires HashesApart(env) && Screening.Hashes(env, a) == Screening.Hashes(env, b)
    ensures tx in a ==> tx in b
  {
    if tx in a {
      assert OpHash(env, tx) in Screening.Hashes(env, b);
      var other :| other in b && OpHash(env, other) == OpHash(env, tx);
      assert C.ByHash(env)(other) == C.ByHash(env)(tx);
    }
  }

  lemma SameSets(a: seq<Bytes>, b: seq<Bytes>)
    requires C.Hashes(a) == C.Hashes(b)
    ensures Slice.SetOf(a) == Slice.SetOf(b)
  {
    C.SortIs(C.Itself, a);
    C.SortIs(C.Itself, b);
    forall x ensures x in a <==> x in b {
      assert x in a <==> x in multiset(C.Hashes(a));
      assert x in b <==> x in multiset(C.Hashes(b));
    }
  }

  /** Two links to one tip come from one tip, and if from the same tables lead to the same. */
  lemma SameLink(f: Setup, elem: LayerRoot.Element, logElem: LogElement, s: State, o: Offer, t: State,
                 r: State, p: Offer, u: State)
    requires Faithful(f.w) && HashesApart(f.env) && Tip(f, t.blocks) == Tip(f, u.blocks)
    requires IsLink(f, elem, logElem, s, o, t) && IsLink(f, elem, logElem, r, p, u)
    ensures Tip(f, s.blocks) == Tip(f, r.blocks)
    ensures s == r ==> t == u
  {
    LinkTip(f, elem, logElem, s, o, t);
    LinkTip(f, elem, logElem, r, p, u);
    BlockHashInjective(f.w, o.block, p.block);
    SameSets(o.block.block.hashes, p.block.block.hashes);
    SameBodies(f.env, o.bodies, p.bodies);
  }

  /** Hashes do not collide, and the genesis stamp is no block's hash. */
  ghost predicate Distinguished(f: Setup) {
    Faithful(f.w) && HashesApart(f.env) && forall sb :: BlockHash(f.w, sb) != f.genesis
  }

  ghost predicate TipAt(f: Setup, states: seq<State>, offers: seq<Offer>, k: nat)
    requires k <= |offers| && k < |states|
  {
    HeadNum(states[k].blocks) == k &&
    Tip(f, states[k].blocks) == if k == 0 then f.genesis else BlockHash(f.w, offers[k - 1].block)
  }

  lemma {:induction false} TipsAt(f: Setup, elem: LayerRoot.Element, logElem: LogElement, states: seq<State>,
                                  offers: seq<Offer>, k: nat)
    requires IsChain(f, elem, logElem, states, offers) && k <= |offers|
    ensures TipAt(f, states, offers, k)
  {
    if k == 0 {
      HeadNumIs(map[], 0);
    } else {
      TipsAt(f, elem, logElem, states, offers, k - 1);
      assert LinkAt(f, elem, logElem, states, offers, k - 1);
      LinkTip(f, elem, logElem, states[k - 1], offers[k - 1], states[k]);
    }
  }

  lemma SameStep(f: Setup, elem: LayerRoot.Element, logElem: LogElement, states: seq<State>, offers: seq<Offer>,
                 i: nat, others: seq<State>, blocks: seq<Offer>, j: nat)
    requires Distinguished(f) && IsChain(f, elem, logElem, states, offers) && IsChain(f, elem, logElem, others, blocks)
    requires i < |offers| && j < |blocks| && Tip(f, states[i + 1].blocks) == Tip(f, others[j + 1].blocks)
    ensures Tip(f, states[i].blocks) == Tip(f, others[j].blocks)
    ensures states[i] == others[j] ==> states[i + 1] == others[j + 1]
  {
    assert LinkAt(f, elem, logElem, states, offers, i);
    assert LinkAt(f, elem, logElem, others, blocks, j);
    SameLink(f, elem, logElem, states[i], offers[i], states[i + 1], others[j], blocks[j], others[j + 1]);
  }

  lemma {:induction false} TipFixesAt(f: Setup, elem: LayerRoot.Element, logElem: LogElement,
                                      states: seq<State>, offers: seq<Offer>, i: nat,
                                      others: seq<State>, blocks: seq<Offer>, j: nat)
    requires Distinguished(f) && IsChain(f, elem, logElem, states, offers) && IsChain(f, elem, logElem, others, blocks)
    requires i <= |offers| && j <= |blocks| && Tip(f, states[i].blocks) == Tip(f, others[j].blocks)
    ensures i == j && forall k :: 0 <= k <= i ==> states[k] == others[k]
    decreases i
  {
    TipsAt(f, elem, logElem, states, offers, i);
    TipsAt(f, elem, logElem, others, blocks, j);
    if i > 0 && j > 0 {
      SameStep(f, elem, logElem, states, offers, i - 1, others, blocks, j - 1);
      TipFixesAt(f, elem, logElem, states, offers, i - 1, others, blocks, j - 1);
    }
  }

  /** Two nodes whose tips have one hash hold the same tables: rows, log, blocks, accumulators. It
      does not matter in which buckets the blocks were settled, which node settled or adopted which,
      in what order bodies arrived or who signed. */
  lemma TipFixesHistory(f: Setup, elem: LayerRoot.Element, logElem: LogElement, states: seq<State>,
                        offers: seq<Offer>, others: seq<State>, blocks: seq<Offer>)
    requires Distinguished(f) && IsChain(f, elem, logElem, states, offers) && IsChain(f, elem, logElem, others, blocks)
    requires Tip(f, states[|offers|].blocks) == Tip(f, others[|blocks|].blocks)
    ensures |offers| == |blocks| && states == others
  {
    TipFixesAt(f, elem, logElem, states, offers, |offers|, others, blocks, |blocks|);
  }
}
