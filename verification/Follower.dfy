/** Catching up: `_adopt` and `_on_settled_blocks` of dude/sync/follower.py. An offered block is
    committed only if it extends the tip, is authorised, comes with exactly the bodies it names and
    previews to the anchors it was signed with. */
module Follower {
  import opened Bytes
  import opened Ops
  import opened Views
  import opened Settle
  import opened Ledger
  import opened Blocks
  import opened Promotion
  import opened Chain
  import C = Canonical
  import M = Multisig
  import S = Store
  import Quorum
  import Slice
  import Screening
  import LayerRoot
  import Smt

  datatype Offer = Offer(block: SettledBlock, bodies: seq<Signed>)

  /** What a follower is configured with; the roster is read from the live rows. */
  datatype Setup = Setup(env: Env, w: Wire, verify: M.Verifier, anchor: Slice.Node, genesis: Bytes,
                         rosterOf: Live -> seq<Slice.Node>)

  function TrustAt(f: Setup, live: Live): Trust { Trust(f.w, f.verify, f.rosterOf(live), f.anchor) }

  // ------------------------------------------------------------------------- the tip

  /** `_tip`. */
  ghost function Tip(f: Setup, blocks: map<int, BlockRow>): Bytes {
    if HeadNum(blocks) in blocks then blocks[HeadNum(blocks)].hash else f.genesis
  }

  lemma NextHead(f: Setup, blocks: map<int, BlockRow>, row: BlockRow)
    ensures var n := HeadNum(blocks) + 1;
            n !in blocks && HeadNum(blocks[n := row]) == n && Tip(f, blocks[n := row]) == row.hash
  {
    HeadNumBounds(blocks);
    HeadNumIs(blocks[HeadNum(blocks) + 1 := row], HeadNum(blocks) + 1);
  }

  method TipOf(f: Setup, blocks: map<int, BlockRow>) returns (tip: Bytes)
    ensures tip == Tip(f, blocks)
  {
    var head := S.HeadNumOf(blocks);
    tip := if head in blocks then blocks[head].hash else f.genesis;
  }

  // ---------------------------------------------------------------------- acceptance

  predicate AllVerified(env: Env, txs: seq<Signed>) { forall i :: 0 <= i < |txs| ==> env.verified(txs[i]) }

  /** The checks an offer must pass against the tables `s` before it is previewed. */
  ghost predicate Offered(f: Setup, s: State, o: Offer) {
    o.block.anchors.prevBlock == Tip(f, s.blocks) && Authentic(TrustAt(f, s.live), o.block) &&
    Screening.Hashes(f.env, o.bodies) == Slice.SetOf(o.block.block.hashes) && AllVerified(f.env, o.bodies)
  }

  /** All the checks. */
  ghost predicate Acceptable(f: Setup, pathOf: Key -> Smt.Path, elem: LayerRoot.Element, logElem: LogElement, s: State,
      o: Offer) {
    Offered(f, s, o) &&
    IsPreview(f.env, pathOf, elem, logElem, s, C.Bodies(f.env, o.bodies), o.block.anchors)
  }

  lemma PreviewUnique(env: Env, pathOf: Key -> Smt.Path, elem: LayerRoot.Element, logElem: LogElement, s: State,
                      batch: seq<Signed>, a: Anchors, b: Anchors)
    requires IsPreview(env, pathOf, elem, logElem, s, batch, a) && IsPreview(env, pathOf, elem, logElem, s, batch, b)
    requires a.blockNum == b.blockNum && a.prevBlock == b.prevBlock
    ensures a == b
  {
  }

  /** An acceptable offer has one body for each hash the block names, and no other. */
  lemma NamedExactly(f: Setup, pathOf: Key -> Smt.Path, elem: LayerRoot.Element, logElem: LogElement, s: State,
      o: Offer)
    requires Acceptable(f, pathOf, elem, logElem, s, o)
    ensures Screening.Hashes(f.env, o.bodies) == Slice.SetOf(o.block.block.hashes) &&
            |o.bodies| == |Screening.Hashes(f.env, o.bodies)|
  {
    var ordered := C.Bodies(f.env, o.bodies);
    C.SortIs(C.ByHash(f.env), o.bodies);
    KeptAreDistinct(f.env, s.live, {}, ordered);
    DistinctHashes(f.env, ordered);
    forall tx ensures tx in o.bodies <==> tx in ordered {
      assert tx in o.bodies <==> tx in multiset(o.bodies);
      assert tx in ordered <==> tx in multiset(ordered);
    }
    assert Screening.Hashes(f.env, ordered) == Screening.Hashes(f.env, o.bodies);
  }

  lemma {:induction false} DistinctHashes(env: Env, txs: seq<Signed>)
    requires forall i, j :: 0 <= i < j < |txs| ==> OpHash(env, txs[i]) != OpHash(env, txs[j])
    ensures |Screening.Hashes(env, txs)| == |txs|
  {
    if txs != [] {
      var n := |txs| - 1;
      DistinctHashes(env, txs[..n]);
      assert txs == txs[..n] + [txs[n]];
      assert Screening.Hashes(env, txs) == Screening.Hashes(env, txs[..n]) + {OpHash(env, txs[n])};
      assert OpHash(env, txs[n]) !in Screening.Hashes(env, txs[..n]);
    }
  }

  /** The order the bodies arrived in does not matter: another listing of the same transactions is
      accepted too and commits the same tables. */
  lemma ArrivalOrder(f: Setup, pathOf: Key -> Smt.Path, elem: LayerRoot.Element, logElem: LogElement, s: State,
                     o: Offer, bodies: seq<Signed>, num: int, hash: Bytes)
    requires Slice.Injective(f.env.h) && (forall x, y :: f.env.raw(x) == f.env.raw(y) ==> x == y)
    requires multiset(bodies) == multiset(o.bodies)
    ensures C.Bodies(f.env, bodies) == C.Bodies(f.env, o.bodies)
    ensures Acceptable(f, pathOf, elem, logElem, s, o.(bodies := bodies)) <==>
            Acceptable(f, pathOf, elem, logElem, s, o)
    ensures CommitBlock(f.env, elem, logElem, s, num, hash, C.Bodies(f.env, bodies)) ==
            CommitBlock(f.env, elem, logElem, s, num, hash, C.Bodies(f.env, o.bodies))
  {
    var key := C.ByHash(f.env);
    assert C.OneToOne(key) by {
      forall x, y | key(x) == key(y) ensures x == y { assert f.env.h(f.env.raw(x)) == f.env.h(f.env.raw(y)); }
    }
    C.SortForgetsOrder(key, bodies, o.bodies);
    forall tx ensures tx in bodies <==> tx in o.bodies {
      assert tx in bodies <==> tx in multiset(bodies);
      assert tx in o.bodies <==> tx in multiset(o.bodies);
    }
    assert Screening.Hashes(f.env, bodies) == Screening.Hashes(f.env, o.bodies);
    SameVerified(f.env, bodies, o.bodies);
  }

  lemma SameVerified(env: Env, a: seq<Signed>, b: seq<Signed>)
    requires forall tx :: tx in a <==> tx in b
    ensures AllVerified(env, a) <==> AllVerified(env, b)
  {
    if AllVerified(env, a) {
      forall i | 0 <= i < |b| ensures env.verified(b[i]) { assert b[i] in a; }
    }
    if AllVerified(env, b) {
      forall i | 0 <= i < |a| ensures env.verified(a[i]) { assert a[i] in b; }
    }
  }

  /** An adopted block none of whose transactions was already logged leaves the tables at the
      signed height, root and accumulators, with the block as the head if it is numbered next. */
  lemma AdoptedMeetsAnchors(f: Setup, pathOf: Key -> Smt.Path, elem: LayerRoot.Element, logElem: LogElement, s: State,
      o: Offer, t: State)
    requires Acceptable(f, pathOf, elem, logElem, s, o)
    requires CommitBlock(f.env, elem, logElem, s, o.block.anchors.blockNum, BlockHash(f.w, o.block),
             C.Bodies(f.env, o.bodies)) == Committed(t)
    ensures Meets(pathOf, t, o.block.anchors) <==> NoneLogged(f.env, s, C.Bodies(f.env, o.bodies))
    ensures o.block.anchors.blockNum == HeadNum(s.blocks) + 1 ==>
              HeadNum(t.blocks) == o.block.anchors.blockNum && Tip(f, t.blocks) == BlockHash(f.w, o.block)
  {
    var num, hash, batch := o.block.anchors.blockNum, BlockHash(f.w, o.block), C.Bodies(f.env, o.bodies);
    PreviewIsSettlement(f.env, pathOf, elem, logElem, s, num, hash, batch, o.block.anchors);
    CommittedBlocks(f, elem, logElem, s, num, hash, batch, t);
  }

  lemma CommittedBlocks(f: Setup, elem: LayerRoot.Element, logElem: LogElement, s: State, num: int, hash: Bytes,
      batch: seq<Signed>, t: State)
    requires CommitBlock(f.env, elem, logElem, s, num, hash, batch) == Committed(t)
    ensures num in t.blocks && t.blocks == s.blocks[num := t.blocks[num]] && t.blocks[num].hash == hash
    ensures num == HeadNum(s.blocks) + 1 ==> HeadNum(t.blocks) == num && Tip(f, t.blocks) == hash
  {
    NextHead(f, s.blocks, t.blocks[num]);
  }

  // ------------------------------------------------------------------------ adopting

  /** `Failed` is an exception, from the preview or from the commit. */
  datatype Adoption = Adopted | Declined | Failed

  /** What `_adopt` answers and makes of the tables. */
  ghost function AdoptOf(f: Setup, pathOf: Key -> Smt.Path, elem: LayerRoot.Element, logElem: LogElement, s: State,
      o: Offer): (Adoption, State) {
    if Offered(f, s, o) && PreviewThrows(f.env, s.live, C.Bodies(f.env, o.bodies)) then (Failed, s)
    else if !Acceptable(f, pathOf, elem, logElem, s, o) then (Declined, s)
    else
      match CommitBlock(f.env, elem, logElem, s, o.block.anchors.blockNum, BlockHash(f.w, o.block),
        C.Bodies(f.env, o.bodies))
      case Committed(u) => (Adopted, u)
      case Repeated => (Adopted, s)
      case _ => (Failed, s)
  }

  /** `_preview_matches_signed_anchors`; `None` where it raises. */
  method PreviewMatches(f: Setup, store: S.Store, ordered: seq<Signed>, expected: Anchors) returns (r: Option<bool>)
    requires store.Valid() && forall i :: 0 <= i < |ordered| ==> Targets(ordered[i], store.universe)
    modifies store.tree`memo
    ensures store.Valid()
    ensures r.None? <==> PreviewThrows(f.env, store.live, ordered)
    ensures r == Some(true) <==>
            IsPreview(f.env, store.pathOf, store.elem, store.logElem, store.Tables(), ordered, expected)
  {
    var preview := PreviewOf(store, f.env, ordered, expected.prevBlock, expected.blockNum);
    match preview
    case Throws => return None;
    case Rejecting => return Some(false);
    case Previewed(computed) =>
      if IsPreview(f.env, store.pathOf, store.elem, store.logElem, store.Tables(), ordered, expected) {
        PreviewUnique(f.env, store.pathOf, store.elem, store.logElem, store.Tables(), ordered, computed, expected);
      }
      return Some(computed == expected);
  }

  method Adopt(f: Setup, store: S.Store, o: Offer) returns (r: Adoption)
    requires store.Valid() && OfferTargets(o, store.universe)
    modifies store, store.tree
    ensures store.Valid()
    ensures (r, store.Tables()) == AdoptOf(f, store.pathOf, store.elem, store.logElem, old(store.Tables()), o)
  {
    var tip := TipOf(f, store.blocks);
    var walked := Advance(TrustAt(f, store.live), tip, [o.block]);
    assert walked.Reached? <==> o.block.anchors.prevBlock == tip && Authentic(TrustAt(f, store.live), o.block);
    if walked.Refused? { return Declined; }
    if Screening.Hashes(f.env, o.bodies) != Slice.SetOf(o.block.block.hashes) { return Declined; }
    if !AllVerified(f.env, o.bodies) { return Declined; }
    var ordered := C.Bodies(f.env, o.bodies);
    OrderedTargets(f.env, o.bodies, store.universe);
    var ok := PreviewMatches(f, store, ordered, o.block.anchors);
    if ok.None? { return Failed; }
    if !ok.value { return Declined; }
    r := CommitOffer(f, store, o, ordered);
  }

  lemma OrderedTargets(env: Env, bodies: seq<Signed>, keys: set<Key>)
    requires forall tx :: tx in bodies ==> Targets(tx, keys)
    ensures forall i :: 0 <= i < |C.Bodies(env, bodies)| ==> Targets(C.Bodies(env, bodies)[i], keys)
  {
    var ordered := C.Bodies(env, bodies);
    C.SortIs(C.ByHash(env), bodies);
    forall i | 0 <= i < |ordered| ensures Targets(ordered[i], keys) {
      assert ordered[i] in multiset(ordered);
    }
  }

  method CommitOffer(f: Setup, store: S.Store, o: Offer, ordered: seq<Signed>) returns (r: Adoption)
    requires store.Valid() && forall i :: 0 <= i < |ordered| ==> Targets(ordered[i], store.universe)
    modifies store, store.tree
    ensures store.Valid()
    ensures match CommitBlock(f.env, store.elem, store.logElem, old(store.Tables()), o.block.anchors.blockNum,
            BlockHash(f.w, o.block), ordered)
            case Committed(u) => r == Adopted && store.Tables() == u
            case Repeated => r == Adopted && store.Tables() == old(store.Tables())
            case _ => r == Failed && store.Tables() == old(store.Tables())
  {
    var num := o.block.anchors.blockNum;
    var hash := ComputeBlockHash(f.w, o.block);
    if num in store.blocks && store.blocks[num].hash == hash { return Adopted; }
    var done := store.CommitBlockAt(f.env, num, hash, ordered);
    r := if done then Adopted else Failed;
  }

  /** `_on_settled_blocks` past its bookkeeping: adopt offers numbered consecutively until one
      fails. It stops only at the end, at a wrong number, or at an offer that is not adopted. Served
      from the next number on, the adopted blocks are hash-linked from the old tip to the new one. */
  method OnSettledBlocks(f: Setup, store: S.Store, first: int, offers: seq<Offer>)
      returns (served: nat, raised: bool, ghost states: seq<State>)
    requires store.Valid() && forall i :: 0 <= i < |offers| ==> OfferTargets(offers[i], store.universe)
    modifies store, store.tree
    ensures store.Valid() && served <= |offers|
    ensures Numbered(first, offers, served)
    ensures |states| == served + 1 && states[0] == old(store.Tables()) && states[served] == store.Tables()
    ensures Taken(Adopting(f, store.pathOf, store.elem, store.logElem), states, offers, served)
    ensures StopsRight(Adopting(f, store.pathOf, store.elem, store.logElem), store.Tables(), first, offers, served,
            raised)
    ensures first == HeadNum(old(store.blocks)) + 1 ==>
            Progress(f, Tip(f, old(store.blocks)), first, offers, served, store.blocks)
  {
    ghost var step := Adopting(f, store.pathOf, store.elem, store.logElem);
    served, raised, states := Serve(f, store, first, offers, step);
  }

  method Serve(f: Setup, store: S.Store, first: int, offers: seq<Offer>,
               ghost step: (State, Offer) -> (Adoption, State))
      returns (served: nat, raised: bool, ghost states: seq<State>)
    requires store.Valid() && forall i :: 0 <= i < |offers| ==> OfferTargets(offers[i], store.universe)
    requires IsAdopting(step, f, store.pathOf, store.elem, store.logElem)
    modifies store, store.tree
    ensures store.Valid() && served <= |offers|
    ensures Numbered(first, offers, served)
    ensures |states| == served + 1 && states[0] == old(store.Tables()) && states[served] == store.Tables()
    ensures Taken(step, states, offers, served) && StopsRight(step, store.Tables(), first, offers, served, raised)
    ensures first == HeadNum(old(store.blocks)) + 1 ==>
            Progress(f, Tip(f, old(store.blocks)), first, offers, served, store.blocks)
  {
    served, raised := 0, false;
    states := [store.Tables()];
    ghost var next, tip := first == HeadNum(store.blocks) + 1, Tip(f, store.blocks);
    while served < |offers|
      invariant store.Valid() && !raised
      invariant ServedSo(step, first, offers, served, states, old(store.Tables()), store.Tables())
      invariant next ==> Progress(f, tip, first, offers, served, store.blocks)
    {
      var o := offers[served];
      if o.block.anchors.blockNum != first + served { return; }
      ghost var before := store.Tables();
      var r := AdoptNext(f, store, o, tip, first, offers, served, next, step);
      if r != Adopted {
        raised := r == Failed;
        return;
      }
      ServedNext(step, first, offers, served, states, old(store.Tables()), before, store.Tables());
      states := states + [store.Tables()];
      served := served + 1;
    }
  }

  /** `step` adopts: it does to tables what `_adopt` does. */
  ghost predicate IsAdopting(step: (State, Offer) -> (Adoption, State), f: Setup, pathOf: Key -> Smt.Path,
                             elem: LayerRoot.Element, logElem: LogElement) {
    forall s, o {:trigger AdoptOf(f, pathOf, elem, logElem, s, o)} ::
      step(s, o) == AdoptOf(f, pathOf, elem, logElem, s, o)
  }

  /** Adopting, as a step from tables to tables. */
  ghost function Adopting(f: Setup, pathOf: Key -> Smt.Path, elem: LayerRoot.Element, logElem: LogElement)
    : (State, Offer) -> (Adoption, State)
  {
    (s, o) => AdoptOf(f, pathOf, elem, logElem, s, o)
  }

  /** Each of the first `n` offers was adopted on the tables the ones before it left. */
  ghost predicate Taken(step: (State, Offer) -> (Adoption, State), states: seq<State>, offers: seq<Offer>, n: nat)
    requires n < |states| && n <= |offers|
  {
    forall k :: 0 <= k < n ==> step(states[k], offers[k]) == (Adopted, states[k + 1])
  }

  /** The loop stopped at the end, at a wrong number or at an offer these tables do not adopt, and
      raised exactly if adopting that offer did. */
  ghost predicate StopsRight(step: (State, Offer) -> (Adoption, State), t: State, first: int, offers: seq<Offer>,
                             served: nat, raised: bool)
    requires served <= |offers|
  {
    if served < |offers| && offers[served].block.anchors.blockNum == first + served
    then step(t, offers[served]).0 != Adopted && raised == (step(t, offers[served]).0 == Failed)
    else !raised
  }

  /** The first `served` offers took `start` through `states` to `t`. */
  ghost predicate ServedSo(step: (State, Offer) -> (Adoption, State), first: int, offers: seq<Offer>, served: nat,
                           states: seq<State>, start: State, t: State) {
    served <= |offers| && Numbered(first, offers, served) && |states| == served + 1 && states[0] == start &&
    states[served] == t && Taken(step, states, offers, served)
  }

  lemma ServedNext(step: (State, Offer) -> (Adoption, State), first: int, offers: seq<Offer>, served: nat,
                   states: seq<State>, start: State, s: State, t: State)
    requires ServedSo(step, first, offers, served, states, start, s) && served < |offers|
    requires offers[served].block.anchors.blockNum == first + served && step(s, offers[served]) == (Adopted, t)
    ensures ServedSo(step, first, offers, served + 1, states + [t], start, t)
  {
  }

  method AdoptNext(f: Setup, store: S.Store, o: Offer,
                   ghost tip: Bytes, ghost first: int, ghost offers: seq<Offer>, ghost served: nat, ghost next: bool,
                   ghost step: (State, Offer) -> (Adoption, State))
    returns (r: Adoption)
    requires IsAdopting(step, f, store.pathOf, store.elem, store.logElem)
    requires store.Valid() && OfferTargets(o, store.universe)
    requires served < |offers| && offers[served] == o && o.block.anchors.blockNum == first + served
    requires next ==> Progress(f, tip, first, offers, served, store.blocks)
    modifies store, store.tree
    ensures store.Valid()
    ensures (r, store.Tables()) == step(old(store.Tables()), o)
    ensures r != Adopted ==> store.Tables() == old(store.Tables())
    ensures next ==> Progress(f, tip, first, offers, if r == Adopted then served + 1 else served, store.blocks)
  {
    ghost var s := store.Tables();
    r := Adopt(f, store, o);
    AdoptionExtends(f, store.pathOf, store.elem, store.logElem, s, o);
    if next {
      ProgressAfter(f, store.pathOf, store.elem, store.logElem, s, o, r, store.Tables(), tip, first, offers, served);
    }
  }

  lemma ProgressAfter(f: Setup, pathOf: Key -> Smt.Path, elem: LayerRoot.Element, logElem: LogElement, s: State,
                      o: Offer, r: Adoption, t: State, tip: Bytes, first: int, offers: seq<Offer>, served: nat)
    requires (r, t) == AdoptOf(f, pathOf, elem, logElem, s, o)
    requires served < |offers| && offers[served] == o && o.block.anchors.blockNum == first + served
    requires Progress(f, tip, first, offers, served, s.blocks)
    ensures Progress(f, tip, first, offers, if r == Adopted then served + 1 else served, t.blocks)
  {
    AdoptionExtends(f, pathOf, elem, logElem, s, o);
    if r == Adopted { ProgressOn(f, tip, first, offers, served, s.blocks, t.blocks); }
  }

  lemma ProgressOn(f: Setup, tip: Bytes, first: int, offers: seq<Offer>, served: nat, blocks: map<int, BlockRow>,
      end: map<int, BlockRow>)
    requires served < |offers| && offers[served].block.anchors.blockNum == first + served
    requires Progress(f, tip, first, offers, served, blocks) && Extends(f, blocks, offers[served], end)
    ensures Progress(f, tip, first, offers, served + 1, end)
  {
  }

  predicate OfferTargets(o: Offer, keys: set<Key>) { forall tx :: tx in o.bodies ==> Targets(tx, keys) }

  ghost predicate Progress(f: Setup, tip: Bytes, first: int, offers: seq<Offer>, served: nat,
      blocks: map<int, BlockRow>) {
    served <= |offers| && Linked(f, tip, offers, served) &&
    HeadNum(blocks) == first + served - 1 && Tip(f, blocks) == HashAfter(f, tip, offers, served)
  }

  ghost function HashAfter(f: Setup, tip: Bytes, offers: seq<Offer>, k: nat): Bytes
    requires k <= |offers|
  {
    if k == 0 then tip else BlockHash(f.w, offers[k - 1].block)
  }

  /** The first `served` blocks are numbered from `first` on. */
  ghost predicate Numbered(first: int, offers: seq<Offer>, served: nat)
    requires served <= |offers|
  {
    served > 0 ==>
      offers[served - 1].block.anchors.blockNum == first + served - 1 && Numbered(first, offers, served - 1)
  }

  /** The first `served` blocks are hash-linked from `tip` on. */
  ghost predicate Linked(f: Setup, tip: Bytes, offers: seq<Offer>, served: nat)
    requires served <= |offers|
  {
    served > 0 ==>
      offers[served - 1].block.anchors.prevBlock == HashAfter(f, tip, offers, served - 1) &&
      Linked(f, tip, offers, served - 1)
  }

  /** Numbered next, the block links to the old tip and is the new one. */
  ghost predicate Extends(f: Setup, blocks: map<int, BlockRow>, o: Offer, end: map<int, BlockRow>) {
    var num := o.block.anchors.blockNum;
    num == HeadNum(blocks) + 1 ==>
      o.block.anchors.prevBlock == Tip(f, blocks) && HeadNum(end) == num && Tip(f, end) == BlockHash(f.w, o.block)
  }

  /** What is adopted was acceptable and extends the chain; what is not leaves no trace. */
  lemma AdoptionExtends(f: Setup, pathOf: Key -> Smt.Path, elem: LayerRoot.Element, logElem: LogElement, s: State,
      o: Offer)
    ensures var (r, t) := AdoptOf(f, pathOf, elem, logElem, s, o);
            if r == Adopted then Acceptable(f, pathOf, elem, logElem, s, o) && Extends(f, s.blocks, o, t.blocks)
              else t == s
  {
    var num, hash, batch := o.block.anchors.blockNum, BlockHash(f.w, o.block), C.Bodies(f.env, o.bodies);
    HeadNumBounds(s.blocks);
    var commit := CommitBlock(f.env, elem, logElem, s, num, hash, batch);
    if commit.Committed? { CommittedBlocks(f, elem, logElem, s, num, hash, batch, commit.state); }
  }

  /** An acceptable offer numbered next is adopted, and its anchors met, exactly when its hash is new,
      none of it was logged and the database takes all it writes. */
  lemma AcceptableIsAdopted(f: Setup, pathOf: Key -> Smt.Path, elem: LayerRoot.Element, logElem: LogElement, s: State,
                            o: Offer)
    requires Acceptable(f, pathOf, elem, logElem, s, o) && o.block.anchors.blockNum == HeadNum(s.blocks) + 1
    requires HashIsNew(s.blocks, BlockHash(f.w, o.block)) && NoneLogged(f.env, s, C.Bodies(f.env, o.bodies))
    ensures var (r, t) := AdoptOf(f, pathOf, elem, logElem, s, o);
            if KeptBind(f.env, s.live, {}, C.Bodies(f.env, o.bodies))
            then r == Adopted && Meets(pathOf, t, o.block.anchors) && Tip(f, t.blocks) == BlockHash(f.w, o.block)
            else r == Failed && t == s
  {
    var num, hash, batch := o.block.anchors.blockNum, BlockHash(f.w, o.block), C.Bodies(f.env, o.bodies);
    HeadNumBounds(s.blocks);
    CommitsUnmoved(f.env, pathOf, elem, logElem, s, num, hash, batch, o.block.anchors);
    var commit := CommitBlock(f.env, elem, logElem, s, num, hash, batch);
    if commit.Committed? { AdoptedMeetsAnchors(f, pathOf, elem, logElem, s, o, commit.state); }
  }

  /** What a quorum settles others adopt: a block previewed on the tables a follower has, put on its
      tip and signed by a quorum of its roster, is acceptable to it with its bodies in any order. */
  lemma SettledIsAcceptable(f: Setup, pathOf: Key -> Smt.Path, elem: LayerRoot.Element, logElem: LogElement, s: State,
                            sb: SettledBlock, bodies: seq<Signed>, sigs: map<Slice.Node, M.Sig>,
                              shares: map<nat, M.Sig>)
    requires sb.anchors.prevBlock == Tip(f, s.blocks)
    requires IsPreview(f.env, pathOf, elem, logElem, s, C.Bodies(f.env, bodies), sb.anchors)
    requires Screening.Hashes(f.env, bodies) == Slice.SetOf(sb.block.hashes)
    requires var roster := f.rosterOf(s.live);
             roster != [] && Slice.Distinct(roster) && sigs.Keys <= (set p | p in roster) &&
             |sigs| >= Quorum.Size(|roster|) && (forall p :: p in sigs ==> f.verify(p, PayloadOf(f.w, sb), sigs[p])) &&
             shares == (map i | 0 <= i < |roster| && roster[i] in sigs :: sigs[roster[i]]) &&
             M.IsCombined(sb.multisig, shares, |roster| + 1)
    ensures Acceptable(f, pathOf, elem, logElem, s, Offer(sb, bodies))
  {
    M.CombinedIsAuthorised(f.verify, sb.multisig, PayloadOf(f.w, sb), f.rosterOf(s.live), f.anchor, sigs, shares);
    KeptAreVerified(f.env, s.live, {}, C.Bodies(f.env, bodies));
    C.SortIs(C.ByHash(f.env), bodies);
    forall i | 0 <= i < |bodies| ensures f.env.verified(bodies[i]) {
      assert bodies[i] in multiset(C.Bodies(f.env, bodies));
    }
  }

  lemma {:induction false} KeptAreVerified(env: Env, live: Live, seen: set<Bytes>, batch: seq<Signed>)
    requires Screen(env, live, seen, batch).Screened?
    ensures forall tx :: tx in Screen(env, live, seen, batch).keep ==> env.verified(tx)
    decreases |batch|
  {
    if batch != [] {
      var tx, hash := batch[0], OpHash(env, batch[0]);
      if hash !in seen && Evaluate(env, live, tx).Pass? {
        KeptAreVerified(env, ApplyAll(live, Evaluate(env, live, tx).mutations, env.raw(tx)), seen + {hash}, batch[1..]);
      } else {
        KeptAreVerified(env, live, seen, batch[1..]);
      }
    }
  }

  // ------------------------------------------------------------------- runs on a store

  /** At turn `k` the tables `states[k]` adopt `offers[k]` and become `states[k + 1]`. */
  ghost predicate Turn(f: Setup, pathOf: Key -> Smt.Path, elem: LayerRoot.Element, logElem: LogElement,
                       states: seq<State>, offers: seq<Offer>, k: nat)
    requires k < |offers| && |states| == |offers| + 1
  {
    AdoptOf(f, pathOf, elem, logElem, states[k], offers[k]) == (Adopted, states[k + 1])
  }

  /** A run of adoptions from an empty store, numbered as `_on_settled_blocks` demands. */
  ghost predicate IsRun(f: Setup, pathOf: Key -> Smt.Path, elem: LayerRoot.Element, logElem: LogElement,
                        states: seq<State>, offers: seq<Offer>) {
    |states| == |offers| + 1 && states[0] == EMPTY &&
    (forall k {:trigger Turn(f, pathOf, elem, logElem, states, offers, k)} ::
       0 <= k < |offers| ==> Turn(f, pathOf, elem, logElem, states, offers, k)) &&
    (forall k :: 0 <= k < |offers| ==> offers[k].block.anchors.blockNum == k + 1)
  }

  /** What holds of the tables `t` that adopting `o` leaves of `s`, block `bn` having been the last:
      the block was authentic by the roster `s` showed and linked to the tip of `s`, came with one
      verified body for each hash it names, is the tip of `t`, leaves `t` in order, and its anchors
      are met exactly if none of it was already logged. */
  ghost predicate RightlyAdopted(f: Setup, pathOf: Key -> Smt.Path, elem: LayerRoot.Element, logElem: LogElement,
      s: State, bn: int, o: Offer, t: State) {
    Authentic(TrustAt(f, s.live), o.block) && o.block.anchors.prevBlock == Tip(f, s.blocks) &&
    Screening.Hashes(f.env, o.bodies) == Slice.SetOf(o.block.block.hashes) &&
    |o.bodies| == |Screening.Hashes(f.env, o.bodies)| && AllVerified(f.env, o.bodies) &&
    HeadNum(t.blocks) == bn + 1 && Tip(f, t.blocks) == BlockHash(f.w, o.block) &&
    InOrder(f.env, elem, logElem, t, bn + 1) &&
    (Meets(pathOf, t, o.block.anchors) <==> NoneLogged(f.env, s, C.Bodies(f.env, o.bodies)))
  }

  lemma AdoptedNext(f: Setup, pathOf: Key -> Smt.Path, elem: LayerRoot.Element, logElem: LogElement, s: State, bn: int,
      o: Offer, t: State)
    requires AdoptOf(f, pathOf, elem, logElem, s, o) == (Adopted, t)
    requires InOrder(f.env, elem, logElem, s, bn) && HeadNum(s.blocks) == bn && o.block.anchors.blockNum == bn + 1
    ensures RightlyAdopted(f, pathOf, elem, logElem, s, bn, o, t)
  {
    var hash, batch := BlockHash(f.w, o.block), C.Bodies(f.env, o.bodies);
    HeadNumBounds(s.blocks);
    assert CommitBlock(f.env, elem, logElem, s, bn + 1, hash, batch) == Committed(t);
    CommitInOrder(f.env, elem, logElem, s, bn, hash, batch, t);
    AdoptedMeetsAnchors(f, pathOf, elem, logElem, s, o, t);
    NamedExactly(f, pathOf, elem, logElem, s, o);
  }

  lemma {:induction false} RunInOrder(f: Setup, pathOf: Key -> Smt.Path, elem: LayerRoot.Element, logElem: LogElement,
                                      states: seq<State>, offers: seq<Offer>, k: nat)
    requires IsRun(f, pathOf, elem, logElem, states, offers) && k <= |offers|
    ensures InOrder(f.env, elem, logElem, states[k], k) && HeadNum(states[k].blocks) == k
  {
    if k == 0 {
      EmptyInOrder(f.env, elem, logElem);
      HeadNumIs(map[], 0);
    } else {
      RunInOrder(f, pathOf, elem, logElem, states, offers, k - 1);
      assert Turn(f, pathOf, elem, logElem, states, offers, k - 1);
      AdoptedNext(f, pathOf, elem, logElem, states[k - 1], k - 1, offers[k - 1], states[k]);
    }
  }

  /** Over every run of adoptions, every block was authentic and linked to the tip it met, the
      tables are in order after each, and each leaves them at its signed anchors exactly if no part
      of it was already logged. */
  lemma FollowerRun(f: Setup, pathOf: Key -> Smt.Path, elem: LayerRoot.Element, logElem: LogElement,
                    states: seq<State>, offers: seq<Offer>, k: nat)
    requires IsRun(f, pathOf, elem, logElem, states, offers) && k < |offers|
    ensures InOrder(f.env, elem, logElem, states[k], k)
    ensures RightlyAdopted(f, pathOf, elem, logElem, states[k], k, offers[k], states[k + 1])
  {
    RunInOrder(f, pathOf, elem, logElem, states, offers, k);
    assert Turn(f, pathOf, elem, logElem, states, offers, k);
    AdoptedNext(f, pathOf, elem, logElem, states[k], k, offers[k], states[k + 1]);
  }
}
