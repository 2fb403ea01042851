/** Walking a chain of settled blocks: `advance` of dude/sync/chain.py, and the light client of
    dude/sync/lite_client.py, whose trusted head moves only along such walks. */
module Chain {
  import opened Bytes
  import opened Ops
  import opened Slice
  import opened Blocks
  import opened Smt
  import M = Multisig

  datatype Trust = Trust(w: Wire, verify: M.Verifier, roster: seq<Node>, anchor: Node)

  datatype Refusal = NothingToWalk | BrokenLink | Unauthorised

  datatype Walk = Reached(head: SettledBlock) | Refused(why: Refusal)

  /** The block is authorised by the roster or the anchor. */
  ghost predicate Authentic(t: Trust, b: SettledBlock) {
    M.Authorised(t.verify, b.multisig, PayloadOf(t.w, b), t.roster, t.anchor)
  }

  /** The hash a chain from `start` ends on. */
  ghost function EndHash(w: Wire, start: Bytes, blocks: seq<SettledBlock>): Bytes {
    if blocks == [] then start else BlockHash(w, blocks[|blocks| - 1])
  }

  /** `blocks` is a chain of authentic blocks on top of the block hashed `start`. */
  ghost predicate Chained(t: Trust, start: Bytes, blocks: seq<SettledBlock>)
    decreases |blocks|
  {
    blocks == [] ||
    (blocks[0].anchors.prevBlock == start && Authentic(t, blocks[0]) &&
     Chained(t, BlockHash(t.w, blocks[0]), blocks[1..]))
  }

  lemma {:induction false} ChainedAppend(t: Trust, start: Bytes, p: seq<SettledBlock>, q: seq<SettledBlock>)
    ensures Chained(t, start, p + q) <==> Chained(t, start, p) && Chained(t, EndHash(t.w, start, p), q)
    ensures EndHash(t.w, start, p + q) == EndHash(t.w, EndHash(t.w, start, p), q)
    decreases |p|
  {
    if p == [] {
      assert p + q == q;
    } else {
      assert (p + q)[1..] == p[1..] + q && (p + q)[0] == p[0];
      ChainedAppend(t, BlockHash(t.w, p[0]), p[1..], q);
    }
  }

  /** The block names the hash before it and is authorised, by a quorum of the roster or the anchor. */
  ghost predicate LinksOn(t: Trust, start: Bytes, blocks: seq<SettledBlock>, i: nat)
    requires i < |blocks|
  {
    blocks[i].anchors.prevBlock == (if i == 0 then start else BlockHash(t.w, blocks[i - 1])) &&
    M.Authorised(t.verify, blocks[i].multisig, PayloadOf(t.w, blocks[i]), t.roster, t.anchor)
  }

  lemma ChainedLast(t: Trust, start: Bytes, blocks: seq<SettledBlock>)
    requires blocks != []
    ensures var n := |blocks| - 1;
            Chained(t, start, blocks) <==> Chained(t, start, blocks[..n]) && LinksOn(t, start, blocks, n)
  {
    var n := |blocks| - 1;
    ChainedAppend(t, start, blocks[..n], [blocks[n]]);
    assert blocks == blocks[..n] + [blocks[n]] && [blocks[n]][1..] == [];
  }

  /** A chain, block by block. */
  lemma {:induction false} ChainedExactly(t: Trust, start: Bytes, blocks: seq<SettledBlock>)
    ensures Chained(t, start, blocks) <==> AllLink(t, start, blocks)
    decreases |blocks|
  {
    if blocks != [] {
      var n := |blocks| - 1;
      ChainedExactly(t, start, blocks[..n]);
      ChainedLast(t, start, blocks);
      LinksBefore(t, start, blocks, blocks[..n]);
    }
  }

  ghost predicate AllLink(t: Trust, start: Bytes, blocks: seq<SettledBlock>) {
    forall i :: 0 <= i < |blocks| ==> LinksOn(t, start, blocks, i)
  }

  lemma LinksBefore(t: Trust, start: Bytes, blocks: seq<SettledBlock>, init: seq<SettledBlock>)
    requires blocks != [] && init == blocks[..|blocks| - 1]
    ensures AllLink(t, start, blocks) <==> AllLink(t, start, init) && LinksOn(t, start, blocks, |blocks| - 1)
  {
    forall i | 0 <= i < |init| ensures LinksOn(t, start, blocks, i) == LinksOn(t, start, init, i) {
      assert init[i] == blocks[i] && (i > 0 ==> init[i - 1] == blocks[i - 1]);
    }
  }

  /** The first `k` blocks chain and the next does not follow: `why` says what is wrong with it. */
  ghost predicate StopsAt(t: Trust, start: Bytes, blocks: seq<SettledBlock>, k: nat, why: Refusal) {
    k < |blocks| && Chained(t, start, blocks[..k]) &&
    var linked := blocks[k].anchors.prevBlock == EndHash(t.w, start, blocks[..k]);
    why == (if !linked then BrokenLink else Unauthorised) && (linked ==> !Authentic(t, blocks[k]))
  }

  ghost predicate Stops(t: Trust, start: Bytes, blocks: seq<SettledBlock>, why: Refusal) {
    exists k: nat :: StopsAt(t, start, blocks, k, why)
  }

  lemma StopIsNoChain(t: Trust, start: Bytes, blocks: seq<SettledBlock>, k: nat, why: Refusal)
    requires StopsAt(t, start, blocks, k, why)
    ensures !Chained(t, start, blocks) && Stops(t, start, blocks, why)
  {
    assert blocks == blocks[..k] + blocks[k..] && blocks[k..][0] == blocks[k];
    ChainedAppend(t, start, blocks[..k], blocks[k..]);
  }

  method IsAuthentic(t: Trust, b: SettledBlock) returns (ok: bool)
    ensures ok == Authentic(t, b)
  {
    var payload := ComputePayload(t.w, b);
    ok := M.Authorised(t.verify, b.multisig, payload, t.roster, t.anchor);
  }

  lemma ChainedOne(t: Trust, start: Bytes, b: SettledBlock)
    ensures Chained(t, start, [b]) <==> b.anchors.prevBlock == start && Authentic(t, b)
  {
    assert [b][1..] == [];
  }

  lemma LinkOn(t: Trust, start: Bytes, init: seq<SettledBlock>, b: SettledBlock)
    requires Chained(t, start, init) && Chained(t, EndHash(t.w, start, init), [b])
    ensures Chained(t, start, init + [b]) && EndHash(t.w, start, init + [b]) == BlockHash(t.w, b)
  {
    ChainedAppend(t, start, init, [b]);
  }

  lemma OneLink(t: Trust, start: Bytes, blocks: seq<SettledBlock>, i: nat)
    requires i < |blocks| && Chained(t, start, blocks[..i])
    requires blocks[i].anchors.prevBlock == EndHash(t.w, start, blocks[..i]) && Authentic(t, blocks[i])
    ensures Chained(t, start, blocks[..i + 1]) && EndHash(t.w, start, blocks[..i + 1]) == BlockHash(t.w, blocks[i])
  {
    assert blocks[..i + 1] == blocks[..i] + [blocks[i]];
    ChainedOne(t, EndHash(t.w, start, blocks[..i]), blocks[i]);
    LinkOn(t, start, blocks[..i], blocks[i]);
  }

  /** `advance`: all of the chain or nothing, and why not. */
  method Advance(t: Trust, start: Bytes, blocks: seq<SettledBlock>) returns (r: Walk)
    ensures r.Reached? <==> blocks != [] && Chained(t, start, blocks)
    ensures r.Reached? ==> r.head == blocks[|blocks| - 1]
    ensures r.Refused? ==> if blocks == [] then r.why == NothingToWalk else Stops(t, start, blocks, r.why)
  {
    if blocks == [] { return Refused(NothingToWalk); }
    var prev := start;
    for i := 0 to |blocks|
      invariant prev == EndHash(t.w, start, blocks[..i]) && Chained(t, start, blocks[..i])
    {
      var b := blocks[i];
      if b.anchors.prevBlock != prev {
        StopIsNoChain(t, start, blocks, i, BrokenLink);
        return Refused(BrokenLink);
      }
      var authentic := IsAuthentic(t, b);
      if !authentic {
        StopIsNoChain(t, start, blocks, i, Unauthorised);
        return Refused(Unauthorised);
      }
      OneLink(t, start, blocks, i);
      prev := ComputeBlockHash(t.w, b);
    }
    assert blocks[..|blocks|] == blocks;
    return Reached(blocks[|blocks| - 1]);
  }

  // -------------------------------------------------------------- contiguous headers

  function NumOf(b: SettledBlock): int { b.anchors.blockNum }

  /** `{b.anchors.block_num: b for b in offered}`: the last of each number. */
  function ByNum(offered: seq<SettledBlock>): map<int, SettledBlock> {
    if offered == [] then map[] else
      var n := |offered| - 1;
      ByNum(offered[..n])[NumOf(offered[n]) := offered[n]]
  }

  lemma {:induction false} ByNumIs(offered: seq<SettledBlock>, n: int)
    ensures n in ByNum(offered) <==> exists i :: 0 <= i < |offered| && NumOf(offered[i]) == n
    ensures n in ByNum(offered) ==> ByNum(offered)[n] in offered && NumOf(ByNum(offered)[n]) == n
  {
    if offered != [] {
      var k := |offered| - 1;
      ByNumIs(offered[..k], n);
      assert offered == offered[..k] + [offered[k]];
      forall i | 0 <= i < k ensures offered[..k][i] == offered[i] { }
      if n in ByNum(offered[..k]) {
        var i :| 0 <= i < |offered[..k]| && NumOf(offered[..k][i]) == n;
        assert NumOf(offered[i]) == n;
      }
    }
  }

  /** Of several blocks with one number the last offered stands. */
  lemma {:induction false} LastStands(offered: seq<SettledBlock>, i: nat)
    requires i < |offered| && forall j :: i < j < |offered| ==> NumOf(offered[j]) != NumOf(offered[i])
    ensures NumOf(offered[i]) in ByNum(offered) && ByNum(offered)[NumOf(offered[i])] == offered[i]
    decreases |offered|
  {
    var k := |offered| - 1;
    if i < k { LastStands(offered[..k], i); }
  }

  predicate Offers(byNum: map<int, SettledBlock>, n: int, b: SettledBlock) { n in byNum && byNum[n] == b }

  /** `run` is the longest run of offered blocks numbered from `n` on. */
  predicate IsRun(byNum: map<int, SettledBlock>, n: int, run: seq<SettledBlock>) {
    n + |run| !in byNum && forall i :: 0 <= i < |run| ==> Offers(byNum, n + i, run[i])
  }

  lemma {:induction false} RunExists(byNum: map<int, SettledBlock>, n: int) returns (run: seq<SettledBlock>)
    ensures IsRun(byNum, n, run)
    decreases |Above(byNum, n)|
  {
    run := [];
    if n in byNum {
      assert Above(byNum, n) == Above(byNum, n + 1) + {n};
      var rest := RunExists(byNum, n + 1);
      run := [byNum[n]] + rest;
      forall i | 0 <= i < |run| ensures Offers(byNum, n + i, run[i]) {
        if i > 0 { assert Offers(byNum, n + 1 + (i - 1), rest[i - 1]); }
      }
    }
  }

  lemma SomeRun(byNum: map<int, SettledBlock>, n: int)
    ensures exists run :: IsRun(byNum, n, run)
  {
    var run := RunExists(byNum, n);
  }

  ghost function Above(byNum: map<int, SettledBlock>, n: int): set<int> { set k | k in byNum && k >= n }

  lemma RunReaches(byNum: map<int, SettledBlock>, n: int, run: seq<SettledBlock>, k: nat)
    requires IsRun(byNum, n, run) && k <= |run|
    ensures n + k in byNum <==> k < |run|
    ensures k < |run| ==> run[k] == byNum[n + k]
  {
    if k < |run| { assert Offers(byNum, n + k, run[k]); }
  }

  /** There is one such run. */
  lemma RunUnique(byNum: map<int, SettledBlock>, n: int, a: seq<SettledBlock>, b: seq<SettledBlock>)
    requires IsRun(byNum, n, a) && IsRun(byNum, n, b)
    ensures a == b
  {
    var k := if |a| <= |b| then |a| else |b|;
    RunReaches(byNum, n, a, k);
    RunReaches(byNum, n, b, k);
    forall i | 0 <= i < k ensures a[i] == b[i] {
      RunReaches(byNum, n, a, i);
      RunReaches(byNum, n, b, i);
    }
  }

  ghost function RunFrom(byNum: map<int, SettledBlock>, n: int): (run: seq<SettledBlock>)
    ensures IsRun(byNum, n, run)
  {
    SomeRun(byNum, n);
    var run :| IsRun(byNum, n, run);
    run
  }

  /** `_contiguous_from`. */
  method ContiguousFrom(headNum: int, offered: seq<SettledBlock>) returns (run: seq<SettledBlock>)
    ensures IsRun(ByNum(offered), headNum + 1, run)
    ensures forall i :: 0 <= i < |run| ==> run[i] in offered && NumOf(run[i]) == headNum + 1 + i
  {
    var byNum := ByNum(offered);
    var n := headNum + 1;
    ghost var todo := byNum.Keys;
    run := [];
    while n in byNum
      invariant n == headNum + 1 + |run|
      invariant forall i :: 0 <= i < |run| ==> Offers(byNum, headNum + 1 + i, run[i])
      invariant forall k :: k in byNum && k >= n ==> k in todo
      decreases |todo|
    {
      run := run + [byNum[n]];
      todo := todo - {n};
      n := n + 1;
    }
    forall i | 0 <= i < |run| ensures run[i] in offered && NumOf(run[i]) == headNum + 1 + i {
      ByNumIs(offered, headNum + 1 + i);
    }
  }

  // ------------------------------------------------------------------ the light client

  datatype Trusted = Trusted(roster: seq<Node>, fingerprint: Bytes, head: SettledBlock)

  datatype Reply =
    | RefusedReply(untrusted: bool)
    | OtherVerb
    | ProofReply(fingerprint: Bytes, headers: seq<SettledBlock>, head: SettledBlock,
                 proof: Option<Proof>, name: Bytes, held: Option<Held>)

  /** From `a` to `b` along `path`: consecutive block numbers, hash links, each block authorised by
      the roster the client trusts or by the anchor. */
  ghost predicate Moved(t: Trust, a: Trusted, path: seq<SettledBlock>, b: Trusted) {
    t.roster == a.roster == b.roster && a.fingerprint == b.fingerprint &&
    Chained(t, BlockHash(t.w, a.head), path) &&
    (forall i :: 0 <= i < |path| ==> NumOf(path[i]) == NumOf(a.head) + 1 + i) &&
    b.head == (if path == [] then a.head else path[|path| - 1])
  }

  /** The head that offered blocks lead to: the end of the run numbered on from the trusted head, if
      it chains. */
  ghost function HeadAfter(t: Trust, head: SettledBlock, offered: seq<SettledBlock>): Option<SettledBlock> {
    var run := RunFrom(ByNum(offered), NumOf(head) + 1);
    if Chained(t, BlockHash(t.w, head), run) then Some(LastOf(head, run)) else None
  }

  function LastOf(head: SettledBlock, run: seq<SettledBlock>): SettledBlock {
    if run == [] then head else run[|run| - 1]
  }

  lemma HeadAfterIs(t: Trust, head: SettledBlock, offered: seq<SettledBlock>, run: seq<SettledBlock>)
    requires IsRun(ByNum(offered), NumOf(head) + 1, run)
    ensures HeadAfter(t, head, offered) ==
            if Chained(t, BlockHash(t.w, head), run) then Some(LastOf(head, run)) else None
  {
    RunUnique(ByNum(offered), NumOf(head) + 1, run, RunFrom(ByNum(offered), NumOf(head) + 1));
  }

  class LightClient {
    const w: Wire
    const verify: M.Verifier
    const anchor: Node
    const pathOf: Key -> Path
    /** `is_stale` of a head's bucket, at the moment of the reply. */
    const stale: (int, int) -> bool
    var trusted: Option<Trusted>

    constructor (w: Wire, verify: M.Verifier, anchor: Node, pathOf: Key -> Path, stale: (int, int) -> bool)
      ensures trusted == None && this.w == w && this.verify == verify && this.anchor == anchor && this.pathOf == pathOf
    {
      this.w, this.verify, this.anchor, this.pathOf, this.stale := w, verify, anchor, pathOf, stale;
      trusted := None;
    }

    function TrustIn(ts: Trusted): Trust { Trust(w, verify, ts.roster, anchor) }

    /** `_advance_head`. */
    method AdvanceHead(headers: seq<SettledBlock>, responder: SettledBlock)
        returns (ok: bool, ghost path: seq<SettledBlock>)
      modifies this`trusted
      ensures old(trusted) == None ==> !ok && trusted == None
      ensures old(trusted).Some? ==>
                trusted.Some? && Moved(TrustIn(trusted.value), old(trusted).value, path, trusted.value)
      ensures old(trusted).Some? ==>
                var ts := old(trusted).value;
                var head := HeadAfter(TrustIn(ts), ts.head, headers + [responder]);
                ok == head.Some? && trusted == Some(if ok then ts.(head := head.value) else ts)
    {
      path := [];
      if trusted.None? { return false, []; }
      var ts := trusted.value;
      var above := ContiguousFrom(NumOf(ts.head), headers + [responder]);
      HeadAfterIs(TrustIn(ts), ts.head, headers + [responder], above);
      if above == [] { return true, []; }
      var start := ComputeBlockHash(w, ts.head);
      var walked := Advance(TrustIn(ts), start, above);
      if walked.Refused? { return false, []; }
      trusted := Some(ts.(head := walked.head));
      path := above;
      ok := true;
    }

    /** `resolve_read`. A reply is believed exactly when the client gets to the responder's head by
        itself and the proof verifies under that head's root; what it believes is what the rows under
        the root hold. `None` is a failed read, or the exception `verify` raises of a row that does
        not fit. Trust is lost exactly on a refusal that says so or a changed roster, and the head
        moves whenever the offered run chains. */
    method ResolveRead(store: int, name: Bytes, msg: Reply, now: int) returns (result: Option<Option<Held>>)
      modifies this`trusted
      ensures result.Some? <==> old(trusted).Some? && Believes(old(trusted).value, store, name, msg, now)
      ensures result.Some? ==>
                trusted.Some? && msg.ProofReply? && msg.proof.Some? &&
                result.value == msg.held && msg.name == name && msg.fingerprint == trusted.value.fingerprint &&
                BlockHash(w, msg.head) == BlockHash(w, trusted.value.head) &&
                !stale(trusted.value.head.block.bucket, now)
      ensures trusted.None? <==>
                old(trusted).None? || (msg.RefusedReply? && msg.untrusted) ||
                (msg.ProofReply? && msg.fingerprint != old(trusted).value.fingerprint)
      ensures trusted == if old(trusted).Some? then TrustAfter(old(trusted).value, msg) else None
      ensures result.Some? && (msg.held.Some? || LeafOccupant(msg.proof.value)) ==>
                forall rows: Rows :: Root(rows) == trusted.value.head.anchors.stateRoot ==>
                  Get(rows, pathOf(Key(store, name))) == msg.held
      ensures trusted.Some? ==>
                old(trusted).Some? && OneReply(TrustIn(trusted.value), old(trusted).value, trusted.value)
    {
      ghost var path: seq<SettledBlock> := [];
      result := None;
      assert trusted.Some? ==> Moved(TrustIn(trusted.value), trusted.value, [], trusted.value);
      if msg.RefusedReply? {
        if msg.untrusted { trusted := None; }
        return;
      }
      if msg.OtherVerb? || trusted.None? { return; }
      if msg.fingerprint != trusted.value.fingerprint { trusted := None; return; }
      var ok;
      ok, path := AdvanceHead(msg.headers, msg.head);
      assert Moved(TrustIn(trusted.value), old(trusted).value, path, trusted.value);
      if !ok { return; }
      var mine := ComputeBlockHash(w, trusted.value.head);
      var theirs := ComputeBlockHash(w, msg.head);
      if mine != theirs || stale(trusted.value.head.block.bucket, now) { return; }
      if msg.proof.None? || msg.name != name { return; }
      var root, at, proof := trusted.value.head.anchors.stateRoot, pathOf(Key(store, name)), msg.proof.value;
      if !Verify(root, at, msg.held, proof) { return; }
      ProvenIsHeld(root, at, msg.held, proof);
      result := Some(msg.held);
    }

    ghost predicate Believes(ts: Trusted, store: int, name: Bytes, msg: Reply, now: int) {
      msg.ProofReply? && msg.fingerprint == ts.fingerprint &&
      var head := HeadAfter(TrustIn(ts), ts.head, msg.headers + [msg.head]);
      head.Some? && BlockHash(w, head.value) == BlockHash(w, msg.head) && !stale(head.value.block.bucket, now) &&
      msg.name == name && Proves(head.value, pathOf(Key(store, name)), msg)
    }

    /** What is trusted after a reply: nothing, the head moved to, or the head as it was. */
    ghost function TrustAfter(ts: Trusted, msg: Reply): Option<Trusted> {
      match msg
      case RefusedReply(untrusted) => if untrusted then None else Some(ts)
      case OtherVerb => Some(ts)
      case ProofReply(fingerprint, headers, responder, _, _, _) =>
        var head := HeadAfter(TrustIn(ts), ts.head, headers + [responder]);
        if fingerprint != ts.fingerprint then None
        else Some(if head.Some? then ts.(head := head.value) else ts)
    }

    /** An honest reply is believed: one from a responder whose head the client trusts already or
        reaches through the headers it sends, with the row and the proof its tree gives, as long as
        no other row shares the key's first 255 bits and the row can be hashed. */
    lemma HonestIsBelieved(ts: Trusted, store: int, name: Bytes, msg: Reply, now: int, rows: Rows,
                           run: seq<SettledBlock>)
      requires msg.ProofReply? && msg.fingerprint == ts.fingerprint && msg.name == name
      requires IsRun(ByNum(msg.headers + [msg.head]), NumOf(ts.head) + 1, run)
      requires Chained(TrustIn(ts), BlockHash(w, ts.head), run) && msg.head == LastOf(ts.head, run)
      requires !stale(msg.head.block.bucket, now)
      requires IsHonest(msg, rows, pathOf(Key(store, name)))
      ensures Believes(ts, store, name, msg, now)
      ensures TrustAfter(ts, msg) == Some(ts.(head := msg.head))
    {
      HeadAfterIs(TrustIn(ts), ts.head, msg.headers + [msg.head], run);
      HonestProves(msg, rows, pathOf(Key(store, name)));
    }
  }

  predicate Proves(head: SettledBlock, at: Path, msg: Reply)
    requires msg.ProofReply?
  {
    msg.proof.Some? && Verify(head.anchors.stateRoot, at, msg.held, msg.proof.value)
  }

  /** What a tree of these rows answers about a path, where its proof can be accepted. */
  ghost predicate IsHonest(msg: Reply, rows: Rows, at: Path)
    requires msg.ProofReply?
  {
    Root(rows) == msg.head.anchors.stateRoot && msg.held == Get(rows, at) && msg.proof == Some(Prove(rows, at)) &&
    AtMostOne(rows, at, MAX_DEPTH - 1) && (at in rows ==> RowFits(rows[at]))
  }

  lemma HonestProves(msg: Reply, rows: Rows, at: Path)
    requires msg.ProofReply? && IsHonest(msg, rows, at)
    ensures Proves(msg.head, at, msg)
  {
    ProveVerifies(rows, at);
  }

  /** The proof ends in nothing, or in a leaf of the path it names. */
  predicate LeafOccupant(p: Proof) {
    p.occupant.Some? ==> p.occupant.value.1.Leaf? && p.occupant.value.1.path == p.occupant.value.0
  }

  lemma ProvenIsHeld(root: Digest, path: Path, held: Option<Held>, proof: Proof)
    requires Verify(root, path, held, proof)
    ensures held.Some? || LeafOccupant(proof) ==> forall rows: Rows :: Root(rows) == root ==> Get(rows, path) == held
  {
    if held.Some? || LeafOccupant(proof) {
      forall rows: Rows | Root(rows) == root ensures Get(rows, path) == held {
        VerifySound(rows, path, held, proof);
      }
    }
  }

  // ------------------------------------------------------------------------ whole runs

  ghost predicate OneReply(t: Trust, a: Trusted, b: Trusted) { exists path :: Moved(t, a, path, b) }

  /** A run of trusted states, each reached from the last by one reply while trust is kept. */
  ghost predicate IsTrace(t: Trust, states: seq<Trusted>) {
    forall i :: 0 <= i < |states| - 1 ==> OneReply(t, states[i], states[i + 1])
  }

  lemma TraceTail(t: Trust, states: seq<Trusted>)
    requires |states| > 1 && IsTrace(t, states)
    ensures IsTrace(t, states[1..])
  {
    var tail := states[1..];
    forall i | 0 <= i < |tail| - 1 ensures OneReply(t, tail[i], tail[i + 1]) {
      var k := i + 1;
      assert OneReply(t, states[k], states[k + 1]);
    }
  }

  /** Between losses of trust the client's head only rises, by consecutive hash links each
      authorised by its roster or anchor; it stands still only on the same block. */
  lemma {:induction false} HeadOnlyRises(t: Trust, states: seq<Trusted>) returns (path: seq<SettledBlock>)
    requires states != [] && t.roster == states[0].roster && IsTrace(t, states)
    ensures var a, b := states[0], states[|states| - 1];
            Moved(t, a, path, b) && NumOf(b.head) == NumOf(a.head) + |path| &&
            (NumOf(b.head) == NumOf(a.head) <==> b == a)
    decreases |states|
  {
    if |states| == 1 {
      path := [];
    } else {
      assert OneReply(t, states[0], states[0 + 1]);
      var first :| Moved(t, states[0], first, states[1]);
      TraceTail(t, states);
      var rest := HeadOnlyRises(t, states[1..]);
      path := first + rest;
      MovedAppend(t, states[0], first, states[1], rest, states[|states| - 1]);
    }
  }

  lemma MovedAppend(t: Trust, a: Trusted, p: seq<SettledBlock>, b: Trusted, q: seq<SettledBlock>, c: Trusted)
    requires Moved(t, a, p, b) && Moved(t, b, q, c)
    ensures Moved(t, a, p + q, c) && NumOf(c.head) == NumOf(a.head) + |p + q| && (p + q == [] ==> c == a)
  {
    ChainedAppend(t, BlockHash(t.w, a.head), p, q);
  }
}
