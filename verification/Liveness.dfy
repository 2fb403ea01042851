/** That the protocol gets somewhere: a quorum on one head, whose messages arrive, settles whatever
    slice of common bodies it cuts, however many other members are silent (dude/consensus/coordinator.py
    over `Round` and `SettleRound`). */
module Liveness {
  import opened Bytes
  import opened Ops
  import opened Slice
  import opened Rounds
  import opened Blocks
  import opened Promotion
  import opened Protocol
  import M = Multisig
  import Quorum

  // ---------------------------------------------------------------- one event for each node

  lemma {:induction false} RunJoin(cfg: Config, net: Net, a: seq<Action>, b: seq<Action>)
    requires cfg.roster != {}
    ensures Run(cfg, net, a + b) == Run(cfg, Run(cfg, net, a), b)
    decreases |a|
  {
    if a == [] {
      assert a + b == b;
    } else {
      assert (a + b)[1..] == a[1..] + b;
      RunJoin(cfg, Act(cfg, net, a[0]), a[1..], b);
    }
  }

  /** From `net` to `next` each of `ps` has handled `ev`, and what it signed has been sent. */
  ghost predicate Handled(cfg: Config, net: Net, ps: seq<Node>, ev: Event, next: Net)
    requires cfg.roster != {}
  {
    next.members.Keys == net.members.Keys && net.wire <= next.wire &&
    (forall p :: p in ps && p in net.members ==>
       next.members[p] == Handle(cfg, p, net.members[p], ev) && Emits(cfg, p, net.members[p], ev) <= next.wire) &&
    (forall p :: p in net.members && p !in ps ==> next.members[p] == net.members[p])
  }

  lemma StillDelivered(cfg: Config, wire: Traffic, more: Traffic, ev: Event)
    requires Delivered(cfg, wire, ev) && wire <= more
    ensures Delivered(cfg, more, ev)
  {
  }

  lemma OneHandles(cfg: Config, net: Net, p: Node, ev: Event)
    requires cfg.roster != {} && p in net.members && Delivered(cfg, net.wire, ev)
    ensures Handled(cfg, net, [p], ev, Act(cfg, net, Honest(p, ev)))
    ensures Run(cfg, net, [Honest(p, ev)]) == Act(cfg, net, Honest(p, ev))
  {
    assert [Honest(p, ev)][1..] == [];
  }

  lemma {:induction false} EachHandles(cfg: Config, net: Net, ps: seq<Node>, ev: Event) returns (run: seq<Action>)
    requires cfg.roster != {} && Distinct(ps) && (forall p :: p in ps ==> p in net.members)
    requires Delivered(cfg, net.wire, ev)
    ensures Handled(cfg, net, ps, ev, Run(cfg, net, run))
    decreases |ps|
  {
    run := [];
    if ps != [] {
      var n := |ps| - 1;
      var before := EachHandles(cfg, net, ps[..n], ev);
      var mid := Run(cfg, net, before);
      StillDelivered(cfg, net.wire, mid.wire, ev);
      OneHandles(cfg, mid, ps[n], ev);
      run := before + [Honest(ps[n], ev)];
      RunJoin(cfg, net, before, [Honest(ps[n], ev)]);
      HandledNext(cfg, net, ps, ev, mid, Run(cfg, net, run));
    }
  }

  lemma HandledNext(cfg: Config, net: Net, ps: seq<Node>, ev: Event, mid: Net, next: Net)
    requires cfg.roster != {} && ps != [] && Distinct(ps)
    requires var n := |ps| - 1;
             Handled(cfg, net, ps[..n], ev, mid) && Handled(cfg, mid, [ps[n]], ev, next)
    ensures Handled(cfg, net, ps, ev, next)
  {
    var n := |ps| - 1;
    assert ps == ps[..n] + [ps[n]] && ps[n] !in ps[..n];
  }

  // ------------------------------------------------------------------------ one member

  datatype Goal = Goal(bucket: int, head: Bytes, bodies: map<Bytes, Signed>, slice: set<Bytes>, anchors: Anchors)

  ghost function GoalHash(cfg: Config, g: Goal): Bytes { HashOf(cfg, g.bucket, g.slice) }

  /** Free, on the goal's head and not past its bucket. */
  ghost predicate Idle(m: Member, g: Goal) {
    m.round == None && m.settling == None && m.head == g.head && m.currentBucket <= g.bucket
  }

  ghost predicate Collects(cfg: Config, p: Node, m: Member, g: Goal) {
    m.settling == None && m.head == g.head &&
    m.round == Some(Round(g.bucket, p, cfg.roster, g.head, Collecting, g.bodies, map[], map[], None, {}))
  }

  /** It has cut the goal's slice and counts `who` behind it, or is ratified already. */
  ghost predicate Waits(cfg: Config, p: Node, m: Member, g: Goal, who: set<Node>) {
    cfg.roster != {} && m.settling == None && m.head == g.head && m.round.Some? &&
    RoundWaits(cfg, p, m.round.value, g, who)
  }

  ghost predicate RoundWaits(cfg: Config, p: Node, r: Round, g: Goal, who: set<Node>)
    requires cfg.roster != {}
  {
    r.bucket == g.bucket && r.me == p && r.roster == cfg.roster && r.prev == g.head && r.slice == g.slice &&
    r.mySig == Some(GoalHash(cfg, g)) && (forall q :: q in r.sigs ==> r.sigs[q] == GoalHash(cfg, g)) &&
    (r.phase == Gone || (r.phase == Finalized && who <= r.sigs.Keys && |r.sigs.Keys| < Quorum.Size(|cfg.roster|)))
  }

  lemma OpensUp(cfg: Config, p: Node, m: Member, g: Goal)
    requires cfg.roster != {} && Idle(m, g)
    ensures Collects(cfg, p, Handle(cfg, p, m, Open(g.bucket, g.bodies)), g)
  {
  }

  lemma AllAgree(r: Round, h: Bytes)
    requires r.mySig == Some(h) && forall q :: q in r.sigs ==> r.sigs[q] == h
    ensures Agreeing(r) == r.sigs.Keys
  {
  }

  lemma CutsAndSigns(cfg: Config, p: Node, m: Member, g: Goal)
    requires cfg.roster != {} && Collects(cfg, p, m, g) && g.slice <= g.bodies.Keys
    ensures Waits(cfg, p, Handle(cfg, p, m, CutNow(g.slice)), g, {p})
    ensures (p, SigPayload(g.bucket, g.head, GoalHash(cfg, g))) in Emits(cfg, p, m, CutNow(g.slice))
  {
    var r, h := m.round.value, GoalHash(cfg, g);
    var s := r.(phase := Finalized, slice := g.slice, mySig := Some(h), sigs := r.sigs[p := h]);
    AllAgree(s, h);
    assert Handle(cfg, p, m, CutNow(g.slice)).round == Some(TryRatify(s));
  }

  lemma RoundCounts(cfg: Config, p: Node, r: Round, g: Goal, who: set<Node>, q: Node)
    requires cfg.roster != {} && RoundWaits(cfg, p, r, g, who)
    ensures r.roster == cfg.roster && RoundWaits(cfg, p, OnSig(r, q, GoalHash(cfg, g)), g, who + {q})
  {
    var s := r.(sigs := r.sigs[q := GoalHash(cfg, g)]);
    if r.phase == Finalized { AllAgree(s, GoalHash(cfg, g)); }
  }

  lemma CountsSignature(cfg: Config, p: Node, m: Member, g: Goal, who: set<Node>, q: Node)
    requires Waits(cfg, p, m, g, who) && q in cfg.roster
    ensures Waits(cfg, p, Handle(cfg, p, m, SigMsg(g.bucket, g.head, q, GoalHash(cfg, g))), g, who + {q})
  {
    RoundCounts(cfg, p, m.round.value, g, who, q);
  }

  /** It gathers signatures over the goal's slice and anchors and counts `who`, or has settled. */
  ghost predicate Gathers(cfg: Config, m: Member, g: Goal, who: set<Node>) {
    cfg.roster != {} && m.settling.Some? &&
    var s := m.settling.value;
    s.bucket == g.bucket && s.slice == g.slice && s.anchors == g.anchors &&
    (s.stage == M.SettledStage ||
     (s.stage == M.Gathering && who <= s.sigs && |s.sigs| < Quorum.Size(|cfg.roster|)))
  }

  lemma Promotes(cfg: Config, p: Node, m: Member, g: Goal, who: set<Node>)
    requires Waits(cfg, p, m, g, who) && |who| >= Quorum.Size(|cfg.roster|) && g.anchors.prevBlock == g.head
    ensures Gathers(cfg, Handle(cfg, p, m, Ratified(true, g.anchors)), g, {p})
    ensures (p, SettlePayload(cfg.w, GoalHash(cfg, g), g.anchors)) in Emits(cfg, p, m, Ratified(true, g.anchors))
  {
    var r := m.round.value;
    if r.phase == Finalized { Quorum.SubsetSize(who, r.sigs.Keys); }
    assert g.anchors.(prevBlock := r.prev) == g.anchors;
  }

  lemma CountsAnchors(cfg: Config, p: Node, m: Member, g: Goal, who: set<Node>, q: Node)
    requires Gathers(cfg, m, g, who) && q in cfg.roster && p in who
    ensures Gathers(cfg, Handle(cfg, p, m, SettleMsg(GoalHash(cfg, g), g.anchors, q)), g, who + {q})
  {
  }

  ghost predicate Reached(cfg: Config, m: Member, g: Goal) {
    g.bucket in m.settled && m.settled[g.bucket] == Claim(g.slice, g.anchors) &&
    m.head == BlockHash(cfg.w, SettledBlock(Block(g.bucket, SortedKeys(g.slice)), g.anchors, M.MultiSig([], []))) &&
    m.settling == None
  }

  lemma Settles(cfg: Config, p: Node, m: Member, g: Goal, who: set<Node>)
    requires Gathers(cfg, m, g, who) && |who| >= Quorum.Size(|cfg.roster|)
    ensures Reached(cfg, Handle(cfg, p, m, CheckSettled), g)
  {
    if m.settling.value.stage == M.Gathering { Quorum.SubsetSize(who, m.settling.value.sigs); }
  }

  // ----------------------------------------------------------------------- the network

  ghost predicate Together(net: Net, ps: seq<Node>) { Distinct(ps) && forall p :: p in ps ==> p in net.members }

  ghost predicate AllWait(cfg: Config, net: Net, ps: seq<Node>, g: Goal, who: set<Node>) {
    Together(net, ps) && (forall p :: p in ps ==> Waits(cfg, p, net.members[p], g, who + {p})) &&
    forall q :: q in ps ==> (q, SigPayload(g.bucket, g.head, GoalHash(cfg, g))) in net.wire
  }

  ghost predicate AllGather(cfg: Config, net: Net, ps: seq<Node>, g: Goal, who: set<Node>) {
    Together(net, ps) && (forall p :: p in ps ==> Gathers(cfg, net.members[p], g, who + {p})) &&
    forall q :: q in ps ==> (q, SettlePayload(cfg.w, GoalHash(cfg, g), g.anchors)) in net.wire
  }

  /** Some run leads from `net` to where `at` holds of `who`. */
  ghost predicate Leads(cfg: Config, at: (Net, set<Node>) -> bool, net: Net, who: set<Node>) {
    cfg.roster != {} && exists run :: at(Run(cfg, net, run), who)
  }

  /** If one more sender can always be heard, all can. */
  lemma {:induction false} FromEach(cfg: Config, net: Net, qs: seq<Node>, at: (Net, set<Node>) -> bool)
      returns (run: seq<Action>)
    requires cfg.roster != {} && at(net, {})
    requires forall n, who, q :: q in qs && at(n, who) ==> Leads(cfg, at, n, who + {q})
    ensures at(Run(cfg, net, run), SetOf(qs))
    decreases |qs|
  {
    run := [];
    assert SetOf([]) == {};
    if qs != [] {
      var n := |qs| - 1;
      assert qs == qs[..n] + [qs[n]] && SetOf(qs) == SetOf(qs[..n]) + {qs[n]};
      var before := FromEach(cfg, net, qs[..n], at);
      assert Leads(cfg, at, Run(cfg, net, before), SetOf(qs[..n]) + {qs[n]});
      var step :| at(Run(cfg, Run(cfg, net, before), step), SetOf(qs));
      run := before + step;
      RunJoin(cfg, net, before, step);
    }
  }

  lemma CutPhase(cfg: Config, net: Net, ps: seq<Node>, g: Goal) returns (run: seq<Action>)
    requires cfg.roster != {} && Together(net, ps) && g.slice <= g.bodies.Keys
    requires forall p :: p in ps ==> Idle(net.members[p], g)
    ensures AllWait(cfg, Run(cfg, net, run), ps, g, {})
  {
    var first := EachHandles(cfg, net, ps, Open(g.bucket, g.bodies));
    var mid := Run(cfg, net, first);
    forall p | p in ps ensures Collects(cfg, p, mid.members[p], g) { OpensUp(cfg, p, net.members[p], g); }
    var second := EachHandles(cfg, mid, ps, CutNow(g.slice));
    run := first + second;
    RunJoin(cfg, net, first, second);
    var next := Run(cfg, net, run);
    forall p | p in ps
      ensures Waits(cfg, p, next.members[p], g, {} + {p}) &&
              (p, SigPayload(g.bucket, g.head, GoalHash(cfg, g))) in next.wire
    {
      CutsAndSigns(cfg, p, mid.members[p], g);
      assert {} + {p} == {p};
    }
  }

  lemma SignatureStep(cfg: Config, net: Net, ps: seq<Node>, g: Goal, who: set<Node>, q: Node) returns (run: seq<Action>)
    requires cfg.roster != {} && AllWait(cfg, net, ps, g, who) && q in ps && q in cfg.roster
    ensures AllWait(cfg, Run(cfg, net, run), ps, g, who + {q})
  {
    run := EachHandles(cfg, net, ps, SigMsg(g.bucket, g.head, q, GoalHash(cfg, g)));
    var next := Run(cfg, net, run);
    forall p | p in ps ensures Waits(cfg, p, next.members[p], g, who + {q} + {p}) {
      CountsSignature(cfg, p, net.members[p], g, who + {p}, q);
      assert who + {p} + {q} == who + {q} + {p};
    }
  }

  lemma SignaturePhase(cfg: Config, net: Net, ps: seq<Node>, g: Goal, qs: seq<Node>) returns (run: seq<Action>)
    requires cfg.roster != {} && AllWait(cfg, net, ps, g, {}) && forall q :: q in qs ==> q in ps && q in cfg.roster
    ensures AllWait(cfg, Run(cfg, net, run), ps, g, SetOf(qs))
  {
    var at := (n: Net, who: set<Node>) => AllWait(cfg, n, ps, g, who);
    forall n, who, q | q in qs && at(n, who) ensures Leads(cfg, at, n, who + {q}) {
      var step := SignatureStep(cfg, n, ps, g, who, q);
      assert at(Run(cfg, n, step), who + {q});
    }
    run := FromEach(cfg, net, qs, at);
  }

  lemma PromotePhase(cfg: Config, net: Net, ps: seq<Node>, g: Goal) returns (run: seq<Action>)
    requires cfg.roster != {} && AllWait(cfg, net, ps, g, SetOf(ps)) && |SetOf(ps)| >= Quorum.Size(|cfg.roster|)
    requires g.anchors.prevBlock == g.head
    ensures AllGather(cfg, Run(cfg, net, run), ps, g, {})
  {
    run := EachHandles(cfg, net, ps, Ratified(true, g.anchors));
    var next := Run(cfg, net, run);
    forall p | p in ps
      ensures Gathers(cfg, next.members[p], g, {} + {p}) &&
              (p, SettlePayload(cfg.w, GoalHash(cfg, g), g.anchors)) in next.wire
    {
      assert SetOf(ps) + {p} == SetOf(ps) && {} + {p} == {p};
      Promotes(cfg, p, net.members[p], g, SetOf(ps));
    }
  }

  lemma AnchorsStep(cfg: Config, net: Net, ps: seq<Node>, g: Goal, who: set<Node>, q: Node) returns (run: seq<Action>)
    requires cfg.roster != {} && AllGather(cfg, net, ps, g, who) && q in ps && q in cfg.roster
    ensures AllGather(cfg, Run(cfg, net, run), ps, g, who + {q})
  {
    run := EachHandles(cfg, net, ps, SettleMsg(GoalHash(cfg, g), g.anchors, q));
    var next := Run(cfg, net, run);
    forall p | p in ps ensures Gathers(cfg, next.members[p], g, who + {q} + {p}) {
      CountsAnchors(cfg, p, net.members[p], g, who + {p}, q);
      assert who + {p} + {q} == who + {q} + {p};
    }
  }

  lemma AnchorsPhase(cfg: Config, net: Net, ps: seq<Node>, g: Goal, qs: seq<Node>) returns (run: seq<Action>)
    requires cfg.roster != {} && AllGather(cfg, net, ps, g, {}) && forall q :: q in qs ==> q in ps && q in cfg.roster
    ensures AllGather(cfg, Run(cfg, net, run), ps, g, SetOf(qs))
  {
    var at := (n: Net, who: set<Node>) => AllGather(cfg, n, ps, g, who);
    forall n, who, q | q in qs && at(n, who) ensures Leads(cfg, at, n, who + {q}) {
      var step := AnchorsStep(cfg, n, ps, g, who, q);
      assert at(Run(cfg, n, step), who + {q});
    }
    run := FromEach(cfg, net, qs, at);
  }

  /** From any network in which a quorum stands idle on one head, there is a run after which each of
      that quorum has settled the goal: the slice it cut, on that head, with those anchors. */
  lemma QuorumSettles(cfg: Config, net: Net, ps: seq<Node>, g: Goal) returns (run: seq<Action>)
    requires cfg.roster != {} && Together(net, ps) && SetOf(ps) <= cfg.roster
    requires |SetOf(ps)| >= Quorum.Size(|cfg.roster|)
    requires g.slice <= g.bodies.Keys && g.anchors.prevBlock == g.head
    requires forall p :: p in ps ==> Idle(net.members[p], g)
    ensures forall p :: p in ps ==>
              p in Run(cfg, net, run).members && Reached(cfg, Run(cfg, net, run).members[p], g)
  {
    forall p | p in ps ensures p in cfg.roster { assert p in SetOf(ps); }
    var a := CutPhase(cfg, net, ps, g);
    var n1 := Run(cfg, net, a);
    var b := SignaturePhase(cfg, n1, ps, g, ps);
    var n2 := Run(cfg, n1, b);
    var c := PromotePhase(cfg, n2, ps, g);
    var n3 := Run(cfg, n2, c);
    var d := AnchorsPhase(cfg, n3, ps, g, ps);
    var n4 := Run(cfg, n3, d);
    var e := EachHandles(cfg, n4, ps, CheckSettled);
    run := a + (b + (c + (d + e)));
    RunJoin(cfg, net, a, b + (c + (d + e)));
    RunJoin(cfg, n1, b, c + (d + e));
    RunJoin(cfg, n2, c, d + e);
    RunJoin(cfg, n3, d, e);
    forall p | p in ps ensures Reached(cfg, Run(cfg, n4, e).members[p], g) {
      assert SetOf(ps) + {p} == SetOf(ps);
      Settles(cfg, p, n4.members[p], g, SetOf(ps));
    }
  }

  // ------------------------------------------------------------------ getting out again

  /** What reaches a member's round is what its round takes: holdings, bodies and signatures that are
      addressed to it, and its cut. */
  lemma RoundTakes(cfg: Config, p: Node, m: Member, bucket: int, prev: Bytes, peer: Node, hashes: set<Bytes>,
                   bodies: map<Bytes, Signed>, sliceHash: Bytes)
    requires cfg.roster != {} && m.round.Some? && m.round.value.roster == cfg.roster
    ensures var r, hash := m.round.value, (s: set<Bytes>) => HashOf(cfg, m.round.value.bucket, s);
            var mine := r.bucket == bucket && r.prev == prev && peer in cfg.roster;
            Handle(cfg, p, m, HeldMsg(bucket, prev, peer, hashes)) ==
              m.(round := Some(if mine then Take(hash, r, HeldIn(peer, hashes)) else r)) &&
            Handle(cfg, p, m, BodiesMsg(bucket, prev, peer, bodies)) ==
              m.(round := Some(if mine then Take(hash, r, BodiesIn(bodies)) else r)) &&
            Handle(cfg, p, m, SigMsg(bucket, prev, peer, sliceHash)) ==
              m.(round := Some(if mine then Take(hash, r, SigIn(peer, sliceHash)) else r)) &&
            Handle(cfg, p, m, CutNow(hashes)).round == Some(Take(hash, r, CutIn(hashes)))
  {
  }

  /** A member stuck in a round that is not ratified, or in a settlement short of a quorum, is idle
      again after its deadlines, on the head it had. */
  lemma GivesUp(cfg: Config, p: Node, m: Member, g: Goal)
    requires cfg.roster != {} && m.head == g.head && m.currentBucket <= g.bucket
    requires m.round.Some? ==> m.round.value.phase == Finalized
    requires m.settling.Some? ==> m.settling.value.stage == M.Gathering
    ensures var a := Handle(cfg, p, m, AbandonRound);
            var b := Handle(cfg, p, a, AbandonSettling);
            var c := Handle(cfg, p, b, CheckSettled);
            Idle(c, g) && c.settled == m.settled && c.promoted == m.promoted && c.cut == m.cut
  {
  }

  /** A ratified round is dropped if its promotion is refused or the head has moved under it, and only
      a free slot promotes. */
  lemma DropsRatified(cfg: Config, p: Node, m: Member, proceed: bool, anchors: Anchors)
    requires cfg.roster != {} && m.round.Some? && m.round.value.phase == Gone
    ensures var n := Handle(cfg, p, m, Ratified(proceed, anchors));
            if m.settling.Some? then n == m
            else if !proceed || m.head != m.round.value.prev then n == m.(round := None)
            else n.round == None && n.settling.Some?
  {
  }

  /** A closed bucket is entered once, with a round or without, and a followed block moves the head. */
  lemma PassesOn(cfg: Config, p: Node, m: Member, bucket: int, bodies: map<Bytes, Signed>, head: Bytes)
    requires cfg.roster != {}
    ensures var free := m.round == None && m.currentBucket <= bucket;
            (Handle(cfg, p, m, Skip(bucket)) == if free then m.(currentBucket := bucket + 1) else m) &&
            (free ==> Handle(cfg, p, m, Open(bucket, bodies)).currentBucket == bucket + 1) &&
            (!free ==> Handle(cfg, p, m, Open(bucket, bodies)) == m) &&
            Handle(cfg, p, m, HeadMoved(head)) == m.(head := head)
  {
  }
}
