/** The two-stage agreement of dude/consensus as steps of a network: honest members run the
    coordinator of dude/consensus/coordinator.py over a `Round` and then a `SettleRound`; faulty
    members sign whatever they like. Messages travel in any order, any number of times or never:
    `wire` is everything anyone ever signed, and a step may read any of it.

    Beside what the source keeps, each member carries the history of what it cut, promoted and
    settled, which no step reads. */
module Protocol {
  import opened Bytes
  import opened Ops
  import opened Slice
  import opened Rounds
  import opened Blocks
  import opened Promotion
  import C = Canonical
  import M = Multisig
  import Quorum

  datatype Config = Config(roster: set<Node>, faulty: set<Node>, w: Wire)

  /** A common roster, at most `tolerates(n)` faulty members, hashes without collisions. */
  ghost predicate Sound(cfg: Config) {
    cfg.roster != {} && |cfg.faulty| <= Quorum.Tolerates(|cfg.roster|) && Faithful(cfg.w)
  }

  datatype Settling = Settling(bucket: int, slice: set<Bytes>, anchors: Anchors, sigs: set<Node>, stage: M.Stage)

  datatype CutRecord = CutRecord(prev: Bytes, slice: set<Bytes>)

  datatype Claim = Claim(slice: set<Bytes>, anchors: Anchors)

  datatype Member = Member(
    currentBucket: int,
    head: Bytes,
    round: Option<Round>,
    settling: Option<Settling>,
    cut: map<int, CutRecord>,
    promoted: map<int, Claim>,
    settled: map<int, Claim>)

  datatype Event =
    | Open(bucket: int, bodies: map<Bytes, Signed>)
    | Skip(bucket: int)
    | HeldMsg(bucket: int, prev: Bytes, peer: Node, hashes: set<Bytes>)
    | BodiesMsg(bucket: int, prev: Bytes, peer: Node, bodies: map<Bytes, Signed>)
    | SigMsg(bucket: int, prev: Bytes, peer: Node, sliceHash: Bytes)
    | CutNow(slice: set<Bytes>)
    | AbandonRound
    | Ratified(proceed: bool, anchors: Anchors)
    | SettleMsg(sliceHash: Bytes, anchors: Anchors, peer: Node)
    | AbandonSettling
    | CheckSettled
    | HeadMoved(head: Bytes)

  ghost function HashOf(cfg: Config, bucket: int, slice: set<Bytes>): Bytes { SliceHash(cfg.w.h, bucket, slice) }

  ghost function SigOf(cfg: Config, bucket: int, c: CutRecord): Bytes {
    SigPayload(bucket, c.prev, HashOf(cfg, bucket, c.slice))
  }

  ghost function SettleSigOf(cfg: Config, bucket: int, c: Claim): Bytes {
    SettlePayload(cfg.w, HashOf(cfg, bucket, c.slice), c.anchors)
  }

  function StageAt(cfg: Config, sigs: set<Node>): M.Stage
    requires cfg.roster != {}
  {
    if |sigs| >= Quorum.Size(|cfg.roster|) then M.SettledStage else M.Gathering
  }

  // ------------------------------------------------------------------------ the steps

  /** `_close_current_bucket`: the latest closed bucket gets a round, or is passed over. */
  function AtOpen(cfg: Config, me: Node, m: Member, bucket: int, bodies: map<Bytes, Signed>): Member {
    if m.round.Some? || bucket < m.currentBucket then m
    else m.(currentBucket := bucket + 1,
            round := Some(Round(bucket, me, cfg.roster, m.head, Collecting, bodies, map[], map[], None, {})))
  }

  function AtSkip(m: Member, bucket: int): Member {
    if m.round.Some? || bucket < m.currentBucket then m else m.(currentBucket := bucket + 1)
  }

  predicate Addressed(cfg: Config, m: Member, bucket: int, prev: Bytes, peer: Node) {
    m.round.Some? && m.round.value.bucket == bucket && m.round.value.prev == prev && peer in cfg.roster
  }

  function AtSig(cfg: Config, m: Member, bucket: int, prev: Bytes, peer: Node, sliceHash: Bytes): Member {
    if Addressed(cfg, m, bucket, prev, peer) && m.round.value.roster != {}
    then m.(round := Some(OnSig(m.round.value, peer, sliceHash))) else m
  }

  predicate CanCut(m: Member, slice: set<Bytes>) {
    m.round.Some? && m.round.value.phase == Collecting && slice <= m.round.value.local.Keys &&
    m.round.value.roster != {}
  }

  /** The tick at `close_by`, with the slice the round chose and the screen let through. */
  ghost function AtCut(cfg: Config, m: Member, slice: set<Bytes>): Member {
    if !CanCut(m, slice) then m else
      var r := m.round.value;
      m.(round := Some(Cut(r, slice, HashOf(cfg, r.bucket, slice))), cut := m.cut[r.bucket := CutRecord(r.prev, slice)])
  }

  function AtAbandonRound(m: Member): Member {
    if m.round.Some? && m.round.value.phase == Finalized then m.(round := None) else m
  }

  predicate CanPromote(m: Member, proceed: bool) {
    m.round.Some? && m.round.value.phase == Gone && m.settling.None? && proceed && m.head == m.round.value.prev
  }

  /** `_check_ratified`: promote a ratified round once, or drop it if the head has moved, the node
      has left the roster or the preview rejects something (`proceed` is false). */
  function AtRatified(cfg: Config, me: Node, m: Member, proceed: bool, anchors: Anchors): Member
    requires cfg.roster != {}
  {
    if CanPromote(m, proceed) then
      var r, a := m.round.value, anchors.(prevBlock := m.round.value.prev);
      m.(round := None,
         settling := Some(Settling(r.bucket, r.slice, a, {me}, StageAt(cfg, {me}))),
         promoted := m.promoted[r.bucket := Claim(r.slice, a)])
    else if m.round.Some? && m.round.value.phase == Gone && m.settling.None? then m.(round := None)
    else m
  }

  /** `_on_settle_msg` and `SettleRound.receive`. */
  ghost function AtSettleMsg(cfg: Config, me: Node, m: Member, sliceHash: Bytes, anchors: Anchors, peer: Node): Member
    requires cfg.roster != {}
  {
    match m.settling
    case Some(s) =>
      if HashOf(cfg, s.bucket, s.slice) == sliceHash && peer in cfg.roster && peer != me &&
         anchors == s.anchors && s.stage == M.Gathering
      then m.(settling := Some(s.(sigs := s.sigs + {peer}, stage := StageAt(cfg, s.sigs + {peer}))))
      else m
    case None => m
  }

  function AtAbandonSettling(m: Member): Member {
    if m.settling.Some? && m.settling.value.stage == M.Gathering
    then m.(settling := Some(m.settling.value.(stage := M.AbandonedStage))) else m
  }

  /** `_check_settled`: commit a settled block, which becomes the head, or drop an abandoned one. */
  ghost function AtCheckSettled(cfg: Config, m: Member): Member {
    match m.settling
    case Some(Settling(bucket, slice, anchors, _, SettledStage)) =>
      var block := SettledBlock(Block(bucket, SortedKeys(slice)), anchors, M.MultiSig([], []));
      m.(settling := None, head := BlockHash(cfg.w, block), settled := m.settled[bucket := Claim(slice, anchors)])
    case Some(Settling(_, _, _, _, AbandonedStage)) => m.(settling := None)
    case _ => m
  }

  ghost function Handle(cfg: Config, me: Node, m: Member, ev: Event): Member
    requires cfg.roster != {}
  {
    match ev
    case Open(bucket, bodies) => AtOpen(cfg, me, m, bucket, bodies)
    case Skip(bucket) => AtSkip(m, bucket)
    case HeldMsg(bucket, prev, peer, hashes) =>
      if Addressed(cfg, m, bucket, prev, peer) then m.(round := Some(OnHeld(m.round.value, peer, hashes))) else m
    case BodiesMsg(bucket, prev, peer, bodies) =>
      if Addressed(cfg, m, bucket, prev, peer) then m.(round := Some(Absorb(m.round.value, bodies))) else m
    case SigMsg(bucket, prev, peer, sliceHash) => AtSig(cfg, m, bucket, prev, peer, sliceHash)
    case CutNow(slice) => AtCut(cfg, m, slice)
    case AbandonRound => AtAbandonRound(m)
    case Ratified(proceed, anchors) => AtRatified(cfg, me, m, proceed, anchors)
    case SettleMsg(sliceHash, anchors, peer) => AtSettleMsg(cfg, me, m, sliceHash, anchors, peer)
    case AbandonSettling => AtAbandonSettling(m)
    case CheckSettled => AtCheckSettled(cfg, m)
    case HeadMoved(head) => m.(head := head)
  }

  type Traffic = set<(Node, Bytes)>

  /** What a step signs and sends. */
  ghost function Emits(cfg: Config, me: Node, m: Member, ev: Event): Traffic {
    match ev
    case CutNow(slice) =>
      if CanCut(m, slice) then {(me, SigOf(cfg, m.round.value.bucket, CutRecord(m.round.value.prev, slice)))} else {}
    case Ratified(proceed, anchors) =>
      if CanPromote(m, proceed)
      then {(me, SettleSigOf(cfg, m.round.value.bucket,
        Claim(m.round.value.slice, anchors.(prevBlock := m.round.value.prev))))}
      else {}
    case _ => {}
  }

  /** Signatures cannot be forged: a message that verifies is on the wire. */
  ghost predicate Delivered(cfg: Config, wire: Traffic, ev: Event) {
    match ev
    case SigMsg(bucket, prev, peer, sliceHash) => (peer, SigPayload(bucket, prev, sliceHash)) in wire
    case SettleMsg(sliceHash, anchors, peer) => (peer, SettlePayload(cfg.w, sliceHash, anchors)) in wire
    case _ => true
  }

  datatype Net = Net(members: map<Node, Member>, wire: Traffic)

  datatype Action = Honest(who: Node, ev: Event) | Faulty(who: Node, payload: Bytes)

  ghost function Act(cfg: Config, net: Net, a: Action): Net
    requires cfg.roster != {}
  {
    match a
    case Faulty(who, payload) =>
      if who in cfg.faulty then net.(wire := net.wire + {(who, payload)}) else net
    case Honest(who, ev) =>
      if who in net.members && Delivered(cfg, net.wire, ev) then
        Net(net.members[who := Handle(cfg, who, net.members[who], ev)],
          net.wire + Emits(cfg, who, net.members[who], ev))
      else net
  }

  ghost function Run(cfg: Config, net: Net, run: seq<Action>): Net
    requires cfg.roster != {}
    decreases |run|
  {
    if run == [] then net else Run(cfg, Act(cfg, net, run[0]), run[1..])
  }

  /** A member on its own: its state and everything it has signed after these events. */
  ghost function Play(cfg: Config, me: Node, m: Member, evs: seq<Event>): (Member, Traffic)
    requires cfg.roster != {}
    decreases |evs|
  {
    if evs == [] then (m, {}) else
      var (now, sent) := Play(cfg, me, m, evs[..|evs| - 1]);
      var ev := evs[|evs| - 1];
      (Handle(cfg, me, now, ev), sent + Emits(cfg, me, now, ev))
  }

  lemma PlaySnoc(cfg: Config, me: Node, m: Member, evs: seq<Event>, ev: Event)
    requires cfg.roster != {}
    ensures var (now, sent) := Play(cfg, me, m, evs);
            Play(cfg, me, m, evs + [ev]) == (Handle(cfg, me, now, ev), sent + Emits(cfg, me, now, ev))
  {
    assert (evs + [ev])[..|evs|] == evs;
  }

  /** The event of one action, if it reaches member `p`. */
  ghost function Seen(cfg: Config, net: Net, a: Action, p: Node): seq<Event> {
    if a.Honest? && a.who == p && Delivered(cfg, net.wire, a.ev) then [a.ev] else []
  }

  /** The events of a run that reach member `p`. */
  ghost function EventsOf(cfg: Config, net: Net, run: seq<Action>, p: Node): seq<Event>
    requires cfg.roster != {}
    decreases |run|
  {
    if run == [] then [] else Seen(cfg, net, run[0], p) + EventsOf(cfg, Act(cfg, net, run[0]), run[1..], p)
  }

  /** Member `p` is where the events `evs` take it, and what it signed on the way is on the wire. */
  ghost predicate IsAt(cfg: Config, p: Node, born: Member, evs: seq<Event>, net: Net) {
    cfg.roster != {} && p in net.members &&
    var (now, sent) := Play(cfg, p, born, evs);
    net.members[p] == now && sent <= net.wire
  }

  /** In a run every honest member is where its own events take it, and all it signed was sent. */
  lemma MemberIsPlay(cfg: Config, net: Net, run: seq<Action>, p: Node)
    requires cfg.roster != {} && p in net.members
    ensures IsAt(cfg, p, net.members[p], EventsOf(cfg, net, run, p), Run(cfg, net, run))
  {
    var born := net.members[p];
    forall evs, now, a | IsAt(cfg, p, born, evs, now)
      ensures IsAt(cfg, p, born, evs + Seen(cfg, now, a, p), Act(cfg, now, a))
    {
      StepIsAt(cfg, p, born, evs, now, a);
    }
    OverRun(cfg, p, (evs, now) => IsAt(cfg, p, born, evs, now), [], net, run);
    assert [] + EventsOf(cfg, net, run, p) == EventsOf(cfg, net, run, p);
  }

  lemma StepIsAt(cfg: Config, p: Node, born: Member, evs: seq<Event>, net: Net, a: Action)
    requires IsAt(cfg, p, born, evs, net)
    ensures IsAt(cfg, p, born, evs + Seen(cfg, net, a, p), Act(cfg, net, a))
  {
    if Seen(cfg, net, a, p) == [] {
      assert evs + [] == evs;
    } else {
      PlaySnoc(cfg, p, born, evs, a.ev);
    }
  }

  /** What each action keeps of a member's events and the network, a run keeps. */
  lemma {:induction false} OverRun(
      cfg: Config, p: Node, at: (seq<Event>, Net) -> bool, past: seq<Event>, net: Net, run: seq<Action>)
    requires cfg.roster != {} && at(past, net)
    requires forall evs, now, a :: at(evs, now) ==> at(evs + Seen(cfg, now, a, p), Act(cfg, now, a))
    ensures at(past + EventsOf(cfg, net, run, p), Run(cfg, net, run))
    decreases |run|
  {
    if run == [] {
      assert past + [] == past;
    } else {
      var seen, next := Seen(cfg, net, run[0], p), Act(cfg, net, run[0]);
      OverRun(cfg, p, at, past + seen, next, run[1..]);
      var rest := EventsOf(cfg, next, run[1..], p);
      assert past + seen + rest == past + (seen + rest);
    }
  }

  /** Honest members of the roster, each just started at some bucket and on some head. */
  ghost predicate Initial(cfg: Config, net: Net) {
    net.members.Keys == cfg.roster - cfg.faulty && net.wire == {} &&
    forall p :: p in net.members ==>
      var m := net.members[p];
      m.round == None && m.settling == None && m.cut == map[] && m.promoted == map[] && m.settled == map[]
  }

  // -------------------------------------------------------------------- the invariant

  /** A quorum of the roster signed `payload`. */
  ghost predicate Backed(cfg: Config, wire: Traffic, payload: Bytes) {
    cfg.roster != {} && exists who :: IsBacking(cfg, wire, payload, who)
  }

  ghost predicate IsBacking(cfg: Config, wire: Traffic, payload: Bytes, who: set<Node>)
    requires cfg.roster != {}
  {
    who <= cfg.roster && |who| >= Quorum.Size(|cfg.roster|) && forall q :: q in who ==> (q, payload) in wire
  }

  ghost predicate RoundOk(cfg: Config, me: Node, m: Member, r: Round, wire: Traffic) {
    cfg.roster != {} && r.roster == cfg.roster && r.me == me && r.bucket < m.currentBucket && r.bucket !in m.promoted &&
    (r.phase == Collecting ==> r.bucket !in m.cut && r.mySig == None) &&
    (r.phase != Collecting ==>
       r.bucket in m.cut && m.cut[r.bucket] == CutRecord(r.prev, r.slice) &&
       r.mySig == Some(HashOf(cfg, r.bucket, r.slice))) &&
    (forall q :: q in r.sigs ==> q in cfg.roster && (q, SigPayload(r.bucket, r.prev, r.sigs[q])) in wire) &&
    (r.phase == Gone ==> |Agreeing(r)| >= Quorum.Size(|cfg.roster|))
  }

  ghost predicate SettlingOk(cfg: Config, m: Member, s: Settling, wire: Traffic) {
    cfg.roster != {} && s.bucket in m.promoted && m.promoted[s.bucket] == Claim(s.slice, s.anchors) &&
    s.sigs <= cfg.roster &&
    (forall q :: q in s.sigs ==> (q, SettleSigOf(cfg, s.bucket, Claim(s.slice, s.anchors))) in wire) &&
    (s.stage == M.SettledStage ==> |s.sigs| >= Quorum.Size(|cfg.roster|))
  }

  ghost predicate CutOk(m: Member) {
    forall b :: b in m.cut ==> b < m.currentBucket
  }

  ghost predicate PromotedOk(cfg: Config, m: Member, wire: Traffic) {
    forall b :: b in m.promoted ==>
      b in m.cut && m.cut[b] == CutRecord(m.promoted[b].anchors.prevBlock, m.promoted[b].slice) &&
      Backed(cfg, wire, SigOf(cfg, b, m.cut[b]))
  }

  ghost predicate SettledOk(cfg: Config, m: Member, wire: Traffic) {
    forall b :: b in m.settled ==>
      b in m.promoted && m.settled[b] == m.promoted[b] && Backed(cfg, wire, SettleSigOf(cfg, b, m.promoted[b]))
  }

  ghost predicate MemberOk(cfg: Config, me: Node, m: Member, wire: Traffic) {
    cfg.roster != {} && me in cfg.roster && CutOk(m) && PromotedOk(cfg, m, wire) && SettledOk(cfg, m, wire) &&
    (m.round.Some? ==> RoundOk(cfg, me, m, m.round.value, wire)) &&
    (m.settling.Some? ==> SettlingOk(cfg, m, m.settling.value, wire))
  }

  /** An honest member has signed only what its history records: one slice per bucket it cut, one
      set of anchors per bucket it promoted. */
  ghost predicate OnRecord(cfg: Config, m: Member, payload: Bytes) {
    (exists b :: b in m.cut && payload == SigOf(cfg, b, m.cut[b])) ||
    (exists b :: b in m.promoted && payload == SettleSigOf(cfg, b, m.promoted[b]))
  }

  ghost predicate NetOk(cfg: Config, net: Net) {
    net.members.Keys == cfg.roster - cfg.faulty &&
    (forall p :: p in net.members ==> MemberOk(cfg, p, net.members[p], net.wire)) &&
    (forall p, payload :: (p, payload) in net.wire && p in net.members ==> OnRecord(cfg, net.members[p], payload)) &&
    (forall p, payload :: (p, payload) in net.wire ==> p in net.members || p in cfg.faulty)
  }

  ghost predicate Grows(m: Member, n: Member) {
    (forall b :: b in m.cut ==> b in n.cut && n.cut[b] == m.cut[b]) &&
    (forall b :: b in m.promoted ==> b in n.promoted && n.promoted[b] == m.promoted[b])
  }

  lemma BackedMore(cfg: Config, wire: Traffic, more: Traffic, payload: Bytes)
    requires Backed(cfg, wire, payload) && wire <= more
    ensures Backed(cfg, more, payload)
  {
    var who :| IsBacking(cfg, wire, payload, who);
    assert IsBacking(cfg, more, payload, who);
  }

  lemma MemberMore(cfg: Config, me: Node, m: Member, wire: Traffic, more: Traffic)
    requires MemberOk(cfg, me, m, wire) && wire <= more
    ensures MemberOk(cfg, me, m, more)
  {
    forall b | b in m.promoted ensures Backed(cfg, more, SigOf(cfg, b, m.cut[b])) {
      BackedMore(cfg, wire, more, SigOf(cfg, b, m.cut[b]));
    }
    forall b | b in m.settled ensures Backed(cfg, more, SettleSigOf(cfg, b, m.promoted[b])) {
      BackedMore(cfg, wire, more, SettleSigOf(cfg, b, m.promoted[b]));
    }
  }

  /** The step from `m` to `n` that signed `sent` keeps the member in order and on record. */
  ghost predicate Kept(cfg: Config, me: Node, m: Member, n: Member, wire: Traffic, sent: Traffic) {
    MemberOk(cfg, me, n, wire + sent) && Grows(m, n) && forall e :: e in sent ==> e.0 == me && OnRecord(cfg, n, e.1)
  }

  /** A step that touches only the round. */
  lemma RoundStep(cfg: Config, me: Node, m: Member, wire: Traffic, r: Round)
    requires MemberOk(cfg, me, m, wire) && RoundOk(cfg, me, m, r, wire)
    ensures Kept(cfg, me, m, m.(round := Some(r)), wire, {})
  {
    assert wire + {} == wire;
  }

  lemma SigIsRoundStep(cfg: Config, me: Node, m: Member, wire: Traffic, bucket: int, prev: Bytes, peer: Node,
      sliceHash: Bytes)
    requires MemberOk(cfg, me, m, wire) && (peer, SigPayload(bucket, prev, sliceHash)) in wire
    ensures Kept(cfg, me, m, AtSig(cfg, m, bucket, prev, peer, sliceHash), wire, {})
  {
    assert wire + {} == wire;
    if Addressed(cfg, m, bucket, prev, peer) {
      RatifyKeeps(cfg, me, m, wire, m.round.value, peer, sliceHash);
      RoundStep(cfg, me, m, wire, OnSig(m.round.value, peer, sliceHash));
    }
  }

  lemma RatifyKeeps(cfg: Config, me: Node, m: Member, wire: Traffic, r: Round, peer: Node, sliceHash: Bytes)
    requires cfg.roster != {} && RoundOk(cfg, me, m, r, wire) && peer in cfg.roster
    requires (peer, SigPayload(r.bucket, r.prev, sliceHash)) in wire
    ensures RoundOk(cfg, me, m, OnSig(r, peer, sliceHash), wire)
  {
    var s := r.(sigs := r.sigs[peer := sliceHash]);
    assert Agreeing(TryRatify(s)) == Agreeing(s);
  }

  lemma StepCut(cfg: Config, me: Node, m: Member, wire: Traffic, slice: set<Bytes>)
    requires MemberOk(cfg, me, m, wire)
    ensures Kept(cfg, me, m, AtCut(cfg, m, slice), wire, Emits(cfg, me, m, CutNow(slice)))
  {
    assert wire + {} == wire;
    if CanCut(m, slice) {
      var r, n := m.round.value, AtCut(cfg, m, slice);
      var record := CutRecord(r.prev, slice);
      var sent := {(me, SigOf(cfg, r.bucket, record))};
      MemberMore(cfg, me, m, wire, wire + sent);
      CutKeeps(cfg, me, m, n, wire + sent, r, slice);
      CutIsOnRecord(cfg, n, r.bucket, record);
    }
  }

  lemma CutIsOnRecord(cfg: Config, n: Member, bucket: int, record: CutRecord)
    requires bucket in n.cut && n.cut[bucket] == record
    ensures OnRecord(cfg, n, SigOf(cfg, bucket, record))
  {
  }

  lemma CutKeeps(cfg: Config, me: Node, m: Member, n: Member, wire: Traffic, r: Round, slice: set<Bytes>)
    requires MemberOk(cfg, me, m, wire) && m.round == Some(r) && CanCut(m, slice) && n == AtCut(cfg, m, slice)
    requires (me, SigOf(cfg, r.bucket, CutRecord(r.prev, slice))) in wire
    ensures MemberOk(cfg, me, n, wire) && Grows(m, n)
  {
    var hash := HashOf(cfg, r.bucket, slice);
    var s := r.(phase := Finalized, slice := slice, mySig := Some(hash), sigs := r.sigs[me := hash]);
    assert Agreeing(TryRatify(s)) == Agreeing(s);
    assert RoundOk(cfg, me, n, TryRatify(s), wire);
    assert PromotedOk(cfg, n, wire);
  }

  lemma StepRatified(cfg: Config, me: Node, m: Member, wire: Traffic, proceed: bool, anchors: Anchors)
    requires MemberOk(cfg, me, m, wire)
    ensures Kept(cfg, me, m, AtRatified(cfg, me, m, proceed, anchors), wire,
            Emits(cfg, me, m, Ratified(proceed, anchors)))
  {
    if CanPromote(m, proceed) {
      StepPromote(cfg, me, m, wire, m.round.value, proceed, anchors);
    } else {
      DropKeeps(cfg, me, m, wire);
    }
  }

  lemma StepPromote(cfg: Config, me: Node, m: Member, wire: Traffic, r: Round, proceed: bool, anchors: Anchors)
    requires MemberOk(cfg, me, m, wire) && m.round == Some(r) && CanPromote(m, proceed)
    ensures var claim := Claim(r.slice, anchors.(prevBlock := r.prev));
            Kept(cfg, me, m, AtRatified(cfg, me, m, proceed, anchors), wire, {(me, SettleSigOf(cfg, r.bucket, claim))})
  {
    var n, claim := AtRatified(cfg, me, m, proceed, anchors), Claim(r.slice, anchors.(prevBlock := r.prev));
    var more := wire + {(me, SettleSigOf(cfg, r.bucket, claim))};
    RatifiedIsBacked(cfg, me, m, wire, r);
    BackedMore(cfg, wire, more, SigOf(cfg, r.bucket, m.cut[r.bucket]));
    MemberMore(cfg, me, m, wire, more);
    PromoteKeeps(cfg, me, m, n, more, r, proceed, anchors);
    PromoteOnRecord(cfg, n, r.bucket, claim);
  }

  lemma PromoteOnRecord(cfg: Config, n: Member, bucket: int, claim: Claim)
    requires bucket in n.promoted && n.promoted[bucket] == claim
    ensures OnRecord(cfg, n, SettleSigOf(cfg, bucket, claim))
  {
  }

  lemma DropKeeps(cfg: Config, me: Node, m: Member, wire: Traffic)
    requires MemberOk(cfg, me, m, wire)
    ensures Kept(cfg, me, m, m, wire, {}) && Kept(cfg, me, m, m.(round := None), wire, {})
  {
    assert wire + {} == wire;
  }

  /** A ratified slice has a quorum of signatures on the wire. */
  lemma RatifiedIsBacked(cfg: Config, me: Node, m: Member, wire: Traffic, r: Round)
    requires cfg.roster != {} && RoundOk(cfg, me, m, r, wire) && r.phase == Gone
    ensures Backed(cfg, wire, SigOf(cfg, r.bucket, m.cut[r.bucket]))
  {
    assert IsBacking(cfg, wire, SigOf(cfg, r.bucket, m.cut[r.bucket]), Agreeing(r));
  }

  lemma PromoteKeeps(cfg: Config, me: Node, m: Member, n: Member, wire: Traffic, r: Round, proceed: bool,
      anchors: Anchors)
    requires MemberOk(cfg, me, m, wire) && m.round == Some(r) && CanPromote(m, proceed)
    requires n == AtRatified(cfg, me, m, proceed, anchors)
    requires (me, SettleSigOf(cfg, r.bucket, n.promoted[r.bucket])) in wire
    requires Backed(cfg, wire, SigOf(cfg, r.bucket, m.cut[r.bucket]))
    ensures MemberOk(cfg, me, n, wire) && Grows(m, n)
  {
    assert r.bucket !in m.settled;
    assert PromotedOk(cfg, n, wire);
    assert SettledOk(cfg, n, wire);
    assert SettlingOk(cfg, n, n.settling.value, wire);
  }

  lemma StepCheckSettled(cfg: Config, me: Node, m: Member, wire: Traffic)
    requires MemberOk(cfg, me, m, wire)
    ensures Kept(cfg, me, m, AtCheckSettled(cfg, m), wire, {})
  {
    assert wire + {} == wire;
    if m.settling.Some? && m.settling.value.stage == M.SettledStage {
      var s := m.settling.value;
      assert IsBacking(cfg, wire, SettleSigOf(cfg, s.bucket, m.promoted[s.bucket]), s.sigs);
      assert SettledOk(cfg, AtCheckSettled(cfg, m), wire);
    }
  }

  /** Every step of an honest member keeps its invariant, and what it signs is on its record. */
  lemma StepKeeps(cfg: Config, me: Node, m: Member, wire: Traffic, ev: Event)
    requires MemberOk(cfg, me, m, wire) && Delivered(cfg, wire, ev)
    ensures Kept(cfg, me, m, Handle(cfg, me, m, ev), wire, Emits(cfg, me, m, ev))
  {
    assert wire + {} == wire;
    match ev
    case SigMsg(bucket, prev, peer, sliceHash) => SigIsRoundStep(cfg, me, m, wire, bucket, prev, peer, sliceHash);
    case CutNow(slice) => StepCut(cfg, me, m, wire, slice);
    case Ratified(proceed, anchors) => StepRatified(cfg, me, m, wire, proceed, anchors);
    case CheckSettled => StepCheckSettled(cfg, me, m, wire);
    case SettleMsg(sliceHash, anchors, peer) => StepSettleMsg(cfg, me, m, wire, sliceHash, anchors, peer);
    case HeldMsg(bucket, prev, peer, hashes) =>
      if Addressed(cfg, m, bucket, prev, peer) { QuietStep(cfg, me, m, wire, OnHeld(m.round.value, peer, hashes)); }
    case BodiesMsg(bucket, prev, peer, bodies) =>
      if Addressed(cfg, m, bucket, prev, peer) { QuietStep(cfg, me, m, wire, Absorb(m.round.value, bodies)); }
    case Open(bucket, bodies) => OpenStep(cfg, me, m, wire, bucket, bodies);
    case _ => PlainStep(cfg, me, m, wire, ev);
  }

  lemma OpenStep(cfg: Config, me: Node, m: Member, wire: Traffic, bucket: int, bodies: map<Bytes, Signed>)
    requires MemberOk(cfg, me, m, wire)
    ensures Kept(cfg, me, m, AtOpen(cfg, me, m, bucket, bodies), wire, {})
  {
    assert wire + {} == wire;
  }

  lemma PlainStep(cfg: Config, me: Node, m: Member, wire: Traffic, ev: Event)
    requires MemberOk(cfg, me, m, wire)
    requires ev.Skip? || ev.AbandonRound? || ev.AbandonSettling? || ev.HeadMoved?
    ensures Kept(cfg, me, m, Handle(cfg, me, m, ev), wire, {})
  {
    assert wire + {} == wire;
  }

  /** Holdings and bodies leave the signatures, and so the agreement, alone. */
  lemma QuietStep(cfg: Config, me: Node, m: Member, wire: Traffic, r: Round)
    requires MemberOk(cfg, me, m, wire) && m.round.Some?
    requires r == m.round.value.(holds := r.holds, local := r.local)
    ensures Kept(cfg, me, m, m.(round := Some(r)), wire, {})
  {
    assert Agreeing(r) == Agreeing(m.round.value);
    RoundStep(cfg, me, m, wire, r);
  }

  lemma StepSettleMsg(cfg: Config, me: Node, m: Member, wire: Traffic, sliceHash: Bytes, anchors: Anchors, peer: Node)
    requires MemberOk(cfg, me, m, wire) && (peer, SettlePayload(cfg.w, sliceHash, anchors)) in wire
    ensures Kept(cfg, me, m, AtSettleMsg(cfg, me, m, sliceHash, anchors, peer), wire, {})
  {
    assert wire + {} == wire;
  }

  lemma ActKeeps(cfg: Config, net: Net, a: Action)
    requires cfg.roster != {} && NetOk(cfg, net)
    ensures NetOk(cfg, Act(cfg, net, a))
  {
    var next := Act(cfg, net, a);
    match a
    case Faulty(who, payload) =>
      forall p | p in net.members ensures MemberOk(cfg, p, net.members[p], next.wire) {
        MemberMore(cfg, p, net.members[p], net.wire, next.wire);
      }
    case Honest(who, ev) =>
      if who in net.members && Delivered(cfg, net.wire, ev) {
        var m, n := net.members[who], next.members[who];
        StepKeeps(cfg, who, m, net.wire, ev);
        forall p | p in next.members ensures MemberOk(cfg, p, next.members[p], next.wire) {
          if p != who { MemberMore(cfg, p, net.members[p], net.wire, next.wire); }
        }
        forall p, payload | (p, payload) in next.wire && p in next.members
          ensures OnRecord(cfg, next.members[p], payload) {
          if (p, payload) in net.wire { StillOnRecord(cfg, net.members[p], next.members[p], payload); }
        }
      }
  }

  lemma StillOnRecord(cfg: Config, m: Member, n: Member, payload: Bytes)
    requires OnRecord(cfg, m, payload) && Grows(m, n)
    ensures OnRecord(cfg, n, payload)
  {
    if b :| b in m.cut && payload == SigOf(cfg, b, m.cut[b]) {
      assert b in n.cut && payload == SigOf(cfg, b, n.cut[b]);
    } else {
      var b :| b in m.promoted && payload == SettleSigOf(cfg, b, m.promoted[b]);
      assert b in n.promoted && payload == SettleSigOf(cfg, b, n.promoted[b]);
    }
  }

  /** What every run from the start keeps, whatever the faulty members sign. */
  lemma {:induction false} RunKeeps(cfg: Config, net: Net, run: seq<Action>)
    requires cfg.roster != {} && NetOk(cfg, net)
    ensures NetOk(cfg, Run(cfg, net, run))
    decreases |run|
  {
    if run != [] {
      ActKeeps(cfg, net, run[0]);
      RunKeeps(cfg, Act(cfg, net, run[0]), run[1..]);
    }
  }

  lemma Started(cfg: Config, net: Net)
    requires Sound(cfg) && Initial(cfg, net)
    ensures NetOk(cfg, net)
  {
  }

  // ------------------------------------------------------------------------ agreement

  /** Two payloads that a quorum each backs were both signed by one honest member. */
  lemma SharedSigner(cfg: Config, net: Net, p1: Bytes, p2: Bytes) returns (h: Node)
    requires Sound(cfg) && NetOk(cfg, net) && Backed(cfg, net.wire, p1) && Backed(cfg, net.wire, p2)
    ensures h in net.members && OnRecord(cfg, net.members[h], p1) && OnRecord(cfg, net.members[h], p2)
  {
    var a :| IsBacking(cfg, net.wire, p1, a);
    var b :| IsBacking(cfg, net.wire, p2, b);
    h := Quorum.QuorumsShareHonest(cfg.roster, cfg.faulty, a, b);
    assert (h, p1) in net.wire && (h, p2) in net.wire;
  }

  lemma CutOnRecord(cfg: Config, m: Member, bucket: int, prev: Bytes, sliceHash: Bytes)
    requires Sound(cfg) && OnRecord(cfg, m, SigPayload(bucket, prev, sliceHash))
    ensures bucket in m.cut && m.cut[bucket].prev == prev && HashOf(cfg, bucket, m.cut[bucket].slice) == sliceHash
  {
    var payload := SigPayload(bucket, prev, sliceHash);
    if b :| b in m.promoted && payload == SettleSigOf(cfg, b, m.promoted[b]) {
      PayloadsDisjoint(cfg.w, bucket, prev, sliceHash, HashOf(cfg, b, m.promoted[b].slice), m.promoted[b].anchors);
    }
    var b :| b in m.cut && payload == SigOf(cfg, b, m.cut[b]);
    SigPayloadInjective(bucket, prev, sliceHash, b, m.cut[b].prev, HashOf(cfg, b, m.cut[b].slice));
  }

  lemma PromotedOnRecord(cfg: Config, m: Member, sliceHash: Bytes, anchors: Anchors) returns (b: int)
    requires Sound(cfg) && OnRecord(cfg, m, SettlePayload(cfg.w, sliceHash, anchors))
    ensures b in m.promoted && HashOf(cfg, b, m.promoted[b].slice) == sliceHash && m.promoted[b].anchors == anchors
  {
    var payload := SettlePayload(cfg.w, sliceHash, anchors);
    if c :| c in m.cut && payload == SigOf(cfg, c, m.cut[c]) {
      PayloadsDisjoint(cfg.w, c, m.cut[c].prev, HashOf(cfg, c, m.cut[c].slice), sliceHash, anchors);
    }
    b :| b in m.promoted && payload == SettleSigOf(cfg, b, m.promoted[b]);
    SettlePayloadInjective(cfg.w, sliceHash, anchors, HashOf(cfg, b, m.promoted[b].slice), m.promoted[b].anchors);
  }

  /** Stage one: in one bucket a quorum backs at most one base and one slice. */
  lemma OneSlicePerBucket(cfg: Config, net: Net, bucket: int, c: CutRecord, d: CutRecord)
    requires Sound(cfg) && NetOk(cfg, net)
    requires Backed(cfg, net.wire, SigOf(cfg, bucket, c)) && Backed(cfg, net.wire, SigOf(cfg, bucket, d))
    ensures c == d
  {
    var h := SharedSigner(cfg, net, SigOf(cfg, bucket, c), SigOf(cfg, bucket, d));
    CutOnRecord(cfg, net.members[h], bucket, c.prev, HashOf(cfg, bucket, c.slice));
    CutOnRecord(cfg, net.members[h], bucket, d.prev, HashOf(cfg, bucket, d.slice));
    SliceHashInjective(cfg.w.h, bucket, c.slice, bucket, d.slice);
  }

  /** Stage two: in one bucket a quorum backs at most one slice and one set of anchors. */
  lemma OneBlockPerBucket(cfg: Config, net: Net, bucket: int, c: Claim, d: Claim)
    requires Sound(cfg) && NetOk(cfg, net)
    requires Backed(cfg, net.wire, SettleSigOf(cfg, bucket, c)) && Backed(cfg, net.wire, SettleSigOf(cfg, bucket, d))
    ensures c == d
  {
    var h := SharedSigner(cfg, net, SettleSigOf(cfg, bucket, c), SettleSigOf(cfg, bucket, d));
    var m := net.members[h];
    var b1 := PromotedOnRecord(cfg, m, HashOf(cfg, bucket, c.slice), c.anchors);
    var b2 := PromotedOnRecord(cfg, m, HashOf(cfg, bucket, d.slice), d.anchors);
    SliceHashInjective(cfg.w.h, bucket, c.slice, b1, m.promoted[b1].slice);
    SliceHashInjective(cfg.w.h, bucket, d.slice, b2, m.promoted[b2].slice);
  }

  /** Over every run with at most `tolerates(n)` faulty members, two honest members that settle in
      the same bucket settle the same slice on the same parent with the same anchors; and what
      they settled had been ratified, on that parent, by a quorum. */
  lemma BucketAgreement(cfg: Config, start: Net, run: seq<Action>, p: Node, q: Node, bucket: int)
    requires Sound(cfg) && Initial(cfg, start)
    requires var net := Run(cfg, start, run);
             p in net.members && q in net.members && bucket in net.members[p].settled &&
             bucket in net.members[q].settled
    ensures var net := Run(cfg, start, run);
            var c := net.members[p].settled[bucket];
            c == net.members[q].settled[bucket] &&
            Backed(cfg, net.wire, SettleSigOf(cfg, bucket, c)) &&
            Backed(cfg, net.wire, SigOf(cfg, bucket, CutRecord(c.anchors.prevBlock, c.slice)))
  {
    var net := Run(cfg, start, run);
    Started(cfg, start);
    RunKeeps(cfg, start, run);
    OneBlockPerBucket(cfg, net, bucket, net.members[p].settled[bucket], net.members[q].settled[bucket]);
  }

  /** Two honest members that promote in the same bucket, settled or not, promote the same slice
      on the same parent. */
  lemma RatifiedAgree(cfg: Config, start: Net, run: seq<Action>, p: Node, q: Node, bucket: int)
    requires Sound(cfg) && Initial(cfg, start)
    requires var net := Run(cfg, start, run);
             p in net.members && q in net.members && bucket in net.members[p].promoted &&
             bucket in net.members[q].promoted
    ensures var net := Run(cfg, start, run);
            var c, d := net.members[p].promoted[bucket], net.members[q].promoted[bucket];
            c.slice == d.slice && c.anchors.prevBlock == d.anchors.prevBlock
  {
    var net := Run(cfg, start, run);
    Started(cfg, start);
    RunKeeps(cfg, start, run);
    OneSlicePerBucket(cfg, net, bucket, net.members[p].cut[bucket], net.members[q].cut[bucket]);
  }

  /** An honest member never signs two slices for one bucket, nor two sets of anchors for one slice. */
  lemma HonestNeverEquivocate(cfg: Config, start: Net, run: seq<Action>, p: Node, bucket: int,
                                prev1: Bytes, hash1: Bytes, prev2: Bytes, hash2: Bytes, sliceHash: Bytes, a1: Anchors,
                                a2: Anchors)
    requires Sound(cfg) && Initial(cfg, start) && p in cfg.roster - cfg.faulty
    ensures var wire := Run(cfg, start, run).wire;
            (p, SigPayload(bucket, prev1, hash1)) in wire && (p, SigPayload(bucket, prev2, hash2)) in wire ==>
              prev1 == prev2 && hash1 == hash2
    ensures var wire := Run(cfg, start, run).wire;
            (p, SettlePayload(cfg.w, sliceHash, a1)) in wire && (p, SettlePayload(cfg.w, sliceHash, a2)) in wire ==>
              a1 == a2
  {
    var net := Run(cfg, start, run);
    Started(cfg, start);
    RunKeeps(cfg, start, run);
    var m := net.members[p];
    if (p, SigPayload(bucket, prev1, hash1)) in net.wire && (p, SigPayload(bucket, prev2, hash2)) in net.wire {
      CutOnRecord(cfg, m, bucket, prev1, hash1);
      CutOnRecord(cfg, m, bucket, prev2, hash2);
    }
    if (p, SettlePayload(cfg.w, sliceHash, a1)) in net.wire && (p, SettlePayload(cfg.w, sliceHash, a2)) in net.wire {
      var b1 := PromotedOnRecord(cfg, m, sliceHash, a1);
      var b2 := PromotedOnRecord(cfg, m, sliceHash, a2);
      SliceHashInjective(cfg.w.h, b1, m.promoted[b1].slice, b2, m.promoted[b2].slice);
    }
  }

  /** The same for anyone who only sees blocks: two blocks of one bucket that `Authorization.verify`
      accepts without the manager's own signature are one block, hash and all. */
  lemma AuthorisedBlocksAgree(cfg: Config, start: Net, run: seq<Action>, verify: M.Verifier, roster: seq<Node>,
                              anchor: Node, a: SettledBlock, b: SettledBlock)
    requires Sound(cfg) && Initial(cfg, start) && Distinct(roster) && SetOf(roster) == cfg.roster
    requires Unforgeable(verify, Run(cfg, start, run).wire, cfg.roster)
    requires AcceptedByRoster(cfg, verify, roster, anchor, a) && AcceptedByRoster(cfg, verify, roster, anchor, b)
    requires a.block.bucket == b.block.bucket
    ensures a.anchors == b.anchors && BlockHash(cfg.w, a) == BlockHash(cfg.w, b)
  {
    var net := Run(cfg, start, run);
    Started(cfg, start);
    RunKeeps(cfg, start, run);
    AcceptedIsBacked(cfg, net.wire, verify, roster, anchor, a);
    AcceptedIsBacked(cfg, net.wire, verify, roster, anchor, b);
    var h := SharedSigner(cfg, net, PayloadOf(cfg.w, a), PayloadOf(cfg.w, b));
    var m := net.members[h];
    var b1 := PromotedOnRecord(cfg, m, SliceHashOf(cfg.w, a.block), a.anchors);
    var b2 := PromotedOnRecord(cfg, m, SliceHashOf(cfg.w, b.block), b.anchors);
    PromotedIsBlock(cfg, m, b1, a.block);
    PromotedIsBlock(cfg, m, b2, b.block);
    BlockHashInjective(cfg.w, a, b);
  }

  ghost predicate Unforgeable(verify: M.Verifier, wire: Traffic, roster: set<Node>) {
    forall k, payload, sig :: k in roster && verify(k, payload, sig) ==> (k, payload) in wire
  }

  ghost predicate AcceptedByRoster(cfg: Config, verify: M.Verifier, roster: seq<Node>, anchor: Node, sb: SettledBlock) {
    M.Authorised(verify, sb.multisig, PayloadOf(cfg.w, sb), roster, anchor) &&
    !M.Signed(verify, anchor, PayloadOf(cfg.w, sb))
  }

  lemma AcceptedIsBacked(cfg: Config, wire: Traffic, verify: M.Verifier, roster: seq<Node>, anchor: Node,
      sb: SettledBlock)
    requires cfg.roster != {} && Distinct(roster) && SetOf(roster) == cfg.roster
    requires Unforgeable(verify, wire, cfg.roster) && AcceptedByRoster(cfg, verify, roster, anchor, sb)
    ensures Backed(cfg, wire, PayloadOf(cfg.w, sb))
  {
    var payload := PayloadOf(cfg.w, sb);
    M.AuthorisedMeans(verify, sb.multisig, payload, roster, anchor);
    var who :| M.QuorumSigned(verify, payload, roster, who);
    DistinctSize(roster);
    forall q | q in who ensures q in cfg.roster && (q, payload) in wire {
      var sig :| verify(q, payload, sig);
      assert q in SetOf(roster);
    }
    assert IsBacking(cfg, wire, payload, who);
  }

  lemma PromotedIsBlock(cfg: Config, m: Member, bucket: int, block: Block)
    requires Sound(cfg) && bucket in m.promoted &&
             HashOf(cfg, bucket, m.promoted[bucket].slice) == SliceHashOf(cfg.w, block)
    ensures bucket == block.bucket && C.Hashes(block.hashes) == C.Hashes(SortedKeys(m.promoted[bucket].slice))
  {
    SliceHashOfSet(cfg.w, bucket, m.promoted[bucket].slice);
    SliceHashOfInjective(cfg.w, Block(bucket, SortedKeys(m.promoted[bucket].slice)), block);
  }
}
