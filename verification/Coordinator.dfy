/** The coordinator of dude/consensus/coordinator.py as it runs: the bucket, the round and the
    settling slot as fields. Each handler is an event of the network model, so whatever calls an
    object has had, it is where the model's member is after those events and has signed what that
    member has signed. */
module Coordinator {
  import opened Bytes
  import opened Ops
  import opened Slice
  import opened Rounds
  import opened Blocks
  import opened Promotion
  import opened Protocol
  import opened Timing
  import CodecLoops
  import M = Multisig

  class Coordinator {
    const cfg: Config
    const me: Node
    const dials: Dials
    var currentBucket: int
    var head: Bytes
    var round: Option<Round>
    var settling: Option<Settling>
    var closeBy: int
    var abandonBy: int
    ghost var cut: map<int, CutRecord>
    ghost var promoted: map<int, Claim>
    ghost var settled: map<int, Claim>
    ghost const born: Member
    ghost var trace: seq<Event>
    ghost var sent: Traffic

    ghost function Value(): Member
      reads this
    {
      Member(currentBucket, head, round, settling, cut, promoted, settled)
    }

    ghost predicate Timed()
      reads this
    {
      Sensible(dials) && BlockTime(dials) > 0 && cfg.roster != {} && me in cfg.roster &&
      (round.Some? ==>
        closeBy == CloseBy(dials, round.value.bucket) && abandonBy == AbandonBy(dials, round.value.bucket))
    }

    /** The fields are those of the model's member after `trace`. */
    ghost predicate Valid()
      reads this
    {
      Timed() && Play(cfg, me, born, trace) == (Value(), sent)
    }

    constructor (cfg: Config, me: Node, dials: Dials, now: int, head: Bytes)
      requires Sensible(dials) && me in cfg.roster
      ensures Valid() && this.cfg == cfg && this.me == me && this.dials == dials && trace == []
      ensures Value() == born == Member(Bucket(dials, now), head, None, None, map[], map[], map[])
    {
      BlockTimeBounds(dials);
      this.cfg, this.me, this.dials, this.head := cfg, me, dials, head;
      currentBucket, round, settling := Bucket(dials, now), None, None;
      closeBy, abandonBy := 0, 0;
      cut, promoted, settled := map[], map[], map[];
      born, trace, sent := Member(Bucket(dials, now), head, None, None, map[], map[], map[]), [], {};
    }

    /** The model takes the event the fields have just taken. */
    ghost method Record(was: Member, ev: Event)
      requires Timed() && Play(cfg, me, born, trace) == (was, sent) && Value() == Handle(cfg, me, was, ev)
      modifies this`trace, this`sent
      ensures Valid() && trace == old(trace) + [ev] && sent == old(sent) + Emits(cfg, me, was, ev)
    {
      PlaySnoc(cfg, me, born, trace, ev);
      trace, sent := trace + [ev], sent + Emits(cfg, me, was, ev);
    }

    /** `_close_current_bucket`: open a round for the bucket just closed, or pass it over. A round
        that opens has time before it: it collects for at least the waves of holdings and the skew
        after its bucket closed, and is abandoned only after the reserve. */
    method CloseCurrentBucket(now: int, behind: bool, inRoster: bool, bodies: map<Bytes, Signed>)
      requires Valid()
      modifies this
      ensures var closed := Bucket(dials, now) - 1;
              var opens := now < CloseBy(dials, closed) && !behind && inRoster;
              Valid() && trace == old(trace) + [if opens then Open(closed, bodies) else Skip(closed)]
      ensures round != old(round) ==>
                now < closeBy < abandonBy && BucketStart(dials, currentBucket) <= now &&
                closeBy >= BucketStart(dials, currentBucket) + HeldWaveBudget(dials) + dials.clockSkew
    {
      ghost var was := Value();
      var closed := Bucket(dials, now) - 1;
      var opens := now < CloseBy(dials, closed) && !behind && inRoster;
      if round.None? && closed >= currentBucket {
        currentBucket := closed + 1;
        if opens {
          Deadlines(dials, closed);
          BucketIs(dials, now, closed + 1);
          round := Some(Round(closed, me, cfg.roster, head, Collecting, bodies, map[], map[], None, {}));
          closeBy, abandonBy := CloseBy(dials, closed), AbandonBy(dials, closed);
        }
      }
      Record(was, if opens then Open(closed, bodies) else Skip(closed));
    }

    /** `_on_round_msg`: a HELD, BODIES already validated, or a SIG that verifies. */
    method OnRoundMsg(ev: Event)
      requires Valid() && (ev.HeldMsg? || ev.BodiesMsg? || ev.SigMsg?)
      modifies this
      ensures Valid() && trace == old(trace) + [ev]
    {
      ghost var was := Value();
      if Addressed(cfg, Member(currentBucket, head, round, settling, map[], map[], map[]), ev.bucket, ev.prev,
        ev.peer) {
        var r := round.value;
        match ev
        case HeldMsg(_, _, peer, hashes) => round := Some(OnHeld(r, peer, hashes));
        case BodiesMsg(_, _, _, bodies) => round := Some(Absorb(r, bodies));
        case SigMsg(_, _, peer, sliceHash) => if r.roster != {} { round := Some(OnSig(r, peer, sliceHash)); }
      }
      Record(was, ev);
    }

    /** The tick at `close_by`, given the slice the round chose and screened: the round is cut and
        its signature sent. */
    method OnRoundClose(slice: set<Bytes>)
      requires Valid()
      modifies this
      ensures Valid() && trace == old(trace) + [CutNow(slice)]
      ensures sent == old(sent) + Emits(cfg, me, old(Value()), CutNow(slice))
    {
      ghost var was := Value();
      CutRound(slice);
      Record(was, CutNow(slice));
    }

    method CutRound(slice: set<Bytes>)
      requires Valid()
      modifies this`round, this`cut
      ensures Timed() && Value() == AtCut(cfg, old(Value()), slice)
    {
      if round.Some? && round.value.phase == Collecting && slice <= round.value.local.Keys && round.value.roster != {} {
        var r := round.value;
        var hash := SliceHashNow(r.bucket, slice);
        round := Some(Rounds.Cut(r, slice, hash));
        cut := cut[r.bucket := CutRecord(r.prev, slice)];
      }
    }

    method SliceHashNow(bucket: int, slice: set<Bytes>) returns (hash: Bytes)
      ensures hash == HashOf(cfg, bucket, slice)
    {
      var ks := CodecLoops.SortKeys(slice);
      var encoded := CodecLoops.EncodeBytes(SliceValue(Block(bucket, ks)));
      SliceHashOfSet(cfg.w, bucket, slice);
      hash := cfg.w.h(encoded);
    }

    /** `_check_ratified` and `_promote_to_settling`, given what the preview found. */
    method CheckRatified(inRoster: bool, rejects: bool, anchors: Anchors)
      requires Valid()
      modifies this
      ensures Valid() && trace == old(trace) + [Ratified(inRoster && !rejects, anchors)]
      ensures sent == old(sent) + Emits(cfg, me, old(Value()), Ratified(inRoster && !rejects, anchors))
    {
      ghost var was := Value();
      if round.Some? && round.value.phase == Gone && settling.None? {
        var r := round.value;
        round := None;
        if inRoster && head == r.prev && !rejects {
          var signed := anchors.(prevBlock := r.prev);
          settling := Some(Settling(r.bucket, r.slice, signed, {me}, StageAt(cfg, {me})));
          promoted := promoted[r.bucket := Claim(r.slice, signed)];
        }
      }
      Record(was, Ratified(inRoster && !rejects, anchors));
    }

    /** `_on_settle_msg` for a signature that verifies. */
    method OnSettleMsg(sliceHash: Bytes, anchors: Anchors, peer: Node)
      requires Valid()
      modifies this
      ensures Valid() && trace == old(trace) + [SettleMsg(sliceHash, anchors, peer)]
    {
      ghost var was := Value();
      if settling.Some? {
        var s := settling.value;
        var hash := SliceHashNow(s.bucket, s.slice);
        if hash == sliceHash && peer in cfg.roster && peer != me && anchors == s.anchors && s.stage == M.Gathering {
          var sigs := s.sigs + {peer};
          settling := Some(s.(sigs := sigs, stage := StageAt(cfg, sigs)));
        }
      }
      Record(was, SettleMsg(sliceHash, anchors, peer));
    }

    /** `_check_settled`: a settled block becomes the head, an abandoned one is dropped. */
    method CheckSettled()
      requires Valid()
      modifies this
      ensures Valid() && trace == old(trace) + [Event.CheckSettled]
    {
      ghost var was := Value();
      DropOrCommit();
      Record(was, Event.CheckSettled);
    }

    method DropOrCommit()
      requires Valid()
      modifies this`head, this`settled, this`settling
      ensures Timed() && Value() == AtCheckSettled(cfg, old(Value()))
    {
      if settling.None? { return; }
      var s := settling.value;
      if s.stage == M.SettledStage {
        var ks := CodecLoops.SortKeys(s.slice);
        head := ComputeBlockHash(cfg.w, SettledBlock(Block(s.bucket, ks), s.anchors, M.MultiSig([], [])));
        settled := settled[s.bucket := Claim(s.slice, s.anchors)];
      }
      if s.stage != M.Gathering { settling := None; }
    }

    /** `_on_round_abandon`: a cut round still waiting at `abandon_by` is given up. */
    method OnRoundAbandon(now: int)
      requires Valid()
      modifies this
      ensures Valid() && trace == if now >= old(abandonBy) then old(trace) + [AbandonRound] else old(trace)
    {
      ghost var was := Value();
      if now < abandonBy { return; }
      if round.Some? && round.value.phase == Finalized { round := None; }
      Record(was, AbandonRound);
    }

    /** `_on_settle_abandon_event`: so is a settlement still short of a quorum at its own deadline,
        the `abandon_by` of the bucket it settles. */
    method OnSettleAbandon(now: int)
      requires Valid()
      modifies this
      ensures Valid()
      ensures var due := old(settling).Some? && now >= AbandonBy(dials, old(settling).value.bucket);
              trace == if due then old(trace) + [AbandonSettling] else old(trace)
    {
      ghost var was := Value();
      if settling.None? || now < AbandonBy(dials, settling.value.bucket) { return; }
      if settling.value.stage == M.Gathering { settling := Some(settling.value.(stage := M.AbandonedStage)); }
      Record(was, AbandonSettling);
    }

    /** A follower has committed a block under this coordinator. */
    method OnHeadMoved(newHead: Bytes)
      requires Valid()
      modifies this
      ensures Valid() && trace == old(trace) + [HeadMoved(newHead)]
    {
      ghost var was := Value();
      head := newHead;
      Record(was, HeadMoved(newHead));
    }
  }

  /** The calls this coordinator has had are the events that reached its member in a run. */
  ghost predicate Joins(c: Coordinator, start: Net, run: seq<Action>)
    reads c
  {
    c.Valid() && c.me in start.members && c.born == start.members[c.me] &&
    c.trace == EventsOf(c.cfg, start, run, c.me)
  }

  /** A coordinator is the run's member, and whatever it has signed is on the wire. */
  lemma CoordinatorIsMember(c: Coordinator, start: Net, run: seq<Action>)
    requires Joins(c, start, run)
    ensures var net := Run(c.cfg, start, run);
            c.me in net.members && c.Value() == net.members[c.me] && c.sent <= net.wire
  {
    MemberIsPlay(c.cfg, start, run, c.me);
  }

  /** Two coordinators in one run settle the same in one bucket. */
  lemma CoordinatorsAgree(c: Coordinator, d: Coordinator, start: Net, run: seq<Action>, bucket: int)
    requires c.cfg == d.cfg && Protocol.Sound(c.cfg) && Initial(c.cfg, start)
    requires Joins(c, start, run) && Joins(d, start, run)
    requires bucket in c.settled && bucket in d.settled
    ensures c.settled[bucket] == d.settled[bucket]
  {
    CoordinatorIsMember(c, start, run);
    CoordinatorIsMember(d, start, run);
    assert c.Value().settled == c.settled && d.Value().settled == d.settled;
    BucketAgreement(c.cfg, start, run, c.me, d.me, bucket);
  }
}
