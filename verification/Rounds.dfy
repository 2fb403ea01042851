/** The `Round` of dude/consensus/round.py: collect holdings, cut a slice, sign it once, and ratify
    when a quorum has signed the same one. First as a value and its transitions, then as it runs. */
module Rounds {
  import opened Bytes
  import opened Ops
  import opened Slice
  import Quorum
  import CodecLoops

  datatype Phase = Collecting | Finalized | Gone | Abandoned

  datatype Round = Round(
    bucket: int,
    me: Node,
    roster: set<Node>,
    prev: Bytes,
    phase: Phase,
    local: map<Bytes, Signed>,
    holds: Holdings,
    sigs: map<Node, Bytes>,
    mySig: Option<Bytes>,
    slice: set<Bytes>)
  {
    ghost predicate Valid() {
      me in roster && sigs.Keys <= roster && (phase == Collecting ==> mySig == None) &&
      (phase == Finalized || phase == Gone ==> mySig.Some?)
    }
  }

  function Agreeing(r: Round): set<Node> {
    set p | p in r.sigs && r.mySig == Some(r.sigs[p])
  }

  /** `_try_ratify`. */
  function TryRatify(r: Round): Round
    requires r.roster != {}
  {
    if r.phase != Finalized || r.mySig == None then r
    else if |Agreeing(r)| < Quorum.Size(|r.roster|) then r
    else r.(phase := Gone)
  }

  function OnHeld(r: Round, from: Node, hashes: set<Bytes>): Round {
    if r.phase == Gone then r else r.(holds := r.holds[from := hashes])
  }

  /** `_on_sig` for a signature that verifies: a peer's first slice hash is kept, a second and
      different one is only recorded as an equivocation. */
  function OnSig(r: Round, from: Node, sliceHash: Bytes): Round
    requires r.roster != {}
  {
    if from in r.sigs && r.sigs[from] != sliceHash then r
    else if r.phase == Gone then r
    else TryRatify(r.(sigs := r.sigs[from := sliceHash]))
  }

  function Absorb(r: Round, bodies: map<Bytes, Signed>): Round {
    if r.phase != Collecting then r else r.(local := bodies + r.local)
  }

  /** `_finalize` once the slice has been screened: the one signature this round makes. */
  function Cut(r: Round, slice: set<Bytes>, sliceHash: Bytes): Round
    requires r.roster != {}
  {
    TryRatify(r.(phase := Finalized, slice := slice, mySig := Some(sliceHash), sigs := r.sigs[r.me := sliceHash]))
  }

  function Abandon(r: Round): Round {
    if r.phase == Finalized then r.(phase := Abandoned) else r
  }

  // ------------------------------------------------------------------- runs of a round

  /** What can happen to a round: messages it lets through, its cut, its deadline. */
  datatype Input =
    | HeldIn(peer: Node, hashes: set<Bytes>)
    | SigIn(peer: Node, sliceHash: Bytes)
    | BodiesIn(bodies: map<Bytes, Signed>)
    | CutIn(cut: set<Bytes>)
    | DueIn

  function Take(hash: set<Bytes> -> Bytes, r: Round, x: Input): Round
    requires r.roster != {}
  {
    match x
    case HeldIn(peer, hashes) => if peer in r.roster then OnHeld(r, peer, hashes) else r
    case SigIn(peer, sliceHash) => if peer in r.roster then OnSig(r, peer, sliceHash) else r
    case BodiesIn(bodies) => Absorb(r, bodies)
    case CutIn(cut) => if r.phase == Collecting && cut <= r.local.Keys then Cut(r, cut, hash(cut)) else r
    case DueIn => Abandon(r)
  }

  function TakeAll(hash: set<Bytes> -> Bytes, r: Round, xs: seq<Input>): Round
    requires r.roster != {}
    decreases |xs|
  {
    if xs == [] then r else
      var next := Take(hash, r, xs[0]);
      if next.roster == {} then next else TakeAll(hash, next, xs[1..])
  }

  predicate Opened(r: Round) {
    r.me in r.roster && r.phase == Collecting && r.holds == map[] && r.sigs == map[] && r.mySig == None && r.slice == {}
  }

  /** It has signed nothing while it collects, and afterwards exactly its own slice of bodies it
      held; and it is ratified only with a quorum of its roster behind that very slice. */
  ghost predicate SignedRightly(hash: set<Bytes> -> Bytes, r: Round) {
    r.Valid() &&
    (r.phase != Collecting ==> r.mySig == Some(hash(r.slice)) && r.slice <= r.local.Keys) &&
    (r.phase == Gone ==> Agreeing(r) <= r.roster && |Agreeing(r)| >= Quorum.Size(|r.roster|))
  }

  /** And it never waits with a quorum behind it. */
  ghost predicate SignedSoundly(hash: set<Bytes> -> Bytes, r: Round) {
    SignedRightly(hash, r) && (r.phase == Finalized ==> |Agreeing(r)| < Quorum.Size(|r.roster|))
  }

  lemma RatifyKeepsSound(hash: set<Bytes> -> Bytes, r: Round)
    requires SignedRightly(hash, r)
    ensures SignedSoundly(hash, TryRatify(r))
  {
    assert Agreeing(TryRatify(r)) == Agreeing(r);
  }

  lemma TakeKeepsSound(hash: set<Bytes> -> Bytes, r: Round, x: Input)
    requires r.roster != {} && SignedSoundly(hash, r)
    ensures SignedSoundly(hash, Take(hash, r, x)) && Take(hash, r, x).roster == r.roster
  {
    match x
    case HeldIn(peer, hashes) => assert Agreeing(OnHeld(r, peer, hashes)) == Agreeing(r);
    case SigIn(peer, sliceHash) =>
      if r.phase != Gone && peer in r.roster { RatifyKeepsSound(hash, r.(sigs := r.sigs[peer := sliceHash])); }
    case BodiesIn(_) =>
    case CutIn(cut) =>
      if r.phase == Collecting && cut <= r.local.Keys {
        RatifyKeepsSound(hash, r.(phase := Finalized, slice := cut, mySig := Some(hash(cut)),
          sigs := r.sigs[r.me := hash(cut)]));
      }
    case DueIn =>
  }

  /** Whatever arrives and in whatever order, from its opening on a round is sound. */
  lemma {:induction false} RunSignsSoundly(hash: set<Bytes> -> Bytes, r: Round, xs: seq<Input>)
    requires r.roster != {} && (Opened(r) || SignedSoundly(hash, r))
    ensures SignedSoundly(hash, TakeAll(hash, r, xs)) && TakeAll(hash, r, xs).roster == r.roster
    decreases |xs|
  {
    if xs != [] {
      TakeKeepsSound(hash, r, xs[0]);
      RunSignsSoundly(hash, Take(hash, r, xs[0]), xs[1..]);
    }
  }

  /** Once it has signed, its signature, slice and bodies stand; a peer's first slice hash stands;
      and a ratified round changes no more. */
  ghost predicate Stands(r: Round, s: Round) {
    (r.phase != Collecting ==>
      s.phase != Collecting && s.mySig == r.mySig && s.slice == r.slice && s.local == r.local) &&
    (forall q :: q in r.sigs && q != r.me ==> q in s.sigs && s.sigs[q] == r.sigs[q]) &&
    (r.phase == Gone ==> s == r) && s.me == r.me
  }

  lemma {:induction false} SignsOnce(hash: set<Bytes> -> Bytes, r: Round, xs: seq<Input>)
    requires r.roster != {} && SignedSoundly(hash, r)
    ensures Stands(r, TakeAll(hash, r, xs))
    decreases |xs|
  {
    if xs != [] {
      var next := Take(hash, r, xs[0]);
      TakeKeepsSound(hash, r, xs[0]);
      TakeStands(hash, r, xs[0]);
      SignsOnce(hash, next, xs[1..]);
      StandsOn(r, next, TakeAll(hash, next, xs[1..]));
    }
  }

  lemma TakeStands(hash: set<Bytes> -> Bytes, r: Round, x: Input)
    requires r.roster != {} && SignedSoundly(hash, r)
    ensures Stands(r, Take(hash, r, x))
  {
  }

  lemma StandsOn(r: Round, s: Round, t: Round)
    requires Stands(r, s) && Stands(s, t)
    ensures Stands(r, t)
  {
  }

  /** The bodies of `hashes` in ascending order of hash: a `CanonicalBatch`. */
  ghost function Canonical(bodies: map<Bytes, Signed>, hashes: set<Bytes>): seq<Signed>
    requires hashes <= bodies.Keys
  {
    var ks := SortedKeys(hashes);
    seq(|ks|, i requires 0 <= i < |ks| => assert ks[i] in ks; bodies[ks[i]])
  }

  method CanonicalBatch(bodies: map<Bytes, Signed>, hashes: set<Bytes>) returns (txs: seq<Signed>)
    requires hashes <= bodies.Keys
    ensures txs == Canonical(bodies, hashes)
  {
    var ks := CodecLoops.SortKeys(hashes);
    ghost var all := Canonical(bodies, hashes);
    txs := [];
    for i := 0 to |ks|
      invariant txs == all[..i]
    {
      assert ks[i] in ks;
      txs := txs + [bodies[ks[i]]];
    }
  }

  /** `chosen` is the slice those holdings call for, and `kept` is what the screen, shown it in
      canonical order, lets through. */
  ghost predicate IsScreened(hash: set<Bytes> -> Bytes, screen: seq<Signed> -> set<Bytes>, r: Round, holdings: Holdings,
                             chosen: set<Bytes>, kept: set<Bytes>) {
    r.roster != {} && chosen <= r.local.Keys &&
    IsSlice(hash, holdings, r.local.Keys, Quorum.Size(|r.roster|), chosen) &&
    kept == chosen * screen(Canonical(r.local, chosen))
  }

  /** `kept` is the screened part of the slice those holdings call for. */
  ghost predicate IsCut(hash: set<Bytes> -> Bytes, screen: seq<Signed> -> set<Bytes>, r: Round, holdings: Holdings,
      kept: set<Bytes>) {
    exists chosen :: IsScreened(hash, screen, r, holdings, chosen, kept)
  }

  class Machine {
    const bucket: int
    const me: Node
    const roster: seq<Node>
    const prev: Bytes
    const closeBy: int
    const abandonBy: int
    /** `_slice_hash` for this bucket, and the coordinator's `screen`. */
    const hash: set<Bytes> -> Bytes
    const screen: seq<Signed> -> set<Bytes>
    var now: int
    var phase: Phase
    var local: map<Bytes, Signed>
    var holds: Holdings
    var sigs: map<Node, Bytes>
    var mySig: Option<Bytes>
    var slice: set<Bytes>
    var sliceBodies: seq<Signed>
    var surviving: seq<Signed>

    function Value(): Round
      reads this
    {
      Round(bucket, me, SetOf(roster), prev, phase, local, holds, sigs, mySig, slice)
    }

    ghost predicate Valid()
      reads this
    {
      SignedSoundly(hash, Value()) && closeBy < abandonBy && SetOf(roster) != {}
    }

    /** Opened by the coordinator, which hands over the local bodies at once. */
    constructor (bucket: int, me: Node, roster: seq<Node>, prev: Bytes, now: int, closeBy: int, abandonBy: int,
                 hash: set<Bytes> -> Bytes, screen: seq<Signed> -> set<Bytes>, bodies: map<Bytes, Signed>)
      requires me in roster && now < closeBy < abandonBy
      ensures Valid() && this.now == now && this.hash == hash && this.screen == screen
      ensures Value() == Round(bucket, me, SetOf(roster), prev, Collecting, bodies, map[], map[], None, {})
      ensures this.closeBy == closeBy && this.abandonBy == abandonBy && this.roster == roster
    {
      this.bucket, this.me, this.roster, this.prev, this.closeBy, this.abandonBy := bucket, me, roster, prev, closeBy,
        abandonBy;
      this.hash, this.screen, this.now, phase := hash, screen, now, Collecting;
      local, holds, sigs, mySig, slice, sliceBodies, surviving := bodies, map[], map[], None, {}, [], [];
      new;
      assert me in SetOf(roster);
    }

    /** A HELD for this bucket and this base from a roster member. */
    method ReceiveHeld(msgBucket: int, msgPrev: Bytes, from: Node, hashes: set<Bytes>)
      requires Valid()
      modifies this
      ensures Valid() && now == old(now) && sliceBodies == old(sliceBodies) && surviving == old(surviving)
      ensures var counts := msgBucket == bucket && from in roster && msgPrev == prev && old(phase) != Gone;
              Value() == old(Value()).(holds := if counts then old(holds)[from := hashes] else old(holds))
    {
      if msgBucket != bucket || from !in roster || msgPrev != prev { return; }
      if phase == Gone { return; }
      TakeKeepsSound(hash, Value(), HeldIn(from, hashes));
      holds := holds[from := hashes];
    }

    /** A SIG for this bucket and this base from a roster member; `verified` is the signature check. */
    method ReceiveSig(msgBucket: int, msgPrev: Bytes, from: Node, sliceHash: Bytes, verified: bool)
      requires Valid()
      modifies this
      ensures Valid() && now == old(now) && sliceBodies == old(sliceBodies) && surviving == old(surviving)
      ensures var counts := msgBucket == bucket && from in roster && msgPrev == prev && verified &&
                            old(phase) != Gone && (from in old(sigs) ==> old(sigs)[from] == sliceHash);
              var sigs1 := if counts then old(sigs)[from := sliceHash] else old(sigs);
              Value() == old(Value()).(sigs := sigs1, phase := phase) &&
              (phase == Gone <==>
                 old(phase) == Gone || (old(phase) == Finalized &&
                   |Agreeing(Value())| >= Quorum.Size(|SetOf(roster)|))) &&
              (phase != Gone ==> phase == old(phase))
    {
      if msgBucket != bucket || from !in roster || msgPrev != prev || !verified { return; }
      if from in sigs && sigs[from] != sliceHash { return; }
      if phase == Gone { return; }
      TakeKeepsSound(hash, Value(), SigIn(from, sliceHash));
      sigs := sigs[from := sliceHash];
      ghost var waiting := Value();
      Ratify();
      assert Agreeing(Value()) == Agreeing(waiting);
    }

    method Ratify()
      requires SignedRightly(hash, Value()) && closeBy < abandonBy && SetOf(roster) != {}
      modifies this`phase
      ensures Valid() && Value() == TryRatify(old(Value()))
    {
      RatifyKeepsSound(hash, Value());
      if phase != Finalized || mySig == None { return; }
      var agreeing := Agreeing(Value());
      if |agreeing| < Quorum.Size(|SetOf(roster)|) { return; }
      phase := Gone;
    }

    /** Validated BODIES arriving while the round still collects. */
    method AbsorbBodies(msgBucket: int, msgPrev: Bytes, from: Node, bodies: map<Bytes, Signed>)
      requires Valid()
      modifies this`local
      ensures Valid()
      ensures var counts := msgBucket == bucket && from in roster && msgPrev == prev && old(phase) == Collecting;
              Value() == old(Value()).(local := if counts then bodies + old(local) else old(local))
    {
      if msgBucket != bucket || from !in roster || msgPrev != prev { return; }
      if phase != Collecting { return; }
      local := bodies + local;
    }

    function AllHoldings(): Holdings
      reads this
    {
      holds[me := local.Keys]
    }

    /** The slice the holdings call for, and the part of it the screen lets through. */
    method ChooseSlice() returns (applicable: set<Bytes>)
      requires Valid()
      ensures IsCut(hash, screen, Value(), holds[me := local.Keys], applicable) && applicable <= local.Keys
    {
      var holdings := AllHoldings();
      var peers := CodecLoops.SortKeys(holdings.Keys);
      SortedIsDistinct(holdings.Keys);
      Quorum.SizeBounds(|SetOf(roster)|);
      var chosen := ComputeSlice(hash, holdings, peers, local.Keys, Quorum.Size(|SetOf(roster)|));
      SliceWithin(hash, holdings, local.Keys, Quorum.Size(|SetOf(roster)|), chosen);
      var txs := CanonicalBatch(local, chosen);
      applicable := chosen * screen(txs);
      assert IsScreened(hash, screen, Value(), holdings, chosen, applicable);
    }

    /** `_finalize`: choose the slice, screen it, sign it. The cut and what survives it partition
        the local bodies. */
    method Finalize()
      requires Valid() && phase == Collecting
      modifies this`sliceBodies, this`surviving, this`mySig, this`sigs, this`slice, this`phase
      ensures Valid() && phase != Collecting && mySig.Some?
      ensures IsCut(hash, screen, old(Value()), old(holds[me := local.Keys]), slice)
      ensures Value() == Cut(old(Value()), slice, hash(slice))
      ensures slice <= local.Keys && sliceBodies == Canonical(local, slice) &&
              surviving == Canonical(local, local.Keys - slice)
    {
      var applicable := ChooseSlice();
      Sign(applicable);
      Divide(applicable);
    }

    /** The cut and the rest, both in canonical order. */
    method Divide(applicable: set<Bytes>)
      requires Valid() && applicable <= local.Keys
      modifies this`sliceBodies, this`surviving
      ensures sliceBodies == Canonical(local, applicable) && surviving == Canonical(local, local.Keys - applicable)
    {
      sliceBodies := CanonicalBatch(local, applicable);
      surviving := CanonicalBatch(local, local.Keys - applicable);
    }

    method Sign(applicable: set<Bytes>)
      requires Valid() && phase == Collecting && applicable <= local.Keys
      modifies this`mySig, this`sigs, this`slice, this`phase
      ensures Valid() && Value() == Cut(old(Value()), applicable, hash(applicable))
      ensures slice == applicable && phase != Collecting && mySig.Some?
    {
      mySig := Some(hash(applicable));
      sigs := sigs[me := hash(applicable)];
      slice := applicable;
      phase := Finalized;
      Ratify();
    }

    /** `tick`: cut once the window has closed, give up once the round is due. Going back in time
        is refused (`RoundError`). */
    method Tick(t: int) returns (ok: bool)
      requires Valid()
      modifies this
      ensures Valid() && ok == (t >= old(now)) && now == (if ok then t else old(now))
      ensures !ok || t < closeBy || old(phase) == Gone || old(phase) == Abandoned ==> Value() == old(Value())
      ensures ok && old(phase) == Finalized && t >= abandonBy ==>
                Value() == old(Value()).(phase := Abandoned) && surviving == Canonical(local, local.Keys)
      ensures ok && old(phase) == Finalized && t < abandonBy ==> Value() == old(Value())
      ensures ok && old(phase) == Collecting && t >= closeBy ==>
                IsCut(hash, screen, old(Value()), old(holds[me := local.Keys]), slice) &&
                var cut := Cut(old(Value()), slice, hash(slice));
                  Value() == cut.(phase := if cut.phase == Finalized && t >= abandonBy then Abandoned else cut.phase)
    {
      if t < now { return false; }
      now := t;
      ok := true;
      if phase == Collecting && t >= closeBy { Finalize(); }
      if phase == Finalized && t >= abandonBy { GiveUp(); }
    }

    /** `_abandon`: everything held locally survives. */
    method GiveUp()
      requires Valid() && phase == Finalized
      modifies this`phase, this`surviving
      ensures Valid() && Value() == old(Value()).(phase := Abandoned) && surviving == Canonical(local, local.Keys)
    {
      phase := Abandoned;
      surviving := CanonicalBatch(local, local.Keys);
    }
  }

  lemma SortedIsDistinct(s: set<Node>)
    ensures Distinct(SortedKeys(s)) && SetOf(SortedKeys(s)) == s
  {
    var ks := SortedKeys(s);
    forall i, j | 0 <= i < j < |ks| ensures ks[i] != ks[j] {
      assert Less(ks[i], ks[j]);
      LessIrreflexive(ks[i]);
    }
  }

  lemma SliceWithin(hash: set<Bytes> -> Bytes, holdings: Holdings, local: set<Bytes>, quorum: nat, slice: set<Bytes>)
    requires IsSlice(hash, holdings, local, quorum, slice)
    ensures slice <= local
  {
  }
}
