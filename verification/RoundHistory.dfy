/** What a round of dude/consensus/round.py knows, said by what it has been sent: whose holdings,
    which bodies, whose signatures; and what it therefore offers to the screen at the cut. */
module RoundHistory {
  import opened Bytes
  import opened Ops
  import opened Slice
  import opened Rounds
  import Quorum

  // --------------------------------------------------------------------- one more input

  lemma TakeKeepsRoster(hash: set<Bytes> -> Bytes, r: Round, x: Input)
    requires r.roster != {}
    ensures Take(hash, r, x).roster == r.roster && Take(hash, r, x).me == r.me
    ensures r.phase == Gone ==> Take(hash, r, x) == r
    ensures r.phase != Collecting ==> Take(hash, r, x).phase != Collecting
  {
  }

  lemma {:induction false} TakeOneMore(hash: set<Bytes> -> Bytes, r: Round, xs: seq<Input>, x: Input)
    requires r.roster != {}
    ensures TakeAll(hash, r, xs).roster == r.roster && TakeAll(hash, r, xs).me == r.me
    ensures TakeAll(hash, r, xs + [x]) == Take(hash, TakeAll(hash, r, xs), x)
    decreases |xs|
  {
    if xs == [] {
      assert [] + [x] == [x] && [x][1..] == [];
      TakeKeepsRoster(hash, r, x);
    } else {
      TakeKeepsRoster(hash, r, xs[0]);
      TakeOneMore(hash, Take(hash, r, xs[0]), xs[1..], x);
      assert (xs + [x])[1..] == xs[1..] + [x];
    }
  }

  lemma TakeLast(hash: set<Bytes> -> Bytes, r: Round, xs: seq<Input>)
    requires r.roster != {} && xs != []
    ensures var n := |xs| - 1;
            var s := TakeAll(hash, r, xs[..n]);
            s.roster == r.roster && s.me == r.me && TakeAll(hash, r, xs) == Take(hash, s, xs[n])
  {
    var n := |xs| - 1;
    TakeOneMore(hash, r, xs[..n], xs[n]);
    assert xs[..n] + [xs[n]] == xs;
  }

  // ------------------------------------------------------------------------- holdings

  /** What `p` last said it holds. */
  function LastHeld(xs: seq<Input>, p: Node): Option<set<Bytes>> {
    if xs == [] then None else
      var x := xs[|xs| - 1];
      if x.HeldIn? && x.peer == p then Some(x.hashes) else LastHeld(xs[..|xs| - 1], p)
  }

  ghost predicate HoldsSaid(r: Round, xs: seq<Input>, p: Node, s: Round) {
    (p in s.holds <==> p in r.roster && LastHeld(xs, p).Some?) &&
    (p in s.holds ==> s.holds[p] == LastHeld(xs, p).value)
  }

  /** Until it is ratified a round has, for each roster member, the last holdings it announced. */
  lemma {:induction false} HoldsAre(hash: set<Bytes> -> Bytes, r: Round, xs: seq<Input>, p: Node)
    requires r.roster != {} && r.holds == map[]
    ensures var s := TakeAll(hash, r, xs); s.phase != Gone ==> HoldsSaid(r, xs, p, s)
    decreases |xs|
  {
    if xs != [] {
      HoldsAre(hash, r, xs[..|xs| - 1], p);
      TakeLast(hash, r, xs);
    }
  }

  // --------------------------------------------------------------------------- bodies

  /** The first body sent for a hash. */
  function FirstBody(xs: seq<Input>, h: Bytes): Option<Signed> {
    if xs == [] then None else
      var before, x := FirstBody(xs[..|xs| - 1], h), xs[|xs| - 1];
      if before.Some? then before
      else if x.BodiesIn? && h in x.bodies then Some(x.bodies[h])
      else None
  }

  ghost predicate BodySaid(r: Round, xs: seq<Input>, h: Bytes, s: Round) {
    (h in s.local <==> h in r.local || FirstBody(xs, h).Some?) &&
    (h in s.local ==> s.local[h] == if h in r.local then r.local[h] else FirstBody(xs, h).value)
  }

  /** While it collects a round holds the bodies it opened with and the first sent of any other. */
  lemma {:induction false} BodiesAre(hash: set<Bytes> -> Bytes, r: Round, xs: seq<Input>, h: Bytes)
    requires r.roster != {}
    ensures var s := TakeAll(hash, r, xs); s.phase == Collecting ==> BodySaid(r, xs, h, s)
    decreases |xs|
  {
    if xs != [] {
      BodiesAre(hash, r, xs[..|xs| - 1], h);
      TakeLast(hash, r, xs);
      TakeKeepsRoster(hash, TakeAll(hash, r, xs[..|xs| - 1]), xs[|xs| - 1]);
    }
  }

  // ----------------------------------------------------------------------- signatures

  /** The first slice hash `p` signed. */
  function FirstSig(xs: seq<Input>, p: Node): Option<Bytes> {
    if xs == [] then None else
      var before, x := FirstSig(xs[..|xs| - 1], p), xs[|xs| - 1];
      if before.Some? then before
      else if x.SigIn? && x.peer == p then Some(x.sliceHash)
      else None
  }

  ghost predicate SigSaid(r: Round, xs: seq<Input>, p: Node, s: Round) {
    (p in s.sigs <==> p in r.roster && FirstSig(xs, p).Some?) &&
    (p in s.sigs ==> s.sigs[p] == FirstSig(xs, p).value)
  }

  /** Until it is ratified a round counts, for each other roster member, its first slice hash. */
  lemma {:induction false} SigsAre(hash: set<Bytes> -> Bytes, r: Round, xs: seq<Input>, p: Node)
    requires r.roster != {} && r.sigs == map[] && p != r.me
    ensures var s := TakeAll(hash, r, xs); s.phase != Gone ==> SigSaid(r, xs, p, s)
    decreases |xs|
  {
    if xs != [] {
      SigsAre(hash, r, xs[..|xs| - 1], p);
      TakeLast(hash, r, xs);
    }
  }

  /** So a round that was cut and is still waiting has fewer than a quorum of first signatures for
      its own slice: it is ratified as soon as there are that many. */
  lemma WaitsForQuorum(hash: set<Bytes> -> Bytes, r: Round, xs: seq<Input>, who: set<Node>)
    requires r.roster != {} && Opened(r)
    requires var s := TakeAll(hash, r, xs);
             s.phase == Finalized && who <= r.roster && r.me !in who &&
             forall p :: p in who ==> FirstSig(xs, p) == s.mySig
    ensures |who| + 1 < Quorum.Size(|r.roster|)
  {
    var s := TakeAll(hash, r, xs);
    RunSignsSoundly(hash, r, xs);
    OwnSignature(hash, r, xs);
    forall p | p in who ensures p in Agreeing(s) { SigsAre(hash, r, xs, p); }
    assert who + {r.me} <= Agreeing(s);
    Quorum.SubsetSize(who + {r.me}, Agreeing(s));
  }

  lemma {:induction false} OwnSignature(hash: set<Bytes> -> Bytes, r: Round, xs: seq<Input>)
    requires r.roster != {} && Opened(r)
    ensures var s := TakeAll(hash, r, xs);
            s.me == r.me && (s.phase != Collecting ==> s.me in s.sigs && s.mySig == Some(s.sigs[s.me]))
    decreases |xs|
  {
    if xs != [] {
      OwnSignature(hash, r, xs[..|xs| - 1]);
      TakeLast(hash, r, xs);
    }
  }

  /** One still waiting at its deadline is given up, and one in any other phase is not. */
  lemma DueGivesUp(hash: set<Bytes> -> Bytes, r: Round)
    requires r.roster != {}
    ensures Take(hash, r, DueIn) == r.(phase := if r.phase == Finalized then Abandoned else r.phase)
  {
  }

  // -------------------------------------------------------------------------- the cut

  /** What the nodes last announced, the round's own bodies standing for itself. */
  ghost predicate Announced(r: Round, xs: seq<Input>, local: set<Bytes>, holdings: Holdings) {
    forall p :: AnnouncedBy(r, xs, local, holdings, p)
  }

  ghost predicate AnnouncedBy(r: Round, xs: seq<Input>, local: set<Bytes>, holdings: Holdings, p: Node) {
    (p in holdings <==> p == r.me || (p in r.roster && LastHeld(xs, p).Some?)) &&
    (p in holdings ==> holdings[p] == if p == r.me then local else LastHeld(xs, p).value)
  }

  /** What a round chooses from at the cut is what was last announced to it. */
  lemma CutFromAnnounced(hash: set<Bytes> -> Bytes, r: Round, xs: seq<Input>)
    requires r.roster != {} && Opened(r) && TakeAll(hash, r, xs).phase == Collecting
    ensures var s := TakeAll(hash, r, xs); Announced(r, xs, s.local.Keys, s.holds[s.me := s.local.Keys])
  {
    var s := TakeAll(hash, r, xs);
    OwnSignature(hash, r, xs);
    var holdings := s.holds[s.me := s.local.Keys];
    forall p ensures AnnouncedBy(r, xs, s.local.Keys, holdings, p) { HoldsAre(hash, r, xs, p); }
  }

  /** The local hashes some quorum holds together. */
  ghost function QuorumHeld(holdings: Holdings, local: set<Bytes>, quorum: nat): set<Bytes> {
    set x | x in local && exists group :: IsGroup(holdings, quorum, group) && x in Common(holdings, local, group)
  }

  /** Everything some quorum holds together is offered to the screen exactly when one quorum holds all
      of it. */
  lemma AllOfferedExactly(hash: set<Bytes> -> Bytes, holdings: Holdings, local: set<Bytes>, quorum: nat,
                          slice: set<Bytes>)
    requires IsSlice(hash, holdings, local, quorum, slice) && |holdings| >= quorum
    ensures var held := QuorumHeld(holdings, local, quorum);
            slice <= held &&
            (held <= slice <==>
             exists group :: IsGroup(holdings, quorum, group) && held <= Common(holdings, local, group))
  {
    var held := QuorumHeld(holdings, local, quorum);
    if group :| IsGroup(holdings, quorum, group) && held <= Common(holdings, local, group) {
      var all := Common(holdings, local, group);
      assert all <= held && NoBetter(hash, all, slice);
      Quorum.SubsetSize(slice, all);
      if slice != all { SmallerSubset(slice, all); }
    }
  }

  lemma SmallerSubset(a: set<Bytes>, b: set<Bytes>)
    requires a <= b && a != b
    ensures |a| < |b|
  {
    var x :| x in b && x !in a;
    Quorum.SubsetSize(a, b - {x});
  }

  /** In particular what every node that announced holds is offered, once they are a quorum. */
  lemma UnanimousIsOffered(hash: set<Bytes> -> Bytes, holdings: Holdings, local: set<Bytes>, quorum: nat,
                           slice: set<Bytes>, x: Bytes)
    requires IsSlice(hash, holdings, local, quorum, slice) && |holdings| >= quorum
    requires x in local && forall p :: p in holdings ==> x in holdings[p]
    ensures x in slice
  {
  }

  /** And it can fail: of four nodes, three hold `x` together and three hold `y` and `z` together; the
      larger set is cut and `x` is not offered. */
  lemma QuorumHeldCanLose(hash: set<Bytes> -> Bytes, me: Node, a: Node, b: Node, c: Node,
                          x: Bytes, y: Bytes, z: Bytes, slice: set<Bytes>)
    requires |{me, a, b, c}| == 4 && |{x, y, z}| == 3
    requires var all := {x, y, z}; IsSlice(hash, map[me := all, a := {x}, b := all, c := {y, z}], all, 3, slice)
    ensures x in QuorumHeld(map[me := {x, y, z}, a := {x}, b := {x, y, z}, c := {y, z}], {x, y, z}, 3)
    ensures x !in slice
  {
    var all := {x, y, z};
    var holdings: Holdings := map[me := all, a := {x}, b := all, c := {y, z}];
    assert holdings.Keys == {me, a, b, c};
    var g, h := {me, a, b}, {me, b, c};
    assert IsGroup(holdings, 3, g) && x in Common(holdings, all, g);
    assert IsGroup(holdings, 3, h) && Common(holdings, all, h) == {y, z};
    assert NoBetter(hash, Common(holdings, all, h), slice);
    if x in slice {
      var k :| IsGroup(holdings, 3, k) && slice == Common(holdings, all, k);
      assert c !in k;
      assert k <= g;
      assert a in k by { if a !in k { Quorum.SubsetSize(k, {me, b}); } }
      assert slice <= {x};
      Quorum.SubsetSize(slice, {x});
    }
  }
}
