/** Signer bitmaps and `MultiSig` of dude/core/crypto.py, `Authorization.verify` of
    dude/store/management.py, and the `SettleRound` of dude/consensus/settle_round.py that gathers
    the signatures. Keys, messages and signatures are abstract; `verify` is the signature check. */
module Multisig {
  import opened Bytes
  import opened Bits
  import Quorum
  import Slice
  import SmtBytes

  type Key = Bytes
  type Sig = Bytes
  type Verifier = (Key, Bytes, Sig) -> bool

  // --------------------------------------------------------------------------- bitmaps

  function BitmapSize(n: nat): nat { (n + 7) / 8 }

  predicate BitAt(bitmap: seq<bv8>, i: nat)
    requires i < 8 * |bitmap|
  {
    BitOf(bitmap[i / 8], i % 8)
  }

  lemma BitAtWritten(bitmap: seq<bv8>, i: nat, j: nat)
    requires i < 8 * |bitmap| && j < 8 * |bitmap|
    ensures BitAt(bitmap[i / 8 := bitmap[i / 8] | OneBit(i % 8)], j) == (j == i || BitAt(bitmap, j))
  {
    SmtBytes.SameSlot(i, j);
    SetBit(bitmap[i / 8], i % 8, j % 8);
  }

  /** `bitmap_set`, writing bits into a byte array; an index out of range is refused. */
  method BitmapSet(indices: seq<int>, n: nat) returns (r: Option<seq<bv8>>)
    ensures r.None? <==> exists k :: 0 <= k < |indices| && !(0 <= indices[k] < n)
    ensures r.Some? ==> |r.value| == BitmapSize(n) && forall i :: 0 <= i < n ==> (BitAt(r.value, i) <==> i in indices)
    ensures r.Some? ==> forall i :: n <= i < 8 * |r.value| ==> !BitAt(r.value, i)
  {
    var buf := new bv8[BitmapSize(n)](_ => 0);
    for k := 0 to |indices|
      invariant forall j :: 0 <= j < k ==> 0 <= indices[j] < n
      invariant forall i :: 0 <= i < 8 * buf.Length ==> (BitAt(buf[..], i) <==> i in indices[..k])
    {
      var i := indices[k];
      if !(0 <= i < n) { return None; }
      ghost var before := buf[..];
      buf[i / 8] := buf[i / 8] | OneBit(i % 8);
      assert buf[..] == before[i / 8 := before[i / 8] | OneBit(i % 8)];
      assert indices[..k + 1] == indices[..k] + [i];
      forall j | 0 <= j < 8 * buf.Length ensures BitAt(buf[..], j) <==> j in indices[..k + 1] {
        BitAtWritten(before, i, j);
      }
    }
    assert indices[..|indices|] == indices;
    return Some(buf[..]);
  }

  /** `bitmap_indices`: the set bits below `n`, ascending. */
  function BitmapIndices(bitmap: seq<bv8>, n: nat): seq<nat>
    requires n <= 8 * |bitmap|
  {
    if n == 0 then []
    else if BitAt(bitmap, n - 1) then BitmapIndices(bitmap, n - 1) + [n - 1]
    else BitmapIndices(bitmap, n - 1)
  }

  predicate Rising(s: seq<nat>) { forall i, j :: 0 <= i < j < |s| ==> s[i] < s[j] }

  lemma RisingSnoc(s: seq<nat>, x: nat)
    requires Rising(s) && forall i :: i in s ==> i < x
    ensures Rising(s + [x])
  {
    forall i | 0 <= i < |s| ensures s[i] < x { assert s[i] in s; }
  }

  lemma {:induction false} IndicesAreBits(bitmap: seq<bv8>, n: nat)
    requires n <= 8 * |bitmap|
    ensures Rising(BitmapIndices(bitmap, n))
    ensures forall i :: i in BitmapIndices(bitmap, n) <==> 0 <= i < n && BitAt(bitmap, i)
  {
    if n > 0 {
      IndicesAreBits(bitmap, n - 1);
      RisingSnoc(BitmapIndices(bitmap, n - 1), n - 1);
    }
  }

  /** `sorted` of indices below `n`. */
  function Sorted(s: set<nat>, n: nat): seq<nat> {
    if n == 0 then [] else if n - 1 in s then Sorted(s, n - 1) + [n - 1] else Sorted(s, n - 1)
  }

  lemma {:induction false} SortedIs(s: set<nat>, n: nat)
    ensures Rising(Sorted(s, n))
    ensures forall i :: i in Sorted(s, n) <==> i in s && i < n
  {
    if n > 0 {
      SortedIs(s, n - 1);
      RisingSnoc(Sorted(s, n - 1), n - 1);
    }
  }

  /** Reading back a bitmap gives the indices written into it, in ascending order. */
  lemma {:induction false} BitmapRoundTrip(bitmap: seq<bv8>, s: set<nat>, n: nat)
    requires n <= 8 * |bitmap| && forall i :: 0 <= i < n ==> (BitAt(bitmap, i) <==> i in s)
    ensures BitmapIndices(bitmap, n) == Sorted(s, n)
  {
    if n > 0 { BitmapRoundTrip(bitmap, s, n - 1); }
  }

  // ------------------------------------------------------------------------ multisigs

  datatype MultiSig = MultiSig(bitmap: seq<bv8>, sigs: seq<Sig>)

  /** `MultiSig.combine(shares, n)`. */
  method Combine(shares: map<nat, Sig>, n: nat) returns (m: Option<MultiSig>)
    ensures m.Some? <==> forall i :: i in shares ==> i < n
    ensures m.Some? ==> IsCombined(m.value, shares, n)
  {
    if exists i :: i in shares && i >= n { return None; }
    var indices := Sorted(shares.Keys, n);
    SortedIs(shares.Keys, n);
    var asInts: seq<int> := indices;
    var bitmap := BitmapSet(asInts, n);
    assert forall k :: 0 <= k < |asInts| ==> asInts[k] in indices;
    var sigs := seq(|indices|, k requires 0 <= k < |indices| => assert indices[k] in indices; shares[indices[k]]);
    m := Some(MultiSig(bitmap.value, sigs));
  }

  ghost predicate IsCombined(m: MultiSig, shares: map<nat, Sig>, n: nat) {
    |m.bitmap| == BitmapSize(n) &&
    (forall i :: 0 <= i < n ==> (BitAt(m.bitmap, i) <==> i in shares)) &&
    |m.sigs| == |Sorted(shares.Keys, n)| &&
    forall k :: 0 <= k < |m.sigs| ==>
      Sorted(shares.Keys, n)[k] in shares && m.sigs[k] == shares[Sorted(shares.Keys, n)[k]]
  }

  /** `MultiSig.verify`: the widths agree and every named signer's signature checks. */
  predicate Verifies(verify: Verifier, m: MultiSig, msg: Bytes, signers: seq<Key>) {
    |m.bitmap| == BitmapSize(|signers|) &&
    var indices := BitmapIndices(m.bitmap, |signers|);
    |indices| == |m.sigs| &&
    forall k :: 0 <= k < |indices| ==> indices[k] < |signers| && verify(signers[indices[k]], msg, m.sigs[k])
  }

  function RosterSlots(indices: seq<nat>, n: nat): set<nat> { set i | i in indices && i < n }

  function Members(roster: seq<Key>, idx: set<nat>): set<Key>
    requires forall i :: i in idx ==> i < |roster|
  {
    set i | i in idx :: roster[i]
  }

  /** `Authorization.verify`. */
  predicate Authorised(verify: Verifier, m: MultiSig, payload: Bytes, roster: seq<Key>, anchor: Key) {
    var signers := roster + [anchor];
    Verifies(verify, m, payload, signers) &&
    var indices := BitmapIndices(m.bitmap, |signers|);
    (|roster| in indices ||
     (roster != [] && |RosterSlots(indices, |roster|)| >= Quorum.Size(|roster|)))
  }

  ghost predicate Signed(verify: Verifier, who: Key, payload: Bytes) {
    exists sig :: verify(who, payload, sig)
  }

  /** The roster members whose slots a multisig names. */
  ghost function SignersIn(m: MultiSig, roster: seq<Key>): set<Key>
    requires |roster| <= 8 * |m.bitmap|
  {
    set i | 0 <= i < |roster| && BitAt(m.bitmap, i) :: roster[i]
  }

  /** A multisig is accepted exactly when each signature it names checks and either the anchor's slot
      is named or a quorum of roster members is. */
  lemma AuthorisedExactly(verify: Verifier, m: MultiSig, payload: Bytes, roster: seq<Key>, anchor: Key)
    requires Slice.Distinct(roster) && |m.bitmap| == BitmapSize(|roster| + 1)
    ensures Authorised(verify, m, payload, roster, anchor) <==>
            Verifies(verify, m, payload, roster + [anchor]) &&
            (BitAt(m.bitmap, |roster|) ||
             (|roster| >= 1 && |SignersIn(m, roster)| >= Quorum.Size(|roster|)))
  {
    var n := |roster|;
    var idx := RosterSlots(BitmapIndices(m.bitmap, n + 1), n);
    IndicesAreBits(m.bitmap, n + 1);
    assert Members(roster, idx) == SignersIn(m, roster);
    SameSize(roster, idx);
  }

  /** The signatures a multisig names all check exactly when it is what `combine` makes of signatures
      that check. */
  lemma VerifiesExactly(verify: Verifier, m: MultiSig, msg: Bytes, signers: seq<Key>)
    ensures Verifies(verify, m, msg, signers) <==> exists shares :: IsSound(verify, m, msg, signers, shares)
  {
    if Verifies(verify, m, msg, signers) { var shares := SharesOf(verify, m, msg, signers); }
    if shares :| IsSound(verify, m, msg, signers, shares) { SoundVerifies(verify, m, msg, signers, shares); }
  }

  ghost predicate IsSound(verify: Verifier, m: MultiSig, msg: Bytes, signers: seq<Key>, shares: map<nat, Sig>) {
    IsCombined(m, shares, |signers|) &&
    forall i :: i in shares ==> i < |signers| && verify(signers[i], msg, shares[i])
  }

  lemma SoundVerifies(verify: Verifier, m: MultiSig, msg: Bytes, signers: seq<Key>, shares: map<nat, Sig>)
    requires IsSound(verify, m, msg, signers, shares)
    ensures Verifies(verify, m, msg, signers)
  {
    BitmapRoundTrip(m.bitmap, shares.Keys, |signers|);
    SortedIs(shares.Keys, |signers|);
    var indices := Sorted(shares.Keys, |signers|);
    forall k | 0 <= k < |indices| ensures indices[k] < |signers| && verify(signers[indices[k]], msg, m.sigs[k]) {
      assert indices[k] in indices;
    }
  }

  /** Signatures listed by ascending index, as a map. */
  ghost function ByIndex(indices: seq<nat>, sigs: seq<Sig>): map<nat, Sig>
    requires Rising(indices) && |indices| == |sigs|
  {
    map k | 0 <= k < |indices| :: indices[k] := sigs[k]
  }

  lemma ByIndexIs(indices: seq<nat>, sigs: seq<Sig>, i: nat)
    requires Rising(indices) && |indices| == |sigs|
    ensures i in ByIndex(indices, sigs) <==> i in indices
    ensures forall k :: 0 <= k < |indices| ==>
              indices[k] in ByIndex(indices, sigs) && ByIndex(indices, sigs)[indices[k]] == sigs[k]
  {
  }

  lemma SharesOf(verify: Verifier, m: MultiSig, msg: Bytes, signers: seq<Key>) returns (shares: map<nat, Sig>)
    requires Verifies(verify, m, msg, signers)
    ensures IsSound(verify, m, msg, signers, shares)
  {
    var n := |signers|;
    var indices := BitmapIndices(m.bitmap, n);
    IndicesAreBits(m.bitmap, n);
    shares := ByIndex(indices, m.sigs);
    forall i: nat ensures i in shares <==> i in indices { ByIndexIs(indices, m.sigs, i); }
    ByIndexIs(indices, m.sigs, 0);
    BitmapRoundTrip(m.bitmap, shares.Keys, n);
    forall i | i in shares ensures i < n && verify(signers[i], msg, shares[i]) {
      var k :| 0 <= k < |indices| && indices[k] == i;
      assert shares[indices[k]] == m.sigs[k];
    }
  }

  /** The anchor alone suffices, for every roster and so for none. */
  lemma AnchorSuffices(verify: Verifier, m: MultiSig, payload: Bytes, roster: seq<Key>, anchor: Key, sig: Sig)
    requires verify(anchor, payload, sig) && IsCombined(m, map[|roster| := sig], |roster| + 1)
    ensures Authorised(verify, m, payload, roster, anchor)
  {
    var signers, shares := roster + [anchor], map[|roster| := sig];
    assert signers[|roster|] == anchor;
    assert IsSound(verify, m, payload, signers, shares);
    SoundVerifies(verify, m, payload, signers, shares);
    IndicesAreBits(m.bitmap, |signers|);
  }

  /** Acceptance means the anchor signed the payload, or a quorum of distinct roster members did. */
  lemma AuthorisedMeans(verify: Verifier, m: MultiSig, payload: Bytes, roster: seq<Key>, anchor: Key)
    requires Authorised(verify, m, payload, roster, anchor) && Slice.Distinct(roster)
    ensures Signed(verify, anchor, payload) ||
            exists who: set<Key> :: QuorumSigned(verify, payload, roster, who)
  {
    var signers := roster + [anchor];
    var indices := BitmapIndices(m.bitmap, |signers|);
    IndicesAreBits(m.bitmap, |signers|);
    forall i | i in indices ensures Signed(verify, signers[i], payload) {
      var k :| 0 <= k < |indices| && indices[k] == i;
      assert verify(signers[i], payload, m.sigs[k]);
    }
    if |roster| in indices {
      assert signers[|roster|] == anchor;
    } else {
      var idx := RosterSlots(indices, |roster|);
      var who := Members(roster, idx);
      SameSize(roster, idx);
      forall w | w in who ensures w in roster && Signed(verify, w, payload) {
        var i :| i in idx && roster[i] == w;
        assert signers[i] == w;
      }
      assert QuorumSigned(verify, payload, roster, who);
    }
  }

  ghost predicate QuorumSigned(verify: Verifier, payload: Bytes, roster: seq<Key>, who: set<Key>) {
    roster != [] && |who| >= Quorum.Size(|roster|) && forall w :: w in who ==> w in roster && Signed(verify, w, payload)
  }

  lemma OneMoreMember(roster: seq<Key>, rest: set<nat>, j: nat)
    requires Slice.Distinct(roster) && j < |roster| && j !in rest && forall i :: i in rest ==> i < |roster|
    ensures |Members(roster, rest + {j})| == |Members(roster, rest)| + 1
  {
    var fewer, all := Members(roster, rest), Members(roster, rest + {j});
    forall i | i in rest ensures roster[i] != roster[j] {
      if i < j { assert roster[i] != roster[j]; } else { assert roster[j] != roster[i]; }
    }
    assert roster[j] !in fewer;
    assert all == fewer + {roster[j]};
  }

  /** Distinct positions of a distinct roster are as many distinct members. */
  lemma {:induction false} SameSize(roster: seq<Key>, idx: set<nat>)
    requires Slice.Distinct(roster) && forall i :: i in idx ==> i < |roster|
    ensures |Members(roster, idx)| == |idx|
    decreases |idx|
  {
    var who := Members(roster, idx);
    if exists i :: i in idx {
      var j :| j in idx;
      var rest := idx - {j};
      SameSize(roster, rest);
      OneMoreMember(roster, rest, j);
      assert rest + {j} == idx;
    } else {
      assert idx == {} && who == {};
    }
  }

  // ------------------------------------------------------------------------ settle rounds

  datatype Stage = Gathering | SettledStage | AbandonedStage

  /** `SettleRound`: gather signatures over one slice hash and one set of anchors, that is over one
      `payload`, and settle at a quorum. */
  class SettleRound {
    const me: Key
    const roster: seq<Key>
    const payload: Bytes
    const abandonBy: int
    const verify: Verifier
    var sigs: map<Key, Sig>
    var stage: Stage
    var settled: Option<MultiSig>

    ghost predicate Valid()
      reads this
    {
      me in roster && Slice.Distinct(roster) && sigs.Keys <= (set p | p in roster) &&
      (forall p :: p in sigs ==> verify(p, payload, sigs[p])) &&
      (stage == SettledStage <==> settled.Some?) &&
      (stage == SettledStage ==> |sigs| >= Quorum.Size(|roster|)) &&
      forall anchor :: settled.Some? ==> Authorised(verify, settled.value, payload, roster, anchor)
    }

    /** Signs at once with its own key and may settle at once. */
    constructor (me: Key, roster: seq<Key>, payload: Bytes, abandonBy: int, verify: Verifier, mine: Sig)
      requires me in roster && Slice.Distinct(roster) && verify(me, payload, mine)
      ensures Valid() && this.me == me && this.roster == roster && this.payload == payload && this.verify == verify
      ensures sigs == map[me := mine] && stage == (if 1 >= Quorum.Size(|roster|) then SettledStage else Gathering)
    {
      this.me, this.roster, this.payload, this.abandonBy, this.verify := me, roster, payload, abandonBy, verify;
      sigs, stage, settled := map[me := mine], Gathering, None;
      new;
      assert |sigs| == 1;
      TrySettle();
    }

    /** A SETTLE_SIG carrying `msgPayload`, the payload of its own slice hash and anchors. */
    method Receive(msgPayload: Bytes, sig: Sig, from: Key)
      requires Valid()
      modifies this
      ensures Valid()
      ensures var counts := from in roster && from != me && msgPayload == payload && verify(from, payload, sig) &&
              old(stage) == Gathering;
              sigs == if counts then old(sigs)[from := sig] else old(sigs)
      ensures old(stage) != Gathering ==> stage == old(stage) && settled == old(settled)
      ensures old(stage) == Gathering && sigs != old(sigs) ==>
              (stage == SettledStage <==> |sigs| >= Quorum.Size(|roster|))
    {
      if from !in roster || from == me || msgPayload != payload || !verify(from, payload, sig) { return; }
      if stage != Gathering { return; }
      sigs := sigs[from := sig];
      TrySettle();
    }

    method TrySettle()
      requires Valid()
      modifies this`stage, this`settled
      ensures Valid()
      ensures old(stage) != Gathering ==> stage == old(stage) && settled == old(settled)
      ensures old(stage) == Gathering ==> stage == (if |sigs| >= Quorum.Size(|roster|) then SettledStage else Gathering)
    {
      if stage != Gathering { return; }
      if |sigs| < Quorum.Size(|roster|) { return; }
      var shares := map i | 0 <= i < |roster| && roster[i] in sigs :: sigs[roster[i]];
      var m := Combine(shares, |roster| + 1);
      forall anchor: Key ensures Authorised(verify, m.value, payload, roster, anchor) {
        CombinedIsAuthorised(verify, m.value, payload, roster, anchor, sigs, shares);
      }
      settled := m;
      stage := SettledStage;
    }

    method Tick(now: int)
      requires Valid()
      modifies this`stage
      ensures Valid()
      ensures stage == if old(stage) == Gathering && now >= abandonBy then AbandonedStage else old(stage)
    {
      if stage == Gathering && now >= abandonBy { stage := AbandonedStage; }
    }
  }

  /** What a settle round combines, any verifier with that roster accepts. */
  lemma CombinedIsAuthorised(verify: Verifier, m: MultiSig, payload: Bytes, roster: seq<Key>, anchor: Key,
                             sigs: map<Key, Sig>, shares: map<nat, Sig>)
    requires roster != [] && Slice.Distinct(roster) && sigs.Keys <= (set p | p in roster)
    requires forall p :: p in sigs ==> verify(p, payload, sigs[p])
    requires |sigs| >= Quorum.Size(|roster|)
    requires shares == map i | 0 <= i < |roster| && roster[i] in sigs :: sigs[roster[i]]
    requires IsCombined(m, shares, |roster| + 1)
    ensures Authorised(verify, m, payload, roster, anchor)
  {
    CombinedVerifies(verify, m, payload, roster, anchor, sigs, shares);
    CombinedCounts(m, roster, sigs, shares);
  }

  lemma CombinedVerifies(verify: Verifier, m: MultiSig, payload: Bytes, roster: seq<Key>, anchor: Key,
                         sigs: map<Key, Sig>, shares: map<nat, Sig>)
    requires forall p :: p in sigs ==> verify(p, payload, sigs[p])
    requires shares == map i | 0 <= i < |roster| && roster[i] in sigs :: sigs[roster[i]]
    requires IsCombined(m, shares, |roster| + 1)
    ensures Verifies(verify, m, payload, roster + [anchor])
  {
    var n, signers := |roster| + 1, roster + [anchor];
    BitmapRoundTrip(m.bitmap, shares.Keys, n);
    SortedIs(shares.Keys, n);
    var indices := Sorted(shares.Keys, n);
    forall k | 0 <= k < |indices| ensures indices[k] < n && verify(signers[indices[k]], payload, m.sigs[k]) {
      assert indices[k] in indices;
      assert signers[indices[k]] == roster[indices[k]];
    }
  }

  lemma CombinedCounts(m: MultiSig, roster: seq<Key>, sigs: map<Key, Sig>, shares: map<nat, Sig>)
    requires Slice.Distinct(roster) && sigs.Keys <= (set p | p in roster)
    requires shares == map i | 0 <= i < |roster| && roster[i] in sigs :: sigs[roster[i]]
    requires IsCombined(m, shares, |roster| + 1)
    ensures |RosterSlots(BitmapIndices(m.bitmap, |roster| + 1), |roster|)| == |sigs|
  {
    SlotsAreShares(m.bitmap, shares.Keys, |roster|);
    SlotsAreSigners(roster, sigs.Keys, shares.Keys);
  }

  /** The slots read back from a bitmap are those it was made from. */
  lemma SlotsAreShares(bitmap: seq<bv8>, idx: set<nat>, n: nat)
    requires |bitmap| == BitmapSize(n + 1) && (forall i :: i in idx ==> i < n)
    requires forall i :: 0 <= i < n + 1 ==> (BitAt(bitmap, i) <==> i in idx)
    ensures RosterSlots(BitmapIndices(bitmap, n + 1), n) == idx
  {
    IndicesAreBits(bitmap, n + 1);
  }

  /** The slots of a set of roster members are as many as the members. */
  lemma SlotsAreSigners(roster: seq<Key>, who: set<Key>, idx: set<nat>)
    requires Slice.Distinct(roster) && who <= (set p | p in roster)
    requires idx == set i | 0 <= i < |roster| && roster[i] in who
    ensures |idx| == |who|
  {
    SameSize(roster, idx);
    forall p | p in who ensures p in Members(roster, idx) {
      var i :| 0 <= i < |roster| && roster[i] == p;
      assert i in idx;
    }
    assert Members(roster, idx) == who;
  }
}
