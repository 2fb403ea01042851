/** The slice a `Round` of dude/consensus/round.py proposes: a largest intersection of the holdings
    of any quorum-sized group with the local set, ties going to the least slice hash. */
module Slice {
  import opened Bytes
  import opened Codec
  import opened Ops

  type Node = Bytes
  type Holdings = map<Node, set<Bytes>>

  ghost predicate Injective(h: Bytes -> Bytes) {
    forall a, b :: h(a) == h(b) ==> a == b
  }

  /** `_slice_hash(bucket, hashes)`: the hash of the bucket and the hashes in ascending order. */
  ghost function SliceHash(h: Bytes -> Bytes, bucket: int, hashes: set<Bytes>): Bytes {
    h(Encode(List([Int(bucket), List(Strs(SortedKeys(hashes)))])))
  }

  /** A slice hash names one bucket and one set of transactions. */
  lemma SliceHashInjective(h: Bytes -> Bytes, b: int, s: set<Bytes>, c: int, t: set<Bytes>)
    requires Injective(h) && SliceHash(h, b, s) == SliceHash(h, c, t)
    ensures b == c && s == t
  {
    var v, w := List([Int(b), List(Strs(SortedKeys(s)))]), List([Int(c), List(Strs(SortedKeys(t)))]);
    EncodeInjective(v, w);
    assert v.items[0] == w.items[0] && v.items[1] == w.items[1];
    var ks, ls := SortedKeys(s), SortedKeys(t);
    assert |ks| == |Strs(ks)| == |ls|;
    forall i | 0 <= i < |ks| ensures ks[i] == ls[i] { assert Strs(ks)[i] == Strs(ls)[i]; }
    assert ks == ls;
    forall x ensures x in s <==> x in t { assert x in ks <==> x in ls; }
  }

  // -------------------------------------------------------------------- combinations

  /** `itertools.combinations(peers, k)`. */
  function Combinations(peers: seq<Node>, k: nat): seq<seq<Node>> {
    if k == 0 then [[]]
    else if peers == [] then []
    else Prefixed(peers[0], Combinations(peers[1..], k - 1)) + Combinations(peers[1..], k)
  }

  function Prefixed(p: Node, cs: seq<seq<Node>>): seq<seq<Node>> {
    seq(|cs|, i requires 0 <= i < |cs| => [p] + cs[i])
  }

  predicate Distinct(s: seq<Node>) { forall i, j :: 0 <= i < j < |s| ==> s[i] != s[j] }

  function SetOf(s: seq<Node>): set<Node> { set p | p in s }

  lemma {:induction false} CombinationsAre(peers: seq<Node>, k: nat, i: nat)
    requires Distinct(peers) && i < |Combinations(peers, k)|
    ensures var c := Combinations(peers, k)[i];
            |c| == k && Distinct(c) && SetOf(c) <= SetOf(peers)
  {
    if k > 0 && peers != [] {
      var first := Combinations(peers[1..], k - 1);
      var c := Combinations(peers, k)[i];
      if i < |first| {
        CombinationsAre(peers[1..], k - 1, i);
        assert c == [peers[0]] + first[i];
        assert forall j :: 0 <= j < |first[i]| ==> first[i][j] in SetOf(first[i]);
        assert forall p :: p in SetOf(first[i]) ==> p in peers[1..];
      } else {
        CombinationsAre(peers[1..], k, i - |first|);
        assert forall p :: p in SetOf(c) ==> p in peers[1..];
      }
    }
  }

  /** Every group of `k` peers is among the combinations. */
  lemma {:induction false} GroupIsCombination(peers: seq<Node>, group: set<Node>, k: nat) returns (i: nat)
    requires Distinct(peers) && group <= SetOf(peers) && |group| == k
    ensures i < |Combinations(peers, k)| && SetOf(Combinations(peers, k)[i]) == group
    decreases |peers|
  {
    if k == 0 {
      i := 0;
      assert SetOf([]) == {};
    } else {
      GroupSplit(peers, group);
      var p, rest := peers[0], peers[1..];
      if p in group {
        i := GroupIsCombination(rest, group - {p}, k - 1);
        WithFirst(peers, group, k, i);
      } else {
        var j := GroupIsCombination(rest, group, k);
        i := |Combinations(rest, k - 1)| + j;
        SuffixAt(peers, k, j);
      }
    }
  }

  lemma WithFirst(peers: seq<Node>, group: set<Node>, k: nat, i: nat)
    requires peers != [] && k >= 1 && peers[0] in group && i < |Combinations(peers[1..], k - 1)|
    requires SetOf(Combinations(peers[1..], k - 1)[i]) == group - {peers[0]}
    ensures i < |Combinations(peers, k)| && SetOf(Combinations(peers, k)[i]) == group
  {
    PrefixedAt(peers, k, i);
  }

  lemma SuffixAt(peers: seq<Node>, k: nat, j: nat)
    requires peers != [] && k >= 1 && j < |Combinations(peers[1..], k)|
    ensures var i := |Combinations(peers[1..], k - 1)| + j;
            i < |Combinations(peers, k)| && Combinations(peers, k)[i] == Combinations(peers[1..], k)[j]
  {
  }

  lemma GroupSplit(peers: seq<Node>, group: set<Node>)
    requires Distinct(peers) && group <= SetOf(peers) && |group| > 0
    ensures peers != [] && Distinct(peers[1..])
    ensures if peers[0] in group then group - {peers[0]} <= SetOf(peers[1..]) else group <= SetOf(peers[1..])
  {
    var x :| x in group;
    assert x in peers;
    assert peers == [peers[0]] + peers[1..];
  }

  lemma PrefixedAt(peers: seq<Node>, k: nat, i: nat)
    requires peers != [] && k >= 1 && i < |Combinations(peers[1..], k - 1)|
    ensures i < |Combinations(peers, k)|
    ensures SetOf(Combinations(peers, k)[i]) == {peers[0]} + SetOf(Combinations(peers[1..], k - 1)[i])
  {
    var c := Combinations(peers[1..], k - 1)[i];
    assert Combinations(peers, k)[i] == [peers[0]] + c;
    assert SetOf([peers[0]] + c) == {peers[0]} + SetOf(c);
  }

  lemma {:induction false} DistinctSize(s: seq<Node>)
    requires Distinct(s)
    ensures |SetOf(s)| == |s|
  {
    if s != [] {
      var n := |s| - 1;
      DistinctSize(s[..n]);
      assert s == s[..n] + [s[n]];
      assert SetOf(s) == SetOf(s[..n]) + {s[n]};
      assert s[n] !in SetOf(s[..n]);
    }
  }

  // ------------------------------------------------------------------------- the choice

  /** What every member of the group holds, of the local set. */
  function Common(holdings: Holdings, local: set<Bytes>, group: set<Node>): set<Bytes> {
    set h | h in local && forall p :: p in group && p in holdings ==> h in holdings[p]
  }

  ghost predicate IsGroup(holdings: Holdings, quorum: nat, group: set<Node>) {
    group <= holdings.Keys && |group| == quorum
  }

  /** `slice` is a largest common set over the quorum-sized groups, and of the largest the one with
      the least hash; with fewer holdings than a quorum it is empty. */
  ghost predicate IsSlice(hash: set<Bytes> -> Bytes, holdings: Holdings, local: set<Bytes>, quorum: nat,
      slice: set<Bytes>) {
    if |holdings| < quorum then slice == {} else
      (exists group :: IsGroup(holdings, quorum, group) && slice == Common(holdings, local, group)) &&
      (forall group :: IsGroup(holdings, quorum, group) ==> NoBetter(hash, Common(holdings, local, group), slice))
  }

  ghost predicate NoBetter(hash: set<Bytes> -> Bytes, other: set<Bytes>, slice: set<Bytes>) {
    |other| < |slice| || (|other| == |slice| && !Less(hash(other), hash(slice)))
  }

  /** Every member of the slice is held locally and by a full quorum. */
  lemma SliceIsHeld(hash: set<Bytes> -> Bytes, holdings: Holdings, local: set<Bytes>, quorum: nat, slice: set<Bytes>,
      x: Bytes)
    returns (group: set<Node>)
    requires IsSlice(hash, holdings, local, quorum, slice) && x in slice
    ensures x in local && IsGroup(holdings, quorum, group) && forall p :: p in group ==> x in holdings[p]
  {
    group :| IsGroup(holdings, quorum, group) && slice == Common(holdings, local, group);
  }

  /** Nodes with the same holdings that each hold every quorum-held hash choose the same slice. */
  lemma SlicesAgree(hash: set<Bytes> -> Bytes, holdings: Holdings, quorum: nat,
                    local1: set<Bytes>, slice1: set<Bytes>, local2: set<Bytes>, slice2: set<Bytes>)
    requires quorum >= 1 && forall s, t :: hash(s) == hash(t) ==> s == t
    requires IsSlice(hash, holdings, local1, quorum, slice1) && IsSlice(hash, holdings, local2, quorum, slice2)
    requires HoldsAllQuorumHeld(holdings, quorum, local1) && HoldsAllQuorumHeld(holdings, quorum, local2)
    ensures slice1 == slice2
  {
    if |holdings| >= quorum {
      forall group | IsGroup(holdings, quorum, group)
        ensures Common(holdings, local1, group) == Common(holdings, local2, group)
      {
        CommonWhole(holdings, quorum, group, local1, local2);
      }
      var g1 :| IsGroup(holdings, quorum, g1) && slice1 == Common(holdings, local1, g1);
      var g2 :| IsGroup(holdings, quorum, g2) && slice2 == Common(holdings, local2, g2);
      assert NoBetter(hash, Common(holdings, local2, g1), slice2);
      assert NoBetter(hash, Common(holdings, local1, g2), slice1);
      LessTotal(hash(slice1), hash(slice2));
    }
  }

  ghost predicate HoldsAllQuorumHeld(holdings: Holdings, quorum: nat, local: set<Bytes>) {
    forall group, h :: IsGroup(holdings, quorum, group) && (forall p :: p in group ==> h in holdings[p]) ==> h in local
  }

  lemma CommonWhole(holdings: Holdings, quorum: nat, group: set<Node>, local1: set<Bytes>, local2: set<Bytes>)
    requires IsGroup(holdings, quorum, group)
    requires HoldsAllQuorumHeld(holdings, quorum, local1) && HoldsAllQuorumHeld(holdings, quorum, local2)
    ensures Common(holdings, local1, group) == Common(holdings, local2, group)
  {
  }

  /** The intersection of one combination's holdings with the local set, stopping early once
      nothing is left. */
  method Intersect(holdings: Holdings, local: set<Bytes>, combo: seq<Node>) returns (inter: set<Bytes>)
    requires combo != [] && forall i :: 0 <= i < |combo| ==> combo[i] in holdings
    ensures inter == Common(holdings, local, SetOf(combo))
  {
    inter := holdings[combo[0]];
    var i := 1;
    while i < |combo|
      invariant 1 <= i <= |combo|
      invariant forall h :: h in inter <==> forall j :: 0 <= j < i ==> h in holdings[combo[j]]
    {
      inter := inter * holdings[combo[i]];
      i := i + 1;
      if inter == {} { break; }
    }
    ghost var done := i;
    inter := inter * local;
    forall h ensures h in inter <==> h in Common(holdings, local, SetOf(combo)) {
      if h in Common(holdings, local, SetOf(combo)) {
        assert forall j :: 0 <= j < |combo| ==> combo[j] in SetOf(combo);
      }
    }
  }

  /** `_compute_slice`: a running maximum over the combinations of a quorum of peers. */
  method ComputeSlice(hash: set<Bytes> -> Bytes, holdings: Holdings, peers: seq<Node>, local: set<Bytes>, quorum: nat)
    returns (slice: set<Bytes>)
    requires quorum >= 1 && Distinct(peers) && SetOf(peers) == holdings.Keys
    ensures IsSlice(hash, holdings, local, quorum, slice)
  {
    if |holdings| < quorum { return {}; }
    var combos := Combinations(peers, quorum);
    var candidates: set<set<Bytes>> := {};
    var maxSize: nat := 0;
    var i := 0;
    SomeCombination(holdings, peers, quorum);
    while i < |combos|
      invariant 0 <= i <= |combos|
      invariant maxSize > 0 ==> candidates != {}
      invariant forall c :: c in candidates ==> |c| == maxSize && IsCommon(holdings, local, quorum, c)
      invariant forall j :: 0 <= j < i ==> Covered(holdings, local, SetOf(combos[j]), candidates, maxSize)
      invariant i > 0 ==> candidates != {}
    {
      CombinationsAre(peers, quorum, i);
      var combo := combos[i];
      forall j | 0 <= j < |combo| ensures combo[j] in holdings { assert combo[j] in SetOf(combo); }
      var inter := Intersect(holdings, local, combo);
      DistinctSize(combo);
      assert IsGroup(holdings, quorum, SetOf(combo));
      ghost var before, beforeMax := candidates, maxSize;
      if |inter| > maxSize {
        maxSize := |inter|;
        candidates := {inter};
      } else if |inter| == maxSize {
        candidates := candidates + {inter};
      }
      forall j | 0 <= j <= i ensures Covered(holdings, local, SetOf(combos[j]), candidates, maxSize) {
        if j < i { assert Covered(holdings, local, SetOf(combos[j]), before, beforeMax); }
      }
      i := i + 1;
    }
    AllGroupsCovered(holdings, local, peers, quorum, candidates, maxSize);
    // A quorum of holdings always yields a candidate, so there is a least one.
    slice := LeastHash(hash, candidates);
    assert IsCommon(holdings, local, quorum, slice);
    forall group | IsGroup(holdings, quorum, group) ensures NoBetter(hash, Common(holdings, local, group), slice) {
      assert Covered(holdings, local, group, candidates, maxSize);
    }
  }

  ghost predicate IsCommon(holdings: Holdings, local: set<Bytes>, quorum: nat, c: set<Bytes>) {
    exists group :: IsGroup(holdings, quorum, group) && c == Common(holdings, local, group)
  }

  ghost predicate Covered(holdings: Holdings, local: set<Bytes>, group: set<Node>, candidates: set<set<Bytes>>,
      maxSize: nat) {
    var c := Common(holdings, local, group);
    |c| <= maxSize && (|c| == maxSize ==> c in candidates)
  }

  lemma AllGroupsCovered(holdings: Holdings, local: set<Bytes>, peers: seq<Node>, quorum: nat,
      candidates: set<set<Bytes>>, maxSize: nat)
    requires Distinct(peers) && SetOf(peers) == holdings.Keys
    requires forall j :: 0 <= j < |Combinations(peers, quorum)| ==>
               Covered(holdings, local, SetOf(Combinations(peers, quorum)[j]), candidates, maxSize)
    ensures forall group :: IsGroup(holdings, quorum, group) ==> Covered(holdings, local, group, candidates, maxSize)
  {
    forall group | IsGroup(holdings, quorum, group) ensures Covered(holdings, local, group, candidates, maxSize) {
      var j := GroupIsCombination(peers, group, quorum);
    }
  }

  lemma {:induction false} SomeGroup(holdings: Holdings, quorum: nat)
    requires |holdings| >= quorum
    ensures exists group :: IsGroup(holdings, quorum, group)
  {
    var group := holdings.Keys;
    assert |group| == |holdings|;
    while |group| > quorum
      invariant group <= holdings.Keys && |group| >= quorum
      decreases |group|
    {
      var p :| p in group;
      group := group - {p};
    }
    assert IsGroup(holdings, quorum, group);
  }

  lemma SomeCombination(holdings: Holdings, peers: seq<Node>, quorum: nat)
    requires Distinct(peers) && SetOf(peers) == holdings.Keys && |holdings| >= quorum
    ensures Combinations(peers, quorum) != []
  {
    SomeGroup(holdings, quorum);
    var group :| IsGroup(holdings, quorum, group);
    var _ := GroupIsCombination(peers, group, quorum);
  }

  /** `min(candidates, key=...)`. */
  method LeastHash(hash: set<Bytes> -> Bytes, candidates: set<set<Bytes>>) returns (least: set<Bytes>)
    requires candidates != {}
    ensures least in candidates && forall c :: c in candidates ==> !Less(hash(c), hash(least))
  {
    least :| least in candidates;
    LessIrreflexive(hash(least));
    var todo := candidates - {least};
    while todo != {}
      invariant todo <= candidates && least in candidates
      invariant forall c :: c in candidates && c !in todo ==> !Less(hash(c), hash(least))
      decreases |todo|
    {
      var c :| c in todo;
      todo := todo - {c};
      if Less(hash(c), hash(least)) {
        forall d | d in candidates && d !in todo ensures !Less(hash(d), hash(c)) {
          if Less(hash(d), hash(c)) { LessTransitive(hash(d), hash(c), hash(least)); LessIrreflexive(hash(c)); }
        }
        least := c;
      }
    }
  }
}
