/** Chunked export and import of the live rows: `TreeExporter` and `TreeImporter` of
    dude/store/smt_sync.py over the store's subtree queries. */
module Checkpoint {
  import opened Bytes
  import opened Ops
  import opened Views
  import opened Smt
  import opened LayerRoot
  import opened Settle
  import G = Ledger
  import S = Store

  /** A subtree's rows and the hash that vouches for them. */
  datatype Chunk = Chunk(depth: nat, prefix: Path, hash: Digest, rows: Live)

  function RowSize(h: Held): nat { |h.value| + |h.cred| }

  /** `subtree_data_size` of these rows. */
  ghost function Size(live: Live): nat
    decreases |live|
  {
    if live == map[] then 0 else
      var k :| k in live;
      RowSize(live[k]) + Size(live - {k})
  }

  /** Only rows with neither value nor credential weigh nothing. */
  lemma {:induction false} Weightless(live: Live)
    ensures Size(live) == 0 <==> forall k :: k in live ==> RowSize(live[k]) == 0
    decreases |live|
  {
    if live != map[] {
      var k :| k in live && Size(live) == RowSize(live[k]) + Size(live - {k});
      Weightless(live - {k});
      assert forall j :: j in live ==> j == k || j in live - {k};
    }
  }

  ghost function RowsUnder(pathOf: Key -> Path, live: Live, prefix: Path, depth: nat): Live
    requires depth <= MAX_DEPTH
  {
    map k | k in live && Under(pathOf(k), prefix, depth) :: live[k]
  }

  ghost function Weight(pathOf: Key -> Path, live: Live, prefix: Path, depth: nat): nat
    requires depth <= MAX_DEPTH
  {
    Size(RowsUnder(pathOf, live, prefix, depth))
  }

  /** Where `_walk` cuts a chunk. */
  datatype Cut = Cut(depth: nat, prefix: Path)

  /** `_walk`, giving the subtrees it yields as chunks. */
  ghost function Walk(pathOf: Key -> Path, live: Live, budget: int, prefix: Path, depth: nat): seq<Cut>
    requires depth <= MAX_DEPTH
    decreases MAX_DEPTH - depth
  {
    var weight := Weight(pathOf, live, prefix, depth);
    if weight == 0 then []
    else if weight <= budget || depth >= MAX_DEPTH then [Cut(depth, prefix)]
    else
      var set1 := prefix[depth := true];
      var left, right := if prefix[depth] then set1 else prefix, if prefix[depth] then prefix else set1;
      Walk(pathOf, live, budget, left, depth + 1) + Walk(pathOf, live, budget, right, depth + 1)
  }

  function Zeros(n: nat): (s: seq<bool>)
    ensures |s| == n && forall i :: 0 <= i < n ==> !s[i]
  {
    if n == 0 then [] else Zeros(n - 1) + [false]
  }

  // ------------------------------------------------------------------------ the cuts

  /** The two children of a padded prefix split what lies under it. */
  lemma Children(q: Path, prefix: Path, depth: nat)
    requires depth < MAX_DEPTH && Padded(prefix, depth)
    ensures var right := prefix[depth := true];
            !prefix[depth] && Padded(prefix, depth + 1) && Padded(right, depth + 1) &&
            (Under(q, prefix, depth + 1) <==> Under(q, prefix, depth) && !q[depth]) &&
            (Under(q, right, depth + 1) <==> Under(q, prefix, depth) && q[depth])
  {
    UnderSplit(q, prefix, depth);
    assert prefix[depth := true] == Flip(prefix, depth);
  }

  lemma ChildrenPadded(prefix: Path, depth: nat)
    requires depth < MAX_DEPTH && Padded(prefix, depth)
    ensures !prefix[depth] && Padded(prefix, depth + 1) && Padded(prefix[depth := true], depth + 1)
  {
    Children(prefix, prefix, depth);
  }

  predicate Covers(c: Cut, q: Path) { c.depth <= MAX_DEPTH && Under(q, c.prefix, c.depth) }

  ghost predicate Covered(cuts: seq<Cut>, q: Path) { exists i :: 0 <= i < |cuts| && Covers(cuts[i], q) }

  ghost predicate AtMostOnce(cuts: seq<Cut>, q: Path) {
    forall i, j {:trigger Covers(cuts[i], q), Covers(cuts[j], q)} ::
      0 <= i < |cuts| && 0 <= j < |cuts| && Covers(cuts[i], q) && Covers(cuts[j], q) ==> i == j
  }

  /** Whether the walk, descending along `path`, meets a chunk before it meets a subtree that
      weighs nothing. */
  ghost predicate Kept(pathOf: Key -> Path, live: Live, budget: int, path: Path, depth: nat)
    requires depth <= MAX_DEPTH
    decreases MAX_DEPTH - depth
  {
    var weight := Weight(pathOf, live, path, depth);
    weight != 0 && (weight <= budget || depth >= MAX_DEPTH || Kept(pathOf, live, budget, path, depth + 1))
  }

  lemma SameWeight(pathOf: Key -> Path, live: Live, a: Path, b: Path, depth: nat)
    requires depth <= MAX_DEPTH && Under(a, b, depth)
    ensures Weight(pathOf, live, a, depth) == Weight(pathOf, live, b, depth)
  {
    assert RowsUnder(pathOf, live, a, depth) == RowsUnder(pathOf, live, b, depth);
  }

  lemma CoveredJoin(ls: seq<Cut>, rs: seq<Cut>, q: Path)
    ensures Covered(ls + rs, q) <==> Covered(ls, q) || Covered(rs, q)
    ensures AtMostOnce(ls, q) && AtMostOnce(rs, q) && !(Covered(ls, q) && Covered(rs, q)) ==> AtMostOnce(ls + rs, q)
  {
    var all := ls + rs;
    forall i | 0 <= i < |ls| && Covers(ls[i], q) ensures Covered(all, q) { assert Covers(all[i], q); }
    forall i | 0 <= i < |rs| && Covers(rs[i], q) ensures Covered(all, q) { assert Covers(all[|ls| + i], q); }
    forall i | 0 <= i < |all| && Covers(all[i], q)
      ensures if i < |ls| then Covers(ls[i], q) else Covers(rs[i - |ls|], q) { }
  }

  /** Along `q` there is at most one cut, and one exactly when the walk keeps `q`. */
  ghost predicate CutRight(pathOf: Key -> Path, live: Live, budget: int, prefix: Path, depth: nat, q: Path,
      cuts: seq<Cut>)
    requires depth <= MAX_DEPTH
  {
    AtMostOnce(cuts, q) && (Covered(cuts, q) <==> Under(q, prefix, depth) && Kept(pathOf, live, budget, q, depth))
  }

  /** Along any path the walk cuts at most once, and cuts exactly the paths it keeps. */
  lemma {:induction false} WalkCovers(pathOf: Key -> Path, live: Live, budget: int, prefix: Path, depth: nat, q: Path)
    requires depth <= MAX_DEPTH && Padded(prefix, depth)
    ensures CutRight(pathOf, live, budget, prefix, depth, q, Walk(pathOf, live, budget, prefix, depth))
    decreases MAX_DEPTH - depth
  {
    var weight := Weight(pathOf, live, prefix, depth);
    if weight == 0 || weight <= budget || depth >= MAX_DEPTH {
      WalkEnds(pathOf, live, budget, prefix, depth, q);
    } else {
      var right := prefix[depth := true];
      ChildrenPadded(prefix, depth);
      WalkCovers(pathOf, live, budget, prefix, depth + 1, q);
      WalkCovers(pathOf, live, budget, right, depth + 1, q);
      WalkSplit(pathOf, live, budget, prefix, depth);
      SidesCover(pathOf, live, budget, prefix, depth, q, Walk(pathOf, live, budget, prefix, depth + 1),
        Walk(pathOf, live, budget, right, depth + 1));
    }
  }

  lemma WalkEnds(pathOf: Key -> Path, live: Live, budget: int, prefix: Path, depth: nat, q: Path)
    requires depth <= MAX_DEPTH
    requires var weight := Weight(pathOf, live, prefix, depth); weight == 0 || weight <= budget || depth >= MAX_DEPTH
    ensures CutRight(pathOf, live, budget, prefix, depth, q, Walk(pathOf, live, budget, prefix, depth))
  {
    if Under(q, prefix, depth) { SameWeight(pathOf, live, q, prefix, depth); }
    var cuts := Walk(pathOf, live, budget, prefix, depth);
    if Weight(pathOf, live, prefix, depth) != 0 {
      assert cuts == [Cut(depth, prefix)];
      assert Covers(cuts[0], q) <==> Under(q, prefix, depth);
    }
  }

  lemma SidesCover(pathOf: Key -> Path, live: Live, budget: int, prefix: Path, depth: nat, q: Path, ls: seq<Cut>,
      rs: seq<Cut>)
    requires depth < MAX_DEPTH && Padded(prefix, depth)
    requires var weight := Weight(pathOf, live, prefix, depth); weight != 0 && weight > budget
    requires CutRight(pathOf, live, budget, prefix, depth + 1, q, ls) &&
             CutRight(pathOf, live, budget, prefix[depth := true], depth + 1, q, rs)
    ensures CutRight(pathOf, live, budget, prefix, depth, q, ls + rs)
  {
    if Under(q, prefix, depth) { SameWeight(pathOf, live, q, prefix, depth); }
    Children(q, prefix, depth);
    CoveredJoin(ls, rs, q);
  }

  lemma WalkSplit(pathOf: Key -> Path, live: Live, budget: int, prefix: Path, depth: nat)
    requires depth < MAX_DEPTH && !prefix[depth]
    requires Weight(pathOf, live, prefix, depth) != 0 && Weight(pathOf, live, prefix, depth) > budget
    ensures Walk(pathOf, live, budget, prefix, depth) ==
            Walk(pathOf, live, budget, prefix, depth + 1) + Walk(pathOf, live, budget, prefix[depth := true], depth + 1)
  {
  }

  /** Every cut is within budget or at full depth, and weighs something. */
  ghost predicate InBudget(pathOf: Key -> Path, live: Live, budget: int, c: Cut) {
    c.depth <= MAX_DEPTH && Weight(pathOf, live, c.prefix, c.depth) > 0 &&
    (Weight(pathOf, live, c.prefix, c.depth) <= budget || c.depth == MAX_DEPTH)
  }

  ghost predicate AllInBudget(pathOf: Key -> Path, live: Live, budget: int, cuts: seq<Cut>) {
    forall i :: 0 <= i < |cuts| ==> InBudget(pathOf, live, budget, cuts[i])
  }

  lemma {:induction false} WalkInBudget(pathOf: Key -> Path, live: Live, budget: int, prefix: Path, depth: nat)
    requires depth <= MAX_DEPTH
    ensures AllInBudget(pathOf, live, budget, Walk(pathOf, live, budget, prefix, depth))
    decreases MAX_DEPTH - depth
  {
    if depth < MAX_DEPTH {
      WalkInBudget(pathOf, live, budget, prefix, depth + 1);
      WalkInBudget(pathOf, live, budget, prefix[depth := true], depth + 1);
    }
  }

  /** A row with a value or a credential is always kept. */
  lemma {:induction false} WeightyIsKept(pathOf: Key -> Path, live: Live, budget: int, k: Key, depth: nat)
    requires depth <= MAX_DEPTH && k in live && RowSize(live[k]) > 0
    ensures Kept(pathOf, live, budget, pathOf(k), depth)
    decreases MAX_DEPTH - depth
  {
    var here := RowsUnder(pathOf, live, pathOf(k), depth);
    Weightless(here);
    assert k in here && RowSize(here[k]) > 0;
    if depth < MAX_DEPTH { WeightyIsKept(pathOf, live, budget, k, depth + 1); }
  }

  // ----------------------------------------------------------------------- the chunks

  ghost function Cuts(pathOf: Key -> Path, live: Live, budget: int): seq<Cut> {
    Walk(pathOf, live, budget, Zeros(MAX_DEPTH), 0)
  }

  ghost function ChunkAt(pathOf: Key -> Path, live: Live, c: Cut): Chunk
    requires NoCollision(pathOf, live.Keys) && c.depth <= MAX_DEPTH
  {
    Chunk(c.depth, c.prefix, HashUnder(RowsOf(pathOf, live), c.prefix, c.depth),
      RowsUnder(pathOf, live, c.prefix, c.depth))
  }

  /** `cs` is what `chunks()` yields, and it yields them all: each subtree could be hashed. */
  ghost predicate IsExport(pathOf: Key -> Path, live: Live, budget: int, cs: seq<Chunk>) {
    NoCollision(pathOf, live.Keys) &&
    var cuts := Cuts(pathOf, live, budget);
    |cs| == |cuts| && forall i :: 0 <= i < |cs| ==> CutTo(pathOf, live, cuts[i], cs[i])
  }

  ghost predicate CutTo(pathOf: Key -> Path, live: Live, cut: Cut, c: Chunk)
    requires NoCollision(pathOf, live.Keys)
  {
    cut.depth <= MAX_DEPTH && FitsUnder(RowsOf(pathOf, live), cut.prefix, cut.depth) && c == ChunkAt(pathOf, live, cut)
  }

  /** All the rows the chunks carry. */
  function Collected(cs: seq<Chunk>): Live {
    if cs == [] then map[] else Collected(cs[..|cs| - 1]) + cs[|cs| - 1].rows
  }

  ghost predicate SubtreesOf(pathOf: Key -> Path, live: Live, cuts: seq<Cut>, cs: seq<Chunk>) {
    |cs| == |cuts| && forall i :: 0 <= i < |cs| ==>
      cuts[i].depth <= MAX_DEPTH && cs[i].rows == RowsUnder(pathOf, live, cuts[i].prefix, cuts[i].depth)
  }

  lemma {:induction false} CollectedIs(pathOf: Key -> Path, live: Live, cuts: seq<Cut>, cs: seq<Chunk>, k: Key)
    requires SubtreesOf(pathOf, live, cuts, cs)
    ensures k in Collected(cs) <==> k in live && Covered(cuts, pathOf(k))
    ensures k in Collected(cs) ==> Collected(cs)[k] == live[k]
    decreases |cs|
  {
    if cs != [] {
      var n := |cs| - 1;
      CollectedIs(pathOf, live, cuts[..n], cs[..n], k);
      assert cuts == cuts[..n] + [cuts[n]];
      CoveredJoin(cuts[..n], [cuts[n]], pathOf(k));
      assert Covered([cuts[n]], pathOf(k)) <==> Covers(cuts[n], pathOf(k)) by { assert [cuts[n]][0] == cuts[n]; }
    }
  }

  ghost predicate NoEmptyRows(live: Live) { forall k :: k in live ==> RowSize(live[k]) > 0 }

  /** A row is exported exactly when it is live and the walk keeps its path. */
  lemma ExportedRow(pathOf: Key -> Path, live: Live, budget: int, cs: seq<Chunk>, k: Key)
    requires IsExport(pathOf, live, budget, cs)
    ensures k in Collected(cs) <==> k in live && Kept(pathOf, live, budget, pathOf(k), 0)
    ensures k in Collected(cs) ==> Collected(cs)[k] == live[k]
    ensures k in live && RowSize(live[k]) > 0 ==> k in Collected(cs)
  {
    var cuts, zero := Cuts(pathOf, live, budget), Zeros(MAX_DEPTH);
    WalkCovers(pathOf, live, budget, zero, 0, pathOf(k));
    assert Under(pathOf(k), zero, 0);
    CollectedIs(pathOf, live, cuts, cs, k);
    if k in live && RowSize(live[k]) > 0 { WeightyIsKept(pathOf, live, budget, k, 0); }
  }

  /** Whatever an export carries could be hashed. */
  lemma ExportedFits(pathOf: Key -> Path, live: Live, budget: int, cs: seq<Chunk>, k: Key)
    requires IsExport(pathOf, live, budget, cs) && k in Collected(cs)
    ensures k in live && RowFits(live[k])
  {
    var cuts := Cuts(pathOf, live, budget);
    CollectedIs(pathOf, live, cuts, cs, k);
    var i :| 0 <= i < |cuts| && Covers(cuts[i], pathOf(k));
    assert CutTo(pathOf, live, cuts[i], cs[i]);
    assert pathOf(k) in RowsOf(pathOf, live) && RowsOf(pathOf, live)[pathOf(k)] == live[k];
  }

  /** `chunks()` raises exactly when some row it would carry does not fit: then there is no export,
      and otherwise there is. */
  lemma ExportExists(pathOf: Key -> Path, live: Live, budget: int)
    requires NoCollision(pathOf, live.Keys)
    ensures (exists cs :: IsExport(pathOf, live, budget, cs)) <==>
            forall k :: k in live && Kept(pathOf, live, budget, pathOf(k), 0) ==> RowFits(live[k])
  {
    if cs :| IsExport(pathOf, live, budget, cs) {
      forall k | k in live && Kept(pathOf, live, budget, pathOf(k), 0) ensures RowFits(live[k]) {
        ExportedRow(pathOf, live, budget, cs, k);
        ExportedFits(pathOf, live, budget, cs, k);
      }
    }
    if forall k :: k in live && Kept(pathOf, live, budget, pathOf(k), 0) ==> RowFits(live[k]) {
      var cuts := Cuts(pathOf, live, budget);
      forall i | 0 <= i < |cuts| ensures CutFits(pathOf, live, cuts[i]) { EveryCutFits(pathOf, live, budget, i); }
      var cs := seq(|cuts|, i requires 0 <= i < |cuts| => ChunkAt(pathOf, live, cuts[i]));
      assert IsExport(pathOf, live, budget, cs);
    }
  }

  ghost predicate CutFits(pathOf: Key -> Path, live: Live, cut: Cut)
    requires NoCollision(pathOf, live.Keys)
  {
    cut.depth <= MAX_DEPTH && FitsUnder(RowsOf(pathOf, live), cut.prefix, cut.depth)
  }

  lemma EveryCutFits(pathOf: Key -> Path, live: Live, budget: int, i: nat)
    requires NoCollision(pathOf, live.Keys) && i < |Cuts(pathOf, live, budget)|
    requires forall k :: k in live && Kept(pathOf, live, budget, pathOf(k), 0) ==> RowFits(live[k])
    ensures CutFits(pathOf, live, Cuts(pathOf, live, budget)[i])
  {
    var cuts, rows, zero := Cuts(pathOf, live, budget), RowsOf(pathOf, live), Zeros(MAX_DEPTH);
    WalkInBudget(pathOf, live, budget, zero, 0);
    assert InBudget(pathOf, live, budget, cuts[i]);
    forall q | q in rows && Under(q, cuts[i].prefix, cuts[i].depth) ensures RowFits(rows[q]) {
      var k :| k in live && pathOf(k) == q;
      WalkCovers(pathOf, live, budget, zero, 0, q);
      assert Under(q, zero, 0) && Covers(cuts[i], q);
    }
  }

  /** Export partitions the live rows: each chunk holds all the rows of its subtree, within budget
      or at full depth; no row is in two chunks; the rows in none weigh nothing. */
  lemma ExportPartitions(pathOf: Key -> Path, live: Live, budget: int, cs: seq<Chunk>, k: Key)
    requires IsExport(pathOf, live, budget, cs)
    ensures k in Collected(cs) <==> k in live && Kept(pathOf, live, budget, pathOf(k), 0)
    ensures k in Collected(cs) ==> Collected(cs)[k] == live[k]
    ensures k in live && RowSize(live[k]) > 0 ==> k in Collected(cs)
    ensures forall i, j :: 0 <= i < j < |cs| ==> !(k in cs[i].rows && k in cs[j].rows)
    ensures forall i :: 0 <= i < |cs| ==>
              cs[i].depth <= MAX_DEPTH && (Size(cs[i].rows) <= budget || cs[i].depth == MAX_DEPTH)
  {
    var cuts, zero := Cuts(pathOf, live, budget), Zeros(MAX_DEPTH);
    ExportedRow(pathOf, live, budget, cs, k);
    WalkCovers(pathOf, live, budget, zero, 0, pathOf(k));
    WalkInBudget(pathOf, live, budget, zero, 0);
    forall i | 0 <= i < |cs|
      ensures cs[i].depth <= MAX_DEPTH && (Size(cs[i].rows) <= budget || cs[i].depth == MAX_DEPTH) {
      assert InBudget(pathOf, live, budget, cuts[i]);
    }
    forall i, j | 0 <= i < j < |cs| ensures !(k in cs[i].rows && k in cs[j].rows) {
      assert k in cs[i].rows ==> Covers(cuts[i], pathOf(k));
      assert k in cs[j].rows ==> Covers(cuts[j], pathOf(k));
    }
  }

  /** At full depth a chunk is a single row. */
  lemma DeepestIsSingle(pathOf: Key -> Path, live: Live, budget: int, cs: seq<Chunk>, i: nat, j: Key, k: Key)
    requires IsExport(pathOf, live, budget, cs) && i < |cs| && cs[i].depth == MAX_DEPTH && j in cs[i].rows &&
             k in cs[i].rows
    ensures j == k
  {
    assert pathOf(j)[..MAX_DEPTH] == pathOf(j) && pathOf(k)[..MAX_DEPTH] == pathOf(k);
  }

  /** A single row with neither value nor credential is not exported at all. */
  lemma EmptyRowIsLost(pathOf: Key -> Path, k: Key, epoch: int, budget: int)
    ensures IsExport(pathOf, map[k := Held([], epoch, [])], budget, [])
  {
    Weightless(RowsUnder(pathOf, map[k := Held([], epoch, [])], Zeros(MAX_DEPTH), 0));
  }

  /** A cut at or below `depth`, with too much around it unless it is right there. */
  ghost predicate CoarseFrom(pathOf: Key -> Path, live: Live, budget: int, prefix: Path, depth: nat, c: Cut) {
    depth <= c.depth <= MAX_DEPTH && Under(c.prefix, prefix, depth) &&
    (c.depth > depth ==> Weight(pathOf, live, c.prefix, c.depth - 1) > budget)
  }

  ghost predicate AllCoarse(pathOf: Key -> Path, live: Live, budget: int, prefix: Path, depth: nat, cuts: seq<Cut>) {
    forall i :: 0 <= i < |cuts| ==> CoarseFrom(pathOf, live, budget, prefix, depth, cuts[i])
  }

  lemma CoarseAbove(pathOf: Key -> Path, live: Live, budget: int, prefix: Path, side: Path, depth: nat, cuts: seq<Cut>)
    requires depth < MAX_DEPTH && AllCoarse(pathOf, live, budget, side, depth + 1, cuts)
    requires side[..depth] == prefix[..depth] && Weight(pathOf, live, prefix, depth) > budget
    ensures AllCoarse(pathOf, live, budget, prefix, depth, cuts)
  {
    forall i | 0 <= i < |cuts| ensures CoarseFrom(pathOf, live, budget, prefix, depth, cuts[i]) {
      var c := cuts[i];
      assert CoarseFrom(pathOf, live, budget, side, depth + 1, c);
      UnderParent(c.prefix, side, prefix, depth);
      SameWeight(pathOf, live, c.prefix, prefix, depth);
    }
  }

  lemma {:induction false} WalkIsCoarse(pathOf: Key -> Path, live: Live, budget: int, prefix: Path, depth: nat)
    requires depth <= MAX_DEPTH
    ensures AllCoarse(pathOf, live, budget, prefix, depth, Walk(pathOf, live, budget, prefix, depth))
    decreases MAX_DEPTH - depth
  {
    if Weight(pathOf, live, prefix, depth) > budget && depth < MAX_DEPTH {
      WalkIsCoarse(pathOf, live, budget, prefix, depth + 1);
      WalkIsCoarse(pathOf, live, budget, prefix[depth := true], depth + 1);
      CoarseAbove(pathOf, live, budget, prefix, prefix, depth, Walk(pathOf, live, budget, prefix, depth + 1));
      CoarseAbove(pathOf, live, budget, prefix, prefix[depth := true], depth,
        Walk(pathOf, live, budget, prefix[depth := true], depth + 1));
    }
  }

  lemma UnderParent(q: Path, side: Path, prefix: Path, depth: nat)
    requires depth < MAX_DEPTH && Under(q, side, depth + 1) && side[..depth] == prefix[..depth]
    ensures Under(q, prefix, depth)
  {
    assert q[..depth] == q[..depth + 1][..depth] && side[..depth] == side[..depth + 1][..depth];
  }

  /** Chunks are as large as the budget lets them be: the subtree around each is over it. */
  lemma ExportIsCoarse(pathOf: Key -> Path, live: Live, budget: int, cs: seq<Chunk>, i: nat)
    requires IsExport(pathOf, live, budget, cs) && i < |cs|
    ensures cs[i].depth <= MAX_DEPTH
    ensures cs[i].depth > 0 ==> Size(RowsUnder(pathOf, live, cs[i].prefix, cs[i].depth - 1)) > budget
  {
    var cut := Cuts(pathOf, live, budget)[i];
    WalkIsCoarse(pathOf, live, budget, Zeros(MAX_DEPTH), 0);
    assert CoarseFrom(pathOf, live, budget, Zeros(MAX_DEPTH), 0, cut) && CutTo(pathOf, live, cut, cs[i]);
  }

  // --------------------------------------------------------------- stores filled by commits

  /** Every row carries the bytes of the transaction that wrote it. */
  ghost predicate Credited(live: Live) { forall k :: k in live ==> live[k].cred != [] }

  lemma {:induction false} ApplyAllCredited(live: Live, ms: seq<Mutation>, cred: Bytes)
    requires Credited(live) && cred != []
    ensures Credited(ApplyAll(live, ms, cred))
    decreases |ms|
  {
    if ms != [] { ApplyAllCredited(ApplyOne(live, ms[0], cred), ms[1..], cred); }
  }

  lemma {:induction false} ScreenCredited(env: Env, live: Live, seen: set<Bytes>, batch: seq<Signed>)
    requires Credited(live) && (forall tx :: env.raw(tx) != []) && Screen(env, live, seen, batch).Screened?
    ensures Credited(Screen(env, live, seen, batch).live)
    decreases |batch|
  {
    if batch != [] {
      var tx, hash := batch[0], OpHash(env, batch[0]);
      if hash !in seen && Evaluate(env, live, tx).Pass? {
        var ms := Evaluate(env, live, tx).mutations;
        ApplyAllCredited(live, ms, env.raw(tx));
        ScreenCredited(env, ApplyAll(live, ms, env.raw(tx)), seen + {hash}, batch[1..]);
      } else {
        ScreenCredited(env, live, seen, batch[1..]);
      }
    }
  }

  /** No run of commits writes a row without a credential. */
  lemma {:induction false} RunIsCredited(env: Env, elem: Element, logElem: G.LogElement, ops: seq<G.Op>)
    requires forall tx :: env.raw(tx) != []
    ensures Credited(G.Run(env, elem, logElem, ops).0.live)
    decreases |ops|
  {
    if ops != [] {
      var (s, bn) := G.Run(env, elem, logElem, ops[..|ops| - 1]);
      var op := ops[|ops| - 1];
      RunIsCredited(env, elem, logElem, ops[..|ops| - 1]);
      if G.CommitBlock(env, elem, logElem, s, bn + 1, op.hash, op.batch).Committed? {
        G.CommitExtends(env, elem, logElem, s, bn + 1, op.hash, op.batch);
        ScreenCredited(env, s.live, G.SettledHashes(s.entries), op.batch);
      }
    }
  }

  /** And every row a run of commits leaves is one the database took. */
  lemma {:induction false} RunBinds(env: Env, elem: Element, logElem: G.LogElement, ops: seq<G.Op>)
    ensures RowsBind(G.Run(env, elem, logElem, ops).0.live)
    decreases |ops|
  {
    if ops != [] {
      var (s, bn) := G.Run(env, elem, logElem, ops[..|ops| - 1]);
      var op := ops[|ops| - 1];
      RunBinds(env, elem, logElem, ops[..|ops| - 1]);
      if G.CommitBlock(env, elem, logElem, s, bn + 1, op.hash, op.batch).Committed? {
        G.CommitExtends(env, elem, logElem, s, bn + 1, op.hash, op.batch);
        ScreenBinds(env, s.live, G.SettledHashes(s.entries), op.batch);
      }
    }
  }

  lemma {:induction false} ApplyAllBinds(live: Live, ms: seq<Mutation>, cred: Bytes)
    requires RowsBind(live) && forall i :: 0 <= i < |ms| ==> G.WriteBinds(ms[i])
    ensures RowsBind(ApplyAll(live, ms, cred))
    decreases |ms|
  {
    if ms != [] {
      assert G.WriteBinds(ms[0]);
      ApplyAllBinds(ApplyOne(live, ms[0], cred), ms[1..], cred);
    }
  }

  lemma {:induction false} ScreenBinds(env: Env, live: Live, seen: set<Bytes>, batch: seq<Signed>)
    requires RowsBind(live) && Screen(env, live, seen, batch).Screened? && G.KeptBind(env, live, seen, batch)
    ensures RowsBind(Screen(env, live, seen, batch).live)
    decreases |batch|
  {
    if batch != [] {
      var tx, hash := batch[0], OpHash(env, batch[0]);
      if hash !in seen && Evaluate(env, live, tx).Pass? {
        var ms := Evaluate(env, live, tx).mutations;
        ApplyAllBinds(live, ms, env.raw(tx));
        ScreenBinds(env, ApplyAll(live, ms, env.raw(tx)), seen + {hash}, batch[1..]);
      } else {
        ScreenBinds(env, live, seen, batch[1..]);
      }
    }
  }

  /** So the export of a store filled by commits is complete and rebuilds it, for any budget. */
  lemma CommittedRoundTrip(env: Env, elem: Element, logElem: G.LogElement, ops: seq<G.Op>,
                           pathOf: Key -> Path, budget: int, cs: seq<Chunk>)
    requires (forall tx :: env.raw(tx) != []) && IsExport(pathOf, G.Run(env, elem, logElem, ops).0.live, budget, cs)
    ensures Collected(cs) == G.Run(env, elem, logElem, ops).0.live
  {
    var live := G.Run(env, elem, logElem, ops).0.live;
    RunIsCredited(env, elem, logElem, ops);
    CreditedWeigh(live);
    RoundTrip(pathOf, live, budget, cs);
  }

  lemma CreditedWeigh(live: Live)
    requires Credited(live)
    ensures NoEmptyRows(live)
  {
  }

  /** The row `EmptyRowIsLost` loses is one only `insert_live_row` can write: no run of commits
      reaches a store that has it. */
  lemma EmptyRowIsImported(env: Env, elem: Element, logElem: G.LogElement, ops: seq<G.Op>, k: Key, epoch: int)
    requires forall tx :: env.raw(tx) != []
    ensures var live := G.Run(env, elem, logElem, ops).0.live; !(k in live && live[k] == Held([], epoch, []))
  {
    RunIsCredited(env, elem, logElem, ops);
  }

  // -------------------------------------------------------------------------- import

  /** The check `load` makes after inserting the rows of a chunk. */
  ghost predicate LoadPasses(pathOf: Key -> Path, target: Live, c: Chunk) {
    c.depth <= MAX_DEPTH && NoCollision(pathOf, target.Keys) &&
    HashResult(RowsOf(pathOf, target), c.prefix, c.depth) == Some(c.hash)
  }

  /** A store that holds only exported rows, and all those of the chunk's subtree, hashes to it. */
  lemma SubtreeAgrees(pathOf: Key -> Path, live: Live, target: Live, cut: Cut)
    requires NoCollision(pathOf, live.Keys) && cut.depth <= MAX_DEPTH
    requires FitsUnder(RowsOf(pathOf, live), cut.prefix, cut.depth)
    requires forall k :: k in target ==> k in live && target[k] == live[k]
    requires forall k :: k in live && Under(pathOf(k), cut.prefix, cut.depth) ==> k in target
    ensures LoadPasses(pathOf, target, ChunkAt(pathOf, live, cut))
  {
    assert forall k :: k in target.Keys ==> k in live.Keys;
    var r, s := RowsOf(pathOf, target), RowsOf(pathOf, live);
    forall q | Under(q, cut.prefix, cut.depth) ensures (q in r <==> q in s) && (q in r ==> r[q] == s[q]) {
      if k :| k in live && pathOf(k) == q { assert k in target; }
    }
    HashLocal(r, s, cut.prefix, cut.depth);
  }

  /** Importing an export into an empty store passes the check of every chunk. */
  lemma EveryChunkLoads(pathOf: Key -> Path, live: Live, budget: int, cs: seq<Chunk>, i: nat)
    requires IsExport(pathOf, live, budget, cs) && i < |cs|
    ensures LoadPasses(pathOf, Collected(cs[..i + 1]), cs[i])
  {
    var cuts := Cuts(pathOf, live, budget);
    var target := Collected(cs[..i + 1]);
    assert cuts[..i + 1][i] == cuts[i];
    forall k ensures k in target <==> k in live && Covered(cuts[..i + 1], pathOf(k))
             ensures k in target ==> target[k] == live[k]
    {
      CollectedIs(pathOf, live, cuts[..i + 1], cs[..i + 1], k);
    }
    forall k | k in live && Under(pathOf(k), cuts[i].prefix, cuts[i].depth) ensures k in target {
      assert Covers(cuts[..i + 1][i], pathOf(k));
    }
    SubtreeAgrees(pathOf, live, target, cuts[i]);
  }

  /** The keys whose rows the walk keeps. */
  ghost function KeptKeys(pathOf: Key -> Path, live: Live, budget: int): set<Key> {
    set k | k in live && Kept(pathOf, live, budget, pathOf(k), 0)
  }

  /** The final check passes exactly when the walk kept every row, which it does when none is
      without both value and credential; then the rows are the exported ones. */
  lemma RoundTrip(pathOf: Key -> Path, live: Live, budget: int, cs: seq<Chunk>)
    requires IsExport(pathOf, live, budget, cs)
    ensures var got := Collected(cs);
            NoCollision(pathOf, got.Keys) && got.Keys == KeptKeys(pathOf, live, budget) &&
            (Root(RowsOf(pathOf, got)) == Root(RowsOf(pathOf, live)) <==> got == live) &&
            (got == live <==> KeptKeys(pathOf, live, budget) == live.Keys) && (NoEmptyRows(live) ==> got == live)
  {
    var got := Collected(cs);
    GotKeys(pathOf, live, budget, cs);
    GotRows(pathOf, live, budget, cs);
    RootsDecide(pathOf, live, got);
    SameKeys(live, got);
  }

  lemma GotKeys(pathOf: Key -> Path, live: Live, budget: int, cs: seq<Chunk>)
    requires IsExport(pathOf, live, budget, cs)
    ensures Collected(cs).Keys == KeptKeys(pathOf, live, budget)
  {
    forall k ensures k in Collected(cs) <==> k in KeptKeys(pathOf, live, budget) {
      ExportedRow(pathOf, live, budget, cs, k);
    }
  }

  lemma GotRows(pathOf: Key -> Path, live: Live, budget: int, cs: seq<Chunk>)
    requires IsExport(pathOf, live, budget, cs)
    ensures forall k :: k in Collected(cs) ==> k in live && Collected(cs)[k] == live[k]
    ensures NoEmptyRows(live) ==> forall k :: k in live ==> k in Collected(cs)
  {
    forall k
      ensures k in Collected(cs) ==> k in live && Collected(cs)[k] == live[k]
      ensures k in live && RowSize(live[k]) > 0 ==> k in Collected(cs)
    {
      ExportedRow(pathOf, live, budget, cs, k);
    }
  }

  lemma SameKeys(live: Live, got: Live)
    requires forall k :: k in got ==> k in live && got[k] == live[k]
    ensures got == live <==> forall k :: k in live ==> k in got
    ensures got == live <==> got.Keys == live.Keys
  {
  }

  lemma RootsDecide(pathOf: Key -> Path, live: Live, got: Live)
    requires NoCollision(pathOf, live.Keys) && forall k :: k in got ==> k in live
    ensures NoCollision(pathOf, got.Keys) && (Root(RowsOf(pathOf, got)) == Root(RowsOf(pathOf, live)) <==> got == live)
  {
    assert got.Keys <= live.Keys;
    if Root(RowsOf(pathOf, got)) == Root(RowsOf(pathOf, live)) { SameRootWithin(pathOf, live.Keys, got, live); }
  }

  /** Equal roots mean equal maps, whoever sent the rows. */
  lemma SameRootSameRows(pathOf: Key -> Path, a: Live, b: Live)
    requires NoCollision(pathOf, a.Keys + b.Keys)
    requires NoCollision(pathOf, a.Keys) && NoCollision(pathOf, b.Keys) &&
             Root(RowsOf(pathOf, a)) == Root(RowsOf(pathOf, b))
    ensures a == b
  {
    var r, s := RowsOf(pathOf, a), RowsOf(pathOf, b);
    RootInjective(r, s);
    forall k ensures (k in a <==> k in b) && (k in a ==> a[k] == b[k]) {
      if k in a {
        assert pathOf(k) in s;
        var j :| j in b && pathOf(j) == pathOf(k);
        assert r[pathOf(k)] == a[k] && s[pathOf(j)] == b[j];
      }
      if k in b {
        assert pathOf(k) in r;
        var j :| j in a && pathOf(j) == pathOf(k);
      }
    }
  }

  /** The database takes the epoch of every row. */
  ghost predicate RowsBind(rows: Live) { forall k :: k in rows ==> G.Binds(rows[k].epoch) }

  /** `TreeImporter.load`; `ok` is false where it raises. */
  method Load(store: S.Store, c: Chunk) returns (ok: bool)
    requires store.Valid() && c.depth <= MAX_DEPTH && c.rows.Keys <= store.universe
    modifies store`live, store.tree
    ensures store.Valid() && (RowsBind(c.rows) ==> store.live == old(store.live) + c.rows)
    ensures ok <==> RowsBind(c.rows) && LoadPasses(store.pathOf, store.live, c)
  {
    ok := InsertAll(store, c.rows);
    if !ok { return; }
    var computed := store.tree.HashOf(c.prefix, c.depth);
    ok := computed == Some(c.hash);
  }

  method InsertAll(store: S.Store, rows: Live) returns (ok: bool)
    requires store.Valid() && rows.Keys <= store.universe
    modifies store`live, store.tree
    ensures store.Valid() && (ok <==> RowsBind(rows))
    ensures ok ==> store.live == old(store.live) + rows
  {
    var todo := rows.Keys;
    ghost var before := store.live;
    Inserting(before, rows);
    while todo != {}
      invariant store.Valid() && todo <= rows.Keys && Inserted(before, rows, todo, store.live)
      invariant forall k :: k in rows && k !in todo ==> G.Binds(rows[k].epoch)
      decreases |todo|
    {
      var k :| k in todo;
      InsertStep(before, rows, todo, k, store.live);
      ok := store.InsertLiveRow(k, rows[k]);
      if !ok { return; }
      todo := todo - {k};
    }
    AllInserted(before, rows, store.live);
    ok := true;
  }

  /** All of `rows` but those still to do are in, over `before`. */
  ghost predicate Inserted(before: Live, rows: Live, todo: set<Key>, live: Live) { live == before + (rows - todo) }

  lemma Inserting(before: Live, rows: Live)
    ensures Inserted(before, rows, rows.Keys, before)
  {
  }

  lemma InsertStep(before: Live, rows: Live, todo: set<Key>, k: Key, live: Live)
    requires k in todo && k in rows && Inserted(before, rows, todo, live)
    ensures Inserted(before, rows, todo - {k}, live[k := rows[k]])
  {
  }

  lemma AllInserted(before: Live, rows: Live, live: Live)
    requires Inserted(before, rows, {}, live)
    ensures live == before + rows
  {
    assert rows - {} == rows;
  }

  /** A whole import into an empty store, and the final `verify`. Whatever chunks arrive, passing
      means the rows are the ones the expected root stands for; and an export passes if each of its
      rows has a value or a credential and came from a database. */
  method Import(store: S.Store, cs: seq<Chunk>, expectedRoot: Digest, ghost live: Live, ghost budget: int)
      returns (ok: bool)
    requires store.Valid() && store.live == map[]
    requires forall i :: 0 <= i < |cs| ==> cs[i].depth <= MAX_DEPTH && cs[i].rows.Keys <= store.universe
    modifies store`live, store.tree
    ensures store.Valid()
    ensures ok && IsRootOf(store.pathOf, store.universe, live, expectedRoot) ==> store.live == live
    ensures IsExport(store.pathOf, live, budget, cs) && NoEmptyRows(live) && RowsBind(live) &&
            expectedRoot == Root(RowsOf(store.pathOf, live)) ==>
              ok && store.live == live
  {
    ok := LoadAll(store, cs, live, budget);
    if !ok { return; }
    Rebuilt(store.pathOf, live, budget, cs);
    ok := VerifyRoot(store, expectedRoot, live);
  }

  lemma Rebuilt(pathOf: Key -> Path, live: Live, budget: int, cs: seq<Chunk>)
    ensures IsExport(pathOf, live, budget, cs) && NoEmptyRows(live) ==> Collected(cs) == live && Fits(live)
  {
    if IsExport(pathOf, live, budget, cs) {
      RoundTrip(pathOf, live, budget, cs);
      forall k | k in Collected(cs) ensures RowFits(live[k]) { ExportedFits(pathOf, live, budget, cs, k); }
    }
  }

  method LoadAll(store: S.Store, cs: seq<Chunk>, ghost live: Live, ghost budget: int) returns (passed: bool)
    requires store.Valid() && store.live == map[]
    requires forall i :: 0 <= i < |cs| ==> cs[i].depth <= MAX_DEPTH && cs[i].rows.Keys <= store.universe
    modifies store`live, store.tree
    ensures store.Valid()
    ensures passed ==> store.live == Collected(cs)
    ensures IsExport(store.pathOf, live, budget, cs) && RowsBind(live) ==> passed
  {
    ghost var sound := IsExport(store.pathOf, live, budget, cs) && RowsBind(live);
    for i := 0 to |cs|
      invariant store.Valid() && store.live == Collected(cs[..i])
    {
      assert cs[..i + 1][..i] == cs[..i];
      if sound {
        EveryChunkLoads(store.pathOf, live, budget, cs, i);
        ChunkBinds(store.pathOf, live, budget, cs, i);
      }
      passed := Load(store, cs[i]);
      if !passed { return; }
    }
    assert cs[..|cs|] == cs;
    passed := true;
  }

  lemma ChunkBinds(pathOf: Key -> Path, live: Live, budget: int, cs: seq<Chunk>, i: nat)
    requires IsExport(pathOf, live, budget, cs) && RowsBind(live) && i < |cs|
    ensures RowsBind(cs[i].rows)
  {
    assert CutTo(pathOf, live, Cuts(pathOf, live, budget)[i], cs[i]);
  }

  /** `TreeImporter.verify`. */
  method VerifyRoot(store: S.Store, expectedRoot: Digest, ghost live: Live) returns (ok: bool)
    requires store.Valid()
    modifies store.tree`memo
    ensures store.Valid() && ok == (RootResult(store.pathOf, store.live) == Some(expectedRoot))
    ensures ok && IsRootOf(store.pathOf, store.universe, live, expectedRoot) ==> store.live == live
  {
    var root := store.StateRoot();
    ok := root == Some(expectedRoot);
    if ok && IsRootOf(store.pathOf, store.universe, live, expectedRoot) {
      SameRootWithin(store.pathOf, store.universe, store.live, live);
    }
  }

  ghost predicate IsRootOf(pathOf: Key -> Path, universe: set<Key>, live: Live, root: Digest) {
    live.Keys <= universe && NoCollision(pathOf, live.Keys) && Root(RowsOf(pathOf, live)) == root
  }

  lemma SameRootWithin(pathOf: Key -> Path, universe: set<Key>, a: Live, b: Live)
    requires NoCollision(pathOf, universe) && a.Keys <= universe && b.Keys <= universe
    requires NoCollision(pathOf, a.Keys) && NoCollision(pathOf, b.Keys) &&
             Root(RowsOf(pathOf, a)) == Root(RowsOf(pathOf, b))
    ensures a == b
  {
    assert forall k :: k in a.Keys + b.Keys ==> k in universe;
    SameRootSameRows(pathOf, a, b);
  }
}
