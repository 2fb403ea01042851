/** The root and accumulator a `Layer` of dude/store/layer.py predicts, and that they are the
    root and accumulator of the rows it shows.

    `pathOf` is the path of a key; no two keys in play share one (the schema's unique index).
    Accumulators are integers and `elem` gives each row's element: an identity of sums that holds
    for every integer-valued `elem` holds in every abelian group. */
module LayerRoot {
  import opened Bytes
  import opened Ops
  import opened Views
  import opened Smt

  ghost predicate NoCollision(pathOf: Key -> Path, keys: set<Key>) {
    forall j, k :: j in keys && k in keys && pathOf(j) == pathOf(k) ==> j == k
  }

  /** The live rows by path. */
  function RowsOf(pathOf: Key -> Path, live: Live): Rows
    requires NoCollision(pathOf, live.Keys)
  {
    map k | k in live :: pathOf(k) := live[k]
  }

  lemma RowsLookup(pathOf: Key -> Path, live: Live, k: Key)
    requires NoCollision(pathOf, live.Keys + {k})
    ensures NoCollision(pathOf, live.Keys)
    ensures pathOf(k) in RowsOf(pathOf, live) <==> k in live
    ensures k in live ==> RowsOf(pathOf, live)[pathOf(k)] == live[k]
  {
    assert forall j :: j in live ==> j in live.Keys + {k};
  }

  /** Every row can be hashed. */
  ghost predicate Fits(live: Live) { forall k :: k in live ==> RowFits(live[k]) }

  lemma FitsByPath(pathOf: Key -> Path, live: Live)
    requires NoCollision(pathOf, live.Keys)
    ensures FitsUnder(RowsOf(pathOf, live), Top(), 0) <==> Fits(live)
  {
    var rows := RowsOf(pathOf, live);
    forall k | k in live ensures pathOf(k) in rows && rows[pathOf(k)] == live[k] && Under(pathOf(k), Top(), 0) { }
  }

  /** What `state_root` of rows gives: `None` where it raises. */
  ghost function RootResult(pathOf: Key -> Path, live: Live): Option<Digest>
    requires NoCollision(pathOf, live.Keys)
  {
    if Fits(live) then Some(Root(RowsOf(pathOf, live))) else None
  }

  lemma RootIs(pathOf: Key -> Path, live: Live, rows: Rows)
    requires NoCollision(pathOf, live.Keys) && rows == RowsOf(pathOf, live)
    ensures HashResult(rows, Top(), 0) == RootResult(pathOf, live)
  {
    FitsByPath(pathOf, live);
  }

  // --------------------------------------------------------------------- stacked views

  /** A store, or a delta over a frozen view. */
  datatype View = Stored(live: Live) | Over(base: View, delta: Delta)

  function Contents(v: View): Live {
    match v
    case Stored(live) => live
    case Over(base, delta) => Patch(Contents(base), delta)
  }

  /** Every key the stack knows of. */
  function KeysOf(v: View): set<Key> {
    match v
    case Stored(live) => live.Keys
    case Over(base, delta) => KeysOf(base) + delta.Keys
  }

  lemma {:induction false} ContentsKeys(v: View)
    ensures Contents(v).Keys <= KeysOf(v)
  {
    if v.Over? { ContentsKeys(v.base); }
  }

  ghost predicate Touches(pathOf: Key -> Path, delta: Delta, prefix: Path, depth: nat)
    requires depth <= MAX_DEPTH
  {
    exists k :: k in delta && Under(pathOf(k), prefix, depth)
  }

  /** `_effective_leaves`: the base's rows in the range whose path the delta does not name, and the
      delta's own. */
  ghost function EffectiveRows(pathOf: Key -> Path, base: Live, delta: Delta, prefix: Path, depth: nat): Rows
    requires depth <= MAX_DEPTH && NoCollision(pathOf, base.Keys + delta.Keys)
  {
    var named := set k | k in delta && Under(pathOf(k), prefix, depth) :: pathOf(k);
    (map k | k in base && Under(pathOf(k), prefix, depth) && pathOf(k) !in named :: pathOf(k) := base[k]) +
    (map k | k in delta && delta[k].Some? && Under(pathOf(k), prefix, depth) :: pathOf(k) := delta[k].value)
  }

  /** `bounds(prefix, depth + 1)[0]` and `bounds(with_bit(prefix, depth, 1), depth + 1)[0]`. */
  function LeftOf(prefix: Path, depth: nat): Path
    requires depth < MAX_DEPTH
  {
    Lo(prefix, depth + 1)
  }

  function RightOf(prefix: Path, depth: nat): Path
    requires depth < MAX_DEPTH
  {
    Lo(prefix[depth := true], depth + 1)
  }

  /** `hash_under` on a stack: an untouched range is the base's business; otherwise the effective
      leaves decide, and a branch descends on both sides. */
  ghost function LayerHash(pathOf: Key -> Path, v: View, prefix: Path, depth: nat): Digest
    requires depth <= MAX_DEPTH && NoCollision(pathOf, KeysOf(v))
    decreases v, MAX_DEPTH - depth
  {
    match v
    case Stored(live) => HashUnder(RowsOf(pathOf, live), prefix, depth)
    case Over(base, delta) =>
      if !Touches(pathOf, delta, prefix, depth) then LayerHash(pathOf, base, prefix, depth)
      else
        ContentsKeys(base);
        var rows := EffectiveRows(pathOf, Contents(base), delta, prefix, depth);
        if NoneUnder(rows, prefix, depth) then Empty
        else if AtMostOne(rows, prefix, depth) then
          var q :| q in rows && Under(q, prefix, depth);
          LeafOf(q, rows[q])
        else
          assert depth < MAX_DEPTH by { FullDepth(rows, prefix); }
          Branch(depth, Lo(prefix, depth),
                 LayerHash(pathOf, v, LeftOf(prefix, depth), depth + 1),
                 LayerHash(pathOf, v, RightOf(prefix, depth), depth + 1))
  }

  /** `hash_under` on a stack does not raise: `_effective_leaves` hashes every effective row of a
      touched range, and then the two sides are asked. */
  ghost predicate LayerFits(pathOf: Key -> Path, v: View, prefix: Path, depth: nat)
    requires depth <= MAX_DEPTH && NoCollision(pathOf, KeysOf(v))
    decreases v, MAX_DEPTH - depth
  {
    match v
    case Stored(live) => FitsUnder(RowsOf(pathOf, live), prefix, depth)
    case Over(base, delta) =>
      if !Touches(pathOf, delta, prefix, depth) then LayerFits(pathOf, base, prefix, depth)
      else
        ContentsKeys(base);
        var rows := EffectiveRows(pathOf, Contents(base), delta, prefix, depth);
        FitsUnder(rows, prefix, depth) &&
        (depth < MAX_DEPTH && !AtMostOne(rows, prefix, depth) ==>
           LayerFits(pathOf, v, LeftOf(prefix, depth), depth + 1) &&
           LayerFits(pathOf, v, RightOf(prefix, depth), depth + 1))
  }

  /** Within a range the effective rows are the rows of the merged view. */
  lemma EffectiveIsMerged(pathOf: Key -> Path, base: Live, delta: Delta, prefix: Path, depth: nat)
    requires depth <= MAX_DEPTH && NoCollision(pathOf, base.Keys + delta.Keys)
    ensures NoCollision(pathOf, Patch(base, delta).Keys)
    ensures Agree(EffectiveRows(pathOf, base, delta, prefix, depth), RowsOf(pathOf, Patch(base, delta)), prefix, depth)
  {
    var merged := Patch(base, delta);
    assert merged.Keys <= base.Keys + delta.Keys;
    var eff, rows := EffectiveRows(pathOf, base, delta, prefix, depth), RowsOf(pathOf, merged);
    forall q | Under(q, prefix, depth)
      ensures (q in eff <==> q in rows) && (q in eff ==> eff[q] == rows[q])
    {
      if k :| k in base.Keys + delta.Keys && pathOf(k) == q {
        EffectiveAt(pathOf, base, delta, prefix, depth, k);
      }
    }
  }

  lemma EffectiveAt(pathOf: Key -> Path, base: Live, delta: Delta, prefix: Path, depth: nat, k: Key)
    requires depth <= MAX_DEPTH && NoCollision(pathOf, base.Keys + delta.Keys)
    requires k in base.Keys + delta.Keys && Under(pathOf(k), prefix, depth)
    ensures NoCollision(pathOf, Patch(base, delta).Keys)
    ensures Smt.Get(EffectiveRows(pathOf, base, delta, prefix, depth), pathOf(k)) == Lookup(Patch(base, delta), k)
    ensures Smt.Get(RowsOf(pathOf, Patch(base, delta)), pathOf(k)) == Lookup(Patch(base, delta), k)
  {
    assert Patch(base, delta).Keys <= base.Keys + delta.Keys;
    EffectiveRow(pathOf, base, delta, prefix, depth, k);
    assert Patch(base, delta).Keys + {k} <= base.Keys + delta.Keys;
    RowsLookup(pathOf, Patch(base, delta), k);
  }

  lemma EffectiveRow(pathOf: Key -> Path, base: Live, delta: Delta, prefix: Path, depth: nat, k: Key)
    requires depth <= MAX_DEPTH && NoCollision(pathOf, base.Keys + delta.Keys)
    requires k in base.Keys + delta.Keys && Under(pathOf(k), prefix, depth)
    ensures Smt.Get(EffectiveRows(pathOf, base, delta, prefix, depth), pathOf(k)) == Lookup(Patch(base, delta), k)
  {
    var named := set j | j in delta && Under(pathOf(j), prefix, depth) :: pathOf(j);
    assert pathOf(k) in named <==> k in delta;
    var q, rows := pathOf(k), EffectiveRows(pathOf, base, delta, prefix, depth);
    if k in delta {
      assert q in rows <==> delta[k].Some?;
    } else {
      assert q in rows && rows[q] == base[k];
    }
  }

  /** The sub-calls of a branch on a zero-padded prefix are its two children. */
  lemma PaddedChildren(prefix: Path, depth: nat)
    requires depth < MAX_DEPTH
    ensures RightOf(prefix, depth) == Child(prefix, depth, true)
    ensures !prefix[depth] ==> LeftOf(prefix, depth) == Child(prefix, depth, false)
    ensures prefix[depth] ==> LeftOf(prefix, depth) == Child(prefix, depth, true)
  {
    assert prefix[..depth + 1] == prefix[..depth] + [prefix[depth]];
    assert prefix[depth := true][..depth + 1] == prefix[..depth] + [true];
  }

  lemma ChildPadded(prefix: Path, depth: nat, b: bool)
    requires depth < MAX_DEPTH
    ensures Lo(Child(prefix, depth, b), depth + 1) == Child(prefix, depth, b)
  {
    assert Child(prefix, depth, b)[..depth + 1] == prefix[..depth] + [b];
  }

  /** The bits past `depth` are zero, as they are all along a walk. */
  ghost predicate Padded(prefix: Path, depth: nat)
    requires depth <= MAX_DEPTH
  {
    prefix == Lo(prefix, depth)
  }

  lemma TopPadded()
    ensures Padded(Top(), 0)
  {
    assert Lo(Top(), 0) == Top();
  }

  /** Any stack of frozen layers, asked at a zero-padded prefix, answers with the hash of the rows
      it shows. */
  lemma {:induction false} LayerHashIsTreeHash(pathOf: Key -> Path, v: View, prefix: Path, depth: nat)
    requires depth <= MAX_DEPTH && NoCollision(pathOf, KeysOf(v)) && Padded(prefix, depth)
    ensures NoCollision(pathOf, Contents(v).Keys)
    ensures LayerHash(pathOf, v, prefix, depth) == HashUnder(RowsOf(pathOf, Contents(v)), prefix, depth)
    decreases v, MAX_DEPTH - depth
  {
    ContentsApart(pathOf, v);
    if v.Over? {
      var rows := RowsOf(pathOf, Contents(v));
      if !Touches(pathOf, v.delta, prefix, depth) {
        LayerHashIsTreeHash(pathOf, v.base, prefix, depth);
        UntouchedHash(pathOf, v, prefix, depth);
      } else {
        TouchedHash(pathOf, v, prefix, depth);
        if !AtMostOne(rows, prefix, depth) {
          var l, r := Child(prefix, depth, false), Child(prefix, depth, true);
          ChildPadded(prefix, depth, false);
          ChildPadded(prefix, depth, true);
          LayerHashIsTreeHash(pathOf, v, l, depth + 1);
          LayerHashIsTreeHash(pathOf, v, r, depth + 1);
          PaddedBranch(pathOf, v, rows, prefix, depth, LayerHash(pathOf, v, l, depth + 1),
            LayerHash(pathOf, v, r, depth + 1));
        }
      }
    }
  }

  /** A stack raises exactly when some row it shows in the range does not fit. */
  lemma {:induction false} LayerFitsIs(pathOf: Key -> Path, v: View, prefix: Path, depth: nat)
    requires depth <= MAX_DEPTH && NoCollision(pathOf, KeysOf(v))
    ensures NoCollision(pathOf, Contents(v).Keys)
    ensures LayerFits(pathOf, v, prefix, depth) <==> FitsUnder(RowsOf(pathOf, Contents(v)), prefix, depth)
    decreases v, MAX_DEPTH - depth
  {
    ContentsApart(pathOf, v);
    if v.Over? {
      if !Touches(pathOf, v.delta, prefix, depth) {
        LayerFitsIs(pathOf, v.base, prefix, depth);
        UntouchedFits(pathOf, v, prefix, depth);
      } else {
        if depth < MAX_DEPTH {
          LayerFitsIs(pathOf, v, LeftOf(prefix, depth), depth + 1);
          LayerFitsIs(pathOf, v, RightOf(prefix, depth), depth + 1);
        }
        TouchedFits(pathOf, v, RowsOf(pathOf, Contents(v)), prefix, depth);
      }
    }
  }

  lemma AgreeFits(r: Rows, s: Rows, prefix: Path, depth: nat)
    requires depth <= MAX_DEPTH && Agree(r, s, prefix, depth)
    ensures FitsUnder(r, prefix, depth) <==> FitsUnder(s, prefix, depth)
  {
  }

  lemma UntouchedFits(pathOf: Key -> Path, v: View, prefix: Path, depth: nat)
    requires depth <= MAX_DEPTH && NoCollision(pathOf, KeysOf(v)) && v.Over? && !Touches(pathOf, v.delta, prefix, depth)
    requires NoCollision(pathOf, Contents(v.base).Keys) && NoCollision(pathOf, Contents(v).Keys)
    requires LayerFits(pathOf, v.base, prefix, depth) <==> FitsUnder(RowsOf(pathOf, Contents(v.base)), prefix, depth)
    ensures LayerFits(pathOf, v, prefix, depth) <==> FitsUnder(RowsOf(pathOf, Contents(v)), prefix, depth)
  {
    ContentsKeys(v.base);
    UntouchedAgrees(pathOf, Contents(v.base), v.delta, prefix, depth);
    AgreeFits(RowsOf(pathOf, Contents(v.base)), RowsOf(pathOf, Contents(v)), prefix, depth);
  }

  lemma TouchedFits(pathOf: Key -> Path, v: View, rows: Rows, prefix: Path, depth: nat)
    requires depth <= MAX_DEPTH && NoCollision(pathOf, KeysOf(v)) && v.Over? && Touches(pathOf, v.delta, prefix, depth)
    requires NoCollision(pathOf, Contents(v).Keys) && rows == RowsOf(pathOf, Contents(v))
    requires depth < MAX_DEPTH ==>
               (LayerFits(pathOf, v, LeftOf(prefix, depth), depth + 1) <==>
                FitsUnder(rows, LeftOf(prefix, depth), depth + 1)) &&
               (LayerFits(pathOf, v, RightOf(prefix, depth), depth + 1) <==>
                FitsUnder(rows, RightOf(prefix, depth), depth + 1))
    ensures LayerFits(pathOf, v, prefix, depth) <==> FitsUnder(rows, prefix, depth)
  {
    ContentsKeys(v.base);
    EffectiveIsMerged(pathOf, Contents(v.base), v.delta, prefix, depth);
    AgreeFits(EffectiveRows(pathOf, Contents(v.base), v.delta, prefix, depth), rows, prefix, depth);
    if depth < MAX_DEPTH && FitsUnder(rows, prefix, depth) { SidesFit(rows, prefix, depth); }
  }

  lemma SidesFit(rows: Rows, prefix: Path, depth: nat)
    requires depth < MAX_DEPTH && FitsUnder(rows, prefix, depth)
    ensures FitsUnder(rows, LeftOf(prefix, depth), depth + 1) && FitsUnder(rows, RightOf(prefix, depth), depth + 1)
  {
    PaddedChildren(prefix, depth);
    FitsSplit(rows, prefix, depth);
  }

  /** An untouched range is the base's business. */
  lemma UntouchedHash(pathOf: Key -> Path, v: View, prefix: Path, depth: nat)
    requires depth <= MAX_DEPTH && NoCollision(pathOf, KeysOf(v)) && v.Over? && !Touches(pathOf, v.delta, prefix, depth)
    requires NoCollision(pathOf, Contents(v.base).Keys) && NoCollision(pathOf, Contents(v).Keys)
    requires LayerHash(pathOf, v.base, prefix, depth) == HashUnder(RowsOf(pathOf, Contents(v.base)), prefix, depth)
    ensures LayerHash(pathOf, v, prefix, depth) == HashUnder(RowsOf(pathOf, Contents(v)), prefix, depth)
  {
    ContentsKeys(v.base);
    var base, delta := Contents(v.base), v.delta;
    UntouchedAgrees(pathOf, base, delta, prefix, depth);
    HashLocal(RowsOf(pathOf, base), RowsOf(pathOf, Contents(v)), prefix, depth);
  }

  lemma ContentsApart(pathOf: Key -> Path, v: View)
    requires NoCollision(pathOf, KeysOf(v))
    ensures NoCollision(pathOf, Contents(v).Keys)
    ensures v.Over? ==> NoCollision(pathOf, KeysOf(v.base))
  {
    ContentsKeys(v);
  }

  /** The children of a layer's branch, one of which is always the right one. */
  lemma LayerBranch(pathOf: Key -> Path, v: View, prefix: Path, depth: nat)
    requires depth < MAX_DEPTH && NoCollision(pathOf, KeysOf(v)) && IsBranch(pathOf, v, prefix, depth)
    ensures LayerHash(pathOf, v, prefix, depth) ==
            Branch(depth, Lo(prefix, depth),
                   LayerHash(pathOf, v, Child(prefix, depth, prefix[depth]), depth + 1),
                   LayerHash(pathOf, v, Child(prefix, depth, true), depth + 1))
  {
    PaddedChildren(prefix, depth);
  }

  lemma PaddedBranch(pathOf: Key -> Path, v: View, rows: Rows, prefix: Path, depth: nat, l: Digest, r: Digest)
    requires depth < MAX_DEPTH && NoCollision(pathOf, KeysOf(v)) && Padded(prefix, depth)
    requires IsBranch(pathOf, v, prefix, depth) && !AtMostOne(rows, prefix, depth)
    requires l == LayerHash(pathOf, v, Child(prefix, depth, false), depth + 1) ==
             HashUnder(rows, Child(prefix, depth, false), depth + 1)
    requires r == LayerHash(pathOf, v, Child(prefix, depth, true), depth + 1) ==
             HashUnder(rows, Child(prefix, depth, true), depth + 1)
    ensures LayerHash(pathOf, v, prefix, depth) == HashUnder(rows, prefix, depth)
  {
    assert !prefix[depth] by { assert Lo(prefix, depth)[depth] == false; }
    LayerBranch(pathOf, v, prefix, depth);
    TreeBranch(rows, prefix, depth);
  }

  ghost predicate IsBranch(pathOf: Key -> Path, v: View, prefix: Path, depth: nat)
    requires depth < MAX_DEPTH && NoCollision(pathOf, KeysOf(v))
  {
    LayerHash(pathOf, v, prefix, depth) ==
    Branch(depth, Lo(prefix, depth),
           LayerHash(pathOf, v, LeftOf(prefix, depth), depth + 1),
           LayerHash(pathOf, v, RightOf(prefix, depth), depth + 1))
  }

  /** One level of a touched range, in terms of the merged rows. */
  lemma TouchedHash(pathOf: Key -> Path, v: View, prefix: Path, depth: nat)
    requires depth <= MAX_DEPTH && NoCollision(pathOf, KeysOf(v))
    requires v.Over? && Touches(pathOf, v.delta, prefix, depth)
    ensures NoCollision(pathOf, Contents(v).Keys)
    ensures var rows := RowsOf(pathOf, Contents(v));
            (AtMostOne(rows, prefix, depth) ==>
             LayerHash(pathOf, v, prefix, depth) == HashUnder(rows, prefix, depth)) &&
            (!AtMostOne(rows, prefix, depth) ==> depth < MAX_DEPTH && IsBranch(pathOf, v, prefix, depth))
  {
    ContentsKeys(v);
    ContentsKeys(v.base);
    var base, delta := Contents(v.base), v.delta;
    var eff, rows := EffectiveRows(pathOf, base, delta, prefix, depth), RowsOf(pathOf, Contents(v));
    EffectiveIsMerged(pathOf, base, delta, prefix, depth);
    AgreeShape(eff, rows, prefix, depth);
    FullDepth(rows, prefix);
    if AtMostOne(rows, prefix, depth) && !NoneUnder(rows, prefix, depth) { OneLeaf(rows, prefix, depth); }
  }

  lemma UntouchedAgrees(pathOf: Key -> Path, base: Live, delta: Delta, prefix: Path, depth: nat)
    requires depth <= MAX_DEPTH && NoCollision(pathOf, base.Keys + delta.Keys)
    requires !Touches(pathOf, delta, prefix, depth)
    ensures NoCollision(pathOf, Patch(base, delta).Keys)
    ensures Agree(RowsOf(pathOf, base), RowsOf(pathOf, Patch(base, delta)), prefix, depth)
  {
    var merged := Patch(base, delta);
    assert merged.Keys <= base.Keys + delta.Keys;
    var r, s := RowsOf(pathOf, base), RowsOf(pathOf, merged);
    forall q | Under(q, prefix, depth) ensures (q in r <==> q in s) && (q in r ==> r[q] == s[q]) {
      if k :| k in base && pathOf(k) == q { assert k !in delta; assert k in merged; }
      if k :| k in merged && pathOf(k) == q { assert k !in delta; assert k in base; }
    }
  }

  // --------------------------------------------------------- a prefix that is not padded

  /** The two children of a branch have different hashes. */
  lemma SiblingsDiffer(rows: Rows, prefix: Path, depth: nat)
    requires depth < MAX_DEPTH && !NoneUnder(rows, prefix, depth)
    ensures HashUnder(rows, Child(prefix, depth, false), depth + 1) !=
            HashUnder(rows, Child(prefix, depth, true), depth + 1)
  {
    var a, b := Child(prefix, depth, false), Child(prefix, depth, true);
    forall q: Path ensures Under(q, a, depth + 1) <==> Under(q, prefix, depth) && !q[depth]
                   ensures Under(q, b, depth + 1) <==> Under(q, prefix, depth) && q[depth] {
      UnderSplit(q, prefix, depth);
    }
    if !NoneUnder(rows, a, depth + 1) && AtMostOne(rows, a, depth + 1) { OneLeaf(rows, a, depth + 1); }
    if !NoneUnder(rows, b, depth + 1) && AtMostOne(rows, b, depth + 1) { OneLeaf(rows, b, depth + 1); }
    assert Lo(a, depth + 1)[depth] == false && Lo(b, depth + 1)[depth] == true;
  }

  /** Over a store, asked at any prefix at all, a layer answers with the hash of its rows exactly
      when the range is untouched, or holds at most one row, or the prefix bit at `depth` is 0:
      otherwise both sub-calls go to the same side. */
  lemma LayerHashUnpadded(pathOf: Key -> Path, live: Live, delta: Delta, prefix: Path, depth: nat)
    requires depth < MAX_DEPTH && NoCollision(pathOf, live.Keys + delta.Keys)
    ensures NoCollision(pathOf, Patch(live, delta).Keys)
    ensures var rows := RowsOf(pathOf, Patch(live, delta));
            LayerHash(pathOf, Over(Stored(live), delta), prefix, depth) == HashUnder(rows, prefix, depth) <==>
            !Touches(pathOf, delta, prefix, depth) || AtMostOne(rows, prefix, depth) || !prefix[depth]
  {
    var v := Over(Stored(live), delta);
    ContentsKeys(v);
    var rows := RowsOf(pathOf, Patch(live, delta));
    if !Touches(pathOf, delta, prefix, depth) {
      UntouchedAgrees(pathOf, live, delta, prefix, depth);
      HashLocal(RowsOf(pathOf, live), rows, prefix, depth);
    } else {
      TouchedHash(pathOf, v, prefix, depth);
      if !AtMostOne(rows, prefix, depth) { UnpaddedBranch(pathOf, v, rows, prefix, depth); }
    }
  }

  /** One row in the store, another in the delta, and a prefix that starts with a one: the layer's
      hash of everything is not the hash of the rows. */
  lemma UnpaddedFails(pathOf: Key -> Path, j: Key, k: Key, h: Held, g: Held, prefix: Path)
    requires pathOf(j) != pathOf(k) && prefix[0]
    ensures var live: Live, delta: Delta := map[j := h], map[k := Some(g)];
            NoCollision(pathOf, live.Keys + delta.Keys) && NoCollision(pathOf, Patch(live, delta).Keys) &&
            LayerHash(pathOf, Over(Stored(live), delta), prefix, 0) !=
              HashUnder(RowsOf(pathOf, Patch(live, delta)), prefix, 0)
  {
    var live: Live, delta: Delta := map[j := h], map[k := Some(g)];
    LayerHashUnpadded(pathOf, live, delta, prefix, 0);
    assert k in delta && Under(pathOf(k), prefix, 0);
    TwoRows(RowsOf(pathOf, Patch(live, delta)), pathOf(j), pathOf(k), prefix);
  }

  lemma TwoRows(rows: Rows, p: Path, q: Path, prefix: Path)
    requires p in rows && q in rows && p != q
    ensures !AtMostOne(rows, prefix, 0)
  {
    assert Under(p, prefix, 0) && Under(q, prefix, 0);
  }

  lemma UnpaddedBranch(pathOf: Key -> Path, v: View, rows: Rows, prefix: Path, depth: nat)
    requires depth < MAX_DEPTH && NoCollision(pathOf, KeysOf(v)) && NoCollision(pathOf, Contents(v).Keys)
    requires rows == RowsOf(pathOf, Contents(v)) && !AtMostOne(rows, prefix, depth) &&
             IsBranch(pathOf, v, prefix, depth)
    ensures LayerHash(pathOf, v, prefix, depth) == HashUnder(rows, prefix, depth) <==> !prefix[depth]
  {
    ChildHash(pathOf, v, rows, prefix, depth, false);
    ChildHash(pathOf, v, rows, prefix, depth, true);
    SiblingsDiffer(rows, prefix, depth);
    LayerBranch(pathOf, v, prefix, depth);
    TreeBranch(rows, prefix, depth);
  }

  lemma ChildHash(pathOf: Key -> Path, v: View, rows: Rows, prefix: Path, depth: nat, b: bool)
    requires depth < MAX_DEPTH && NoCollision(pathOf, KeysOf(v)) && NoCollision(pathOf, Contents(v).Keys)
    requires rows == RowsOf(pathOf, Contents(v))
    ensures LayerHash(pathOf, v, Child(prefix, depth, b), depth + 1) ==
            HashUnder(rows, Child(prefix, depth, b), depth + 1)
  {
    ChildPadded(prefix, depth, b);
    PaddedHash(pathOf, v, rows, Child(prefix, depth, b), depth + 1);
  }

  lemma PaddedHash(pathOf: Key -> Path, v: View, rows: Rows, prefix: Path, depth: nat)
    requires depth <= MAX_DEPTH && NoCollision(pathOf, KeysOf(v)) && NoCollision(pathOf, Contents(v).Keys)
    requires Padded(prefix, depth) && rows == RowsOf(pathOf, Contents(v))
    ensures LayerHash(pathOf, v, prefix, depth) == HashUnder(rows, prefix, depth)
  {
    LayerHashIsTreeHash(pathOf, v, prefix, depth);
  }

  // --------------------------------------------------------------------- accumulators

  type Element = (Key, Bytes, int) -> int

  function ElementOf(elem: Element, k: Key, h: Option<Held>): int {
    match h
    case None => 0
    case Some(r) => elem(k, r.value, r.epoch)
  }

  /** The sum of the elements of the live rows. */
  ghost function Sum(elem: Element, live: Live): int
    decreases |live|
  {
    if live == map[] then 0 else
      var k :| k in live;
      ElementOf(elem, k, Lookup(live, k)) + Sum(elem, live - {k})
  }

  /** Taking one row away subtracts exactly its element. */
  lemma {:induction false} SumWithout(elem: Element, live: Live, k: Key)
    ensures Sum(elem, live) == ElementOf(elem, k, Lookup(live, k)) + Sum(elem, live - {k})
    decreases |live|
  {
    if k !in live {
      assert live - {k} == live;
    } else {
      var j :| j in live && Sum(elem, live) == ElementOf(elem, j, Lookup(live, j)) + Sum(elem, live - {j});
      if j != k {
        SumWithout(elem, live - {j}, k);
        SumWithout(elem, live - {k}, j);
        assert live - {j} - {k} == live - {k} - {j};
        assert Lookup(live - {j}, k) == Lookup(live, k) && Lookup(live - {k}, j) == Lookup(live, j);
      }
    }
  }

  /** Writing or deleting a row subtracts the old element and adds the new one. */
  lemma SumWrite(elem: Element, live: Live, k: Key, h: Option<Held>)
    ensures var after := if h.Some? then live[k := h.value] else live - {k};
            Sum(elem, after) == Sum(elem, live) - ElementOf(elem, k, Lookup(live, k)) + ElementOf(elem, k, h)
  {
    var after := if h.Some? then live[k := h.value] else live - {k};
    SumWithout(elem, live, k);
    SumWithout(elem, after, k);
    assert after - {k} == live - {k};
  }
}
