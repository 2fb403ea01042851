/** The way of a slice through one node: screened at the cut, previewed at promotion, committed at
    settlement (`_screen_slice`, `_promote_to_settling`, `_do_settled` and `_expect_anchors` of
    dude/consensus/coordinator.py), all on the same tables. */
module Settlement {
  import opened Bytes
  import opened Ops
  import opened Views
  import opened Smt
  import opened Settle
  import opened LayerRoot
  import opened Ledger
  import opened Promotion
  import opened Screening
  import S = Store

  /** Nothing the screen lets through is in the log. */
  lemma ScreenedAreUnlogged(env: Env, isolated: (Live, Bytes) -> bool, live: Live, settled: set<Bytes>,
      candidate: seq<Signed>, h: Bytes)
    requires LetThrough(env, isolated, live, settled, candidate).Some? &&
             h in LetThrough(env, isolated, live, settled, candidate).value
    ensures h !in settled
  {
    var unsettled := Fresh(env, settled, candidate);
    var survivors := Screen(env, live, {}, unsettled).keep;
    if FirstIsolated(isolated, live, survivors).Some? { FirstIsIn(isolated, live, survivors); }
    var tx :| tx in survivors && OpHash(env, tx) == h;
    KeptWithin(env, live, {}, unsettled);
    WithinMember(survivors, unsettled, tx);
    FreshUnsettled(env, settled, candidate, tx);
  }

  lemma {:induction false} FreshUnsettled(env: Env, settled: set<Bytes>, batch: seq<Signed>, tx: Signed)
    requires tx in Fresh(env, settled, batch)
    ensures OpHash(env, tx) !in settled
  {
    if OpHash(env, batch[0]) in settled || tx != batch[0] { FreshUnsettled(env, settled, batch[1..], tx); }
  }

  lemma {:induction false} FilteredIn(env: Env, txs: seq<Signed>, keep: set<Bytes>, i: nat)
    requires i < |Filter(env, txs, keep)|
    ensures OpHash(env, Filter(env, txs, keep)[i]) in keep && Filter(env, txs, keep)[i] in txs
  {
    if OpHash(env, txs[0]) !in keep {
      FilteredIn(env, txs[1..], keep, i);
    } else if i > 0 {
      FilteredIn(env, txs[1..], keep, i - 1);
    }
  }

  /** The slice a node signs from these tables. */
  ghost predicate IsCutOf(env: Env, isolated: (Live, Bytes) -> bool, s: State, candidate: seq<Signed>,
      slice: seq<Signed>) {
    DistinctHashes(env, candidate) &&
    var kept := LetThrough(env, isolated, s.live, SettledHashes(s.entries), candidate);
    kept.Some? && slice == Filter(env, candidate, kept.value)
  }

  lemma CutIsUnlogged(env: Env, isolated: (Live, Bytes) -> bool, s: State, candidate: seq<Signed>, slice: seq<Signed>)
    requires IsCutOf(env, isolated, s, candidate, slice)
    ensures NoneLogged(env, s, slice)
  {
    var settled := SettledHashes(s.entries);
    var kept := LetThrough(env, isolated, s.live, settled, candidate).value;
    forall i | 0 <= i < |slice| ensures OpHash(env, slice[i]) !in settled {
      FilteredIn(env, candidate, kept, i);
      ScreenedAreUnlogged(env, isolated, s.live, settled, candidate, OpHash(env, slice[i]));
    }
  }

  /** What a slice cut from these tables needs to promote: the rows it leads to can be hashed, and
      one cut down to the transaction of an isolated author applies on its own. */
  ghost predicate Promotes(env: Env, isolated: (Live, Bytes) -> bool, s: State, candidate: seq<Signed>) {
    var screened := Screen(env, s.live, {}, Fresh(env, SettledHashes(s.entries), candidate));
    screened.Screened? &&
    match FirstIsolated(isolated, s.live, screened.keep)
    case None => Fits(screened.live)
    case Some(tx) => Evaluate(env, s.live, tx).Pass? && Fits(After(env, s.live, tx))
  }

  /** What makes cutting or promoting throw. */
  ghost predicate CutThrows(env: Env, isolated: (Live, Bytes) -> bool, s: State, candidate: seq<Signed>) {
    var screened := Screen(env, s.live, {}, Fresh(env, SettledHashes(s.entries), candidate));
    screened.Crashed? ||
    match FirstIsolated(isolated, s.live, screened.keep)
    case None => !Fits(screened.live)
    case Some(tx) =>
      Evaluate(env, s.live, tx) == Fail(Raised) ||
      (Evaluate(env, s.live, tx).Pass? && !Fits(After(env, s.live, tx)))
  }

  /** From the cut to the check: a slice cut from the tables it settles on promotes exactly then;
      and a promoted slice, under a new number and hash, commits exactly when the database takes all
      it writes, and then meets its anchors. */
  lemma CutToSettlement(env: Env, isolated: (Live, Bytes) -> bool, pathOf: Key -> Path, elem: Element,
                        logElem: LogElement, s: State, candidate: seq<Signed>, slice: seq<Signed>, num: int,
                        hash: Bytes, a: Anchors)
    requires IsCutOf(env, isolated, s, candidate, slice) && num !in s.blocks && HashIsNew(s.blocks, hash)
    ensures Promotes(env, isolated, s, candidate) <==> PreviewPasses(env, s.live, slice)
    ensures CutThrows(env, isolated, s, candidate) <==> PreviewThrows(env, s.live, slice)
    ensures IsPreview(env, pathOf, elem, logElem, s, slice, a) ==>
              Promotes(env, isolated, s, candidate) &&
              var commit := CommitBlock(env, elem, logElem, s, num, hash, slice);
              (commit.Committed? <==> KeptBind(env, s.live, {}, slice)) &&
              (commit.Committed? ==> Meets(pathOf, commit.state, a))
  {
    ScreenedPromotes(env, isolated, s.live, SettledHashes(s.entries), candidate);
    CutIsUnlogged(env, isolated, s, candidate, slice);
    if IsPreview(env, pathOf, elem, logElem, s, slice, a) {
      CommitsUnmoved(env, pathOf, elem, logElem, s, num, hash, slice, a);
      if CommitBlock(env, elem, logElem, s, num, hash, slice).Committed? {
        PreviewIsSettlement(env, pathOf, elem, logElem, s, num, hash, slice, a);
      }
    }
  }

  /** The database takes all that the slice cut from these tables writes. */
  ghost predicate SliceBinds(env: Env, isolated: (Live, Bytes) -> bool, s: State, candidate: seq<Signed>) {
    var kept := LetThrough(env, isolated, s.live, SettledHashes(s.entries), candidate);
    kept.Some? && KeptBind(env, s.live, {}, Filter(env, candidate, kept.value))
  }

  /** The same as it runs: the cut, the promotion of the next block, the commit and the check. */
  method CutPromoteSettle(store: S.Store, env: Env, isolated: (Live, Bytes) -> bool, candidate: seq<Signed>,
                          prevBlock: Bytes, hash: Bytes)
      returns (preview: Preview, committed: bool, ok: bool)
    requires store.Valid() && DistinctHashes(env, candidate) && HashIsNew(store.blocks, hash)
    requires forall i :: 0 <= i < |candidate| ==> Targets(candidate[i], store.universe)
    modifies store, store.tree
    ensures store.Valid()
    ensures preview.Previewed? <==> Promotes(env, isolated, old(store.Tables()), candidate)
    ensures preview.Throws? <==> CutThrows(env, isolated, old(store.Tables()), candidate)
    ensures preview.Previewed? ==> (committed <==> SliceBinds(env, isolated, old(store.Tables()), candidate))
    ensures committed ==> preview.Previewed? && ok
    ensures !committed ==> store.Tables() == old(store.Tables())
  {
    preview, committed, ok := Throws, false, false;
    ghost var s := store.Tables();
    var kept := ScreenSlice(store, env, isolated, candidate);
    if kept.None? { return; }
    var slice := Filter(env, candidate, kept.value);
    SliceTargets(env, candidate, kept.value, store.universe);
    preview := Promote(store, env, slice, prevBlock);
    HeadNumBounds(s.blocks);
    ghost var a := if preview.Previewed? then preview.anchors else Anchors(0, 0, [], Empty, 0, 0);
    CutToSettlement(env, isolated, store.pathOf, store.elem, store.logElem, s, candidate, slice,
      HeadNum(s.blocks) + 1, hash, a);
    CutIsUnlogged(env, isolated, s, candidate, slice);
    if !preview.Previewed? { return; }
    committed, ok := DoSettled(store, env, slice, hash, preview.anchors);
  }

  /** A slice that is signed and then throws at promotion: a management row written with an epoch
      that eight bytes cannot hold passes the evaluator and the screen, and cannot be hashed. */
  lemma UnfitIsSigned(env: Env, isolated: (Live, Bytes) -> bool, s: State, tx: Signed, epoch: int)
    requires env.verified(tx) && env.mayWrite(s.live, tx.author, STORE_MANAGEMENT)
    requires OpHash(env, tx) !in SettledHashes(s.entries)
    requires tx.steps == [Step([], Set(STORE_MANAGEMENT, [7], [], epoch), false)] && !(0 <= epoch < EPOCH_LIMIT)
    ensures IsCutOf(env, isolated, s, [tx], [tx])
    ensures !Promotes(env, isolated, s, [tx]) && CutThrows(env, isolated, s, [tx])
  {
    var m := Set(STORE_MANAGEMENT, [7], [], epoch);
    OneIsCut(env, isolated, s, tx, m);
    var after := ApplyOne(s.live, m, env.raw(tx));
    assert m.Target() in after && !RowFits(after[m.Target()]);
  }

  /** A transaction that writes one management row is cut whole, isolated or not. */
  lemma OneIsCut(env: Env, isolated: (Live, Bytes) -> bool, s: State, tx: Signed, m: Mutation)
    requires env.verified(tx) && env.mayWrite(s.live, tx.author, STORE_MANAGEMENT)
    requires OpHash(env, tx) !in SettledHashes(s.entries)
    requires m.Set? && m.store == STORE_MANAGEMENT && |m.name| == 1 && tx.steps == [Step([], m, false)]
    ensures IsCutOf(env, isolated, s, [tx], [tx]) && Evaluate(env, s.live, tx) == Pass([m])
    ensures Fresh(env, SettledHashes(s.entries), [tx]) == [tx]
    ensures Screen(env, s.live, {}, [tx]) == Settle.Screened(ApplyOne(s.live, m, env.raw(tx)), [tx], [])
    ensures After(env, s.live, tx) == ApplyOne(s.live, m, env.raw(tx))
    ensures FirstIsolated(isolated, s.live, [tx]) == if isolated(s.live, tx.author) then Some(tx) else None
  {
    PlainPasses(env, s.live, tx, m);
    ScreenPass(env, s.live, {}, tx, [m]);
    FreshIsAll(env, SettledHashes(s.entries), [tx]);
    assert [tx][1..] == [] && Hashes(env, [tx]) == {OpHash(env, tx)};
    assert Filter(env, [tx], {OpHash(env, tx)}) == [tx] + Filter(env, [], {OpHash(env, tx)});
    assert FirstIsolated(isolated, s.live, [tx]) == (if isolated(s.live, tx.author) then Some(tx) else None);
  }

  /** And one that is signed, promoted and signed again, and cannot be written: an epoch that fits
      eight bytes but not the database. */
  lemma UnwritableIsPromoted(env: Env, isolated: (Live, Bytes) -> bool, s: State, tx: Signed, epoch: int)
    requires env.verified(tx) && env.mayWrite(s.live, tx.author, STORE_MANAGEMENT) && Fits(s.live)
    requires OpHash(env, tx) !in SettledHashes(s.entries)
    requires tx.steps == [Step([], Set(STORE_MANAGEMENT, [7], [], epoch), false)] && INT64 <= epoch < EPOCH_LIMIT
    ensures IsCutOf(env, isolated, s, [tx], [tx]) && Promotes(env, isolated, s, [tx])
    ensures !SliceBinds(env, isolated, s, [tx])
  {
    var m := Set(STORE_MANAGEMENT, [7], [], epoch);
    OneIsCut(env, isolated, s, tx, m);
    var after := ApplyOne(s.live, m, env.raw(tx));
    forall k | k in after ensures RowFits(after[k]) { assert k != m.Target() ==> after[k] == s.live[k]; }
    assert !WriteBinds([m][0]);
  }

  lemma SliceTargets(env: Env, candidate: seq<Signed>, kept: set<Bytes>, keys: set<Key>)
    requires forall i :: 0 <= i < |candidate| ==> Targets(candidate[i], keys)
    ensures forall i :: 0 <= i < |Filter(env, candidate, kept)| ==> Targets(Filter(env, candidate, kept)[i], keys)
  {
    var slice := Filter(env, candidate, kept);
    forall i | 0 <= i < |slice| ensures Targets(slice[i], keys) { FilteredIn(env, candidate, kept, i); }
  }
}
