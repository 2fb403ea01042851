/** `_screen_slice` of dude/consensus/coordinator.py: what a round may sign. Transactions already
    logged go first, then those that do not apply in order; and if a surviving author's role is
    isolated, only the first such transaction is left. Whether promotion then accepts the slice is
    decided here. */
module Screening {
  import opened Bytes
  import opened Ops
  import opened Views
  import opened Settle
  import O = Overlay
  import S = Store
  import Ledger

  function FirstIsolated(isolated: (Live, Bytes) -> bool, live: Live, txs: seq<Signed>): Option<Signed> {
    if txs == [] then None else if isolated(live, txs[0].author) then Some(txs[0])
      else FirstIsolated(isolated, live, txs[1..])
  }

  /** Its author is isolated and no author before it is; there is none exactly when no author is. */
  lemma {:induction false} FirstIsolatedIs(isolated: (Live, Bytes) -> bool, live: Live, txs: seq<Signed>)
    ensures FirstIsolated(isolated, live, txs).None? <==>
            forall i :: 0 <= i < |txs| ==> !isolated(live, txs[i].author)
    ensures FirstIsolated(isolated, live, txs).Some? ==>
              exists i :: 0 <= i < |txs| && FirstIsolated(isolated, live, txs).value == txs[i] &&
                isolated(live, txs[i].author) && forall j :: 0 <= j < i ==> !isolated(live, txs[j].author)
  {
    if txs != [] && !isolated(live, txs[0].author) {
      FirstIsolatedIs(isolated, live, txs[1..]);
      assert forall i :: 0 < i < |txs| ==> txs[i] == txs[1..][i - 1];
      if FirstIsolated(isolated, live, txs[1..]).Some? {
        var i :| 0 <= i < |txs[1..]| && FirstIsolated(isolated, live, txs[1..]).value == txs[1..][i] &&
          isolated(live, txs[1..][i].author) && forall j :: 0 <= j < i ==> !isolated(live, txs[1..][j].author);
        assert txs[i + 1] == txs[1..][i];
      }
    }
  }

  /** What the screen lets through: the survivors, or the first of an isolated author alone. */
  lemma LetThroughExactly(env: Env, isolated: (Live, Bytes) -> bool, live: Live, settled: set<Bytes>,
                          candidate: seq<Signed>)
    requires LetThrough(env, isolated, live, settled, candidate).Some?
    ensures var kept := LetThrough(env, isolated, live, settled, candidate).value;
            var survivors := Screen(env, live, {}, Fresh(env, settled, candidate)).keep;
            if forall i :: 0 <= i < |survivors| ==> !isolated(live, survivors[i].author)
            then forall h :: h in kept <==> exists i :: 0 <= i < |survivors| && h == OpHash(env, survivors[i])
            else exists i :: 0 <= i < |survivors| && isolated(live, survivors[i].author) &&
                   (forall j :: 0 <= j < i ==> !isolated(live, survivors[j].author)) &&
                     kept == {OpHash(env, survivors[i])}
  {
    FirstIsolatedIs(isolated, live, Screen(env, live, {}, Fresh(env, settled, candidate)).keep);
  }

  function Hashes(env: Env, txs: seq<Signed>): set<Bytes> { set tx | tx in txs :: OpHash(env, tx) }

  /** The hashes the screen lets through, `isolated` being what the grants in the store say of an
      author's role; `None` where the evaluator raises. */
  function LetThrough(env: Env, isolated: (Live, Bytes) -> bool, live: Live, settled: set<Bytes>,
      candidate: seq<Signed>): Option<set<Bytes>> {
    match Screen(env, live, {}, Fresh(env, settled, candidate))
    case Crashed => None
    case Screened(_, keep, _) =>
      match FirstIsolated(isolated, live, keep)
      case Some(tx) => Some({OpHash(env, tx)})
      case None => Some(Hashes(env, keep))
  }

  method ScreenSlice(store: S.Store, env: Env, isolated: (Live, Bytes) -> bool, candidate: seq<Signed>)
      returns (r: Option<set<Bytes>>)
    requires store.Valid() && forall i :: 0 <= i < |candidate| ==> Targets(candidate[i], store.universe)
    ensures r == LetThrough(env, isolated, store.live, Ledger.SettledHashes(store.entries), candidate)
  {
    var unsettled := Fresh(env, Ledger.SettledHashes(store.entries), candidate);
    FreshTargets(env, Ledger.SettledHashes(store.entries), candidate, store.universe);
    var layer := new O.Overlay(store.live);
    var crashed, survivors, rejects := O.ApplyTo(env, layer, unsettled, store.universe);
    if crashed { return None; }
    assert survivors[0..] == survivors;
    for i := 0 to |survivors|
      invariant FirstIsolated(isolated, store.live, survivors) == FirstIsolated(isolated, store.live, survivors[i..])
    {
      assert survivors[i..][0] == survivors[i] && survivors[i..][1..] == survivors[i + 1..];
      if isolated(store.live, survivors[i].author) { return Some({OpHash(env, survivors[i])}); }
    }
    return Some(Hashes(env, survivors));
  }

  lemma {:induction false} FreshTargets(env: Env, settled: set<Bytes>, batch: seq<Signed>, keys: set<Key>)
    requires forall i :: 0 <= i < |batch| ==> Targets(batch[i], keys)
    ensures forall i :: 0 <= i < |Fresh(env, settled, batch)| ==> Targets(Fresh(env, settled, batch)[i], keys)
  {
    if batch != [] { FreshTargets(env, settled, batch[1..], keys); }
  }

  /** `CanonicalBatch.filter`. */
  function Filter(env: Env, txs: seq<Signed>, keep: set<Bytes>): seq<Signed> {
    if txs == [] then []
    else if OpHash(env, txs[0]) in keep then [txs[0]] + Filter(env, txs[1..], keep)
    else Filter(env, txs[1..], keep)
  }

  predicate DistinctHashes(env: Env, txs: seq<Signed>) {
    forall i, j :: 0 <= i < j < |txs| ==> OpHash(env, txs[i]) != OpHash(env, txs[j])
  }

  /** `sub` lists some of `txs` in the same order. */
  ghost predicate Within(sub: seq<Signed>, txs: seq<Signed>)
    decreases |txs|
  {
    sub == [] || (txs != [] && ((sub[0] == txs[0] && Within(sub[1..], txs[1..])) || Within(sub, txs[1..])))
  }

  lemma {:induction false} WithinMember(sub: seq<Signed>, txs: seq<Signed>, tx: Signed)
    requires Within(sub, txs) && tx in sub
    ensures tx in txs
    decreases |txs|
  {
    if sub[0] == txs[0] && Within(sub[1..], txs[1..]) {
      if tx != sub[0] { WithinMember(sub[1..], txs[1..], tx); }
    } else {
      WithinMember(sub, txs[1..], tx);
    }
  }

  lemma {:induction false} KeptWithin(env: Env, live: Live, seen: set<Bytes>, batch: seq<Signed>)
    requires Screen(env, live, seen, batch).Screened?
    ensures Within(Screen(env, live, seen, batch).keep, batch)
    decreases |batch|
  {
    if batch != [] {
      var tx, hash := batch[0], OpHash(env, batch[0]);
      if hash !in seen && Evaluate(env, live, tx).Pass? {
        KeptWithin(env, ApplyAll(live, Evaluate(env, live, tx).mutations, env.raw(tx)), seen + {hash}, batch[1..]);
      } else {
        KeptWithin(env, live, seen, batch[1..]);
      }
    }
  }

  lemma {:induction false} FreshWithin(env: Env, settled: set<Bytes>, batch: seq<Signed>, sub: seq<Signed>)
    requires Within(sub, Fresh(env, settled, batch))
    ensures Within(sub, batch)
    decreases |batch|
  {
    if sub != [] {
      var f, rest := Fresh(env, settled, batch), Fresh(env, settled, batch[1..]);
      if OpHash(env, batch[0]) !in settled {
        assert f[0] == batch[0] && f[1..] == rest;
        if sub[0] == f[0] && Within(sub[1..], rest) {
          FreshWithin(env, settled, batch[1..], sub[1..]);
        } else {
          FreshWithin(env, settled, batch[1..], sub);
        }
      } else {
        FreshWithin(env, settled, batch[1..], sub);
      }
    }
  }

  /** Filtering a batch of distinct hashes by those of a sub-list gives back the sub-list. */
  lemma {:induction false} FilterWithin(env: Env, txs: seq<Signed>, sub: seq<Signed>)
    requires DistinctHashes(env, txs) && Within(sub, txs)
    ensures Filter(env, txs, Hashes(env, sub)) == sub
    decreases |txs|
  {
    if txs != [] {
      var tx, rest := txs[0], txs[1..];
      if sub != [] && sub[0] == tx && Within(sub[1..], rest) {
        FilterWithin(env, rest, sub[1..]);
        assert Hashes(env, sub) == Hashes(env, sub[1..]) + {OpHash(env, tx)} by { assert sub == [tx] + sub[1..]; }
        FilterWithout(env, rest, Hashes(env, sub[1..]), OpHash(env, tx));
        assert sub == [tx] + sub[1..];
      } else {
        FilterWithin(env, rest, sub);
        forall s | s in sub ensures OpHash(env, s) != OpHash(env, tx) {
          WithinMember(sub, rest, s);
          var j :| 0 <= j < |rest| && rest[j] == s;
          assert txs[j + 1] == s;
        }
      }
    }
  }

  /** A hash none of the batch has changes nothing. */
  lemma {:induction false} FilterWithout(env: Env, txs: seq<Signed>, keep: set<Bytes>, extra: Bytes)
    requires forall i :: 0 <= i < |txs| ==> OpHash(env, txs[i]) != extra
    ensures Filter(env, txs, keep + {extra}) == Filter(env, txs, keep)
  {
    if txs != [] { FilterWithout(env, txs[1..], keep, extra); }
  }

  lemma {:induction false} FirstIsIn(isolated: (Live, Bytes) -> bool, live: Live, txs: seq<Signed>)
    requires FirstIsolated(isolated, live, txs).Some?
    ensures FirstIsolated(isolated, live, txs).value in txs
  {
    if !isolated(live, txs[0].author) { FirstIsIn(isolated, live, txs[1..]); }
  }

  lemma {:induction false} OneWithin(txs: seq<Signed>, tx: Signed)
    requires tx in txs
    ensures Within([tx], txs)
  {
    if txs[0] == tx {
      assert [tx][1..] == [];
    } else {
      OneWithin(txs[1..], tx);
    }
  }

  /** The slice a node signs is kept whole when it promotes it on the same rows, unless the screen
      cut it down to one transaction of an isolated author that does not apply on its own. */
  lemma ScreenedPromotes(env: Env, isolated: (Live, Bytes) -> bool, live: Live, settled: set<Bytes>,
      candidate: seq<Signed>)
    requires DistinctHashes(env, candidate) && LetThrough(env, isolated, live, settled, candidate).Some?
    ensures var survivors := Screen(env, live, {}, Fresh(env, settled, candidate)).keep;
            var slice := Filter(env, candidate, LetThrough(env, isolated, live, settled, candidate).value);
            var again := Screen(env, live, {}, slice);
            match FirstIsolated(isolated, live, survivors)
            case None =>
              slice == survivors && again ==
                Settle.Screened(Screen(env, live, {}, Fresh(env, settled, candidate)).live, slice, [])
            case Some(tx) =>
              slice == [tx] && (again.Screened? && again.drop == [] <==> Evaluate(env, live, tx).Pass?) &&
              (again.Screened? ==> again.live == After(env, live, tx)) &&
              (again.Crashed? <==> Evaluate(env, live, tx) == Fail(Raised))
  {
    var unsettled := Fresh(env, settled, candidate);
    var survivors := Screen(env, live, {}, unsettled).keep;
    KeptWithin(env, live, {}, unsettled);
    FreshWithin(env, settled, candidate, survivors);
    match FirstIsolated(isolated, live, survivors) {
      case None =>
        FilterWithin(env, candidate, survivors);
        SurvivorsSurvive(env, live, {}, unsettled);
      case Some(tx) =>
        FirstIsIn(isolated, live, survivors);
        WithinMember(survivors, candidate, tx);
        OneWithin(candidate, tx);
        FilterWithin(env, candidate, [tx]);
        assert Hashes(env, [tx]) == {OpHash(env, tx)};
        ScreenOne(env, live, tx);
    }
  }

  lemma ScreenOne(env: Env, live: Live, tx: Signed)
    ensures var again := Screen(env, live, {}, [tx]);
            (again.Screened? && again.drop == [] <==> Evaluate(env, live, tx).Pass?) &&
            (again.Screened? ==> again.live == After(env, live, tx)) &&
            (again.Crashed? <==> Evaluate(env, live, tx) == Fail(Raised))
  {
    assert [tx][1..] == [];
  }

  const NEEDED := Set(STORE_MANAGEMENT, [7], [], EPOCH_NONE)
  const NEEDING := Set(STORE_MANAGEMENT, [8], [], EPOCH_NONE)

  /** Such a slice exists: an isolated author's transaction that needs a management row an earlier
      one writes survives the screen, is signed alone, and is refused at promotion. */
  lemma IsolatedCanBeRefused(env: Env, a: Signed, b: Signed, isolated: (Live, Bytes) -> bool, live: Live,
                             settled: set<Bytes>)
    requires env.verified(a) && env.verified(b) && OpHash(env, a) != OpHash(env, b)
    requires OpHash(env, a) !in settled && OpHash(env, b) !in settled
    requires a.steps == [Step([], NEEDED, false)]
    requires b.steps == [Step([Exists(STORE_MANAGEMENT, [7])], NEEDING, false)]
    requires env.mayWrite(live, a.author, STORE_MANAGEMENT)
    requires env.mayWrite(ApplyOne(live, NEEDED, env.raw(a)), b.author, STORE_MANAGEMENT)
    requires !isolated(live, a.author) && isolated(live, b.author) && NEEDED.Target() !in live
    ensures LetThrough(env, isolated, live, settled, [a, b]) == Some({OpHash(env, b)})
    ensures Filter(env, [a, b], {OpHash(env, b)}) == [b]
    ensures Screen(env, live, {}, [b]).Screened? && Screen(env, live, {}, [b]).drop != []
  {
    BothSurvive(env, a, b, live);
    FreshIsAll(env, settled, [a, b]);
    assert [a, b][1..] == [b] && [b][1..] == [];
    assert FirstIsolated(isolated, live, [a, b]) == FirstIsolated(isolated, live, [b]) == Some(b);
    assert Filter(env, [a, b], {OpHash(env, b)}) == Filter(env, [b], {OpHash(env, b)}) ==
           [b] + Filter(env, [], {OpHash(env, b)});
    assert GuardsHold(env, live, b.steps[0].guards) ==> HoldsIn(env, live, b.steps[0].guards[0]);
    assert Evaluate(env, live, b).Fail? && Evaluate(env, live, b).verdict.Rejected?;
  }

  lemma BothSurvive(env: Env, a: Signed, b: Signed, live: Live)
    requires env.verified(a) && env.verified(b) && OpHash(env, a) != OpHash(env, b)
    requires a.steps == [Step([], NEEDED, false)]
    requires b.steps == [Step([Exists(STORE_MANAGEMENT, [7])], NEEDING, false)]
    requires env.mayWrite(live, a.author, STORE_MANAGEMENT)
    requires env.mayWrite(ApplyOne(live, NEEDED, env.raw(a)), b.author, STORE_MANAGEMENT)
    ensures Screen(env, live, {}, [a, b]).Screened? && Screen(env, live, {}, [a, b]).keep == [a, b]
  {
    var next, seen := ApplyOne(live, NEEDED, env.raw(a)), {OpHash(env, a)};
    PlainPasses(env, live, a, NEEDED);
    GuardedPasses(env, next, b);
    ScreenPass(env, next, seen, b, [NEEDING]);
    assert [a, b][1..] == [b] && {} + seen == seen;
    assert Screen(env, live, {}, [a, b]) == Keeping(a, Screen(env, next, seen, [b]));
  }

  lemma ScreenPass(env: Env, live: Live, seen: set<Bytes>, tx: Signed, ms: seq<Mutation>)
    requires OpHash(env, tx) !in seen && Evaluate(env, live, tx) == Pass(ms)
    ensures Screen(env, live, seen, [tx]) == Settle.Screened(ApplyAll(live, ms, env.raw(tx)), [tx], [])
  {
    assert [tx][1..] == [] && [tx] + [] == [tx];
  }

  /** A management row that is no epoch counter, written without guards, passes whatever its epoch. */
  lemma PlainPasses(env: Env, live: Live, a: Signed, m: Mutation)
    requires env.verified(a) && env.mayWrite(live, a.author, STORE_MANAGEMENT)
    requires m.Set? && m.store == STORE_MANAGEMENT && |m.name| == 1 && a.steps == [Step([], m, false)]
    ensures Evaluate(env, live, a) == Pass([m]) && After(env, live, a) == ApplyOne(live, m, env.raw(a))
    ensures ApplyAll(live, [m], env.raw(a)) == ApplyOne(live, m, env.raw(a))
  {
    assert [m][1..] == [];
    assert EvaluateFrom(env, ApplyOne(live, m, env.raw(a)), a, 1) == Pass([]);
    assert [m] + [] == [m];
    assert ApplyAll(live, [m], env.raw(a)) == ApplyOne(live, m, env.raw(a));
  }

  lemma GuardedPasses(env: Env, live: Live, b: Signed)
    requires env.verified(b) && env.mayWrite(live, b.author, STORE_MANAGEMENT) && NEEDED.Target() in live
    requires b.steps == [Step([Exists(STORE_MANAGEMENT, [7])], NEEDING, false)]
    ensures Evaluate(env, live, b) == Pass([NEEDING])
  {
    assert EvaluateFrom(env, ApplyOne(live, NEEDING, env.raw(b)), b, 1) == Pass([]);
    assert [NEEDING] + [] == [NEEDING];
  }
}
