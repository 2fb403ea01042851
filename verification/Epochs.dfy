/** Key epochs over whole runs of settled transactions: the rules `_data_row_shape` and
    `_epoch_step` of dude/store/settle.py enforce, and what they add up to. */
module Epochs {
  import opened Bytes
  import opened Codec
  import opened Ops
  import opened Views
  import opened Settle
  import opened LayerRoot
  import opened Smt

  // ----------------------------------------------------------------- names of epoch rows

  function Pow256(n: nat): nat { if n == 0 then 1 else 256 * Pow256(n - 1) }

  lemma {:induction false} BigEndianRoundTrip(n: nat, width: nat)
    requires n < Pow256(width)
    ensures FromBigEndian(BigEndian(n, width)) == n
  {
    if width > 0 {
      BigEndianRoundTrip(n / 256, width - 1);
      var b := BigEndian(n, width);
      assert b[..|b| - 1] == BigEndian(n / 256, width - 1);
    }
  }

  lemma {:induction false} FromBigEndianRoundTrip(b: Bytes)
    ensures FromBigEndian(b) < Pow256(|b|)
    ensures BigEndian(FromBigEndian(b), |b|) == b
  {
    if b != [] {
      var init := b[..|b| - 1];
      FromBigEndianRoundTrip(init);
      var n, last := FromBigEndian(b), b[|b| - 1];
      assert n / 256 == FromBigEndian(init) && n % 256 == last;
      assert b == init + [last];
    }
  }

  lemma LimitIsPower()
    ensures Pow256(8) == STORE_LIMIT
  {
    assert Pow256(4) == 0x1_0000_0000;
    assert Pow256(5) == 256 * Pow256(4) && Pow256(6) == 256 * Pow256(5);
    assert Pow256(7) == 256 * Pow256(6) && Pow256(8) == 256 * Pow256(7);
  }

  /** `epoch_target` recognises exactly the names `epoch_key` makes. */
  lemma EpochNames(store: nat, name: Bytes)
    requires store < STORE_LIMIT
    ensures EpochTarget(name) == Some(store) <==> Key(STORE_MANAGEMENT, name) == EpochKey(store)
    ensures EpochTarget(name).Some? ==> EpochTarget(name).value < STORE_LIMIT
  {
    LimitIsPower();
    var key := EpochKey(store).name;
    BigEndianRoundTrip(store, 8);
    assert key[..6] == P_EPOCH && key[6..] == BigEndian(store, 8);
    if EpochTarget(name).Some? {
      FromBigEndianRoundTrip(name[6..]);
      assert name == name[..6] + name[6..];
    }
  }

  // ------------------------------------------------------------------------ the invariant

  /** How many writes to the store's epoch row a log of applied mutations holds. */
  function Writes(log: seq<Mutation>, store: nat): nat {
    if log == [] then 0 else
      Writes(log[..|log| - 1], store) +
      (if log[|log| - 1].Set? && log[|log| - 1].Target() == EpochKey(store) then 1 else 0)
  }

  ghost predicate CountersRight(live: Live, log: seq<Mutation>) {
    forall s: nat :: s < STORE_LIMIT ==> CurrentEpoch(live, s) == Some(Writes(log, s))
  }

  ghost predicate RowSafe(k: Key, epoch: int, log: seq<Mutation>) {
    k.store == STORE_MANAGEMENT || epoch == EPOCH_NONE ||
    (0 <= k.store < STORE_LIMIT && |k.name| == DIGEST_SIZE && 1 <= epoch <= Writes(log, k.store))
  }

  ghost predicate RowsSafe(live: Live, log: seq<Mutation>) {
    forall k :: k in live ==> RowSafe(k, live[k].epoch, log)
  }

  /** Each counter is the number of writes to it, and every data row is plaintext or under an
      epoch its store has reached. */
  ghost predicate EpochSafe(live: Live, log: seq<Mutation>) {
    CountersRight(live, log) && RowsSafe(live, log)
  }

  lemma WritesSnoc(log: seq<Mutation>, m: Mutation, store: nat)
    ensures Writes(log + [m], store) == Writes(log, store) + (if m.Set? && m.Target() == EpochKey(store) then 1 else 0)
  {
    assert (log + [m])[..|log|] == log;
  }

  /** An accepted mutation moves a counter by the one write it makes, or not at all. */
  lemma CounterStep(live: Live, log: seq<Mutation>, m: Mutation, cred: Bytes, s: nat)
    requires s < STORE_LIMIT && CountersRight(live, log) && DataRowShape(live, m) == Fine
    ensures CurrentEpoch(ApplyOne(live, m, cred), s) == Some(Writes(log + [m], s))
  {
    WritesSnoc(log, m, s);
    EpochNames(s, m.name);
    if m.Target() == EpochKey(s) {
      assert m.store == STORE_MANAGEMENT && EpochTarget(m.name) == Some(s);
      assert CurrentEpoch(live, s) == Some(Writes(log, s));
    }
  }

  lemma RowStep(live: Live, log: seq<Mutation>, m: Mutation)
    requires CountersRight(live, log) && DataRowShape(live, m) == Fine && m.Set?
    ensures RowSafe(m.Target(), m.epoch, log + [m])
  {
    if m.store != STORE_MANAGEMENT && m.epoch != EPOCH_NONE {
      assert CurrentEpoch(live, m.store) == Some(Writes(log, m.store));
      WritesSnoc(log, m, m.store);
    }
  }

  lemma StepKeepsSafe(live: Live, log: seq<Mutation>, m: Mutation, cred: Bytes)
    requires EpochSafe(live, log) && DataRowShape(live, m) == Fine
    ensures EpochSafe(ApplyOne(live, m, cred), log + [m])
  {
    var next := ApplyOne(live, m, cred);
    forall s: nat | s < STORE_LIMIT ensures CurrentEpoch(next, s) == Some(Writes(log + [m], s)) {
      CounterStep(live, log, m, cred, s);
    }
    if m.Set? { RowStep(live, log, m); }
    forall k | k in next ensures RowSafe(k, next[k].epoch, log + [m]) {
      if k in live && next[k] == live[k] && k.store >= 0 { WritesSnoc(log, m, k.store); }
    }
  }

  /** On a safe view the shape check never raises for a store id an epoch row can name. */
  lemma ShapeNeverRaises(live: Live, log: seq<Mutation>, m: Mutation)
    requires EpochSafe(live, log) && 0 <= m.store < STORE_LIMIT
    ensures !DataRowShape(live, m).Raises?
  {
    assert CurrentEpoch(live, m.store).Some?;
    if EpochTarget(m.name).Some? { TargetReadable(live, log, m.name); }
  }

  lemma TargetReadable(live: Live, log: seq<Mutation>, name: Bytes)
    requires CountersRight(live, log) && EpochTarget(name).Some?
    ensures CurrentEpoch(live, EpochTarget(name).value).Some?
  {
    EpochNames(0, name);
    var target := EpochTarget(name).value;
    assert CurrentEpoch(live, target) == Some(Writes(log, target));
  }

  // --------------------------------------------------------------------------- whole runs

  lemma {:induction false} EvaluateKeepsSafe(env: Env, live: Live, log: seq<Mutation>, tx: Signed, i: nat)
    requires i <= |tx.steps| && EpochSafe(live, log)
    ensures EvaluateFrom(env, live, tx, i).Pass? ==>
              var ms := EvaluateFrom(env, live, tx, i).mutations;
              EpochSafe(ApplyAll(live, ms, env.raw(tx)), log + ms)
    ensures EvaluateFrom(env, live, tx, i) == Fail(Raised) ==>
              exists j :: i <= j < |tx.steps| && !(0 <= tx.steps[j].mutation.store < STORE_LIMIT)
    decreases |tx.steps| - i
  {
    if i == |tx.steps| {
      assert log + [] == log;
    } else {
      var m := tx.steps[i].mutation;
      if 0 <= m.store < STORE_LIMIT { ShapeNeverRaises(live, log, m); }
      EvaluateKeepsSafe(env, live, log, tx, i + 1);
      if env.mayWrite(live, tx.author, m.store) && DataRowShape(live, m) == Fine &&
        GuardsHold(env, live, tx.steps[i].guards) {
        var next := ApplyOne(live, m, env.raw(tx));
        StepKeepsSafe(live, log, m, env.raw(tx));
        EvaluateKeepsSafe(env, next, log + [m], tx, i + 1);
        var rest := EvaluateFrom(env, next, tx, i + 1);
        if rest.Pass? { assert log + ([m] + rest.mutations) == log + [m] + rest.mutations; }
      }
    }
  }

  /** The view and the applied mutations after a run of transactions from an empty store; a
      rejected one changes neither. */
  function Run(env: Env, txs: seq<Signed>): (Live, seq<Mutation>) {
    if txs == [] then (map[], []) else
      var (live, log) := Run(env, txs[..|txs| - 1]);
      match Evaluate(env, live, txs[|txs| - 1])
      case Pass(ms) => (ApplyAll(live, ms, env.raw(txs[|txs| - 1])), log + ms)
      case Fail(_) => (live, log)
  }

  /** In every state a run reaches, epochs are safe. */
  lemma {:induction false} RunIsSafe(env: Env, txs: seq<Signed>)
    ensures var (live, log) := Run(env, txs); EpochSafe(live, log)
  {
    if txs != [] {
      RunIsSafe(env, txs[..|txs| - 1]);
      var (live, log) := Run(env, txs[..|txs| - 1]);
      EvaluateKeepsSafe(env, live, log, txs[|txs| - 1], 0);
    }
  }

  // ------------------------------------------------------------------- epochs that fit

  ghost predicate ManagementFits(live: Live) {
    forall k :: k in live && k.store == STORE_MANAGEMENT ==> RowFits(live[k])
  }

  ghost predicate CountersFit(log: seq<Mutation>) { forall s: nat :: s < STORE_LIMIT ==> Writes(log, s) < EPOCH_LIMIT }

  lemma {:induction false} WritesAtMost(log: seq<Mutation>, store: nat)
    ensures Writes(log, store) <= |log|
  {
    if log != [] { WritesAtMost(log[..|log| - 1], store); }
  }

  /** Data rows fit while the counters do, as they must for the first 2^64 - 1 mutations; so the
      rows of a run can be hashed exactly when the management rows among them can. */
  lemma RunFits(env: Env, txs: seq<Signed>)
    ensures var (live, log) := Run(env, txs);
            (CountersFit(log) ==> (Fits(live) <==> ManagementFits(live))) &&
            (|log| < EPOCH_LIMIT ==> CountersFit(log))
  {
    RunIsSafe(env, txs);
    var (live, log) := Run(env, txs);
    if CountersFit(log) && ManagementFits(live) {
      forall k | k in live ensures RowFits(live[k]) { assert RowSafe(k, live[k].epoch, log); }
    }
    forall s: nat ensures Writes(log, s) <= |log| { WritesAtMost(log, s); }
  }

  /** And that does fail: one transaction by whoever may write the management store. */
  lemma RunCanBeUnfit(env: Env, tx: Signed, epoch: int)
    requires env.verified(tx) && env.mayWrite(map[], tx.author, STORE_MANAGEMENT)
    requires tx.steps == [Step([], Set(STORE_MANAGEMENT, [7], [], epoch), false)]
    ensures Fits(Run(env, [tx]).0) <==> 0 <= epoch < EPOCH_LIMIT
  {
    var m, none: Live := Set(STORE_MANAGEMENT, [7], [], epoch), map[];
    assert [tx][..0] == [] && [m][1..] == [] && [m] + [] == [m];
    assert EvaluateFrom(env, ApplyOne(none, m, env.raw(tx)), tx, 1) == Pass([]);
    assert Evaluate(env, none, tx) == Pass([m]);
    assert Run(env, []) == (none, []) && ApplyAll(none, [m], env.raw(tx)) == ApplyOne(none, m, env.raw(tx));
    assert m.Target() in Run(env, [tx]).0;
  }

  lemma {:induction false} WritesGrow(log: seq<Mutation>, more: seq<Mutation>, store: nat)
    ensures Writes(log, store) <= Writes(log + more, store)
  {
    if more == [] {
      assert log + more == log;
    } else {
      var n := |more| - 1;
      WritesGrow(log, more[..n], store);
      WritesSnoc(log + more[..n], more[n], store);
      assert log + more == log + more[..n] + [more[n]];
    }
  }

  lemma EpochAfterOne(env: Env, txs: seq<Signed>, tx: Signed, store: nat)
    requires store < STORE_LIMIT
    ensures var before, after := CurrentEpoch(Run(env, txs).0, store), CurrentEpoch(Run(env, txs + [tx]).0, store);
            before.Some? && after.Some? && before.value <= after.value
  {
    RunIsSafe(env, txs);
    RunIsSafe(env, txs + [tx]);
    assert (txs + [tx])[..|txs|] == txs;
    var (live, log) := Run(env, txs);
    match Evaluate(env, live, tx) {
      case Pass(ms) => WritesGrow(log, ms, store);
      case Fail(_) =>
    }
  }

  /** A store's epoch never falls, whatever more is settled. */
  lemma {:induction false} EpochNeverFalls(env: Env, txs: seq<Signed>, more: seq<Signed>, store: nat)
    requires store < STORE_LIMIT
    ensures var before, after := CurrentEpoch(Run(env, txs).0, store), CurrentEpoch(Run(env, txs + more).0, store);
            before.Some? && after.Some? && before.value <= after.value
    decreases |more|
  {
    if more == [] {
      RunIsSafe(env, txs);
      assert txs + more == txs;
    } else {
      var n := |more| - 1;
      EpochNeverFalls(env, txs, more[..n], store);
      EpochAfterOne(env, txs + more[..n], more[n], store);
      assert txs + more == (txs + more[..n]) + [more[n]];
    }
  }
}
