/** What the verdicts of dude/store/settle.py mean, said without the evaluator: by the views a
    transaction's steps meet one after the other, and by the rows a mutation may write. */
module Evaluation {
  import opened Bytes
  import opened Ops
  import opened Views
  import opened Settle

  // -------------------------------------------------------------------------- a walk

  /** Step `i` is taken on view `v` and leaves `w`: its author may write the store, the row has a
      shape it may have, and either its guards hold and it is applied, or it is soft and skipped. */
  ghost predicate StepTaken(env: Env, tx: Signed, i: nat, v: Live, w: Live)
    requires i < |tx.steps|
  {
    var step := tx.steps[i];
    env.mayWrite(v, tx.author, step.mutation.store) && DataRowShape(v, step.mutation) == Fine &&
    (GuardsHold(env, v, step.guards) ==> w == ApplyOne(v, step.mutation, env.raw(tx))) &&
    (!GuardsHold(env, v, step.guards) ==> step.soft && w == v)
  }

  /** Step `i` fails on view `v`, for this reason. */
  ghost predicate StepFails(env: Env, tx: Signed, i: nat, v: Live, why: Verdict)
    requires i < |tx.steps|
  {
    var step := tx.steps[i];
    var may, shape := env.mayWrite(v, tx.author, step.mutation.store), DataRowShape(v, step.mutation);
    match why
    case Raised => may && shape == Raises
    case Rejected(reason, at) =>
      at == Some(i) &&
      ((reason == Authority && !may) ||
       (may && shape == Refused(reason)) ||
       (reason == Guard && may && shape == Fine && !GuardsHold(env, v, step.guards) && !step.soft))
  }

  /** The views steps `i`, `i + 1`, … meet, starting from `vs[0]`. */
  ghost predicate Walks(env: Env, tx: Signed, i: nat, vs: seq<Live>) {
    |vs| >= 1 && i + |vs| - 1 <= |tx.steps| &&
    forall k :: 0 <= k < |vs| - 1 ==> StepTaken(env, tx, i + k, vs[k], vs[k + 1])
  }

  /** The mutations applied on the way. */
  ghost function Taken(env: Env, tx: Signed, i: nat, vs: seq<Live>): seq<Mutation>
    requires Walks(env, tx, i, vs)
    decreases |vs|
  {
    if |vs| == 1 then [] else
      WalksOn(env, tx, i, vs);
      (if GuardsHold(env, vs[0], tx.steps[i].guards) then [tx.steps[i].mutation] else []) +
      Taken(env, tx, i + 1, vs[1..])
  }

  lemma WalksOn(env: Env, tx: Signed, i: nat, vs: seq<Live>)
    requires Walks(env, tx, i, vs) && |vs| > 1
    ensures StepTaken(env, tx, i, vs[0], vs[1]) && Walks(env, tx, i + 1, vs[1..])
  {
    assert StepTaken(env, tx, i + 0, vs[0], vs[0 + 1]);
    forall k | 0 <= k < |vs[1..]| - 1 ensures StepTaken(env, tx, i + 1 + k, vs[1..][k], vs[1..][k + 1]) {
      assert StepTaken(env, tx, i + (k + 1), vs[k + 1], vs[k + 1 + 1]);
    }
  }

  lemma WalksBack(env: Env, tx: Signed, i: nat, v: Live, rest: seq<Live>)
    requires i < |tx.steps| && Walks(env, tx, i + 1, rest) && StepTaken(env, tx, i, v, rest[0])
    ensures Walks(env, tx, i, [v] + rest) && ([v] + rest)[1..] == rest
  {
    var vs := [v] + rest;
    forall k | 0 <= k < |vs| - 1 ensures StepTaken(env, tx, i + k, vs[k], vs[k + 1]) {
      if k > 0 { assert StepTaken(env, tx, i + 1 + (k - 1), rest[k - 1], rest[k - 1 + 1]); }
    }
  }

  // ------------------------------------------------------------------------- passing

  ghost predicate PassesBy(env: Env, live: Live, tx: Signed, i: nat, vs: seq<Live>, ms: seq<Mutation>) {
    Walks(env, tx, i, vs) && vs[0] == live && i + |vs| - 1 == |tx.steps| && Taken(env, tx, i, vs) == ms
  }

  lemma {:induction false} WalkPasses(env: Env, live: Live, tx: Signed, i: nat, vs: seq<Live>, ms: seq<Mutation>)
    requires PassesBy(env, live, tx, i, vs, ms)
    ensures EvaluateFrom(env, live, tx, i) == Pass(ms) && ApplyAll(live, ms, env.raw(tx)) == vs[|vs| - 1]
    decreases |vs|
  {
    if |vs| > 1 {
      WalksOn(env, tx, i, vs);
      var rest := Taken(env, tx, i + 1, vs[1..]);
      WalkPasses(env, vs[1], tx, i + 1, vs[1..], rest);
      assert GuardsHold(env, live, tx.steps[i].guards) ==> ms[1..] == rest;
      assert !GuardsHold(env, live, tx.steps[i].guards) ==> ms == rest;
    }
  }

  lemma {:induction false} PassWalks(env: Env, live: Live, tx: Signed, i: nat) returns (vs: seq<Live>)
    requires i <= |tx.steps| && EvaluateFrom(env, live, tx, i).Pass?
    ensures PassesBy(env, live, tx, i, vs, EvaluateFrom(env, live, tx, i).mutations)
    decreases |tx.steps| - i
  {
    if i == |tx.steps| {
      vs := [live];
    } else {
      var step := tx.steps[i];
      var next := if GuardsHold(env, live, step.guards) then ApplyOne(live, step.mutation, env.raw(tx)) else live;
      var rest := PassWalks(env, next, tx, i + 1);
      WalksBack(env, tx, i, live, rest);
      vs := [live] + rest;
      TakenFirst(env, tx, i, live, rest);
    }
  }

  lemma TakenFirst(env: Env, tx: Signed, i: nat, v: Live, rest: seq<Live>)
    requires i < |tx.steps| && Walks(env, tx, i + 1, rest) && StepTaken(env, tx, i, v, rest[0])
    ensures Walks(env, tx, i, [v] + rest)
    ensures Taken(env, tx, i, [v] + rest) ==
            (if GuardsHold(env, v, tx.steps[i].guards) then [tx.steps[i].mutation] else []) +
            Taken(env, tx, i + 1, rest)
  {
    WalksBack(env, tx, i, v, rest);
  }

  /** A transaction passes exactly when it is signed and its steps can be taken one after the other
      from the view it meets; its mutations are those of the steps that were applied. */
  lemma PassExactly(env: Env, live: Live, tx: Signed, ms: seq<Mutation>)
    ensures Evaluate(env, live, tx) == Pass(ms) <==>
            env.verified(tx) && exists vs :: PassesBy(env, live, tx, 0, vs, ms)
  {
    if Evaluate(env, live, tx) == Pass(ms) { var vs := PassWalks(env, live, tx, 0); }
    if env.verified(tx) {
      if vs :| PassesBy(env, live, tx, 0, vs, ms) { WalkPasses(env, live, tx, 0, vs, ms); }
    }
  }

  /** And what it leaves is the last of those views. */
  lemma PassLeaves(env: Env, live: Live, tx: Signed, vs: seq<Live>, ms: seq<Mutation>)
    requires env.verified(tx) && PassesBy(env, live, tx, 0, vs, ms)
    ensures After(env, live, tx) == vs[|vs| - 1]
  {
    WalkPasses(env, live, tx, 0, vs, ms);
  }

  // ------------------------------------------------------------------------- failing

  /** The steps before the last view are taken, and the next one fails. */
  ghost predicate FailsBy(env: Env, live: Live, tx: Signed, i: nat, vs: seq<Live>, why: Verdict) {
    Walks(env, tx, i, vs) && vs[0] == live && i + |vs| - 1 < |tx.steps| &&
    StepFails(env, tx, i + |vs| - 1, vs[|vs| - 1], why)
  }

  lemma {:induction false} WalkFails(env: Env, live: Live, tx: Signed, i: nat, vs: seq<Live>, why: Verdict)
    requires FailsBy(env, live, tx, i, vs, why)
    ensures EvaluateFrom(env, live, tx, i) == Fail(why)
    decreases |vs|
  {
    if |vs| > 1 {
      WalksOn(env, tx, i, vs);
      WalkFails(env, vs[1], tx, i + 1, vs[1..], why);
    }
  }

  lemma {:induction false} FailWalks(env: Env, live: Live, tx: Signed, i: nat) returns (vs: seq<Live>)
    requires i <= |tx.steps| && EvaluateFrom(env, live, tx, i).Fail?
    ensures FailsBy(env, live, tx, i, vs, EvaluateFrom(env, live, tx, i).verdict)
    decreases |tx.steps| - i
  {
    var step, why := tx.steps[i], EvaluateFrom(env, live, tx, i).verdict;
    var holds := GuardsHold(env, live, step.guards);
    if env.mayWrite(live, tx.author, step.mutation.store) && DataRowShape(live, step.mutation) == Fine &&
      (holds || step.soft) {
      var next := if holds then ApplyOne(live, step.mutation, env.raw(tx)) else live;
      var rest := FailWalks(env, next, tx, i + 1);
      WalksBack(env, tx, i, live, rest);
      vs := [live] + rest;
    } else {
      vs := [live];
    }
  }

  /** It fails exactly when it is not signed, or at the first step that cannot be taken, for the
      reason that step cannot be. */
  lemma FailExactly(env: Env, live: Live, tx: Signed, why: Verdict)
    ensures Evaluate(env, live, tx) == Fail(why) <==>
            if env.verified(tx) then exists vs :: FailsBy(env, live, tx, 0, vs, why)
            else why == Rejected(Signature, None)
  {
    if env.verified(tx) {
      if Evaluate(env, live, tx) == Fail(why) { var vs := FailWalks(env, live, tx, 0); }
      if vs :| FailsBy(env, live, tx, 0, vs, why) { WalkFails(env, live, tx, 0, vs, why); }
    }
  }

  // -------------------------------------------------------------------------- shapes

  /** What a mutation's row may be. Names have at most 128 bytes. An epoch counter only ever goes up
      by one and is never deleted; other management rows are free. A data row is plaintext, or it has
      a 32-byte name and the store's current epoch or the one before, but not zero. */
  lemma ShapeExactly(live: Live, m: Mutation)
    ensures DataRowShape(live, m) == Fine <==>
            |m.name| <= 128 &&
            (m.store == 0 && EpochTarget(m.name).Some? ==>
               m.Set? && CurrentEpoch(live, EpochTarget(m.name).value).Some? &&
               AsInt(m.value) == Some(CurrentEpoch(live, EpochTarget(m.name).value).value + 1)) &&
            (m.store != 0 && m.Set? && m.epoch != 0 ==>
               |m.name| == 32 && CurrentEpoch(live, m.store).Some? &&
               (m.epoch == CurrentEpoch(live, m.store).value ||
                (m.epoch == CurrentEpoch(live, m.store).value - 1 && m.epoch >= 1)))
  {
  }

  /** And which of these it breaks when it is refused, or where reading a counter raises. */
  lemma RefusalExactly(live: Live, m: Mutation)
    ensures var shape := DataRowShape(live, m);
            var counter := m.store == 0 && EpochTarget(m.name).Some?;
            var keyed := m.store != 0 && m.Set? && m.epoch != 0;
            (shape == Refused(NameShape) <==> |m.name| > 128 || (keyed && |m.name| != 32)) &&
            (shape == Raises <==>
               (counter && m.Set? && AsInt(m.value).Some? && CurrentEpoch(live, EpochTarget(m.name).value).None?) ||
               (keyed && |m.name| == 32 && CurrentEpoch(live, m.store).None?)) &&
            (shape.Refused? && shape != Refused(NameShape) ==>
               shape == Refused(if counter then EpochJump else Epoch))
  {
  }

  lemma ZeroBytes(n: nat)
    requires n <= 6
    ensures BigEndian(0, n) == [0, 0, 0, 0, 0, 0][..n]
  {
    if n > 0 { ZeroBytes(n - 1); }
  }

  /** The name of store 258's counter: "epoch/" and the id in eight bytes. */
  lemma CounterName()
    ensures EpochKey(258) == Key(0, [101, 112, 111, 99, 104, 47, 0, 0, 0, 0, 0, 0, 1, 2])
  {
    ZeroBytes(6);
    assert BigEndian(1, 7) == BigEndian(0, 6) + [1];
    assert BigEndian(258, 8) == BigEndian(1, 7) + [2];
  }

  // -------------------------------------------------------------------------- guards

  /** How the four guards relate: a row exists or is absent; one digest of several holds exactly when
      it is the row's; and what a list of digests allows is what its parts allow. */
  lemma GuardLaws(env: Env, live: Live, store: int, name: Bytes, a: seq<Bytes>, b: seq<Bytes>, d: Bytes)
    ensures HoldsIn(env, live, Absent(store, name)) <==> Key(store, name) !in live
    ensures HoldsIn(env, live, Exists(store, name)) <==> !HoldsIn(env, live, Absent(store, name))
    ensures HoldsIn(env, live, Holds(store, name, d)) <==> HoldsIn(env, live, HoldsAny(store, name, [d]))
    ensures HoldsIn(env, live, HoldsAny(store, name, a + b)) <==>
            HoldsIn(env, live, HoldsAny(store, name, a)) || HoldsIn(env, live, HoldsAny(store, name, b))
    ensures !HoldsIn(env, live, HoldsAny(store, name, []))
    ensures HoldsIn(env, live, Holds(store, name, d)) <==>
            Key(store, name) in live && env.h(live[Key(store, name)].value) == d
  {
  }

  // ------------------------------------------------------------------------- batches

  ghost function KeptHashes(env: Env, keep: seq<Signed>): set<Bytes> { set tx | tx in keep :: OpHash(env, tx) }

  /** What becomes of one more transaction, given what became of the batch before it: dropped if its
      hash was seen or kept before, otherwise as the evaluator says on the view left so far. */
  ghost function OneMore(env: Env, seen: set<Bytes>, s: Screening, tx: Signed): Screening {
    if s.Crashed? then Crashed
    else if OpHash(env, tx) in seen + KeptHashes(env, s.keep) then
      Screened(s.live, s.keep, s.drop + [(tx, Rejected(Settled, None))])
    else
      match Evaluate(env, s.live, tx)
      case Pass(_) => Screened(After(env, s.live, tx), s.keep + [tx], s.drop)
      case Fail(Raised) => Crashed
      case Fail(v) => Screened(s.live, s.keep, s.drop + [(tx, v)])
  }

  lemma OneMoreKept(env: Env, seen: set<Bytes>, s: Screening, tx: Signed, first: Signed)
    ensures OneMore(env, seen, Keeping(first, s), tx) ==
            Keeping(first, OneMore(env, seen + {OpHash(env, first)}, s, tx))
  {
    if s.Screened? {
      assert KeptHashes(env, [first] + s.keep) == {OpHash(env, first)} + KeptHashes(env, s.keep);
      assert [first] + (s.keep + [tx]) == [first] + s.keep + [tx];
    }
  }

  lemma OneMoreDropped(env: Env, seen: set<Bytes>, s: Screening, tx: Signed, first: Signed, v: Verdict)
    ensures OneMore(env, seen, Dropping(first, v, s), tx) == Dropping(first, v, OneMore(env, seen, s, tx))
  {
    if s.Screened? {
      assert forall w :: [(first, v)] + (s.drop + [(tx, w)]) == [(first, v)] + s.drop + [(tx, w)];
    }
  }

  /** Screening a batch is screening it one by one. */
  lemma {:induction false} ScreenOneMore(env: Env, live: Live, seen: set<Bytes>, batch: seq<Signed>, tx: Signed)
    ensures Screen(env, live, seen, []) == Screened(live, [], [])
    ensures Screen(env, live, seen, batch + [tx]) == OneMore(env, seen, Screen(env, live, seen, batch), tx)
    decreases |batch|
  {
    if batch == [] {
      assert [] + [tx] == [tx] && [tx][1..] == [] && [tx] + [] == [tx];
    } else {
      var first, rest := batch[0], batch[1..];
      assert (batch + [tx])[0] == first && (batch + [tx])[1..] == rest + [tx];
      var hash := OpHash(env, first);
      if hash in seen {
        ScreenOneMore(env, live, seen, rest, tx);
        OneMoreDropped(env, seen, Screen(env, live, seen, rest), tx, first, Rejected(Settled, None));
      } else if Evaluate(env, live, first).Pass? {
        var next := ApplyAll(live, Evaluate(env, live, first).mutations, env.raw(first));
        ScreenOneMore(env, next, seen + {hash}, rest, tx);
        OneMoreKept(env, seen, Screen(env, next, seen + {hash}, rest), tx, first);
      } else if Evaluate(env, live, first).verdict.Rejected? {
        ScreenOneMore(env, live, seen, rest, tx);
        OneMoreDropped(env, seen, Screen(env, live, seen, rest), tx, first, Evaluate(env, live, first).verdict);
      }
    }
  }
}
