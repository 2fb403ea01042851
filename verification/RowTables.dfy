/** Structures kept in plaintext rows: a table of rows under names of its own, and the guarded steps
    that change it. A settled transaction made of such steps is a run of them with every guard met,
    whatever state it was composed on. */
module RowTables {
  import opened Bytes
  import opened Ops
  import opened Views
  import opened Settle
  import Slice

  /** How rows are named, which row ids are used, and which names are the structure's own. */
  datatype Layout<!R> = Layout(store: int, name: R -> Bytes, ok: R -> bool, mine: Bytes -> bool)

  ghost predicate Proper<R(!new)>(l: Layout<R>) {
    (forall r :: l.ok(r) ==> l.mine(l.name(r))) &&
    (forall r, s :: l.ok(r) && l.ok(s) && l.name(r) == l.name(s) ==> r == s)
  }

  function KeyOf<R>(l: Layout<R>, r: R): Key { Key(l.store, l.name(r)) }

  datatype Guard = NoGuard | Holding(value: Bytes) | Missing

  datatype RowStep<R> = Put(row: R, guard: Guard, value: Bytes) | Delete(row: R, guard: Guard)

  function GuardsOf<R>(h: Bytes -> Bytes, l: Layout<R>, s: RowStep<R>): seq<Predicate> {
    match s.guard
    case NoGuard => []
    case Holding(v) => [Holds(l.store, l.name(s.row), h(v))]
    case Missing => [Absent(l.store, l.name(s.row))]
  }

  function MutationOf<R>(l: Layout<R>, s: RowStep<R>): Mutation {
    if s.Put? then Set(l.store, l.name(s.row), s.value, EPOCH_NONE) else Del(l.store, l.name(s.row))
  }

  function StepOf<R>(h: Bytes -> Bytes, l: Layout<R>, s: RowStep<R>): Step {
    Step(GuardsOf(h, l, s), MutationOf(l, s), false)
  }

  function StepsOf<R>(h: Bytes -> Bytes, l: Layout<R>, ss: seq<RowStep<R>>): seq<Step> {
    seq(|ss|, i requires 0 <= i < |ss| => StepOf(h, l, ss[i]))
  }

  // ------------------------------------------------------------------------- tables

  /** The live rows under the structure's names are exactly those of `t`. */
  ghost predicate Shows<R(!new)>(l: Layout<R>, live: Live, t: map<R, Bytes>) {
    (forall r :: r in t ==> l.ok(r)) &&
    (forall r :: l.ok(r) ==> RowShown(l, live, t, r)) &&
    (forall k :: k in live && k.store == l.store && l.mine(k.name) ==> exists r :: l.ok(r) && k == KeyOf(l, r))
  }

  predicate RowShown<R(==)>(l: Layout<R>, live: Live, t: map<R, Bytes>, r: R) {
    var k := KeyOf(l, r);
    if r in t then k in live && live[k].value == t[r] && live[k].epoch == EPOCH_NONE else k !in live
  }

  predicate RowAs<R(==)>(t: map<R, Bytes>, r: R, v: Option<Bytes>) {
    if v.Some? then r in t && t[r] == v.value else r !in t
  }

  predicate GuardMet<R(==)>(t: map<R, Bytes>, s: RowStep<R>) {
    match s.guard
    case NoGuard => true
    case Holding(v) => s.row in t && t[s.row] == v
    case Missing => s.row !in t
  }

  function Write<R(==)>(t: map<R, Bytes>, s: RowStep<R>): map<R, Bytes> {
    if s.Put? then t[s.row := s.value] else t - {s.row}
  }

  /** The steps in order, if every guard is met. */
  function RunRows<R(==)>(t: map<R, Bytes>, ss: seq<RowStep<R>>): Option<map<R, Bytes>>
    decreases |ss|
  {
    if ss == [] then Some(t)
    else if !GuardMet(t, ss[0]) then None
    else RunRows(Write(t, ss[0]), ss[1..])
  }

  ghost predicate RowsOk<R>(l: Layout<R>, ss: seq<RowStep<R>>) { forall i :: 0 <= i < |ss| ==> l.ok(ss[i].row) }

  lemma RunOne<R>(t: map<R, Bytes>, s: RowStep<R>)
    ensures RunRows(t, [s]) == if GuardMet(t, s) then Some(Write(t, s)) else None
  {
    assert [s][1..] == [];
  }

  lemma RunTwo<R>(t: map<R, Bytes>, a: RowStep<R>, b: RowStep<R>)
    requires RunRows(t, [a, b]).Some?
    ensures GuardMet(t, a) && GuardMet(Write(t, a), b) && RunRows(t, [a, b]).value == Write(Write(t, a), b)
  {
    assert [a, b][1..] == [b];
    RunOne(Write(t, a), b);
  }

  lemma RunThree<R>(t: map<R, Bytes>, a: RowStep<R>, b: RowStep<R>, c: RowStep<R>)
    requires RunRows(t, [a, b, c]).Some?
    ensures GuardMet(t, a) && GuardMet(Write(t, a), b) && GuardMet(Write(Write(t, a), b), c)
    ensures RunRows(t, [a, b, c]).value == Write(Write(Write(t, a), b), c)
  {
    assert [a, b, c][1..] == [b, c];
    RunTwo(Write(t, a), b, c);
  }

  lemma {:induction false} RunAppend<R>(t: map<R, Bytes>, a: seq<RowStep<R>>, b: seq<RowStep<R>>)
    requires RunRows(t, a + b).Some?
    ensures RunRows(t, a).Some? && RunRows(RunRows(t, a).value, b) == RunRows(t, a + b)
    decreases |a|
  {
    if a == [] {
      assert a + b == b;
    } else {
      assert (a + b)[1..] == a[1..] + b;
      RunAppend(Write(t, a[0]), a[1..], b);
    }
  }

  // ------------------------------------------------------------- settled transactions

  lemma WriteShows<R(!new)>(l: Layout<R>, live: Live, t: map<R, Bytes>, s: RowStep<R>, cred: Bytes)
    requires Proper(l) && Shows(l, live, t) && l.ok(s.row)
    ensures Shows(l, ApplyOne(live, MutationOf(l, s), cred), Write(t, s))
  {
    var k, after, u := KeyOf(l, s.row), ApplyOne(live, MutationOf(l, s), cred), Write(t, s);
    forall r | l.ok(r) ensures RowShown(l, after, u, r) {
      assert RowShown(l, live, t, r);
      assert KeyOf(l, r) == k ==> r == s.row;
    }
  }

  lemma GuardsMean<R(!new)>(env: Env, l: Layout<R>, live: Live, t: map<R, Bytes>, s: RowStep<R>)
    requires Slice.Injective(env.h) && Shows(l, live, t) && l.ok(s.row)
    ensures GuardsHold(env, live, GuardsOf(env.h, l, s)) <==> GuardMet(t, s)
  {
    var gs := GuardsOf(env.h, l, s);
    assert RowShown(l, live, t, s.row);
    if gs != [] { assert GuardsHold(env, live, gs) <==> HoldsIn(env, live, gs[0]); }
  }

  lemma PassStep(env: Env, live: Live, tx: Signed, i: nat)
    requires i < |tx.steps| && !tx.steps[i].soft && EvaluateFrom(env, live, tx, i).Pass?
    ensures GuardsHold(env, live, tx.steps[i].guards)
    ensures var m := tx.steps[i].mutation;
            var rest := EvaluateFrom(env, ApplyOne(live, m, env.raw(tx)), tx, i + 1);
            rest.Pass? && EvaluateFrom(env, live, tx, i).mutations == [m] + rest.mutations &&
            ApplyAll(live, EvaluateFrom(env, live, tx, i).mutations, env.raw(tx)) ==
            ApplyAll(ApplyOne(live, m, env.raw(tx)), rest.mutations, env.raw(tx))
  {
    var m := tx.steps[i].mutation;
    var rest := EvaluateFrom(env, ApplyOne(live, m, env.raw(tx)), tx, i + 1);
    assert ([m] + rest.mutations)[1..] == rest.mutations;
  }

  lemma {:induction false} PassRunsFrom<R(!new)>(env: Env, l: Layout<R>, live: Live, t: map<R, Bytes>, tx: Signed,
      ss: seq<RowStep<R>>, i: nat)
    requires Slice.Injective(env.h) && Proper(l) && Shows(l, live, t) && RowsOk(l, ss)
    requires tx.steps == StepsOf(env.h, l, ss) && i <= |ss| && EvaluateFrom(env, live, tx, i).Pass?
    ensures RunRows(t, ss[i..]).Some?
    ensures Shows(l, ApplyAll(live, EvaluateFrom(env, live, tx, i).mutations, env.raw(tx)), RunRows(t, ss[i..]).value)
    decreases |ss| - i
  {
    if i < |ss| {
      var s, step := ss[i], tx.steps[i];
      assert step == StepOf(env.h, l, s) && ss[i..][0] == s && ss[i..][1..] == ss[i + 1..];
      PassStep(env, live, tx, i);
      GuardsMean(env, l, live, t, s);
      WriteShows(l, live, t, s, env.raw(tx));
      PassRunsFrom(env, l, ApplyOne(live, step.mutation, env.raw(tx)), Write(t, s), tx, ss, i + 1);
    }
  }

  /** A transaction of the structure's own steps either settles, and then every guard was met and
      the table is what the steps make of it, or leaves the table alone. */
  lemma SettlesAsRun<R(!new)>(env: Env, l: Layout<R>, live: Live, t: map<R, Bytes>, tx: Signed, ss: seq<RowStep<R>>)
    requires Slice.Injective(env.h) && Proper(l) && Shows(l, live, t) && RowsOk(l, ss) &&
             tx.steps == StepsOf(env.h, l, ss)
    ensures if Evaluate(env, live, tx).Pass? then RunRows(t, ss).Some? &&
            Shows(l, After(env, live, tx), RunRows(t, ss).value)
            else Shows(l, After(env, live, tx), t)
  {
    assert ss[0..] == ss;
    if Evaluate(env, live, tx).Pass? { PassRunsFrom(env, l, live, t, tx, ss, 0); }
  }

  /** The author may write the view each step meets. */
  predicate MayWriteAll(env: Env, live: Live, tx: Signed, i: nat)
    requires i <= |tx.steps|
    decreases |tx.steps| - i
  {
    i == |tx.steps| ||
    (env.mayWrite(live, tx.author, tx.steps[i].mutation.store) &&
     MayWriteAll(env, ApplyOne(live, tx.steps[i].mutation, env.raw(tx)), tx, i + 1))
  }

  /** Names short enough, and none that of an epoch counter. */
  predicate NameFits<R>(l: Layout<R>, r: R) {
    |l.name(r)| <= MAX_NAME_BYTES && (l.store == STORE_MANAGEMENT ==> EpochTarget(l.name(r)).None?)
  }

  predicate NamesFit<R>(l: Layout<R>, ss: seq<RowStep<R>>) { forall i :: 0 <= i < |ss| ==> NameFits(l, ss[i].row) }

  lemma {:induction false} RunPassesFrom<R(!new)>(env: Env, l: Layout<R>, live: Live, t: map<R, Bytes>, tx: Signed,
      ss: seq<RowStep<R>>, i: nat)
    requires Slice.Injective(env.h) && Proper(l) && Shows(l, live, t) && RowsOk(l, ss) && NamesFit(l, ss)
    requires tx.steps == StepsOf(env.h, l, ss) && i <= |ss| && MayWriteAll(env, live, tx, i)
    requires RunRows(t, ss[i..]).Some?
    ensures EvaluateFrom(env, live, tx, i).Pass?
    decreases |ss| - i
  {
    if i < |ss| {
      var s, step := ss[i], tx.steps[i];
      assert step == StepOf(env.h, l, s) && ss[i..][0] == s && ss[i..][1..] == ss[i + 1..];
      GuardsMean(env, l, live, t, s);
      WriteShows(l, live, t, s, env.raw(tx));
      assert NameFits(l, s.row);
      assert DataRowShape(live, step.mutation) == Fine;
      RunPassesFrom(env, l, ApplyOne(live, step.mutation, env.raw(tx)), Write(t, s), tx, ss, i + 1);
    }
  }

  /** Signed by someone who may write it and under names that fit, such a transaction settles
      exactly when every guard is met. */
  lemma SettlesExactly<R(!new)>(env: Env, l: Layout<R>, live: Live, t: map<R, Bytes>, tx: Signed, ss: seq<RowStep<R>>)
    requires Slice.Injective(env.h) && Proper(l) && Shows(l, live, t) && RowsOk(l, ss) && NamesFit(l, ss)
    requires tx.steps == StepsOf(env.h, l, ss) && env.verified(tx) && MayWriteAll(env, live, tx, 0)
    ensures Evaluate(env, live, tx).Pass? <==> RunRows(t, ss).Some?
    ensures RunRows(t, ss).Some? ==> Shows(l, After(env, live, tx), RunRows(t, ss).value)
  {
    assert ss[0..] == ss;
    SettlesAsRun(env, l, live, t, tx, ss);
    if RunRows(t, ss).Some? { RunPassesFrom(env, l, live, t, tx, ss, 0); }
  }

  /** Live rows show one table. */
  lemma ShowsUnique<R(!new)>(l: Layout<R>, live: Live, t: map<R, Bytes>, u: map<R, Bytes>)
    requires Shows(l, live, t) && Shows(l, live, u)
    ensures t == u
  {
    forall r ensures (r in t <==> r in u) && (r in t ==> t[r] == u[r]) {
      if l.ok(r) { assert RowShown(l, live, t, r) && RowShown(l, live, u, r); }
    }
  }

  predicate Elsewhere<R>(l: Layout<R>, k: Key) { k.store != l.store || !l.mine(k.name) }

  predicate TouchesNone<R>(l: Layout<R>, tx: Signed) {
    forall i :: 0 <= i < |tx.steps| ==> Elsewhere(l, tx.steps[i].mutation.Target())
  }

  lemma ElsewhereShows<R(!new)>(l: Layout<R>, live: Live, t: map<R, Bytes>, m: Mutation, cred: Bytes)
    requires Proper(l) && Shows(l, live, t) && Elsewhere(l, m.Target())
    ensures Shows(l, ApplyOne(live, m, cred), t)
  {
    var after := ApplyOne(live, m, cred);
    forall r | l.ok(r) ensures RowShown(l, after, t, r) {
      assert RowShown(l, live, t, r);
      assert l.mine(l.name(r));
    }
  }

  lemma {:induction false} ForeignFrom<R(!new)>(env: Env, l: Layout<R>, live: Live, t: map<R, Bytes>, tx: Signed,
      i: nat)
    requires Proper(l) && Shows(l, live, t) && i <= |tx.steps| && EvaluateFrom(env, live, tx, i).Pass? &&
             TouchesNone(l, tx)
    ensures Shows(l, ApplyAll(live, EvaluateFrom(env, live, tx, i).mutations, env.raw(tx)), t)
    decreases |tx.steps| - i
  {
    if i < |tx.steps| {
      var m := tx.steps[i].mutation;
      if GuardsHold(env, live, tx.steps[i].guards) {
        ElsewhereShows(l, live, t, m, env.raw(tx));
        var next := ApplyOne(live, m, env.raw(tx));
        ForeignFrom(env, l, next, t, tx, i + 1);
        var rest := EvaluateFrom(env, next, tx, i + 1).mutations;
        assert ([m] + rest)[1..] == rest;
      } else {
        ForeignFrom(env, l, live, t, tx, i + 1);
      }
    }
  }

  /** A transaction that names none of the structure's rows leaves the table alone. */
  lemma ForeignShows<R(!new)>(env: Env, l: Layout<R>, live: Live, t: map<R, Bytes>, tx: Signed)
    requires Proper(l) && Shows(l, live, t) && TouchesNone(l, tx)
    ensures Shows(l, After(env, live, tx), t)
  {
    if Evaluate(env, live, tx).Pass? { ForeignFrom(env, l, live, t, tx, 0); }
  }

  lemma EmptyShows<R(!new)>(l: Layout<R>, live: Live)
    requires Proper(l) && forall k :: k in live ==> Elsewhere(l, k)
    ensures Shows(l, live, map[])
  {
    var t: map<R, Bytes> := map[];
    forall r | l.ok(r) ensures RowShown(l, live, t, r) { assert l.mine(l.name(r)); }
  }
}
