/** Where rows come from: every live row of dude/store/store.py carries the raw bytes of a logged
    transaction, one of whose steps wrote exactly that value and epoch under that key. */
module Provenance {
  import opened Bytes
  import opened Ops
  import opened Views
  import opened Settle
  import opened Ledger
  import opened LayerRoot

  /** A step of `tx` writes this row. */
  predicate Wrote(tx: Signed, k: Key, h: Held) {
    exists i :: 0 <= i < |tx.steps| && tx.steps[i].mutation == Set(k.store, k.name, h.value, h.epoch)
  }

  ghost predicate RowVouched(env: Env, known: set<Signed>, k: Key, h: Held) {
    exists tx :: tx in known && h.cred == env.raw(tx) && Wrote(tx, k, h)
  }

  ghost predicate Vouched(env: Env, known: set<Signed>, live: Live) {
    forall k :: k in live ==> RowVouched(env, known, k, live[k])
  }

  /** What a passing transaction applies are its own mutations. */
  lemma {:induction false} OwnMutations(env: Env, live: Live, tx: Signed, i: nat, m: Mutation)
    requires i <= |tx.steps| && EvaluateFrom(env, live, tx, i).Pass? && m in EvaluateFrom(env, live, tx, i).mutations
    ensures exists j :: 0 <= j < |tx.steps| && tx.steps[j].mutation == m
    decreases |tx.steps| - i
  {
    if i < |tx.steps| {
      var step := tx.steps[i];
      if GuardsHold(env, live, step.guards) {
        if m != step.mutation { OwnMutations(env, ApplyOne(live, step.mutation, env.raw(tx)), tx, i + 1, m); }
      } else {
        OwnMutations(env, live, tx, i + 1, m);
      }
    }
  }

  lemma {:induction false} AppliedVouched(env: Env, known: set<Signed>, live: Live, tx: Signed, ms: seq<Mutation>)
    requires Vouched(env, known, live) && tx in known
    requires forall m :: m in ms ==> exists j :: 0 <= j < |tx.steps| && tx.steps[j].mutation == m
    ensures Vouched(env, known, ApplyAll(live, ms, env.raw(tx)))
    decreases |ms|
  {
    if ms != [] {
      var m := ms[0];
      var next := ApplyOne(live, m, env.raw(tx));
      assert m in ms;
      forall k | k in next ensures RowVouched(env, known, k, next[k]) {
        if k == m.Target() {
          assert m == Set(k.store, k.name, next[k].value, next[k].epoch);
          assert Wrote(tx, k, next[k]);
        } else {
          assert RowVouched(env, known, k, live[k]);
        }
      }
      forall n | n in ms[1..] ensures exists j :: 0 <= j < |tx.steps| && tx.steps[j].mutation == n { assert n in ms; }
      AppliedVouched(env, known, next, tx, ms[1..]);
    }
  }

  lemma VouchedByMore(env: Env, known: set<Signed>, more: set<Signed>, live: Live)
    requires Vouched(env, known, live) && known <= more
    ensures Vouched(env, more, live)
  {
    forall k | k in live ensures RowVouched(env, more, k, live[k]) { assert RowVouched(env, known, k, live[k]); }
  }

  lemma {:induction false} ScreenVouched(env: Env, known: set<Signed>, live: Live, seen: set<Bytes>, batch: seq<Signed>)
    requires Vouched(env, known, live) && Screen(env, live, seen, batch).Screened?
    ensures var s := Screen(env, live, seen, batch); Vouched(env, known + (set tx | tx in s.keep), s.live)
    decreases |batch|
  {
    if batch == [] {
      VouchedByMore(env, known, known + {}, live);
    } else {
      var tx, hash := batch[0], OpHash(env, batch[0]);
      if hash !in seen && Evaluate(env, live, tx).Pass? {
        var ms := Evaluate(env, live, tx).mutations;
        forall m | m in ms ensures exists j :: 0 <= j < |tx.steps| && tx.steps[j].mutation == m {
          OwnMutations(env, live, tx, 0, m);
        }
        VouchedByMore(env, known, known + {tx}, live);
        AppliedVouched(env, known + {tx}, live, tx, ms);
        var next := ApplyAll(live, ms, env.raw(tx));
        ScreenVouched(env, known + {tx}, next, seen + {hash}, batch[1..]);
        var rest := Screen(env, next, seen + {hash}, batch[1..]).keep;
        assert known + {tx} + (set t | t in rest) == known + (set t | t in [tx] + rest);
      } else {
        ScreenVouched(env, known, live, seen, batch[1..]);
      }
    }
  }

  /** The transactions in the log. */
  function LogOf(entries: map<int, Entry>): set<Signed> { set i | i in entries :: entries[i].tx }

  lemma {:induction false} LoggedHolds(env: Env, entries: map<int, Entry>, at: int, keep: seq<Signed>)
    requires forall i :: i in entries ==> i <= at
    ensures LogOf(entries) + (set tx | tx in keep) <= LogOf(Logged(env, entries, at, keep))
    decreases |keep|
  {
    if keep != [] {
      var e := Entry(OpHash(env, keep[0]), keep[0]);
      var next := entries[at + 1 := e];
      LoggedHolds(env, next, at + 1, keep[1..]);
      forall tx | tx in LogOf(entries) ensures tx in LogOf(next) {
        var i :| i in entries && entries[i].tx == tx;
        assert next[i].tx == tx;
      }
      assert next[at + 1].tx == keep[0];
      assert (set tx | tx in keep) == {keep[0]} + (set tx | tx in keep[1..]) by {
        assert keep == [keep[0]] + keep[1..];
      }
    }
  }

  /** Over every run of blocks from an empty store, each live row is vouched for by the log. */
  lemma {:induction false} RunIsVouched(env: Env, elem: Element, logElem: LogElement, ops: seq<Op>)
    ensures var s := Run(env, elem, logElem, ops).0; Vouched(env, LogOf(s.entries), s.live)
    decreases |ops|
  {
    if ops != [] {
      RunIsVouched(env, elem, logElem, ops[..|ops| - 1]);
      var (s, bn) := Run(env, elem, logElem, ops[..|ops| - 1]);
      var op := ops[|ops| - 1];
      var c := CommitBlock(env, elem, logElem, s, bn + 1, op.hash, op.batch);
      if c.Committed? { CommitVouched(env, elem, logElem, s, bn + 1, op.hash, op.batch); }
    }
  }

  lemma CommitVouched(env: Env, elem: Element, logElem: LogElement, s: State, num: int, hash: Bytes, batch: seq<Signed>)
    requires CommitBlock(env, elem, logElem, s, num, hash, batch).Committed? && Vouched(env, LogOf(s.entries), s.live)
    ensures var t := CommitBlock(env, elem, logElem, s, num, hash, batch).state; Vouched(env, LogOf(t.entries), t.live)
  {
    CommitExtends(env, elem, logElem, s, num, hash, batch);
    var t, screened := CommitBlock(env, elem, logElem, s, num, hash, batch).state,
      Screen(env, s.live, SettledHashes(s.entries), batch);
    ScreenVouched(env, LogOf(s.entries), s.live, SettledHashes(s.entries), batch);
    HeadBounds(s.entries, s.floor);
    LoggedHolds(env, s.entries, Head(s.entries, s.floor), screened.keep);
    VouchedByMore(env, LogOf(s.entries) + (set tx | tx in screened.keep), LogOf(t.entries), t.live);
  }
}
