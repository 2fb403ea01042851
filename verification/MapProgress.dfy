/** That the managed map of dude/ds/managed_map.py gets on: an operation that fits its contents is
    composed, settles, and has its effect; one that does not fit never has. */
module MapProgress {
  import opened Bytes
  import opened Codec
  import opened Ops
  import opened Views
  import opened Settle
  import opened RowTables
  import opened ManagedMap
  import QueueProgress
  import Slice

  /** A new key with a slot left, or a key that is there; a batch of new and different keys. */
  ghost predicate Applies(c: Contents, op: Op) {
    match op
    case Add(key, _) => key !in c.index && |c.keys| < SLOTS
    case Remove(key) => key in c.index
    case Update(key, _) => key in c.index
    case BatchAdd(entries) =>
      |c.keys| + |entries| <= SLOTS && (forall i :: 0 <= i < |entries| ==> entries[i].0 !in c.index) &&
      forall i, j :: 0 <= i < j < |entries| ==> entries[i].0 != entries[j].0
  }

  /** The meta row read from the rows is the table's. */
  lemma MetaIs(m: Map, live: Live, t: Table)
    requires Shows(Rows(m), live, t)
    ensures var raw := Read(m, live, MetaRow);
            if raw.Some? then MetaRow in t && t[MetaRow] == raw.value else MetaRow !in t
  {
    assert Rows(m).ok(MetaRow);
    assert RowShown(Rows(m), live, t, MetaRow);
  }

  lemma EntryIs(m: Map, live: Live, t: Table, key: Bytes)
    requires Shows(Rows(m), live, t)
    ensures var raw := Read(m, live, EntryRow(key));
            if raw.Some? then EntryRow(key) in t && t[EntryRow(key)] == raw.value else EntryRow(key) !in t
  {
    assert Rows(m).ok(EntryRow(key));
    assert RowShown(Rows(m), live, t, EntryRow(key));
  }

  lemma AddRuns(m: Map, live: Live, t: Table, c: Contents, key: Bytes, value: Bytes)
      returns (ss: seq<RowStep<RowId>>, u: Table)
    requires Sane(m) && Shows(Rows(m), live, t) && Represents(m, t, c) && Applies(c, Add(key, value))
    ensures Compose(m, live, Add(key, value)) == Some(ss) && RunRows(t, ss) == Some(u)
  {
    ReadsAre(m, live, t, c, key);
    MetaIs(m, live, t);
    EntryIs(m, live, t, key);
    var raw, n := Read(m, live, MetaRow), |c.keys|;
    ss := AddSteps(m, raw, n, AccOf(m, c.keys), key, value);
    QueueProgress.RunThreeOf(t, ss[0], ss[1], ss[2]);
    u := RunRows(t, ss).value;
  }

  lemma UpdateRuns(m: Map, live: Live, t: Table, c: Contents, key: Bytes, value: Bytes)
      returns (ss: seq<RowStep<RowId>>, u: Table)
    requires Sane(m) && Shows(Rows(m), live, t) && Represents(m, t, c) && key in c.index
    ensures Compose(m, live, Update(key, value)) == Some(ss) && RunRows(t, ss) == Some(u)
  {
    ReadsAre(m, live, t, c, key);
    EntryIs(m, live, t, key);
    var raw := Read(m, live, EntryRow(key)).value;
    ss := UpdateSteps(m, key, raw, c.index[key], value);
    RunOne(t, ss[0]);
    u := Write(t, ss[0]);
  }

  lemma RemoveRuns(m: Map, live: Live, t: Table, c: Contents, key: Bytes) returns (ss: seq<RowStep<RowId>>, u: Table)
    requires Sane(m) && Shows(Rows(m), live, t) && Represents(m, t, c) && key in c.index
    ensures Compose(m, live, Remove(key)) == Some(ss) && RunRows(t, ss) == Some(u)
  {
    RemoveReads(m, live, t, c, key);
    ss := Compose(m, live, Remove(key)).value;
    var last := c.keys[|c.keys| - 1];
    u := RemoveStepsRun(m, t, |c.keys|, AccOf(m, c.keys), key, c.index[key], last, c.values[last]);
  }

  lemma RemoveStepsRun(m: Map, t: Table, count: int, acc: int, key: Bytes, at: nat, last: Bytes, value: Bytes)
      returns (u: Table)
    requires count >= 1 && MetaRow in t
    ensures RunRows(t, RemoveSteps(m, t[MetaRow], count, acc, key, at, last, value)) == Some(u)
  {
    u := FreeAfterFirst(t, RemoveSteps(m, t[MetaRow], count, acc, key, at, last, value));
  }

  /** Steps without guards always run. */
  lemma {:induction false} FreeRuns(t: Table, ss: seq<RowStep<RowId>>) returns (u: Table)
    requires forall i :: 0 <= i < |ss| ==> ss[i].guard == NoGuard
    ensures RunRows(t, ss) == Some(u)
    decreases |ss|
  {
    if ss == [] {
      u := t;
    } else {
      u := FreeRuns(Write(t, ss[0]), ss[1..]);
    }
  }

  lemma FreeAfterFirst(t: Table, ss: seq<RowStep<RowId>>) returns (u: Table)
    requires ss != [] && GuardMet(t, ss[0]) && forall i :: 0 < i < |ss| ==> ss[i].guard == NoGuard
    ensures RunRows(t, ss) == Some(u)
  {
    u := FreeRuns(Write(t, ss[0]), ss[1..]);
  }

  /** Entries of new and different keys always run, and leave the meta row alone. */
  lemma {:induction false} EntriesRun(m: Map, t: Table, entries: seq<(Bytes, Bytes)>, count: int) returns (u: Table)
    requires BatchFits(count, entries)
    requires forall i :: 0 <= i < |entries| ==> EntryRow(entries[i].0) !in t
    requires forall i, j :: 0 <= i < j < |entries| ==> entries[i].0 != entries[j].0
    ensures RunRows(t, EntrySteps(m, entries, count)) == Some(u)
    ensures (MetaRow in u <==> MetaRow in t) && (MetaRow in t ==> u[MetaRow] == t[MetaRow])
    decreases |entries|
  {
    u := t;
    if entries != [] {
      var (key, value) := entries[0];
      var a: RowStep<RowId>, b := Put(SlotRow(count), NoGuard, key), Put(EntryRow(key), Missing, m.entry(count, value));
      QueueProgress.RunTwoOf(t, a, b);
      var mid := Write(Write(t, a), b);
      forall i | 0 <= i < |entries[1..]| ensures EntryRow(entries[1..][i].0) !in mid {
        assert entries[1..][i] == entries[i + 1];
      }
      u := EntriesRun(m, mid, entries[1..], count + 1);
      QueueProgress.RunJoin(t, [a, b], mid, EntrySteps(m, entries[1..], count + 1));
    }
  }

  lemma BatchRuns(m: Map, live: Live, t: Table, c: Contents, entries: seq<(Bytes, Bytes)>)
      returns (ss: seq<RowStep<RowId>>, u: Table)
    requires Sane(m) && Shows(Rows(m), live, t) && Represents(m, t, c) && Applies(c, BatchAdd(entries))
    ensures Compose(m, live, BatchAdd(entries)) == Some(ss) && RunRows(t, ss) == Some(u)
  {
    ReadsAre(m, live, t, c, []);
    MetaIs(m, live, t);
    NewEntries(m, t, c, entries);
    var raw, n := Read(m, live, MetaRow), |c.keys|;
    ss := BatchSteps(m, raw, n, AccOf(m, c.keys), entries);
    u := BatchStepsRun(m, t, raw, n, AccOf(m, c.keys), entries);
  }

  lemma NewEntries(m: Map, t: Table, c: Contents, entries: seq<(Bytes, Bytes)>)
    requires Represents(m, t, c) && forall i :: 0 <= i < |entries| ==> entries[i].0 !in c.index
    ensures forall i :: 0 <= i < |entries| ==> EntryRow(entries[i].0) !in t
  {
    forall i | 0 <= i < |entries| ensures EntryRow(entries[i].0) !in t {
      var r := EntryRow(entries[i].0);
      assert RowAs(t, r, Expected(m, c, r));
    }
  }

  lemma BatchStepsRun(m: Map, t: Table, raw: Option<Bytes>, count: nat, acc: int, entries: seq<(Bytes, Bytes)>)
      returns (u: Table)
    requires BatchFits(count, entries) && (if raw.Some? then MetaRow in t && t[MetaRow] == raw.value else MetaRow !in t)
    requires forall i :: 0 <= i < |entries| ==> EntryRow(entries[i].0) !in t
    requires forall i, j :: 0 <= i < j < |entries| ==> entries[i].0 != entries[j].0
    ensures RunRows(t, BatchSteps(m, raw, count, acc, entries)) == Some(u)
  {
    var mid := EntriesRun(m, t, entries, count);
    var last: RowStep<RowId> := Put(MetaRow, MetaGuard(raw), m.meta(count + |entries|, AccAfter(m, acc, entries)));
    RunOne(mid, last);
    QueueProgress.RunJoin(t, EntrySteps(m, entries, count), mid, [last]);
    u := Write(mid, last);
  }

  lemma AppliedRuns(m: Map, live: Live, t: Table, c: Contents, op: Op) returns (ss: seq<RowStep<RowId>>, u: Table)
    requires Sane(m) && Shows(Rows(m), live, t) && Represents(m, t, c) && Applies(c, op)
    ensures Compose(m, live, op) == Some(ss) && RunRows(t, ss) == Some(u)
  {
    match op
    case Add(key, value) => ss, u := AddRuns(m, live, t, c, key, value);
    case Remove(key) => ss, u := RemoveRuns(m, live, t, c, key);
    case Update(key, value) => ss, u := UpdateRuns(m, live, t, c, key, value);
    case BatchAdd(entries) => ss, u := BatchRuns(m, live, t, c, entries);
  }

  /** A transaction composed for `op`, signed by someone who may write it, under names that fit. */
  ghost predicate Composed(env: Env, m: Map, live: Live, op: Op, tx: Signed) {
    Compose(m, live, op).Some? &&
    var ss := Compose(m, live, op).value;
    tx.steps == StepsOf(env.h, Rows(m), ss) && env.verified(tx) && MayWriteAll(env, live, tx, 0) &&
    NamesFit(Rows(m), ss)
  }

  /** An operation that fits the contents is composed, and what is composed settles with its effect. */
  lemma OpSettles(env: Env, m: Map, live: Live, c: Contents, op: Op, tx: Signed)
    requires Slice.Injective(env.h) && Sane(m) && ManagedMap.Holds(m, live, c) && OpOk(op) && Applies(c, op)
    ensures Compose(m, live, op).Some?
    ensures Composed(env, m, live, op, tx) ==>
              Evaluate(env, live, tx).Pass? && ManagedMap.Holds(m, After(env, live, tx), Effect(c, op))
  {
    var t :| Shows(Rows(m), live, t) && Represents(m, t, c);
    var ss, u := AppliedRuns(m, live, t, c, op);
    if Composed(env, m, live, op, tx) {
      RowsProper(m);
      ComposeRowsOk(m, live, op, ss);
      SettlesExactly(env, Rows(m), live, t, tx, ss);
      ComposedKeeps(m, live, t, c, op, ss, u);
    }
  }

  /** One on a single key settles only if it fits. */
  lemma OnlyIfApplies(env: Env, m: Map, live: Live, c: Contents, op: Op, tx: Signed)
    requires Slice.Injective(env.h) && Sane(m) && ManagedMap.Holds(m, live, c) && OpOk(op) && !op.BatchAdd?
    requires Composed(env, m, live, op, tx) && Evaluate(env, live, tx).Pass?
    ensures Applies(c, op)
  {
    var t :| Shows(Rows(m), live, t) && Represents(m, t, c);
    var ss := Compose(m, live, op).value;
    RowsProper(m);
    ComposeRowsOk(m, live, op, ss);
    SettlesAsRun(env, Rows(m), live, t, tx, ss);
    ComposedKeeps(m, live, t, c, op, ss, RunRows(t, ss).value);
    ReadsAre(m, live, t, c, []);
  }
}
