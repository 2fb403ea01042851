/** That the queue of dude/ds/queue.py gets on: what it composes on the state it meets settles, in each
    of its operations. */
module QueueProgress {
  import opened Bytes
  import opened Ops
  import opened Views
  import opened Settle
  import opened QueueNames
  import opened RowTables
  import opened Queue
  import Slice

  lemma {:induction false} RunJoin<R>(t: map<R, Bytes>, a: seq<RowStep<R>>, u: map<R, Bytes>, b: seq<RowStep<R>>)
    requires RunRows(t, a) == Some(u)
    ensures RunRows(t, a + b) == RunRows(u, b)
    decreases |a|
  {
    if a == [] {
      assert a + b == b;
    } else {
      assert (a + b)[1..] == a[1..] + b;
      RunJoin(Write(t, a[0]), a[1..], u, b);
    }
  }

  lemma RunTwoOf<R>(t: map<R, Bytes>, a: RowStep<R>, b: RowStep<R>)
    requires GuardMet(t, a) && GuardMet(Write(t, a), b)
    ensures RunRows(t, [a, b]) == Some(Write(Write(t, a), b))
  {
    assert [a, b][1..] == [b];
    RunOne(Write(t, a), b);
  }

  lemma RunThreeOf<R>(t: map<R, Bytes>, a: RowStep<R>, b: RowStep<R>, c: RowStep<R>)
    requires GuardMet(t, a) && GuardMet(Write(t, a), b) && GuardMet(Write(Write(t, a), b), c)
    ensures RunRows(t, [a, b, c]) == Some(Write(Write(Write(t, a), b), c))
  {
    assert [a, b, c][1..] == [b, c];
    RunTwoOf(Write(t, a), b, c);
  }

  /** The two rows of an active job. */
  lemma ActiveRows(t: Table, jobs: Jobs, at: Places, j: Bytes)
    requires Placed(t, jobs, at) && j in at && at[j].Active?
    ensures j in jobs
    ensures ActiveRow(at[j].worker, j) in t && t[ActiveRow(at[j].worker, j)] == jobs[j]
    ensures LeaseRow(at[j].deadline, j) in t && t[LeaseRow(at[j].deadline, j)] == at[j].worker
  {
    var a, l := ActiveRow(at[j].worker, j), LeaseRow(at[j].deadline, j);
    assert RowAs(t, a, Expected(jobs, at, a)) && RowAs(t, l, Expected(jobs, at, l));
  }

  /** The worker that has a job can complete it, and then it is gone. */
  lemma CompleteSettles(env: Env, q: Queue, live: Live, jobs: Jobs, at: Places, tx: Signed, j: Bytes)
    requires Slice.Injective(env.h) && Conserved(q, live, jobs, at) && j in at && at[j].Active?
    requires Plain(j) && Plain(at[j].worker) && at[j].deadline < MAX_DEADLINE && j in jobs
    requires Composed(env, q, live, Complete(at[j].worker, at[j].deadline, j, jobs[j], at[j].worker), tx)
    ensures Evaluate(env, live, tx).Pass? && Conserved(q, After(env, live, tx), jobs - {j}, at - {j})
  {
    var t :| Shows(Rows(q), live, t) && Placed(t, jobs, at);
    var w, d := at[j].worker, at[j].deadline;
    ActiveRows(t, jobs, at, j);
    var a, b := Delete(ActiveRow(w, j), Holding(jobs[j])), Delete(LeaseRow(d, j), Holding(w));
    RunTwoOf(t, a, b);
    OpRowsOk(q, Complete(w, d, j, jobs[j], w), jobs);
    ComposedPasses(env, q, live, t, Complete(w, d, j, jobs[j], w), tx, Write(Write(t, a), b));
    CompleteKeeps(t, jobs, at, w, d, j, jobs[j], w, Write(Write(t, a), b));
  }

  /** And it can give it back, and then it is pending. */
  lemma ReclaimSettles(env: Env, q: Queue, live: Live, jobs: Jobs, at: Places, tx: Signed, j: Bytes)
    requires Slice.Injective(env.h) && Conserved(q, live, jobs, at) && j in at && at[j].Active?
    requires Plain(j) && Plain(at[j].worker) && at[j].deadline < MAX_DEADLINE && j in jobs
    requires Composed(env, q, live, Reclaim(at[j].worker, at[j].deadline, j, jobs[j], at[j].worker), tx)
    ensures Evaluate(env, live, tx).Pass? && Conserved(q, After(env, live, tx), jobs, at[j := Pending])
  {
    var t :| Shows(Rows(q), live, t) && Placed(t, jobs, at);
    var w, d := at[j].worker, at[j].deadline;
    ActiveRows(t, jobs, at, j);
    var a, b := Delete(ActiveRow(w, j), Holding(jobs[j])), Delete(LeaseRow(d, j), Holding(w));
    var c: RowStep<RowId> := Put(PendingRow(j), NoGuard, jobs[j]);
    RunThreeOf(t, a, b, c);
    OpRowsOk(q, Reclaim(w, d, j, jobs[j], w), jobs);
    ComposedPasses(env, q, live, t, Reclaim(w, d, j, jobs[j], w), tx, Write(Write(Write(t, a), b), c));
    ReclaimKeeps(t, jobs, at, w, d, j, jobs[j], w, Write(Write(Write(t, a), b), c));
  }

  /** Leases read off this state, of different jobs. */
  ghost predicate Due(jobs: Jobs, at: Places, items: seq<Expiry>) {
    (forall i :: 0 <= i < |items| ==> ExpiryTrue(jobs, at, items[i])) &&
    forall i, k :: 0 <= i < k < |items| ==> items[i].job != items[k].job
  }

  lemma {:induction false} ExpireRuns(t: Table, jobs: Jobs, at: Places, items: seq<Expiry>) returns (u: Table)
    requires Placed(t, jobs, at) && Due(jobs, at, items)
    ensures RunRows(t, ExpireSteps(items)) == Some(u)
    decreases |items|
  {
    if items == [] {
      u := t;
    } else {
      var e := items[0];
      assert ExpiryTrue(jobs, at, e);
      ActiveRows(t, jobs, at, e.job);
      var a, b := Delete(LeaseRow(e.deadline, e.job), Holding(e.worker)),
        Delete(ActiveRow(e.worker, e.job), Holding(e.rec));
      var c: RowStep<RowId> := Put(PendingRow(e.job), NoGuard, e.rec);
      RunThreeOf(t, a, b, c);
      var mid := Write(Write(Write(t, a), b), c);
      ExpiryKeeps(t, jobs, at, e, mid);
      forall i | 0 <= i < |items[1..]| ensures ExpiryTrue(jobs, at[e.job := Pending], items[1..][i]) {
        assert items[1..][i] == items[i + 1] && ExpiryTrue(jobs, at, items[i + 1]);
      }
      u := ExpireRuns(mid, jobs, at[e.job := Pending], items[1..]);
      RunJoin(t, ExpirySteps(e), mid, ExpireSteps(items[1..]));
    }
  }

  /** What `reclaim_expired` ejects, composed on the state it read, settles. */
  lemma ExpireSettles(env: Env, q: Queue, live: Live, jobs: Jobs, at: Places, tx: Signed, now: int, limit: int,
                      items: seq<Expiry>)
    requires Slice.Injective(env.h) && Conserved(q, live, jobs, at) && IsEarliest(jobs, at, now, limit, items)
    requires OpOk(Expire(items), jobs) && Composed(env, q, live, Expire(items), tx)
    ensures Evaluate(env, live, tx).Pass? && Conserved(q, After(env, live, tx), jobs, ExpiredAt(at, items))
  {
    var t :| Shows(Rows(q), live, t) && Placed(t, jobs, at);
    EarliestAreDue(jobs, at, now, limit, items);
    var u := ExpireRuns(t, jobs, at, items);
    OpRowsOk(q, Expire(items), jobs);
    ComposedPasses(env, q, live, t, Expire(items), tx, u);
    ExpireKeeps(t, jobs, at, items, u);
  }

  lemma EarliestAreDue(jobs: Jobs, at: Places, now: int, limit: int, items: seq<Expiry>)
    requires IsEarliest(jobs, at, now, limit, items)
    ensures Due(jobs, at, items)
  {
    forall i, k | 0 <= i < k < |items| ensures items[i].job != items[k].job {
      assert ExpiryTrue(jobs, at, items[i]) && ExpiryTrue(jobs, at, items[k]);
      assert Sooner(items[i].deadline, items[i].job, items[k].deadline, items[k].job);
      LessIrreflexive(items[i].job);
    }
  }

  /** A renewal by the worker that has the job settles under any other deadline. */
  lemma RenewSettles(env: Env, q: Queue, live: Live, jobs: Jobs, at: Places, tx: Signed, j: Bytes, e: nat)
    requires Slice.Injective(env.h) && Conserved(q, live, jobs, at) && j in at && at[j].Active?
    requires Plain(j) && Plain(at[j].worker) && at[j].deadline < MAX_DEADLINE && e < MAX_DEADLINE && e != at[j].deadline
    requires Composed(env, q, live, Renew(at[j].worker, at[j].deadline, j, at[j].worker, e), tx)
    ensures Evaluate(env, live, tx).Pass? && Conserved(q, After(env, live, tx), jobs, at[j := Active(at[j].worker, e)])
  {
    var t :| Shows(Rows(q), live, t) && Placed(t, jobs, at);
    var w, d := at[j].worker, at[j].deadline;
    var u := RenewRuns(t, jobs, at, w, j, e);
    OpRowsOk(q, Renew(w, d, j, w, e), jobs);
    ComposedPasses(env, q, live, t, Renew(w, d, j, w, e), tx, u);
    RenewKeeps(t, jobs, at, w, d, j, w, e, u);
  }
}
