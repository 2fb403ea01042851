/** The job queue of dude/ds/queue.py over whole runs of settled transactions, whatever state each
    was composed on. Safety rests on the guards `settle.evaluate` checks: a job is pending or
    active under one worker with one lease, and its payload stays. */
module Queue {
  import opened Bytes
  import opened Ops
  import opened Views
  import opened Settle
  import opened QueueNames
  import opened RowTables
  import CodecLoops
  import Slice

  datatype Queue = Queue(store: int, prefix: Bytes)

  /** The rows of a queue, plaintext maps of dude/ds/plaintext_map.py. */
  function Rows(q: Queue): Layout<RowId> {
    Layout(q.store, r => NameOf(q.prefix, r), r => RowOk(r), name => InQueue(q.prefix, name))
  }

  lemma RowsProper(q: Queue)
    ensures Proper(Rows(q))
  {
    var l := Rows(q);
    forall r | l.ok(r) ensures l.mine(l.name(r)) { NameParts(q.prefix, r); }
    forall r, s | l.ok(r) && l.ok(s) && l.name(r) == l.name(s) ensures r == s { NameInjective(q.prefix, r, s); }
  }

  function KeyIn(q: Queue, r: RowId): Key { Key(q.store, NameOf(q.prefix, r)) }

  /** The transactions a queue composes. What was read when composing (`rec`, `lease`) is as it may
      be: older state than the transaction meets. */
  datatype Op =
    | Submit(job: Bytes, payload: Bytes)
    | Claim(worker: Bytes, deadline: nat, job: Bytes, rec: Bytes)
    | Complete(worker: Bytes, deadline: nat, job: Bytes, rec: Bytes, lease: Bytes)
    | Reclaim(worker: Bytes, deadline: nat, job: Bytes, rec: Bytes, lease: Bytes)
    | Renew(worker: Bytes, deadline: nat, job: Bytes, lease: Bytes, newDeadline: nat)
    | Expire(items: seq<Expiry>)

  datatype Expiry = Expiry(deadline: nat, job: Bytes, worker: Bytes, rec: Bytes)

  function ExpirySteps(e: Expiry): seq<RowStep<RowId>> {
    [Delete(LeaseRow(e.deadline, e.job), Holding(e.worker)),
     Delete(ActiveRow(e.worker, e.job), Holding(e.rec)),
     Put(PendingRow(e.job), NoGuard, e.rec)]
  }

  function ExpireSteps(items: seq<Expiry>): seq<RowStep<RowId>> {
    if items == [] then [] else ExpirySteps(items[0]) + ExpireSteps(items[1..])
  }

  function Steps(op: Op): seq<RowStep<RowId>> {
    match op
    case Submit(j, payload) => [Put(PendingRow(j), Missing, payload)]
    case Claim(w, d, j, rec) =>
      [Delete(PendingRow(j), Holding(rec)), Put(ActiveRow(w, j), Missing, rec), Put(LeaseRow(d, j), Missing, w)]
    case Complete(w, d, j, rec, lease) =>
      [Delete(ActiveRow(w, j), Holding(rec)), Delete(LeaseRow(d, j), Holding(lease))]
    case Reclaim(w, d, j, rec, lease) =>
      [Delete(ActiveRow(w, j), Holding(rec)), Delete(LeaseRow(d, j), Holding(lease)), Put(PendingRow(j), NoGuard, rec)]
    case Renew(w, d, j, lease, e) =>
      [Delete(LeaseRow(d, j), Holding(lease)), Put(LeaseRow(e, j), Missing, w)]
    case Expire(items) => ExpireSteps(items)
  }

  // ----------------------------------------------------------------- the queue's own rows

  type Table = map<RowId, Bytes>

  // ------------------------------------------------------------------ where each job is

  datatype Place = Pending | Active(worker: Bytes, deadline: nat)

  type Jobs = map<Bytes, Bytes>
  type Places = map<Bytes, Place>

  /** What a row must hold, given each uncompleted job's payload and place. */
  function Expected(jobs: Jobs, at: Places, r: RowId): Option<Bytes> {
    if r.job !in jobs || r.job !in at then None else
      match r
      case PendingRow(j) => if at[j].Pending? then Some(jobs[j]) else None
      case ActiveRow(w, j) => if at[j].Active? && at[j].worker == w then Some(jobs[j]) else None
      case LeaseRow(d, j) => if at[j].Active? && at[j].deadline == d then Some(at[j].worker) else None
  }

  /** Every uncompleted job is at one place, and the rows are exactly what that calls for: one
      pending row, or one active row and one lease naming its worker. */
  ghost predicate Placed(t: Table, jobs: Jobs, at: Places) {
    at.Keys == jobs.Keys && forall r :: RowAs(t, r, Expected(jobs, at, r))
  }

  predicate ExpiryOk(e: Expiry) { Plain(e.job) && Plain(e.worker) && e.deadline < MAX_DEADLINE }

  /** What the queue asks of its callers: plain identifiers, deadlines of 32 bits, a job id no
      uncompleted job has, and renewals only by the worker the lease was read to name. */
  predicate OpOk(op: Op, jobs: Jobs) {
    match op
    case Submit(j, _) => Plain(j) && j !in jobs
    case Claim(w, d, j, _) => Plain(w) && Plain(j) && d < MAX_DEADLINE
    case Complete(w, d, j, _, _) => Plain(w) && Plain(j) && d < MAX_DEADLINE
    case Reclaim(w, d, j, _, _) => Plain(w) && Plain(j) && d < MAX_DEADLINE
    case Renew(w, d, j, lease, e) => Plain(w) && Plain(j) && d < MAX_DEADLINE && e < MAX_DEADLINE && w == lease
    case Expire(items) => forall i :: 0 <= i < |items| ==> ExpiryOk(items[i])
  }

  function ExpiredAt(at: Places, items: seq<Expiry>): Places
    decreases |items|
  {
    if items == [] then at else ExpiredAt(at[items[0].job := Pending], items[1..])
  }

  /** What a settled transaction does to the jobs and their places. */
  function JobsAfter(jobs: Jobs, op: Op): Jobs {
    match op
    case Submit(j, payload) => jobs[j := payload]
    case Complete(_, _, j, _, _) => jobs - {j}
    case _ => jobs
  }

  function PlacesAfter(at: Places, op: Op): Places {
    match op
    case Submit(j, _) => at[j := Pending]
    case Claim(w, d, j, _) => at[j := Active(w, d)]
    case Complete(_, _, j, _, _) => at - {j}
    case Reclaim(_, _, j, _, _) => at[j := Pending]
    case Renew(w, _, j, _, e) => at[j := Active(w, e)]
    case Expire(items) => ExpiredAt(at, items)
  }

  lemma SubmitKeeps(t: Table, jobs: Jobs, at: Places, j: Bytes, payload: Bytes, u: Table)
    requires Placed(t, jobs, at) && j !in jobs && RunRows(t, Steps(Submit(j, payload))) == Some(u)
    ensures Placed(u, jobs[j := payload], at[j := Pending])
  {
    RunOne(t, Put(PendingRow(j), Missing, payload));
    var jobs2, at2 := jobs[j := payload], at[j := Pending];
    forall r ensures RowAs(u, r, Expected(jobs2, at2, r)) {
      assert RowAs(t, r, Expected(jobs, at, r));
    }
  }

  lemma ClaimKeeps(t: Table, jobs: Jobs, at: Places, w: Bytes, d: nat, j: Bytes, rec: Bytes, u: Table)
    requires Placed(t, jobs, at) && RunRows(t, Steps(Claim(w, d, j, rec))) == Some(u)
    ensures j in jobs && at[j] == Pending && jobs[j] == rec
    ensures Placed(u, jobs, at[j := Active(w, d)])
  {
    RunThree(t, Delete(PendingRow(j), Holding(rec)), Put(ActiveRow(w, j), Missing, rec),
      Put(LeaseRow(d, j), Missing, w));
    assert RowAs(t, PendingRow(j), Expected(jobs, at, PendingRow(j)));
    var at2 := at[j := Active(w, d)];
    forall r ensures RowAs(u, r, Expected(jobs, at2, r)) {
      assert RowAs(t, r, Expected(jobs, at, r));
    }
  }

  lemma CompleteKeeps(t: Table, jobs: Jobs, at: Places, w: Bytes, d: nat, j: Bytes, rec: Bytes, lease: Bytes, u: Table)
    requires Placed(t, jobs, at) && RunRows(t, Steps(Complete(w, d, j, rec, lease))) == Some(u)
    ensures j in jobs && at[j] == Active(w, d) && jobs[j] == rec && lease == w
    ensures Placed(u, jobs - {j}, at - {j})
  {
    RunTwo(t, Delete(ActiveRow(w, j), Holding(rec)), Delete(LeaseRow(d, j), Holding(lease)));
    assert RowAs(t, ActiveRow(w, j), Expected(jobs, at, ActiveRow(w, j)));
    assert RowAs(t, LeaseRow(d, j), Expected(jobs, at, LeaseRow(d, j)));
    var jobs2, at2 := jobs - {j}, at - {j};
    forall r ensures RowAs(u, r, Expected(jobs2, at2, r)) {
      assert RowAs(t, r, Expected(jobs, at, r));
    }
  }

  lemma RenewKeeps(t: Table, jobs: Jobs, at: Places, w: Bytes, d: nat, j: Bytes, lease: Bytes, e: nat, u: Table)
    requires Placed(t, jobs, at) && w == lease && RunRows(t, Steps(Renew(w, d, j, lease, e))) == Some(u)
    ensures j in jobs && at[j] == Active(w, d)
    ensures Placed(u, jobs, at[j := Active(w, e)])
  {
    RunTwo(t, Delete(LeaseRow(d, j), Holding(lease)), Put(LeaseRow(e, j), Missing, w));
    assert RowAs(t, LeaseRow(d, j), Expected(jobs, at, LeaseRow(d, j)));
    var at2 := at[j := Active(w, e)];
    forall r ensures RowAs(u, r, Expected(jobs, at2, r)) {
      assert RowAs(t, r, Expected(jobs, at, r));
    }
  }

  ghost predicate SomewherePlaced(t: Table, jobs: Jobs) { exists at :: Placed(t, jobs, at) }

  /** A renewal in another worker's name leaves the job active under one worker and leased to
      another; renewals keep the queue exactly when the worker is the one the lease names. */
  lemma RenewExactly(t: Table, jobs: Jobs, at: Places, w: Bytes, d: nat, j: Bytes, lease: Bytes, e: nat, u: Table)
    requires Placed(t, jobs, at) && RunRows(t, Steps(Renew(w, d, j, lease, e))) == Some(u)
    ensures SomewherePlaced(u, jobs) <==> w == lease
  {
    if w == lease {
      RenewKeeps(t, jobs, at, w, d, j, lease, e, u);
    } else {
      RunTwo(t, Delete(LeaseRow(d, j), Holding(lease)), Put(LeaseRow(e, j), Missing, w));
      assert RowAs(t, LeaseRow(d, j), Expected(jobs, at, LeaseRow(d, j)));
      assert RowAs(t, ActiveRow(lease, j), Expected(jobs, at, ActiveRow(lease, j)));
      forall other ensures !Placed(u, jobs, other) {
        assert Placed(u, jobs, other) ==> RowAs(u, LeaseRow(e, j), Expected(jobs, other, LeaseRow(e, j)));
        assert Placed(u, jobs, other) ==> RowAs(u, ActiveRow(lease, j), Expected(jobs, other, ActiveRow(lease, j)));
      }
    }
  }

  /** A job id that an uncompleted job already has would put one job in two places. */
  lemma SubmitExactly(t: Table, jobs: Jobs, at: Places, j: Bytes, payload: Bytes, u: Table)
    requires Placed(t, jobs, at) && RunRows(t, Steps(Submit(j, payload))) == Some(u)
    ensures SomewherePlaced(u, jobs[j := payload]) <==> j !in jobs
  {
    RunOne(t, Put(PendingRow(j), Missing, payload));
    if j !in jobs {
      SubmitKeeps(t, jobs, at, j, payload, u);
    } else {
      assert RowAs(t, PendingRow(j), Expected(jobs, at, PendingRow(j)));
      var w := at[j].worker;
      assert RowAs(t, ActiveRow(w, j), Expected(jobs, at, ActiveRow(w, j)));
      var more := jobs[j := payload];
      forall other ensures !Placed(u, more, other) {
        assert Placed(u, more, other) ==> RowAs(u, PendingRow(j), Expected(more, other, PendingRow(j)));
        assert Placed(u, more, other) ==> RowAs(u, ActiveRow(w, j), Expected(more, other, ActiveRow(w, j)));
      }
    }
  }

  /** An active job whose active row and lease go and whose pending row comes back. */
  lemma ReturnKeeps(t: Table, jobs: Jobs, at: Places, w: Bytes, d: nat, j: Bytes, rec: Bytes, u: Table)
    requires Placed(t, jobs, at) && ActiveRow(w, j) in t && t[ActiveRow(w, j)] == rec && LeaseRow(d, j) in t
    requires u == (t - {ActiveRow(w, j)} - {LeaseRow(d, j)})[PendingRow(j) := rec]
    ensures j in jobs && at[j] == Active(w, d) && jobs[j] == rec && t[LeaseRow(d, j)] == w
    ensures Placed(u, jobs, at[j := Pending])
  {
    assert RowAs(t, ActiveRow(w, j), Expected(jobs, at, ActiveRow(w, j)));
    assert RowAs(t, LeaseRow(d, j), Expected(jobs, at, LeaseRow(d, j)));
    var at2 := at[j := Pending];
    forall r ensures RowAs(u, r, Expected(jobs, at2, r)) {
      assert RowAs(t, r, Expected(jobs, at, r));
    }
  }

  lemma ReclaimKeeps(t: Table, jobs: Jobs, at: Places, w: Bytes, d: nat, j: Bytes, rec: Bytes, lease: Bytes, u: Table)
    requires Placed(t, jobs, at) && RunRows(t, Steps(Reclaim(w, d, j, rec, lease))) == Some(u)
    ensures j in jobs && at[j] == Active(w, d) && jobs[j] == rec && lease == w
    ensures Placed(u, jobs, at[j := Pending])
  {
    RunThree(t, Delete(ActiveRow(w, j), Holding(rec)), Delete(LeaseRow(d, j), Holding(lease)),
      Put(PendingRow(j), NoGuard, rec));
    ReturnKeeps(t, jobs, at, w, d, j, rec, u);
  }

  lemma ExpiryKeeps(t: Table, jobs: Jobs, at: Places, e: Expiry, u: Table)
    requires Placed(t, jobs, at) && RunRows(t, ExpirySteps(e)) == Some(u)
    ensures e.job in jobs && at[e.job] == Active(e.worker, e.deadline) && jobs[e.job] == e.rec
    ensures Placed(u, jobs, at[e.job := Pending])
  {
    var w, d, j := e.worker, e.deadline, e.job;
    RunThree(t, Delete(LeaseRow(d, j), Holding(w)), Delete(ActiveRow(w, j), Holding(e.rec)),
      Put(PendingRow(j), NoGuard, e.rec));
    assert u == (t - {ActiveRow(w, j)} - {LeaseRow(d, j)})[PendingRow(j) := e.rec];
    ReturnKeeps(t, jobs, at, w, d, j, e.rec, u);
  }

  lemma {:induction false} ExpireKeeps(t: Table, jobs: Jobs, at: Places, items: seq<Expiry>, u: Table)
    requires Placed(t, jobs, at) && RunRows(t, ExpireSteps(items)) == Some(u)
    ensures Placed(u, jobs, ExpiredAt(at, items))
    decreases |items|
  {
    if items != [] {
      RunAppend(t, ExpirySteps(items[0]), ExpireSteps(items[1..]));
      var mid := RunRows(t, ExpirySteps(items[0])).value;
      ExpiryKeeps(t, jobs, at, items[0], mid);
      ExpireKeeps(mid, jobs, at[items[0].job := Pending], items[1..], u);
    }
  }

  /** Whatever it was composed on, a transaction whose guards are met keeps every job placed. */
  lemma OpKeeps(t: Table, jobs: Jobs, at: Places, op: Op, u: Table)
    requires Placed(t, jobs, at) && OpOk(op, jobs) && RunRows(t, Steps(op)) == Some(u)
    ensures Placed(u, JobsAfter(jobs, op), PlacesAfter(at, op))
  {
    match op
    case Submit(j, payload) => SubmitKeeps(t, jobs, at, j, payload, u);
    case Claim(w, d, j, rec) => ClaimKeeps(t, jobs, at, w, d, j, rec, u);
    case Complete(w, d, j, rec, lease) => CompleteKeeps(t, jobs, at, w, d, j, rec, lease, u);
    case Reclaim(w, d, j, rec, lease) => ReclaimKeeps(t, jobs, at, w, d, j, rec, lease, u);
    case Renew(w, d, j, lease, e) => RenewKeeps(t, jobs, at, w, d, j, lease, e, u);
    case Expire(items) => ExpireKeeps(t, jobs, at, items, u);
  }

  // ------------------------------------------------------------------------ whole runs

  /** A transaction this queue composed, or one that touches none of its rows. */
  datatype Event = Mine(op: Op, tx: Signed) | Foreign(tx: Signed)

  /** What is asked of a transaction that settles; one its guards reject may be anything. */
  predicate EventOk(env: Env, q: Queue, live: Live, jobs: Jobs, e: Event) {
    Evaluate(env, live, e.tx).Pass? ==>
      match e
      case Mine(op, tx) => OpOk(op, jobs) && tx.steps == StepsOf(env.h, Rows(q), Steps(op))
      case Foreign(tx) => TouchesNone(Rows(q), tx)
  }

  /** Submitted and not yet completed, counting only what settled. */
  function JobsOf(env: Env, live: Live, jobs: Jobs, e: Event): Jobs {
    if e.Mine? && Evaluate(env, live, e.tx).Pass? then JobsAfter(jobs, e.op) else jobs
  }

  function LiveAfter(env: Env, live: Live, run: seq<Event>): Live
    decreases |run|
  {
    if run == [] then live else LiveAfter(env, After(env, live, run[0].tx), run[1..])
  }

  function JobsIn(env: Env, live: Live, jobs: Jobs, run: seq<Event>): Jobs
    decreases |run|
  {
    if run == [] then jobs
    else JobsIn(env, After(env, live, run[0].tx), JobsOf(env, live, jobs, run[0]), run[1..])
  }

  predicate RunOk(env: Env, q: Queue, live: Live, jobs: Jobs, run: seq<Event>)
    decreases |run|
  {
    run == [] ||
    (EventOk(env, q, live, jobs, run[0]) &&
     RunOk(env, q, After(env, live, run[0].tx), JobsOf(env, live, jobs, run[0]), run[1..]))
  }

  ghost predicate Conserved(q: Queue, live: Live, jobs: Jobs, at: Places) {
    exists t :: Shows(Rows(q), live, t) && Placed(t, jobs, at)
  }

  lemma EventKeeps(env: Env, q: Queue, live: Live, jobs: Jobs, at: Places, e: Event) returns (next: Places)
    requires Slice.Injective(env.h) && Conserved(q, live, jobs, at) && EventOk(env, q, live, jobs, e)
    ensures Conserved(q, After(env, live, e.tx), JobsOf(env, live, jobs, e), next)
  {
    var t :| Shows(Rows(q), live, t) && Placed(t, jobs, at);
    RowsProper(q);
    next := at;
    if Evaluate(env, live, e.tx).Pass? {
      match e
      case Mine(op, tx) =>
        OpRowsOk(q, op, jobs);
        SettlesAsRun(env, Rows(q), live, t, tx, Steps(op));
        OpKeeps(t, jobs, at, op, RunRows(t, Steps(op)).value);
        next := PlacesAfter(at, op);
      case Foreign(tx) =>
        ForeignShows(env, Rows(q), live, t, tx);
    }
  }

  lemma OpRowsOk(q: Queue, op: Op, jobs: Jobs)
    requires OpOk(op, jobs)
    ensures RowsOk(Rows(q), Steps(op))
  {
    if op.Expire? { ExpireRowsOk(q, op.items); }
  }

  lemma {:induction false} ExpireRowsOk(q: Queue, items: seq<Expiry>)
    requires forall i :: 0 <= i < |items| ==> ExpiryOk(items[i])
    ensures RowsOk(Rows(q), ExpireSteps(items))
  {
    if items != [] { ExpireRowsOk(q, items[1..]); }
  }

  /** Over every run of settled transactions from an empty queue, each submitted and uncompleted
      job is at exactly one place with the payload it was submitted with: pending, or active under
      one worker with one lease that names that worker. The queue holds no other row. */
  lemma {:induction false} RunConserves(env: Env, q: Queue, live: Live, jobs: Jobs, at: Places, run: seq<Event>)
      returns (end: Places)
    requires Slice.Injective(env.h) && Conserved(q, live, jobs, at) && RunOk(env, q, live, jobs, run)
    ensures Conserved(q, LiveAfter(env, live, run), JobsIn(env, live, jobs, run), end)
    decreases |run|
  {
    if run == [] {
      end := at;
    } else {
      var next := EventKeeps(env, q, live, jobs, at, run[0]);
      end := RunConserves(env, q, After(env, live, run[0].tx), JobsOf(env, live, jobs, run[0]), next, run[1..]);
    }
  }

  // ------------------------------------------------------------------- where callers err

  /** A transaction the queue composed for `op`, signed by someone who may write it, under names
      that fit. */
  predicate Composed(env: Env, q: Queue, live: Live, op: Op, tx: Signed) {
    tx.steps == StepsOf(env.h, Rows(q), Steps(op)) && env.verified(tx) && MayWriteAll(env, live, tx, 0) &&
    NamesFit(Rows(q), Steps(op))
  }

  ghost predicate Broken(q: Queue, live: Live, jobs: Jobs) { forall at :: !Conserved(q, live, jobs, at) }

  lemma BrokenIs(q: Queue, live: Live, jobs: Jobs, t: Table)
    requires Shows(Rows(q), live, t) && !SomewherePlaced(t, jobs)
    ensures Broken(q, live, jobs)
  {
    forall at | Conserved(q, live, jobs, at) ensures false {
      var u :| Shows(Rows(q), live, u) && Placed(u, jobs, at);
      ShowsUnique(Rows(q), live, t, u);
    }
  }

  lemma ComposedPasses(env: Env, q: Queue, live: Live, t: Table, op: Op, tx: Signed, u: Table)
    requires Slice.Injective(env.h) && Shows(Rows(q), live, t) && RowsOk(Rows(q), Steps(op))
    requires Composed(env, q, live, op, tx) && RunRows(t, Steps(op)) == Some(u)
    ensures Evaluate(env, live, tx).Pass? && Shows(Rows(q), After(env, live, tx), u)
  {
    RowsProper(q);
    SettlesExactly(env, Rows(q), live, t, tx, Steps(op));
  }

  lemma RenewRuns(t: Table, jobs: Jobs, at: Places, w: Bytes, j: Bytes, e: nat) returns (u: Table)
    requires Placed(t, jobs, at) && j in at && at[j].Active? && e != at[j].deadline
    ensures RunRows(t, Steps(Renew(w, at[j].deadline, j, at[j].worker, e))) == Some(u)
  {
    var first, second := Delete(LeaseRow(at[j].deadline, j), Holding(at[j].worker)), Put(LeaseRow(e, j), Missing, w);
    assert RowAs(t, first.row, Expected(jobs, at, first.row));
    assert RowAs(t, second.row, Expected(jobs, at, second.row));
    assert [first, second][1..] == [second];
    RunOne(Write(t, first), second);
    u := RunRows(t, [first, second]).value;
  }

  /** In any conserved queue, a worker who renews another's lease is let through, and breaks it. */
  lemma RenewByOther(env: Env, q: Queue, live: Live, jobs: Jobs, at: Places, tx: Signed, w: Bytes, j: Bytes, e: nat)
    requires Slice.Injective(env.h) && Conserved(q, live, jobs, at) && j in at && at[j].Active?
    requires Plain(j) && at[j].deadline < MAX_DEADLINE && e < MAX_DEADLINE && e != at[j].deadline && w != at[j].worker
    requires Composed(env, q, live, Renew(w, at[j].deadline, j, at[j].worker, e), tx)
    ensures Evaluate(env, live, tx).Pass? && Broken(q, After(env, live, tx), jobs)
  {
    var t :| Shows(Rows(q), live, t) && Placed(t, jobs, at);
    var u := RenewRuns(t, jobs, at, w, j, e);
    ComposedPasses(env, q, live, t, Renew(w, at[j].deadline, j, at[j].worker, e), tx, u);
    RenewExactly(t, jobs, at, w, at[j].deadline, j, at[j].worker, e, u);
    BrokenIs(q, After(env, live, tx), jobs, u);
  }

  /** So is a submission that reuses the id of a job some worker has. */
  lemma SubmitWhileActive(env: Env, q: Queue, live: Live, jobs: Jobs, at: Places, tx: Signed, j: Bytes, again: Bytes)
    requires Slice.Injective(env.h) && Conserved(q, live, jobs, at) && j in at && at[j].Active? && Plain(j)
    requires Composed(env, q, live, Submit(j, again), tx)
    ensures Evaluate(env, live, tx).Pass? && Broken(q, After(env, live, tx), jobs[j := again])
  {
    var t :| Shows(Rows(q), live, t) && Placed(t, jobs, at);
    var put: RowStep<RowId> := Put(PendingRow(j), Missing, again);
    assert RowAs(t, PendingRow(j), Expected(jobs, at, PendingRow(j)));
    RunOne(t, put);
    var u := Write(t, put);
    ComposedPasses(env, q, live, t, Submit(j, again), tx, u);
    SubmitExactly(t, jobs, at, j, again, u);
    BrokenIs(q, After(env, live, tx), jobs[j := again], u);
  }

  /** A new job is let through, and so is a claim of a pending one. */
  lemma SubmitPasses(env: Env, q: Queue, live: Live, jobs: Jobs, at: Places, tx: Signed, j: Bytes, payload: Bytes)
    requires Slice.Injective(env.h) && Conserved(q, live, jobs, at) && j !in jobs && Plain(j)
    requires Composed(env, q, live, Submit(j, payload), tx)
    ensures Evaluate(env, live, tx).Pass?
    ensures Conserved(q, After(env, live, tx), jobs[j := payload], at[j := Pending])
  {
    var t :| Shows(Rows(q), live, t) && Placed(t, jobs, at);
    var put: RowStep<RowId> := Put(PendingRow(j), Missing, payload);
    assert RowAs(t, PendingRow(j), Expected(jobs, at, PendingRow(j)));
    RunOne(t, put);
    ComposedPasses(env, q, live, t, Submit(j, payload), tx, Write(t, put));
    SubmitKeeps(t, jobs, at, j, payload, Write(t, put));
  }

  lemma ClaimPasses(env: Env, q: Queue, live: Live, jobs: Jobs, at: Places, tx: Signed, w: Bytes, d: nat, j: Bytes)
    requires Slice.Injective(env.h) && Conserved(q, live, jobs, at) && j in at && at[j] == Pending
    requires Plain(j) && Plain(w) && d < MAX_DEADLINE && Composed(env, q, live, Claim(w, d, j, jobs[j]), tx)
    ensures Evaluate(env, live, tx).Pass?
    ensures Conserved(q, After(env, live, tx), jobs, at[j := Active(w, d)])
  {
    var t :| Shows(Rows(q), live, t) && Placed(t, jobs, at);
    OpRowsOk(q, Claim(w, d, j, jobs[j]), jobs);
    var u := ClaimRuns(t, jobs, at, w, d, j);
    ComposedPasses(env, q, live, t, Claim(w, d, j, jobs[j]), tx, u);
    ClaimKeeps(t, jobs, at, w, d, j, jobs[j], u);
  }

  lemma ClaimRuns(t: Table, jobs: Jobs, at: Places, w: Bytes, d: nat, j: Bytes) returns (u: Table)
    requires Placed(t, jobs, at) && j in at && at[j] == Pending
    ensures RunRows(t, Steps(Claim(w, d, j, jobs[j]))) == Some(u)
  {
    var a, b, c := Delete(PendingRow(j), Holding(jobs[j])), Put(ActiveRow(w, j), Missing, jobs[j]),
      Put(LeaseRow(d, j), Missing, w);
    assert RowAs(t, PendingRow(j), Expected(jobs, at, PendingRow(j)));
    assert RowAs(t, ActiveRow(w, j), Expected(jobs, at, ActiveRow(w, j)));
    assert RowAs(t, LeaseRow(d, j), Expected(jobs, at, LeaseRow(d, j)));
    assert [a, b, c][1..] == [b, c] && [b, c][1..] == [c];
    RunOne(Write(Write(t, a), b), c);
    assert RunRows(t, [a, b, c]) == RunRows(Write(t, a), [b, c]) == RunRows(Write(Write(t, a), b), [c]);
    u := RunRows(t, [a, b, c]).value;
  }

  /** Submitted, claimed and submitted again: all three settle, on any conserved queue, and then it
      is broken. */
  lemma SubmitTwice(env: Env, q: Queue, live: Live, jobs: Jobs, at: Places, j: Bytes, w: Bytes, d: nat,
                    payload: Bytes, again: Bytes, tx: Signed, ty: Signed, tz: Signed)
    requires Slice.Injective(env.h) && Conserved(q, live, jobs, at) && j !in jobs
    requires Plain(j) && Plain(w) && d < MAX_DEADLINE
    requires Composed(env, q, live, Submit(j, payload), tx)
    requires Composed(env, q, After(env, live, tx), Claim(w, d, j, payload), ty)
    requires Composed(env, q, After(env, After(env, live, tx), ty), Submit(j, again), tz)
    ensures var one := After(env, live, tx);
            var two := After(env, one, ty);
            Evaluate(env, live, tx).Pass? && Evaluate(env, one, ty).Pass? && Evaluate(env, two, tz).Pass? &&
            Broken(q, After(env, two, tz), jobs[j := again])
  {
    SubmitPasses(env, q, live, jobs, at, tx, j, payload);
    var one := After(env, live, tx);
    ClaimPasses(env, q, one, jobs[j := payload], at[j := Pending], ty, w, d, j);
    assert at[j := Pending][j := Active(w, d)][j] == Active(w, d);
    SubmitWhileActive(env, q, After(env, one, ty), jobs[j := payload], at[j := Pending][j := Active(w, d)], tz, j,
      again);
    assert jobs[j := payload][j := again] == jobs[j := again];
  }

  lemma EmptyIsConserved(q: Queue, live: Live)
    requires forall k :: k in live ==> Elsewhere(Rows(q), k)
    ensures Conserved(q, live, map[], map[])
  {
    var t: Table := map[];
    RowsProper(q);
    EmptyShows(Rows(q), live);
    assert Placed(t, map[], map[]);
  }

  predicate HeldAs(live: Live, k: Key, v: Option<Bytes>) {
    if v.Some? then k in live && live[k].value == v.value && live[k].epoch == EPOCH_NONE else k !in live
  }

  /** The live row of any row id is the one the job's place calls for. */
  lemma RowHeld(q: Queue, live: Live, jobs: Jobs, at: Places, r: RowId)
    requires Conserved(q, live, jobs, at) && RowOk(r)
    ensures at.Keys == jobs.Keys && HeldAs(live, KeyIn(q, r), Expected(jobs, at, r))
  {
    var t :| Shows(Rows(q), live, t) && Placed(t, jobs, at);
    var l := Rows(q);
    assert l.ok(r) && KeyOf(l, r) == KeyIn(q, r);
    assert RowShown(l, live, t, r);
    assert RowAs(t, r, Expected(jobs, at, r));
  }

  /** A job's row ids are proper ones, and every live row of the queue has one. */
  lemma PlaceOk(q: Queue, live: Live, jobs: Jobs, at: Places, r: RowId)
    requires Conserved(q, live, jobs, at) && Expected(jobs, at, r).Some?
    ensures RowOk(r)
  {
    var t :| Shows(Rows(q), live, t) && Placed(t, jobs, at);
    assert RowAs(t, r, Expected(jobs, at, r));
    assert Rows(q).ok(r);
  }

  lemma RowNamed(q: Queue, live: Live, jobs: Jobs, at: Places, name: Bytes) returns (r: RowId)
    requires Conserved(q, live, jobs, at) && Key(q.store, name) in live && InQueue(q.prefix, name)
    ensures RowOk(r) && name == NameOf(q.prefix, r) && Expected(jobs, at, r).Some?
  {
    var t :| Shows(Rows(q), live, t) && Placed(t, jobs, at);
    var l := Rows(q);
    assert l.mine(name);
    r :| l.ok(r) && Key(q.store, name) == KeyOf(l, r);
    RowHeld(q, live, jobs, at, r);
  }

  /** The same, said of the rows: what the queue's maps hold about one job. */
  lemma ConservedMeans(q: Queue, live: Live, jobs: Jobs, at: Places, j: Bytes)
    requires Conserved(q, live, jobs, at) && Plain(j)
    ensures j in jobs <==> j in at
    ensures KeyIn(q, PendingRow(j)) in live <==> j in jobs && at[j] == Pending
    ensures KeyIn(q, PendingRow(j)) in live ==> live[KeyIn(q, PendingRow(j))].value == jobs[j]
    ensures forall w :: Plain(w) ==> (KeyIn(q, ActiveRow(w, j)) in live <==>
            j in jobs && at[j].Active? && at[j].worker == w)
    ensures forall w :: Plain(w) && KeyIn(q, ActiveRow(w, j)) in live ==>
            live[KeyIn(q, ActiveRow(w, j))].value == jobs[j]
    ensures forall d: nat :: d < MAX_DEADLINE ==>
            (KeyIn(q, LeaseRow(d, j)) in live <==> j in jobs && at[j].Active? && at[j].deadline == d)
    ensures forall d: nat :: d < MAX_DEADLINE && KeyIn(q, LeaseRow(d, j)) in live ==>
            live[KeyIn(q, LeaseRow(d, j))].value == at[j].worker
  {
    RowHeld(q, live, jobs, at, PendingRow(j));
    forall w | Plain(w) ensures HeldAs(live, KeyIn(q, ActiveRow(w, j)), Expected(jobs, at, ActiveRow(w, j))) {
      RowHeld(q, live, jobs, at, ActiveRow(w, j));
    }
    forall d: nat | d < MAX_DEADLINE
      ensures HeldAs(live, KeyIn(q, LeaseRow(d, j)), Expected(jobs, at, LeaseRow(d, j))) {
      RowHeld(q, live, jobs, at, LeaseRow(d, j));
    }
  }

  // -------------------------------------------------------------------- expired leases

  function LeasePrefix(q: Queue): Bytes { q.prefix + [76, SLASH] }

  function LeaseNames(q: Queue, live: Live): set<Bytes> { NamesUnder(live, q.store, LeasePrefix(q)) }

  /** Under the invariant a prefix query over the leases lists each active job's lease, once. */
  lemma LeasesListed(q: Queue, live: Live, jobs: Jobs, at: Places, name: Bytes)
    requires Conserved(q, live, jobs, at)
    ensures name in LeaseNames(q, live) <==>
              exists j :: j in at && at[j].Active? && name == NameOf(q.prefix, LeaseRow(at[j].deadline, j))
  {
    RangeIsPrefix(name, LeasePrefix(q));
    if name in LeaseNames(q, live) {
      LeaseInQueue(q.prefix, name);
      var r := RowNamed(q, live, jobs, at, name);
      NameParts(q.prefix, r);
    }
    if j :| j in at && at[j].Active? && name == NameOf(q.prefix, LeaseRow(at[j].deadline, j)) {
      LeaseListed(q, live, jobs, at, j);
    }
  }

  lemma LeaseListed(q: Queue, live: Live, jobs: Jobs, at: Places, j: Bytes)
    requires Conserved(q, live, jobs, at) && j in at && at[j].Active?
    ensures NameOf(q.prefix, LeaseRow(at[j].deadline, j)) in LeaseNames(q, live)
  {
    var r := LeaseRow(at[j].deadline, j);
    assert j in jobs;
    PlaceOk(q, live, jobs, at, r);
    RowHeld(q, live, jobs, at, r);
    LeaseStartsPlain(q.prefix, r);
    RangeIsPrefix(NameOf(q.prefix, r), LeasePrefix(q));
  }

  lemma LeaseInQueue(prefix: Bytes, name: Bytes)
    requires |name| >= |prefix| + 2 && name[..|prefix| + 2] == prefix + [76, SLASH]
    ensures InQueue(prefix, name) && name[|prefix|] == 76
  {
    var head := name[..|prefix| + 2];
    assert head[..|prefix|] == prefix && head[|prefix|] == 76 && head[|prefix| + 1] == SLASH;
    assert name[..|prefix|] == head[..|prefix|];
  }

  lemma LeaseStartsPlain(prefix: Bytes, r: RowId)
    requires r.LeaseRow?
    ensures var name := NameOf(prefix, r);
            |name| > |prefix| + 2 && name[..|prefix| + 2] == prefix + [76, SLASH] && name[|prefix| + 2] != 255
  {
    var name := NameOf(prefix, r);
    assert name == prefix + [76, SLASH] + Tail(r);
    HexTop(r.deadline, 8);
    assert Tail(r)[0] == Hex(r.deadline, 8)[0];
  }

  lemma {:induction false} HexTop(d: nat, n: nat)
    requires n > 0
    ensures Hex(d, n)[0] < 255
  {
    if n > 1 { HexTop(d / 16, n - 1); }
  }

  predicate ExpiryTrue(jobs: Jobs, at: Places, e: Expiry) {
    e.job in jobs && e.job in at && at[e.job] == Active(e.worker, e.deadline) && jobs[e.job] == e.rec
  }

  predicate Sooner(d: nat, j: Bytes, e: nat, k: Bytes) { d < e || (d == e && Less(j, k)) }

  ghost predicate Ejected(items: seq<Expiry>, j: Bytes) { exists i :: 0 <= i < |items| && items[i].job == j }

  /** `items` are expired leases in order, at most `limit`, each sooner than every lease left, and
      none left is expired unless the limit was reached. */
  ghost predicate IsEarliest(jobs: Jobs, at: Places, now: int, limit: int, items: seq<Expiry>) {
    (forall i :: 0 <= i < |items| ==> ExpiryTrue(jobs, at, items[i]) && items[i].deadline <= now) &&
    (forall i, k :: 0 <= i < k < |items| ==>
     Sooner(items[i].deadline, items[i].job, items[k].deadline, items[k].job)) &&
    (items == [] || |items| <= limit) &&
    (forall i, j :: 0 <= i < |items| && j in at && at[j].Active? && !Ejected(items, j) ==>
                    Sooner(items[i].deadline, items[i].job, at[j].deadline, j)) &&
    (|items| < limit ==> forall j :: j in at && at[j].Active? && !Ejected(items, j) ==> at[j].deadline > now)
  }

  /** `names` are the leases in order and `items` spell out the first of them. */
  ghost predicate SpellsOut(q: Queue, jobs: Jobs, at: Places, now: int, names: seq<Bytes>, items: seq<Expiry>) {
    |items| <= |names| &&
    forall i :: 0 <= i < |items| ==> Spells(q, jobs, at, names[i], items[i]) && items[i].deadline <= now
  }

  predicate Spells(q: Queue, jobs: Jobs, at: Places, name: Bytes, e: Expiry) {
    ExpiryTrue(jobs, at, e) && name == NameOf(q.prefix, LeaseRow(e.deadline, e.job))
  }

  lemma NextSpelled(q: Queue, jobs: Jobs, at: Places, now: int, limit: int, names: seq<Bytes>, items: seq<Expiry>,
      e: Expiry)
    requires SpellsOut(q, jobs, at, now, names, items) && |items| < |names| && Spells(q, jobs, at, names[|items|], e)
    ensures if e.deadline <= now then SpellsOut(q, jobs, at, now, names, items + [e])
            else StoppedRight(q, at, now, limit, names, |items|)
  {
    if e.deadline > now { assert names[|items|] == NameOf(q.prefix, LeaseRow(at[e.job].deadline, e.job)); }
  }

  /** The loop stopped at the limit, at the end, or at a lease not yet due. */
  ghost predicate StoppedRight(q: Queue, at: Places, now: int, limit: int, names: seq<Bytes>, n: nat) {
    n >= limit || n == |names| ||
    (n < |names| &&
     exists j ::
       j in at && at[j].Active? && at[j].deadline > now &&
       names[n] == NameOf(q.prefix, LeaseRow(at[j].deadline, j)))
  }

  lemma LeaseIndex(q: Queue, live: Live, jobs: Jobs, at: Places, names: seq<Bytes>, j: Bytes) returns (k: nat)
    requires Conserved(q, live, jobs, at) && names == SortedKeys(LeaseNames(q, live)) && j in at && at[j].Active?
    ensures k < |names| && names[k] == NameOf(q.prefix, LeaseRow(at[j].deadline, j))
    ensures at[j].deadline < MAX_DEADLINE && Plain(j)
  {
    var name := NameOf(q.prefix, LeaseRow(at[j].deadline, j));
    LeasesListed(q, live, jobs, at, name);
    assert name in names;
    k :| 0 <= k < |names| && names[k] == name;
    assert j in jobs;
    PlaceOk(q, live, jobs, at, LeaseRow(at[j].deadline, j));
  }

  /** Two leases by their index: the earlier name is the sooner lease. */
  lemma IndexSooner(q: Queue, names: seq<Bytes>, i: nat, k: nat, d: nat, j: Bytes, e: nat, l: Bytes)
    requires Ascending(names) && i < k < |names| && d < MAX_DEADLINE && e < MAX_DEADLINE
    requires names[i] == NameOf(q.prefix, LeaseRow(d, j)) && names[k] == NameOf(q.prefix, LeaseRow(e, l))
    ensures Sooner(d, j, e, l)
  {
    assert Less(names[i], names[k]);
    LeaseOrder(q.prefix, d, j, e, l);
  }

  lemma SpelledIsEarliest(q: Queue, live: Live, jobs: Jobs, at: Places, now: int, limit: int, names: seq<Bytes>,
      items: seq<Expiry>)
    requires Conserved(q, live, jobs, at) && names == SortedKeys(LeaseNames(q, live))
    requires SpellsOut(q, jobs, at, now, names, items) && (items == [] || |items| <= limit)
    requires StoppedRight(q, at, now, limit, names, |items|)
    ensures IsEarliest(jobs, at, now, limit, items)
  {
    forall i | 0 <= i < |items| ensures items[i].deadline < MAX_DEADLINE && Plain(items[i].job) {
      var _ := LeaseIndex(q, live, jobs, at, names, items[i].job);
    }
    forall i, k | 0 <= i < k < |items|
      ensures Sooner(items[i].deadline, items[i].job, items[k].deadline, items[k].job) {
      IndexSooner(q, names, i, k, items[i].deadline, items[i].job, items[k].deadline, items[k].job);
    }
    forall j | j in at && at[j].Active? && !Ejected(items, j)
      ensures forall i :: 0 <= i < |items| ==> Sooner(items[i].deadline, items[i].job, at[j].deadline, j)
      ensures |items| < limit ==> at[j].deadline > now
    {
      LeftIsLater(q, live, jobs, at, now, limit, names, items, j);
    }
  }

  lemma LeftIsLater(q: Queue, live: Live, jobs: Jobs, at: Places, now: int, limit: int, names: seq<Bytes>,
      items: seq<Expiry>, j: Bytes)
    requires Conserved(q, live, jobs, at) && names == SortedKeys(LeaseNames(q, live))
    requires SpellsOut(q, jobs, at, now, names, items) && StoppedRight(q, at, now, limit, names, |items|)
    requires forall i :: 0 <= i < |items| ==> items[i].deadline < MAX_DEADLINE && Plain(items[i].job)
    requires j in at && at[j].Active? && !Ejected(items, j)
    ensures forall i :: 0 <= i < |items| ==> Sooner(items[i].deadline, items[i].job, at[j].deadline, j)
    ensures |items| < limit ==> at[j].deadline > now
  {
    var n := |items|;
    var k := LeaseIndex(q, live, jobs, at, names, j);
    if k < n { NameInjective(q.prefix, LeaseRow(at[j].deadline, j), LeaseRow(items[k].deadline, items[k].job)); }
    forall i | 0 <= i < n ensures Sooner(items[i].deadline, items[i].job, at[j].deadline, j) {
      IndexSooner(q, names, i, k, items[i].deadline, items[i].job, at[j].deadline, j);
    }
    if n < limit {
      var s :| s in at && at[s].Active? && at[s].deadline > now &&
        names[n] == NameOf(q.prefix, LeaseRow(at[s].deadline, s));
      var m := LeaseIndex(q, live, jobs, at, names, s);
      if k > n {
        IndexSooner(q, names, n, k, at[s].deadline, s, at[j].deadline, j);
      } else {
        NameInjective(q.prefix, LeaseRow(at[j].deadline, j), LeaseRow(at[s].deadline, s));
      }
    }
  }

  /** Reading back one lease row finds the job, its worker and its payload. */
  lemma LeaseReads(q: Queue, live: Live, jobs: Jobs, at: Places, name: Bytes) returns (j: Bytes)
    requires Conserved(q, live, jobs, at) && name in LeaseNames(q, live)
    ensures j in jobs && j in at && at[j].Active? && name == NameOf(q.prefix, LeaseRow(at[j].deadline, j))
    ensures |name| >= |LeasePrefix(q)| && ParseLeaseKey(name[|LeasePrefix(q)|..]) == Some((at[j].deadline, j))
    ensures live[Key(q.store, name)].value == at[j].worker
    ensures var k := KeyIn(q, ActiveRow(at[j].worker, j)); k in live && live[k].value == jobs[j]
  {
    LeasesListed(q, live, jobs, at, name);
    j :| j in at && at[j].Active? && name == NameOf(q.prefix, LeaseRow(at[j].deadline, j));
    var lease, active := LeaseRow(at[j].deadline, j), ActiveRow(at[j].worker, j);
    assert j in jobs;
    PlaceOk(q, live, jobs, at, lease);
    PlaceOk(q, live, jobs, at, active);
    RowHeld(q, live, jobs, at, lease);
    RowHeld(q, live, jobs, at, active);
    NameParts(q.prefix, lease);
    assert name[|LeasePrefix(q)|..] == Tail(lease);
    ParseLeaseKeyOf(at[j].deadline, j);
  }

  /** `reclaim_expired`; `None` where composing raises, which a conserved queue rules out. */
  method ReclaimExpired(q: Queue, live: Live, now: int, limit: int, ghost jobs: Jobs, ghost at: Places)
      returns (r: Option<seq<Expiry>>)
    ensures Conserved(q, live, jobs, at) ==> r.Some? && IsEarliest(jobs, at, now, limit, r.value)
  {
    ghost var sane := Conserved(q, live, jobs, at);
    var names := CodecLoops.SortKeys(LeaseNames(q, live));
    var items := [];
    while |items| < |names| && |items| < limit
      invariant items == [] || |items| <= limit
      invariant |items| <= |names|
      invariant sane ==> SpellsOut(q, jobs, at, now, names, items)
      decreases |names| - |items|
    {
      var name := names[|items|];
      assert name in names;
      var e := ReadLease(q, live, name, jobs, at);
      if e.None? { return None; }
      if sane { NextSpelled(q, jobs, at, now, limit, names, items, e.value); }
      if e.value.deadline > now { break; }
      items := items + [e.value];
    }
    if sane { SpelledIsEarliest(q, live, jobs, at, now, limit, names, items); }
    r := Some(items);
  }

  method ReadLease(q: Queue, live: Live, name: Bytes, ghost jobs: Jobs, ghost at: Places) returns (e: Option<Expiry>)
    requires name in LeaseNames(q, live)
    ensures Conserved(q, live, jobs, at) ==> e.Some? && Spells(q, jobs, at, name, e.value)
  {
    if Conserved(q, live, jobs, at) { var _ := LeaseReads(q, live, jobs, at, name); }
    RangeIsPrefix(name, LeasePrefix(q));
    var parsed := ParseLeaseKey(name[|LeasePrefix(q)|..]);
    if parsed.None? { return None; }
    var (deadline, job) := parsed.value;
    var worker := live[Key(q.store, name)].value;
    var active := KeyIn(q, ActiveRow(worker, job));
    if active !in live { return None; }
    e := Some(Expiry(deadline, job, worker, live[active].value));
  }
}
