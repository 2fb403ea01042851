/** The guarded transaction evaluator of dude/store/settle.py, with the epoch rules it takes from
    dude/store/management.py.

    `Env` stands for the code the evaluator calls out to: signature checking, the raw bytes and
    hash of a transaction, and the authoriser's decision about a view. Every result holds for
    whatever these are. */
module Settle {
  import opened Bytes
  import opened Codec
  import opened Ops
  import opened Views

  datatype Env = Env(
    verified: Signed -> bool,
    raw: Signed -> Bytes,
    h: Bytes -> Bytes,
    mayWrite: (Live, Bytes, int) -> bool)

  function OpHash(env: Env, tx: Signed): Bytes { env.h(env.raw(tx)) }

  datatype Reason = Signature | Authority | Guard | Settled | Epoch | NameShape | EpochJump

  /** `Raised` is a Python exception leaving the evaluator: a stored epoch row that does not
      decode, or a store id `to_bytes` cannot take. */
  datatype Verdict = Rejected(why: Reason, step: Option<nat>) | Raised

  datatype Outcome = Pass(mutations: seq<Mutation>) | Fail(verdict: Verdict)

  // -------------------------------------------------------------------- epoch rows

  const P_EPOCH: Bytes := [101, 112, 111, 99, 104, 47]

  const STORE_LIMIT := 0x1_0000_0000_0000_0000

  /** `n.to_bytes(width, "big")`. */
  function BigEndian(n: nat, width: nat): (b: Bytes)
    ensures |b| == width
  {
    if width == 0 then [] else BigEndian(n / 256, width - 1) + [n % 256]
  }

  function FromBigEndian(b: Bytes): nat {
    if b == [] then 0 else FromBigEndian(b[..|b| - 1]) * 256 + b[|b| - 1]
  }

  function EpochKey(store: nat): Key {
    Key(STORE_MANAGEMENT, P_EPOCH + BigEndian(store, 8))
  }

  function EpochTarget(name: Bytes): Option<nat> {
    if |name| == 14 && name[..6] == P_EPOCH then Some(FromBigEndian(name[6..])) else None
  }

  function AsInt(raw: Bytes): Option<int> {
    match Decode(SOURCE, raw)
    case Ok(Int(n)) => Some(n)
    case _ => None
  }

  /** `current_epoch(store, view)`; `None` where it raises. */
  function CurrentEpoch(live: Live, store: int): Option<int> {
    if !(0 <= store < STORE_LIMIT) then None
    else if EpochKey(store) !in live then Some(EPOCH_NONE)
    else AsInt(live[EpochKey(store)].value)
  }

  // ---------------------------------------------------------------------- evaluation

  datatype Shape = Fine | Refused(why: Reason) | Raises

  function EpochStep(live: Live, value: Bytes, target: nat): Shape {
    match AsInt(value)
    case None => Refused(EpochJump)
    case Some(want) =>
      match CurrentEpoch(live, target)
      case None => Raises
      case Some(current) => if want == current + 1 then Fine else Refused(EpochJump)
  }

  function DataRowShape(live: Live, m: Mutation): Shape {
    if |m.name| > MAX_NAME_BYTES then Refused(NameShape)
    else if m.Del? then
      if m.store == STORE_MANAGEMENT && EpochTarget(m.name).Some? then Refused(EpochJump) else Fine
    else if m.store == STORE_MANAGEMENT then
      match EpochTarget(m.name)
      case None => Fine
      case Some(target) => EpochStep(live, m.value, target)
    else if m.epoch == EPOCH_NONE then Fine
    else if |m.name| != DIGEST_SIZE then Refused(NameShape)
    else
      match CurrentEpoch(live, m.store)
      case None => Raises
      case Some(current) =>
        if m.epoch != current && (current < 2 || m.epoch != current - 1) then Refused(Epoch) else Fine
  }

  function HoldsIn(env: Env, live: Live, p: Predicate): bool {
    var cur := Lookup(live, Key(p.store, p.name));
    match p
    case Absent(_, _) => cur.None?
    case Exists(_, _) => cur.Some?
    case HoldsAny(_, _, ds) => cur.Some? && env.h(cur.value.value) in ds
    case Holds(_, _, d) => cur.Some? && env.h(cur.value.value) == d
  }

  predicate GuardsHold(env: Env, live: Live, gs: seq<Predicate>) {
    forall i :: 0 <= i < |gs| ==> HoldsIn(env, live, gs[i])
  }

  /** The verdict on steps `i` onwards of `tx` against the view `live` the earlier steps left. */
  function EvaluateFrom(env: Env, live: Live, tx: Signed, i: nat): Outcome
    requires i <= |tx.steps|
    decreases |tx.steps| - i
  {
    if i == |tx.steps| then Pass([]) else
      var step := tx.steps[i];
      var m := step.mutation;
      if !env.mayWrite(live, tx.author, m.store) then Fail(Rejected(Authority, Some(i)))
      else
        match DataRowShape(live, m)
        case Refused(why) => Fail(Rejected(why, Some(i)))
        case Raises => Fail(Raised)
        case Fine =>
          if !GuardsHold(env, live, step.guards) then
            if step.soft then EvaluateFrom(env, live, tx, i + 1) else Fail(Rejected(Guard, Some(i)))
          else
            match EvaluateFrom(env, ApplyOne(live, m, env.raw(tx)), tx, i + 1)
            case Pass(ms) => Pass([m] + ms)
            case Fail(v) => Fail(v)
  }

  function Evaluate(env: Env, live: Live, tx: Signed): Outcome {
    if !env.verified(tx) then Fail(Rejected(Signature, None)) else EvaluateFrom(env, live, tx, 0)
  }

  /** What a settled transaction makes of a view. */
  function After(env: Env, live: Live, tx: Signed): Live {
    match Evaluate(env, live, tx)
    case Pass(ms) => ApplyAll(live, ms, env.raw(tx))
    case Fail(_) => live
  }

  // ------------------------------------------------------------------------- batches

  datatype Screening =
    | Screened(live: Live, keep: seq<Signed>, drop: seq<(Signed, Verdict)>)
    | Crashed

  /** A batch in order, each transaction on the view the kept ones before it left; one whose hash
      is already in `seen` is dropped as settled. */
  function Screen(env: Env, live: Live, seen: set<Bytes>, batch: seq<Signed>): Screening
    decreases |batch|
  {
    if batch == [] then Screened(live, [], []) else
      var tx, hash := batch[0], OpHash(env, batch[0]);
      if hash in seen then Dropping(tx, Rejected(Settled, None), Screen(env, live, seen, batch[1..]))
      else
        match Evaluate(env, live, tx)
        case Pass(ms) => Keeping(tx, Screen(env, ApplyAll(live, ms, env.raw(tx)), seen + {hash}, batch[1..]))
        case Fail(Raised) => Crashed
        case Fail(v) => Dropping(tx, v, Screen(env, live, seen, batch[1..]))
  }

  function Keeping(tx: Signed, rest: Screening): Screening {
    if rest.Crashed? then rest else Screened(rest.live, [tx] + rest.keep, rest.drop)
  }

  function Dropping(tx: Signed, v: Verdict, rest: Screening): Screening {
    if rest.Crashed? then rest else Screened(rest.live, rest.keep, [(tx, v)] + rest.drop)
  }

  /** Transactions already logged are dropped, and the rest of the batch is screened as though
      they were not there. */
  lemma {:induction false} SettledAreIgnored(env: Env, live: Live, seen: set<Bytes>, settled: set<Bytes>,
      batch: seq<Signed>)
    ensures var all := Screen(env, live, seen + settled, batch);
            var alone := Screen(env, live, seen, Fresh(env, settled, batch));
            (all.Crashed? <==> alone.Crashed?) &&
            (all.Screened? ==> all.live == alone.live && all.keep == alone.keep)
    decreases |batch|
  {
    if batch != [] {
      var tx, hash := batch[0], OpHash(env, batch[0]);
      var f := Fresh(env, settled, batch);
      if hash in settled {
        SettledAreIgnored(env, live, seen, settled, batch[1..]);
      } else {
        assert f[0] == tx && f[1..] == Fresh(env, settled, batch[1..]);
        SettledAreIgnored(env, live, seen, settled, batch[1..]);
        match Evaluate(env, live, tx) {
          case Pass(ms) =>
            assert seen + settled + {hash} == seen + {hash} + settled;
            SettledAreIgnored(env, ApplyAll(live, ms, env.raw(tx)), seen + {hash}, settled, batch[1..]);
          case Fail(_) =>
        }
      }
    }
  }

  /** `_screen_slice`'s first filter: the transactions whose hash is not in `settled`. */
  function Fresh(env: Env, settled: set<Bytes>, batch: seq<Signed>): seq<Signed> {
    if batch == [] then []
    else if OpHash(env, batch[0]) in settled then Fresh(env, settled, batch[1..])
    else [batch[0]] + Fresh(env, settled, batch[1..])
  }

  lemma {:induction false} FreshIsAll(env: Env, settled: set<Bytes>, batch: seq<Signed>)
    requires forall i :: 0 <= i < |batch| ==> OpHash(env, batch[i]) !in settled
    ensures Fresh(env, settled, batch) == batch
  {
    if batch != [] {
      FreshIsAll(env, settled, batch[1..]);
      assert batch == [batch[0]] + batch[1..];
    }
  }

  /** A screened batch, screened again on the same view, is kept whole: what survives the cut
      survives promotion and settlement. */
  lemma {:induction false} SurvivorsSurvive(env: Env, live: Live, seen: set<Bytes>, batch: seq<Signed>)
    requires Screen(env, live, seen, batch).Screened?
    ensures var s := Screen(env, live, seen, batch);
            Screen(env, live, seen, s.keep) == Screened(s.live, s.keep, [])
    decreases |batch|
  {
    if batch != [] {
      var tx, hash := batch[0], OpHash(env, batch[0]);
      if hash in seen {
        SurvivorsSurvive(env, live, seen, batch[1..]);
      } else {
        match Evaluate(env, live, tx) {
          case Pass(ms) =>
            var next := ApplyAll(live, ms, env.raw(tx));
            SurvivorsSurvive(env, next, seen + {hash}, batch[1..]);
            var keep := Screen(env, next, seen + {hash}, batch[1..]).keep;
            assert ([tx] + keep)[1..] == keep;
          case Fail(_) =>
            SurvivorsSurvive(env, live, seen, batch[1..]);
        }
      }
    }
  }

  /** Kept transactions have fresh, pairwise distinct hashes. */
  lemma {:induction false} KeptAreDistinct(env: Env, live: Live, seen: set<Bytes>, batch: seq<Signed>)
    requires Screen(env, live, seen, batch).Screened?
    ensures var keep := Screen(env, live, seen, batch).keep;
            (forall i :: 0 <= i < |keep| ==> OpHash(env, keep[i]) !in seen) &&
            (forall i, j :: 0 <= i < j < |keep| ==> OpHash(env, keep[i]) != OpHash(env, keep[j]))
    decreases |batch|
  {
    if batch != [] {
      var tx, hash := batch[0], OpHash(env, batch[0]);
      if hash !in seen && Evaluate(env, live, tx).Pass? {
        var next := ApplyAll(live, Evaluate(env, live, tx).mutations, env.raw(tx));
        KeptAreDistinct(env, next, seen + {hash}, batch[1..]);
        var rest := Screen(env, next, seen + {hash}, batch[1..]).keep;
        var keep := [tx] + rest;
        forall i | 0 <= i < |keep| ensures OpHash(env, keep[i]) !in seen && (i > 0 ==> OpHash(env, keep[i]) != hash) {
          if i > 0 { assert keep[i] == rest[i - 1]; }
        }
        forall i, j | 0 <= i < j < |keep| ensures OpHash(env, keep[i]) != OpHash(env, keep[j]) {
          if i > 0 { assert keep[i] == rest[i - 1] && keep[j] == rest[j - 1]; }
        }
      } else {
        KeptAreDistinct(env, live, seen, batch[1..]);
      }
    }
  }

  /** A batch, taken with no crash, is split into the kept and the dropped with nothing lost. */
  lemma {:induction false} ScreenPartitions(env: Env, live: Live, seen: set<Bytes>, batch: seq<Signed>)
    requires Screen(env, live, seen, batch).Screened?
    ensures var s := Screen(env, live, seen, batch);
            multiset(batch) == multiset(s.keep) + multiset(DroppedTxs(s.drop))
    decreases |batch|
  {
    if batch != [] {
      var tx, hash := batch[0], OpHash(env, batch[0]);
      assert batch == [tx] + batch[1..];
      if hash !in seen && Evaluate(env, live, tx).Pass? {
        var next := ApplyAll(live, Evaluate(env, live, tx).mutations, env.raw(tx));
        ScreenPartitions(env, next, seen + {hash}, batch[1..]);
      } else {
        ScreenPartitions(env, live, seen, batch[1..]);
        var v := if hash in seen then Rejected(Settled, None) else Evaluate(env, live, tx).verdict;
        var drop := Screen(env, live, seen, batch[1..]).drop;
        assert ([(tx, v)] + drop)[1..] == drop;
      }
    }
  }

  function DroppedTxs(drop: seq<(Signed, Verdict)>): seq<Signed> {
    if drop == [] then [] else [drop[0].0] + DroppedTxs(drop[1..])
  }
}
