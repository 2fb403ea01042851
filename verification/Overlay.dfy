/** `Overlay` of dude/store/layer.py and the loops of dude/store/settle.py that fill it. */
module Overlay {
  import opened Bytes
  import opened Ops
  import opened Views
  import opened Settle

  /** Buffered mutations over a reader; the reader is the view it showed when it was handed over. */
  class Overlay {
    const base: Live
    var delta: Delta
    var log: seq<Mutation>
    var frozen: bool

    constructor (base: Live)
      ensures this.base == base && delta == map[] && log == [] && !frozen && Contents() == base
    {
      this.base := base;
      delta := map[];
      log := [];
      frozen := false;
    }

    function Contents(): Live
      reads this
    {
      Patch(base, delta)
    }

    method Get(k: Key) returns (h: Option<Held>)
      ensures h == Lookup(Contents(), k)
    {
      if k !in delta { return Lookup(base, k); }
      return delta[k];
    }

    /** A frozen overlay refuses (`LayerError`). */
    method Apply(m: Mutation, cred: Bytes) returns (ok: bool)
      modifies this`delta, this`log
      ensures ok == !frozen
      ensures ok ==> Contents() == ApplyOne(old(Contents()), m, cred) && log == old(log) + [m]
      ensures ok ==> delta.Keys == old(delta.Keys) + {m.Target()}
      ensures !ok ==> delta == old(delta) && log == old(log)
    {
      if frozen { return false; }
      PatchWrite(base, delta, m, cred);
      delta := delta[m.Target() := Written(m, cred)];
      log := log + [m];
      ok := true;
    }

    /** Take over what another overlay wrote: the view then shows that overlay's writes, and all of
        its view if it stood on this one. */
    method Absorb(child: Overlay) returns (ok: bool)
      modifies this`delta, this`log
      ensures ok == !frozen
      ensures ok ==> Contents() == Patch(old(Contents()), old(child.delta)) && log == old(log) + old(child.log)
      ensures ok && old(child.base == Contents()) ==> Contents() == old(child.Contents())
      ensures ok ==> delta.Keys == old(delta.Keys) + old(child.delta.Keys)
      ensures !ok ==> delta == old(delta) && log == old(log)
    {
      if frozen { return false; }
      PatchPatch(base, delta, child.delta);
      delta := delta + child.delta;
      log := log + child.log;
      ok := true;
    }

    method Freeze()
      modifies this`frozen
      ensures frozen
    {
      frozen := true;
    }

    /** The base's count, corrected by each key of the delta. */
    method CountPrefix(store: int, prefix: Bytes) returns (count: int)
      ensures count == |NamesUnder(Contents(), store, prefix)|
    {
      count := BaseCount(store, prefix);
      var todo := delta.Keys;
      DoneAll(base, delta);
      while todo != {}
        invariant todo <= delta.Keys
        invariant count == |NamesUnder(Patch(base, Done(delta, todo)), store, prefix)|
        decreases |todo|
      {
        var k :| k in todo;
        DoneOne(base, delta, todo, k);
        NamesUnderWrite(Patch(base, Done(delta, todo)), k, delta[k], store, prefix);
        todo := todo - {k};
        if k.store == store && InRange(k.name, prefix) {
          var wasCounted := Counted(Lookup(base, k));
          var nowCounted := Counted(delta[k]);
          if nowCounted && !wasCounted { count := count + 1; }
          else if wasCounted && !nowCounted { count := count - 1; }
        }
      }
    }

    /** `count_prefix` of the reader below: how many plaintext rows it shows in the range. */
    method BaseCount(store: int, prefix: Bytes) returns (count: int)
      ensures count == |NamesUnder(base, store, prefix)|
    {
      count := 0;
      var todo := base.Keys;
      ghost var seen: Live := map[];
      assert NamesUnder(seen, store, prefix) == {};
      while todo != {}
        invariant todo <= base.Keys
        invariant seen == map k | k in base && k !in todo :: base[k]
        invariant count == |NamesUnder(seen, store, prefix)|
        decreases |todo|
      {
        var k :| k in todo;
        todo := todo - {k};
        NamesUnderWrite(seen, k, Some(base[k]), store, prefix);
        seen := seen[k := base[k]];
        if k.store == store && InRange(k.name, prefix) && base[k].epoch == EPOCH_NONE { count := count + 1; }
      }
      assert seen == base;
    }
  }

  /** The part of a delta already counted. */
  function Done(delta: Delta, todo: set<Key>): Delta { map k | k in delta && k !in todo :: delta[k] }

  lemma DoneAll(base: Live, delta: Delta)
    ensures Patch(base, Done(delta, delta.Keys)) == base
    ensures Done(delta, {}) == delta
  {
  }

  lemma DoneOne(base: Live, delta: Delta, todo: set<Key>, k: Key)
    requires k in todo && k in delta
    ensures var before, after := Patch(base, Done(delta, todo)), Patch(base, Done(delta, todo - {k}));
            Lookup(before, k) == Lookup(base, k) &&
            after == if delta[k].Some? then before[k := delta[k].value] else before - {k}
  {
  }

  /** `evaluate`: a fresh overlay over the reader, one step at a time; the overlay of a rejected
      transaction is what the source hands back and every caller discards. */
  method EvaluateOn(env: Env, reader: Live, tx: Signed, ghost keys: set<Key>)
    returns (failure: Option<Verdict>, layer: Overlay)
    ensures fresh(layer) && layer.base == reader && !layer.frozen
    ensures Targets(tx, keys) ==> layer.delta.Keys <= keys
    ensures match Evaluate(env, reader, tx)
            case Pass(ms) => failure == None && layer.log == ms && layer.Contents() == ApplyAll(reader, ms, env.raw(tx))
            case Fail(v) => failure == Some(v)
  {
    layer := new Overlay(reader);
    if !env.verified(tx) { return Some(Rejected(Signature, None)), layer; }
    var i := 0;
    ghost var spec := EvaluateFrom(env, reader, tx, 0);
    while i < |tx.steps|
      invariant 0 <= i <= |tx.steps| && fresh(layer) && layer.base == reader && !layer.frozen
      invariant Targets(tx, keys) ==> layer.delta.Keys <= keys
      invariant layer.Contents() == ApplyAll(reader, layer.log, env.raw(tx))
      invariant spec == Resume(layer.log, EvaluateFrom(env, layer.Contents(), tx, i))
    {
      failure := EvaluateStep(env, layer, tx, i, spec, reader);
      if failure.Some? { return; }
      i := i + 1;
    }
    failure := None;
  }

  /** One step: authority, shape, guards, then the mutation. */
  method EvaluateStep(env: Env, layer: Overlay, tx: Signed, i: nat, ghost spec: Outcome, ghost reader: Live)
      returns (failure: Option<Verdict>)
    requires i < |tx.steps| && !layer.frozen && spec == Resume(layer.log, EvaluateFrom(env, layer.Contents(), tx, i))
    requires layer.Contents() == ApplyAll(reader, layer.log, env.raw(tx))
    modifies layer`delta, layer`log
    ensures failure.Some? ==> spec == Fail(failure.value)
    ensures failure.None? ==> spec == Resume(layer.log, EvaluateFrom(env, layer.Contents(), tx, i + 1))
    ensures failure.None? ==> layer.Contents() == ApplyAll(reader, layer.log, env.raw(tx))
    ensures layer.delta.Keys <= old(layer.delta.Keys) + {tx.steps[i].mutation.Target()}
  {
    var step := tx.steps[i];
    var m := step.mutation;
    var view := layer.Contents();
    if !env.mayWrite(view, tx.author, m.store) { return Some(Rejected(Authority, Some(i))); }
    match DataRowShape(view, m) {
      case Refused(why) => return Some(Rejected(why, Some(i)));
      case Raises => return Some(Raised);
      case Fine =>
    }
    if !GuardsHold(env, view, step.guards) {
      return if step.soft then None else Some(Rejected(Guard, Some(i)));
    }
    ResumeOne(layer.log, m, EvaluateFrom(env, ApplyOne(view, m, env.raw(tx)), tx, i + 1));
    ApplyAllAppend(reader, layer.log, [m], env.raw(tx));
    var _ := layer.Apply(m, env.raw(tx));
    failure := None;
  }

  lemma ResumeOne(done: seq<Mutation>, m: Mutation, rest: Outcome)
    ensures Resume(done, if rest.Pass? then Pass([m] + rest.mutations) else rest) == Resume(done + [m], rest)
  {
    if rest.Pass? { assert done + ([m] + rest.mutations) == done + [m] + rest.mutations; }
  }

  function Resume(done: seq<Mutation>, rest: Outcome): Outcome {
    if rest.Pass? then Pass(done + rest.mutations) else rest
  }

  /** `apply_to`: screen a batch into `target`. `crashed` stands for the exception that leaves it. */
  method ApplyTo(env: Env, target: Overlay, batch: seq<Signed>, ghost keys: set<Key>)
    returns (crashed: bool, keep: seq<Signed>, drop: seq<(Signed, Verdict)>)
    requires !target.frozen
    requires target.delta.Keys <= keys && forall i :: 0 <= i < |batch| ==> Targets(batch[i], keys)
    modifies target`delta, target`log
    ensures target.delta.Keys <= keys
    ensures match Screen(env, old(target.Contents()), {}, batch)
            case Crashed => crashed
            case Screened(live, k, d) => !crashed && target.Contents() == live && keep == k && drop == d
  {
    keep, drop := [], [];
    var seen: set<Bytes> := {};
    ghost var spec := Screen(env, target.Contents(), {}, batch);
    var i := 0;
    assert batch[0..] == batch;
    while i < |batch|
      invariant 0 <= i <= |batch| && !target.frozen && target.delta.Keys <= keys
      invariant spec == Continue(keep, drop, Screen(env, target.Contents(), seen, batch[i..]))
    {
      var tx := batch[i];
      ghost var rest := batch[i..];
      assert rest[0] == tx && rest[1..] == batch[i + 1..];
      if OpHash(env, tx) in seen {
        ContinueDrop(keep, drop, tx, Rejected(Settled, None), Screen(env, target.Contents(), seen, rest[1..]));
        drop := drop + [(tx, Rejected(Settled, None))];
      } else {
        var failure, layer := EvaluateOn(env, target.Contents(), tx, keys);
        if failure.None? {
          var _ := target.Absorb(layer);
          seen := seen + {OpHash(env, tx)};
          ContinueKeep(keep, drop, tx, Screen(env, target.Contents(), seen, rest[1..]));
          keep := keep + [tx];
        } else if failure.value.Raised? {
          return true, keep, drop;
        } else {
          ContinueDrop(keep, drop, tx, failure.value, Screen(env, target.Contents(), seen, rest[1..]));
          drop := drop + [(tx, failure.value)];
        }
      }
      i := i + 1;
    }
    assert batch[i..] == [];
    assert keep + [] == keep && drop + [] == drop;
    crashed := false;
  }

  function Continue(keep: seq<Signed>, drop: seq<(Signed, Verdict)>, rest: Screening): Screening {
    if rest.Crashed? then rest else Screened(rest.live, keep + rest.keep, drop + rest.drop)
  }

  lemma ContinueKeep(keep: seq<Signed>, drop: seq<(Signed, Verdict)>, tx: Signed, rest: Screening)
    ensures Continue(keep, drop, Keeping(tx, rest)) == Continue(keep + [tx], drop, rest)
  {
    if rest.Screened? { assert keep + ([tx] + rest.keep) == keep + [tx] + rest.keep; }
  }

  lemma ContinueDrop(keep: seq<Signed>, drop: seq<(Signed, Verdict)>, tx: Signed, v: Verdict, rest: Screening)
    ensures Continue(keep, drop, Dropping(tx, v, rest)) == Continue(keep, drop + [(tx, v)], rest)
  {
    if rest.Screened? { assert drop + ([(tx, v)] + rest.drop) == drop + [(tx, v)] + rest.drop; }
  }
}
