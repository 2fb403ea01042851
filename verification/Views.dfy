/** Views of the live rows: what an `Overlay` of dude/store/layer.py shows over its base, and what
    a list of mutations does to a view. */
module Views {
  import opened Bytes
  import opened Ops

  type Live = map<Key, Held>
  type Delta = map<Key, Option<Held>>

  function Lookup(live: Live, k: Key): Option<Held> {
    if k in live then Some(live[k]) else None
  }

  /** Reads see the delta, then the base. */
  function Patch(base: Live, delta: Delta): Live {
    map k | k in base.Keys + delta.Keys && (k in delta ==> delta[k].Some?) ::
      if k in delta then delta[k].value else base[k]
  }

  function Written(m: Mutation, cred: Bytes): Option<Held> {
    match m
    case Set(_, _, value, epoch) => Some(Held(value, epoch, cred))
    case Del(_, _) => None
  }

  function ApplyOne(live: Live, m: Mutation, cred: Bytes): Live {
    match m
    case Set(_, _, value, epoch) => live[m.Target() := Held(value, epoch, cred)]
    case Del(_, _) => live - {m.Target()}
  }

  function ApplyAll(live: Live, ms: seq<Mutation>, cred: Bytes): Live
    decreases |ms|
  {
    if ms == [] then live else ApplyAll(ApplyOne(live, ms[0], cred), ms[1..], cred)
  }

  lemma PatchWrite(base: Live, delta: Delta, m: Mutation, cred: Bytes)
    ensures Patch(base, delta[m.Target() := Written(m, cred)]) == ApplyOne(Patch(base, delta), m, cred)
  {
  }

  /** Absorbing a child that overlays this view shows what the child showed. */
  lemma PatchPatch(base: Live, delta: Delta, child: Delta)
    ensures Patch(base, delta + child) == Patch(Patch(base, delta), child)
  {
  }

  lemma {:induction false} ApplyAllAppend(live: Live, ms: seq<Mutation>, ns: seq<Mutation>, cred: Bytes)
    ensures ApplyAll(live, ms + ns, cred) == ApplyAll(ApplyAll(live, ms, cred), ns, cred)
    decreases |ms|
  {
    if ms == [] {
      assert ms + ns == ns;
    } else {
      ApplyAllAppend(ApplyOne(live, ms[0], cred), ms[1..], ns, cred);
      assert (ms + ns)[1..] == ms[1..] + ns;
    }
  }

  /** Rows a sequence of mutations does not name are as they were. */
  lemma {:induction false} ApplyAllFrame(live: Live, ms: seq<Mutation>, cred: Bytes, k: Key)
    requires forall i :: 0 <= i < |ms| ==> ms[i].Target() != k
    ensures Lookup(ApplyAll(live, ms, cred), k) == Lookup(live, k)
    decreases |ms|
  {
    if ms != [] { ApplyAllFrame(ApplyOne(live, ms[0], cred), ms[1..], cred, k); }
  }

  /** Every row a transaction names is among `keys`. */
  predicate Targets(tx: Signed, keys: set<Key>) {
    forall i :: 0 <= i < |tx.steps| ==> tx.steps[i].mutation.Target() in keys
  }

  // --------------------------------------------------------------- prefix queries

  /** `prefix <= name < prefix + b"\xff"`. */
  predicate InRange(name: Bytes, prefix: Bytes) {
    !Less(name, prefix) && Less(name, prefix + [255])
  }

  predicate Counted(h: Option<Held>) { h.Some? && h.value.epoch == EPOCH_NONE }

  /** The names `count_prefix` and `nth_prefix` range over: plaintext rows of one store. */
  function NamesUnder(live: Live, store: int, prefix: Bytes): set<Bytes> {
    set k | k in live && k.store == store && live[k].epoch == EPOCH_NONE && InRange(k.name, prefix) :: k.name
  }

  /** Recounting one key of the delta moves the count by what that key gains or loses. */
  lemma NamesUnderWrite(live: Live, k: Key, h: Option<Held>, store: int, prefix: Bytes)
    ensures var after := if h.Some? then live[k := h.value] else live - {k};
            var was, now := NamesUnder(live, store, prefix), NamesUnder(after, store, prefix);
            if k.store == store && InRange(k.name, prefix) && Counted(h) then now == was + {k.name}
            else if k.store == store && InRange(k.name, prefix) then now == was - {k.name}
            else now == was
    ensures k.name in NamesUnder(live, store, prefix) && k.store == store ==>
            Counted(Lookup(live, k)) && InRange(k.name, prefix)
    ensures k.store == store && Counted(Lookup(live, k)) && InRange(k.name, prefix) ==>
            k.name in NamesUnder(live, store, prefix)
  {
    var after := if h.Some? then live[k := h.value] else live - {k};
    var was, now := NamesUnder(live, store, prefix), NamesUnder(after, store, prefix);
    forall n | n != k.name || k.store != store ensures n in now <==> n in was {
      var j := Key(store, n);
      assert n in was <==> j in live && live[j].epoch == EPOCH_NONE && InRange(n, prefix);
      assert n in now <==> j in after && after[j].epoch == EPOCH_NONE && InRange(n, prefix);
    }
    if k.store == store {
      assert k.name in was <==> Counted(Lookup(live, k)) && InRange(k.name, prefix);
      assert k.name in now <==> Counted(h) && InRange(k.name, prefix) by { assert k == Key(store, k.name); }
    }
  }
}
