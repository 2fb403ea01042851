/** The one order of dude/consensus/canonical.py: transactions by ascending hash, and hashes
    themselves ascending. A stable sort by key, so duplicates stay. */
module Canonical {
  import opened Bytes
  import opened Ops
  import opened Settle

  /** `sorted(xs, key=key)`. */
  function SortBy<T>(key: T -> Bytes, xs: seq<T>): (r: seq<T>)
    ensures |r| == |xs|
  {
    if xs == [] then [] else Insert(key, xs[0], SortBy(key, xs[1..]))
  }

  function Insert<T>(key: T -> Bytes, x: T, xs: seq<T>): (r: seq<T>)
    ensures |r| == |xs| + 1
  {
    if xs == [] || !Less(key(xs[0]), key(x)) then [x] + xs
    else [xs[0]] + Insert(key, x, xs[1..])
  }

  ghost predicate Ordered<T>(key: T -> Bytes, xs: seq<T>) {
    forall i, j :: 0 <= i < j < |xs| ==> !Less(key(xs[j]), key(xs[i]))
  }

  ghost predicate OneToOne<T(!new)>(key: T -> Bytes) {
    forall x, y :: key(x) == key(y) ==> x == y
  }

  lemma {:induction false} InsertIs<T>(key: T -> Bytes, x: T, xs: seq<T>)
    requires Ordered(key, xs)
    ensures Ordered(key, Insert(key, x, xs)) && multiset(Insert(key, x, xs)) == multiset(xs) + multiset{x}
  {
    if xs == [] {
    } else if !Less(key(xs[0]), key(x)) {
      forall i | 0 <= i < |xs| ensures !Less(key(xs[i]), key(x)) {
        if Less(key(xs[i]), key(x)) { NotLessTransitive(key(xs[i]), key(xs[0]), key(x)); }
      }
      OrderedCons(key, x, xs);
    } else {
      InsertIs(key, x, xs[1..]);
      InsertedAfter(key, x, xs, Insert(key, x, xs[1..]));
    }
  }

  lemma InsertedAfter<T>(key: T -> Bytes, x: T, xs: seq<T>, rest: seq<T>)
    requires xs != [] && Ordered(key, xs) && Less(key(xs[0]), key(x))
    requires Ordered(key, rest) && multiset(rest) == multiset(xs[1..]) + multiset{x}
    ensures Ordered(key, [xs[0]] + rest) && multiset([xs[0]] + rest) == multiset(xs) + multiset{x}
  {
    assert xs == [xs[0]] + xs[1..];
    forall y | y in rest ensures !Less(key(y), key(xs[0])) {
      assert y in multiset(rest);
      if y == x { LessAsymmetric(key(xs[0]), key(x)); }
    }
    OrderedCons(key, xs[0], rest);
  }

  lemma NotLessTransitive(a: Bytes, b: Bytes, c: Bytes)
    requires Less(a, c) && !Less(b, c)
    ensures Less(a, b)
  {
    LessTotal(a, b);
    if !Less(a, b) {
      if b != a { LessTransitive(b, a, c); }
    }
  }

  lemma OrderedCons<T>(key: T -> Bytes, x: T, xs: seq<T>)
    requires Ordered(key, xs) && forall y :: y in xs ==> !Less(key(y), key(x))
    ensures Ordered(key, [x] + xs)
  {
  }

  /** Sorting gives an ordered permutation. */
  lemma {:induction false} SortIs<T>(key: T -> Bytes, xs: seq<T>)
    ensures Ordered(key, SortBy(key, xs)) && multiset(SortBy(key, xs)) == multiset(xs)
  {
    if xs != [] {
      SortIs(key, xs[1..]);
      InsertIs(key, xs[0], SortBy(key, xs[1..]));
      assert xs == [xs[0]] + xs[1..];
    }
  }

  lemma OrderedFirst<T(!new)>(key: T -> Bytes, a: seq<T>, b: seq<T>)
    requires OneToOne(key) && Ordered(key, a) && Ordered(key, b) && multiset(a) == multiset(b)
    ensures |a| == |b| && (a != [] ==> a[0] == b[0])
  {
    assert |a| == |multiset(a)| == |b|;
    if a != [] {
      assert a[0] in multiset(b) && b[0] in multiset(a);
      var i :| 0 <= i < |b| && b[i] == a[0];
      var j :| 0 <= j < |a| && a[j] == b[0];
      LessTotal(key(a[0]), key(b[0]));
      LessIrreflexive(key(a[0]));
    }
  }

  lemma TailCounts<T>(a: seq<T>)
    requires a != []
    ensures multiset(a[1..]) == multiset(a) - multiset{a[0]}
  {
    assert a == [a[0]] + a[1..];
  }

  lemma {:induction false} OrderedUnique<T(!new)>(key: T -> Bytes, a: seq<T>, b: seq<T>)
    requires OneToOne(key) && Ordered(key, a) && Ordered(key, b) && multiset(a) == multiset(b)
    ensures a == b
  {
    OrderedFirst(key, a, b);
    if a != [] {
      TailCounts(a);
      TailCounts(b);
      OrderedUnique(key, a[1..], b[1..]);
      assert a == [a[0]] + a[1..] && b == [b[0]] + b[1..];
    }
  }

  /** The order things arrived in leaves no trace. */
  lemma SortForgetsOrder<T(!new)>(key: T -> Bytes, a: seq<T>, b: seq<T>)
    requires OneToOne(key) && multiset(a) == multiset(b)
    ensures SortBy(key, a) == SortBy(key, b)
  {
    SortIs(key, a);
    SortIs(key, b);
    OrderedUnique(key, SortBy(key, a), SortBy(key, b));
  }

  function Itself(b: Bytes): Bytes { b }

  /** `hashes_canonical`. */
  function Hashes(hs: seq<Bytes>): seq<Bytes> { SortBy(Itself, hs) }

  function ByHash(env: Env): Signed -> Bytes { tx => OpHash(env, tx) }

  /** `bodies_canonical`. */
  function Bodies(env: Env, txs: seq<Signed>): seq<Signed> { SortBy(ByHash(env), txs) }
}
