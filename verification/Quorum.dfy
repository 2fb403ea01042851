/** Quorum arithmetic of dude/quorum.py and the intersection it buys. A roster of `n` nodes has at
    least one (the source refuses fewer with `QuorumError`). */
module Quorum {

  /** `-(-2 * n // 3)`: two thirds, rounded up. */
  function Size(n: int): int
    requires n >= 1
  {
    -((-2 * n) / 3)
  }

  function Intersection(n: int): int
    requires n >= 1
  {
    2 * Size(n) - n
  }

  function Tolerates(n: int): int
    requires n >= 1
  {
    if Intersection(n) - 1 > 0 then Intersection(n) - 1 else 0
  }

  function Corroboration(n: int): int
    requires n >= 1
  {
    Tolerates(n) + 1
  }

  /** A quorum is the least majority of thirds, fits the roster, and any two quorums share more
      members than may be faulty; so does a quorum on its own, and so does a corroborating set. */
  lemma SizeBounds(n: int)
    requires n >= 1
    ensures 3 * Size(n) >= 2 * n && 3 * (Size(n) - 1) < 2 * n && 1 <= Size(n) <= n
    ensures 0 <= Tolerates(n) < Intersection(n) <= Size(n)
    ensures Tolerates(n) < Corroboration(n) <= Size(n)
  {
  }

  lemma {:induction false} SubsetSize<T>(a: set<T>, b: set<T>)
    requires a <= b
    ensures |a| <= |b|
  {
    if a != {} {
      var x :| x in a;
      SubsetSize(a - {x}, b - {x});
    }
  }

  lemma Overlap<T>(a: set<T>, b: set<T>, all: set<T>)
    requires a <= all && b <= all
    ensures |a * b| >= |a| + |b| - |all|
  {
    SubsetSize(a + b, all);
  }

  lemma {:induction false} SomeOf<T>(all: set<T>, k: nat) returns (part: set<T>)
    requires k <= |all|
    ensures part <= all && |part| == k
    decreases k
  {
    part := {};
    if k > 0 {
      var x :| x in all;
      part := SomeOf(all - {x}, k - 1);
      part := part + {x};
    }
  }

  /** The tolerance is the most there can be: in every roster some two quorums share exactly one
      member more than it, so with that many faulty they might share no other. */
  lemma ToleranceIsTight<T>(roster: set<T>) returns (a: set<T>, b: set<T>)
    requires |roster| >= 1
    ensures a <= roster && b <= roster && |a| == |b| == Size(|roster|)
    ensures |a * b| == Tolerates(|roster|) + 1 == Corroboration(|roster|)
  {
    var n, q := |roster|, Size(|roster|);
    SizeBounds(n);
    var shared := SomeOf(roster, 2 * q - n);
    var mine := SomeOf(roster - shared, n - q);
    var yours := roster - shared - mine;
    a, b := shared + mine, shared + yours;
    assert a * b == shared;
  }

  /** Two quorums of one roster share a member that is not faulty. */
  lemma QuorumsShareHonest<T>(roster: set<T>, faulty: set<T>, a: set<T>, b: set<T>) returns (h: T)
    requires |roster| >= 1 && a <= roster && b <= roster
    requires |a| >= Size(|roster|) && |b| >= Size(|roster|) && |faulty| <= Tolerates(|roster|)
    ensures h in a && h in b && h !in faulty
  {
    SizeBounds(|roster|);
    Overlap(a, b, roster);
    if a * b <= faulty { SubsetSize(a * b, faulty); }
    h :| h in a * b && h !in faulty;
  }

  /** Any set of `corroboration(n)` members has one that is not faulty. */
  lemma CorroborationHasHonest<T>(n: int, faulty: set<T>, a: set<T>) returns (h: T)
    requires n >= 1 && |a| >= Corroboration(n) && |faulty| <= Tolerates(n)
    ensures h in a && h !in faulty
  {
    if a <= faulty { SubsetSize(a, faulty); }
    h :| h in a && h !in faulty;
  }
}
