/** Byte strings as the source handles them: sequences of integers 0..255, compared
    lexicographically (the order Python and SQLite give to `bytes`). */
module Bytes {

  type byte = x: int | 0 <= x < 256
  type Bytes = seq<byte>

  datatype Option<+T> = None | Some(value: T)

  predicate Less(a: Bytes, b: Bytes) {
    b != [] && (a == [] || a[0] < b[0] || (a[0] == b[0] && Less(a[1..], b[1..])))
  }

  lemma {:induction false} LessIrreflexive(a: Bytes)
    ensures !Less(a, a)
  {
    if a != [] { LessIrreflexive(a[1..]); }
  }

  lemma {:induction false} LessTransitive(a: Bytes, b: Bytes, c: Bytes)
    requires Less(a, b) && Less(b, c)
    ensures Less(a, c)
  {
    if a != [] && a[0] == b[0] == c[0] { LessTransitive(a[1..], b[1..], c[1..]); }
  }

  lemma {:induction false} LessTotal(a: Bytes, b: Bytes)
    ensures a == b || Less(a, b) || Less(b, a)
  {
    if a != [] && b != [] && a[0] == b[0] {
      LessTotal(a[1..], b[1..]);
      if a[1..] == b[1..] { assert a == [a[0]] + a[1..] && b == [b[0]] + b[1..]; }
    }
  }

  lemma LessAsymmetric(a: Bytes, b: Bytes)
    requires Less(a, b)
    ensures !Less(b, a) && a != b
  {
    LessIrreflexive(a);
    if Less(b, a) { LessTransitive(a, b, a); }
  }

  /** Comparing two strings with a common prefix compares what follows it. */
  lemma {:induction false} LessPrefix(p: Bytes, a: Bytes, b: Bytes)
    ensures Less(p + a, p + b) <==> Less(a, b)
  {
    if p == [] {
      assert p + a == a && p + b == b;
    } else {
      LessPrefix(p[1..], a, b);
      assert (p + a)[1..] == p[1..] + a && (p + b)[1..] == p[1..] + b;
    }
  }

  /** Two strings of one length that differ are ordered by what precedes the rest. */
  lemma {:induction false} LessHead(a: Bytes, b: Bytes, x: Bytes, y: Bytes)
    requires |a| == |b| && Less(a, b)
    ensures Less(a + x, b + y)
  {
    assert (a + x)[0] == a[0] && (b + y)[0] == b[0];
    if a[0] == b[0] {
      LessHead(a[1..], b[1..], x, y);
      assert (a + x)[1..] == a[1..] + x && (b + y)[1..] == b[1..] + y;
    }
  }

  predicate Ascending(ks: seq<Bytes>) {
    forall i, j {:trigger Less(ks[i], ks[j])} :: 0 <= i < j < |ks| ==> Less(ks[i], ks[j])
  }

  ghost predicate IsLeast(k: Bytes, s: set<Bytes>) {
    k in s && forall j :: j in s ==> j == k || Less(k, j)
  }

  lemma {:induction false} LeastExists(s: set<Bytes>)
    requires s != {}
    ensures exists k :: IsLeast(k, s)
    decreases |s|
  {
    var a :| a in s;
    if s == {a} {
      assert IsLeast(a, s);
    } else {
      var rest := s - {a};
      assert s == rest + {a};
      LeastExists(rest);
      var k :| IsLeast(k, rest);
      LessTotal(a, k);
      if Less(a, k) {
        forall j | j in s ensures j == a || Less(a, j) {
          if j != a && j != k { LessTransitive(a, k, j); }
        }
        assert IsLeast(a, s);
      } else {
        assert IsLeast(k, s);
      }
    }
  }

  /** The keys in the order `sorted` gives them. */
  ghost function SortedKeys(s: set<Bytes>): (ks: seq<Bytes>)
    ensures |ks| == |s|
    ensures forall k :: k in ks <==> k in s
    ensures Ascending(ks)
    decreases |s|
  {
    if s == {} then [] else
      LeastExists(s);
      var k :| IsLeast(k, s);
      [k] + SortedKeys(s - {k})
  }

  lemma AscendingTail(ks: seq<Bytes>)
    requires ks != [] && Ascending(ks)
    ensures Ascending(ks[1..])
    ensures forall x :: x in ks[1..] <==> x in ks && x != ks[0]
    ensures forall x :: x in ks ==> x == ks[0] || Less(ks[0], x)
  {
    forall x | x in ks[1..] ensures x in ks && x != ks[0] {
      var i :| 0 <= i < |ks[1..]| && ks[1..][i] == x;
      LessAsymmetric(ks[0], ks[i + 1]);
    }
    assert ks == [ks[0]] + ks[1..];
  }

  /** Only one ascending sequence lists a given set. */
  lemma {:induction false} AscendingUnique(a: seq<Bytes>, b: seq<Bytes>)
    requires Ascending(a) && Ascending(b)
    requires forall x :: x in a <==> x in b
    ensures a == b
  {
    assert b != [] ==> b[0] in b;
    if a != [] {
      assert a[0] in b;
      assert b[0] in a;
      AscendingTail(a);
      AscendingTail(b);
      if a[0] != b[0] { LessAsymmetric(a[0], b[0]); }
      AscendingUnique(a[1..], b[1..]);
      assert a == [a[0]] + a[1..] && b == [b[0]] + b[1..];
    }
  }
}
