/** The row names of dude/ds/queue.py: pending jobs, each worker's active jobs, and leases filed
    under a deadline in fixed-width hex so that name order is deadline order. */
module QueueNames {
  import opened Bytes
  import opened Views

  const SLASH: byte := 47
  const MAX_DEADLINE := 0x1_0000_0000

  datatype RowId = PendingRow(job: Bytes) | ActiveRow(worker: Bytes, job: Bytes) | LeaseRow(deadline: nat, job: Bytes)

  predicate Plain(id: Bytes) { forall i :: 0 <= i < |id| ==> id[i] != SLASH }

  /** Identifiers hold no `/`, deadlines fit eight hex digits. */
  predicate RowOk(r: RowId) {
    Plain(r.job) && (r.ActiveRow? ==> Plain(r.worker)) && (r.LeaseRow? ==> r.deadline < MAX_DEADLINE)
  }

  function HexDigit(x: nat): byte
    requires x < 16
  {
    if x < 10 then 48 + x else 55 + x
  }

  /** `"%0nX" % d` for `d` of at most `n` digits. */
  function Hex(d: nat, n: nat): (s: Bytes)
    ensures |s| == n
  {
    if n == 0 then [] else Hex(d / 16, n - 1) + [HexDigit(d % 16)]
  }

  function FromHexDigit(c: byte): Option<nat> {
    if 48 <= c <= 57 then Some(c - 48) else if 65 <= c <= 70 then Some(c - 55) else None
  }

  /** `int(s, 16)` of upper-case digits; `None` where it raises. */
  function FromHex(s: Bytes): Option<nat> {
    if s == [] then Some(0) else
      match (FromHex(s[..|s| - 1]), FromHexDigit(s[|s| - 1]))
      case (Some(high), Some(low)) => Some(16 * high + low)
      case _ => None
  }

  function Pow16(n: nat): nat { if n == 0 then 1 else 16 * Pow16(n - 1) }

  lemma EightDigits()
    ensures Pow16(8) == MAX_DEADLINE
  {
    assert Pow16(4) == 65536;
    assert Pow16(5) == 16 * Pow16(4) && Pow16(6) == 16 * Pow16(5) && Pow16(7) == 16 * Pow16(6);
  }

  lemma {:induction false} HexRoundTrip(d: nat, n: nat)
    requires d < Pow16(n)
    ensures FromHex(Hex(d, n)) == Some(d)
  {
    if n > 0 {
      HexRoundTrip(d / 16, n - 1);
      var s := Hex(d, n);
      assert s[..n - 1] == Hex(d / 16, n - 1);
    }
  }

  /** Fixed-width hex keeps the order of numbers. */
  lemma {:induction false} HexOrder(d: nat, e: nat, n: nat)
    requires d < e < Pow16(n)
    ensures Less(Hex(d, n), Hex(e, n))
  {
    var lowD, lowE := [HexDigit(d % 16)], [HexDigit(e % 16)];
    if d / 16 < e / 16 {
      HexOrder(d / 16, e / 16, n - 1);
      LessHead(Hex(d / 16, n - 1), Hex(e / 16, n - 1), lowD, lowE);
    } else {
      assert d % 16 < e % 16;
      LessPrefix(Hex(d / 16, n - 1), lowD, lowE);
    }
  }

  lemma {:induction false} HexPlain(d: nat, n: nat)
    ensures Plain(Hex(d, n))
  {
    if n > 0 { HexPlain(d / 16, n - 1); }
  }

  // ----------------------------------------------------------------------- full names

  function Tag(r: RowId): byte {
    match r
    case PendingRow(_) => 80
    case ActiveRow(_, _) => 65
    case LeaseRow(_, _) => 76
  }

  function Tail(r: RowId): Bytes {
    match r
    case PendingRow(job) => job
    case ActiveRow(worker, job) => worker + ([SLASH] + job)
    case LeaseRow(deadline, job) => Hex(deadline, 8) + ([SLASH] + job)
  }

  function NameOf(prefix: Bytes, r: RowId): Bytes { prefix + ([Tag(r), SLASH] + Tail(r)) }

  /** The name lies in one of the queue's three maps. */
  predicate InQueue(prefix: Bytes, name: Bytes) {
    var n := |prefix|;
    |name| >= n + 2 && name[..n] == prefix && (name[n] == 80 || name[n] == 65 || name[n] == 76) && name[n + 1] == SLASH
  }

  lemma NameParts(prefix: Bytes, r: RowId)
    ensures var name, n := NameOf(prefix, r), |prefix|;
            InQueue(prefix, name) && name[..n] == prefix && name[n] == Tag(r) && name[n + 2..] == Tail(r)
  {
  }

  /** The first `/` ends the first part. */
  lemma {:induction false} SplitUnique(a: Bytes, x: Bytes, b: Bytes, y: Bytes)
    requires Plain(a) && Plain(b) && a + ([SLASH] + x) == b + ([SLASH] + y)
    ensures a == b && x == y
  {
    var s, t := a + ([SLASH] + x), b + ([SLASH] + y);
    assert s[0] == if a == [] then SLASH else a[0];
    assert t[0] == if b == [] then SLASH else b[0];
    assert a == [] ==> s[1..] == x;
    assert b == [] ==> t[1..] == y;
    if a != [] && b != [] {
      assert s[1..] == a[1..] + ([SLASH] + x) && t[1..] == b[1..] + ([SLASH] + y);
      SplitUnique(a[1..], x, b[1..], y);
      assert a == [a[0]] + a[1..] && b == [b[0]] + b[1..];
    }
  }

  /** No two rows of a queue share a name. */
  lemma NameInjective(prefix: Bytes, r: RowId, s: RowId)
    requires RowOk(r) && RowOk(s) && NameOf(prefix, r) == NameOf(prefix, s)
    ensures r == s
  {
    NameParts(prefix, r);
    NameParts(prefix, s);
    match r {
      case PendingRow(_) =>
      case ActiveRow(w, j) => SplitUnique(w, j, s.worker, s.job);
      case LeaseRow(d, j) =>
        HexPlain(d, 8);
        HexPlain(s.deadline, 8);
        SplitUnique(Hex(d, 8), j, Hex(s.deadline, 8), s.job);
        EightDigits();
        HexRoundTrip(d, 8);
        HexRoundTrip(s.deadline, 8);
    }
  }

  // ------------------------------------------------------------------------ lease keys

  /** `key.split(b"/", 1)`; `None` where unpacking the pair raises. */
  function Split(key: Bytes): Option<(Bytes, Bytes)> {
    if key == [] then None
    else if key[0] == SLASH then Some(([], key[1..]))
    else
      match Split(key[1..])
      case None => None
      case Some((a, b)) => Some(([key[0]] + a, b))
  }

  lemma {:induction false} SplitIs(a: Bytes, b: Bytes)
    requires Plain(a)
    ensures Split(a + ([SLASH] + b)) == Some((a, b))
  {
    var s := a + ([SLASH] + b);
    if a == [] {
      assert s[1..] == b;
    } else {
      assert s[0] == a[0] && s[1..] == a[1..] + ([SLASH] + b);
      SplitIs(a[1..], b);
      assert a == [a[0]] + a[1..];
    }
  }

  /** `_parse_lease_key`. */
  function ParseLeaseKey(key: Bytes): Option<(nat, Bytes)> {
    match Split(key)
    case None => None
    case Some((hex, job)) =>
      if hex == [] then None else
      match FromHex(hex)
      case None => None
      case Some(d) => Some((d, job))
  }

  lemma ParseLeaseKeyOf(d: nat, job: Bytes)
    requires d < MAX_DEADLINE
    ensures ParseLeaseKey(Tail(LeaseRow(d, job))) == Some((d, job))
  {
    HexPlain(d, 8);
    SplitIs(Hex(d, 8), job);
    EightDigits();
    HexRoundTrip(d, 8);
  }

  /** Lease names ascend by deadline, then by job. */
  lemma LeaseOrder(prefix: Bytes, d: nat, j: Bytes, e: nat, k: Bytes)
    requires d < MAX_DEADLINE && e < MAX_DEADLINE
    ensures Less(NameOf(prefix, LeaseRow(d, j)), NameOf(prefix, LeaseRow(e, k))) <==> d < e || (d == e && Less(j, k))
  {
    var a, b := Tail(LeaseRow(d, j)), Tail(LeaseRow(e, k));
    LessPrefix(prefix, [76, SLASH] + a, [76, SLASH] + b);
    LessPrefix([76, SLASH], a, b);
    EightDigits();
    if d < e {
      HexOrder(d, e, 8);
      LessHead(Hex(d, 8), Hex(e, 8), [SLASH] + j, [SLASH] + k);
    } else if e < d {
      HexOrder(e, d, 8);
      LessHead(Hex(e, 8), Hex(d, 8), [SLASH] + k, [SLASH] + j);
      LessAsymmetric(b, a);
    } else {
      LessPrefix(Hex(d, 8), [SLASH] + j, [SLASH] + k);
      LessPrefix([SLASH], j, k);
    }
  }

  // ----------------------------------------------------------------- what queries see

  /** A prefix query ranges over the names that extend the prefix by nothing or by a byte other
      than 0xFF. */
  lemma {:induction false} RangeIsPrefix(name: Bytes, prefix: Bytes)
    ensures InRange(name, prefix) <==>
              |name| >= |prefix| && name[..|prefix|] == prefix && (|name| > |prefix| ==> name[|prefix|] != 255)
  {
    if prefix == [] {
      assert name[..0] == prefix;
      if name != [] { assert Less(name[1..], []) == false; }
    } else if name != [] && name[0] == prefix[0] {
      RangeIsPrefix(name[1..], prefix[1..]);
      assert (prefix + [255])[1..] == prefix[1..] + [255];
      if |name| >= |prefix| {
        assert name[..|prefix|][1..] == name[1..][..|prefix| - 1];
        if name[1..][..|prefix| - 1] == prefix[1..] {
          assert name[..|prefix|] == [name[0]] + name[..|prefix|][1..];
          assert prefix == [prefix[0]] + prefix[1..];
        }
      }
    } else {
      assert name != [] && |name| >= |prefix| ==> name[..|prefix|][0] == name[0];
      assert (prefix + [255])[0] == prefix[0];
    }
  }
}
