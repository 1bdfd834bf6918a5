/** Decimal text of natural numbers, and the byte order of keys. */
module Digits {
  import opened Basics

  const ZERO: byte := 48
  const NINE: byte := 57

  predicate IsDigit(b: byte) {
    ZERO <= b <= NINE
  }

  predicate AllDigits(s: seq<byte>) {
    forall i :: 0 <= i < |s| ==> IsDigit(s[i])
  }

  /** What `%d` prints. */
  function Decimal(n: nat): (s: seq<byte>)
    ensures s != [] && AllDigits(s)
    ensures |s| > 1 ==> s[0] != ZERO
    ensures |s| == 1 <==> n < 10
    ensures n > 0 ==> s[0] != ZERO
  {
    if n < 10 then [ZERO + n] else Decimal(n / 10) + [ZERO + n % 10]
  }

  /** What `int` reads. */
  function Number(s: seq<byte>): nat
    requires AllDigits(s)
  {
    if s == [] then 0 else Number(s[..|s| - 1]) * 10 + (s[|s| - 1] - ZERO)
  }

  lemma {:induction false} NumberOfDecimal(n: nat)
    ensures Number(Decimal(n)) == n
  {
    var s := Decimal(n);
    if n < 10 {
      assert s[..0] == [];
    } else {
      NumberOfDecimal(n / 10);
      assert s[..|s| - 1] == Decimal(n / 10);
    }
  }

  /** Text without a leading zero is the only text of its number. */
  lemma {:induction false} DecimalOfNumber(s: seq<byte>)
    requires s != [] && AllDigits(s) && (|s| > 1 ==> s[0] != ZERO)
    ensures Decimal(Number(s)) == s
    ensures |s| > 1 ==> Number(s) >= 10
    ensures s[0] != ZERO ==> Number(s) > 0
  {
    var front := s[..|s| - 1];
    if |s| == 1 {
      assert Number(front) == 0;
    } else {
      DecimalOfNumber(front);
      assert Number(s) / 10 == Number(front);
    }
  }

  function Power(k: nat): nat {
    if k == 0 then 1 else 10 * Power(k - 1)
  }

  lemma {:induction false} DigitsBound(n: nat, k: nat)
    requires k > 0 && n < Power(k)
    ensures |Decimal(n)| <= k
  {
    if n >= 10 && k > 1 {
      DigitsBound(n / 10, k - 1);
    }
  }

  // ----------------------------------------------------------------- key order

  /** Python's `<` on bytes. */
  predicate Less(a: seq<byte>, b: seq<byte>) {
    b != [] && (a == [] || a[0] < b[0] || (a[0] == b[0] && Less(a[1..], b[1..])))
  }

  /** What byte order means, position by position: after `n` bytes in common, `a` is at its end or has the
      smaller byte. */
  ghost predicate SplitsAt(a: seq<byte>, b: seq<byte>, n: nat) {
    n <= |a| && n < |b| && a[..n] == b[..n] && (n == |a| || a[n] < b[n])
  }

  ghost predicate Precedes(a: seq<byte>, b: seq<byte>) {
    exists n: nat :: SplitsAt(a, b, n)
  }

  lemma {:induction false} LessSplits(a: seq<byte>, b: seq<byte>) returns (n: nat)
    requires Less(a, b)
    ensures SplitsAt(a, b, n)
  {
    if a == [] || a[0] < b[0] {
      n := 0;
    } else {
      var m := LessSplits(a[1..], b[1..]);
      n := m + 1;
      assert a[..n] == [a[0]] + a[1..][..m] && b[..n] == [b[0]] + b[1..][..m];
    }
  }

  lemma {:induction false} SplitIsLess(a: seq<byte>, b: seq<byte>, n: nat)
    requires SplitsAt(a, b, n)
    ensures Less(a, b)
    decreases n
  {
    if n > 0 {
      assert a[0] == a[..n][0] == b[..n][0] == b[0];
      assert a[1..][..n - 1] == a[..n][1..] && b[1..][..n - 1] == b[..n][1..];
      SplitIsLess(a[1..], b[1..], n - 1);
    }
  }

  /** The order of keys is the order of their first different bytes, a beginning before what it begins. */
  lemma LessIsByteOrder(a: seq<byte>, b: seq<byte>)
    ensures Less(a, b) <==> Precedes(a, b)
  {
    if Less(a, b) {
      var n := LessSplits(a, b);
    }
    if Precedes(a, b) {
      var n: nat :| SplitsAt(a, b, n);
      SplitIsLess(a, b, n);
    }
  }

  /** The keys of a dictionary are emitted in byte order. */
  lemma AscendingInBytes(keys: seq<seq<byte>>)
    ensures Ascending(keys) <==> forall i, j :: 0 <= i < j < |keys| ==> Precedes(keys[i], keys[j])
  {
    forall i, j | 0 <= i < j < |keys|
      ensures Less(keys[i], keys[j]) <==> Precedes(keys[i], keys[j])
    {
      LessIsByteOrder(keys[i], keys[j]);
    }
  }

  lemma {:induction false} LessIrreflexive(a: seq<byte>)
    ensures !Less(a, a)
  {
    if a != [] {
      LessIrreflexive(a[1..]);
    }
  }

  lemma {:induction false} LessTransitive(a: seq<byte>, b: seq<byte>, c: seq<byte>)
    requires Less(a, b) && Less(b, c)
    ensures Less(a, c)
  {
    if a != [] && a[0] == b[0] == c[0] {
      LessTransitive(a[1..], b[1..], c[1..]);
    }
  }

  lemma {:induction false} LessTotal(a: seq<byte>, b: seq<byte>)
    ensures Less(a, b) || a == b || Less(b, a)
  {
    if a != [] && b != [] && a[0] == b[0] {
      LessTotal(a[1..], b[1..]);
      assert a == [a[0]] + a[1..] && b == [b[0]] + b[1..];
    }
  }

  ghost predicate Ascending(keys: seq<seq<byte>>) {
    forall i, j :: 0 <= i < j < |keys| ==> Less(keys[i], keys[j])
  }

  /** Where `k` belongs in an ascending list. */
  function Insert(keys: seq<seq<byte>>, k: seq<byte>): (r: seq<seq<byte>>)
    ensures |r| == |keys| + 1
  {
    if keys == [] || Less(k, keys[0]) then [k] + keys else [keys[0]] + Insert(keys[1..], k)
  }

  lemma {:induction false} InsertKeepsAscending(keys: seq<seq<byte>>, k: seq<byte>)
    requires Ascending(keys) && k !in keys
    ensures Ascending(Insert(keys, k))
    ensures forall x :: x in Insert(keys, k) <==> x in keys || x == k
  {
    if keys == [] {
    } else if Less(k, keys[0]) {
      forall j | 0 < j < |keys|
        ensures Less(k, keys[j])
      {
        LessTransitive(k, keys[0], keys[j]);
      }
    } else {
      LessTotal(k, keys[0]);
      InsertKeepsAscending(keys[1..], k);
      var rest := Insert(keys[1..], k);
      forall j | 0 <= j < |rest|
        ensures Less(keys[0], rest[j])
      {
        assert rest[j] in rest;
      }
    }
  }

  /** The keys of a dictionary in the order the encoder emits them. */
  ghost function Sorted(keys: set<seq<byte>>): (r: seq<seq<byte>>)
    ensures Ascending(r)
    ensures forall x :: x in r <==> x in keys
  {
    if keys == {} then []
    else
      var k :| k in keys;
      var rest := Sorted(keys - {k});
      InsertKeepsAscending(rest, k);
      Insert(rest, k)
  }

  /** There is only one ascending list of a set of keys. */
  lemma {:induction false} AscendingUnique(a: seq<seq<byte>>, b: seq<seq<byte>>)
    requires Ascending(a) && Ascending(b) && forall x :: x in a <==> x in b
    ensures a == b
  {
    if a == [] {
      HasMember(b);
    } else {
      SameHead(a, b);
      forall x
        ensures x in a[1..] <==> x in b[1..]
      {
        TailMembers(a, x);
        TailMembers(b, x);
      }
      AscendingUnique(a[1..], b[1..]);
      assert a == [a[0]] + a[1..] && b == [b[0]] + b[1..];
    }
  }

  lemma TailMembers(a: seq<seq<byte>>, x: seq<byte>)
    requires Ascending(a) && a != []
    ensures x in a[1..] <==> x in a && x != a[0]
  {
    LessIrreflexive(a[0]);
    assert a == [a[0]] + a[1..];
    forall j | 1 <= j < |a|
      ensures a[j] != a[0]
    {
      assert Less(a[0], a[j]);
    }
  }

  lemma SameHead(a: seq<seq<byte>>, b: seq<seq<byte>>)
    requires Ascending(a) && Ascending(b) && a != [] && forall x :: x in a <==> x in b
    ensures b != [] && a[0] == b[0]
  {
    assert a[0] in b;
    var i :| 0 <= i < |b| && b[i] == a[0];
    assert b[0] in a;
    var j :| 0 <= j < |a| && a[j] == b[0];
    if i > 0 && j > 0 {
      LessTransitive(a[0], b[0], a[0]);
      LessIrreflexive(a[0]);
    }
  }
}
