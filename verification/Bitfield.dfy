/** Which pieces a peer holds, packed eight to a byte as app/peer/bitfield.py keeps them. */
module Bitfields {
  import opened Basics

  const FULL: bv8 := 0xFF

  function ByteCount(pieces: nat): nat {
    (pieces + 7) / 8
  }

  /** The bit of the `k`-th piece of a byte; the first piece is the highest bit. */
  function Mask(k: nat): bv8
    requires k < 8
  {
    (0x80 as bv8) >> k
  }

  predicate BitAt(s: seq<bv8>, i: nat)
    requires i < 8 * |s|
  {
    s[i / 8] & Mask(i % 8) != 0
  }

  function WithBit(b: bv8, k: nat, on: bool): bv8
    requires k < 8
  {
    if on then b | Mask(k) else b & !Mask(k)
  }

  /** Writing one bit of a byte leaves the other seven alone. */
  lemma WithBitSets(b: bv8, k: nat, on: bool, j: nat)
    requires k < 8 && j < 8
    ensures (WithBit(b, k, on) & Mask(j) != 0) == if j == k then on else b & Mask(j) != 0
  {
    MaskTable(k);
    MaskTable(j);
    Disjoint(b, Mask(k), Mask(j));
  }

  lemma MaskTable(k: nat)
    requires k < 8
    ensures Mask(k) == match k
                       case 0 => 0x80 case 1 => 0x40 case 2 => 0x20 case 3 => 0x10
                       case 4 => 0x08 case 5 => 0x04 case 6 => 0x02 case _ => 0x01
  {
  }

  predicate OneBit(m: bv8) {
    m == 0x80 || m == 0x40 || m == 0x20 || m == 0x10 || m == 0x08 || m == 0x04 || m == 0x02 || m == 0x01
  }

  lemma Disjoint(b: bv8, m: bv8, n: bv8)
    requires OneBit(m) && OneBit(n)
    ensures m != n ==> ((b | m) & n != 0) == (b & n != 0) && ((b & !m) & n != 0) == (b & n != 0)
    ensures (b | m) & m != 0 && (b & !m) & m == 0
  {
  }

  /** A byte is its eight bits. */
  lemma BitsMakeByte(a: bv8, b: bv8)
    requires forall k :: 0 <= k < 8 ==> (a & Mask(k) != 0) == (b & Mask(k) != 0)
    ensures a == b
  {
    MasksUsed(a, b);
    SameByte(a, b);
  }

  lemma MasksUsed(a: bv8, b: bv8)
    requires forall k :: 0 <= k < 8 ==> (a & Mask(k) != 0) == (b & Mask(k) != 0)
    ensures forall m :: OneBit(m) ==> (a & m != 0) == (b & m != 0)
  {
    assert Mask(0) == 0x80 && Mask(1) == 0x40 && Mask(2) == 0x20 && Mask(3) == 0x10;
    assert Mask(4) == 0x08 && Mask(5) == 0x04 && Mask(6) == 0x02 && Mask(7) == 0x01;
  }

  lemma SameByte(a: bv8, b: bv8)
    requires forall m :: OneBit(m) ==> (a & m != 0) == (b & m != 0)
    ensures a == b
  {
    assert OneBit(0x80) && OneBit(0x40) && OneBit(0x20) && OneBit(0x10);
    assert OneBit(0x08) && OneBit(0x04) && OneBit(0x02) && OneBit(0x01);
  }

  // ------------------------------------------------------------------- counting

  function One(on: bool): nat {
    if on then 1 else 0
  }

  /** `bit_count` of one byte. */
  function Ones(b: bv8): nat {
    One(b & Mask(0) != 0) + One(b & Mask(1) != 0) + One(b & Mask(2) != 0) + One(b & Mask(3) != 0)
    + One(b & Mask(4) != 0) + One(b & Mask(5) != 0) + One(b & Mask(6) != 0) + One(b & Mask(7) != 0)
  }

  /** `bit_count` of all of them. */
  function AllOnes(s: seq<bv8>): nat {
    if s == [] then 0 else AllOnes(s[..|s| - 1]) + Ones(s[|s| - 1])
  }

  /** The pieces below `n` whose bit is set. */
  ghost function Held(s: seq<bv8>, n: nat): set<nat>
    requires n <= 8 * |s|
  {
    set i: nat | i < n && BitAt(s, i)
  }

  lemma HeldStep(s: seq<bv8>, n: nat)
    requires n < 8 * |s|
    ensures |Held(s, n + 1)| == |Held(s, n)| + One(BitAt(s, n))
  {
    assert Held(s, n + 1) == if BitAt(s, n) then Held(s, n) + {n} else Held(s, n);
  }

  lemma HeldBit(s: seq<bv8>, j: nat, k: nat)
    requires j < |s| && k < 8
    ensures |Held(s, 8 * j + k + 1)| == |Held(s, 8 * j + k)| + One(s[j] & Mask(k) != 0)
  {
    SplitIndex(j, k);
    HeldStep(s, 8 * j + k);
  }

  lemma HeldByte(s: seq<bv8>, j: nat)
    requires j < |s|
    ensures |Held(s, 8 * j + 8)| == |Held(s, 8 * j)| + Ones(s[j])
  {
    HeldBit(s, j, 0);
    HeldBit(s, j, 1);
    HeldBit(s, j, 2);
    HeldBit(s, j, 3);
    HeldBit(s, j, 4);
    HeldBit(s, j, 5);
    HeldBit(s, j, 6);
    HeldBit(s, j, 7);
  }

  /** Counting ones in the bytes counts pieces. */
  lemma {:induction false} OnesAreHeld(s: seq<bv8>)
    ensures AllOnes(s) == |Held(s, 8 * |s|)|
  {
    if s == [] {
      assert Held(s, 0) == {};
    } else {
      var front := s[..|s| - 1];
      OnesAreHeld(front);
      HeldByte(s, |s| - 1);
      assert Held(s, 8 * |s| - 8) == Held(front, 8 * |front|);
    }
  }

  /** No bit beyond the last piece is set. */
  ghost predicate Clean(s: seq<bv8>, pieces: nat) {
    |s| == ByteCount(pieces) && forall i :: pieces <= i < 8 * |s| ==> !BitAt(s, i)
  }

  lemma CleanCount(s: seq<bv8>, pieces: nat)
    requires Clean(s, pieces)
    ensures AllOnes(s) == |Held(s, pieces)|
  {
    OnesAreHeld(s);
    assert Held(s, 8 * |s|) == Held(s, pieces);
  }

  lemma AllHeld(s: seq<bv8>, pieces: nat)
    requires pieces <= 8 * |s|
    ensures |Held(s, pieces)| == pieces <==> forall i :: 0 <= i < pieces ==> BitAt(s, i)
  {
    var all := Below(pieces);
    assert Held(s, pieces) <= all;
    if |Held(s, pieces)| == pieces {
      SameSizeSubset(Held(s, pieces), all);
      forall i | 0 <= i < pieces
        ensures BitAt(s, i)
      {
        assert i in all;
      }
    }
    if forall i :: 0 <= i < pieces ==> BitAt(s, i) {
      assert Held(s, pieces) == all;
    }
  }

  lemma SameSizeSubset(a: set<nat>, b: set<nat>)
    requires a <= b && |a| == |b|
    ensures a == b
  {
    assert b == a + (b - a);
  }

  /** Two clean bitfields of one torrent with the same pieces are the same bytes. */
  lemma SameHeldSameBytes(a: seq<bv8>, b: seq<bv8>, pieces: nat)
    requires Clean(a, pieces) && Clean(b, pieces)
    requires forall i :: 0 <= i < pieces ==> BitAt(a, i) == BitAt(b, i)
    ensures a == b
  {
    forall j | 0 <= j < |a|
      ensures a[j] == b[j]
    {
      forall k | 0 <= k < 8
        ensures (a[j] & Mask(k) != 0) == (b[j] & Mask(k) != 0)
      {
        SplitIndex(j, k);
        assert BitAt(a, 8 * j + k) == BitAt(b, 8 * j + k);
      }
      BitsMakeByte(a[j], b[j]);
    }
  }

  lemma SplitIndex(j: nat, k: nat)
    requires k < 8
    ensures (8 * j + k) / 8 == j && (8 * j + k) % 8 == k
  {
  }

  // -------------------------------------------------------------------- the object

  class Bitfield {
    const pieces: nat
    const bits: array<bv8>

    ghost predicate Valid()
      reads bits
    {
      Clean(bits[..], pieces)
    }

    /** A new bitfield holds nothing. */
    constructor (pieces: nat)
      ensures this.pieces == pieces && fresh(bits) && Valid()
      ensures forall i :: 0 <= i < pieces ==> !BitAt(bits[..], i)
    {
      this.pieces := pieces;
      this.bits := new bv8[ByteCount(pieces)](_ => 0);
    }

    function Has(index: nat): bool
      requires index < pieces && Valid()
      reads bits
    {
      BitAt(bits[..], index)
    }

    /** One piece changes, every other bit stays as it was. */
    method Set(index: nat, value: bool)
      requires Valid() && index < pieces
      modifies bits
      ensures Valid()
      ensures forall i :: 0 <= i < pieces ==>
                BitAt(bits[..], i) == if i == index then value else old(BitAt(bits[..], i))
    {
      var at, k := index / 8, index % 8;
      ghost var before := bits[..];
      bits[at] := WithBit(bits[at], k, value);
      BytePatched(before, index, value, bits[..]);
    }

    static lemma BytePatched(before: seq<bv8>, index: nat, value: bool, after: seq<bv8>)
      requires index < 8 * |before| && after == before[index / 8 := WithBit(before[index / 8], index % 8, value)]
      ensures forall i :: 0 <= i < 8 * |before| ==> BitAt(after, i) == if i == index then value else BitAt(before, i)
    {
      forall i | 0 <= i < 8 * |before|
        ensures BitAt(after, i) == if i == index then value else BitAt(before, i)
      {
        if i / 8 == index / 8 {
          WithBitSets(before[index / 8], index % 8, value, i % 8);
        }
      }
    }

    /** How many pieces are held, and whether they are all there. */
    method Count() returns (n: nat)
      requires Valid()
      ensures n == |Held(bits[..], pieces)|
      ensures n == pieces <==> forall i :: 0 <= i < pieces ==> BitAt(bits[..], i)
    {
      n := 0;
      for j := 0 to bits.Length
        invariant n == AllOnes(bits[..j])
      {
        assert bits[..j + 1][..j] == bits[..j];
        n := n + Ones(bits[j]);
      }
      assert bits[..bits.Length] == bits[..];
      CleanCount(bits[..], pieces);
      AllHeld(bits[..], pieces);
    }

    /** The wire form is refused when short; what is accepted keeps every piece's bit, and loses only
        trailing bytes and spare bits. */
    static method FromBytes(data: seq<bv8>, pieces: nat) returns (r: Option<Bitfield>)
      ensures r.Some? <==> |data| >= ByteCount(pieces)
      ensures r.Some? ==>
                && fresh(r.value) && fresh(r.value.bits) && r.value.pieces == pieces && r.value.Valid()
                && forall i :: 0 <= i < pieces ==> r.value.Has(i) == BitAt(data, i)
      ensures r.Some? && Clean(data, pieces) ==> r.value.bits[..] == data
    {
      if |data| < ByteCount(pieces) {
        return None;
      }
      var b := new Bitfield(pieces);
      b.Load(data);
      if Clean(data, pieces) {
        SameHeldSameBytes(b.bits[..], data, pieces);
      }
      return Some(b);
    }

    method Load(data: seq<bv8>)
      requires Valid() && |data| >= ByteCount(pieces)
      modifies bits
      ensures Valid() && forall i :: 0 <= i < pieces ==> Has(i) == BitAt(data, i)
    {
      for j := 0 to bits.Length
        invariant forall k :: 0 <= k < j ==> bits[k] == data[k]
      {
        bits[j] := data[j];
      }
      MaskSpareBits();
    }

    /** The bits that belong to no piece are cleared, the others kept. */
    method MaskSpareBits()
      requires bits.Length == ByteCount(pieces)
      modifies bits
      ensures Valid()
      ensures forall i :: 0 <= i < pieces ==> BitAt(bits[..], i) == old(BitAt(bits[..], i))
    {
      if bits.Length == 0 {
        return;
      }
      var spare := pieces % 8;
      if spare != 0 {
        var last := bits.Length - 1;
        ghost var before := bits[..];
        bits[last] := bits[last] & (FULL << (8 - spare));
        TailCleared(before, pieces, bits[..]);
      }
    }

    static lemma TailCleared(before: seq<bv8>, pieces: nat, after: seq<bv8>)
      requires before != [] && |before| == ByteCount(pieces) && pieces % 8 != 0
      requires after == before[|before| - 1 := before[|before| - 1] & (FULL << (8 - pieces % 8))]
      ensures Clean(after, pieces)
      ensures forall i :: 0 <= i < pieces ==> BitAt(after, i) == BitAt(before, i)
    {
      forall i | 0 <= i < 8 * |before|
        ensures BitAt(after, i) == (i < pieces && BitAt(before, i))
      {
        OneTailBit(before, pieces, after, i);
      }
    }
  }

  lemma InLastByte(pieces: nat, i: nat)
    requires pieces % 8 != 0 && i / 8 == ByteCount(pieces) - 1
    ensures i < pieces <==> i % 8 < pieces % 8
  {
  }

  lemma OneTailBit(before: seq<bv8>, pieces: nat, after: seq<bv8>, i: nat)
    requires before != [] && |before| == ByteCount(pieces) && pieces % 8 != 0
    requires after == before[|before| - 1 := before[|before| - 1] & (FULL << (8 - pieces % 8))]
    requires i < 8 * |before|
    ensures BitAt(after, i) == (i < pieces && BitAt(before, i))
  {
    if i / 8 == |before| - 1 {
      HighBits(before[i / 8], 8 - pieces % 8, i % 8);
      InLastByte(pieces, i);
    }
  }

  /** Masking with the high bits keeps exactly the first pieces of a byte. */
  lemma HighBits(b: bv8, spare: nat, k: nat)
    requires 0 < spare < 8 && k < 8
    ensures ((b & (FULL << spare)) & Mask(k) != 0) == (k < 8 - spare && b & Mask(k) != 0)
  {
    MaskTable(k);
    HighTable(spare);
  }

  lemma HighTable(spare: nat)
    requires 0 < spare < 8
    ensures FULL << spare == match spare
                             case 1 => 0xFE case 2 => 0xFC case 3 => 0xF8 case 4 => 0xF0
                             case 5 => 0xE0 case 6 => 0xC0 case _ => 0x80
  {
  }
}
