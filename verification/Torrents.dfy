/** The geometry of a torrent: pieces as consecutive ranges of one byte stream
    (app/torrent/metadata.py). */
module Torrents {
  import opened Basics

  datatype Torrent = Torrent(pieceLength: nat, total: nat, hashes: seq<seq<byte>>) {
    /** What the metadata layer checks before a torrent exists. */
    predicate Valid() {
      pieceLength > 0 && |hashes| == (total + pieceLength - 1) / pieceLength
    }

    function PieceOffset(i: nat): nat
      requires i < |hashes|
    {
      i * pieceLength
    }

    function PieceSize(i: nat): int
      requires i < |hashes|
    {
      if i == |hashes| - 1 then total - i * pieceLength else pieceLength
    }
  }

  lemma MulMonotone(a: nat, b: nat, n: nat)
    requires a <= b
    ensures a * n <= b * n
  {
  }

  lemma CountBounds(t: Torrent)
    requires t.Valid() && |t.hashes| > 0
    ensures (|t.hashes| - 1) * t.pieceLength < t.total <= |t.hashes| * t.pieceLength
  {
    var n := t.pieceLength;
    var x := t.total + n - 1;
    assert x == (x / n) * n + x % n;
    assert |t.hashes| * n == (|t.hashes| - 1) * n + n;
  }

  /** Every piece is a non-empty range inside the stream, at most one piece length long. */
  lemma PieceInside(t: Torrent, i: nat)
    requires t.Valid() && i < |t.hashes|
    ensures 0 < t.PieceSize(i) <= t.pieceLength
    ensures t.PieceOffset(i) + t.PieceSize(i) <= t.total
  {
    CountBounds(t);
    assert |t.hashes| * t.pieceLength == (|t.hashes| - 1) * t.pieceLength + t.pieceLength;
    if i < |t.hashes| - 1 {
      MulMonotone(i + 1, |t.hashes| - 1, t.pieceLength);
      assert (i + 1) * t.pieceLength == i * t.pieceLength + t.pieceLength;
    }
  }

  /** Two pieces never share a byte. */
  lemma PiecesDisjoint(t: Torrent, i: nat, j: nat)
    requires t.Valid() && i < j < |t.hashes|
    ensures t.PieceOffset(i) + t.PieceSize(i) <= t.PieceOffset(j)
  {
    MulMonotone(i + 1, j, t.pieceLength);
    assert (i + 1) * t.pieceLength == i * t.pieceLength + t.pieceLength;
  }

  /** Every byte of the stream belongs to a piece. */
  lemma PiecesCover(t: Torrent, x: nat) returns (i: nat)
    requires t.Valid() && x < t.total
    ensures i < |t.hashes| && t.PieceOffset(i) <= x < t.PieceOffset(i) + t.PieceSize(i)
  {
    var n := t.pieceLength;
    i := x / n;
    assert x == i * n + x % n;
    if |t.hashes| == 0 {
      assert t.total + n - 1 >= n;
      QuotientPositive(t.total + n - 1, n);
      assert false;
    }
    CountBounds(t);
    if i >= |t.hashes| {
      MulMonotone(|t.hashes|, i, n);
      assert false;
    }
  }

  lemma QuotientPositive(x: nat, n: nat)
    requires 0 < n <= x
    ensures x / n >= 1
  {
    assert x == (x / n) * n + x % n;
  }
}
