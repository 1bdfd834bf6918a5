/** Many files as one byte stream: the layout arithmetic of app/storage/files.py and what writing
    and reading through it does to the stream. */
module Storage {
  import opened Basics

  datatype StorageError = OutOfRange | NotCovered | NoSuchPiece | WrongSize | HashMismatch | Incomplete | DiskFailure

  // --------------------------------------------------------------------- layout

  datatype FileEntry = FileEntry(offset: nat, length: nat) {
    function End(): nat {
      offset + length
    }

    /** `clip`: the part of a stream range that lies in this file, in local coordinates. */
    function Clip(start: nat, end: nat): Option<(nat, nat)> {
      if length == 0 || end <= offset || start >= End() then None
      else Some((Max(start, offset) - offset, Min(end, End()) - offset))
    }
  }

  /** The files lie end to end over the whole stream; empty files are allowed anywhere. */
  ghost predicate Tiles(files: seq<FileEntry>, total: nat) {
    (forall k :: 0 <= k < |files| ==> InPlace(files, k)) && total == EndBefore(files, |files|)
  }

  ghost predicate InPlace(files: seq<FileEntry>, k: nat)
    requires k < |files|
  {
    files[k].offset == EndBefore(files, k)
  }

  ghost function EndBefore(files: seq<FileEntry>, k: nat): nat
    requires k <= |files|
  {
    if k == 0 then 0 else files[k - 1].End()
  }

  // ---------------------------------------------------------------------- spans

  datatype Span = Span(file: nat, lo: nat, hi: nat)

  function SizeOf(spans: seq<Span>): int {
    if spans == [] then 0 else SizeOf(spans[..|spans| - 1]) + spans[|spans| - 1].hi - spans[|spans| - 1].lo
  }

  ghost predicate SpanAt(files: seq<FileEntry>, s: Span, at: int) {
    s.file < |files| && s.lo < s.hi <= files[s.file].length && files[s.file].offset + s.lo == at
  }

  /** Span `i` begins where the spans before it end. */
  ghost predicate Linked(files: seq<FileEntry>, spans: seq<Span>, start: nat, i: nat)
    requires i < |spans|
  {
    SpanAt(files, spans[i], start + SizeOf(spans[..i]))
  }

  /** The spans walk the stream without a gap from `start` on. */
  ghost predicate Chain(files: seq<FileEntry>, spans: seq<Span>, start: nat) {
    forall i :: 0 <= i < |spans| ==> Linked(files, spans, start, i)
  }

  lemma ChainMore(files: seq<FileEntry>, spans: seq<Span>, start: nat, s: Span)
    requires Chain(files, spans, start) && SpanAt(files, s, start + SizeOf(spans))
    ensures Chain(files, spans + [s], start)
    ensures SizeOf(spans + [s]) == SizeOf(spans) + s.hi - s.lo
  {
    var more := spans + [s];
    assert more[..|spans|] == spans;
    forall i | 0 <= i < |more|
      ensures Linked(files, more, start, i)
    {
      if i < |spans| {
        assert more[..i] == spans[..i];
        assert Linked(files, spans, start, i);
      }
    }
  }

  /** How much of a range is covered by the files before `k`. */
  ghost function Covered(files: seq<FileEntry>, start: nat, end: nat, k: nat): int
    requires k <= |files|
  {
    Max(0, Min(end, EndBefore(files, k)) - start)
  }

  lemma ClipAdvances(files: seq<FileEntry>, total: nat, start: nat, end: nat, k: nat)
    requires Tiles(files, total) && k < |files| && start <= end
    ensures match files[k].Clip(start, end)
            case None => Covered(files, start, end, k + 1) == Covered(files, start, end, k)
            case Some((lo, hi)) =>
              && (lo < hi ==> SpanAt(files, Span(k, lo, hi), start + Covered(files, start, end, k)))
              && Covered(files, start, end, k + 1) == Covered(files, start, end, k) + Max(0, hi - lo)
              && lo <= hi
  {
    assert InPlace(files, k);
  }

  /** `spans`: refuses a range outside the stream; otherwise the files it touches, in order, with
      nothing left out and nothing repeated. */
  method Spans(files: seq<FileEntry>, total: nat, start: int, length: int) returns (r: Result<seq<Span>, StorageError>)
    requires Tiles(files, total)
    ensures r.Err? <==> start < 0 || length < 0 || start + length > total
    ensures r.Err? ==> r.error == OutOfRange
    ensures r.Ok? ==> Chain(files, r.value, start) && SizeOf(r.value) == length
  {
    if start < 0 || length < 0 || start + length > total {
      return Err(OutOfRange);
    }
    if length == 0 {
      return Ok([]);
    }
    var end := start + length;
    var spans: seq<Span> := [];
    for k := 0 to |files|
      invariant Chain(files, spans, start) && SizeOf(spans) == Covered(files, start, end, k)
    {
      ClipAdvances(files, total, start, end, k);
      var clipped := files[k].Clip(start, end);
      if clipped.Some? {
        var (lo, hi) := clipped.value;
        if hi > lo {
          ChainMore(files, spans, start, Span(k, lo, hi));
          spans := spans + [Span(k, lo, hi)];
        }
      }
    }
    return Ok(spans);
  }

  // ----------------------------------------------------------------------- plan

  datatype Chunk = Chunk(file: nat, offset: nat, data: seq<byte>)

  function SpanOf(c: Chunk): Span {
    Span(c.file, c.offset, c.offset + |c.data|)
  }

  function SpansOf(chunks: seq<Chunk>): (r: seq<Span>)
    ensures |r| == |chunks|
  {
    seq(|chunks|, i requires 0 <= i < |chunks| => SpanOf(chunks[i]))
  }

  ghost function Payload(chunks: seq<Chunk>): seq<byte> {
    if chunks == [] then [] else Payload(chunks[..|chunks| - 1]) + chunks[|chunks| - 1].data
  }

  lemma {:induction false} SizeOfPrefix(spans: seq<Span>, files: seq<FileEntry>, start: nat, i: nat)
    requires Chain(files, spans, start) && i <= |spans|
    ensures 0 <= SizeOf(spans[..i]) <= SizeOf(spans)
    decreases |spans| - i, i
  {
    SizeNonNegative(spans, files, start, i);
    if i < |spans| {
      SizeOfPrefix(spans, files, start, i + 1);
      assert spans[..i + 1][..i] == spans[..i];
      assert Linked(files, spans, start, i);
    } else {
      assert spans[..i] == spans;
    }
  }

  lemma {:induction false} SizeNonNegative(spans: seq<Span>, files: seq<FileEntry>, start: nat, i: nat)
    requires Chain(files, spans, start) && i <= |spans|
    ensures 0 <= SizeOf(spans[..i])
  {
    if i > 0 {
      SizeNonNegative(spans, files, start, i - 1);
      assert spans[..i][..i - 1] == spans[..i - 1];
      assert Linked(files, spans, start, i - 1);
    }
  }

  lemma NextPart(data: seq<byte>, from: nat, size: nat)
    requires from + size <= |data|
    ensures data[..from] + data[from..from + size] == data[..from + size]
  {
  }

  lemma OneMoreChunk(chunks: seq<Chunk>, c: Chunk)
    ensures SpansOf(chunks + [c]) == SpansOf(chunks) + [SpanOf(c)] && Payload(chunks + [c]) == Payload(chunks) + c.data
  {
    assert (chunks + [c])[..|chunks|] == chunks;
  }

  lemma SizeOfNext(spans: seq<Span>, files: seq<FileEntry>, start: nat, i: nat)
    requires Chain(files, spans, start) && i < |spans|
    ensures spans[i].lo < spans[i].hi && spans[..i + 1] == spans[..i] + [spans[i]]
    ensures SizeOf(spans[..i + 1]) == SizeOf(spans[..i]) + spans[i].hi - spans[i].lo <= SizeOf(spans)
  {
    assert spans[..i + 1][..i] == spans[..i];
    assert Linked(files, spans, start, i);
    SizeOfPrefix(spans, files, start, i + 1);
  }

  /** `plan`: cuts a write into per-file chunks that together are exactly the data. The error for
      data the files do not cover cannot happen when the files tile the stream. */
  method Plan(files: seq<FileEntry>, total: nat, offset: int, data: seq<byte>)
    returns (r: Result<seq<Chunk>, StorageError>)
    requires Tiles(files, total)
    ensures r.Err? <==> offset < 0 || offset + |data| > total
    ensures r.Err? ==> r.error == OutOfRange
    ensures r.Ok? ==> Chain(files, SpansOf(r.value), offset) && Payload(r.value) == data
  {
    var spans := Spans(files, total, offset, |data|);
    if spans.Err? {
      return Err(spans.error);
    }
    var s := spans.value;
    var chunks: seq<Chunk> := [];
    var consumed := 0;
    for i := 0 to |s|
      invariant SpansOf(chunks) == s[..i] && consumed == SizeOf(s[..i])
      invariant 0 <= consumed <= |data| && Payload(chunks) == data[..consumed]
    {
      SizeOfNext(s, files, offset, i);
      var size := s[i].hi - s[i].lo;
      var chunk := Chunk(s[i].file, s[i].lo, data[consumed..consumed + size]);
      OneMoreChunk(chunks, chunk);
      NextPart(data, consumed, size);
      chunks := chunks + [chunk];
      consumed := consumed + size;
    }
    assert s[..|s|] == s;
    if consumed != |data| {
      return Err(NotCovered);
    }
    return Ok(chunks);
  }
}
