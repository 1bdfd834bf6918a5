/** Files on disk and the storage manager over them (app/storage/files.py, app/storage/manager.py). */
module StorageObject {
  import opened Basics
  import opened Storage
  import opened StreamSpec
  import opened Torrents

  /** The bytes of a file from `offset` on, at most `length` of them. */
  function Available(content: seq<byte>, offset: nat, length: nat): (r: seq<byte>)
    ensures |r| <= length
  {
    if offset >= |content| then [] else content[offset..Min(offset + length, |content|)]
  }

  /** How often the system failed. */
  class FaultCount {
    ghost var n: nat

    constructor ()
    {
      n := 0;
    }
  }

  /** One open file. The system may write or read less than asked, and may fail, which is counted. */
  class DiskFile {
    var content: seq<byte>
    const faults: FaultCount

    constructor (content: seq<byte>, faults: FaultCount)
      ensures this.content == content && this.faults == faults
    {
      this.content, this.faults := content, faults;
    }

    method PWrite(view: seq<byte>, offset: nat) returns (r: Option<nat>)
      requires view != []
      modifies this, faults
      ensures faults.n == old(faults.n) + if r.None? then 1 else 0
      ensures r.None? ==> content == old(content)
      ensures r.Some? ==> 0 < r.value <= |view| && content == Put(old(content), offset, view[..r.value])
    {
      var fails: bool := *;
      if fails {
        faults.n := faults.n + 1;
        return None;
      }
      var n :| 0 < n <= |view|;
      content := Put(content, offset, view[..n]);
      return Some(n);
    }

    method PRead(length: nat, offset: nat) returns (r: Option<seq<byte>>)
      requires length > 0
      modifies faults
      ensures faults.n == old(faults.n) + if r.None? then 1 else 0
      ensures r.Some? ==> r.value <= Available(content, offset, length)
      ensures r.Some? && r.value == [] ==> Available(content, offset, length) == []
    {
      var fails: bool := *;
      if fails {
        faults.n := faults.n + 1;
        return None;
      }
      var whole := Available(content, offset, length);
      if whole == [] {
        return Some([]);
      }
      var n :| 0 < n <= |whole|;
      return Some(whole[..n]);
    }

    /** `_write_at`: runs until the view is exhausted; a failure leaves a prefix written. */
    method WriteAt(view: seq<byte>, offset: nat) returns (written: nat, ok: bool)
      modifies this, faults
      ensures faults.n == old(faults.n) + if ok then 0 else 1
      ensures written <= |view| && content == Put(old(content), offset, view[..written])
      ensures ok ==> written == |view|
    {
      written := 0;
      while written < |view|
        invariant faults.n == old(faults.n)
        invariant written <= |view| && content == Put(old(content), offset, view[..written])
      {
        var n := PWrite(view[written..], offset + written);
        if n.None? {
          return written, false;
        }
        PutMore(old(content), offset, view, written, n.value);
        written := written + n.value;
      }
      return written, true;
    }

    /** `_read_at`: what arrived before the end of the file or a failure is kept. */
    method ReadAt(length: nat, offset: nat) returns (data: seq<byte>, ok: bool)
      modifies faults
      ensures faults.n == old(faults.n) + if ok then 0 else 1
      ensures data <= Available(content, offset, length)
      ensures ok ==> data == Available(content, offset, length)
    {
      data := [];
      while |data| < length
        invariant faults.n == old(faults.n)
        invariant |data| <= length && data <= Available(content, offset, length)
        decreases length - |data|
      {
        var block := PRead(length - |data|, offset + |data|);
        if block.None? {
          return data, false;
        }
        if block.value == [] {
          return data, true;
        }
        RestAvailable(content, offset, length, |data|);
        data := data + block.value;
      }
      return data, true;
    }
  }

  lemma PutMore(content: seq<byte>, offset: nat, view: seq<byte>, done: nat, n: nat)
    requires done + n <= |view|
    ensures Put(Put(content, offset, view[..done]), offset + done, view[done..][..n]) ==
            Put(content, offset, view[..done + n])
  {
    PutAdjacent(content, offset, view[..done], view[done..][..n]);
    assert view[..done] + view[done..][..n] == view[..done + n];
  }

  lemma RestAvailable(content: seq<byte>, offset: nat, length: nat, n: nat)
    requires n <= |Available(content, offset, length)|
    ensures Available(content, offset + n, length - n) == Available(content, offset, length)[n..]
  {
  }

  class StorageManager {
    const torrent: Torrent
    const hash: seq<byte> -> seq<byte>
    const verifyFirst: bool
    const files: seq<FileEntry>
    const disks: seq<DiskFile>
    const faults: FaultCount
    var completed: set<nat>

    /** One file per entry, no two entries on the same file, and the entries tile the stream. */
    ghost predicate Wired() {
      torrent.Valid() && Laid()
    }

    /** The files cover the stream, each with a disk file of its own. */
    ghost predicate Laid() {
      && Tiles(files, torrent.total) && |disks| == |files|
      && (forall i, j :: 0 <= i < j < |disks| ==> disks[i] != disks[j])
      && forall i :: 0 <= i < |disks| ==> disks[i].faults == faults
    }

    ghost function Contents(): (r: seq<seq<byte>>)
      reads disks
      ensures |r| == |disks| && forall k :: 0 <= k < |disks| ==> r[k] == disks[k].content
    {
      seq(|disks|, k requires 0 <= k < |disks| reads disks => disks[k].content)
    }

    ghost function Bytes(): (r: seq<byte>)
      requires Laid()
      reads disks
      ensures |r| == torrent.total
    {
      WindowInStream(files, Contents(), torrent.total, 0);
      Stream(files, Contents())
    }

    ghost predicate AllFilesFull()
      requires Laid()
      reads disks
    {
      forall k :: 0 <= k < |disks| ==> |disks[k].content| >= files[k].length
    }

    /** The range of a piece in the stream. */
    ghost function PieceBytes(index: nat): seq<byte>
      requires Wired() && index < |torrent.hashes|
      reads disks
    {
      PieceInside(torrent, index);
      Bytes()[torrent.PieceOffset(index)..torrent.PieceOffset(index) + torrent.PieceSize(index)]
    }

    constructor (torrent: Torrent, hash: seq<byte> -> seq<byte>, verifyFirst: bool, files: seq<FileEntry>,
                 disks: seq<DiskFile>, faults: FaultCount)
      requires torrent.Valid() && Tiles(files, torrent.total) && |disks| == |files|
      requires forall i, j :: 0 <= i < j < |disks| ==> disks[i] != disks[j]
      requires forall i :: 0 <= i < |disks| ==> disks[i].faults == faults
      ensures Wired() && completed == {}
      ensures this.torrent == torrent && this.hash == hash && this.verifyFirst == verifyFirst
      ensures this.files == files && this.disks == disks && this.faults == faults
    {
      this.torrent, this.hash, this.verifyFirst := torrent, hash, verifyFirst;
      this.files, this.disks, this.faults, completed := files, disks, faults, {};
    }

    // ------------------------------------------------------------------ writing

    /** One chunk of a planned write, seen from the stream: it extends what is already written. */
    method WriteOne(chunk: Chunk, at: nat) returns (written: nat, ok: bool)
      requires Laid() && chunk.data != [] && SpanAt(files, SpanOf(chunk), at) && at + |chunk.data| <= torrent.total
      modifies disks, faults
      ensures old(faults.n) <= faults.n && (!ok ==> old(faults.n) < faults.n)
      ensures written <= |chunk.data| && (ok ==> written == |chunk.data|)
      ensures Contents() ==
              old(Contents())[chunk.file := Put(old(Contents())[chunk.file], chunk.offset, chunk.data[..written])]
      ensures Bytes() == Overwrite(old(Bytes()), at, chunk.data[..written])
    {
      ghost var before := Contents();
      written, ok := disks[chunk.file].WriteAt(chunk.data, chunk.offset);
      assert Contents() == before[chunk.file := Put(before[chunk.file], chunk.offset, chunk.data[..written])];
      PutIsStreamWrite(files, before, torrent.total, chunk.file, chunk.offset, chunk.data[..written]);
    }

    /** `_write_stream`: exactly the range changes, front to back; a failure leaves a prefix. */
    method WriteStream(offset: int, data: seq<byte>) returns (r: Result<nat, StorageError>, ghost reached: nat)
      requires Laid()
      modifies disks, faults
      ensures old(faults.n) <= faults.n && (r == Err(DiskFailure) ==> old(faults.n) < faults.n)
      ensures offset < 0 || offset + |data| > torrent.total ==> r == Err(OutOfRange) && reached == 0
      ensures reached <= |data| && (reached > 0 ==> 0 <= offset && offset + reached <= torrent.total)
      ensures Bytes() == if reached == 0 then old(Bytes()) else Overwrite(old(Bytes()), offset, data[..reached])
      ensures r.Ok? ==> r.value == |data| == reached
      ensures 0 <= offset && offset + |data| <= torrent.total && r.Err? ==> r.error == DiskFailure
    {
      var plan := Plan(files, torrent.total, offset, data);
      if plan.Err? {
        return Err(plan.error), 0;
      }
      var written, ok := WriteChunks(plan.value, offset, data);
      reached := written;
      OverwriteNothing(old(Bytes()), offset, data);
      r := if ok then Ok(written) else Err(DiskFailure);
    }

    method WriteChunks(chunks: seq<Chunk>, offset: nat, data: seq<byte>) returns (written: nat, ok: bool)
      requires Laid() && offset + |data| <= torrent.total
      requires Chain(files, SpansOf(chunks), offset) && Payload(chunks) == data
      modifies disks, faults
      ensures old(faults.n) <= faults.n && (!ok ==> old(faults.n) < faults.n)
      ensures written <= |data| && (ok ==> written == |data|)
      ensures Bytes() == Overwrite(old(Bytes()), offset, data[..written])
    {
      ghost var before := Bytes();
      written, ok := 0, true;
      OverwriteNothing(before, offset, data);
      assert chunks[..|chunks|] == chunks;
      for i := 0 to |chunks|
        invariant ok && written == StartOf(chunks, i) <= |data| && old(faults.n) <= faults.n
        invariant Bytes() == Overwrite(before, offset, data[..written])
      {
        var n;
        n, ok := WriteTurn(chunks, offset, data, i, written, before);
        written := written + n;
        if !ok {
          return;
        }
      }
    }

    /** One turn of the loop. */
    method WriteTurn(chunks: seq<Chunk>, offset: nat, data: seq<byte>, i: nat, written: nat, ghost before: seq<byte>)
      returns (n: nat, ok: bool)
      requires Laid() && offset + |data| <= torrent.total == |before|
      requires Chain(files, SpansOf(chunks), offset) && Payload(chunks) == data
      requires i < |chunks| && written == StartOf(chunks, i) <= |data|
      requires Bytes() == Overwrite(before, offset, data[..written])
      modifies disks, faults
      ensures old(faults.n) <= faults.n && (!ok ==> old(faults.n) < faults.n)
      ensures written + n <= |data| && (ok ==> written + n == StartOf(chunks, i + 1))
      ensures Bytes() == Overwrite(before, offset, data[..written + n])
    {
      NextChunk(files, chunks, offset, data, i);
      n, ok := WriteNext(chunks[i], offset + written, before, offset, data[..written]);
      PartWritten(chunks, data, i, n);
    }

    /** One more chunk after what is `done`. */
    method WriteNext(chunk: Chunk, at: nat, ghost before: seq<byte>, ghost offset: nat, ghost done: seq<byte>)
      returns (n: nat, ok: bool)
      requires Laid() && chunk.data != [] && SpanAt(files, SpanOf(chunk), at)
      requires at + |chunk.data| <= torrent.total == |before|
      requires at == offset + |done| && Bytes() == Overwrite(before, offset, done)
      modifies disks, faults
      ensures old(faults.n) <= faults.n && (!ok ==> old(faults.n) < faults.n)
      ensures n <= |chunk.data| && (ok ==> n == |chunk.data|)
      ensures Bytes() == Overwrite(before, offset, done + chunk.data[..n])
    {
      n, ok := WriteOne(chunk, at);
      OverwriteAdjacent(before, offset, done, chunk.data[..n]);
    }

    // ------------------------------------------------------------------ reading

    /** What one file contributes to a read: never more than its span, and its whole span exactly
        when nothing is missing. */
    method ReadOne(span: Span, at: nat) returns (data: seq<byte>, ok: bool)
      requires Laid() && SpanAt(files, span, at) && at + span.hi - span.lo <= torrent.total
      modifies faults
      ensures old(faults.n) <= faults.n && (!ok ==> old(faults.n) < faults.n)
      ensures |data| <= span.hi - span.lo
      ensures |data| == span.hi - span.lo ==> data == Bytes()[at..at + |data|]
      ensures ok && AllFilesFull() ==> |data| == span.hi - span.lo
    {
      data, ok := disks[span.file].ReadAt(span.hi - span.lo, span.lo);
      SpanInStream(files, Contents(), torrent.total, span, at);
    }

    /** `_read_stream`: a result of the full length is exactly the range of the stream; a file that
        is too short or fails shows as a short result. */
    method ReadStream(offset: int, length: int) returns (r: Result<seq<byte>, StorageError>, ghost ok: bool)
      requires Laid()
      modifies faults
      ensures old(faults.n) <= faults.n && (!ok ==> old(faults.n) < faults.n)
      ensures r.Err? <==> offset < 0 || length < 0 || offset + length > torrent.total
      ensures r.Err? ==> r.error == OutOfRange
      ensures r.Ok? ==> |r.value| <= length
      ensures r.Ok? && |r.value| == length ==> r.value == Bytes()[offset..offset + length]
      ensures r.Ok? && ok && AllFilesFull() ==> |r.value| == length
    {
      ok := true;
      var spans := Spans(files, torrent.total, offset, length);
      if spans.Err? {
        return Err(spans.error), ok;
      }
      var data;
      data, ok := ReadSpans(spans.value, offset);
      return Ok(data), ok;
    }

    /** What reading `done` spans has come to. */
    ghost predicate ReadSoFar(spans: seq<Span>, offset: nat, done: nat, data: seq<byte>, ok: bool)
      requires Laid() && done <= |spans|
      reads disks
    {
      var size := SizeOf(spans[..done]);
      && |data| <= size
      && (|data| == size ==> offset + size <= |Bytes()| && data == Bytes()[offset..offset + size])
      && (ok && AllFilesFull() ==> |data| == size)
    }

    method ReadSpans(spans: seq<Span>, offset: nat) returns (data: seq<byte>, ghost ok: bool)
      requires Laid() && Chain(files, spans, offset) && offset + SizeOf(spans) <= torrent.total
      modifies faults
      ensures old(faults.n) <= faults.n && (!ok ==> old(faults.n) < faults.n)
      ensures |data| <= SizeOf(spans)
      ensures |data| == SizeOf(spans) ==> data == Bytes()[offset..offset + SizeOf(spans)]
      ensures ok && AllFilesFull() ==> |data| == SizeOf(spans)
    {
      data, ok := [], true;
      assert spans[..|spans|] == spans;
      SizeOfPrefix(spans, files, offset, 0);
      assert Bytes()[offset..offset] == [];
      for i := 0 to |spans|
        invariant ReadSoFar(spans, offset, i, data, ok)
        invariant old(faults.n) <= faults.n && (!ok ==> old(faults.n) < faults.n)
      {
        ghost var fine;
        data, fine := ReadNext(spans, offset, i, data, ok);
        ok := ok && fine;
      }
    }

    method ReadNext(spans: seq<Span>, offset: nat, i: nat, before: seq<byte>, ghost fine: bool)
      returns (data: seq<byte>, ghost ok: bool)
      requires Laid() && Chain(files, spans, offset) && offset + SizeOf(spans) <= torrent.total
      requires i < |spans| && ReadSoFar(spans, offset, i, before, fine)
      modifies faults
      ensures old(faults.n) <= faults.n && (!ok ==> old(faults.n) < faults.n)
      ensures ReadSoFar(spans, offset, i + 1, data, ok && fine)
    {
      SizeOfPrefix(spans, files, offset, i + 1);
      assert spans[..i + 1][..i] == spans[..i];
      assert Linked(files, spans, offset, i);
      var chunk;
      chunk, ok := ReadOne(spans[i], offset + SizeOf(spans[..i]));
      data := before + chunk;
    }

    /** `read_block`, and `read_piece` for a whole piece. */
    method ReadBlock(index: int, begin: int, length: int) returns (r: Result<seq<byte>, StorageError>, ghost ok: bool)
      requires Wired()
      modifies faults
      ensures old(faults.n) <= faults.n && (!ok ==> old(faults.n) < faults.n)
      ensures r == Err(NoSuchPiece) <==> !(0 <= index < |torrent.hashes|)
      ensures r == Err(OutOfRange) <==>
                0 <= index < |torrent.hashes| && (begin < 0 || length < 0 || begin + length > torrent.PieceSize(index))
      ensures r.Ok? || r == Err(NoSuchPiece) || r == Err(OutOfRange) || r == Err(Incomplete)
      ensures r.Ok? ==> begin + length <= |PieceBytes(index)| && r.value == PieceBytes(index)[begin..begin + length]
      ensures (ok && AllFilesFull() && 0 <= index < |torrent.hashes| && 0 <= begin && 0 <= length
               && begin + length <= torrent.PieceSize(index)) ==> r.Ok?
    {
      ok := true;
      if !(0 <= index < |torrent.hashes|) {
        return Err(NoSuchPiece), ok;
      }
      if begin < 0 || length < 0 || begin + length > torrent.PieceSize(index) {
        return Err(OutOfRange), ok;
      }
      PieceInside(torrent, index);
      var data;
      data, ok := ReadStream(torrent.PieceOffset(index) + begin, length);
      if data.Err? || |data.value| != length {
        return Err(Incomplete), ok;
      }
      return Ok(data.value), ok;
    }

    // ------------------------------------------------------------------- pieces

    /** Whether data is hashed before it is written: as the caller says, else as configured. */
    predicate Checks(verify: Option<bool>) {
      if verify.Some? then verify.value else verifyFirst
    }

    /** `write_piece`: with verification on, data that does not hash to the promise never reaches
        a file; otherwise exactly the range of the piece changes. */
    method WritePiece(index: int, data: seq<byte>, verify: Option<bool>)
      returns (r: Result<nat, StorageError>, ghost reached: nat)
      requires Wired()
      modifies this`completed, disks, faults
      ensures !(0 <= index < |torrent.hashes|) <==> r == Err(NoSuchPiece)
      ensures 0 <= index < |torrent.hashes| && |data| != torrent.PieceSize(index) <==> r == Err(WrongSize)
      ensures (0 <= index < |torrent.hashes| && |data| == torrent.PieceSize(index)
               && Checks(verify) && hash(data) != torrent.hashes[index]) <==>
                r == Err(HashMismatch)
      ensures Checks(verify) <==> match verify case Some(v) => v case None => verifyFirst
      ensures (0 <= index < |torrent.hashes| && |data| == torrent.PieceSize(index)
               && (Checks(verify) ==> hash(data) == torrent.hashes[index]) && faults.n == old(faults.n)) ==>
                r.Ok?
      ensures old(faults.n) <= faults.n && (r == Err(DiskFailure) ==> old(faults.n) < faults.n)
      ensures r.Err? ==> completed == old(completed) && (r.error != DiskFailure ==> reached == 0)
      ensures r.Ok? ==> 0 <= index && completed == old(completed) + {index} && r.value == reached == |data|
      ensures reached <= |data| && (reached > 0 ==> 0 <= index < |torrent.hashes| && |data| == torrent.PieceSize(index))
      ensures reached > 0 ==> torrent.PieceOffset(index) + reached <= torrent.total
      ensures Bytes() == if reached == 0 then old(Bytes())
                         else Overwrite(old(Bytes()), torrent.PieceOffset(index), data[..reached])
    {
      if !(0 <= index < |torrent.hashes|) {
        return Err(NoSuchPiece), 0;
      }
      if |data| != torrent.PieceSize(index) {
        return Err(WrongSize), 0;
      }
      if Checks(verify) && hash(data) != torrent.hashes[index] {
        return Err(HashMismatch), 0;
      }
      PieceInside(torrent, index);
      r, reached := WriteStream(torrent.PieceOffset(index), data);
      if r.Ok? {
        completed := completed + {index};
      }
    }

    /** The range of a piece hashes to what the torrent promised. */
    ghost predicate Sound(index: nat)
      requires Wired()
      reads disks
    {
      index < |torrent.hashes| && hash(PieceBytes(index)) == torrent.hashes[index]
    }

    /** `verify_piece`, and the check made for each piece of a batch. */
    method CheckPiece(index: nat) returns (valid: bool, ghost ok: bool)
      requires Wired() && index < |torrent.hashes|
      modifies faults
      ensures old(faults.n) <= faults.n && (!ok ==> old(faults.n) < faults.n)
      ensures valid ==> Sound(index)
      ensures ok && AllFilesFull() && Sound(index) ==> valid
    {
      var size := torrent.PieceSize(index);
      PieceInside(torrent, index);
      var data;
      data, ok := ReadStream(torrent.PieceOffset(index), size);
      valid := data.Ok? && |data.value| == size && hash(data.value) == torrent.hashes[index];
    }

    /** Every piece checked went to one list or the other, for the right reason. */
    ghost predicate Judged(targets: seq<nat>, valid: seq<nat>, invalid: seq<nat>, ok: bool)
      requires Wired()
      reads disks
    {
      && (forall i :: i in targets <==> i in valid || i in invalid)
      && (forall i :: i in valid ==> Sound(i))
      && (ok && AllFilesFull() ==> forall i :: i in invalid ==> !Sound(i))
    }

    lemma JudgedMore(a: seq<nat>, va: seq<nat>, ia: seq<nat>, oka: bool, b: seq<nat>, vb: seq<nat>, ib: seq<nat>,
                     okb: bool)
      requires Wired() && Judged(a, va, ia, oka) && Judged(b, vb, ib, okb)
      ensures Judged(a + b, va + vb, ia + ib, oka && okb)
    {
    }

    method VerifyBatch(batch: seq<nat>) returns (valid: seq<nat>, invalid: seq<nat>, ghost ok: bool)
      requires Wired() && forall i :: 0 <= i < |batch| ==> batch[i] < |torrent.hashes|
      modifies faults
      ensures old(faults.n) <= faults.n && (!ok ==> old(faults.n) < faults.n)
      ensures Judged(batch, valid, invalid, ok)
    {
      valid, invalid, ok := [], [], true;
      for j := 0 to |batch|
        invariant Judged(batch[..j], valid, invalid, ok)
        invariant old(faults.n) <= faults.n && (!ok ==> old(faults.n) < faults.n)
      {
        var good, fine := CheckPiece(batch[j]);
        ghost var v, x := if good then [batch[j]] else [], if good then [] else [batch[j]];
        assert Judged([batch[j]], v, x, fine);
        JudgedMore(batch[..j], valid, invalid, ok, [batch[j]], v, x, fine);
        assert batch[..j + 1] == batch[..j] + [batch[j]];
        assert valid + [] == valid && invalid + [] == invalid;
        ok := ok && fine;
        if good {
          valid := valid + [batch[j]];
        } else {
          invalid := invalid + [batch[j]];
        }
      }
      assert batch[..|batch|] == batch;
    }

    /** `verify_completed`, batch by batch: what fails is dropped from the completed set, and every
        piece that stays among the targets is really on disk. */
    method VerifyCompleted(targets: seq<nat>, batchSize: nat)
      returns (valid: seq<nat>, invalid: seq<nat>, ghost ok: bool)
      requires Wired() && batchSize > 0 && forall i :: 0 <= i < |targets| ==> targets[i] < |torrent.hashes|
      modifies this`completed, faults
      ensures old(faults.n) <= faults.n && (!ok ==> old(faults.n) < faults.n)
      ensures Judged(targets, valid, invalid, ok)
      ensures completed == (set i | i in valid) + (old(completed) - (set i | i in targets))
      ensures (forall i :: i in old(completed) ==> i in targets) ==> forall i :: i in completed ==> Sound(i)
    {
      valid, invalid, ok := [], [], true;
      var start := 0;
      while start < |targets|
        invariant 0 <= start <= |targets|
        invariant Judged(targets[..start], valid, invalid, ok)
        invariant completed == old(completed)
        invariant old(faults.n) <= faults.n && (!ok ==> old(faults.n) < faults.n)
      {
        var end := Min(start + batchSize, |targets|);
        ghost var fine;
        var v, x;
        v, x, fine := VerifyBatch(targets[start..end]);
        JudgedMore(targets[..start], valid, invalid, ok, targets[start..end], v, x, fine);
        assert targets[..end] == targets[..start] + targets[start..end];
        valid, invalid, ok := valid + v, invalid + x, ok && fine;
        start := end;
      }
      assert targets[..|targets|] == targets;
      completed := (set i | i in valid) + (completed - (set i | i in targets));
    }
  }

  lemma WindowShowsFile(content: seq<byte>, length: nat, lo: nat, hi: nat)
    requires lo <= hi <= length && |Available(content, lo, hi - lo)| == hi - lo
    ensures Available(content, lo, hi - lo) == Window(content, length)[lo..hi]
  {
  }

  /** What a file holds at a span is what the stream holds there. */
  lemma SpanInStream(files: seq<FileEntry>, contents: seq<seq<byte>>, total: nat, span: Span, at: nat)
    requires Tiles(files, total) && |contents| == |files| && SpanAt(files, span, at) && at + span.hi - span.lo <= total
    ensures |Stream(files, contents)| == total
    ensures span.hi <= |contents[span.file]| ==>
              Stream(files, contents)[at..at + span.hi - span.lo] == contents[span.file][span.lo..span.hi]
  {
    var k := span.file;
    WindowInStream(files, contents, total, k);
    if span.hi <= |contents[k]| {
      WindowShowsFile(contents[k], files[k].length, span.lo, span.hi);
      SliceOfSlice(Stream(files, contents), files[k].offset, files[k].End(), span.lo, span.hi);
    }
  }

  lemma SliceOfSlice(s: seq<byte>, a: nat, b: nat, lo: nat, hi: nat)
    requires lo <= hi && a + hi <= b <= |s|
    ensures s[a..b][lo..hi] == s[a + lo..a + hi]
  {
    forall x | 0 <= x < hi - lo
      ensures s[a..b][lo..hi][x] == s[a + lo..a + hi][x]
    {
      assert s[a..b][lo + x] == s[a + lo + x];
    }
  }

  /** Where chunk `i` of a plan starts within the data. */
  ghost function StartOf(chunks: seq<Chunk>, i: nat): nat
    requires i <= |chunks|
  {
    |Payload(chunks[..i])|
  }

  lemma {:induction false} SpansMeasureData(chunks: seq<Chunk>, i: nat)
    requires i <= |chunks|
    ensures SizeOf(SpansOf(chunks)[..i]) == StartOf(chunks, i)
  {
    if i > 0 {
      SpansMeasureData(chunks, i - 1);
      assert chunks[..i][..i - 1] == chunks[..i - 1];
      assert SpansOf(chunks)[..i][..i - 1] == SpansOf(chunks)[..i - 1];
    }
  }

  lemma OverwriteNothing(bytes: seq<byte>, offset: nat, data: seq<byte>)
    requires offset <= |bytes|
    ensures Overwrite(bytes, offset, data[..0]) == bytes
  {
  }

  /** The i-th chunk of a plan comes next in the stream. */
  lemma NextChunk(files: seq<FileEntry>, chunks: seq<Chunk>, offset: nat, data: seq<byte>, i: nat)
    requires Chain(files, SpansOf(chunks), offset) && Payload(chunks) == data && i < |chunks|
    ensures SpanAt(files, SpanOf(chunks[i]), offset + StartOf(chunks, i)) && chunks[i].data != []
    ensures StartOf(chunks, i + 1) == StartOf(chunks, i) + |chunks[i].data| <= |data|
  {
    assert Linked(files, SpansOf(chunks), offset, i);
    SpansMeasureData(chunks, i);
    assert chunks[..i + 1][..i] == chunks[..i];
    PayloadPrefix(chunks, i + 1);
  }

  /** And it is the next stretch of the data. */
  lemma PartWritten(chunks: seq<Chunk>, data: seq<byte>, i: nat, n: nat)
    requires Payload(chunks) == data && i < |chunks| && n <= |chunks[i].data|
    ensures StartOf(chunks, i) + n <= |data|
    ensures data[..StartOf(chunks, i)] + chunks[i].data[..n] == data[..StartOf(chunks, i) + n]
  {
    assert chunks[..i + 1][..i] == chunks[..i];
    PayloadPrefix(chunks, i + 1);
    assert Payload(chunks[..i + 1]) == Payload(chunks[..i]) + chunks[i].data;
  }

  lemma {:induction false} PayloadPrefix(chunks: seq<Chunk>, i: nat)
    requires i <= |chunks|
    ensures Payload(chunks[..i]) <= Payload(chunks)
    decreases |chunks| - i
  {
    if i == |chunks| {
      assert chunks[..i] == chunks;
    } else {
      assert chunks[..i + 1][..i] == chunks[..i];
      PayloadPrefix(chunks, i + 1);
    }
  }
}
