/** The torrent as one flat byte array, and how bytes of its files show up in it. A file may be
    shorter than declared (sparse, not preallocated) or longer; the stream sees its declared
    window, with zeros where the file has nothing yet. */
module StreamSpec {
  import opened Basics
  import opened Storage

  /** The first `length` bytes of a file, zero where the file ends early. */
  function Window(content: seq<byte>, length: nat): (r: seq<byte>)
    ensures |r| == length
  {
    seq(length, j requires 0 <= j < length => if j < |content| then content[j] else 0)
  }

  /** A positional write: the file grows, zero-filled, if it has to. */
  function Put(content: seq<byte>, offset: nat, data: seq<byte>): (r: seq<byte>)
    ensures |r| >= |content|
  {
    if data == [] then content
    else
      var room := if |content| < offset + |data| then content + Zeros(offset + |data| - |content|) else content;
      Overwrite(room, offset, data)
  }

  ghost function Stream(files: seq<FileEntry>, contents: seq<seq<byte>>): (r: seq<byte>)
    requires |files| == |contents|
  {
    if files == [] then []
    else
      Stream(files[..|files| - 1], contents[..|files| - 1]) + Window(contents[|files| - 1], files[|files| - 1].length)
  }

  lemma {:induction false} TilesPrefix(files: seq<FileEntry>, total: nat, n: nat)
    requires Tiles(files, total) && n <= |files|
    ensures Tiles(files[..n], EndBefore(files, n))
  {
    forall k | 0 <= k < n
      ensures InPlace(files[..n], k)
    {
      assert InPlace(files, k);
    }
  }

  lemma SliceBefore(s: seq<byte>, more: seq<byte>, from: nat, to: nat)
    requires from <= to <= |s|
    ensures (s + more)[from..to] == s[from..to]
  {
  }

  lemma SliceAfter(s: seq<byte>, more: seq<byte>)
    ensures (s + more)[|s|..|s| + |more|] == more
  {
  }

  /** Each file's window sits at its offset in the stream. */
  lemma {:induction false} WindowInStream(files: seq<FileEntry>, contents: seq<seq<byte>>, total: nat, k: nat)
    requires |files| == |contents| && Tiles(files, total)
    ensures |Stream(files, contents)| == total
    ensures k < |files| ==> files[k].End() <= total
    ensures k < |files| ==>
              Stream(files, contents)[files[k].offset..files[k].End()] == Window(contents[k], files[k].length)
    decreases |files|
  {
    if files != [] {
      var n := |files| - 1;
      assert InPlace(files, n);
      TilesPrefix(files, total, n);
      WindowInStream(files[..n], contents[..n], EndBefore(files, n), k);
      var s, w := Stream(files[..n], contents[..n]), Window(contents[n], files[n].length);
      if k < n {
        SliceBefore(s, w, files[k].offset, files[k].End());
      } else if k == n {
        SliceAfter(s, w);
      }
    }
  }

  lemma WindowAfterPut(content: seq<byte>, length: nat, offset: nat, data: seq<byte>)
    requires offset + |data| <= length
    ensures Window(Put(content, offset, data), length) == Overwrite(Window(content, length), offset, data)
  {
  }

  lemma OverwriteLeft(s: seq<byte>, w: seq<byte>, o: nat, d: seq<byte>)
    requires o + |d| <= |s|
    ensures Overwrite(s, o, d) + w == Overwrite(s + w, o, d)
  {
  }

  lemma OverwriteRight(s: seq<byte>, w: seq<byte>, o: nat, d: seq<byte>)
    requires o + |d| <= |w|
    ensures s + Overwrite(w, o, d) == Overwrite(s + w, |s| + o, d)
  {
  }

  /** Writing inside one file is writing at the corresponding place of the stream. */
  lemma {:induction false} PutIsStreamWrite(files: seq<FileEntry>, contents: seq<seq<byte>>, total: nat,
                                            k: nat, local: nat, data: seq<byte>)
    requires |files| == |contents| && Tiles(files, total)
    requires k < |files| && local + |data| <= files[k].length
    ensures files[k].offset + local + |data| <= |Stream(files, contents)|
    ensures Stream(files, contents[k := Put(contents[k], local, data)]) ==
            Overwrite(Stream(files, contents), files[k].offset + local, data)
    decreases |files|
  {
    var n := |files| - 1;
    var put := Put(contents[k], local, data);
    assert InPlace(files, n);
    TilesPrefix(files, total, n);
    WindowInStream(files, contents, total, k);
    WindowInStream(files[..n], contents[..n], EndBefore(files, n), k);
    var s, w := Stream(files[..n], contents[..n]), Window(contents[n], files[n].length);
    if k < n {
      PutIsStreamWrite(files[..n], contents[..n], EndBefore(files, n), k, local, data);
      assert contents[k := put][..n] == contents[..n][k := put];
      OverwriteLeft(s, w, files[k].offset + local, data);
    } else {
      PutInLast(files, contents, total, local, data);
    }
  }

  ghost function PutIn(contents: seq<seq<byte>>, k: nat, local: nat, data: seq<byte>): seq<seq<byte>>
    requires k < |contents|
  {
    contents[k := Put(contents[k], local, data)]
  }

  lemma PutInStream(files: seq<FileEntry>, contents: seq<seq<byte>>, total: nat, k: nat, local: nat, data: seq<byte>)
    requires |files| == |contents| && Tiles(files, total)
    requires k < |files| && local + |data| <= files[k].length
    ensures files[k].offset + local + |data| <= |Stream(files, contents)|
    ensures Stream(files, PutIn(contents, k, local, data)) ==
            Overwrite(Stream(files, contents), files[k].offset + local, data)
  {
    PutIsStreamWrite(files, contents, total, k, local, data);
  }

  lemma PutInLast(files: seq<FileEntry>, contents: seq<seq<byte>>, total: nat, local: nat, data: seq<byte>)
    requires 0 < |files| == |contents| && Tiles(files, total)
    requires local + |data| <= files[|files| - 1].length
    ensures var n := |files| - 1;
            && files[n].offset + local + |data| <= |Stream(files, contents)|
            && Stream(files, contents[n := Put(contents[n], local, data)]) ==
               Overwrite(Stream(files, contents), files[n].offset + local, data)
  {
    var n := |files| - 1;
    assert InPlace(files, n);
    TilesPrefix(files, total, n);
    WindowInStream(files[..n], contents[..n], EndBefore(files, n), n);
    WindowAfterPut(contents[n], files[n].length, local, data);
    assert contents[n := Put(contents[n], local, data)][..n] == contents[..n];
    OverwriteRight(Stream(files[..n], contents[..n]), Window(contents[n], files[n].length), local, data);
  }

  /** Two adjacent writes are one longer write. */
  lemma OverwriteAdjacent(base: seq<byte>, offset: nat, a: seq<byte>, b: seq<byte>)
    requires offset + |a| + |b| <= |base|
    ensures Overwrite(Overwrite(base, offset, a), offset + |a|, b) == Overwrite(base, offset, a + b)
  {
  }

  /** Two adjacent positional writes are one longer write. */
  lemma PutAdjacent(content: seq<byte>, offset: nat, a: seq<byte>, b: seq<byte>)
    ensures Put(Put(content, offset, a), offset + |a|, b) == Put(content, offset, a + b)
  {
    if a == [] {
      assert a + b == b;
    } else if b == [] {
      assert a + b == a;
    } else {
      PutTwice(content, offset, a, b, Put(content, offset, a));
    }
  }

  lemma PutTwice(content: seq<byte>, offset: nat, a: seq<byte>, b: seq<byte>, first: seq<byte>)
    requires a != [] && b != [] && first == Put(content, offset, a)
    ensures Put(first, offset + |a|, b) == Put(content, offset, a + b)
  {
    var l, r := Put(first, offset + |a|, b), Put(content, offset, a + b);
    PutAt(content, offset, a, 0);
    PutAt(first, offset + |a|, b, 0);
    PutAt(content, offset, a + b, 0);
    forall j | 0 <= j < |l|
      ensures l[j] == r[j]
    {
      PutAt(first, offset + |a|, b, j);
      PutAt(content, offset, a + b, j);
      if j < |first| {
        PutAt(content, offset, a, j);
      }
    }
  }

  lemma PutAt(content: seq<byte>, offset: nat, data: seq<byte>, j: nat)
    requires data != [] && j < |Put(content, offset, data)|
    ensures |Put(content, offset, data)| == Max(|content|, offset + |data|)
    ensures Put(content, offset, data)[j] ==
            if offset <= j < offset + |data| then data[j - offset] else if j < |content| then content[j] else 0
  {
  }
}
