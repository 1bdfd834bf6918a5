/** The download over the torrent's files: every write is one positional write into one file, in any
    interleaving with everything else, and what the files hold together is the download's disk. */
module StorageRuns {
  import opened Basics
  import opened Torrents
  import opened Storage
  import opened StreamSpec
  import opened EngineSpec
  import opened EngineProofs
  import opened Theorems
  import opened PlanRuns

  // ------------------------------------------------------------------------- runs

  /** A download and the contents of its files. The engine's own `disk` is never looked at. */
  datatype World = World(engine: Engine, contents: seq<seq<byte>>)

  datatype FileEvent =
    | Other(ev: Event)
    | FileWrite(piece: nat, count: nat, file: nat, local: nat)

  /** The download with the concatenation of the files for its disk. */
  ghost function Seen(files: seq<FileEntry>, w: World): Engine
    requires |w.contents| == |files|
  {
    w.engine.(disk := Stream(files, w.contents))
  }

  ghost predicate Sane(c: Context, files: seq<FileEntry>, w: World) {
    Tiles(files, c.torrent.total) && |w.contents| == |files| && Inv(c, Seen(files, w))
  }

  /** A write takes the next bytes of a piece to the file and the place where they belong. */
  ghost predicate FileEnabled(c: Context, files: seq<FileEntry>, w: World, fe: FileEvent)
    requires Sane(c, files, w)
  {
    match fe
    case Other(ev) => !ev.WriteSome? && Enabled(c, Seen(files, w), ev)
    case FileWrite(i, n, k, local) =>
      && CanWrite(c, Seen(files, w), i, n) && i < |c.torrent.hashes|
      && k < |files| && local + n <= files[k].length
      && files[k].offset + local == c.torrent.PieceOffset(i) + w.engine.tasks[i].done
  }

  ghost function FileStep(c: Context, files: seq<FileEntry>, w: World, fe: FileEvent): World
    requires Sane(c, files, w) && FileEnabled(c, files, w, fe)
  {
    match fe
    case Other(ev) => w.(engine := Step(c, Seen(files, w), ev))
    case FileWrite(i, n, k, local) => Chunked(w, i, n, k, local)
  }

  ghost function Chunked(w: World, i: nat, n: nat, k: nat, local: nat): World
    requires i in w.engine.tasks && w.engine.tasks[i].Writing? && w.engine.tasks[i].done + n <= |w.engine.tasks[i].data|
    requires k < |w.contents|
  {
    var t := w.engine.tasks[i];
    World(w.engine.(tasks := w.engine.tasks[i := Writing(t.data, t.done + n)]),
          PutIn(w.contents, k, local, t.data[t.done..t.done + n]))
  }

  ghost function Abstract(fe: FileEvent): Event {
    match fe
    case Other(ev) => ev
    case FileWrite(i, n, _, _) => WriteSome(i, n)
  }

  /** The files refine the flat disk step by step. */
  lemma FileStepRefines(c: Context, files: seq<FileEntry>, w: World, fe: FileEvent)
    requires Sane(c, files, w) && FileEnabled(c, files, w, fe)
    ensures Enabled(c, Seen(files, w), Abstract(fe))
    ensures |FileStep(c, files, w, fe).contents| == |files|
    ensures Seen(files, FileStep(c, files, w, fe)) == Step(c, Seen(files, w), Abstract(fe))
  {
    match fe {
      case Other(ev) => OtherStepRefines(c, files, w, ev);
      case FileWrite(i, n, k, local) => FileWriteRefines(c, files, w, i, n, k, local);
    }
  }

  lemma OtherStepRefines(c: Context, files: seq<FileEntry>, w: World, ev: Event)
    requires Sane(c, files, w) && FileEnabled(c, files, w, Other(ev))
    ensures Seen(files, FileStep(c, files, w, Other(ev))) == Step(c, Seen(files, w), ev)
  {
    OnlyWritesTouchDisk(c, Seen(files, w), ev);
  }

  lemma FileWriteRefines(c: Context, files: seq<FileEntry>, w: World, i: nat, n: nat, k: nat, local: nat)
    requires Sane(c, files, w) && FileEnabled(c, files, w, FileWrite(i, n, k, local))
    ensures Enabled(c, Seen(files, w), WriteSome(i, n))
    ensures Seen(files, Chunked(w, i, n, k, local)) == Step(c, Seen(files, w), WriteSome(i, n))
  {
    FileWriteSeen(c, files, w, i, n, k, local);
    WriteStep(c, Seen(files, w), i, n);
  }

  lemma FileWriteSeen(c: Context, files: seq<FileEntry>, w: World, i: nat, n: nat, k: nat, local: nat)
    requires Sane(c, files, w) && FileEnabled(c, files, w, FileWrite(i, n, k, local))
    ensures c.torrent.PieceOffset(i) + |w.engine.tasks[i].data| <= |Stream(files, w.contents)|
    ensures Seen(files, Chunked(w, i, n, k, local)) == Wrote(c, Seen(files, w), i, n)
  {
    ChunkIsAStep(c, files, w, i, n, k, local);
    ChunkSeen(c, files, w, i, n, k, local);
  }

  /** Bytes of piece `i` written into one file, at the place where they belong, are the download's
      write step on the concatenation of all files. */
  lemma ChunkIsAStep(c: Context, files: seq<FileEntry>, w: World, i: nat, n: nat, k: nat, local: nat)
    requires Tiles(files, c.torrent.total) && |w.contents| == |files| && CanWrite(c, Seen(files, w), i, n)
    requires i < |c.torrent.hashes| && k < |files| && local + n <= files[k].length
    requires files[k].offset + local == c.torrent.PieceOffset(i) + w.engine.tasks[i].done
    ensures c.torrent.PieceOffset(i) + |w.engine.tasks[i].data| <= |Stream(files, w.contents)|
    ensures Stream(files, Chunked(w, i, n, k, local).contents) == Wrote(c, Seen(files, w), i, n).disk
  {
    WriteFits(c, Seen(files, w), i, n);
    OneChunk(c, files, w, i, n, k, local);
  }

  lemma OneChunk(c: Context, files: seq<FileEntry>, w: World, i: nat, n: nat, k: nat, local: nat)
    requires Tiles(files, c.torrent.total) && |w.contents| == |files| && i < |c.torrent.hashes|
    requires i in w.engine.tasks && w.engine.tasks[i].Writing? && w.engine.tasks[i].done + n <= |w.engine.tasks[i].data|
    requires c.torrent.PieceOffset(i) + |w.engine.tasks[i].data| <= |Stream(files, w.contents)|
    requires k < |files| && local + n <= files[k].length
    requires files[k].offset + local == c.torrent.PieceOffset(i) + w.engine.tasks[i].done
    ensures Stream(files, Chunked(w, i, n, k, local).contents) == Wrote(c, Seen(files, w), i, n).disk
  {
    var t := w.engine.tasks[i];
    var piece := t.data[t.done..t.done + n];
    ChunkedContents(w, i, n, k, local, piece);
    PutInStream(files, w.contents, c.torrent.total, k, local, piece);
    WroteDisk(c, Seen(files, w), i, n, files[k].offset + local, piece);
  }

  lemma ChunkedContents(w: World, i: nat, n: nat, k: nat, local: nat, piece: seq<byte>)
    requires i in w.engine.tasks && w.engine.tasks[i].Writing? && w.engine.tasks[i].done + n <= |w.engine.tasks[i].data|
    requires k < |w.contents| && piece == w.engine.tasks[i].data[w.engine.tasks[i].done..w.engine.tasks[i].done + n]
    ensures Chunked(w, i, n, k, local).contents == PutIn(w.contents, k, local, piece)
  {
  }

  lemma ChunkSeen(c: Context, files: seq<FileEntry>, w: World, i: nat, n: nat, k: nat, local: nat)
    requires |w.contents| == |files| && k < |files| && i < |c.torrent.hashes|
    requires i in w.engine.tasks && w.engine.tasks[i].Writing? && w.engine.tasks[i].done + n <= |w.engine.tasks[i].data|
    requires c.torrent.PieceOffset(i) + |w.engine.tasks[i].data| <= |Stream(files, w.contents)|
    requires Stream(files, Chunked(w, i, n, k, local).contents) == Wrote(c, Seen(files, w), i, n).disk
    ensures Seen(files, Chunked(w, i, n, k, local)) == Wrote(c, Seen(files, w), i, n)
  {
  }

  /** One turn: the step happens if it can. */
  ghost function FileNext(c: Context, files: seq<FileEntry>, w: World, fe: FileEvent): (v: World)
    requires Sane(c, files, w)
    ensures Sane(c, files, v)
  {
    if FileEnabled(c, files, w, fe) then
      FileStepRefines(c, files, w, fe);
      StepKeepsInv(c, Seen(files, w), Abstract(fe));
      FileStep(c, files, w, fe)
    else w
  }

  ghost function FileAfter(c: Context, files: seq<FileEntry>, w: World, run: seq<FileEvent>): (v: World)
    requires Sane(c, files, w)
    ensures Sane(c, files, v)
    decreases |run|
  {
    if run == [] then w else FileAfter(c, files, FileNext(c, files, w, run[0]), run[1..])
  }

  lemma TurnReaches(c: Context, files: seq<FileEntry>, w: World, fe: FileEvent)
    requires Sane(c, files, w) && Reachable(c, Seen(files, w))
    ensures Reachable(c, Seen(files, FileNext(c, files, w, fe)))
  {
    if FileEnabled(c, files, w, fe) {
      FileStepRefines(c, files, w, fe);
      StepReaches(c, Seen(files, w), Abstract(fe));
    }
  }

  /** Whatever the files go through is a run of the flat download. */
  lemma {:induction false} FileRunsAreRuns(c: Context, files: seq<FileEntry>, w: World, run: seq<FileEvent>)
    requires Sane(c, files, w) && Reachable(c, Seen(files, w))
    ensures Reachable(c, Seen(files, FileAfter(c, files, w, run)))
    decreases |run|
  {
    if run != [] {
      TurnReaches(c, files, w, run[0]);
      FileRunsAreRuns(c, files, FileNext(c, files, w, run[0]), run[1..]);
    }
  }

  // -------------------------------------------------------------------- integrity

  /** The bytes of piece `i` as the files hold them, across file boundaries. */
  ghost function InFiles(c: Context, files: seq<FileEntry>, contents: seq<seq<byte>>, i: nat): seq<byte>
    requires c.torrent.Valid() && i < |c.torrent.hashes| && |contents| == |files|
    requires |Stream(files, contents)| == c.torrent.total
  {
    OnDisk(c, Stream(files, contents), i)
  }

  ghost predicate FilesStart(c: Context, files: seq<FileEntry>, w: World) {
    Tiles(files, c.torrent.total) && |w.contents| == |files| && Start(c, Seen(files, w))
  }

  lemma FilesStartSane(c: Context, files: seq<FileEntry>, w: World)
    requires FilesStart(c, files, w)
    ensures Sane(c, files, w) && Reachable(c, Seen(files, w))
  {
    StartInv(c, Seen(files, w));
    StartIsReachable(c, Seen(files, w));
  }

  /** End-to-end integrity of the files: with verification before writing, in every run whose writes
      are pieces of pieces going to single files, however they interleave, partial writes and failures
      included, the files hold for every reported piece exactly the bytes that were promised. */
  lemma FilesHoldWhatIsVerified(c: Context, files: seq<FileEntry>, w: World, run: seq<FileEvent>, i: nat)
    requires FilesStart(c, files, w)
    ensures Sane(c, files, w)
    ensures var v := FileAfter(c, files, w, run);
            && v.engine.completed == v.engine.verified
            && (c.verifyFirst && i in v.engine.verified ==>
                  && c.torrent.Valid() && i < |c.torrent.hashes| && |v.contents| == |files|
                  && |Stream(files, v.contents)| == c.torrent.total
                  && c.hash(InFiles(c, files, v.contents, i)) == c.torrent.hashes[i])
  {
    FilesStartSane(c, files, w);
    FileRunsAreRuns(c, files, w, run);
    EndToEndIntegrity(c, Seen(files, FileAfter(c, files, w, run)));
  }

  /** And a piece once reported keeps its bytes in the files, whatever is written afterwards. */
  lemma {:induction false} FilesKeepWhatIsVerified(c: Context, files: seq<FileEntry>, w: World, run: seq<FileEvent>,
                                                   i: nat)
    requires Sane(c, files, w) && i in w.engine.verified
    ensures i < |c.torrent.hashes| && i in FileAfter(c, files, w, run).engine.verified
    ensures InFiles(c, files, FileAfter(c, files, w, run).contents, i) == InFiles(c, files, w.contents, i)
    decreases |run|
  {
    if run != [] {
      TurnKeepsFiles(c, files, w, run[0], i);
      FilesKeepWhatIsVerified(c, files, FileNext(c, files, w, run[0]), run[1..], i);
    }
  }

  lemma TurnKeepsFiles(c: Context, files: seq<FileEntry>, w: World, fe: FileEvent, i: nat)
    requires Sane(c, files, w) && i in w.engine.verified
    ensures i < |c.torrent.hashes| && i in FileNext(c, files, w, fe).engine.verified
    ensures InFiles(c, files, FileNext(c, files, w, fe).contents, i) == InFiles(c, files, w.contents, i)
  {
    if FileEnabled(c, files, w, fe) {
      FileStepRefines(c, files, w, fe);
      VerifiedIsForever(c, Seen(files, w), Abstract(fe), i);
    }
  }

  // --------------------------------------------------------------------- progress

  /** Writing some bytes and then some more is one longer write. */
  lemma WritesCompose(c: Context, e: Engine, i: nat, a: nat, b: nat)
    requires CanWrite(c, e, i, a + b)
    ensures i < |c.torrent.hashes| && c.torrent.PieceOffset(i) + |e.tasks[i].data| <= |e.disk|
    ensures Wrote(c, Wrote(c, e, i, a), i, b) == Wrote(c, e, i, a + b)
  {
    WriteFits(c, e, i, a);
    WroteTwice(c, e, i, a, b);
  }

  lemma WroteTwice(c: Context, e: Engine, i: nat, a: nat, b: nat)
    requires i < |c.torrent.hashes| && i in e.tasks && e.tasks[i].Writing?
    requires e.tasks[i].done + a + b <= |e.tasks[i].data|
    requires c.torrent.PieceOffset(i) + |e.tasks[i].data| <= |e.disk|
    ensures Wrote(c, Wrote(c, e, i, a), i, b) == Wrote(c, e, i, a + b)
  {
    DiskWroteTwice(c, e, i, a, b);
    var t := e.tasks[i];
    LastUpdateWins(e.tasks, i, Writing(t.data, t.done + a), Writing(t.data, t.done + a + b));
  }

  lemma DiskWroteTwice(c: Context, e: Engine, i: nat, a: nat, b: nat)
    requires i < |c.torrent.hashes| && i in e.tasks && e.tasks[i].Writing?
    requires e.tasks[i].done + a + b <= |e.tasks[i].data|
    requires c.torrent.PieceOffset(i) + |e.tasks[i].data| <= |e.disk|
    ensures Wrote(c, Wrote(c, e, i, a), i, b).disk == Wrote(c, e, i, a + b).disk
  {
    var t := e.tasks[i];
    PutTwice(e.disk, c.torrent.PieceOffset(i), t.data, t.done, t.done + a, t.done + a + b);
  }

  lemma PutTwice(disk: seq<byte>, at: nat, data: seq<byte>, x: nat, y: nat, z: nat)
    requires x <= y <= z <= |data| && at + |data| <= |disk|
    ensures Overwrite(Overwrite(disk, at + x, data[x..y]), at + y, data[y..z]) == Overwrite(disk, at + x, data[x..z])
  {
    OverwriteAdjacent(disk, at + x, data[x..y], data[y..z]);
    AdjacentSlices(data, x, y, z);
  }

  lemma AdjacentSlices(s: seq<byte>, x: nat, y: nat, z: nat)
    requires x <= y <= z <= |s|
    ensures s[x..y] + s[y..z] == s[x..z]
  {
  }

  lemma LastUpdateWins<K, V>(m: map<K, V>, k: K, a: V, b: V)
    ensures m[k := a][k := b] == m[k := b]
  {
  }
}
