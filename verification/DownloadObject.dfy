/** The manager and the storage it writes to, as objects. Every verified piece is cut into its plan
    once and the plan is walked chunk by chunk. Between two calls anything else may happen to either
    object, the next chunk of another piece included; each call is one segment between two awaits. */
module DownloadObject {
  import opened Basics
  import opened Pieces
  import opened Torrents
  import opened Storage
  import opened StreamSpec
  import opened StorageObject
  import opened EngineSpec
  import opened EngineProofs
  import opened ManagerObject

  /** A plan and how many of its chunks are written. */
  datatype Walk = Walk(chunks: seq<Chunk>, next: nat)

  /** The plan is the piece's data laid out from `start`, and the chunks before the next one are what
      the task has written. */
  ghost predicate WalkOk(files: seq<FileEntry>, start: nat, w: Walk, t: Task) {
    && t.Writing? && Chain(files, SpansOf(w.chunks), start) && Payload(w.chunks) == t.data
    && w.next <= |w.chunks| && t.done == StartOf(w.chunks, w.next)
  }

  ghost predicate WalksOk(files: seq<FileEntry>, c: Context, tasks: map<nat, Task>, walks: map<nat, Walk>) {
    forall i :: i in walks ==>
      i in tasks && i < |c.torrent.hashes| && WalkOk(files, c.torrent.PieceOffset(i), walks[i], tasks[i])
  }

  class Download {
    const manager: DownloadManager
    const storage: StorageManager
    var walks: map<nat, Walk>

    /** What the manager takes for its disk is what the files hold. */
    ghost predicate Joined()
      reads storage, storage.disks, manager
    {
      && storage.Wired() && storage.torrent == manager.context.torrent
      && storage.Bytes() == manager.disk && storage.completed == manager.completed
    }

    ghost predicate Walking()
      reads this, manager
    {
      WalksOk(storage.files, manager.context, manager.tasks, walks)
    }

    ghost predicate Valid()
      reads this, storage, storage.disks
      reads manager, manager.scheduler, manager.scheduler.pieces, manager.scheduler.endgame
    {
      manager.Valid() && Joined() && Walking()
    }

    constructor (manager: DownloadManager, storage: StorageManager)
      requires manager.Valid() && storage.Wired() && storage.torrent == manager.context.torrent
      requires storage.Bytes() == manager.disk && storage.completed == manager.completed
      ensures this.manager == manager && this.storage == storage && Valid()
    {
      this.manager, this.storage, this.walks := manager, storage, map[];
    }

    /** There are `n` more bytes to write of a piece, and room for the piece. */
    ghost predicate Writes(index: nat, n: nat)
      reads manager
    {
      && index in manager.tasks && manager.tasks[index].Writing?
      && manager.tasks[index].done + n <= |manager.tasks[index].data|
      && index < |manager.context.torrent.hashes|
      && manager.context.torrent.PieceOffset(index) + |manager.tasks[index].data| <= |manager.disk|
    }

    lemma HasRoom(index: nat)
      requires manager.Valid() && index in manager.tasks && manager.tasks[index].Writing?
      ensures Writes(index, 0)
    {
      assert TaskOk(manager.context, manager.State(), index);
      WriteFits(manager.context, manager.State(), index, 0);
    }

    /** The hash was right: the piece is cut into its chunks. */
    method Begin(index: nat) returns (plan: seq<Chunk>)
      requires Valid() && index in manager.tasks && manager.tasks[index].Writing? && manager.tasks[index].done == 0
      modifies this`walks
      ensures Valid() && walks == old(Planned(index, plan)) && Payload(plan) == manager.tasks[index].data
    {
      HasRoom(index);
      plan := DoBegin(index);
    }

    /** The walks once a plan is made. */
    function Planned(index: nat, plan: seq<Chunk>): map<nat, Walk>
      reads this
    {
      walks[index := Walk(plan, 0)]
    }

    method DoBegin(index: nat) returns (plan: seq<Chunk>)
      requires Joined() && Walking() && Writes(index, 0) && manager.tasks[index].done == 0
      modifies this`walks
      ensures Walking() && walks == old(Planned(index, plan)) && Payload(plan) == manager.tasks[index].data
      ensures manager.State() == old(manager.State())
    {
      var start := manager.context.torrent.PieceOffset(index);
      var r := Plan(storage.files, storage.torrent.total, start, manager.tasks[index].data);
      plan := r.value;
      assert plan[..0] == [];
      walks := Planned(index, plan);
    }

    /** The next chunk of a piece goes to its file. A failed write keeps what it wrote and ends the walk. */
    method WriteNext(index: nat) returns (ok: bool, n: nat)
      requires Valid() && index in walks && walks[index].next < |walks[index].chunks|
      modifies this`walks, storage.disks, storage.faults, manager`disk, manager`tasks
      ensures old(storage.faults.n) <= storage.faults.n && (!ok ==> old(storage.faults.n) < storage.faults.n)
      ensures Valid() && old(n <= Size(index) && Writes(index, n)) && (ok ==> n == old(Size(index)) > 0)
      ensures walks == old(Moved(index, ok))
      ensures manager.State() == Wrote(manager.context, old(manager.State()), index, n)
    {
      ghost var e := manager.State();
      HasRoom(index);
      ok, n := DoWriteNext(index);
      WriteSomeKeepsInv(manager.context, e, index, n);
    }

    /** How long the next chunk of a piece is. */
    function Size(index: nat): nat
      requires index in walks && walks[index].next < |walks[index].chunks|
      reads this
    {
      |walks[index].chunks[walks[index].next].data|
    }

    /** The walks after a write to the file of the next chunk. */
    function Moved(index: nat, ok: bool): map<nat, Walk>
      requires index in walks
      reads this
    {
      if ok then walks[index := Walk(walks[index].chunks, walks[index].next + 1)] else walks - {index}
    }

    method DoWriteNext(index: nat) returns (ok: bool, n: nat)
      requires manager.Wired() && Joined() && Walking() && Writes(index, 0)
      requires index in walks && walks[index].next < |walks[index].chunks|
      modifies this`walks, storage.disks, storage.faults, manager`disk, manager`tasks
      ensures old(storage.faults.n) <= storage.faults.n && (!ok ==> old(storage.faults.n) < storage.faults.n)
      ensures Joined() && Walking() && old(n <= Size(index) && Writes(index, n)) && (ok ==> n == old(Size(index)) > 0)
      ensures walks == old(Moved(index, ok))
      ensures manager.State() == Wrote(manager.context, old(manager.State()), index, n)
    {
      ok, n := PutChunk(index, walks[index]);
      Advance(index, n, ok);
    }

    method Advance(index: nat, n: nat, ok: bool)
      requires manager.Wired() && storage.Wired() && storage.torrent == manager.context.torrent && Walking()
      requires Writes(index, n) && index in walks && walks[index].next < |walks[index].chunks|
      requires (ok ==> n == Size(index)) && storage.completed == manager.completed
      requires storage.Bytes() == Wrote(manager.context, manager.State(), index, n).disk
      modifies this`walks, manager`disk, manager`tasks
      ensures Joined() && Walking()
      ensures walks == old(Moved(index, ok))
      ensures manager.State() == Wrote(manager.context, old(manager.State()), index, n)
    {
      WalksAfter(storage.files, manager.context, manager.tasks, walks, index, n);
      walks := Moved(index, ok);
      Record(index, n);
    }

    /** The storage half. */
    method PutChunk(index: nat, w: Walk) returns (ok: bool, n: nat)
      requires Joined() && Writes(index, 0) && w.next < |w.chunks|
      requires WalkOk(storage.files, manager.context.torrent.PieceOffset(index), w, manager.tasks[index])
      modifies storage.disks, storage.faults
      ensures old(storage.faults.n) <= storage.faults.n && (!ok ==> old(storage.faults.n) < storage.faults.n)
      ensures manager.State() == old(manager.State()) && storage.Wired() && Writes(index, n)
      ensures n <= |w.chunks[w.next].data| && (ok ==> n == |w.chunks[w.next].data| > 0)
      ensures storage.Bytes() == Wrote(manager.context, manager.State(), index, n).disk
    {
      var t := manager.tasks[index];
      var start := manager.context.torrent.PieceOffset(index);
      ghost var e, before := manager.State(), storage.Bytes();
      ok, n := PutSlice(start, w, t.data, t.done);
      SliceWrote(manager.context, e, index, n, before, storage.Bytes());
    }

    static lemma SliceWrote(c: Context, e: Engine, i: nat, n: nat, before: seq<byte>, after: seq<byte>)
      requires i < |c.torrent.hashes| && i in e.tasks && e.tasks[i].Writing?
      requires e.tasks[i].done + n <= |e.tasks[i].data|
      requires c.torrent.PieceOffset(i) + |e.tasks[i].data| <= |e.disk| && before == e.disk
      requires var t := e.tasks[i];
               after == Overwrite(before, c.torrent.PieceOffset(i) + t.done, t.data[t.done..t.done + n])
      ensures after == Wrote(c, e, i, n).disk
    {
    }

    method PutSlice(start: nat, w: Walk, data: seq<byte>, done: nat) returns (ok: bool, n: nat)
      requires storage.Wired() && w.next < |w.chunks| && start + |data| <= storage.torrent.total
      requires Chain(storage.files, SpansOf(w.chunks), start) && Payload(w.chunks) == data
      requires done == StartOf(w.chunks, w.next)
      modifies storage.disks, storage.faults
      ensures old(storage.faults.n) <= storage.faults.n && (!ok ==> old(storage.faults.n) < storage.faults.n)
      ensures n <= |w.chunks[w.next].data| && (ok ==> n == |w.chunks[w.next].data| > 0)
      ensures done + n <= |data|
      ensures storage.Bytes() == Overwrite(old(storage.Bytes()), start + done, data[done..done + n])
    {
      NextChunk(storage.files, w.chunks, start, data, w.next);
      n, ok := storage.WriteOne(w.chunks[w.next], start + done);
      ChunkIsSlice(w.chunks, data, w.next, n);
    }

    static lemma ChunkIsSlice(chunks: seq<Chunk>, data: seq<byte>, i: nat, n: nat)
      requires Payload(chunks) == data && i < |chunks| && n <= |chunks[i].data|
      ensures StartOf(chunks, i) + n <= |data|
      ensures chunks[i].data[..n] == data[StartOf(chunks, i)..StartOf(chunks, i) + n]
    {
      PartWritten(chunks, data, i, n);
      SliceAfter(data, StartOf(chunks, i), n, chunks[i].data[..n]);
    }

    static lemma SliceAfter(data: seq<byte>, from: nat, n: nat, part: seq<byte>)
      requires from + n <= |data| && |part| == n && data[..from] + part == data[..from + n]
      ensures part == data[from..from + n]
    {
      assert data[from..from + n] == data[..from + n][from..];
    }

    /** The manager half: its task is that much further. */
    method Record(index: nat, n: nat)
      requires manager.Wired() && storage.Wired() && storage.torrent == manager.context.torrent && Writes(index, n)
      requires storage.completed == manager.completed
      requires storage.Bytes() == Wrote(manager.context, manager.State(), index, n).disk
      modifies manager`disk, manager`tasks
      ensures Joined() && manager.State() == Wrote(manager.context, old(manager.State()), index, n)
      ensures manager.tasks ==
              old(manager.tasks)[index := Writing(old(manager.tasks)[index].data, old(manager.tasks)[index].done + n)]
    {
      ghost var written := storage.Bytes();
      manager.DoWriteChunk(index, n);
      assert storage.Bytes() == written && manager.tasks == manager.State().tasks;
    }

    /** Writing all of the next chunk is the next step of the walk; writing less ends it. */
    static lemma WalksAfter(files: seq<FileEntry>, c: Context, tasks: map<nat, Task>, walks: map<nat, Walk>, i: nat,
                            n: nat)
      requires WalksOk(files, c, tasks, walks) && i in walks && walks[i].next < |walks[i].chunks|
      ensures var w, t := walks[i], tasks[i];
              && WalksOk(files, c, tasks[i := Writing(t.data, t.done + n)], walks - {i})
              && (n == |w.chunks[w.next].data| ==>
                    WalksOk(files, c, tasks[i := Writing(t.data, t.done + n)], walks[i := Walk(w.chunks, w.next + 1)]))
    {
      NextChunk(files, walks[i].chunks, c.torrent.PieceOffset(i), tasks[i].data, walks[i].next);
    }

    /** A write that failed, or any other error of the storage: the verification is given up. */
    method GiveUp(index: nat)
      requires Valid() && index in manager.tasks && !manager.tasks[index].Scheduled?
      modifies this`walks, manager`tasks, manager.scheduler.pieces
      ensures Valid() && index < |manager.pieces| && walks == old(walks) - {index}
      ensures manager.State() == Faulted(old(manager.State()), index)
    {
      FaultKeepsInv(manager.context, manager.State(), index);
      assert TaskOk(manager.context, manager.State(), index);
      DoGiveUp(index);
    }

    method DoGiveUp(index: nat)
      requires manager.Wired() && Joined() && Walking() && index < |manager.pieces|
      modifies this`walks, manager`tasks, manager.scheduler.pieces
      ensures Joined() && Walking() && walks == old(walks) - {index}
      ensures manager.State() == Faulted(old(manager.State()), index)
    {
      walks := walks - {index};
      DropWalk(index);
    }

    method DropWalk(index: nat)
      requires manager.Wired() && Joined() && index < |manager.pieces|
      modifies manager`tasks, manager.scheduler.pieces
      ensures Joined() && manager.tasks == old(manager.tasks) - {index}
      ensures manager.State() == Faulted(old(manager.State()), index)
    {
      manager.ReleasePiece(index);
      assert manager.tasks == manager.State().tasks;
    }

    /** The plan is walked to its end, so the piece is written whole: the storage counts it as complete
        and the manager reports it. */
    method Finish(index: nat)
      requires Valid() && index in walks && walks[index].next == |walks[index].chunks|
      modifies this`walks, storage`completed
      modifies manager`completed, manager`stats, manager`verified, manager`tasks, manager.scheduler.pieces
      ensures Valid() && index < |manager.pieces| && manager.State() == Stored(old(manager.State()), index)
      ensures index in manager.verified && index in storage.completed && walks == old(walks) - {index}
    {
      WalkDone(walks[index].chunks);
      StoredKeepsInv(manager.context, manager.State(), index);
      DoFinish(index);
    }

    static lemma WalkDone(chunks: seq<Chunk>)
      ensures StartOf(chunks, |chunks|) == |Payload(chunks)|
    {
      assert chunks[..|chunks|] == chunks;
    }

    method DoFinish(index: nat)
      requires manager.Wired() && Joined() && Walking() && index < |manager.pieces|
      modifies this`walks, storage`completed
      modifies manager`completed, manager`stats, manager`verified, manager`tasks, manager.scheduler.pieces
      ensures Joined() && Walking() && manager.State() == Stored(old(manager.State()), index)
      ensures index in manager.verified && index in storage.completed && walks == old(walks) - {index}
    {
      walks := walks - {index};
      CountComplete(index);
    }

    method CountComplete(index: nat)
      requires manager.Wired() && Joined() && index < |manager.pieces|
      modifies storage`completed
      modifies manager`completed, manager`stats, manager`verified, manager`tasks, manager.scheduler.pieces
      ensures Joined() && manager.State() == Stored(old(manager.State()), index)
      ensures index in manager.verified && index in storage.completed && manager.tasks == old(manager.tasks) - {index}
    {
      storage.completed := storage.completed + {index};
      manager.SettlePiece(index);
      assert manager.completed == manager.State().completed && manager.disk == manager.State().disk;
      assert manager.verified == manager.State().verified && manager.tasks == manager.State().tasks;
    }

    /** In every valid state the files hold, for every piece the manager reports, the promised bytes. */
    lemma ReportedIsInFiles(index: nat)
      requires Valid() && manager.context.verifyFirst && index in manager.verified
      ensures index < |storage.torrent.hashes| && index in storage.completed
      ensures manager.context.hash(storage.PieceBytes(index)) == storage.torrent.hashes[index]
    {
      assert Intact(manager.context, manager.State());
      assert storage.PieceBytes(index) == OnDisk(manager.context, manager.disk, index);
    }
  }
}
