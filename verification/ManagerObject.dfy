/** The download manager (app/download/manager.py) over the mutable scheduler and pieces. Each
    method is one atomic segment between two awaits, proved to be the step of the same name in
    module EngineSpec. */
module ManagerObject {
  import opened Basics
  import opened Blocks
  import opened Pieces
  import opened PieceObject
  import opened SchedulerSpec
  import opened SchedulerObject
  import opened Torrents
  import opened EngineSpec
  import opened EngineProofs
  import opened PlanSpec
  import opened Theorems

  class DownloadManager {
    const context: Context
    const pieces: seq<Piece>
    const scheduler: Scheduler
    var stats: Stats
    var verified: set<nat>
    var penalties: map<Peer, nat>
    var tasks: map<nat, Task>
    /** What the storage's files hold, as one stream; the storage itself is not the manager's. */
    ghost var disk: seq<byte>
    var completed: set<nat>
    ghost var messages: nat
    ghost var payload: nat
    ghost var surplus: nat

    ghost predicate Wired() {
      && scheduler.Wired() && scheduler.pieces == pieces && scheduler.config == context.config
    }

    ghost function State(): Engine
      reads this, scheduler, scheduler.pieces, scheduler.endgame
    {
      Engine(scheduler.State(), stats, verified, penalties, tasks, disk, completed, messages, payload, surplus)
    }

    ghost predicate Valid()
      reads this, scheduler, scheduler.pieces, scheduler.endgame
    {
      Wired() && Inv(context, State())
    }

    /** A manager over freshly built pieces, resuming what the storage says is complete. */
    constructor (context: Context, pieces: seq<Piece>, resumed: set<nat>, ghost disk: seq<byte>)
      requires context.torrent.Valid() && |pieces| == |context.torrent.hashes| && |disk| == context.torrent.total
      requires forall i, j :: 0 <= i < j < |pieces| ==> pieces[i] != pieces[j]
      requires forall i :: 0 <= i < |pieces| ==>
                 Built(pieces[i], i, context.torrent.PieceSize(i), context.torrent.hashes[i], i in resumed)
      requires forall i :: i in resumed ==> i < |pieces|
      requires context.verifyFirst ==>
                 forall i: nat :: i in resumed ==> context.hash(OnDisk(context, disk, i)) == context.torrent.hashes[i]
      ensures Valid() && Start(context, State())
      ensures this.context == context && this.pieces == pieces && fresh(scheduler) && fresh(scheduler.endgame)
    {
      this.context, this.pieces, this.disk := context, pieces, disk;
      stats := Stats(0, 0, 0, 0, 0, 0, 0);
      verified, completed, penalties, tasks := resumed, resumed, map[], map[];
      messages, payload, surplus := 0, 0, 0;
      scheduler := new Scheduler(pieces, context.config);
      new;
      AllUntouched(context, scheduler.Views(), pieces, resumed);
      StartInv(context, State());
    }

    static lemma AllUntouched(c: Context, views: seq<PieceView>, pieces: seq<Piece>, resumed: set<nat>)
      requires |views| == |pieces| == |c.torrent.hashes|
      requires forall i :: 0 <= i < |pieces| ==> views[i] == pieces[i].View()
      requires forall i :: 0 <= i < |pieces| ==>
                 Built(pieces[i], i, c.torrent.PieceSize(i), c.torrent.hashes[i], i in resumed)
      ensures forall i :: 0 <= i < |views| ==> Untouched(views[i], i)
      ensures forall i :: 0 <= i < |views| ==> views[i].size == c.torrent.PieceSize(i)
    {
    }

    method CountDuplicateBlock(data: seq<byte>)
      modifies this`stats
      ensures State() == old(CountDuplicate(State(), data))
    {
      stats := stats.(duplicate := stats.duplicate + 1, wasted := stats.wasted + |data|);
    }

    method CountUnsolicitedBlock(data: seq<byte>)
      modifies this`stats
      ensures State() == old(CountUnsolicited(State(), data))
    {
      stats := stats.(unsolicited := stats.unsolicited + 1, wasted := stats.wasted + |data|);
    }

    /** `on_block`. */
    method HandleBlock(peer: Peer, index: nat, begin: nat, data: seq<byte>)
      requires Valid()
      modifies this, scheduler, scheduler.endgame, scheduler.pieces
      ensures State() == old(OnBlock(State(), peer, index, begin, data))
      ensures Valid()
    {
      ghost var e := State();
      ArriveKeepsInv(context, e, peer, index, begin, data);
      LogMessage(data);
      Dispatch(peer, index, begin, data);
      assert State() == OnBlock(e, peer, index, begin, data);
    }

    method LogMessage(data: seq<byte>)
      modifies this`messages, this`payload
      ensures State() == old(Log(State(), data))
    {
      messages, payload := messages + 1, payload + |data|;
    }

    method Dispatch(peer: Peer, index: nat, begin: nat, data: seq<byte>)
      requires Wired() && State().sched.Inv()
      requires index < |pieces| ==> State().sched.pieces[index].phase != Downloaded
      modifies this, scheduler, scheduler.endgame, scheduler.pieces
      ensures State() == old(Handled(State(), peer, index, begin, data))
    {
      if index >= |pieces| {
        CountUnsolicitedBlock(data);
        return;
      }
      assert pieces[index].View() == State().sched.pieces[index];
      if pieces[index].state == Verified || pieces[index].state == Verifying {
        LateBlock(peer, index, begin, data);
      } else {
        StoreBlock(peer, index, begin, data);
      }
    }

    /** The piece is stored or being stored: a copy we asked for is a lost race. */
    method LateBlock(peer: Peer, index: nat, begin: nat, data: seq<byte>)
      modifies this, scheduler, scheduler.endgame
      ensures State() ==
              old(if State().sched.WasAsked(peer, BlockKey(index, begin))
                  then CountDuplicate(State().(sched := State().sched.Received(peer, BlockKey(index, begin))), data)
                  else CountUnsolicited(State(), data))
    {
      var asked := scheduler.HasAsked(peer, BlockKey(index, begin));
      if asked {
        var _ := scheduler.NoteReceived(peer, BlockKey(index, begin));
        CountDuplicateBlock(data);
      } else {
        CountUnsolicitedBlock(data);
      }
    }

    /** The part of `on_block` that offers the payload to a piece still being assembled. */
    method StoreBlock(peer: Peer, index: nat, begin: nat, data: seq<byte>)
      requires Wired() && index < |pieces| && State().sched.Inv() && !State().sched.pieces[index].Closed()
      modifies this, scheduler, scheduler.endgame, scheduler.pieces
      ensures State() == old(if State().sched.pieces[index].Accepts(begin, data)
                             then Submit(AcceptBlock(State(), peer, BlockKey(index, begin), data), index)
                             else CountDuplicate(State(), data))
    {
      ghost var e := State();
      var stored := PutBlock(peer, index, begin, data);
      if !stored {
        CountDuplicateBlock(data);
      } else {
        Admit(peer, BlockKey(index, begin), data, e);
      }
    }

    /** The rest of `on_block` once the piece has taken the payload. */
    method Admit(peer: Peer, key: BlockKey, data: seq<byte>, ghost e: Engine)
      requires Wired() && e.sched.Inv() && key.piece < |e.sched.pieces| && !e.sched.pieces[key.piece].Closed()
      requires e.sched.pieces[key.piece].Accepts(key.offset, data)
      requires State() ==
               e.(sched := e.sched.SetPiece(key.piece, e.sched.pieces[key.piece].Store(key.offset, data, peer)))
      modifies this, scheduler, scheduler.endgame, scheduler.pieces
      ensures State() == Submit(AcceptBlock(e, peer, key, data), key.piece)
    {
      AcceptedState(e.sched, peer, key, data);
      CreditAccepted(peer, key, data, e);
      SubmitIfWhole(key.piece);
    }

    method CreditAccepted(peer: Peer, key: BlockKey, data: seq<byte>, ghost e: Engine)
      requires e.sched.PiecesOk() && key.piece < |e.sched.pieces| && e.sched.pieces[key.piece].Accepts(key.offset, data)
      requires State() ==
               e.(sched := e.sched.SetPiece(key.piece, e.sched.pieces[key.piece].Store(key.offset, data, peer)))
      modifies this`stats, this`surplus, scheduler`slots, scheduler`asked, scheduler.endgame
      ensures State() == AcceptBlock(e, peer, key, data)
    {
      ghost var missing := e.sched.unclaimed.Some? && e.sched.pieces[key.piece].states[key.offset] == BlockMissing;
      Credit(peer, key, if missing then 1 else 0);
    }

    method PutBlock(peer: Peer, index: nat, begin: nat, data: seq<byte>) returns (stored: bool)
      requires Wired() && index < |pieces| && State().sched.PiecesOk()
      modifies scheduler.pieces
      ensures stored == old(State().sched.pieces[index].Accepts(begin, data))
      ensures State() == old(if State().sched.pieces[index].Accepts(begin, data)
                             then State().(sched := State().sched.SetPiece(
                                             index, State().sched.pieces[index].Store(begin, data, peer)))
                             else State())
    {
      ghost var e := State();
      assert pieces[index].View() == e.sched.pieces[index];
      stored := pieces[index].AddBlock(begin, data, peer);
      scheduler.OneViewChanged(index, pieces[index].View());
      assert e.sched.pieces[index := e.sched.pieces[index]] == e.sched.pieces;
    }

    /** Counts a stored block and tells the ledgers of it. */
    method Credit(peer: Peer, key: BlockKey, ghost extra: nat)
      modifies this`stats, this`surplus, scheduler`slots, scheduler`asked, scheduler.endgame
      ensures State() == old(State().(sched := State().sched.Received(peer, key),
                                      stats := stats.(received := stats.received + 1),
                                      surplus := surplus + extra))
    {
      stats := stats.(received := stats.received + 1);
      surplus := surplus + extra;
      var _ := scheduler.NoteReceived(peer, key);
    }

    /** A whole piece has its leftover requests cancelled and is handed to verification. */
    method SubmitIfWhole(index: nat)
      requires Wired() && index < |pieces| && State().sched.Inv()
      requires State().sched.pieces[index].Complete() ==> State().sched.pieces[index].phase == Downloaded
      modifies this`tasks, scheduler, scheduler.endgame, scheduler.pieces
      ensures State() == old(Submit(State(), index))
    {
      assert pieces[index].View() == State().sched.pieces[index];
      var whole := pieces[index].IsComplete();
      if whole {
        CancelLeftovers(index);
        HoldForVerifying(index);
        SetTask(index, Scheduled);
      }
    }

    method SetTask(index: nat, task: Task)
      modifies this`tasks
      ensures State() == old(State()).(tasks := old(tasks)[index := task])
    {
      tasks := tasks[index := task];
    }

    method EndTask(index: nat)
      modifies this`tasks
      ensures State() == old(State()).(tasks := old(tasks) - {index})
    {
      tasks := tasks - {index};
    }

    method HoldForVerifying(index: nat)
      requires Wired() && index < |pieces|
      modifies scheduler.pieces
      ensures State() ==
              old(State()).(sched := old(State()).sched.SetPiece(index, old(pieces[index].View()).(phase := Verifying)))
    {
      pieces[index].MarkVerifying();
      scheduler.OneViewChanged(index, pieces[index].View());
    }

    method EmptyPiece(index: nat)
      requires Wired() && index < |pieces| && pieces[index].View().Shape()
      modifies scheduler.pieces
      ensures State() == old(State()).(sched := old(State()).sched.SetPiece(index, old(pieces[index].View()).Reset()))
    {
      pieces[index].Reset();
      scheduler.OneViewChanged(index, pieces[index].View());
    }

    /** `cancel_piece` on a whole piece: there is never anything left to cancel. */
    method CancelLeftovers(index: nat)
      requires Wired() && index < |pieces| && State().sched.Inv() && State().sched.pieces[index].Closed()
      modifies scheduler, scheduler.endgame, scheduler.pieces
      ensures State() == old(State())
    {
      ClosedIsQuiet(State().sched, index);
      var cancelled := scheduler.CancelPiece(index);
      HasMember(cancelled);
      assert forall x :: x in cancelled ==> (x.0, x.1) in cancelled;
    }

    // ------------------------------------------------------------------- peers

    /** `on_disconnect`, as far as requests are concerned. */
    method Disconnect(peer: Peer) returns (keys: seq<BlockKey>)
      requires Valid()
      modifies scheduler, scheduler.endgame, scheduler.pieces
      ensures Valid() && ListsSlot(old(State()).sched, peer, keys)
      ensures State() == old(State()).(sched := old(State()).sched.PeerGone(peer, keys))
    {
      ghost var e := State();
      keys := scheduler.DropPeer(peer);
      LossLedgers(e.sched, Leave(peer, keys));
      SteadyKeepsInv(context, e, scheduler.State());
    }

    /** A request that could not be sent. */
    method SendFailed(peer: Peer, key: BlockKey)
      requires Valid()
      modifies scheduler, scheduler.endgame, scheduler.pieces
      ensures Valid()
      ensures State() == old(State()).(sched := old(State()).sched.Orphaned(peer, key))
    {
      ghost var e := State();
      var _ := scheduler.NoteOrphaned(peer, key);
      LossLedgers(e.sched, Lose(peer, key));
      SteadyKeepsInv(context, e, scheduler.State());
    }

    /** `_reclaim_expired`. */
    method ReclaimExpired(timeout: real, now: real) returns (expired: seq<(Peer, BlockKey)>)
      requires Valid()
      modifies scheduler, scheduler.endgame, scheduler.pieces
      ensures Valid()
      ensures State() == old(State()).(sched := old(State()).sched.OrphanedAll(expired))
      ensures forall p, k :: (p, k) in expired <==>
                old(State()).sched.InSlot(p, k) && now - old(State()).sched.slots[p][k] >= timeout
      ensures forall p, k :: State().sched.InSlot(p, k) ==> now - scheduler.slots[p][k] < timeout
    {
      ghost var e := State();
      expired := scheduler.Expire(timeout, now);
      OrphanAllLedgers(e.sched, expired);
      SteadyKeepsInv(context, e, scheduler.State());
    }

    /** The planning half of `pump`. */
    method PlanRequests(infos: seq<PeerInfo>, now: real) returns (assignments: seq<Assignment>, ghost acts: seq<Event>)
      requires Valid()
      modifies scheduler, scheduler.endgame, scheduler.pieces
      ensures Valid() && State() == old(State()).(sched := State().sched)
      ensures PassReaches(context.config, old(State()).sched, acts, now, State().sched)
      ensures Gives(acts) == Keys(assignments)
      ensures EmptiestFirst(old(scheduler.slots), infos, assignments)
      ensures forall v :: v in infos && v.Usable() ==> AttendedIn(context.config, old(State()).sched, acts, now, v)
      ensures !context.config.endgameEnabled ==>
                forall v :: v in infos && v.Usable() ==> scheduler.Served(State().sched, v)
    {
      ghost var e := State();
      assignments, acts := scheduler.Plan(infos, now);
      PassKeepsInv(context.config, e.sched, acts, now, scheduler.State());
      PassKeepsDrift(context.config, e.sched, acts, now, scheduler.State());
      SteadyKeepsInv(context, e, scheduler.State());
    }

    // ------------------------------------------------------------ verification

    /** The first segment of `_verify_piece`. */
    method BeginVerify(index: nat)
      requires Valid() && index in tasks && tasks[index].Scheduled?
      modifies this`tasks, scheduler.pieces
      ensures Valid() && index < |pieces| && State() == Started(old(State()), index)
      ensures tasks == old(tasks)[index := Hashing(old(State()).sched.pieces[index].buffer.value)]
    {
      DataIsReady(context, State(), index);
      StartKeepsInv(context, State(), index);
      TakeData(index);
    }

    method TakeData(index: nat)
      requires Wired() && State().sched.PiecesOk() && index < |pieces|
      modifies this`tasks, scheduler.pieces
      ensures State() == Started(old(State()), index)
    {
      ghost var e := State();
      assert pieces[index].View() == e.sched.pieces[index];
      var data := pieces[index].GetData();
      if data.None? {
        EmptyPiece(index);
        EndTask(index);
      } else {
        SetTask(index, Hashing(data.value));
      }
    }

    /** The hash pool has answered. A mismatch throws the whole piece away and blames its sources. */
    method JudgeHash(index: nat)
      requires Valid() && index in tasks && tasks[index].Hashing?
      modifies this, scheduler, scheduler.pieces
      ensures Valid() && index < |pieces|
      ensures State() == if context.verifyFirst && context.hash(old(tasks)[index].data) != context.torrent.hashes[index]
                         then HashFailed(old(State()), index)
                         else old(State()).(tasks := old(tasks)[index := Writing(old(tasks)[index].data, 0)])
    {
      ghost var e := State();
      assert TaskOk(context, e, index);
      if context.verifyFirst && context.hash(tasks[index].data) != context.torrent.hashes[index] {
        HashFailedKeepsInv(context, e, index);
        RejectPiece(index);
      } else {
        HashOkKeepsInv(context, e, index);
        SetTask(index, Writing(tasks[index].data, 0));
      }
    }

    method RejectPiece(index: nat)
      requires Wired() && State().sched.PiecesOk() && index < |pieces|
      modifies this, scheduler, scheduler.pieces
      ensures State() == HashFailed(old(State()), index)
    {
      ChargeFailure(index);
      ForgetFailed(index);
    }

    method ChargeFailure(index: nat)
      requires Wired() && index < |pieces|
      modifies this
      ensures State() == old(State()).(
                stats := old(stats).(failed := old(stats).failed + 1,
                                     wasted := old(stats).wasted + old(State()).sched.pieces[index].size,
                                     penalties := old(stats).penalties + |old(State()).sched.pieces[index].sources|),
                penalties := Penalised(old(penalties), old(State()).sched.pieces[index].sources),
                tasks := old(tasks) - {index},
                surplus := 0)
    {
      assert pieces[index].View() == State().sched.pieces[index];
      Blame(pieces[index].size, pieces[index].sources);
      DropTask(index);
    }

    method DropTask(index: nat)
      modifies this`tasks, this`surplus
      ensures State() == old(State()).(tasks := old(tasks) - {index}, surplus := 0)
    {
      tasks := tasks - {index};
      surplus := 0;
    }

    method ForgetFailed(index: nat)
      requires Wired() && State().sched.PiecesOk() && index < |pieces|
      modifies scheduler, scheduler.pieces
      ensures State() == old(State()).(sched :=
                old(State()).sched.SetPiece(index, old(State()).sched.pieces[index].MarkFailed().Reset())
                                  .PieceReset(index))
    {
      assert pieces[index].View() == State().sched.pieces[index];
      ghost var s := scheduler.State();
      pieces[index].MarkFailed();
      pieces[index].Reset();
      scheduler.OneViewChanged(index, pieces[index].View());
      scheduler.NotePieceReset(index);
    }

    method Blame(size: nat, sources: seq<Peer>)
      modifies this`stats, this`penalties
      ensures State() == old(State()).(
                stats := old(stats).(failed := old(stats).failed + 1, wasted := old(stats).wasted + size,
                                     penalties := old(stats).penalties + |sources|),
                penalties := Penalised(old(penalties), sources))
    {
      stats := stats.(failed := stats.failed + 1, wasted := stats.wasted + size);
      ghost var before := State();
      for i := 0 to |sources|
        invariant penalties == Penalised(before.penalties, sources[..i])
        invariant stats == before.stats.(penalties := before.stats.penalties + i)
        invariant State() == before.(stats := stats, penalties := penalties)
      {
        assert sources[..i + 1][..i] == sources[..i];
        penalties := penalties[sources[i] := (if sources[i] in penalties then penalties[sources[i]] else 0) + 1];
        stats := stats.(penalties := stats.penalties + 1);
      }
      assert sources[..|sources|] == sources;
    }

    /** Some more bytes of the piece reach the stream. */
    method WriteChunk(index: nat, count: nat)
      requires Valid() && index in tasks && tasks[index].Writing?
      requires tasks[index].done + count <= |tasks[index].data|
      modifies this`disk, this`tasks
      ensures Valid() && index < |context.torrent.hashes|
      ensures context.torrent.PieceOffset(index) + |old(tasks)[index].data| <= |old(disk)|
      ensures State() == Wrote(context, old(State()), index, count)
    {
      WriteSomeKeepsInv(context, State(), index, count);
      DoWriteChunk(index, count);
    }

    method DoWriteChunk(index: nat, count: nat)
      requires Wired() && index < |context.torrent.hashes| && index in tasks && tasks[index].Writing?
      requires tasks[index].done + count <= |tasks[index].data|
      requires context.torrent.PieceOffset(index) + |tasks[index].data| <= |disk|
      modifies this`disk, this`tasks
      ensures State() == Wrote(context, old(State()), index, count)
    {
      var t := tasks[index];
      disk := Overwrite(disk, context.torrent.PieceOffset(index) + t.done, t.data[t.done..t.done + count]);
      tasks := tasks[index := Writing(t.data, t.done + count)];
    }

    /** The whole piece is on disk. */
    method FinishWrite(index: nat)
      requires Valid() && index in tasks && tasks[index].Writing? && tasks[index].done == |tasks[index].data|
      modifies this`completed, this`stats, this`verified, this`tasks, scheduler.pieces
      ensures Valid() && index < |pieces| && State() == Stored(old(State()), index)
    {
      StoredKeepsInv(context, State(), index);
      SettlePiece(index);
    }

    method SettlePiece(index: nat)
      requires Wired() && index < |pieces|
      modifies this`completed, this`stats, this`verified, this`tasks, scheduler.pieces
      ensures State() == Stored(old(State()), index)
    {
      completed := completed + {index};
      stats := stats.(verified := stats.verified + 1);
      pieces[index].MarkVerified();
      verified := verified + {index};
      pieces[index].Release();
      scheduler.OneViewChanged(index, pieces[index].View());
      tasks := tasks - {index};
    }

    /** Anything else went wrong: the piece is left VERIFYING with its buffer released. */
    method Abandon(index: nat)
      requires Valid() && index in tasks && !tasks[index].Scheduled?
      modifies this`tasks, scheduler.pieces
      ensures Valid() && index < |pieces| && State() == Faulted(old(State()), index)
    {
      FaultKeepsInv(context, State(), index);
      assert TaskOk(context, State(), index);
      ReleasePiece(index);
    }

    method ReleasePiece(index: nat)
      requires Wired() && index < |pieces|
      modifies this`tasks, scheduler.pieces
      ensures State() == Faulted(old(State()), index)
    {
      pieces[index].Release();
      scheduler.OneViewChanged(index, pieces[index].View());
      tasks := tasks - {index};
    }
  }

  lemma AcceptedState(s: Sched, p: Peer, k: BlockKey, data: seq<byte>)
    requires s.Inv() && k.piece < |s.pieces| && !s.pieces[k.piece].Closed() && s.pieces[k.piece].Accepts(k.offset, data)
    ensures
      var t := s.SetPiece(k.piece, s.pieces[k.piece].Store(k.offset, data, p)).Received(p, k);
      t.Inv() && (t.pieces[k.piece].Complete() ==> t.pieces[k.piece].phase == Downloaded)
  {
    AcceptKeepsInv(s, p, k, data);
    StoreKeeps(s.pieces[k.piece], k.offset, data, p);
  }
}
