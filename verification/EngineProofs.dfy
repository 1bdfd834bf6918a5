/** Every atomic step of the download keeps the whole-state invariant. */
module EngineProofs {
  import opened Basics
  import opened Blocks
  import opened Pieces
  import opened SchedulerSpec
  import opened Torrents
  import opened EngineSpec

  // ----------------------------------------------------------- steady changes

  lemma SameProgressBytes(p: PieceView, q: PieceView)
    requires p.Shape() && q.Shape() && SameProgress(p, q)
    ensures q.ReceivedBytes() == p.ReceivedBytes()
  {
    forall i | 0 <= i < |p.blocks|
      ensures q.ByteWeights()[i] == p.ByteWeights()[i]
    {
      OffsetOfBlock(p, i);
    }
    assert q.ByteWeights() == p.ByteWeights();
  }

  lemma SteadyHeld(s: Sched, t: Sched)
    requires s.PiecesOk() && t.PiecesOk() && Steady(s, t)
    ensures Held(t) == Held(s)
  {
    forall i | 0 <= i < |s.pieces|
      ensures HeldWeights(t)[i] == HeldWeights(s)[i]
    {
      SameProgressBytes(s.pieces[i], t.pieces[i]);
    }
    assert HeldWeights(t) == HeldWeights(s);
  }

  lemma SetPieceHeld(s: Sched, i: nat, p: PieceView)
    requires s.PiecesOk() && i < |s.pieces| && p.Valid() && p.index == i
    ensures s.SetPiece(i, p).PiecesOk()
    ensures Held(s.SetPiece(i, p)) == Held(s) - s.pieces[i].ReceivedBytes() + p.ReceivedBytes()
  {
    assert HeldWeights(s.SetPiece(i, p)) == HeldWeights(s)[i := p.ReceivedBytes()];
    SumUpdate(HeldWeights(s), i, p.ReceivedBytes());
  }

  lemma SteadyTrans(s: Sched, t: Sched, u: Sched)
    requires Steady(s, t) && Steady(t, u)
    ensures Steady(s, u)
  {
    forall i | 0 <= i < |s.pieces|
      ensures SameProgress(s.pieces[i], u.pieces[i])
    {
      assert SameProgress(s.pieces[i], t.pieces[i]) && SameProgress(t.pieces[i], u.pieces[i]);
    }
  }

  lemma GiveSteady(s: Sched, p: Peer, k: BlockKey, now: real)
    requires p in s.slots && s.Known(k) && s.pieces[k.piece].states[k.offset] != BlockReceived
    ensures Steady(s, s.Give(p, k, now))
  {
    assert SameProgress(s.pieces[k.piece], s.pieces[k.piece].MarkRequested(k.offset, p));
  }

  lemma DroppedSteady(s: Sched, p: Peer, k: BlockKey)
    ensures Steady(s, s.Unclaim(p, k)) && Steady(s, s.Dropped(p, k)) && Steady(s, s.Orphaned(p, k))
  {
    UnclaimSteady(s, p, k);
    UnclaimSteady(s.Lost(p, k), p, k);
  }

  lemma UnclaimSteady(s: Sched, p: Peer, k: BlockKey)
    ensures Steady(s, s.Unclaim(p, k))
  {
    if k.piece < |s.pieces| {
      assert SameProgress(s.pieces[k.piece], s.pieces[k.piece].MarkOrphaned(k.offset, p));
    }
  }

  lemma {:induction false} DroppedAllSteady(s: Sched, p: Peer, keys: seq<BlockKey>)
    ensures Steady(s, s.DroppedAll(p, keys))
  {
    if keys != [] {
      var t := s.DroppedAll(p, keys[..|keys| - 1]);
      DroppedAllSteady(s, p, keys[..|keys| - 1]);
      DroppedSteady(t, p, keys[|keys| - 1]);
      SteadyTrans(s, t, s.DroppedAll(p, keys));
    }
  }

  /** Planning, losing requests and peers coming or going cannot touch what has been received,
      verified or stored. */
  lemma SteadyKeepsInv(c: Context, e: Engine, t: Sched)
    requires Inv(c, e) && t.Inv() && Steady(e.sched, t) && t.Drift() == e.sched.Drift()
    ensures Inv(c, e.(sched := t))
  {
    SteadyHeld(e.sched, t);
    assert forall i :: 0 <= i < |t.pieces| ==> SameProgress(e.sched.pieces[i], t.pieces[i]);
    SteadyTasks(c, e, t);
  }

  lemma SteadyTasks(c: Context, e: Engine, t: Sched)
    requires Inv(c, e) && Steady(e.sched, t) && Geometry(c, e.(sched := t))
    ensures forall i: nat :: i in e.tasks ==> TaskOk(c, e.(sched := t), i)
  {
    forall i: nat | i in e.tasks
      ensures TaskOk(c, e.(sched := t), i)
    {
      assert TaskOk(c, e, i);
      assert SameProgress(e.sched.pieces[i], t.pieces[i]);
    }
  }

  lemma LossLedgers(s: Sched, ev: Event)
    requires s.Inv() && (ev.Lose? || (ev.Leave? && ListsSlot(s, ev.peer, ev.keys)))
    ensures var t := if ev.Lose? then s.Orphaned(ev.peer, ev.key) else s.PeerGone(ev.peer, ev.keys);
            t.Inv() && Steady(s, t) && t.Drift() == s.Drift()
  {
    if ev.Lose? {
      OrphanKeepsInv(s, ev.peer, ev.key);
      DroppedSteady(s, ev.peer, ev.key);
    } else {
      PeerGoneKeepsInv(s, ev.peer, ev.keys);
      DroppedAllSteady(s.Touch(ev.peer), ev.peer, ev.keys);
    }
  }

  lemma {:induction false} OrphanAllLedgers(s: Sched, pairs: seq<(Peer, BlockKey)>)
    requires s.Inv()
    ensures s.OrphanedAll(pairs).Inv() && Steady(s, s.OrphanedAll(pairs))
    ensures s.OrphanedAll(pairs).Drift() == s.Drift()
  {
    if pairs != [] {
      var rest, last := pairs[..|pairs| - 1], pairs[|pairs| - 1];
      OrphanAllLedgers(s, rest);
      LossLedgers(s.OrphanedAll(rest), Lose(last.0, last.1));
      SteadyTrans(s, s.OrphanedAll(rest), s.OrphanedAll(pairs));
    }
  }

  lemma GiveLedgers(c: Config, s: Sched, v: PeerInfo, k: BlockKey, sentAt: real, seenAt: real)
    requires s.Inv() && MayGive(c, s, v, k, seenAt)
    ensures s.Give(v.key, k, sentAt).Inv() && Steady(s, s.Give(v.key, k, sentAt))
    ensures s.Give(v.key, k, sentAt).Drift() == s.Drift()
  {
    GiveKeepsInv(s, v.key, k, sentAt);
    GiveSteady(s, v.key, k, sentAt);
  }

  /** Moving requests about keeps the ledgers linked, what has arrived, and the drift of the cache. */
  lemma RequestLedgers(c: Config, s: Sched, ev: Event)
    requires s.Inv() && RequestEnabled(c, s, ev)
    ensures Requests(c, s, ev).Inv() && Steady(s, Requests(c, s, ev))
    ensures Requests(c, s, ev).Drift() == s.Drift()
  {
    match ev {
      case Assign(v, k, sentAt, seenAt) => GiveLedgers(c, s, v, k, sentAt, seenAt);
      case Lose(_, _) => LossLedgers(s, ev);
      case Leave(_, _) => LossLedgers(s, ev);
      case _ => BookLedgers(c, s, ev);
    }
  }

  lemma BookLedgers(c: Config, s: Sched, ev: Event)
    requires s.Inv() && (ev.Join? || ev.Notice? || ev.Count? || ev.Prune?)
    ensures Requests(c, s, ev).Inv() && Steady(s, Requests(c, s, ev))
    ensures Requests(c, s, ev).Drift() == s.Drift()
  {
    match ev {
      case Join(p) => RegisterKeepsInv(s, p);
      case Notice(p) => RegisterKeepsInv(s, p);
      case Count => CountedKeepsInv(s);
      case Prune => PruneKeepsInv(s);
    }
  }

  lemma RequestStepKeepsInv(c: Context, e: Engine, ev: Event)
    requires Inv(c, e) && RequestEnabled(c.config, e.sched, ev)
    ensures Inv(c, e.(sched := Requests(c.config, e.sched, ev)))
  {
    RequestLedgers(c.config, e.sched, ev);
    SteadyKeepsInv(c, e, Requests(c.config, e.sched, ev));
  }

  lemma CountedKeepsInv(s: Sched)
    requires s.Inv()
    ensures s.Counted().Inv() && s.Counted().Drift() == s.Drift()
  {
    var t := s.Counted();
    SameCount(s, t);
    assert forall p, k :: t.InSlot(p, k) <==> s.InSlot(p, k);
    assert forall p, k :: t.Fetching(p, k) <==> s.Fetching(p, k);
    assert forall p, k :: s.InSlot(p, k) ==> s.WasAsked(p, k) && s.Claimed(p, k) && t.WasAsked(p, k) && t.Claimed(p, k);
  }

  // -------------------------------------------------------------------- arrivals

  /** A late copy of a stored block only clears its own history. */
  lemma LateCopyKeepsInv(c: Context, e: Engine, p: Peer, k: BlockKey)
    requires Inv(c, e) && k.piece < |e.sched.pieces| && e.sched.pieces[k.piece].Closed()
    ensures Inv(c, e.(sched := e.sched.Received(p, k)))
  {
    var t := e.sched.Received(p, k);
    ReceivedLinks(e.sched, p, k);
    SameCount(e.sched, t);
    SteadyKeepsInv(c, e, t);
  }

  /** Moving a whole piece to VERIFYING changes no count. */
  lemma VerifyingOk(s: Sched, i: nat)
    requires s.Inv() && i < |s.pieces| && s.pieces[i].Complete() && s.pieces[i].phase == Downloaded
    ensures s.SetPiece(i, s.pieces[i].(phase := Verifying)).Inv()
    ensures s.SetPiece(i, s.pieces[i].(phase := Verifying)).Drift() == s.Drift()
    ensures Held(s.SetPiece(i, s.pieces[i].(phase := Verifying))) == Held(s)
  {
    var p, q := s.pieces[i], s.pieces[i].(phase := Verifying);
    assert q.CountWeights(BlockMissing) == p.CountWeights(BlockMissing);
    assert q.ByteWeights() == p.ByteWeights();
    ClosedIsQuiet(s, i);
    SetPieceOk(s, i, q);
    SetPieceHeld(s, i, q);
    SetPieceLinks(s, i, q);
  }

  /** The part of `Inv` about everything but the ledgers, for a change to one piece's progress. */
  lemma OnePieceChanged(c: Context, e: Engine, f: Engine, i: nat)
    requires Inv(c, e) && f.sched.Inv() && i < |e.sched.pieces| == |f.sched.pieces|
    requires forall j :: 0 <= j < |e.sched.pieces| && j != i ==> f.sched.pieces[j] == e.sched.pieces[j]
    requires f.sched.pieces[i].size == e.sched.pieces[i].size
    requires f.disk == e.disk && f.verified == e.verified && f.completed == e.completed
    requires e.sched.pieces[i].phase != Verified && f.sched.pieces[i].phase !in {Verified, Downloaded}
    requires forall j: nat :: j in f.tasks && j != i ==> j in e.tasks && f.tasks[j] == e.tasks[j]
    requires Geometry(c, f) ==> (i in f.tasks ==> TaskOk(c, f, i))
    ensures Geometry(c, f) && Books(c, f) && TasksOk(c, f)
    ensures c.verifyFirst ==> Intact(c, f)
  {
    forall j: nat | j in f.tasks && j != i
      ensures TaskOk(c, f, j)
    {
      assert TaskOk(c, e, j);
    }
  }

  /** Accepting a block adds its bytes to what the pieces hold. */
  lemma AcceptedHeld(s: Sched, p: Peer, k: BlockKey, data: seq<byte>)
    requires s.Inv() && k.piece < |s.pieces| && !s.pieces[k.piece].Closed()
    requires s.pieces[k.piece].Accepts(k.offset, data)
    ensures
      var t := s.SetPiece(k.piece, s.pieces[k.piece].Store(k.offset, data, p)).Received(p, k);
      t.PiecesOk() && Held(t) == Held(s) + |data|
  {
    var piece := s.pieces[k.piece];
    var q := piece.Store(k.offset, data, p);
    StoreKeeps(piece, k.offset, data, p);
    StoreCounts(piece, k.offset, data, p);
    SetPieceHeld(s, k.piece, q);
    SamePiecesHeld(s.SetPiece(k.piece, q), s.SetPiece(k.piece, q).Received(p, k));
  }

  lemma SamePiecesHeld(s: Sched, t: Sched)
    requires s.PiecesOk() && t.pieces == s.pieces
    ensures t.PiecesOk() && Held(t) == Held(s)
  {
    assert HeldWeights(t) == HeldWeights(s);
  }

  lemma SubmitKeepsLedgers(f: Engine, i: nat)
    requires f.sched.Inv() && i < |f.sched.pieces|
    requires (f.sched.pieces[i].Complete() ==> f.sched.pieces[i].phase == Downloaded)
    ensures Submit(f, i).sched.Inv()
    ensures Submit(f, i).sched.Drift() == f.sched.Drift() && Held(Submit(f, i).sched) == Held(f.sched)
  {
    if f.sched.pieces[i].Complete() {
      VerifyingOk(f.sched, i);
    }
  }

  lemma AcceptedBalances(c: Context, e: Engine, p: Peer, k: BlockKey, data: seq<byte>)
    requires Inv(c, e) && k.piece < |e.sched.pieces| && !e.sched.pieces[k.piece].Closed()
    requires e.sched.pieces[k.piece].Accepts(k.offset, data)
    ensures
      var f := AcceptBlock(Log(e, data), p, k, data);
      f.sched.Inv() && Conserved(f) && CacheAudited(f)
  {
    AcceptKeepsInv(e.sched, p, k, data);
    AcceptedHeld(e.sched, p, k, data);
  }

  lemma AcceptedKeepsInv(c: Context, e: Engine, p: Peer, k: BlockKey, data: seq<byte>)
    requires Inv(c, e) && k.piece < |e.sched.pieces| && !e.sched.pieces[k.piece].Closed()
    requires e.sched.pieces[k.piece].Accepts(k.offset, data)
    ensures Inv(c, Submit(AcceptBlock(Log(e, data), p, k, data), k.piece))
  {
    var g := Submit(AcceptBlock(Log(e, data), p, k, data), k.piece);
    AcceptedLedgers(c, e, p, k, data);
    SubmittedPiece(c, e, p, k, data);
    NothingElseSubmitted(e, p, k, data);
    InvAfterSubmission(c, e, g, k.piece);
  }

  lemma InvAfterSubmission(c: Context, e: Engine, g: Engine, i: nat)
    requires Inv(c, e) && g.sched.Inv() && Conserved(g) && CacheAudited(g) && OnlyPiece(e, g, i)
    requires e.sched.pieces[i].phase != Verified && g.sched.pieces[i].size == e.sched.pieces[i].size
    requires g.sched.pieces[i].phase !in {Verified, Downloaded}
    requires i in g.tasks ==>
              g.tasks[i] == Scheduled && g.sched.pieces[i].phase == Verifying && g.sched.pieces[i].buffer.Some?
    ensures Inv(c, g)
  {
    OnePieceChanged(c, e, g, i);
  }

  /** Nothing but piece `i`, its task and the counters changed. */
  ghost predicate OnlyPiece(e: Engine, g: Engine, i: nat) {
    && i < |e.sched.pieces| == |g.sched.pieces|
    && (forall j :: 0 <= j < |e.sched.pieces| && j != i ==> g.sched.pieces[j] == e.sched.pieces[j])
    && g.disk == e.disk && g.verified == e.verified && g.completed == e.completed
    && forall j: nat :: j in g.tasks && j != i ==> j in e.tasks && g.tasks[j] == e.tasks[j]
  }

  lemma NothingElseSubmitted(e: Engine, p: Peer, k: BlockKey, data: seq<byte>)
    requires e.sched.PiecesOk() && k.piece < |e.sched.pieces| && e.sched.pieces[k.piece].Accepts(k.offset, data)
    ensures OnlyPiece(e, Submit(AcceptBlock(Log(e, data), p, k, data), k.piece), k.piece)
  {
  }

  lemma AcceptedLedgers(c: Context, e: Engine, p: Peer, k: BlockKey, data: seq<byte>)
    requires Inv(c, e) && k.piece < |e.sched.pieces| && !e.sched.pieces[k.piece].Closed()
    requires e.sched.pieces[k.piece].Accepts(k.offset, data)
    ensures
      var f := Submit(AcceptBlock(Log(e, data), p, k, data), k.piece);
      f.sched.Inv() && Conserved(f) && CacheAudited(f)
  {
    AcceptedBalances(c, e, p, k, data);
    StoreKeeps(e.sched.pieces[k.piece], k.offset, data, p);
    SubmitKeepsLedgers(AcceptBlock(Log(e, data), p, k, data), k.piece);
  }

  /** A piece reaches verification only with all its bytes in its buffer. */
  lemma SubmittedPiece(c: Context, e: Engine, p: Peer, k: BlockKey, data: seq<byte>)
    requires Inv(c, e) && k.piece < |e.sched.pieces| && !e.sched.pieces[k.piece].Closed()
    requires e.sched.pieces[k.piece].Accepts(k.offset, data)
    ensures
      var g := Submit(AcceptBlock(Log(e, data), p, k, data), k.piece);
      && |g.sched.pieces| == |e.sched.pieces|
      && g.sched.pieces[k.piece].size == e.sched.pieces[k.piece].size
      && g.sched.pieces[k.piece].phase !in {Verified, Downloaded}
      && (k.piece in g.tasks ==> g.tasks[k.piece] == Scheduled && g.sched.pieces[k.piece].phase == Verifying
                                 && g.sched.pieces[k.piece].buffer.Some?)
  {
    StoreKeeps(e.sched.pieces[k.piece], k.offset, data, p);
    AcceptedPiece(c, e, p, k, data);
    assert k.piece in e.tasks ==> TaskOk(c, e, k.piece);
  }

  lemma AcceptedPiece(c: Context, e: Engine, p: Peer, k: BlockKey, data: seq<byte>)
    requires Inv(c, e) && k.piece < |e.sched.pieces| && e.sched.pieces[k.piece].Accepts(k.offset, data)
    ensures
      var f := AcceptBlock(Log(e, data), p, k, data);
      && |f.sched.pieces| == |e.sched.pieces| && f.tasks == e.tasks
      && f.sched.pieces[k.piece] == e.sched.pieces[k.piece].Store(k.offset, data, p)
  {
  }

  lemma LateArrival(c: Context, e: Engine, p: Peer, k: BlockKey, data: seq<byte>)
    requires Inv(c, e) && k.piece < |e.sched.pieces| && e.sched.pieces[k.piece].Closed()
    ensures OnBlock(e, p, k.piece, k.offset, data) ==
            if e.sched.WasAsked(p, k) then CountDuplicate(Log(e.(sched := e.sched.Received(p, k)), data), data)
            else CountUnsolicited(Log(e, data), data)
  {
    assert e.sched.pieces[k.piece].phase != Downloaded;
    LateHandled(Log(e, data), p, k, data);
  }

  lemma LateHandled(e: Engine, p: Peer, k: BlockKey, data: seq<byte>)
    requires e.sched.PiecesOk() && k.piece < |e.sched.pieces|
    requires e.sched.pieces[k.piece].Closed() && e.sched.pieces[k.piece].phase != Downloaded
    ensures Handled(e, p, k.piece, k.offset, data) ==
            if e.sched.WasAsked(p, k) then CountDuplicate(e.(sched := e.sched.Received(p, k)), data)
            else CountUnsolicited(e, data)
  {
    assert BlockKey(k.piece, k.offset) == k;
  }

  lemma LateArrivalKeepsInv(c: Context, e: Engine, p: Peer, k: BlockKey, data: seq<byte>)
    requires Inv(c, e) && k.piece < |e.sched.pieces| && e.sched.pieces[k.piece].Closed()
    ensures Inv(c, OnBlock(e, p, k.piece, k.offset, data))
  {
    LateArrival(c, e, p, k, data);
    if e.sched.WasAsked(p, k) {
      LateCopyKeepsInv(c, e, p, k);
      CountedArrival(c, e.(sched := e.sched.Received(p, k)), data);
    } else {
      CountedArrival(c, e, data);
    }
  }

  lemma ArriveKeepsInv(c: Context, e: Engine, p: Peer, index: nat, begin: nat, data: seq<byte>)
    requires Inv(c, e)
    ensures Inv(c, OnBlock(e, p, index, begin, data))
  {
    if index < |e.sched.pieces| && e.sched.pieces[index].Closed() {
      LateArrivalKeepsInv(c, e, p, BlockKey(index, begin), data);
    } else if index < |e.sched.pieces| && e.sched.pieces[index].Accepts(begin, data) {
      WantedArrival(c, e, p, index, begin, data);
      AcceptedKeepsInv(c, e, p, BlockKey(index, begin), data);
    } else {
      UnwantedArrival(c, e, p, index, begin, data);
      CountedArrival(c, e, data);
    }
  }

  lemma WantedArrival(c: Context, e: Engine, p: Peer, index: nat, begin: nat, data: seq<byte>)
    requires Inv(c, e) && index < |e.sched.pieces| && !e.sched.pieces[index].Closed()
    requires e.sched.pieces[index].Accepts(begin, data)
    ensures OnBlock(e, p, index, begin, data) ==
            Submit(AcceptBlock(Log(e, data), p, BlockKey(index, begin), data), index)
  {
  }

  lemma UnwantedArrival(c: Context, e: Engine, p: Peer, index: nat, begin: nat, data: seq<byte>)
    requires Inv(c, e)
    requires index < |e.sched.pieces| ==> !e.sched.pieces[index].Closed() && !e.sched.pieces[index].Accepts(begin, data)
    ensures OnBlock(e, p, index, begin, data) ==
            if index < |e.sched.pieces| then CountDuplicate(Log(e, data), data)
            else CountUnsolicited(Log(e, data), data)
  {
  }

  /** Counting a message as waste balances the books. */
  lemma CountedArrival(c: Context, e: Engine, data: seq<byte>)
    requires Inv(c, e)
    ensures Inv(c, CountDuplicate(Log(e, data), data))
    ensures Inv(c, CountUnsolicited(Log(e, data), data))
  {
    var f, g := CountDuplicate(Log(e, data), data), CountUnsolicited(Log(e, data), data);
    forall i: nat | i in e.tasks
      ensures TaskOk(c, f, i) && TaskOk(c, g, i)
    {
      assert TaskOk(c, e, i);
    }
  }

  // ---------------------------------------------------------------- verification

  /** The branch of `_verify_piece` for a piece without data is dead code. */
  lemma DataIsReady(c: Context, e: Engine, i: nat)
    requires Inv(c, e) && i in e.tasks && e.tasks[i].Scheduled?
    ensures i < |e.sched.pieces| && e.sched.pieces[i].Data().Some?
    ensures |e.sched.pieces[i].Data().value| == c.torrent.PieceSize(i)
  {
    assert TaskOk(c, e, i);
  }

  /** Moving one task along, when the stream changes at most inside that piece. */
  lemma TaskMoved(c: Context, e: Engine, f: Engine, i: nat)
    requires Inv(c, e) && i in e.tasks
    requires f == e.(tasks := f.tasks, disk := f.disk) && |f.disk| == |e.disk|
    requires f.tasks.Keys == e.tasks.Keys && forall j :: j in e.tasks && j != i ==> f.tasks[j] == e.tasks[j]
    requires forall j: nat :: j < |c.torrent.hashes| && j != i ==> OnDisk(c, f.disk, j) == OnDisk(c, e.disk, j)
    requires TaskOk(c, f, i)
    ensures Inv(c, f)
  {
    assert TaskOk(c, e, i);
    assert i !in e.verified;
    forall j: nat | j in f.tasks && j != i
      ensures TaskOk(c, f, j)
    {
      assert TaskOk(c, e, j);
    }
  }

  lemma StartKeepsInv(c: Context, e: Engine, i: nat)
    requires Inv(c, e) && i in e.tasks && e.tasks[i].Scheduled?
    ensures i < |e.sched.pieces| && Inv(c, Started(e, i))
  {
    DataIsReady(c, e, i);
    assert TaskOk(c, e, i);
    TaskMoved(c, e, Started(e, i), i);
  }

  lemma HashOkKeepsInv(c: Context, e: Engine, i: nat)
    requires Inv(c, e) && i in e.tasks && e.tasks[i].Hashing?
    requires c.verifyFirst ==> i < |c.torrent.hashes| && c.hash(e.tasks[i].data) == c.torrent.hashes[i]
    ensures Inv(c, e.(tasks := e.tasks[i := Writing(e.tasks[i].data, 0)]))
  {
    var f := e.(tasks := e.tasks[i := Writing(e.tasks[i].data, 0)]);
    assert TaskOk(c, e, i);
    assert OnDisk(c, f.disk, i)[..0] == f.tasks[i].data[..0];
    TaskMoved(c, e, f, i);
  }

  /** Resetting a piece whose verification failed keeps the ledgers linked and empties the cache. */
  lemma ResetLedgers(s: Sched, i: nat)
    requires s.Inv() && i < |s.pieces| && s.pieces[i].Closed() && s.pieces[i].Complete()
    ensures s.SetPiece(i, s.pieces[i].MarkFailed().Reset()).PieceReset(i).Inv()
    ensures s.SetPiece(i, s.pieces[i].MarkFailed().Reset()).PieceReset(i).Drift() == 0
    ensures Held(s.SetPiece(i, s.pieces[i].MarkFailed().Reset()).PieceReset(i)) == Held(s) - s.pieces[i].size
  {
    var p := s.pieces[i];
    var q := p.MarkFailed().Reset();
    ResetKeeps(p.MarkFailed());
    CompleteBytes(p);
    ClosedIsQuiet(s, i);
    SetPieceOk(s, i, q);
    SetPieceHeld(s, i, q);
    SetPieceLinks(s, i, q);
    var t := s.SetPiece(i, q);
    SamePiecesHeld(t, t.PieceReset(i));
    ForgetPieceLinks(t, i);
  }

  lemma ForgetPieceLinks(t: Sched, i: nat)
    requires t.Linked() && forall q, k :: t.InSlot(q, k) ==> k.piece != i
    ensures t.PieceReset(i).Linked()
  {
    var u := t.PieceReset(i);
    assert forall q, k :: u.InSlot(q, k) <==> t.InSlot(q, k);
    assert forall q, k :: u.Fetching(q, k) <==> t.Fetching(q, k);
    forall q, k | u.InSlot(q, k)
      ensures q in u.peers && u.WasAsked(q, k) && u.Claimed(q, k)
    {
      assert t.InSlot(q, k) && t.WasAsked(q, k) && t.Claimed(q, k);
    }
  }

  lemma HashFailedKeepsInv(c: Context, e: Engine, i: nat)
    requires Inv(c, e) && i in e.tasks
    ensures i < |e.sched.pieces| && Inv(c, HashFailed(e, i))
  {
    assert TaskOk(c, e, i);
    ResetLedgers(e.sched, i);
    OnePieceChanged(c, e, HashFailed(e, i), i);
  }

  /** A partial write of one piece leaves the range of every other piece alone. */
  lemma WriteIsLocal(c: Context, disk: seq<byte>, i: nat, at: nat, chunk: seq<byte>, j: nat)
    requires c.torrent.Valid() && |disk| == c.torrent.total && i < |c.torrent.hashes| && j < |c.torrent.hashes|
    requires i != j
    requires at + |chunk| <= c.torrent.PieceSize(i)
    requires c.torrent.PieceOffset(i) + at + |chunk| <= |disk|
    ensures OnDisk(c, Overwrite(disk, c.torrent.PieceOffset(i) + at, chunk), j) == OnDisk(c, disk, j)
  {
    PieceInside(c.torrent, j);
    if i < j {
      PiecesDisjoint(c.torrent, i, j);
    } else {
      PiecesDisjoint(c.torrent, j, i);
    }
  }

  lemma WriteExtends(c: Context, disk: seq<byte>, i: nat, data: seq<byte>, done: nat, n: nat)
    requires c.torrent.Valid() && |disk| == c.torrent.total && i < |c.torrent.hashes|
    requires |data| == c.torrent.PieceSize(i) && done + n <= |data|
    requires OnDisk(c, disk, i)[..done] == data[..done]
    ensures c.torrent.PieceOffset(i) + |data| <= |disk|
    ensures OnDisk(c, Overwrite(disk, c.torrent.PieceOffset(i) + done, data[done..done + n]), i)[..done + n] ==
            data[..done + n]
  {
    PieceInside(c.torrent, i);
    var disk' := Overwrite(disk, c.torrent.PieceOffset(i) + done, data[done..done + n]);
    var old_, new_ := OnDisk(c, disk, i), OnDisk(c, disk', i);
    forall x | 0 <= x < done + n
      ensures new_[x] == data[x]
    {
      if x < done {
        assert old_[..done][x] == data[..done][x];
      }
    }
  }

  ghost predicate CanWrite(c: Context, e: Engine, i: nat, n: nat) {
    && Inv(c, e) && i in e.tasks && e.tasks[i].Writing? && e.tasks[i].done + n <= |e.tasks[i].data|
  }

  lemma WroteDisk(c: Context, e: Engine, i: nat, n: nat, at: nat, piece: seq<byte>)
    requires i < |c.torrent.hashes| && i in e.tasks && e.tasks[i].Writing? && e.tasks[i].done + n <= |e.tasks[i].data|
    requires c.torrent.PieceOffset(i) + |e.tasks[i].data| <= |e.disk|
    requires at == c.torrent.PieceOffset(i) + e.tasks[i].done
    requires piece == e.tasks[i].data[e.tasks[i].done..e.tasks[i].done + n]
    ensures Wrote(c, e, i, n).disk == Overwrite(e.disk, at, piece)
  {
  }

  lemma WriteFits(c: Context, e: Engine, i: nat, n: nat)
    requires CanWrite(c, e, i, n)
    ensures i < |c.torrent.hashes| && |e.tasks[i].data| == c.torrent.PieceSize(i)
    ensures c.torrent.PieceOffset(i) + |e.tasks[i].data| <= |e.disk|
    ensures OnDisk(c, e.disk, i)[..e.tasks[i].done] == e.tasks[i].data[..e.tasks[i].done]
  {
    assert TaskOk(c, e, i);
    PieceInside(c.torrent, i);
  }

  lemma WrittenTaskOk(c: Context, e: Engine, i: nat, n: nat)
    requires CanWrite(c, e, i, n)
    requires i < |c.torrent.hashes| && c.torrent.PieceOffset(i) + |e.tasks[i].data| <= |e.disk|
    ensures Geometry(c, Wrote(c, e, i, n)) && TaskOk(c, Wrote(c, e, i, n), i)
  {
    WrittenPart(c, e, i, n);
    assert TaskOk(c, e, i);
  }

  lemma WrittenPart(c: Context, e: Engine, i: nat, n: nat)
    requires CanWrite(c, e, i, n)
    requires i < |c.torrent.hashes| && c.torrent.PieceOffset(i) + |e.tasks[i].data| <= |e.disk|
    ensures var t, disk := e.tasks[i], Wrote(c, e, i, n).disk;
            |t.data| == c.torrent.PieceSize(i) && OnDisk(c, disk, i)[..t.done + n] == t.data[..t.done + n]
  {
    WriteFits(c, e, i, n);
    WriteExtends(c, e.disk, i, e.tasks[i].data, e.tasks[i].done, n);
  }

  lemma WriteSomeKeepsInv(c: Context, e: Engine, i: nat, n: nat)
    requires CanWrite(c, e, i, n)
    ensures i < |c.torrent.hashes| && c.torrent.PieceOffset(i) + |e.tasks[i].data| <= |e.disk|
    ensures Inv(c, Wrote(c, e, i, n))
  {
    WriteFits(c, e, i, n);
    WrittenTaskOk(c, e, i, n);
    WriteSparesOthers(c, e, i, n);
    TaskMoved(c, e, Wrote(c, e, i, n), i);
  }

  lemma WriteSparesOthers(c: Context, e: Engine, i: nat, n: nat)
    requires CanWrite(c, e, i, n) && i < |c.torrent.hashes| && c.torrent.PieceOffset(i) + |e.tasks[i].data| <= |e.disk|
    ensures Geometry(c, Wrote(c, e, i, n))
    ensures forall j: nat :: j < |c.torrent.hashes| && j != i ==>
              OnDisk(c, Wrote(c, e, i, n).disk, j) == OnDisk(c, e.disk, j)
  {
    var t := e.tasks[i];
    WriteFits(c, e, i, n);
    forall j: nat | j < |c.torrent.hashes| && j != i
      ensures OnDisk(c, Wrote(c, e, i, n).disk, j) == OnDisk(c, e.disk, j)
    {
      WriteIsLocal(c, e.disk, i, t.done, t.data[t.done..t.done + n], j);
    }
  }

  lemma VerifiedLedgers(s: Sched, i: nat, p: PieceView)
    requires s.Inv() && i < |s.pieces| && s.pieces[i].phase == Verifying
    requires p == s.pieces[i].(phase := p.phase, buffer := None) && p.phase in {Verifying, Verified}
    ensures s.SetPiece(i, p).Inv()
    ensures s.SetPiece(i, p).Drift() == s.Drift()
    ensures Held(s.SetPiece(i, p)) == Held(s)
  {
    var before := s.pieces[i];
    NoneInState(before, BlockMissing);
    NoneInState(p, BlockMissing);
    assert p.ByteWeights() == before.ByteWeights();
    ClosedIsQuiet(s, i);
    SetPieceOk(s, i, p);
    SetPieceHeld(s, i, p);
    SetPieceLinks(s, i, p);
  }

  /** When the last byte is written, the range of the piece is its data. */
  lemma WrittenRange(c: Context, e: Engine, i: nat)
    requires CanWrite(c, e, i, 0) && e.tasks[i].done == |e.tasks[i].data|
    ensures i < |e.sched.pieces| && e.sched.pieces[i].phase == Verifying
    ensures OnDisk(c, e.disk, i) == e.tasks[i].data
    ensures c.verifyFirst ==> c.hash(OnDisk(c, e.disk, i)) == c.torrent.hashes[i]
  {
    assert TaskOk(c, e, i);
    assert OnDisk(c, e.disk, i)[..e.tasks[i].done] == OnDisk(c, e.disk, i);
    assert e.tasks[i].data[..e.tasks[i].done] == e.tasks[i].data;
  }

  lemma StoredTasks(c: Context, e: Engine, i: nat)
    requires Inv(c, e) && i < |e.sched.pieces| && e.sched.pieces[i].phase == Verifying
    ensures Geometry(c, Stored(e, i)) && Books(c, Stored(e, i)) && TasksOk(c, Stored(e, i))
  {
    OtherTasks(c, e, i);
  }

  lemma OtherTasks(c: Context, e: Engine, i: nat)
    requires Inv(c, e) && i < |e.sched.pieces| && e.sched.pieces[i].phase == Verifying
    requires Geometry(c, Stored(e, i))
    ensures TasksOk(c, Stored(e, i))
  {
    forall j: nat | j in Stored(e, i).tasks
      ensures TaskOk(c, Stored(e, i), j)
    {
      assert TaskOk(c, e, j);
    }
  }

  lemma StoredKeepsInv(c: Context, e: Engine, i: nat)
    requires CanWrite(c, e, i, 0) && e.tasks[i].done == |e.tasks[i].data|
    ensures i < |e.sched.pieces| && Inv(c, Stored(e, i))
  {
    WrittenRange(c, e, i);
    StoredTasks(c, e, i);
    VerifiedLedgers(e.sched, i, e.sched.pieces[i].MarkVerified());
  }

  lemma FaultKeepsInv(c: Context, e: Engine, i: nat)
    requires Inv(c, e) && i in e.tasks && !e.tasks[i].Scheduled?
    ensures i < |e.sched.pieces| && Inv(c, Faulted(e, i))
  {
    assert TaskOk(c, e, i);
    VerifiedLedgers(e.sched, i, e.sched.pieces[i].(buffer := None));
    OnePieceChanged(c, e, Faulted(e, i), i);
  }

  // --------------------------------------------------------------------- all steps

  /** The whole-state invariant is inductive. */
  lemma StepKeepsInv(c: Context, e: Engine, ev: Event)
    requires Inv(c, e) && Enabled(c, e, ev)
    ensures Inv(c, Step(c, e, ev))
  {
    match ev {
      case Arrive(p, index, begin, data) => ArriveKeepsInv(c, e, p, index, begin, data);
      case StartVerify(i) => StartKeepsInv(c, e, i);
      case HashDone(i) =>
        assert TaskOk(c, e, i);
        if c.verifyFirst && c.hash(e.tasks[i].data) != c.torrent.hashes[i] {
          HashFailedKeepsInv(c, e, i);
        } else {
          HashOkKeepsInv(c, e, i);
        }
      case WriteSome(i, n) => WriteSomeKeepsInv(c, e, i, n);
      case WriteDone(i) => StoredKeepsInv(c, e, i);
      case Fault(i) => FaultKeepsInv(c, e, i);
      case _ => RequestStepKeepsInv(c, e, ev);
    }
  }
}
