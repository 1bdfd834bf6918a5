/** What holds after any run of the download, whatever the peers, the clock, the disk and the
    scheduler's interleaving do. */
module Theorems {
  import opened Basics
  import opened Blocks
  import opened Pieces
  import opened SchedulerSpec
  import opened Torrents
  import opened EngineSpec
  import opened EngineProofs
  import opened SoloProofs

  // ------------------------------------------------------------------------ runs

  /** A download before its first step: resumed pieces are VERIFIED and, when pieces are verified
      before they are written, really on disk; nothing is in flight. */
  ghost predicate Start(c: Context, e: Engine) {
    && Geometry(c, e)
    && (forall i :: 0 <= i < |e.sched.pieces| ==> Untouched(e.sched.pieces[i], i))
    && e.sched.slots == map[] && e.sched.asked == map[] && e.sched.peers == {}
    && e.sched.unclaimed.None? && e.sched.endgame == map[] && e.sched.races == 0
    && Books(c, e) && e.tasks == map[] && e.penalties == map[]
    && (c.verifyFirst ==> Intact(c, e))
    && e.stats == Stats(0, 0, 0, 0, 0, 0, 0)
    && e.messages == 0 && e.payload == 0 && e.surplus == 0
  }

  ghost predicate Untouched(p: PieceView, i: nat) {
    && p.Valid() && p.index == i && p.buffer.None? && p.sources == []
    && forall o :: o in p.states ==> p.states[o] == BlockMissing
  }

  lemma StartInv(c: Context, e: Engine)
    requires Start(c, e)
    ensures Inv(c, e) && Agreed(e.sched)
  {
    assert forall i :: 0 <= i < |e.sched.pieces| ==> Untouched(e.sched.pieces[i], i);
    forall i | 0 <= i < |e.sched.pieces|
      ensures HeldWeights(e.sched)[i] == 0
    {
      NoneInState(e.sched.pieces[i], BlockReceived);
    }
    SumOfZeros(HeldWeights(e.sched));
    forall k | e.sched.Known(k)
      ensures e.sched.pieces[k.piece].requesters[k.offset] == {}
    {
      assert Untouched(e.sched.pieces[k.piece], k.piece);
      assert e.sched.pieces[k.piece].Claims();
    }
  }

  /** One turn of the world: the step happens if it can. */
  ghost function Next(c: Context, e: Engine, ev: Event): (f: Engine)
    requires Inv(c, e)
    ensures Inv(c, f)
  {
    if Enabled(c, e, ev) then StepKeepsInv(c, e, ev); Step(c, e, ev) else e
  }

  ghost function After(c: Context, e: Engine, evs: seq<Event>): (f: Engine)
    requires Inv(c, e)
    ensures Inv(c, f)
    decreases |evs|
  {
    if evs == [] then e else After(c, Next(c, e, evs[0]), evs[1..])
  }

  ghost predicate Reachable(c: Context, e: Engine) {
    exists e0, evs :: Start(c, e0) && ReachedBy(c, e0, evs, e)
  }

  ghost predicate ReachedBy(c: Context, e0: Engine, evs: seq<Event>, e: Engine) {
    Inv(c, e0) && After(c, e0, evs) == e
  }

  // ------------------------------------------------------------------- integrity

  /** End-to-end integrity: with verification before writing, every piece reported as verified has
      exactly the promised bytes on disk, for every interleaving of verifications, partial writes
      and faults; and the report is exactly the set of VERIFIED pieces and of stored pieces. */
  lemma EndToEndIntegrity(c: Context, e: Engine)
    requires Reachable(c, e)
    ensures Inv(c, e)
    ensures forall i: nat :: i in e.verified <==> i < |e.sched.pieces| && e.sched.pieces[i].phase == Verified
    ensures e.completed == e.verified
    ensures c.verifyFirst ==>
              forall i: nat :: i in e.verified ==>
                i < |c.torrent.hashes| && c.hash(OnDisk(c, e.disk, i)) == c.torrent.hashes[i]
  {
    var e0, evs :| Start(c, e0) && ReachedBy(c, e0, evs, e);
    assert Inv(c, After(c, e0, evs));
  }

  lemma WriteKeepsVerified(c: Context, e: Engine, i: nat, n: nat, j: nat)
    requires CanWrite(c, e, i, n) && j in e.verified && j < |c.torrent.hashes|
    ensures i < |c.torrent.hashes| && c.torrent.PieceOffset(i) + |e.tasks[i].data| <= |e.disk|
    ensures OnDisk(c, Wrote(c, e, i, n).disk, j) == OnDisk(c, e.disk, j)
  {
    assert TaskOk(c, e, i);
    WriteFits(c, e, i, n);
    WriteIsLocal(c, e.disk, i, e.tasks[i].done, e.tasks[i].data[e.tasks[i].done..e.tasks[i].done + n], j);
  }

  lemma ArrivalKeepsDisk(e: Engine, p: Peer, index: nat, begin: nat, data: seq<byte>)
    requires e.sched.PiecesOk()
    ensures OnBlock(e, p, index, begin, data).disk == e.disk
    ensures OnBlock(e, p, index, begin, data).verified == e.verified
  {
  }

  lemma OnlyWritesTouchDisk(c: Context, e: Engine, ev: Event)
    requires Inv(c, e) && Enabled(c, e, ev)
    ensures e.verified <= Step(c, e, ev).verified
    ensures !ev.WriteSome? ==> Step(c, e, ev).disk == e.disk
    ensures ev.WriteSome? ==> CanWrite(c, e, ev.piece, ev.count)
  {
    match ev {
      case Arrive(p, index, begin, data) => ArrivalKeepsDisk(e, p, index, begin, data);
      case _ =>
    }
  }

  lemma WriteStep(c: Context, e: Engine, i: nat, n: nat)
    requires CanWrite(c, e, i, n)
    ensures i < |c.torrent.hashes| && c.torrent.PieceOffset(i) + |e.tasks[i].data| <= |e.disk|
    ensures Step(c, e, WriteSome(i, n)) == Wrote(c, e, i, n)
  {
    WriteFits(c, e, i, n);
  }

  /** A piece once verified stays verified, and its bytes on disk stay what they are. */
  lemma VerifiedIsForever(c: Context, e: Engine, ev: Event, j: nat)
    requires Inv(c, e) && Enabled(c, e, ev) && j in e.verified && j < |c.torrent.hashes|
    ensures j in Step(c, e, ev).verified
    ensures |Step(c, e, ev).disk| == |e.disk|
    ensures OnDisk(c, Step(c, e, ev).disk, j) == OnDisk(c, e.disk, j)
  {
    OnlyWritesTouchDisk(c, e, ev);
    if ev.WriteSome? {
      WriteStep(c, e, ev.piece, ev.count);
      WriteKeepsVerified(c, e, ev.piece, ev.count, j);
    }
  }

  lemma {:induction false} VerifiedOnlyGrows(c: Context, e: Engine, evs: seq<Event>, i: nat)
    requires Inv(c, e) && i in e.verified
    ensures i in After(c, e, evs).verified && i < |c.torrent.hashes|
    ensures OnDisk(c, After(c, e, evs).disk, i) == OnDisk(c, e.disk, i)
    decreases |evs|
  {
    if evs != [] {
      if Enabled(c, e, evs[0]) {
        VerifiedIsForever(c, e, evs[0], i);
      }
      VerifiedOnlyGrows(c, Next(c, e, evs[0]), evs[1..], i);
    }
  }

  // ---------------------------------------------------------------- conservation

  /** Payload bytes and number of the block messages in a run, read off the events alone. */
  ghost function PayloadOf(evs: seq<Event>): nat {
    if evs == [] then 0
    else (match evs[0] case Arrive(_, _, _, data) => |data| case _ => 0) + PayloadOf(evs[1..])
  }

  ghost function MessagesOf(evs: seq<Event>): nat {
    if evs == [] then 0
    else (if evs[0].Arrive? then 1 else 0) + MessagesOf(evs[1..])
  }

  lemma ArrivalHistory(e: Engine, p: Peer, index: nat, begin: nat, data: seq<byte>)
    requires e.sched.PiecesOk()
    ensures OnBlock(e, p, index, begin, data).payload == e.payload + |data|
    ensures OnBlock(e, p, index, begin, data).messages == e.messages + 1
  {
  }

  lemma HistoryStep(c: Context, e: Engine, ev: Event)
    requires Inv(c, e) && Enabled(c, e, ev)
    ensures Step(c, e, ev).payload == e.payload + match ev case Arrive(_, _, _, data) => |data| case _ => 0
    ensures Step(c, e, ev).messages == e.messages + if ev.Arrive? then 1 else 0
  {
    match ev {
      case Arrive(p, index, begin, data) => ArrivalHistory(e, p, index, begin, data);
      case _ =>
    }
  }

  lemma NextHistory(c: Context, e: Engine, ev: Event)
    requires Inv(c, e)
    ensures Next(c, e, ev).payload == e.payload + match ev case Arrive(_, _, _, data) => |data| case _ => 0
    ensures Next(c, e, ev).messages == e.messages + if ev.Arrive? then 1 else 0
  {
    if Enabled(c, e, ev) {
      HistoryStep(c, e, ev);
    }
  }

  lemma {:induction false} HistoryIsTrue(c: Context, e: Engine, evs: seq<Event>)
    requires Inv(c, e)
    ensures After(c, e, evs).payload == e.payload + PayloadOf(evs)
    ensures After(c, e, evs).messages == e.messages + MessagesOf(evs)
    decreases |evs|
  {
    if evs != [] {
      NextHistory(c, e, evs[0]);
      HistoryIsTrue(c, Next(c, e, evs[0]), evs[1..]);
    }
  }

  /** Byte conservation: over any run from the start, with duplicates, wrong lengths, hash failures
      and re-downloads, what the peers sent is what was wasted plus what the pieces hold, and every
      message is counted once. */
  lemma BytesConserved(c: Context, e0: Engine, evs: seq<Event>)
    requires Start(c, e0)
    ensures Inv(c, e0)
    ensures var e := After(c, e0, evs);
            && PayloadOf(evs) == e.stats.wasted + Held(e.sched)
            && MessagesOf(evs) == e.stats.received + e.stats.duplicate + e.stats.unsolicited
  {
    StartInv(c, e0);
    HistoryIsTrue(c, e0, evs);
  }

  // ----------------------------------------------------------------- the ledgers

  /** In every reachable state the pipelines and the endgame sets describe the same pairs, and each
      pair is backed by a registered peer, the asked history, a claim on a REQUESTED block and a
      piece that still takes blocks. */
  lemma LedgersAgree(c: Context, e: Engine, p: Peer, k: BlockKey)
    requires Reachable(c, e)
    ensures e.sched.InSlot(p, k) <==> e.sched.Fetching(p, k)
    ensures k in e.sched.endgame ==> e.sched.endgame[k] != {}
    ensures e.sched.InSlot(p, k) ==>
              && p in e.sched.peers && e.sched.WasAsked(p, k) && e.sched.Claimed(p, k)
              && e.sched.pieces[k.piece].states[k.offset] == BlockRequested
              && e.sched.pieces[k.piece].phase !in {Downloaded, Verifying, Verified}
  {
    EndToEndIntegrity(c, e);
    if e.sched.InSlot(p, k) {
      InFlightIsRequested(e.sched, p, k);
    }
  }

  /** The cached count never falls below a recount, exceeds it by exactly the blocks accepted while
      nobody had requested them, and so endgame never starts while more work than its threshold is
      really unclaimed. */
  lemma CacheNeverUndercounts(c: Context, e: Engine)
    requires Reachable(c, e)
    ensures e.sched.PiecesOk()
    ensures e.sched.unclaimed.Some? ==> e.sched.unclaimed.value == e.sched.TrueUnclaimed() + e.surplus
    ensures e.sched.Racing(c.config) ==> e.sched.TrueUnclaimed() <= c.config.threshold
  {
    EndToEndIntegrity(c, e);
  }

  // ----------------------------------------------------------------- endgame off

  lemma SoloStep(c: Context, e: Engine, ev: Event)
    requires Inv(c, e) && Agreed(e.sched) && !c.config.endgameEnabled
    ensures Agreed(Next(c, e, ev).sched)
  {
    if Enabled(c, e, ev) {
      match ev {
        case Arrive(p, index, begin, data) => ArriveAgreed(c, e, p, BlockKey(index, begin), data);
        case StartVerify(i) => DataIsReady(c, e, i);
        case HashDone(i) => TaskAgreed(c, e, i);
        case WriteSome(i, n) =>
        case WriteDone(i) => TaskAgreed(c, e, i);
        case Fault(i) => TaskAgreed(c, e, i);
        case _ => RequestAgreed(c.config, e.sched, ev);
      }
    }
  }

  lemma RequestAgreed(c: Config, s: Sched, ev: Event)
    requires s.Inv() && Agreed(s) && !c.endgameEnabled && RequestEnabled(c, s, ev)
    ensures Agreed(Requests(c, s, ev))
  {
    match ev {
      case Join(p) => SameClaimsAgreed(s, s.Register(p));
      case Notice(p) => SameClaimsAgreed(s, s.Touch(p));
      case Count => SameClaimsAgreed(s, s.Counted());
      case Prune => SameClaimsAgreed(s, s.Pruned());
      case Assign(v, k, sentAt, _) => GiveAgreed(s, v.key, k, sentAt);
      case Lose(p, k) => OrphanedAgreed(s, p, k);
      case Leave(p, keys) => GoneAgreed(s, p, keys);
    }
  }

  /** The pieces that verification touches remember no requester. */
  lemma TaskAgreed(c: Context, e: Engine, i: nat)
    requires Inv(c, e) && i in e.tasks && Agreed(e.sched)
    ensures i < |e.sched.pieces|
    ensures Agreed(HashFailed(e, i).sched) && Agreed(Stored(e, i).sched) && Agreed(Faulted(e, i).sched)
  {
    var s := e.sched;
    assert TaskOk(c, e, i);
    ClosedIsQuiet(s, i);
    assert forall q, k :: s.Fetching(q, k) ==> s.InSlot(q, k);
    assert s.pieces[i].Claims();
    var failed := s.pieces[i].MarkFailed().Reset();
    QuietAgreed(s, i, failed);
    QuietAgreed(s, i, s.pieces[i].MarkVerified());
    QuietAgreed(s, i, s.pieces[i].(buffer := None));
    SameClaimsAgreed(s.SetPiece(i, failed), s.SetPiece(i, failed).PieceReset(i));
  }

  lemma AcceptAgreed(s: Sched, p: Peer, k: BlockKey, data: seq<byte>)
    requires s.Inv() && Agreed(s) && k.piece < |s.pieces| && !s.pieces[k.piece].Closed()
    requires s.pieces[k.piece].Accepts(k.offset, data)
    ensures var t := s.SetPiece(k.piece, s.pieces[k.piece].Store(k.offset, data, p)).Received(p, k);
            && Agreed(t)
            && (t.pieces[k.piece].Complete() ==> Agreed(t.SetPiece(k.piece, t.pieces[k.piece].(phase := Verifying))))
  {
    var piece := s.pieces[k.piece];
    var t := s.SetPiece(k.piece, piece.Store(k.offset, data, p)).Received(p, k);
    ClearedAgreed(s, p, k, piece.Store(k.offset, data, p));
    AcceptKeepsInv(s, p, k, data);
    if t.pieces[k.piece].Complete() {
      StoreKeeps(piece, k.offset, data, p);
      QuietPieceAgreed(t, k.piece);
    }
  }

  /** A whole piece may change phase. */
  lemma QuietPieceAgreed(t: Sched, i: nat)
    requires t.Inv() && Agreed(t) && i < |t.pieces| && t.pieces[i].Closed()
    ensures Agreed(t.SetPiece(i, t.pieces[i].(phase := Verifying)))
  {
    ClosedIsQuiet(t, i);
    assert forall q, x :: t.Fetching(q, x) ==> t.InSlot(q, x);
    assert t.pieces[i].Claims();
    QuietAgreed(t, i, t.pieces[i].(phase := Verifying));
  }

  lemma ArriveAgreed(c: Context, e: Engine, p: Peer, k: BlockKey, data: seq<byte>)
    requires Inv(c, e) && Agreed(e.sched)
    ensures Agreed(OnBlock(e, p, k.piece, k.offset, data).sched)
  {
    var s, i := e.sched, k.piece;
    if i < |s.pieces| && s.pieces[i].Closed() {
      LateArrival(c, e, p, k, data);
      LateAgreed(s, p, k);
    } else if i < |s.pieces| && s.pieces[i].Accepts(k.offset, data) {
      AcceptAgreed(s, p, k, data);
    }
  }

  /** A late copy of a finished piece finds no pair to remove. */
  lemma LateAgreed(s: Sched, p: Peer, k: BlockKey)
    requires s.Inv() && Agreed(s) && k.piece < |s.pieces| && s.pieces[k.piece].Closed()
    ensures Agreed(s.Received(p, k))
  {
    ClosedIsQuiet(s, k.piece);
    assert forall q :: s.Fetching(q, k) ==> s.InSlot(q, k);
    if k in s.endgame {
      var q :| q in s.endgame[k];
      assert s.Fetching(q, k);
    }
    assert s.Received(p, k).endgame == s.endgame;
    SameClaimsAgreed(s, s.Received(p, k));
  }

  lemma {:induction false} SoloRun(c: Context, e: Engine, evs: seq<Event>)
    requires Inv(c, e) && Agreed(e.sched) && !c.config.endgameEnabled
    ensures Agreed(After(c, e, evs).sched)
    decreases |evs|
  {
    if evs != [] {
      SoloStep(c, e, evs[0]);
      SoloRun(c, Next(c, e, evs[0]), evs[1..]);
    }
  }

  /** With endgame off, in every reachable state: each block has at most one requester, REQUESTED
      means exactly that one peer holds it, the pieces remember exactly the live requests, and no
      block is stranded. */
  lemma EndgameOffLedgersExact(c: Context, e: Engine, k: BlockKey)
    requires Reachable(c, e) && !c.config.endgameEnabled && e.sched.Known(k)
    ensures e.sched.pieces[k.piece].requesters[k.offset] == e.sched.Fetchers(k)
    ensures e.sched.pieces[k.piece].states[k.offset] == BlockRequested <==> exists p :: e.sched.InSlot(p, k)
    ensures forall p, q :: e.sched.InSlot(p, k) && e.sched.InSlot(q, k) ==> p == q
    ensures !Stranded(e.sched, k)
  {
    OffMeansAgreed(c, e);
    AgreedMeansOneHolder(e.sched, k);
  }

  lemma OffMeansAgreed(c: Context, e: Engine)
    requires Reachable(c, e) && !c.config.endgameEnabled
    ensures e.sched.Inv() && Agreed(e.sched)
  {
    var e0, evs :| Start(c, e0) && ReachedBy(c, e0, evs, e);
    StartInv(c, e0);
    SoloRun(c, e0, evs);
  }

  /** A block that was being fetched and is in nobody's pipeline any more is missing again. */
  lemma FreedWhenUnheld(s: Sched, t: Sched, p: Peer, k: BlockKey)
    requires s.Inv() && s.InSlot(p, k) && t.Inv() && Agreed(t) && Steady(s, t) && forall q :: !t.InSlot(q, k)
    ensures t.Known(k) && t.pieces[k.piece].states[k.offset] == BlockMissing
  {
    InFlightIsRequested(s, p, k);
    assert SameProgress(s.pieces[k.piece], t.pieces[k.piece]);
    assert t.pieces[k.piece].Shape();
    AgreedMeansOneHolder(t, k);
  }

  /** With endgame off, every request given up puts its block back in the pool, be it one that could
      not be sent or any number that expired together. */
  lemma EndgameOffLossFrees(c: Context, e: Engine, lost: seq<(Peer, BlockKey)>, p: Peer, k: BlockKey)
    requires Reachable(c, e) && !c.config.endgameEnabled && e.sched.InSlot(p, k) && (p, k) in lost
    ensures e.sched.OrphanedAll(lost).Known(k)
    ensures e.sched.OrphanedAll(lost).pieces[k.piece].states[k.offset] == BlockMissing
  {
    OffMeansAgreed(c, e);
    OrphanAllKeepsInv(e.sched, lost);
    OrphanAllLedgers(e.sched, lost);
    OrphanedAllAgreed(e.sched, lost);
    OnlyHolder(e.sched, p, k);
    FreedWhenUnheld(e.sched, e.sched.OrphanedAll(lost), p, k);
  }

  lemma {:induction false} OrphanedAllAgreed(s: Sched, lost: seq<(Peer, BlockKey)>)
    requires s.Inv() && Agreed(s)
    ensures Agreed(s.OrphanedAll(lost))
  {
    if lost != [] {
      var rest, last := lost[..|lost| - 1], lost[|lost| - 1];
      OrphanedAllAgreed(s, rest);
      OrphanAllKeepsInv(s, rest);
      OrphanedAgreed(s.OrphanedAll(rest), last.0, last.1);
    }
  }

  lemma OnlyHolder(s: Sched, p: Peer, k: BlockKey)
    requires s.Inv() && Agreed(s) && s.InSlot(p, k)
    ensures forall q :: s.InSlot(q, k) ==> q == p
  {
    InFlightIsRequested(s, p, k);
    AgreedMeansOneHolder(s, k);
  }

  lemma OneLoss(s: Sched, p: Peer, k: BlockKey)
    ensures s.OrphanedAll([(p, k)]) == s.Orphaned(p, k)
  {
    assert [(p, k)][..0] == [];
  }

  /** With endgame off, a request that could not be sent puts its block back in the pool. */
  lemma EndgameOffSendFailureFrees(c: Context, e: Engine, p: Peer, k: BlockKey)
    requires Reachable(c, e) && !c.config.endgameEnabled && e.sched.InSlot(p, k)
    ensures e.sched.Orphaned(p, k).Known(k)
    ensures e.sched.Orphaned(p, k).pieces[k.piece].states[k.offset] == BlockMissing
  {
    OneLoss(e.sched, p, k);
    EndgameOffLossFrees(c, e, [(p, k)], p, k);
  }

  lemma GoneAgreed(s: Sched, p: Peer, keys: seq<BlockKey>)
    requires s.Inv() && Agreed(s) && ListsSlot(s, p, keys)
    ensures s.PeerGone(p, keys).Inv() && Steady(s, s.PeerGone(p, keys)) && Agreed(s.PeerGone(p, keys))
  {
    LossLedgers(s, Leave(p, keys));
    SameClaimsAgreed(s, s.Touch(p));
    DroppedAllAgreed(s.Touch(p), p, keys);
    SameClaimsAgreed(s.Touch(p).DroppedAll(p, keys), s.PeerGone(p, keys));
  }

  lemma GoneSlots(s: Sched, p: Peer, keys: seq<BlockKey>)
    ensures s.PeerGone(p, keys).slots == s.slots - {p}
  {
    DroppedAllSlots(s.Touch(p), p, keys);
    assert s.Touch(p).slots - {p} == s.slots - {p};
  }

  /** With endgame off, dropping a peer puts every block of its pipeline back in the pool. */
  lemma EndgameOffDropFrees(c: Context, e: Engine, p: Peer, keys: seq<BlockKey>, k: BlockKey)
    requires Reachable(c, e) && !c.config.endgameEnabled && ListsSlot(e.sched, p, keys) && e.sched.InSlot(p, k)
    ensures e.sched.PeerGone(p, keys).Known(k)
    ensures e.sched.PeerGone(p, keys).pieces[k.piece].states[k.offset] == BlockMissing
  {
    OffMeansAgreed(c, e);
    DropFrees(e.sched, p, keys, k);
  }

  lemma DropFrees(s: Sched, p: Peer, keys: seq<BlockKey>, k: BlockKey)
    requires s.Inv() && Agreed(s) && ListsSlot(s, p, keys) && s.InSlot(p, k)
    ensures s.PeerGone(p, keys).Known(k) && s.PeerGone(p, keys).pieces[k.piece].states[k.offset] == BlockMissing
  {
    GoneAgreed(s, p, keys);
    GoneSlots(s, p, keys);
    OnlyHolder(s, p, k);
    forall q
      ensures !s.PeerGone(p, keys).InSlot(q, k)
    {
      assert s.PeerGone(p, keys).InSlot(q, k) ==> q != p && s.InSlot(q, k);
    }
    FreedWhenUnheld(s, s.PeerGone(p, keys), p, k);
  }

  // ------------------------------------------------------------------- dead code

  /** `cancel_piece` as called when a piece has just become whole finds nothing to cancel. */
  lemma CancelFindsNothing(c: Context, e: Engine, p: Peer, k: BlockKey, data: seq<byte>)
    requires Inv(c, e) && k.piece < |e.sched.pieces| && !e.sched.pieces[k.piece].Closed()
    requires e.sched.pieces[k.piece].Accepts(k.offset, data)
    ensures var s := AcceptBlock(e, p, k, data).sched;
            s.pieces[k.piece].Complete() ==> forall q, x :: s.InSlot(q, x) ==> x.piece != k.piece
  {
    var s := AcceptBlock(e, p, k, data).sched;
    AcceptKeepsInv(e.sched, p, k, data);
    StoreKeeps(e.sched.pieces[k.piece], k.offset, data, p);
    if s.pieces[k.piece].Complete() {
      ClosedIsQuiet(s, k.piece);
    }
  }
}
