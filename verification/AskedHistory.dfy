/** What the asked history means: which copies count as our own requests coming home, read off the events
    of a run. */
module AskedHistory {
  import opened Basics
  import opened Blocks
  import opened Pieces
  import opened SchedulerSpec
  import opened EngineSpec
  import opened EngineProofs
  import opened Theorems
  import opened PlanRuns
  import opened Blame

  // --------------------------------------------------------------- pair by pair

  /** An arrival uses up the entry of its sender, and no other. */
  lemma ReceivedAsked(s: Sched, p: Peer, k: BlockKey, q: Peer, x: BlockKey)
    ensures s.Received(p, k).WasAsked(q, x) <==> s.WasAsked(q, x) && (q, x) != (p, k)
  {
  }

  /** Pruning forgets the blocks of verified pieces, whoever was asked for them. */
  lemma PrunedAsked(s: Sched, q: Peer, x: BlockKey)
    ensures s.Pruned().WasAsked(q, x) <==>
              s.WasAsked(q, x) && !(x.piece < |s.pieces| && s.pieces[x.piece].phase == Verified)
  {
  }

  /** A reset piece is forgotten, and no other. */
  lemma ResetAsked(s: Sched, i: nat, q: Peer, x: BlockKey)
    ensures s.PieceReset(i).WasAsked(q, x) <==> s.WasAsked(q, x) && x.piece != i
  {
  }

  lemma GivenAsked(s: Sched, p: Peer, k: BlockKey, now: real, q: Peer, x: BlockKey)
    requires p in s.slots && s.Known(k)
    ensures s.Give(p, k, now).WasAsked(q, x) <==> s.WasAsked(q, x) || (q, x) == (p, k)
  {
  }

  /** A lost request stays in the history. */
  lemma LostAsked(s: Sched, p: Peer, k: BlockKey)
    ensures s.Orphaned(p, k).asked == s.asked && s.Dropped(p, k).asked == s.asked
  {
  }

  lemma {:induction false} DroppedAllAsked(s: Sched, p: Peer, keys: seq<BlockKey>)
    ensures s.DroppedAll(p, keys).asked == s.asked
  {
    if keys != [] {
      DroppedAllAsked(s, p, keys[..|keys| - 1]);
      LostAsked(s.DroppedAll(p, keys[..|keys| - 1]), p, keys[|keys| - 1]);
    }
  }

  /** A peer that leaves is forgotten, and no other. */
  lemma GoneAsked(s: Sched, p: Peer, keys: seq<BlockKey>, q: Peer, x: BlockKey)
    ensures s.PeerGone(p, keys).WasAsked(q, x) <==> s.WasAsked(q, x) && q != p
  {
    DroppedAllAsked(s.Touch(p), p, keys);
  }

  // ---------------------------------------------------------------- over the events

  /** The arrival is of a block of a known piece, and is not turned away as a copy of one it holds or of the
      wrong size: the manager notes it with the scheduler. */
  ghost predicate Reaches(e: Engine, index: nat, begin: nat, data: seq<byte>) {
    index < |e.sched.pieces| && (e.sched.pieces[index].Closed() || e.sched.pieces[index].Accepts(begin, data))
  }

  /** Whether `p` is on record for `k` after one more event: an assignment puts it there; its copy arriving, its
      leaving, a prune after the piece is verified and a failed hash of the piece take it away. */
  ghost predicate OnRecord(c: Context, e: Engine, ev: Event, p: Peer, k: BlockKey, was: bool)
    requires Inv(c, e)
  {
    if !Enabled(c, e, ev) then was
    else
      match ev
      case Assign(v, x, _, _) => was || (v.key == p && x == k)
      case Arrive(q, index, begin, data) =>
        was && !(q == p && index == k.piece && begin == k.offset && Reaches(e, index, begin, data))
      case Leave(q, _) => was && q != p
      case Prune => was && !(k.piece < |e.sched.pieces| && e.sched.pieces[k.piece].phase == Verified)
      case HashDone(i) => was && !(i == k.piece && Fails(c, e, ev, i))
      case _ => was
  }

  ghost predicate AskedBy(c: Context, e: Engine, evs: seq<Event>, p: Peer, k: BlockKey, was: bool)
    requires Inv(c, e)
    decreases |evs|
  {
    if evs == [] then was
    else AskedBy(c, Next(c, e, evs[0]), evs[1..], p, k, OnRecord(c, e, evs[0], p, k, was))
  }

  lemma RequestRecord(c: Config, s: Sched, ev: Event, p: Peer, k: BlockKey)
    requires s.PiecesOk() && RequestEnabled(c, s, ev)
    ensures Requests(c, s, ev).WasAsked(p, k) <==>
              match ev
              case Assign(v, x, _, _) => s.WasAsked(p, k) || (v.key == p && x == k)
              case Leave(q, _) => s.WasAsked(p, k) && q != p
              case Prune => s.WasAsked(p, k) && !(k.piece < |s.pieces| && s.pieces[k.piece].phase == Verified)
              case _ => s.WasAsked(p, k)
  {
    match ev {
      case Assign(v, x, sentAt, _) => GivenAsked(s, v.key, x, sentAt, p, k);
      case Leave(q, keys) => GoneAsked(s, q, keys, p, k);
      case Prune => PrunedAsked(s, p, k);
      case Lose(q, x) => LostAsked(s, q, x);
      case _ =>
    }
  }

  lemma ArrivalRecord(e: Engine, q: Peer, index: nat, begin: nat, data: seq<byte>, p: Peer, k: BlockKey)
    requires e.sched.PiecesOk() && (index < |e.sched.pieces| ==> e.sched.pieces[index].phase != Downloaded)
    ensures OnBlock(e, q, index, begin, data).sched.WasAsked(p, k) <==>
              && e.sched.WasAsked(p, k)
              && !(q == p && index == k.piece && begin == k.offset && Reaches(e, index, begin, data))
  {
    if index < |e.sched.pieces| {
      if e.sched.pieces[index].Closed() {
        LateRecord(e, q, BlockKey(index, begin), data, p, k);
      } else if e.sched.pieces[index].Accepts(begin, data) {
        StoredRecord(e, q, BlockKey(index, begin), data, p, k);
      }
    }
  }

  lemma LateRecord(e: Engine, q: Peer, x: BlockKey, data: seq<byte>, p: Peer, k: BlockKey)
    requires e.sched.PiecesOk() && x.piece < |e.sched.pieces|
    requires e.sched.pieces[x.piece].Closed() && e.sched.pieces[x.piece].phase != Downloaded
    ensures OnBlock(e, q, x.piece, x.offset, data).sched.WasAsked(p, k) <==> e.sched.WasAsked(p, k) && (q, x) != (p, k)
  {
    LateHandled(Log(e, data), q, x, data);
    ReceivedAsked(e.sched, q, x, p, k);
  }

  lemma StoredRecord(e: Engine, q: Peer, x: BlockKey, data: seq<byte>, p: Peer, k: BlockKey)
    requires e.sched.PiecesOk() && x.piece < |e.sched.pieces|
    requires !e.sched.pieces[x.piece].Closed() && e.sched.pieces[x.piece].Accepts(x.offset, data)
    ensures OnBlock(e, q, x.piece, x.offset, data).sched.WasAsked(p, k) <==> e.sched.WasAsked(p, k) && (q, x) != (p, k)
  {
    IsStored(e, q, x.piece, x.offset, data);
    var stored := e.sched.SetPiece(x.piece, e.sched.pieces[x.piece].Store(x.offset, data, q));
    ReceivedAsked(stored, q, x, p, k);
  }

  lemma VerifyingRecord(c: Context, e: Engine, ev: Event, p: Peer, k: BlockKey)
    requires Inv(c, e) && Enabled(c, e, ev) && !RequestEvent(ev) && !ev.Arrive?
    ensures Step(c, e, ev).sched.WasAsked(p, k) <==>
              e.sched.WasAsked(p, k) && !(ev.HashDone? && ev.piece == k.piece && Fails(c, e, ev, ev.piece))
  {
    if ev.HashDone? && Fails(c, e, ev, ev.piece) {
      StepFails(c, e, ev.piece);
      FailedRecord(e, ev.piece, p, k);
    } else if ev.HashDone? {
      assert TaskOk(c, e, ev.piece);
    }
  }

  lemma FailedRecord(e: Engine, i: nat, p: Peer, k: BlockKey)
    requires i < |e.sched.pieces|
    ensures HashFailed(e, i).sched.WasAsked(p, k) <==> e.sched.WasAsked(p, k) && k.piece != i
  {
    ResetAsked(e.sched.SetPiece(i, e.sched.pieces[i].MarkFailed().Reset()), i, p, k);
  }

  lemma NextRecord(c: Context, e: Engine, ev: Event, p: Peer, k: BlockKey)
    requires Inv(c, e)
    ensures Next(c, e, ev).sched.WasAsked(p, k) <==> OnRecord(c, e, ev, p, k, e.sched.WasAsked(p, k))
  {
    if Enabled(c, e, ev) {
      if RequestEvent(ev) {
        RequestRecord(c.config, e.sched, ev, p, k);
      } else if ev.Arrive? {
        ArrivalRecord(e, ev.peer, ev.index, ev.begin, ev.data, p, k);
      } else {
        VerifyingRecord(c, e, ev, p, k);
      }
    }
  }

  lemma {:induction false} RunRecord(c: Context, e: Engine, evs: seq<Event>, p: Peer, k: BlockKey)
    requires Inv(c, e)
    ensures After(c, e, evs).sched.WasAsked(p, k) <==> AskedBy(c, e, evs, p, k, e.sched.WasAsked(p, k))
    decreases |evs|
  {
    if evs != [] {
      NextRecord(c, e, evs[0], p, k);
      RunRecord(c, Next(c, e, evs[0]), evs[1..], p, k);
    }
  }

  /** In every run, the history holds a peer and a block if and only if the block was assigned to the peer and
      since then neither did its copy arrive, nor the peer leave, nor a prune come after the piece was verified,
      nor the hash of the piece fail. */
  lemma AskedExactlyWhen(c: Context, e0: Engine, evs: seq<Event>, p: Peer, k: BlockKey)
    requires Start(c, e0)
    ensures Inv(c, e0)
    ensures After(c, e0, evs).sched.WasAsked(p, k) <==> AskedBy(c, e0, evs, p, k, false)
  {
    StartInv(c, e0);
    RunRecord(c, e0, evs, p, k);
  }

  // ------------------------------------------------------------------- late copies

  lemma LateCopy(e: Engine, p: Peer, k: BlockKey, data: seq<byte>)
    requires e.sched.PiecesOk() && k.piece < |e.sched.pieces|
    requires e.sched.pieces[k.piece].Closed() && e.sched.pieces[k.piece].phase != Downloaded
    ensures var f := OnBlock(e, p, k.piece, k.offset, data);
            f.stats == if e.sched.WasAsked(p, k)
                       then e.stats.(duplicate := e.stats.duplicate + 1, wasted := e.stats.wasted + |data|)
                       else e.stats.(unsolicited := e.stats.unsolicited + 1, wasted := e.stats.wasted + |data|)
  {
    LateHandled(Log(e, data), p, k, data);
  }

  /** After any run, a copy for a piece that takes no more blocks is counted as a duplicate if its sender is on
      record for it, and as unsolicited if not. */
  lemma LateCopyExactlyWhen(c: Context, e0: Engine, evs: seq<Event>, p: Peer, k: BlockKey, data: seq<byte>)
    requires Start(c, e0)
    ensures Inv(c, e0)
    ensures var e := After(c, e0, evs);
            k.piece < |e.sched.pieces| && e.sched.pieces[k.piece].Closed() ==>
              var f := OnBlock(e, p, k.piece, k.offset, data);
              && f.stats.received == e.stats.received
              && (f.stats.duplicate == e.stats.duplicate + 1 <==> AskedBy(c, e0, evs, p, k, false))
              && (f.stats.unsolicited == e.stats.unsolicited + 1 <==> !AskedBy(c, e0, evs, p, k, false))
  {
    AskedExactlyWhen(c, e0, evs, p, k);
    var e := After(c, e0, evs);
    if k.piece < |e.sched.pieces| && e.sched.pieces[k.piece].Closed() {
      LateCopy(e, p, k, data);
    }
  }

  lemma FirstCopy(c: Context, e: Engine, a: Peer, b: Peer, k: BlockKey, x: seq<byte>)
    requires Inv(c, e) && a != b && e.sched.InSlot(b, k) && k.piece < |e.sched.pieces|
    requires !e.sched.pieces[k.piece].Closed() && e.sched.pieces[k.piece].Accepts(k.offset, x)
    ensures var f := OnBlock(e, a, k.piece, k.offset, x);
            && f.stats.received == e.stats.received + 1 && f.sched.WasAsked(b, k)
            && |f.sched.pieces| == |e.sched.pieces|
            && f.sched.pieces[k.piece].states == e.sched.pieces[k.piece].states[k.offset := BlockReceived]
  {
    StoredRecord(e, a, k, x, b, k);
    IsStored(e, a, k.piece, k.offset, x);
    StoredOnce(Log(e, x), a, k, x);
  }

  lemma StoredOnce(e: Engine, a: Peer, k: BlockKey, x: seq<byte>)
    requires e.sched.PiecesOk() && k.piece < |e.sched.pieces| && e.sched.pieces[k.piece].Accepts(k.offset, x)
    ensures var f := Submit(AcceptBlock(e, a, k, x), k.piece);
            && f.stats.received == e.stats.received + 1 && |f.sched.pieces| == |e.sched.pieces|
            && f.sched.pieces[k.piece].states == e.sched.pieces[k.piece].states[k.offset := BlockReceived]
  {
  }

  /** A race run to its end: two peers fetch one block, one copy is stored, and whether that completes the piece
      or not the other copy is counted as a duplicate, whatever it holds. */
  lemma LoserIsADuplicate(c: Context, e: Engine, a: Peer, b: Peer, k: BlockKey, x: seq<byte>, y: seq<byte>)
    requires Reachable(c, e) && a != b && e.sched.InSlot(a, k) && e.sched.InSlot(b, k)
    requires k.piece < |e.sched.pieces| && e.sched.pieces[k.piece].Accepts(k.offset, x)
    ensures Inv(c, e)
    ensures var f := Next(c, e, Arrive(a, k.piece, k.offset, x));
            var g := Next(c, f, Arrive(b, k.piece, k.offset, y));
            && Reachable(c, g) && f.stats.received == e.stats.received + 1
            && g.stats.duplicate == f.stats.duplicate + 1
            && g.stats.unsolicited == f.stats.unsolicited && g.stats.received == f.stats.received
  {
    TwoArrivals(c, e, Arrive(a, k.piece, k.offset, x), Arrive(b, k.piece, k.offset, y));
    LoserCounted(c, e, a, b, k, x, y);
  }

  lemma TwoArrivals(c: Context, e: Engine, v: Event, w: Event)
    requires Reachable(c, e)
    ensures Inv(c, e) && Reachable(c, Next(c, Next(c, e, v), w))
  {
    LaterIsReachable(c, e, [v, w]);
    TwoTurns(c, e, v, w);
  }

  lemma LoserCounted(c: Context, e: Engine, a: Peer, b: Peer, k: BlockKey, x: seq<byte>, y: seq<byte>)
    requires Inv(c, e) && a != b && e.sched.InSlot(a, k) && e.sched.InSlot(b, k)
    requires k.piece < |e.sched.pieces| && e.sched.pieces[k.piece].Accepts(k.offset, x)
    ensures var f := Next(c, e, Arrive(a, k.piece, k.offset, x));
            var g := Next(c, f, Arrive(b, k.piece, k.offset, y));
            && f.stats.received == e.stats.received + 1 && g.stats.duplicate == f.stats.duplicate + 1
            && g.stats.unsolicited == f.stats.unsolicited && g.stats.received == f.stats.received
  {
    InFlightIsRequested(e.sched, a, k);
    FirstCopy(c, e, a, b, k, x);
    ArrivalIsNext(c, e, a, k, x);
    var f := OnBlock(e, a, k.piece, k.offset, x);
    ArrivalIsNext(c, f, b, k, y);
    NeverDownloaded(c, f, k.piece);
    SecondCopy(f, b, k, y);
  }

  lemma ArrivalIsNext(c: Context, e: Engine, p: Peer, k: BlockKey, data: seq<byte>)
    requires Inv(c, e)
    ensures Next(c, e, Arrive(p, k.piece, k.offset, data)) == OnBlock(e, p, k.piece, k.offset, data)
    ensures Inv(c, OnBlock(e, p, k.piece, k.offset, data))
  {
    ArriveKeepsInv(c, e, p, k.piece, k.offset, data);
  }

  lemma NeverDownloaded(c: Context, e: Engine, i: nat)
    requires Inv(c, e) && i < |e.sched.pieces|
    ensures e.sched.PiecesOk() && e.sched.pieces[i].phase != Downloaded
  {
  }

  lemma SecondCopy(f: Engine, b: Peer, k: BlockKey, y: seq<byte>)
    requires f.sched.PiecesOk() && k.piece < |f.sched.pieces| && f.sched.pieces[k.piece].phase != Downloaded
    requires k.offset in f.sched.pieces[k.piece].states && f.sched.pieces[k.piece].states[k.offset] == BlockReceived
    requires f.sched.WasAsked(b, k)
    ensures var g := OnBlock(f, b, k.piece, k.offset, y);
            && g.stats.duplicate == f.stats.duplicate + 1
            && g.stats.unsolicited == f.stats.unsolicited && g.stats.received == f.stats.received
  {
    if f.sched.pieces[k.piece].Closed() {
      LateCopy(f, b, k, y);
    }
  }
}
