/** What the download's counters count, read off the events of a run. */
module Counters {
  import opened Basics
  import opened Blocks
  import opened Pieces
  import opened SchedulerSpec
  import opened EngineSpec
  import opened EngineProofs
  import opened Theorems
  import opened Blame
  import opened AskedHistory

  datatype Kind = Fresh | Copy | Unasked | Verifies | Mismatch

  /** An event is of at most one kind: a message whose block is stored; one that is a copy, be it of a block a piece
      still holds open or a late one from a peer on record; any other message; a piece completely written; a hash
      that does not match. */
  ghost predicate IsA(c: Context, e: Engine, ev: Event, kind: Kind)
    requires Inv(c, e)
  {
    match kind
    case Fresh => ev.Arrive? && Stores(e, ev, ev.index)
    case Copy =>
      ev.Arrive? && ev.index < |e.sched.pieces| && !Stores(e, ev, ev.index)
      && (e.sched.pieces[ev.index].Closed() ==> e.sched.WasAsked(ev.peer, BlockKey(ev.index, ev.begin)))
    case Unasked =>
      ev.Arrive? && (ev.index < |e.sched.pieces| ==>
        e.sched.pieces[ev.index].Closed() && !e.sched.WasAsked(ev.peer, BlockKey(ev.index, ev.begin)))
    case Verifies => ev.WriteDone? && Enabled(c, e, ev)
    case Mismatch => ev.HashDone? && Fails(c, e, ev, ev.piece)
  }

  /** How many events of a run are of a kind. */
  ghost function CountOf(c: Context, e: Engine, evs: seq<Event>, kind: Kind): nat
    requires Inv(c, e)
    decreases |evs|
  {
    if evs == [] then 0
    else (if IsA(c, e, evs[0], kind) then 1 else 0) + CountOf(c, Next(c, e, evs[0]), evs[1..], kind)
  }

  /** The bytes an event wastes: a message that is not stored, or a piece whose hash does not match. */
  ghost function WastedBy(c: Context, e: Engine, ev: Event): nat
    requires Inv(c, e)
  {
    if ev.Arrive? && !Stores(e, ev, ev.index) then |ev.data|
    else if ev.HashDone? && Fails(c, e, ev, ev.piece) then c.torrent.PieceSize(ev.piece)
    else 0
  }

  ghost function WastedOver(c: Context, e: Engine, evs: seq<Event>): nat
    requires Inv(c, e)
    decreases |evs|
  {
    if evs == [] then 0 else WastedBy(c, e, evs[0]) + WastedOver(c, Next(c, e, evs[0]), evs[1..])
  }

  /** The penalties an event hands out: one for each source of a piece whose hash does not match. */
  ghost function PenaltiesOver(c: Context, e: Engine, evs: seq<Event>): nat
    requires Inv(c, e)
    decreases |evs|
  {
    if evs == [] then 0
    else
      (if evs[0].HashDone? && Fails(c, e, evs[0], evs[0].piece) then |e.sched.pieces[evs[0].piece].sources| else 0)
      + PenaltiesOver(c, Next(c, e, evs[0]), evs[1..])
  }

  ghost function One(b: bool): nat {
    if b then 1 else 0
  }

  /** The counters after one more event. */
  ghost function Ticked(c: Context, e: Engine, ev: Event): Stats
    requires Inv(c, e)
  {
    Stats(e.stats.received + One(IsA(c, e, ev, Fresh)),
          e.stats.duplicate + One(IsA(c, e, ev, Copy)),
          e.stats.unsolicited + One(IsA(c, e, ev, Unasked)),
          e.stats.verified + One(IsA(c, e, ev, Verifies)),
          e.stats.failed + One(IsA(c, e, ev, Mismatch)),
          e.stats.wasted + WastedBy(c, e, ev),
          e.stats.penalties + if IsA(c, e, ev, Mismatch) then |e.sched.pieces[ev.piece].sources| else 0)
  }

  lemma StoredStats(e: Engine, p: Peer, k: BlockKey, data: seq<byte>)
    requires e.sched.PiecesOk() && k.piece < |e.sched.pieces|
    requires !e.sched.pieces[k.piece].Closed() && e.sched.pieces[k.piece].Accepts(k.offset, data)
    ensures OnBlock(e, p, k.piece, k.offset, data).stats == e.stats.(received := e.stats.received + 1)
  {
    IsStored(e, p, k.piece, k.offset, data);
  }

  lemma TurnedAway(e: Engine, p: Peer, index: nat, begin: nat, data: seq<byte>)
    requires e.sched.PiecesOk()
    requires index < |e.sched.pieces| ==> !e.sched.pieces[index].Closed() && !e.sched.pieces[index].Accepts(begin, data)
    ensures OnBlock(e, p, index, begin, data).stats ==
            if index < |e.sched.pieces|
            then e.stats.(duplicate := e.stats.duplicate + 1, wasted := e.stats.wasted + |data|)
            else e.stats.(unsolicited := e.stats.unsolicited + 1, wasted := e.stats.wasted + |data|)
  {
  }

  lemma StoredTicks(c: Context, e: Engine, ev: Event)
    requires Inv(c, e) && ev.Arrive? && Stores(e, ev, ev.index)
    ensures OnBlock(e, ev.peer, ev.index, ev.begin, ev.data).stats == Ticked(c, e, ev)
  {
    StoredStats(e, ev.peer, BlockKey(ev.index, ev.begin), ev.data);
  }

  lemma LateTicks(c: Context, e: Engine, ev: Event)
    requires Inv(c, e) && ev.Arrive? && ev.index < |e.sched.pieces| && e.sched.pieces[ev.index].Closed()
    ensures OnBlock(e, ev.peer, ev.index, ev.begin, ev.data).stats == Ticked(c, e, ev)
  {
    NeverDownloaded(c, e, ev.index);
    LateCopy(e, ev.peer, BlockKey(ev.index, ev.begin), ev.data);
  }

  lemma ArrivalTicks(c: Context, e: Engine, ev: Event)
    requires Inv(c, e) && ev.Arrive?
    ensures OnBlock(e, ev.peer, ev.index, ev.begin, ev.data).stats == Ticked(c, e, ev)
  {
    if Stores(e, ev, ev.index) {
      StoredTicks(c, e, ev);
    } else if ev.index < |e.sched.pieces| && e.sched.pieces[ev.index].Closed() {
      LateTicks(c, e, ev);
    } else {
      TurnedAway(e, ev.peer, ev.index, ev.begin, ev.data);
    }
  }

  lemma HashTicks(c: Context, e: Engine, ev: Event)
    requires Inv(c, e) && ev.HashDone? && Enabled(c, e, ev)
    ensures Step(c, e, ev).stats == Ticked(c, e, ev)
  {
    HashStats(c, e, ev.piece);
    PieceOfTask(c, e, ev.piece);
  }

  lemma PieceOfTask(c: Context, e: Engine, i: nat)
    requires Inv(c, e) && i in e.tasks
    ensures i < |c.torrent.hashes| == |e.sched.pieces| && e.sched.pieces[i].size == c.torrent.PieceSize(i)
  {
    assert TaskOk(c, e, i);
  }

  lemma HashStats(c: Context, e: Engine, i: nat)
    requires Inv(c, e) && Enabled(c, e, HashDone(i))
    ensures i < |e.sched.pieces|
    ensures Step(c, e, HashDone(i)).stats ==
            if Fails(c, e, HashDone(i), i)
            then e.stats.(failed := e.stats.failed + 1, wasted := e.stats.wasted + e.sched.pieces[i].size,
                          penalties := e.stats.penalties + |e.sched.pieces[i].sources|)
            else e.stats
  {
    PieceOfTask(c, e, i);
    if Fails(c, e, HashDone(i), i) {
      StepFails(c, e, i);
    }
  }

  lemma OtherStats(c: Context, e: Engine, ev: Event)
    requires Inv(c, e) && Enabled(c, e, ev) && !ev.Arrive? && !ev.HashDone?
    ensures Step(c, e, ev).stats == if ev.WriteDone? then e.stats.(verified := e.stats.verified + 1) else e.stats
  {
  }

  lemma NextTicks(c: Context, e: Engine, ev: Event)
    requires Inv(c, e)
    ensures Next(c, e, ev).stats == Ticked(c, e, ev)
  {
    if !Enabled(c, e, ev) {
      DisabledTicks(c, e, ev);
    } else if ev.Arrive? {
      ArrivalTicks(c, e, ev);
    } else if ev.HashDone? {
      HashTicks(c, e, ev);
    } else {
      OtherTicks(c, e, ev);
    }
  }

  lemma OtherTicks(c: Context, e: Engine, ev: Event)
    requires Inv(c, e) && Enabled(c, e, ev) && !ev.Arrive? && !ev.HashDone?
    ensures Step(c, e, ev).stats == Ticked(c, e, ev)
  {
    OtherStats(c, e, ev);
  }

  lemma DisabledTicks(c: Context, e: Engine, ev: Event)
    requires Inv(c, e) && !Enabled(c, e, ev)
    ensures Next(c, e, ev).stats == Ticked(c, e, ev)
  {
  }

  lemma {:induction false} RunTicks(c: Context, e: Engine, evs: seq<Event>)
    requires Inv(c, e)
    ensures var f := After(c, e, evs).stats;
            && f.received == e.stats.received + CountOf(c, e, evs, Fresh)
            && f.duplicate == e.stats.duplicate + CountOf(c, e, evs, Copy)
            && f.unsolicited == e.stats.unsolicited + CountOf(c, e, evs, Unasked)
            && f.verified == e.stats.verified + CountOf(c, e, evs, Verifies)
            && f.failed == e.stats.failed + CountOf(c, e, evs, Mismatch)
            && f.wasted == e.stats.wasted + WastedOver(c, e, evs)
            && f.penalties == e.stats.penalties + PenaltiesOver(c, e, evs)
    decreases |evs|
  {
    if evs != [] {
      NextTicks(c, e, evs[0]);
      RunTicks(c, Next(c, e, evs[0]), evs[1..]);
    }
  }

  /** After any run each counter is the number of the run's events of its kind. */
  lemma CountersCount(c: Context, e0: Engine, evs: seq<Event>)
    requires Start(c, e0)
    ensures Inv(c, e0)
    ensures After(c, e0, evs).stats ==
            Stats(CountOf(c, e0, evs, Fresh), CountOf(c, e0, evs, Copy), CountOf(c, e0, evs, Unasked),
                  CountOf(c, e0, evs, Verifies), CountOf(c, e0, evs, Mismatch),
                  WastedOver(c, e0, evs), PenaltiesOver(c, e0, evs))
  {
    StartInv(c, e0);
    RunTicks(c, e0, evs);
  }

  // ----------------------------------------------------------------------- races

  /** An assignment of a block that another peer, and not this one, has in its pipeline. */
  ghost predicate Doubles(c: Context, e: Engine, ev: Event)
    requires Inv(c, e)
  {
    && ev.Assign? && Enabled(c, e, ev)
    && !e.sched.InSlot(ev.info.key, ev.key) && exists q :: e.sched.InSlot(q, ev.key)
  }

  ghost function RacesOver(c: Context, e: Engine, evs: seq<Event>): nat
    requires Inv(c, e)
    decreases |evs|
  {
    if evs == [] then 0 else One(Doubles(c, e, evs[0])) + RacesOver(c, Next(c, e, evs[0]), evs[1..])
  }

  lemma GiveRaces(s: Sched, p: Peer, k: BlockKey, now: real)
    requires s.Inv() && p in s.slots && s.Known(k)
    ensures s.Give(p, k, now).races == s.races + One(!s.InSlot(p, k) && exists q :: s.InSlot(q, k))
  {
    if s.Fetchers(k) != {} {
      var q :| q in s.Fetchers(k);
      assert s.Fetching(q, k) && s.InSlot(q, k);
    }
    if q: Peer :| s.InSlot(q, k) {
      assert s.Fetching(q, k);
    }
    assert s.InSlot(p, k) <==> s.Fetching(p, k);
  }

  lemma {:induction false} KeysKeepRaces(s: Sched, p: Peer, keys: seq<BlockKey>)
    ensures s.DroppedAll(p, keys).races == s.races
  {
    if keys != [] {
      KeysKeepRaces(s, p, keys[..|keys| - 1]);
    }
  }

  lemma RequestRaces(c: Config, s: Sched, ev: Event)
    requires s.Inv() && RequestEnabled(c, s, ev) && !ev.Assign?
    ensures Requests(c, s, ev).races == s.races
  {
    if ev.Leave? {
      KeysKeepRaces(s.Touch(ev.peer), ev.peer, ev.keys);
    }
  }

  lemma ArrivalRaces(e: Engine, p: Peer, index: nat, begin: nat, data: seq<byte>)
    requires e.sched.PiecesOk()
    ensures OnBlock(e, p, index, begin, data).sched.races == e.sched.races
  {
  }

  lemma VerifyingRaces(c: Context, e: Engine, ev: Event)
    requires Inv(c, e) && Enabled(c, e, ev) && !RequestEvent(ev)
    ensures Step(c, e, ev).sched.races == e.sched.races
  {
    if ev.Arrive? {
      ArrivalRaces(e, ev.peer, ev.index, ev.begin, ev.data);
    }
  }

  lemma NextRaces(c: Context, e: Engine, ev: Event)
    requires Inv(c, e)
    ensures Next(c, e, ev).sched.races == e.sched.races + One(Doubles(c, e, ev))
  {
    if Enabled(c, e, ev) {
      if ev.Assign? {
        GiveRaces(e.sched, ev.info.key, ev.key, ev.sentAt);
      } else if RequestEvent(ev) {
        RequestRaces(c.config, e.sched, ev);
      } else {
        VerifyingRaces(c, e, ev);
      }
    }
  }

  /** After any run the number of races is the number of assignments of a block somebody else was fetching. */
  lemma {:induction false} RacesCount(c: Context, e: Engine, evs: seq<Event>)
    requires Inv(c, e)
    ensures After(c, e, evs).sched.races == e.sched.races + RacesOver(c, e, evs)
    decreases |evs|
  {
    if evs != [] {
      NextRaces(c, e, evs[0]);
      RacesCount(c, Next(c, e, evs[0]), evs[1..]);
    }
  }
}
