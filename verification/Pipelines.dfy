/** No peer is ever asked for more blocks at once than the configuration allows. */
module Pipelines {
  import opened Basics
  import opened Blocks
  import opened Pieces
  import opened SchedulerSpec
  import opened EngineSpec
  import opened EngineProofs
  import opened Theorems
  import opened PlanSpec

  ghost predicate Fit(s: Sched, capacity: nat) {
    forall p :: p in s.slots ==> |s.slots[p]| <= capacity
  }

  /** Pipelines of `t` are new and empty, or hold no more than they did. */
  ghost predicate Narrower(s: Sched, t: Sched) {
    forall p :: p in t.slots ==> t.slots[p] == map[] || (p in s.slots && t.slots[p].Keys <= s.slots[p].Keys)
  }

  lemma NarrowerFits(s: Sched, t: Sched, capacity: nat)
    requires Fit(s, capacity) && Narrower(s, t)
    ensures Fit(t, capacity)
  {
    forall p | p in t.slots
      ensures |t.slots[p]| <= capacity
    {
      if t.slots[p] != map[] {
        SubsetSize(t.slots[p].Keys, s.slots[p].Keys);
      }
    }
  }

  lemma GiveFits(c: Config, s: Sched, v: PeerInfo, k: BlockKey, now: real, seenAt: real)
    requires s.PiecesOk() && MayGive(c, s, v, k, seenAt) && Fit(s, c.capacity)
    ensures Fit(s.Give(v.key, k, now), c.capacity)
  {
    OneMoreSlot(s, v.key, k, now);
  }

  lemma LossIsNarrower(s: Sched, p: Peer, k: BlockKey)
    ensures Narrower(s, s.Orphaned(p, k))
  {
  }

  lemma DropIsNarrower(s: Sched, p: Peer, keys: seq<BlockKey>)
    ensures Narrower(s, s.PeerGone(p, keys))
  {
    GoneSlots(s, p, keys);
  }

  lemma ArrivalIsNarrower(s: Sched, p: Peer, k: BlockKey)
    ensures Narrower(s, s.Received(p, k))
  {
  }

  lemma RequestFits(c: Config, s: Sched, ev: Event)
    requires s.PiecesOk() && RequestEnabled(c, s, ev) && Fit(s, c.capacity)
    ensures Fit(Requests(c, s, ev), c.capacity)
  {
    match ev {
      case Assign(v, k, sentAt, seenAt) => GiveFits(c, s, v, k, sentAt, seenAt);
      case Lose(p, k) =>
        LossIsNarrower(s, p, k);
        NarrowerFits(s, s.Orphaned(p, k), c.capacity);
      case Leave(p, keys) =>
        DropIsNarrower(s, p, keys);
        NarrowerFits(s, s.PeerGone(p, keys), c.capacity);
      case Join(p) => NarrowerFits(s, s.Register(p), c.capacity);
      case Notice(p) => NarrowerFits(s, s.Touch(p), c.capacity);
      case Count =>
      case Prune =>
    }
  }

  lemma SubmitSlots(f: Engine, i: nat)
    requires i < |f.sched.pieces|
    ensures Submit(f, i).sched.slots == f.sched.slots
  {
  }

  lemma SameSlots(s: Sched, t: Sched, p: Peer, k: BlockKey)
    requires t.slots == s.slots && t.endgame == s.endgame
    ensures t.Received(p, k).slots == s.Received(p, k).slots
  {
    assert forall q :: t.Fetching(q, k) == s.Fetching(q, k);
  }

  lemma StoredSlots(e: Engine, p: Peer, k: BlockKey, data: seq<byte>)
    requires e.sched.PiecesOk() && k.piece < |e.sched.pieces| && e.sched.pieces[k.piece].Accepts(k.offset, data)
    ensures AcceptBlock(e, p, k, data).sched.slots == e.sched.Received(p, k).slots
  {
    SameSlots(e.sched, e.sched.SetPiece(k.piece, e.sched.pieces[k.piece].Store(k.offset, data, p)), p, k);
  }

  /** A message empties at most the place of its own block. */
  lemma ArrivalFits(e: Engine, p: Peer, index: nat, begin: nat, data: seq<byte>, capacity: nat)
    requires e.sched.PiecesOk() && Fit(e.sched, capacity)
    ensures Fit(OnBlock(e, p, index, begin, data).sched, capacity)
  {
    var k := BlockKey(index, begin);
    ArrivalIsNarrower(e.sched, p, k);
    NarrowerFits(e.sched, e.sched.Received(p, k), capacity);
    if index < |e.sched.pieces| && e.sched.pieces[index].Accepts(begin, data) {
      StoredSlots(Log(e, data), p, k, data);
      SubmitSlots(AcceptBlock(Log(e, data), p, k, data), index);
    }
  }

  lemma VerifySlots(c: Context, e: Engine, ev: Event)
    requires Inv(c, e) && Enabled(c, e, ev) && !RequestEvent(ev) && !ev.Arrive?
    ensures Step(c, e, ev).sched.slots == e.sched.slots
  {
  }

  lemma NextFits(c: Context, e: Engine, ev: Event)
    requires Inv(c, e) && Fit(e.sched, c.config.capacity)
    ensures Fit(Next(c, e, ev).sched, c.config.capacity)
  {
    if Enabled(c, e, ev) {
      if RequestEvent(ev) {
        RequestFits(c.config, e.sched, ev);
      } else if ev.Arrive? {
        ArrivalFits(e, ev.peer, ev.index, ev.begin, ev.data, c.config.capacity);
      } else {
        VerifySlots(c, e, ev);
      }
    }
  }

  lemma {:induction false} RunFits(c: Context, e: Engine, evs: seq<Event>)
    requires Inv(c, e) && Fit(e.sched, c.config.capacity)
    ensures Fit(After(c, e, evs).sched, c.config.capacity)
    decreases |evs|
  {
    if evs != [] {
      NextFits(c, e, evs[0]);
      RunFits(c, Next(c, e, evs[0]), evs[1..]);
    }
  }

  /** In every reachable state no pipeline exceeds the configured capacity. */
  lemma PipelinesStayWithinCapacity(c: Context, e: Engine, p: Peer)
    requires Reachable(c, e) && p in e.sched.slots
    ensures |e.sched.slots[p]| <= c.config.capacity
  {
    var e0, evs :| Start(c, e0) && ReachedBy(c, e0, evs, e);
    RunFits(c, e0, evs);
  }
}
