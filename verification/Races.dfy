/** A race the planner really runs, and how it strands a block. */
module Races {
  import opened Basics
  import opened Blocks
  import opened Pieces
  import opened SchedulerSpec
  import opened Torrents
  import opened EngineSpec
  import opened EngineProofs
  import opened SoloProofs
  import opened Theorems
  import opened PlanSpec
  import opened PlanRuns

  // -------------------------------------------------------------------- the race

  /** A missing block that the planner may give to `a` now and, the delay later, to `b` as well. */
  ghost predicate MayRace(c: Config, s: Sched, a: PeerInfo, b: PeerInfo, k: BlockKey, now: real, later: real) {
    && s.Inv() && a.key != b.key && s.Racing(c) && later - now >= c.delay
    && MayGive(c, s, a, k, now) && MayGive(c, s, b, k, now)
    && s.pieces[k.piece].states[k.offset] == BlockMissing
  }

  lemma OfferedIsOpen(c: Config, s: Sched, a: PeerInfo, k: BlockKey, now: real)
    requires s.Inv() && MayGive(c, s, a, k, now)
    ensures !s.pieces[k.piece].Closed()
  {
  }

  lemma FirstGive(c: Config, s: Sched, a: PeerInfo, k: BlockKey, now: real)
    requires s.Inv() && s.Racing(c) && MayGive(c, s, a, k, now) && s.pieces[k.piece].states[k.offset] == BlockMissing
    ensures var t := s.Give(a.key, k, now);
            && t.Inv() && t.Racing(c) && t.unclaimed.Some?
            && t.pieces == s.pieces[k.piece := s.pieces[k.piece].MarkRequested(k.offset, a.key)]
            && t.peers == s.peers && t.slots == s.slots[a.key := s.slots[a.key][k := now]]
            && t.endgame == s.endgame[k := {a.key}]
  {
    GiveKeepsInv(s, a.key, k, now);
    NobodyFetchesMissing(s, k);
    assert s.Fetchers(k) + {a.key} == {a.key};
  }

  /** Once `a` has had the full delay, the planner may give the block to `b` too. */
  lemma SecondMayGo(c: Config, s: Sched, a: PeerInfo, b: PeerInfo, k: BlockKey, now: real, later: real)
    requires MayRace(c, s, a, b, k, now, later)
    ensures s.Give(a.key, k, now).Inv() && MayGive(c, s.Give(a.key, k, now), b, k, later)
  {
    var t := s.Give(a.key, k, now);
    FirstGive(c, s, a, k, now);
    NobodyFetchesMissing(s, k);
    ClaimKeepsOffers(s.pieces[k.piece], k.offset, a.key, b.key);
    assert t.pieces[k.piece].blocks == s.pieces[k.piece].blocks;
    assert forall q :: t.InSlot(q, k) ==> q == a.key && t.slots[q][k] == now;
    assert t.slots[b.key] == s.slots[b.key];
  }

  /** Both gives are the planner's, and when both requests are lost the block is REQUESTED with nobody
      fetching it. */
  lemma RaceStrands(c: Config, s: Sched, a: PeerInfo, b: PeerInfo, k: BlockKey, now: real, later: real)
    requires MayRace(c, s, a, b, k, now, later)
    ensures s.Give(a.key, k, now).Inv() && MayGive(c, s.Give(a.key, k, now), b, k, later)
    ensures Stranded(s.Give(a.key, k, now).Give(b.key, k, later).Orphaned(a.key, k).Orphaned(b.key, k), k)
  {
    SecondMayGo(c, s, a, b, k, now, later);
    OfferedIsOpen(c, s, a, k, now);
    LostRaceStrands(s, a.key, b.key, k, now, later);
  }

  // ---------------------------------------------------------------- the race as a run

  lemma RequestReaches(c: Context, e: Engine, ev: Event)
    requires Reachable(c, e) && RequestEvent(ev) && e.sched.PiecesOk() && RequestEnabled(c.config, e.sched, ev)
    ensures Reachable(c, e.(sched := Requests(c.config, e.sched, ev)))
  {
    LaterIsReachable(c, e, [ev]);
    assert [ev][1..] == [];
    assert Next(c, e, ev) == e.(sched := Requests(c.config, e.sched, ev));
  }

  lemma GiveReaches(c: Context, e: Engine, v: PeerInfo, k: BlockKey, now: real)
    requires Reachable(c, e) && e.sched.PiecesOk() && MayGive(c.config, e.sched, v, k, now)
    ensures Reachable(c, e.(sched := e.sched.Give(v.key, k, now)))
  {
    RequestReaches(c, e, Assign(v, k, now, now));
  }

  lemma LossReaches(c: Context, e: Engine, p: Peer, k: BlockKey)
    requires Reachable(c, e) && e.sched.PiecesOk()
    ensures Reachable(c, e.(sched := e.sched.Orphaned(p, k)))
  {
    RequestReaches(c, e, Lose(p, k));
  }

  lemma LossesReach(c: Context, e: Engine, p: Peer, q: Peer, k: BlockKey)
    requires Reachable(c, e) && e.sched.Inv()
    ensures Reachable(c, e.(sched := e.sched.Orphaned(p, k).Orphaned(q, k)))
  {
    OrphanKeepsInv(e.sched, p, k);
    LossReaches(c, e, p, k);
    LossReaches(c, e.(sched := e.sched.Orphaned(p, k)), q, k);
  }

  /** The race as four steps of a download: two assignments of the planner's, then both requests expire.
      From any reachable state where the race may start, a run leads to a stranded block. */
  lemma RaceRunStrands(c: Context, e: Engine, a: PeerInfo, b: PeerInfo, k: BlockKey, now: real, later: real)
    requires Reachable(c, e) && MayRace(c.config, e.sched, a, b, k, now, later)
    ensures var raced := e.sched.Give(a.key, k, now).Give(b.key, k, later);
            var f := e.(sched := raced.Orphaned(a.key, k).Orphaned(b.key, k));
            Reachable(c, f) && Stranded(f.sched, k)
  {
    RaceStrands(c.config, e.sched, a, b, k, now, later);
    var s1 := e.sched.Give(a.key, k, now);
    GiveReaches(c, e, a, k, now);
    GiveReaches(c, e.(sched := s1), b, k, later);
    OfferedIsOpen(c.config, s1, b, k, later);
    GiveInv(c.config, s1, b, k, later);
    LossesReach(c, e.(sched := s1.Give(b.key, k, later)), a.key, b.key, k);
  }

  lemma GiveInv(c: Config, s: Sched, v: PeerInfo, k: BlockKey, now: real)
    requires s.Inv() && MayGive(c, s, v, k, now)
    ensures s.Give(v.key, k, now).Inv()
  {
    GiveLedgers(c, s, v, k, now, now);
  }

  // ------------------------------------------------------------------- an instance

  /** A torrent of one piece of one byte, with endgame from the start. */
  ghost function RaceContext(): Context {
    Context(Config(1, true, 1, 1.0), Torrent(1, 1, [[0]]), (_: seq<byte>) => [1], true)
  }

  ghost function RacePiece(): PieceView {
    PieceView(0, 1, [Block(0, 0, 1)], Missing, map[0 := BlockMissing], map[0 := {}], None, [], 0)
  }

  ghost function RaceStart(): Engine {
    Engine(Sched([RacePiece()], map[], map[], {}, None, map[], 0), Stats(0, 0, 0, 0, 0, 0, 0), {}, map[], map[],
           [0], {}, 0, 0, 0)
  }

  /** One block, which nobody has been asked for. */
  ghost predicate OneMissing(p: PieceView) {
    && p.Valid() && p.index == 0 && p.phase == Missing && p.blocks == [Block(0, 0, 1)]
    && p.states == map[0 := BlockMissing] && p.requesters == map[0 := {}]
  }

  ghost predicate ReadyToRace(c: Config, s: Sched) {
    && c.endgameEnabled && c.threshold == 1 && c.capacity == 1 && c.delay <= 1.0
    && |s.pieces| == 1 && OneMissing(s.pieces[0]) && s.slots == map[] && s.asked == map[] && s.peers == {}
    && s.unclaimed.None? && s.endgame == map[]
  }

  lemma RacePieceFacts()
    ensures Theorems.Untouched(RacePiece(), 0) && OneMissing(RacePiece())
  {
    var piece := RacePiece();
    assert piece.blocks[0].End() == 1 && Placed(piece.blocks, 0, 0) && Covers(piece.blocks, 0, 1);
    assert Offsets(piece.blocks) == {piece.blocks[0].offset};
    assert piece.states.Keys == {0} && piece.requesters.Keys == {0};
    assert 0 in piece.states;
  }

  lemma RaceStartExists() returns (c: Context, e: Engine)
    ensures Start(c, e) && ReadyToRace(c.config, e.sched)
  {
    c, e := RaceContext(), RaceStart();
    RacePieceFacts();
  }

  lemma OneIsCounted(p: PieceView)
    requires OneMissing(p)
    ensures p.Count(BlockMissing) == 1
    ensures forall v :: p.FirstOffer(v, true) == Some(0)
  {
    assert p.CountWeights(BlockMissing) == [1];
    assert Sum([1]) == Sum([]) + 1 by { assert [1][..0] == []; }
  }

  lemma PreparedIs(c: Config, s: Sched, a: Peer, b: Peer)
    requires ReadyToRace(c, s) && a != b
    ensures s.PiecesOk()
    ensures s.Register(a).Register(b).Counted() ==
            s.(peers := {a, b}, slots := map[a := map[], b := map[]], unclaimed := Some(1))
  {
    var s2 := s.Register(a).Register(b);
    OneIsCounted(s.pieces[0]);
    assert s2.UnclaimedWeights() == [1];
    assert Sum([1]) == 1 by { assert [1][..0] == []; }
  }

  lemma PreparedMayRace(c: Config, s: Sched, a: PeerInfo, b: PeerInfo)
    requires ReadyToRace(c, s) && a.key != b.key && a.Usable() && b.Usable() && a.Has(0) && b.Has(0)
    ensures s.PiecesOk() && MayRace(c, s.Register(a.key).Register(b.key).Counted(), a, b, BlockKey(0, 0), 0.0, 1.0)
  {
    PreparedIs(c, s, a.key, b.key);
    OneIsCounted(s.pieces[0]);
  }

  /** Registering two peers and counting the missing blocks. */
  lemma PreparationReaches(c: Context, e: Engine, a: Peer, b: Peer)
    requires Reachable(c, e) && e.sched.PiecesOk()
    ensures Reachable(c, e.(sched := e.sched.Register(a).Register(b).Counted()))
  {
    var s1 := e.sched.Register(a);
    RequestReaches(c, e, Join(a));
    RequestReaches(c, e.(sched := s1), Join(b));
    RequestReaches(c, e.(sched := s1.Register(b)), Count);
  }

  /** There is a download with a stranded block: any two usable peers that hold its only piece. */
  lemma SomeDownloadStrands(a: PeerInfo, b: PeerInfo) returns (c: Context, f: Engine)
    requires a.key != b.key && a.Usable() && b.Usable() && a.Has(0) && b.Has(0)
    ensures Reachable(c, f) && Stranded(f.sched, BlockKey(0, 0))
  {
    var e;
    c, e := RaceStartExists();
    StartIsReachable(c, e);
    PreparedMayRace(c.config, e.sched, a, b);
    PreparationReaches(c, e, a.key, b.key);
    var s := e.sched.Register(a.key).Register(b.key).Counted();
    RaceRunStrands(c, e.(sched := s), a, b, BlockKey(0, 0), 0.0, 1.0);
    f := e.(sched := s.Give(a.key, BlockKey(0, 0), 0.0).Give(b.key, BlockKey(0, 0), 1.0)
                      .Orphaned(a.key, BlockKey(0, 0)).Orphaned(b.key, BlockKey(0, 0)));
  }
}
