/** A planning pass that looks past a missing block, as a run from the start of a download. */
module Hiding {
  import opened Basics
  import opened Blocks
  import opened Pieces
  import opened SchedulerSpec
  import opened Torrents
  import opened EngineSpec
  import opened EngineProofs
  import opened Theorems
  import opened PlanSpec
  import opened PlanRuns
  import opened Races

  /** A torrent of one piece of two blocks of one byte, with endgame from the start. */
  ghost function HidingContext(): Context {
    Context(Config(2, true, 2, 1.0), Torrent(2, 2, [[0]]), (_: seq<byte>) => [1], true)
  }

  ghost function HidingPiece(): PieceView {
    PieceView(0, 2, [Block(0, 0, 1), Block(0, 1, 1)], Missing, map[0 := BlockMissing, 1 := BlockMissing],
              map[0 := {}, 1 := {}], None, [], 0)
  }

  ghost function HidingStart(): Engine {
    Engine(Sched([HidingPiece()], map[], map[], {}, None, map[], 0), Stats(0, 0, 0, 0, 0, 0, 0), {}, map[], map[],
           [0, 0], {}, 0, 0, 0)
  }

  /** Two blocks, which nobody has been asked for. */
  ghost predicate TwoMissing(p: PieceView) {
    && p.Valid() && p.index == 0 && p.phase == Missing && p.blocks == [Block(0, 0, 1), Block(0, 1, 1)]
    && p.states == map[0 := BlockMissing, 1 := BlockMissing] && p.requesters == map[0 := {}, 1 := {}]
  }

  ghost predicate ReadyToHide(c: Config, s: Sched) {
    && c.endgameEnabled && c.threshold == 2 && c.capacity == 2 && c.delay == 1.0
    && |s.pieces| == 1 && TwoMissing(s.pieces[0]) && s.slots == map[] && s.asked == map[] && s.peers == {}
    && s.unclaimed.None? && s.endgame == map[]
  }

  lemma HidingPieceFacts()
    ensures Theorems.Untouched(HidingPiece(), 0) && TwoMissing(HidingPiece())
  {
    var piece := HidingPiece();
    assert piece.blocks[0].End() == 1 && piece.blocks[1].End() == 2;
    assert Placed(piece.blocks, 0, 0) && Placed(piece.blocks, 0, 1) && Covers(piece.blocks, 0, 2);
    assert Offsets(piece.blocks) == {piece.blocks[0].offset, piece.blocks[1].offset};
    assert piece.states.Keys == {0, 1} && piece.requesters.Keys == {0, 1};
    assert 0 in piece.states && 1 in piece.states;
  }

  lemma HidingStartExists() returns (c: Context, e: Engine)
    ensures Start(c, e) && ReadyToHide(c.config, e.sched)
  {
    c, e := HidingContext(), HidingStart();
    HidingPieceFacts();
  }

  lemma TwoAreCounted(p: PieceView)
    requires TwoMissing(p)
    ensures p.Count(BlockMissing) == 2
    ensures forall v :: p.FirstOffer(v, true) == Some(0)
  {
    assert p.CountWeights(BlockMissing) == [1, 1];
    assert Sum([1, 1]) == 2 by { assert [1, 1][..1] == [1] && [1][..0] == []; }
  }

  lemma PreparedToHide(c: Config, s: Sched, a: Peer, v: Peer)
    requires ReadyToHide(c, s) && a != v
    ensures s.PiecesOk()
    ensures s.Register(a).Register(v).Counted() ==
            s.(peers := {a, v}, slots := map[a := map[], v := map[]], unclaimed := Some(2))
  {
    var t := s.Register(a).Register(v);
    TwoAreCounted(s.pieces[0]);
    assert t.UnclaimedWeights() == [2];
    assert Sum([2]) == 2 by { assert [2][..0] == []; }
  }

  /** What RacingCanHide asks of a state, of the first block of the only piece. */
  lemma PreparedHides(c: Config, s: Sched, a: PeerInfo, v: PeerInfo)
    requires ReadyToHide(c, s) && a.key != v.key && a.Usable() && v.Usable() && a.Has(0) && v.Has(0)
    ensures s.PiecesOk()
    ensures var t := s.Register(a.key).Register(v.key).Counted();
            && t.Inv() && t.Racing(c) && t.pieces == s.pieces
            && Offer(c, t, v, 0) == Some(BlockKey(0, 0)) && MayGive(c, t, a, BlockKey(0, 0), 0.0)
  {
    PreparedToHide(c, s, a.key, v.key);
    TwoAreCounted(s.pieces[0]);
  }

  /** There is a download where planning passes over a missing block: any two usable peers that hold
      its only piece, one of which was just given the first of its two blocks. */
  lemma SomeDownloadHides(a: PeerInfo, v: PeerInfo) returns (c: Context, f: Engine)
    requires a.key != v.key && a.Usable() && v.Usable() && a.Has(0) && v.Has(0)
    ensures Reachable(c, f) && f.sched.Inv() && |f.sched.pieces| == 1 && v.key in f.sched.slots
    ensures |f.sched.slots[v.key]| < c.config.capacity
    ensures Passed(c.config, f.sched, v, 0, 0.0) && !NoneMissing(f.sched.pieces[0])
  {
    var e;
    c, e := HidingStartExists();
    StartIsReachable(c, e);
    PreparedHides(c.config, e.sched, a, v);
    PreparedToHide(c.config, e.sched, a.key, v.key);
    PreparationReaches(c, e, a.key, v.key);
    var s := e.sched.Register(a.key).Register(v.key).Counted();
    GiveReaches(c, e.(sched := s), a, BlockKey(0, 0), 0.0);
    f := e.(sched := s.Give(a.key, BlockKey(0, 0), 0.0));
    RacingCanHide(c.config, s, a, v, 0, 1, 0.0);
  }
}
