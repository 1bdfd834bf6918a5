/** Whom a failed hash blames. A piece never forgets who supplied it, so a failure also penalises
    peers whose blocks were thrown away with an earlier attempt. */
module Blame {
  import opened Basics
  import opened Blocks
  import opened Pieces
  import opened SchedulerSpec
  import opened Torrents
  import opened EngineSpec
  import opened EngineProofs
  import opened Theorems
  import opened PlanRuns

  // ------------------------------------------------------------------- history

  /** Who supplied blocks of a piece: in the present attempt, and in any. */
  datatype Supply = Supply(now: set<Peer>, ever: set<Peer>)

  ghost predicate Stores(e: Engine, ev: Event, i: nat) {
    && ev.Arrive? && ev.index == i && i < |e.sched.pieces|
    && !e.sched.pieces[i].Closed() && e.sched.pieces[i].Accepts(ev.begin, ev.data)
  }

  ghost predicate Fails(c: Context, e: Engine, ev: Event, i: nat) {
    && ev == HashDone(i) && i in e.tasks && e.tasks[i].Hashing? && i < |c.torrent.hashes|
    && c.verifyFirst && c.hash(e.tasks[i].data) != c.torrent.hashes[i]
  }

  ghost function Supplied(c: Context, e: Engine, ev: Event, i: nat, h: Supply): Supply {
    if Stores(e, ev, i) then Supply(h.now + {ev.peer}, h.ever + {ev.peer})
    else if Fails(c, e, ev, i) then h.(now := {})
    else h
  }

  ghost function RunSupply(c: Context, e: Engine, evs: seq<Event>, i: nat, h: Supply): Supply
    requires Inv(c, e)
    decreases |evs|
  {
    if evs == [] then h else RunSupply(c, Next(c, e, evs[0]), evs[1..], i, Supplied(c, e, evs[0], i, h))
  }

  // ------------------------------------------------------------- what is kept

  ghost predicate NoRepeats(s: seq<Peer>) {
    forall a, b :: 0 <= a < b < |s| ==> s[a] != s[b]
  }

  /** The sources of a piece are everybody who ever supplied it, each once. */
  ghost predicate Remembers(p: PieceView, h: Supply) {
    && NoRepeats(p.sources) && (forall q :: q in p.sources <==> q in h.ever)
    && h.now <= h.ever && (p.failures == 0 ==> h.now == h.ever)
  }

  lemma StoreRemembers(p: PieceView, o: nat, data: seq<byte>, q: Peer, h: Supply)
    requires p.Shape() && p.Accepts(o, data) && Remembers(p, h)
    ensures Remembers(p.Store(o, data, q), Supply(h.now + {q}, h.ever + {q}))
  {
  }

  /** A change that the record of suppliers does not see. */
  ghost predicate SameRecord(p: PieceView, q: PieceView) {
    q.sources == p.sources && q.failures == p.failures
  }

  lemma SubmitKeepsRecord(e: Engine, p: Peer, k: BlockKey, data: seq<byte>, i: nat)
    requires e.sched.PiecesOk() && k.piece < |e.sched.pieces| && i < |e.sched.pieces|
    requires e.sched.pieces[k.piece].Accepts(k.offset, data)
    ensures var f := Submit(AcceptBlock(Log(e, data), p, k, data), k.piece);
            |f.sched.pieces| == |e.sched.pieces| &&
            SameRecord(if i == k.piece then e.sched.pieces[i].Store(k.offset, data, p) else e.sched.pieces[i],
                       f.sched.pieces[i])
  {
  }

  /** A message that is not stored changes no piece. */
  lemma NotStored(e: Engine, p: Peer, index: nat, begin: nat, data: seq<byte>)
    requires e.sched.PiecesOk() && (index < |e.sched.pieces| ==> e.sched.pieces[index].phase != Downloaded)
    requires !Stores(e, Arrive(p, index, begin, data), index)
    ensures OnBlock(e, p, index, begin, data).sched.pieces == e.sched.pieces
  {
  }

  lemma IsStored(e: Engine, p: Peer, index: nat, begin: nat, data: seq<byte>)
    requires e.sched.PiecesOk() && Stores(e, Arrive(p, index, begin, data), index)
    ensures OnBlock(e, p, index, begin, data) ==
            Submit(AcceptBlock(Log(e, data), p, BlockKey(index, begin), data), index)
  {
  }

  lemma ArriveRemembers(e: Engine, p: Peer, index: nat, begin: nat, data: seq<byte>, i: nat, h: Supply)
    requires e.sched.PiecesOk() && forall j :: 0 <= j < |e.sched.pieces| ==> e.sched.pieces[j].phase != Downloaded
    requires i < |e.sched.pieces| && Remembers(e.sched.pieces[i], h)
    ensures var f := OnBlock(e, p, index, begin, data);
            && |f.sched.pieces| == |e.sched.pieces|
            && Remembers(f.sched.pieces[i],
                         if Stores(e, Arrive(p, index, begin, data), i) then Supply(h.now + {p}, h.ever + {p}) else h)
  {
    if Stores(e, Arrive(p, index, begin, data), index) {
      IsStored(e, p, index, begin, data);
      SubmitKeepsRecord(e, p, BlockKey(index, begin), data, i);
      if i == index {
        StoreRemembers(e.sched.pieces[i], begin, data, p, h);
      }
    } else {
      NotStored(e, p, index, begin, data);
    }
  }

  /** Of the steps of a verification only a mismatch touches the record, and it only counts a failure. */
  lemma VerifyRecord(c: Context, e: Engine, ev: Event, i: nat)
    requires Inv(c, e) && Enabled(c, e, ev) && !RequestEvent(ev) && !ev.Arrive? && i < |e.sched.pieces|
    ensures var f := Step(c, e, ev);
            && |f.sched.pieces| == |e.sched.pieces| && f.sched.pieces[i].sources == e.sched.pieces[i].sources
            && f.sched.pieces[i].failures == e.sched.pieces[i].failures + if Fails(c, e, ev, i) then 1 else 0
  {
    match ev {
      case StartVerify(j) => StartRecord(c, e, j, i);
      case HashDone(j) => HashRecord(c, e, j, i);
      case WriteSome(j, n) =>
      case WriteDone(j) => SettledRecord(c, e, j, i);
      case Fault(j) => SettledRecord(c, e, j, i);
    }
  }

  lemma SettledRecord(c: Context, e: Engine, j: nat, i: nat)
    requires Inv(c, e) && j in e.tasks && i < |e.sched.pieces|
    ensures j < |e.sched.pieces|
    ensures forall f :: f in {Stored(e, j), Faulted(e, j)} ==>
              && |f.sched.pieces| == |e.sched.pieces| && f.sched.pieces[i].sources == e.sched.pieces[i].sources
              && f.sched.pieces[i].failures == e.sched.pieces[i].failures
  {
    assert TaskOk(c, e, j);
  }

  lemma StartRecord(c: Context, e: Engine, j: nat, i: nat)
    requires Inv(c, e) && j in e.tasks && e.tasks[j].Scheduled?
    ensures j < |e.sched.pieces| && Step(c, e, StartVerify(j)).sched == e.sched
  {
    DataIsReady(c, e, j);
  }

  lemma HashRecord(c: Context, e: Engine, j: nat, i: nat)
    requires Inv(c, e) && j in e.tasks && e.tasks[j].Hashing? && i < |e.sched.pieces|
    ensures var f := Step(c, e, HashDone(j));
            && |f.sched.pieces| == |e.sched.pieces| && f.sched.pieces[i].sources == e.sched.pieces[i].sources
            && f.sched.pieces[i].failures == e.sched.pieces[i].failures + if Fails(c, e, HashDone(j), i) then 1 else 0
  {
    assert TaskOk(c, e, j);
    if Fails(c, e, HashDone(j), j) {
      assert Step(c, e, HashDone(j)) == HashFailed(e, j);
      FailureRecord(e, j, i);
    } else {
      assert Step(c, e, HashDone(j)).sched == e.sched;
    }
  }

  lemma FailureRecord(e: Engine, j: nat, i: nat)
    requires j < |e.sched.pieces| && i < |e.sched.pieces|
    ensures var f := HashFailed(e, j);
            && |f.sched.pieces| == |e.sched.pieces| && f.sched.pieces[i].sources == e.sched.pieces[i].sources
            && f.sched.pieces[i].failures == e.sched.pieces[i].failures + if i == j then 1 else 0
  {
  }

  lemma RequestRecord(c: Context, e: Engine, ev: Event, i: nat)
    requires Inv(c, e) && Enabled(c, e, ev) && RequestEvent(ev) && i < |e.sched.pieces|
    ensures |Step(c, e, ev).sched.pieces| == |e.sched.pieces|
    ensures SameRecord(e.sched.pieces[i], Step(c, e, ev).sched.pieces[i])
  {
    RequestLedgers(c.config, e.sched, ev);
    assert SameProgress(e.sched.pieces[i], Requests(c.config, e.sched, ev).pieces[i]);
  }

  lemma StepRemembers(c: Context, e: Engine, ev: Event, i: nat, h: Supply)
    requires Inv(c, e) && Enabled(c, e, ev) && i < |e.sched.pieces| && Remembers(e.sched.pieces[i], h)
    ensures |Step(c, e, ev).sched.pieces| == |e.sched.pieces|
    ensures Remembers(Step(c, e, ev).sched.pieces[i], Supplied(c, e, ev, i, h))
  {
    if RequestEvent(ev) {
      RequestRecord(c, e, ev, i);
    } else if ev.Arrive? {
      ArriveRemembers(e, ev.peer, ev.index, ev.begin, ev.data, i, h);
    } else {
      VerifyRecord(c, e, ev, i);
    }
  }

  lemma NextRemembers(c: Context, e: Engine, ev: Event, i: nat, h: Supply)
    requires Inv(c, e) && i < |e.sched.pieces| && Remembers(e.sched.pieces[i], h)
    ensures |Next(c, e, ev).sched.pieces| == |e.sched.pieces|
    ensures Remembers(Next(c, e, ev).sched.pieces[i], Supplied(c, e, ev, i, h))
  {
    if Enabled(c, e, ev) {
      StepRemembers(c, e, ev, i, h);
    } else {
      assert Supplied(c, e, ev, i, h) == h;
    }
  }

  lemma {:induction false} RunRemembers(c: Context, e: Engine, evs: seq<Event>, i: nat, h: Supply)
    requires Inv(c, e) && i < |e.sched.pieces| && Remembers(e.sched.pieces[i], h)
    ensures |After(c, e, evs).sched.pieces| == |e.sched.pieces|
    ensures Remembers(After(c, e, evs).sched.pieces[i], RunSupply(c, e, evs, i, h))
    decreases |evs|
  {
    if evs != [] {
      NextRemembers(c, e, evs[0], i, h);
      RunRemembers(c, Next(c, e, evs[0]), evs[1..], i, Supplied(c, e, evs[0], i, h));
    }
  }

  // --------------------------------------------------------------------- blame

  function Penalty(penalties: map<Peer, nat>, q: Peer): nat {
    if q in penalties then penalties[q] else 0
  }

  lemma {:induction false} PenalisedOnce(penalties: map<Peer, nat>, sources: seq<Peer>, q: Peer)
    requires NoRepeats(sources)
    ensures Penalty(Penalised(penalties, sources), q) == Penalty(penalties, q) + if q in sources then 1 else 0
  {
    if sources != [] {
      var rest, last := sources[..|sources| - 1], sources[|sources| - 1];
      assert sources == rest + [last];
      PenalisedOnce(penalties, rest, q);
      PenalisedOnce(penalties, rest, last);
    }
  }

  /** Whether the failed hash of piece `i` costs `q` a penalty. */
  ghost predicate Blamed(c: Context, e: Engine, i: nat, q: Peer)
    requires Inv(c, e) && Enabled(c, e, HashDone(i))
  {
    Penalty(Step(c, e, HashDone(i)).penalties, q) > Penalty(e.penalties, q)
  }

  lemma EverySourceIsBlamed(c: Context, e: Engine, i: nat, h: Supply)
    requires Inv(c, e) && i < |e.sched.pieces| && Fails(c, e, HashDone(i), i) && Remembers(e.sched.pieces[i], h)
    ensures Enabled(c, e, HashDone(i))
    ensures forall q ::
              Penalty(Step(c, e, HashDone(i)).penalties, q) == Penalty(e.penalties, q) + if q in h.ever then 1 else 0
  {
    forall q
      ensures Penalty(Step(c, e, HashDone(i)).penalties, q) == Penalty(e.penalties, q) + if q in h.ever then 1 else 0
    {
      PenalisedOnce(e.penalties, e.sched.pieces[i].sources, q);
    }
  }

  lemma BlamedMeansEver(c: Context, e: Engine, i: nat, h: Supply)
    requires Inv(c, e) && i < |e.sched.pieces| && Fails(c, e, HashDone(i), i) && Remembers(e.sched.pieces[i], h)
    ensures Enabled(c, e, HashDone(i)) && forall q :: Blamed(c, e, i, q) <==> q in h.ever
  {
    EverySourceIsBlamed(c, e, i, h);
  }

  /** The failed hash blames exactly the peers in `s`. */
  ghost predicate BlamesExactly(c: Context, e: Engine, i: nat, s: set<Peer>)
    requires Inv(c, e) && Enabled(c, e, HashDone(i))
  {
    forall q :: Blamed(c, e, i, q) <==> q in s
  }

  lemma FairExactlyWhen(c: Context, e: Engine, i: nat, h: Supply)
    requires Inv(c, e) && i < |e.sched.pieces| && Fails(c, e, HashDone(i), i) && Remembers(e.sched.pieces[i], h)
    ensures Enabled(c, e, HashDone(i)) && BlamesExactly(c, e, i, h.ever)
    ensures BlamesExactly(c, e, i, h.now) <==> h.ever <= h.now
    ensures e.sched.pieces[i].failures == 0 ==> BlamesExactly(c, e, i, h.now)
  {
    BlamedMeansEver(c, e, i, h);
    if BlamesExactly(c, e, i, h.now) {
      forall q | q in h.ever
        ensures q in h.now
      {
        assert Blamed(c, e, i, q);
      }
    }
    if h.ever <= h.now {
      assert h.ever == h.now;
    }
  }

  /** In every run, a failed hash blames everybody who ever supplied the piece. It blames exactly the
      suppliers of the attempt that failed if and only if nobody supplied a block in an earlier attempt
      only; in particular on a piece's first failure. */
  lemma BlameIsFairExactlyWhen(c: Context, e0: Engine, evs: seq<Event>, i: nat)
    requires Start(c, e0) && i < |e0.sched.pieces|
    ensures Inv(c, e0)
    ensures var e := After(c, e0, evs);
            var h := RunSupply(c, e0, evs, i, Supply({}, {}));
            Fails(c, e, HashDone(i), i) ==>
              && i < |e.sched.pieces| && Enabled(c, e, HashDone(i)) && BlamesExactly(c, e, i, h.ever)
              && (BlamesExactly(c, e, i, h.now) <==> h.ever <= h.now)
              && (e.sched.pieces[i].failures == 0 ==> BlamesExactly(c, e, i, h.now))
  {
    StartInv(c, e0);
    StartRemembers(c, e0, i);
    RunRemembers(c, e0, evs, i, Supply({}, {}));
    if Fails(c, After(c, e0, evs), HashDone(i), i) {
      FairExactlyWhen(c, After(c, e0, evs), i, RunSupply(c, e0, evs, i, Supply({}, {})));
    }
  }

  lemma StartRemembers(c: Context, e0: Engine, i: nat)
    requires Start(c, e0) && i < |e0.sched.pieces|
    ensures Remembers(e0.sched.pieces[i], Supply({}, {}))
  {
    assert Theorems.Untouched(e0.sched.pieces[i], i);
  }

  // ------------------------------------------------------------------- witness

  /** A piece of one block that nothing has arrived for, and data that will not match. */
  ghost predicate Hopeless(c: Context, e: Engine, i: nat, data: seq<byte>) {
    && c.verifyFirst && i < |e.sched.pieces| && Alone(e.sched.pieces[i], i, |data|)
    && i < |c.torrent.hashes| && c.hash(data) != c.torrent.hashes[i]
  }

  ghost predicate Alone(p: PieceView, i: nat, size: nat) {
    && p.Shape() && p.size == size && p.blocks == [Block(i, 0, size)] && p.phase == Missing
    && p.states == map[0 := BlockMissing]
  }

  /** Its only block has come. */
  ghost predicate Whole(p: PieceView, i: nat, data: seq<byte>, sources: seq<Peer>) {
    && p.Shape() && p.size == |data| && p.blocks == [Block(i, 0, |data|)] && p.states == map[0 := BlockReceived]
    && p.buffer == Some(data) && p.sources == sources
  }

  ghost function Joined(sources: seq<Peer>, p: Peer): seq<Peer> {
    if p in sources then sources else sources + [p]
  }

  ghost function Attempt(p: Peer, i: nat, data: seq<byte>): seq<Event> {
    [Arrive(p, i, 0, data), StartVerify(i), HashDone(i)]
  }

  lemma TurnFirst(c: Context, e: Engine, x: Event, rest: seq<Event>)
    requires Inv(c, e)
    ensures After(c, e, [x] + rest) == After(c, Next(c, e, x), rest)
  {
    assert ([x] + rest)[1..] == rest;
  }

  lemma ThreeTurns(c: Context, e: Engine, x: Event, y: Event, z: Event)
    requires Inv(c, e)
    ensures After(c, e, [x, y, z]) == Next(c, Next(c, Next(c, e, x), y), z)
  {
    TurnFirst(c, e, x, [y, z]);
    TwoTurns(c, Next(c, e, x), y, z);
    assert [x, y, z] == [x] + [y, z];
  }

  lemma TwoTurns(c: Context, e: Engine, y: Event, z: Event)
    requires Inv(c, e)
    ensures After(c, e, [y, z]) == Next(c, Next(c, e, y), z)
  {
    TurnFirst(c, e, y, [z]);
    OneTurn(c, Next(c, e, y), z);
    assert [y, z] == [y] + [z];
  }

  lemma OneTurn(c: Context, e: Engine, z: Event)
    requires Inv(c, e)
    ensures After(c, e, [z]) == Next(c, e, z)
  {
    TurnFirst(c, e, z, []);
    assert [z] == [z] + [];
  }

  lemma OnlyBlockStored(p: PieceView, i: nat, data: seq<byte>, q: Peer)
    requires Alone(p, i, |data|)
    ensures p.Accepts(0, data) && Whole(p.Store(0, data, q), i, data, Joined(p.sources, q))
  {
    assert p.blocks[0].offset == 0 && p.HasBlock(0, |data|);
    assert Overwrite(p.Assembly(), 0, data) == data;
    assert p.Store(0, data, q).states == map[0 := BlockReceived];
  }

  /** The block arrives and completes the piece. */
  lemma BlockArrives(e: Engine, p: Peer, i: nat, data: seq<byte>)
    requires e.sched.PiecesOk() && i < |e.sched.pieces| && Alone(e.sched.pieces[i], i, |data|)
    ensures var f := OnBlock(e, p, i, 0, data);
            && f.penalties == e.penalties && i < |f.sched.pieces| && i in f.tasks && f.tasks[i] == Scheduled
            && Whole(f.sched.pieces[i], i, data, Joined(e.sched.pieces[i].sources, p))
  {
    OnlyBlockStored(e.sched.pieces[i], i, data, p);
    IsStored(e, p, i, 0, data);
  }

  lemma WholeTaken(e: Engine, i: nat, data: seq<byte>, sources: seq<Peer>)
    requires i < |e.sched.pieces| && Whole(e.sched.pieces[i], i, data, sources)
    ensures Started(e, i) == e.(tasks := e.tasks[i := Hashing(data)])
  {
    assert e.sched.pieces[i].Data() == Some(data);
  }

  lemma WholeFails(e: Engine, i: nat, data: seq<byte>, sources: seq<Peer>)
    requires i < |e.sched.pieces| && Whole(e.sched.pieces[i], i, data, sources)
    ensures var g := HashFailed(e, i);
            && i < |g.sched.pieces| && Alone(g.sched.pieces[i], i, |data|) && g.sched.pieces[i].sources == sources
            && g.penalties == Penalised(e.penalties, sources)
  {
    WholeIsReset(e.sched.pieces[i], i, data, sources);
  }

  lemma WholeIsReset(p: PieceView, i: nat, data: seq<byte>, sources: seq<Peer>)
    requires Whole(p, i, data, sources)
    ensures Alone(p.MarkFailed().Reset(), i, |data|) && p.MarkFailed().Reset().sources == sources
  {
    var q := p.MarkFailed().Reset();
    assert q.states == map[0 := BlockMissing] && q.requesters.Keys == p.requesters.Keys;
  }

  lemma NextIsStep(c: Context, e: Engine, ev: Event)
    requires Inv(c, e) && Enabled(c, e, ev)
    ensures Next(c, e, ev) == Step(c, e, ev)
  {
  }

  lemma NextStarts(c: Context, f: Engine, i: nat)
    requires Inv(c, f) && i in f.tasks && f.tasks[i].Scheduled?
    ensures i < |f.sched.pieces| && Next(c, f, StartVerify(i)) == Started(f, i)
  {
    DataIsReady(c, f, i);
    NextIsStep(c, f, StartVerify(i));
  }

  lemma NextFails(c: Context, m: Engine, i: nat)
    requires Inv(c, m) && Fails(c, m, HashDone(i), i)
    ensures i < |m.sched.pieces| && Next(c, m, HashDone(i)) == HashFailed(m, i)
  {
    StepFails(c, m, i);
    NextIsStep(c, m, HashDone(i));
  }

  lemma StepFails(c: Context, m: Engine, i: nat)
    requires Inv(c, m) && Fails(c, m, HashDone(i), i)
    ensures i < |m.sched.pieces| && Step(c, m, HashDone(i)) == HashFailed(m, i)
  {
    assert TaskOk(c, m, i);
  }

  lemma VerificationFails(c: Context, f: Engine, i: nat, data: seq<byte>, sources: seq<Peer>)
    requires Inv(c, f) && c.verifyFirst && i < |f.sched.pieces| && i in f.tasks && f.tasks[i] == Scheduled
    requires Whole(f.sched.pieces[i], i, data, sources) && i < |c.torrent.hashes| && c.hash(data) != c.torrent.hashes[i]
    ensures var g := Next(c, Next(c, f, StartVerify(i)), HashDone(i));
            g == HashFailed(f.(tasks := f.tasks[i := Hashing(data)]), i)
  {
    WholeTaken(f, i, data, sources);
    NextStarts(c, f, i);
    NextFails(c, Next(c, f, StartVerify(i)), i);
  }

  lemma NextIsArrival(c: Context, e: Engine, p: Peer, i: nat, data: seq<byte>)
    requires Inv(c, e)
    ensures Next(c, e, Arrive(p, i, 0, data)) == OnBlock(e, p, i, 0, data)
  {
  }

  /** `p` sends the block, it is verified, and it does not match. */
  lemma AttemptFails(c: Context, e: Engine, p: Peer, i: nat, data: seq<byte>)
    requires Inv(c, e) && Hopeless(c, e, i, data)
    ensures var g := After(c, e, Attempt(p, i, data));
            var sources := Joined(e.sched.pieces[i].sources, p);
            && Hopeless(c, g, i, data) && g.penalties == Penalised(e.penalties, sources)
            && g.sched.pieces[i].sources == sources
  {
    var f := Next(c, e, Arrive(p, i, 0, data));
    var sources := Joined(e.sched.pieces[i].sources, p);
    ThreeTurns(c, e, Arrive(p, i, 0, data), StartVerify(i), HashDone(i));
    NextIsArrival(c, e, p, i, data);
    BlockArrives(e, p, i, data);
    VerificationFails(c, f, i, data, sources);
    WholeFails(f.(tasks := f.tasks[i := Hashing(data)]), i, data, sources);
  }

  /** A torrent of one piece of one byte that no data matches, before the first step. */
  ghost function HopelessContext(): Context {
    Context(Config(1, false, 0, 0.0), Torrent(1, 1, [[0]]), (_: seq<byte>) => [1], true)
  }

  ghost function HopelessStart(): Engine {
    var piece := PieceView(0, 1, [Block(0, 0, 1)], Missing, map[0 := BlockMissing], map[0 := {}], None, [], 0);
    Engine(Sched([piece], map[], map[], {}, None, map[], 0), Stats(0, 0, 0, 0, 0, 0, 0), {}, map[], map[],
           [0], {}, 0, 0, 0)
  }

  lemma HopelessPiece()
    ensures Theorems.Untouched(HopelessStart().sched.pieces[0], 0) && Alone(HopelessStart().sched.pieces[0], 0, 1)
  {
    var piece := HopelessStart().sched.pieces[0];
    assert piece.blocks[0].End() == 1 && Placed(piece.blocks, 0, 0) && Covers(piece.blocks, 0, 1);
    assert Offsets(piece.blocks) == {piece.blocks[0].offset};
    assert piece.states.Keys == {0} && piece.requesters.Keys == {0};
    assert 0 in piece.states;
  }

  lemma HopelessExists() returns (c: Context, e: Engine)
    ensures Start(c, e) && Hopeless(c, e, 0, [5]) && e.sched.pieces[0].sources == [] && e.penalties == map[]
  {
    c, e := HopelessContext(), HopelessStart();
    HopelessPiece();
  }

  lemma FailsAgain(c: Context, e: Engine, p: Peer, i: nat, data: seq<byte>)
    requires Reachable(c, e) && Hopeless(c, e, i, data)
    ensures var g := Later(c, e, Attempt(p, i, data));
            var sources := Joined(e.sched.pieces[i].sources, p);
            && Reachable(c, g) && Hopeless(c, g, i, data)
            && g.penalties == Penalised(e.penalties, sources) && g.sched.pieces[i].sources == sources
  {
    LaterIsReachable(c, e, Attempt(p, i, data));
    AttemptFails(c, e, p, i, data);
  }

  /** The witness: a download in which `q` is penalised for its own bad block, and again when `p`, who
      alone supplied the second attempt, sends one. */
  lemma EarlierSupplierIsBlamedAgain(q: Peer, p: Peer) returns (c: Context, e: Engine)
    requires q != p
    ensures Start(c, e) && Reachable(c, e)
    ensures var f := Later(c, e, Attempt(q, 0, [5]));
            var g := Later(c, f, Attempt(p, 0, [5]));
            && Reachable(c, f) && Reachable(c, g)
            && Penalty(f.penalties, q) == 1 && Penalty(f.penalties, p) == 0
            && Penalty(g.penalties, q) == 2 && Penalty(g.penalties, p) == 1
  {
    c, e := HopelessExists();
    StartIsReachable(c, e);
    var f := Later(c, e, Attempt(q, 0, [5]));
    FailsAgain(c, e, q, 0, [5]);
    FailsAgain(c, f, p, 0, [5]);
    TwoPenalties(q, p, f.penalties, Later(c, f, Attempt(p, 0, [5])).penalties);
  }

  lemma TwoPenalties(q: Peer, p: Peer, first: map<Peer, nat>, second: map<Peer, nat>)
    requires q != p && first == Penalised(map[], Joined([], q)) && second == Penalised(first, Joined(Joined([], q), p))
    ensures Penalty(first, q) == 1 && Penalty(first, p) == 0 && Penalty(second, q) == 2 && Penalty(second, p) == 1
  {
    assert Joined([], q) == [q] && Joined([q], p) == [q, p];
    PenalisedOnce(map[], [q], q);
    PenalisedOnce(map[], [q], p);
    PenalisedOnce(first, [q, p], q);
    PenalisedOnce(first, [q, p], p);
  }
}
