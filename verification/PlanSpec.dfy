/** What one planning pass may do, and what it must have done when it returns. */
module PlanSpec {
  import opened Basics
  import opened Blocks
  import opened Pieces
  import opened SchedulerSpec
  import opened EngineSpec
  import opened EngineProofs
  import opened SoloProofs

  // -------------------------------------------------------------------- choices

  /** The block `requestable_block` would offer `v` from piece `i`. */
  ghost function Offer(c: Config, s: Sched, v: PeerInfo, i: nat): (r: Option<BlockKey>)
    requires s.PiecesOk() && i < |s.pieces|
  {
    match s.pieces[i].FirstOffer(v.key, s.Racing(c))
    case None => None
    case Some(b) => Some(BlockKey(i, s.pieces[i].blocks[b].offset))
  }

  /** Nothing is taken from piece `i`: no offer, or only a block raced too recently. */
  ghost predicate Passed(c: Config, s: Sched, v: PeerInfo, i: nat, now: real)
    requires s.PiecesOk() && i < |s.pieces|
  {
    var k := Offer(c, s, v, i);
    k.None? || (k.value in s.endgame && !s.Stale(c, k.value, now))
  }

  /** Piece `i` is under way, and `j` is not, or has fewer blocks, or as many and a higher index. */
  ghost predicate Ahead(s: Sched, i: nat, j: nat)
    requires s.PiecesOk() && i < |s.pieces| && j < |s.pieces|
  {
    && s.pieces[i].InProgress()
    && (s.pieces[j].InProgress() ==>
          || s.pieces[i].Count(BlockReceived) > s.pieces[j].Count(BlockReceived)
          || (s.pieces[i].Count(BlockReceived) == s.pieces[j].Count(BlockReceived) && i < j))
  }

  /** Work in progress goes first, nearly finished pieces before others: a block is chosen only when every piece
      ahead of its own that the peer holds was passed over. */
  ghost predicate StartedFirst(c: Config, s: Sched, v: PeerInfo, k: BlockKey, now: real)
    requires s.PiecesOk() && k.piece < |s.pieces|
  {
    forall i :: 0 <= i < |s.pieces| && v.Has(i) && Ahead(s, i, k.piece) ==> Passed(c, s, v, i, now)
  }

  /** The block `b` is a right answer for `v` at `now`. */
  ghost predicate Chosen(c: Config, s: Sched, v: PeerInfo, b: Block, now: real)
    requires s.PiecesOk()
  {
    && b.index < |s.pieces| && b in s.pieces[b.index].blocks && v.Has(b.index)
    && Offer(c, s, v, b.index) == Some(b.Key())
    && !Passed(c, s, v, b.index, now)
    && StartedFirst(c, s, v, b.Key(), now)
  }

  /** There is no right answer for `v` at `now`. */
  ghost predicate NothingFor(c: Config, s: Sched, v: PeerInfo, now: real)
    requires s.PiecesOk()
  {
    forall i :: 0 <= i < |s.pieces| && v.Has(i) ==> Passed(c, s, v, i, now)
  }

  // --------------------------------------------------------------------- passes

  ghost predicate PlanAct(ev: Event) {
    ev.Notice? || ev.Join? || ev.Count? || ev.Prune? || ev.Assign?
  }

  /** Whether a planning step is one the scheduler takes in state `s`. */
  ghost predicate Allowed(c: Config, s: Sched, ev: Event, now: real)
    requires s.PiecesOk()
  {
    && PlanAct(ev) && RequestEnabled(c, s, ev)
    && (ev.Assign? ==>
          && ev.sentAt == now
          && StartedFirst(c, s, ev.info, ev.key, ev.seenAt))
  }

  ghost function PlanStep(c: Config, s: Sched, ev: Event, now: real): (t: Sched)
    requires s.Inv() && Allowed(c, s, ev, now)
    ensures t.Inv() && Steady(s, t)
  {
    RequestLedgers(c, s, ev);
    Requests(c, s, ev)
  }

  /** `t` is reached from `s` by the planning steps `acts`, all stamped `now`. */
  ghost predicate PassReaches(c: Config, s: Sched, acts: seq<Event>, now: real, t: Sched)
    decreases |acts|
  {
    s.Inv() &&
    if acts == [] then t == s
    else Allowed(c, s, acts[0], now) && PassReaches(c, PlanStep(c, s, acts[0], now), acts[1..], now, t)
  }

  lemma PassOne(c: Config, s: Sched, ev: Event, now: real)
    requires s.Inv() && Allowed(c, s, ev, now)
    ensures PassReaches(c, s, [ev], now, PlanStep(c, s, ev, now))
  {
    assert PassReaches(c, PlanStep(c, s, ev, now), [], now, PlanStep(c, s, ev, now));
  }

  lemma FirstAndRest<T>(a: seq<T>, b: seq<T>)
    ensures a != [] ==> a + b == [a[0]] + (a[1..] + b)
  {
  }

  lemma PassFirst(c: Config, s: Sched, ev: Event, rest: seq<Event>, now: real, t: Sched)
    requires s.Inv() && Allowed(c, s, ev, now)
    ensures PassReaches(c, PlanStep(c, s, ev, now), rest, now, t) ==> PassReaches(c, s, [ev] + rest, now, t)
  {
    assert ([ev] + rest)[1..] == rest;
  }

  /** One pass after another is a pass. */
  lemma {:induction false} PassConcat(c: Config, s: Sched, a: seq<Event>, m: Sched, b: seq<Event>, now: real, t: Sched)
    ensures PassReaches(c, s, a, now, m) && PassReaches(c, m, b, now, t) ==> PassReaches(c, s, a + b, now, t)
    decreases |a|
  {
    if a == [] {
      assert a + b == b;
    } else if PassReaches(c, s, a, now, m) {
      PassConcat(c, PlanStep(c, s, a[0], now), a[1..], m, b, now, t);
      PassFirst(c, s, a[0], a[1..] + b, now, t);
      FirstAndRest(a, b);
    }
  }

  lemma PassMore(c: Config, s: Sched, acts: seq<Event>, now: real, m: Sched, ev: Event)
    requires PassReaches(c, s, acts, now, m) && m.Inv() && Allowed(c, m, ev, now)
    ensures PassReaches(c, s, acts + [ev], now, PlanStep(c, m, ev, now))
  {
    PassOne(c, m, ev, now);
    PassConcat(c, s, acts, m, [ev], now, PlanStep(c, m, ev, now));
  }

  lemma SlotsGrow(c: Config, s: Sched, ev: Event, now: real, p: Peer)
    requires s.Inv() && Allowed(c, s, ev, now) && p in s.slots
    ensures p in PlanStep(c, s, ev, now).slots
    ensures |PlanStep(c, s, ev, now).slots[p]| >= |s.slots[p]|
  {
    if ev.Assign? && ev.info.key == p {
      assert s.slots[p].Keys <= PlanStep(c, s, ev, now).slots[p].Keys;
      SubsetSize(s.slots[p].Keys, PlanStep(c, s, ev, now).slots[p].Keys);
    }
  }

  /** A pass never empties a pipeline and never gives a peer something new to take. */
  lemma {:induction false} PassMonotone(c: Config, s: Sched, acts: seq<Event>, now: real, t: Sched, v: PeerInfo)
    requires PassReaches(c, s, acts, now, t)
    ensures Exhausted(s, v) ==> Exhausted(t, v)
    ensures v.key in s.slots ==> v.key in t.slots && |t.slots[v.key]| >= |s.slots[v.key]|
    decreases |acts|
  {
    if acts != [] {
      if Exhausted(s, v) {
        ExhaustedStays(c, s, acts[0], now, v);
      }
      if v.key in s.slots {
        SlotsGrow(c, s, acts[0], now, v.key);
      }
      PassMonotone(c, PlanStep(c, s, acts[0], now), acts[1..], now, t, v);
    }
  }

  /** The assignments among planning steps, in order. */
  ghost function Gives(acts: seq<Event>): seq<(Peer, BlockKey)> {
    if acts == [] then []
    else
      Gives(acts[..|acts| - 1]) +
      if acts[|acts| - 1].Assign? then [(acts[|acts| - 1].info.key, acts[|acts| - 1].key)] else []
  }

  lemma {:induction false} GivesConcat(a: seq<Event>, b: seq<Event>)
    ensures Gives(a + b) == Gives(a) + Gives(b)
  {
    if b == [] {
      assert a + b == a;
    } else {
      GivesConcat(a, b[..|b| - 1]);
      assert (a + b)[..|a + b| - 1] == a + b[..|b| - 1];
    }
  }

  lemma GivesMore(acts: seq<Event>, ev: Event)
    ensures Gives(acts + [ev]) == Gives(acts) + if ev.Assign? then [(ev.info.key, ev.key)] else []
  {
    assert (acts + [ev])[..|acts|] == acts;
  }

  /** A planning pass keeps every ledger consistent and touches nothing that has arrived. */
  lemma {:induction false} PassKeepsInv(c: Config, s: Sched, acts: seq<Event>, now: real, t: Sched)
    requires PassReaches(c, s, acts, now, t)
    ensures t.Inv() && Steady(s, t)
    decreases |acts|
  {
    if acts != [] {
      var m := PlanStep(c, s, acts[0], now);
      PassKeepsInv(c, m, acts[1..], now, t);
      SteadyTrans(s, m, t);
    }
  }

  lemma {:induction false} PassKeepsDrift(c: Config, s: Sched, acts: seq<Event>, now: real, t: Sched)
    requires PassReaches(c, s, acts, now, t)
    ensures t.PiecesOk() && t.Drift() == s.Drift()
    decreases |acts|
  {
    if acts != [] {
      RequestLedgers(c, s, acts[0]);
      PassKeepsDrift(c, PlanStep(c, s, acts[0], now), acts[1..], now, t);
    }
  }

  // ------------------------------------------------------------------ attendance

  /** The peer's pipeline is full, or at some moment from `now` on every piece it holds is passed over. */
  ghost predicate Attended(c: Config, s: Sched, v: PeerInfo, now: real)
    requires s.PiecesOk()
  {
    v.key in s.slots && (|s.slots[v.key]| >= c.capacity || exists t: real :: t >= now && NothingFor(c, s, v, t))
  }

  /** At some point of the pass the peer was attended to. */
  ghost predicate AttendedIn(c: Config, s: Sched, acts: seq<Event>, now: real, v: PeerInfo)
    decreases |acts|
  {
    s.Inv() &&
    (Attended(c, s, v, now) ||
     (acts != [] && Allowed(c, s, acts[0], now) && AttendedIn(c, PlanStep(c, s, acts[0], now), acts[1..], now, v)))
  }

  lemma AttendedFirst(c: Config, s: Sched, ev: Event, rest: seq<Event>, now: real, v: PeerInfo)
    requires s.Inv() && Allowed(c, s, ev, now)
    ensures AttendedIn(c, PlanStep(c, s, ev, now), rest, now, v) ==> AttendedIn(c, s, [ev] + rest, now, v)
  {
    assert ([ev] + rest)[1..] == rest;
  }

  lemma {:induction false} AttendedLater(c: Config, s: Sched, a: seq<Event>, m: Sched, b: seq<Event>, now: real,
                                         v: PeerInfo)
    ensures PassReaches(c, s, a, now, m) && AttendedIn(c, m, b, now, v) ==> AttendedIn(c, s, a + b, now, v)
    decreases |a|
  {
    if a == [] {
      assert a + b == b;
    } else if PassReaches(c, s, a, now, m) {
      AttendedLater(c, PlanStep(c, s, a[0], now), a[1..], m, b, now, v);
      AttendedFirst(c, s, a[0], a[1..] + b, now, v);
      FirstAndRest(a, b);
    }
  }

  lemma {:induction false} AttendedBefore(c: Config, s: Sched, a: seq<Event>, b: seq<Event>, now: real, v: PeerInfo)
    ensures AttendedIn(c, s, a, now, v) ==> AttendedIn(c, s, a + b, now, v)
    decreases |a|
  {
    if AttendedIn(c, s, a, now, v) && !Attended(c, s, v, now) {
      AttendedBefore(c, PlanStep(c, s, a[0], now), a[1..], b, now, v);
      AttendedFirst(c, s, a[0], a[1..] + b, now, v);
      FirstAndRest(a, b);
    }
  }

  /** Attended to at the end of a pass. */
  lemma AttendedAtEnd(c: Config, s: Sched, a: seq<Event>, m: Sched, now: real, v: PeerInfo)
    requires PassReaches(c, s, a, now, m) && m.Inv() && Attended(c, m, v, now)
    ensures AttendedIn(c, s, a, now, v)
  {
    AttendedLater(c, s, a, m, [], now, v);
    assert a + [] == a;
  }

  // ----------------------------------------------------------------- maximality

  /** The peer holds no unfinished piece with a block nobody has been asked for. */
  ghost predicate Exhausted(s: Sched, v: PeerInfo) {
    forall i :: 0 <= i < |s.pieces| && v.Has(i) && !s.pieces[i].Finished() ==> NoneMissing(s.pieces[i])
  }

  ghost predicate NoneMissing(p: PieceView) {
    forall o :: o in p.states ==> p.states[o] != BlockMissing
  }

  /** Planning changes at most one piece, by asking one more peer for one of its blocks. */
  lemma PlanPieces(c: Config, s: Sched, ev: Event, now: real)
    requires s.Inv() && Allowed(c, s, ev, now)
    ensures ev.Assign? ==>
              && s.Known(ev.key)
              && PlanStep(c, s, ev, now).pieces ==
                 s.pieces[ev.key.piece := s.pieces[ev.key.piece].MarkRequested(ev.key.offset, ev.info.key)]
    ensures !ev.Assign? ==> PlanStep(c, s, ev, now).pieces == s.pieces
  {
  }

  lemma AskingFillsNothing(p: PieceView, o: nat, v: Peer)
    requires o in p.states && o in p.requesters && NoneMissing(p)
    ensures NoneMissing(p.MarkRequested(o, v))
  {
  }

  /** Planning never makes a block missing. */
  lemma ExhaustedStays(c: Config, s: Sched, ev: Event, now: real, v: PeerInfo)
    requires s.Inv() && Allowed(c, s, ev, now) && Exhausted(s, v)
    ensures Exhausted(PlanStep(c, s, ev, now), v)
  {
    PlanPieces(c, s, ev, now);
    if ev.Assign? && NoneMissing(s.pieces[ev.key.piece]) {
      AskingFillsNothing(s.pieces[ev.key.piece], ev.key.offset, ev.info.key);
    }
  }

  /** A missing block that nobody fetches is offered, unless something before it in its piece is. */
  lemma MissingIsOffered(c: Config, s: Sched, v: PeerInfo, i: nat)
    requires s.Inv() && i < |s.pieces| && !s.pieces[i].Finished() && !NoneMissing(s.pieces[i])
    ensures Offer(c, s, v, i).Some?
  {
    var p := s.pieces[i];
    var o :| o in p.states && p.states[o] == BlockMissing;
    var b := BlockOfOffset(p, o);
    NobodyFetchesMissing(s, BlockKey(i, o));
    assert p.Offerable(b, v.key, s.Racing(c));
    assert !p.Complete();
  }

  /** Without racing, what is offered is a missing block, and nobody is fetching it. */
  lemma QuietOfferIsMissing(c: Config, s: Sched, v: PeerInfo, i: nat)
    requires s.Inv() && i < |s.pieces| && Offer(c, s, v, i).Some? && !s.Racing(c)
    ensures var k := Offer(c, s, v, i).value;
            s.Known(k) && s.pieces[i].states[k.offset] == BlockMissing && k !in s.endgame
  {
    var p, k := s.pieces[i], Offer(c, s, v, i).value;
    var b := p.FirstOffer(v.key, false).value;
    OffsetOfBlock(p, b);
    assert p.Claims();
    NobodyFetchesMissing(s, k);
  }

  /** Maximality without racing: a peer for which nothing was found is exhausted. */
  lemma PassedMeansExhausted(c: Config, s: Sched, v: PeerInfo, now: real)
    requires s.Inv() && !s.Racing(c)
    requires NothingFor(c, s, v, now)
    ensures Exhausted(s, v)
  {
    forall i | 0 <= i < |s.pieces| && v.Has(i) && !s.pieces[i].Finished()
      ensures NoneMissing(s.pieces[i])
    {
      assert Passed(c, s, v, i, now);
      if !NoneMissing(s.pieces[i]) {
        MissingIsOffered(c, s, v, i);
        QuietOfferIsMissing(c, s, v, i);
      }
    }
  }

  /** With endgame off, or before it is reached, a block is given to a peer only when no piece that the peer
      holds has a block nobody has been asked for and is started while the block's is fresh, or has more blocks
      received, or as many and a lower index. */
  lemma StartedPiecesFirst(c: Config, s: Sched, ev: Event, now: real, i: nat)
    requires s.Inv() && !s.Racing(c) && ev.Assign? && Allowed(c, s, ev, now)
    requires i < |s.pieces| && ev.info.Has(i) && s.pieces[i].InProgress()
    requires s.pieces[ev.key.piece].InProgress() ==>
               || s.pieces[i].Count(BlockReceived) > s.pieces[ev.key.piece].Count(BlockReceived)
               || (s.pieces[i].Count(BlockReceived) == s.pieces[ev.key.piece].Count(BlockReceived) && i < ev.key.piece)
    ensures NoneMissing(s.pieces[i])
  {
    assert Ahead(s, i, ev.key.piece);
    assert Passed(c, s, ev.info, i, ev.seenAt);
    if !NoneMissing(s.pieces[i]) {
      MissingIsOffered(c, s, ev.info, i);
      QuietOfferIsMissing(c, s, ev.info, i);
    }
  }

  /** While racing, maximality fails in exactly one way. A piece that still has a missing block is
      passed over if and only if the first block the peer could take from it is one that others
      are already fetching and whose oldest request is too young to race. */
  lemma RacingHidesMissing(c: Config, s: Sched, v: PeerInfo, i: nat, now: real)
    requires s.Inv() && i < |s.pieces| && !s.pieces[i].Finished() && !NoneMissing(s.pieces[i])
    ensures Offer(c, s, v, i).Some?
    ensures Passed(c, s, v, i, now) <==>
            (exists q :: s.InSlot(q, Offer(c, s, v, i).value)) &&
            forall q :: s.InSlot(q, Offer(c, s, v, i).value) ==> now - s.slots[q][Offer(c, s, v, i).value] < c.delay
    ensures Passed(c, s, v, i, now) ==>
              s.Racing(c) && s.pieces[i].states[Offer(c, s, v, i).value.offset] == BlockRequested
  {
    MissingIsOffered(c, s, v, i);
    var k := Offer(c, s, v, i).value;
    if k in s.endgame {
      var q :| q in s.endgame[k];
      assert s.Fetching(q, k);
      assert s.InSlot(q, k);
    }
    assert forall q :: s.InSlot(q, k) ==> s.Fetching(q, k);
    if Passed(c, s, v, i, now) {
      var q :| s.InSlot(q, k);
      InFlightIsRequested(s, q, k);
      if !s.Racing(c) {
        QuietOfferIsMissing(c, s, v, i);
      }
    }
  }

  /** And it does fail: while racing, giving the first of two missing blocks of a piece to one
      peer hides the second from every other peer until the delay has passed. */
  lemma RacingCanHide(c: Config, s: Sched, a: PeerInfo, v: PeerInfo, i: nat, o: nat, now: real)
    requires s.Inv() && a.key != v.key && c.delay > 0.0 && i < |s.pieces| && s.Racing(c)
    requires Offer(c, s, v, i).Some? && MayGive(c, s, a, Offer(c, s, v, i).value, now)
    requires s.pieces[i].states[Offer(c, s, v, i).value.offset] == BlockMissing
    requires o in s.pieces[i].states && s.pieces[i].states[o] == BlockMissing && o != Offer(c, s, v, i).value.offset
    ensures var t := s.Give(a.key, Offer(c, s, v, i).value, now);
            t.Inv() && Passed(c, t, v, i, now) && !NoneMissing(t.pieces[i])
  {
    var k := Offer(c, s, v, i).value;
    var t := s.Give(a.key, k, now);
    GiveKeepsInv(s, a.key, k, now);
    assert t.pieces[i].states[o] == BlockMissing;
    OfferUnchanged(c, s, a, v, i, now);
    JustGivenIsFresh(c, s, a.key, k, now);
  }

  lemma JustGivenIsFresh(c: Config, s: Sched, p: Peer, k: BlockKey, now: real)
    requires s.Inv() && s.Known(k) && s.pieces[k.piece].states[k.offset] == BlockMissing && p in s.slots
    requires c.delay > 0.0
    ensures k in s.Give(p, k, now).endgame && !s.Give(p, k, now).Stale(c, k, now)
  {
    var t := s.Give(p, k, now);
    NobodyFetchesMissing(s, k);
    forall q | t.InSlot(q, k)
      ensures q == p && t.slots[q][k] == now
    {
      assert !s.InSlot(q, k);
    }
    assert t.InSlot(p, k);
  }

  /** While racing, claiming a block for one peer does not change what another is offered. */
  lemma OfferUnchanged(c: Config, s: Sched, a: PeerInfo, v: PeerInfo, i: nat, now: real)
    requires s.Inv() && a.key != v.key && i < |s.pieces| && Offer(c, s, v, i).Some? && s.Racing(c)
    requires s.Known(Offer(c, s, v, i).value) && a.key in s.slots
    requires s.pieces[i].states[Offer(c, s, v, i).value.offset] == BlockMissing
    requires s.Give(a.key, Offer(c, s, v, i).value, now).Inv()
    ensures Offer(c, s.Give(a.key, Offer(c, s, v, i).value, now), v, i) == Offer(c, s, v, i)
  {
    var k := Offer(c, s, v, i).value;
    var t := s.Give(a.key, k, now);
    ClaimKeepsOffers(s.pieces[i], k.offset, a.key, v.key);
    assert t.pieces[i] == s.pieces[i].MarkRequested(k.offset, a.key);
    assert t.Racing(c);
  }

  lemma ClaimKeepsOffers(p: PieceView, o: nat, a: Peer, v: Peer)
    requires p.Valid() && a != v && o in p.states && p.states[o] == BlockMissing && !p.Closed()
    ensures p.MarkRequested(o, a).Shape()
    ensures p.MarkRequested(o, a).FirstOffer(v, true) == p.FirstOffer(v, true)
  {
    var q := p.MarkRequested(o, a);
    forall b | 0 <= b < |p.blocks|
      ensures q.Offerable(b, v, true) <==> p.Offerable(b, v, true)
    {
      OffsetOfBlock(p, b);
    }
  }

  // ---------------------------------------------------------------- plan safety

  /** Every assignment goes to a connected, unchoked, registered peer that holds the piece, for a
      block inside the piece that has not arrived and is not in that peer's pipeline, which keeps
      within its capacity. */
  lemma AssignmentIsSafe(c: Config, s: Sched, v: PeerInfo, k: BlockKey, seenAt: real)
    requires s.Inv() && MayGive(c, s, v, k, seenAt)
    ensures v.connected && !v.choked && v.Has(k.piece) && v.key in s.peers
    ensures s.Known(k) && s.pieces[k.piece].states[k.offset] != BlockReceived && !s.pieces[k.piece].Closed()
    ensures exists b: Block :: b in s.pieces[k.piece].blocks && b.Key() == k && b.End() <= s.pieces[k.piece].size
    ensures !s.InSlot(v.key, k)
    ensures forall now :: |s.Give(v.key, k, now).slots[v.key]| <= c.capacity
  {
    var p := s.pieces[k.piece];
    var b := p.FirstOffer(v.key, s.Racing(c)).value;
    BlockWithin(p.blocks, p.index, p.size, b);
    assert p.blocks[b] in p.blocks && p.blocks[b].Key() == k;
    assert s.InSlot(v.key, k) ==> s.Claimed(v.key, k);
    forall now
      ensures |s.Give(v.key, k, now).slots[v.key]| <= c.capacity
    {
      OneMoreSlot(s, v.key, k, now);
    }
  }

  lemma OneMoreSlot(s: Sched, p: Peer, k: BlockKey, now: real)
    requires p in s.slots && s.Known(k)
    ensures |s.Give(p, k, now).slots[p]| <= |s.slots[p]| + 1
  {
    var before := s.slots[p];
    assert before[k := now].Keys == before.Keys + {k};
    assert |before[k := now].Keys| == |before[k := now]| && |before.Keys| == |before|;
  }

  /** A block already being fetched elsewhere is given out only in endgame, and only when its oldest
      request has waited the full delay. */
  lemma SecondCopyOnlyInEndgame(c: Config, s: Sched, v: PeerInfo, k: BlockKey, seenAt: real)
    requires s.Inv() && MayGive(c, s, v, k, seenAt) && exists q :: s.InSlot(q, k)
    ensures s.unclaimed.Some? && c.endgameEnabled && s.unclaimed.value <= c.threshold
    ensures exists q :: s.InSlot(q, k) && seenAt - s.slots[q][k] >= c.delay
  {
    var q :| s.InSlot(q, k);
    assert s.Claimed(q, k) && s.Fetching(q, k);
  }
}
