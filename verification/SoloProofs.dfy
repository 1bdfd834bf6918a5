/** With endgame switched off the four ledgers agree exactly, and what goes wrong with it on. */
module SoloProofs {
  import opened Basics
  import opened Blocks
  import opened Pieces
  import opened SchedulerSpec

  /** Every block has at most one fetcher and the pieces remember exactly the live requests. */
  ghost predicate Agreed(s: Sched) {
    s.Exact() && s.Solo()
  }

  /** REQUESTED, yet in nobody's pipeline. */
  ghost predicate Stranded(s: Sched, k: BlockKey) {
    s.Known(k) && s.pieces[k.piece].states[k.offset] == BlockRequested && s.Fetchers(k) == {}
  }

  // --------------------------------------------------------------- endgame off

  /** When the ledgers agree, a block is REQUESTED exactly when one peer, and one only, holds it. */
  lemma AgreedMeansOneHolder(s: Sched, k: BlockKey)
    requires s.Inv() && Agreed(s) && s.Known(k)
    ensures s.pieces[k.piece].states[k.offset] == BlockRequested <==> exists p :: s.InSlot(p, k)
    ensures forall p, q :: s.InSlot(p, k) && s.InSlot(q, k) ==> p == q
    ensures !Stranded(s, k)
  {
    var piece := s.pieces[k.piece];
    assert piece.Claims();
    if piece.states[k.offset] == BlockRequested {
      var p :| p in piece.requesters[k.offset];
      assert s.Fetching(p, k);
      assert s.InSlot(p, k);
    }
    forall p | s.InSlot(p, k)
      ensures piece.states[k.offset] == BlockRequested
    {
      InFlightIsRequested(s, p, k);
    }
    assert forall p, q :: s.InSlot(p, k) && s.InSlot(q, k) ==> s.Fetching(p, k) && s.Fetching(q, k);
  }

  lemma GiveAgreed(s: Sched, p: Peer, k: BlockKey, now: real)
    requires Agreed(s) && p in s.slots && s.Known(k)
    requires s.pieces[k.piece].requesters[k.offset] == {}
    ensures Agreed(s.Give(p, k, now))
  {
    var t := s.Give(p, k, now);
    assert s.Fetchers(k) == {};
    forall x | t.Known(x)
      ensures t.pieces[x.piece].requesters[x.offset] == t.Fetchers(x)
    {
      assert s.Known(x);
      if x.piece == k.piece && x.offset == k.offset {
        assert x == k;
      }
    }
    forall q, r, x | t.Fetching(q, x) && t.Fetching(r, x)
      ensures q == r
    {
      if x != k {
        assert s.Fetching(q, x) && s.Fetching(r, x);
      }
    }
  }

  /** Telling the piece about every lost request keeps the ledgers equal, raced or not. */
  lemma DroppedAgreed(s: Sched, p: Peer, k: BlockKey)
    requires Agreed(s)
    ensures Agreed(s.Dropped(p, k))
  {
    var t := s.Dropped(p, k);
    forall x | t.Known(x)
      ensures t.pieces[x.piece].requesters[x.offset] == t.Fetchers(x)
    {
      assert s.Known(x);
      if x.piece == k.piece && x.offset == k.offset {
        assert x == k;
      }
    }
    forall q, r, x | t.Fetching(q, x) && t.Fetching(r, x)
      ensures q == r
    {
      assert s.Fetching(q, x) && s.Fetching(r, x);
    }
  }

  lemma OrphanedAgreed(s: Sched, p: Peer, k: BlockKey)
    requires s.Inv() && Agreed(s)
    ensures Agreed(s.Orphaned(p, k))
  {
    var s1 := s.Touch(p);
    assert Agreed(s1) by {
      assert forall x :: s1.Known(x) ==> s.Known(x);
      assert forall q, x :: s1.Fetching(q, x) <==> s.Fetching(q, x);
    }
    if s.LastFetcher(p, k) {
      DroppedAgreed(s1, p, k);
    } else {
      if k in s1.endgame {
        NotLastMeansNotThere(s1, p, k);
      }
      assert s1.EndgameWithout(p, k) == s1.endgame;
      var t := s.Orphaned(p, k);
      assert forall x :: t.Known(x) ==> s1.Known(x);
      assert forall q, x :: t.Fetching(q, x) <==> s1.Fetching(q, x);
    }
  }

  lemma NotLastMeansNotThere(s: Sched, p: Peer, k: BlockKey)
    requires s.Solo() && !s.LastFetcher(p, k) && k in s.endgame
    ensures p !in s.endgame[k] && s.endgame[k] - {p} == s.endgame[k]
  {
    var q :| q in s.endgame[k] - {p};
    assert s.Fetching(q, k);
    assert s.Fetching(p, k) ==> p == q;
  }

  lemma {:induction false} DroppedAllAgreed(s: Sched, p: Peer, keys: seq<BlockKey>)
    requires Agreed(s)
    ensures Agreed(s.DroppedAll(p, keys))
  {
    if keys != [] {
      DroppedAllAgreed(s, p, keys[..|keys| - 1]);
      DroppedAgreed(s.DroppedAll(p, keys[..|keys| - 1]), p, keys[|keys| - 1]);
    }
  }

  /** Changes that touch neither the pieces nor the endgame sets. */
  lemma SameClaimsAgreed(s: Sched, t: Sched)
    requires Agreed(s) && t.pieces == s.pieces && t.endgame == s.endgame
    ensures Agreed(t)
  {
    assert forall x :: t.Known(x) ==> s.Known(x);
    assert forall q, x :: t.Fetching(q, x) <==> s.Fetching(q, x);
  }

  /** A block whose claims are cleared and whose fetchers are forgotten together. */
  lemma ClearedAgreed(s: Sched, p: Peer, k: BlockKey, piece: PieceView)
    requires Agreed(s) && s.Known(k)
    requires piece.states.Keys == s.pieces[k.piece].states.Keys
    requires piece.requesters == s.pieces[k.piece].requesters[k.offset := {}]
    ensures Agreed(s.SetPiece(k.piece, piece).Received(p, k))
  {
    var t := s.SetPiece(k.piece, piece).Received(p, k);
    forall x | t.Known(x)
      ensures t.pieces[x.piece].requesters[x.offset] == t.Fetchers(x)
    {
      assert s.Known(x);
      if x.piece == k.piece && x.offset == k.offset {
        assert x == k;
      }
    }
    forall q, r, x | t.Fetching(q, x) && t.Fetching(r, x)
      ensures q == r
    {
      assert s.Fetching(q, x) && s.Fetching(r, x);
    }
  }

  /** A quiet piece may be replaced by one that remembers no requester. */
  lemma QuietAgreed(s: Sched, i: nat, piece: PieceView)
    requires Agreed(s) && i < |s.pieces|
    requires forall q, k :: s.Fetching(q, k) ==> k.piece != i
    requires forall o :: o in piece.requesters ==> piece.requesters[o] == {}
    ensures Agreed(s.SetPiece(i, piece))
  {
    var t := s.SetPiece(i, piece);
    forall x | t.Known(x)
      ensures t.pieces[x.piece].requesters[x.offset] == t.Fetchers(x)
    {
      if x.piece == i {
        forall q
          ensures q !in t.Fetchers(x)
        {
          assert q in t.Fetchers(x) ==> s.Fetching(q, x);
        }
      } else {
        assert s.Known(x);
      }
    }
    assert forall q, x :: t.Fetching(q, x) <==> s.Fetching(q, x);
  }

  // ---------------------------------------------------------------- endgame on

  /** Giving up one request leaves its block stranded exactly when nobody else is fetching it and
      the piece still remembers another peer: one whose own request was lost while it was raced. */
  lemma OrphanStrandsExactlyWhen(s: Sched, p: Peer, k: BlockKey)
    requires s.Inv() && s.InSlot(p, k)
    ensures Stranded(s.Orphaned(p, k), k) <==>
            s.Fetchers(k) == {p} && s.pieces[k.piece].requesters[k.offset] != {p}
  {
    InFlightIsRequested(s, p, k);
    assert s.Fetching(p, k) && s.Claimed(p, k);
    var before, t := s.pieces[k.piece], s.Orphaned(p, k);
    assert p in s.Fetchers(k) && p in before.requesters[k.offset];
    if s.LastFetcher(p, k) {
      assert s.Fetchers(k) == {p};
      assert before.Frees(k.offset, p) <==> before.requesters[k.offset] == {p};
      assert t.Fetchers(k) == {};
    } else {
      assert t.Fetchers(k) == s.Fetchers(k) - {p} != {};
    }
  }

  /** A missing block given to two peers in turn has both as fetchers and both remembered. */
  lemma RaceOpens(s: Sched, a: Peer, b: Peer, k: BlockKey, now: real, later: real)
    requires s.Inv() && a != b && {a, b} <= s.peers && a in s.slots && b in s.slots
    requires s.Known(k) && s.pieces[k.piece].states[k.offset] == BlockMissing && !s.pieces[k.piece].Closed()
    ensures
      var t := s.Give(a, k, now).Give(b, k, later);
      t.Inv() && t.Fetchers(k) == {a, b} && t.Known(k) && t.pieces[k.piece].requesters[k.offset] == {a, b}
  {
    var s1 := s.Give(a, k, now);
    GiveKeepsInv(s, a, k, now);
    NobodyFetchesMissing(s, k);
    assert s1.pieces[k.piece].states[k.offset] == BlockRequested;
    GiveKeepsInv(s1, b, k, later);
  }

  /** Losing one of two racers leaves its name on the piece. */
  lemma LoserIsRemembered(s: Sched, a: Peer, b: Peer, k: BlockKey)
    requires s.Inv() && a != b && s.Fetchers(k) == {a, b}
    ensures s.Orphaned(a, k).Inv() && s.Orphaned(a, k).Fetchers(k) == {b}
    ensures s.Orphaned(a, k).pieces == s.pieces
  {
    OrphanKeepsInv(s, a, k);
    assert b in s.endgame[k] - {a};
  }

  /** Two peers fetch a block, the first request is given up, then the second: the block ends REQUESTED
      with nobody fetching it. */
  lemma LostRaceStrands(s: Sched, a: Peer, b: Peer, k: BlockKey, now: real, later: real)
    requires s.Inv() && a != b && {a, b} <= s.peers && a in s.slots && b in s.slots
    requires s.Known(k) && s.pieces[k.piece].states[k.offset] == BlockMissing && !s.pieces[k.piece].Closed()
    ensures Stranded(s.Give(a, k, now).Give(b, k, later).Orphaned(a, k).Orphaned(b, k), k)
  {
    RaceOpens(s, a, b, k, now, later);
    var s2 := s.Give(a, k, now).Give(b, k, later);
    LoserIsRemembered(s2, a, b, k);
    var s3 := s2.Orphaned(a, k);
    assert s3.Fetching(b, k);
    assert s3.InSlot(b, k);
    OrphanStrandsExactlyWhen(s3, b, k);
  }

  lemma NobodyFetchesMissing(s: Sched, k: BlockKey)
    requires s.Inv() && s.Known(k) && s.pieces[k.piece].states[k.offset] != BlockRequested
    ensures s.Fetchers(k) == {} && s.pieces[k.piece].requesters[k.offset] == {}
    ensures k !in s.endgame
    ensures forall p :: !s.InSlot(p, k)
  {
    assert s.pieces[k.piece].Claims();
    forall p
      ensures !s.InSlot(p, k) && p !in s.Fetchers(k)
    {
      if s.InSlot(p, k) {
        InFlightIsRequested(s, p, k);
      }
      assert s.Fetching(p, k) <==> s.InSlot(p, k);
    }
  }

  /** A stranded block is offered again only while endgame is racing, and never to a peer the
      piece still remembers. */
  lemma StrandedNeedsRacing(c: Config, s: Sched, v: PeerInfo, k: BlockKey, seenAt: real)
    requires s.Inv() && Stranded(s, k) && MayGive(c, s, v, k, seenAt)
    ensures s.Racing(c) && v.key !in s.pieces[k.piece].requesters[k.offset]
  {
    var piece := s.pieces[k.piece];
    var i := piece.FirstOffer(v.key, s.Racing(c)).value;
    assert piece.Offerable(i, v.key, s.Racing(c));
    assert piece.Claims();
  }
}
