/** The mutable request scheduler (app/download/scheduler.py, app/download/endgame.py), proved to do
    to the ledgers exactly what module SchedulerSpec says. */
module SchedulerObject {
  import opened Basics
  import opened Blocks
  import opened Pieces
  import opened PieceObject
  import opened SchedulerSpec
  import opened EngineSpec
  import opened EngineProofs
  import opened PlanSpec

  class EndgameTracker {
    const enabled: bool
    const threshold: nat
    var requesters: map<BlockKey, set<Peer>>
    var duplicates: nat

    /** A negative threshold is refused with a ValueError, so there is none here. */
    constructor (enabled: bool, threshold: nat)
      ensures this.enabled == enabled && this.threshold == threshold
      ensures requesters == map[] && duplicates == 0
    {
      this.enabled, this.threshold := enabled, threshold;
      requesters, duplicates := map[], 0;
    }

    predicate Active(outstanding: int) {
      enabled && outstanding <= threshold
    }

    method NoteRequest(key: BlockKey, peer: Peer)
      modifies this
      ensures requesters ==
              old(requesters)[key := (if key in old(requesters) then old(requesters)[key] else {}) + {peer}]
      ensures duplicates ==
              old(duplicates)
              + (if key in old(requesters) && old(requesters)[key] != {} && peer !in old(requesters)[key] then 1 else 0)
    {
      var known := if key in requesters then requesters[key] else {};
      if known != {} && peer !in known {
        duplicates := duplicates + 1;
      }
      requesters := requesters[key := known + {peer}];
    }

    method NoteReceived(key: BlockKey, winner: Peer) returns (others: set<Peer>)
      modifies this
      ensures requesters == old(requesters) - {key} && duplicates == old(duplicates)
      ensures others == (if key in old(requesters) then old(requesters)[key] else {}) - {winner}
    {
      others := (if key in requesters then requesters[key] else {}) - {winner};
      requesters := requesters - {key};
    }

    method NoteLost(key: BlockKey, peer: Peer) returns (lost: bool)
      modifies this
      ensures duplicates == old(duplicates)
      ensures lost <==> key in old(requesters) && old(requesters)[key] - {peer} == {}
      ensures requesters == if key !in old(requesters) then old(requesters)
                            else if lost then old(requesters) - {key}
                            else old(requesters)[key := old(requesters)[key] - {peer}]
    {
      if key !in requesters {
        return false;
      }
      var left := requesters[key] - {peer};
      if left == {} {
        requesters := requesters - {key};
        return true;
      }
      requesters := requesters[key := left];
      return false;
    }
  }

  /** An arrival is noted field by field. */
  lemma ReceivedIs(s: Sched, p: Peer, k: BlockKey, slots: map<Peer, map<BlockKey, real>>,
                   asked: map<Peer, set<BlockKey>>, requesters: map<BlockKey, set<Peer>>)
    requires slots == s.Received(p, k).slots && requesters == s.endgame - {k}
    requires asked == if p in s.asked then s.asked[p := s.asked[p] - {k}] else s.asked
    ensures s.(slots := slots, asked := asked, endgame := requesters) == s.Received(p, k)
  {
  }

  /** Clearing the sender's pipeline and then the losers' clears every pipeline that waited. */
  lemma ReceivedSlots(s: Sched, p: Peer, k: BlockKey, losers: set<Peer>, cleared: map<Peer, map<BlockKey, real>>)
    requires losers == s.Fetchers(k) - {p}
    requires cleared == s.Touch(p).slots[p := s.Touch(p).slots[p] - {k}]
    ensures (map q | q in cleared :: if q in losers then cleared[q] - {k} else cleared[q]) == s.Received(p, k).slots
  {
    forall q | q in cleared
      ensures (if q in losers then cleared[q] - {k} else cleared[q]) == s.Received(p, k).slots[q]
    {
      ReceivedSlot(s, p, k, q);
    }
  }

  lemma ReceivedSlot(s: Sched, p: Peer, k: BlockKey, q: Peer)
    requires q in s.Touch(p).slots
    ensures var slot := s.Touch(p).slots[q];
            var cleared := if q == p then slot - {k} else slot;
            s.Received(p, k).slots[q] == if q in s.Fetchers(k) - {p} then cleared - {k} else cleared
  {
    assert q in s.Fetchers(k) <==> s.Fetching(q, k);
  }

  class Scheduler {
    const pieces: seq<Piece>
    const config: Config
    const endgame: EndgameTracker
    var slots: map<Peer, map<BlockKey, real>>
    var asked: map<Peer, set<BlockKey>>
    var peers: set<Peer>
    var unclaimed: Option<int>

    /** The pieces are separate objects and the tracker has this scheduler's settings. */
    ghost predicate Wired() {
      && (forall i, j :: 0 <= i < j < |pieces| ==> pieces[i] != pieces[j])
      && endgame.enabled == config.endgameEnabled && endgame.threshold == config.threshold
    }

    ghost function Views(): (r: seq<PieceView>)
      reads pieces
      ensures |r| == |pieces| && forall i :: 0 <= i < |pieces| ==> r[i] == pieces[i].View()
    {
      seq(|pieces|, i requires 0 <= i < |pieces| reads pieces => pieces[i].View())
    }

    ghost function State(): Sched
      reads this, pieces, endgame
    {
      Sched(Views(), slots, asked, peers, unclaimed, endgame.requesters, endgame.duplicates)
    }

    constructor (pieces: seq<Piece>, config: Config)
      requires forall i, j :: 0 <= i < j < |pieces| ==> pieces[i] != pieces[j]
      ensures Wired() && this.pieces == pieces && this.config == config && fresh(endgame)
      ensures State() == Sched(Views(), map[], map[], {}, None, map[], 0)
      ensures Views() == old(seq(|pieces|, i requires 0 <= i < |pieces| reads pieces => pieces[i].View()))
    {
      this.pieces, this.config := pieces, config;
      endgame := new EndgameTracker(config.endgameEnabled, config.threshold);
      slots, asked, peers, unclaimed := map[], map[], {}, None;
    }

    /** After a call that changed one piece, the views differ at that piece alone. */
    twostate lemma OneViewChanged(i: nat, new p: PieceView)
      requires Wired() && i < |pieces| && pieces[i].View() == p
      requires forall j :: 0 <= j < |pieces| && j != i ==> old(pieces[j].View()) == pieces[j].View()
      ensures Views() == old(Views())[i := p]
    {
    }

    // ----------------------------------------------------------------- tracking

    method Slot(peer: Peer)
      modifies this`slots
      ensures State() == old(State().Touch(peer))
    {
      if peer !in slots {
        slots := slots[peer := map[]];
      }
    }

    method Register(peer: Peer)
      modifies this`slots, this`peers
      ensures State() == old(State().Register(peer))
    {
      peers := peers + {peer};
      Slot(peer);
    }

    method Forget(peer: Peer)
      modifies this`slots, this`peers, this`asked
      ensures State() == old(State().Forget(peer))
    {
      peers := peers - {peer};
      slots := slots - {peer};
      asked := asked - {peer};
    }

    // ------------------------------------------------------------------- counts

    method UnclaimedBlocks() returns (n: int)
      requires Wired() && State().PiecesOk()
      modifies this`unclaimed
      ensures State() == old(State().Counted())
      ensures unclaimed == Some(n)
    {
      if unclaimed.Some? {
        return unclaimed.value;
      }
      n := 0;
      ghost var weights := State().UnclaimedWeights();
      for i := 0 to |pieces|
        invariant n == Sum(weights[..i])
        invariant State() == old(State())
      {
        assert pieces[i].View() == State().pieces[i];
        if pieces[i].state != Verified {
          var c := pieces[i].UnclaimedBlocks();
          n := n + c;
        }
        assert weights[..i + 1][..i] == weights[..i];
      }
      assert weights[..|pieces|] == weights;
      unclaimed := Some(n);
    }

    method PruneAsked()
      requires Wired()
      modifies this`asked
      ensures State() == old(State().Pruned())
    {
      ghost var before := State();
      var todo := asked.Keys;
      while todo != {}
        invariant todo <= asked.Keys == before.asked.Keys
        invariant forall p :: p in todo ==> asked[p] == before.asked[p]
        invariant forall p :: p in asked.Keys - todo ==>
                  asked[p] == (set k | k in before.asked[p] && !before.Settled(k))
        invariant State() == before.(asked := asked)
        decreases todo
      {
        var p :| p in todo;
        var keys := asked[p];
        asked := asked[p := set k | k in keys && !(k.piece < |pieces| && pieces[k.piece].state == Verified)];
        assert asked[p] == (set k | k in before.asked[p] && !before.Settled(k));
        todo := todo - {p};
      }
      assert asked == before.Pruned().asked;
    }

    method NotePieceReset(index: nat)
      modifies this`asked, this`unclaimed
      ensures State() == old(State().PieceReset(index))
    {
      unclaimed := None;
      ghost var before := asked;
      var todo := asked.Keys;
      while todo != {}
        invariant todo <= asked.Keys == before.Keys
        invariant forall p :: p in todo ==> asked[p] == before[p]
        invariant forall p :: p in asked.Keys - todo ==> asked[p] == (set k | k in before[p] && k.piece != index)
        invariant State() == old(State()).(asked := asked, unclaimed := None)
        decreases todo
      {
        var p :| p in todo;
        var keys := asked[p];
        asked := asked[p := set k | k in keys && k.piece != index];
        todo := todo - {p};
      }
      assert asked == map p | p in before :: set k | k in before[p] && k.piece != index;
    }

    // ------------------------------------------------------------ claiming blocks

    method Claim(key: BlockKey, peer: Peer)
      requires Wired() && State().Known(key)
      modifies this`unclaimed, pieces[key.piece]
      ensures State() == old(State().Claim(peer, key))
    {
      assert pieces[key.piece].View() == State().pieces[key.piece];
      if unclaimed.Some? && pieces[key.piece].states[key.offset] == BlockMissing {
        unclaimed := Some(unclaimed.value - 1);
      }
      pieces[key.piece].MarkRequested(key.offset, peer);
      OneViewChanged(key.piece, pieces[key.piece].View());
    }

    method Unclaim(key: BlockKey, peer: Peer)
      requires Wired() && State().PiecesOk()
      modifies this`unclaimed, pieces
      ensures State() == old(State().Unclaim(peer, key))
    {
      if key.piece < |pieces| {
        assert pieces[key.piece].View() == State().pieces[key.piece];
        var freed := pieces[key.piece].MarkOrphaned(key.offset, peer);
        if freed && unclaimed.Some? {
          unclaimed := Some(unclaimed.value + 1);
        }
        OneViewChanged(key.piece, pieces[key.piece].View());
      }
    }

    method MarkAsked(key: BlockKey, peer: Peer)
      modifies this`asked
      ensures asked == old(asked)[peer := (if peer in old(asked) then old(asked)[peer] else {}) + {key}]
    {
      asked := asked[peer := (if peer in asked then asked[peer] else {}) + {key}];
    }

    // -------------------------------------------------------------- bookkeeping

    /** The block leaves the pipelines of the peers that lost the race for it. */
    method DiscardFrom(losers: set<Peer>, key: BlockKey)
      modifies this`slots
      ensures slots == map q | q in old(slots) :: if q in losers then old(slots)[q] - {key} else old(slots)[q]
    {
      ghost var before := slots;
      var todo := losers;
      while todo != {}
        invariant todo <= losers && slots.Keys == before.Keys
        invariant forall q :: q in slots ==> slots[q] == if q in losers - todo then before[q] - {key} else before[q]
        decreases todo
      {
        var other :| other in todo;
        if other in slots {
          slots := slots[other := slots[other] - {key}];
        }
        todo := todo - {other};
      }
    }

    method NoteReceived(peer: Peer, key: BlockKey) returns (losers: set<Peer>)
      modifies this`slots, this`asked, endgame
      ensures State() == old(State().Received(peer, key))
      ensures losers == old(State().Fetchers(key)) - {peer}
    {
      ghost var before := State();
      Slot(peer);
      slots := slots[peer := slots[peer] - {key}];
      if peer in asked {
        asked := asked[peer := asked[peer] - {key}];
      }
      losers := endgame.NoteReceived(key, peer);
      ReceivedSlots(before, peer, key, losers, slots);
      DiscardFrom(losers, key);
      ReceivedIs(before, peer, key, slots, asked, endgame.requesters);
    }

    predicate HasAsked(peer: Peer, key: BlockKey)
      reads this
    {
      peer in asked && key in asked[peer]
    }

    method NoteOrphaned(peer: Peer, key: BlockKey) returns (lost: bool)
      requires Wired() && State().PiecesOk()
      modifies this`slots, this`unclaimed, endgame, pieces
      ensures State() == old(State().Orphaned(peer, key))
      ensures lost == old(State().LastFetcher(peer, key))
    {
      Slot(peer);
      slots := slots[peer := slots[peer] - {key}];
      lost := endgame.NoteLost(key, peer);
      if lost {
        Unclaim(key, peer);
      }
    }

    /** One key of a pipeline that has already been emptied. */
    method DropOne(key: BlockKey, peer: Peer)
      requires Wired() && State().PiecesOk() && peer in slots && slots[peer] == map[]
      modifies this`unclaimed, endgame, pieces
      ensures State() == old(State().Dropped(peer, key))
      ensures State().PiecesOk()
    {
      ghost var s := State();
      assert slots[peer] - {key} == slots[peer];
      assert s.SlotsWithout(peer, key) == slots;
      var _ := endgame.NoteLost(key, peer);
      assert State() == s.Lost(peer, key);
      SameCount(s, State());
      UnclaimKeepsDrift(State(), peer, key);
      Unclaim(key, peer);
    }

    method DropEach(keys: seq<BlockKey>, peer: Peer)
      requires Wired() && State().PiecesOk() && peer in slots && slots[peer] == map[]
      modifies this`unclaimed, endgame, pieces
      ensures State() == old(State().DroppedAll(peer, keys))
    {
      for i := 0 to |keys|
        invariant State() == old(State()).DroppedAll(peer, keys[..i])
        invariant State().PiecesOk()
      {
        assert keys[..i + 1][..i] == keys[..i];
        DropOne(keys[i], peer);
      }
      assert keys[..|keys|] == keys;
    }

    /** `drop_peer`: the keys come in whatever order the pipeline yields them. */
    method DropPeer(peer: Peer) returns (keys: seq<BlockKey>)
      requires Wired() && State().Inv()
      modifies this, endgame, pieces
      ensures ListsSlot(old(State()), peer, keys)
      ensures State() == old(State().PeerGone(peer, keys))
    {
      Slot(peer);
      ghost var s := State();
      keys := Enumerate(slots[peer].Keys);
      assert ListsSlot(old(State()), peer, keys);
      slots := slots[peer := map[]];
      SameCount(old(State()), State());
      DropEach(keys, peer);
      Forget(peer);
      EmptiedFirst(s, peer, keys);
    }

    /** `expire`: every request at least `limit` old, and no other, is given up. */
    method Expire(limit: real, now: real) returns (expired: seq<(Peer, BlockKey)>)
      requires Wired() && State().Inv()
      modifies this`slots, this`unclaimed, endgame, pieces
      ensures State() == old(State()).OrphanedAll(expired)
      ensures forall q, x :: (q, x) in expired <==> old(State()).InSlot(q, x) && now - old(slots)[q][x] >= limit
      ensures forall q, x :: State().InSlot(q, x) ==> now - slots[q][x] < limit
    {
      ghost var before := State();
      expired := [];
      var order := Enumerate(slots.Keys);
      for i := 0 to |order|
        invariant State() == before.OrphanedAll(expired)
        invariant forall q, x :: (q, x) in expired <==>
                    q in order[..i] && before.InSlot(q, x) && now - before.slots[q][x] >= limit
      {
        var p := order[i];
        OrphanAllKeepsInv(before, expired);
        var more := ExpireSlot(p, limit, now);
        OrphanedAllAppend(before, expired, more);
        forall q, x
          ensures (q, x) in expired + more <==>
                    q in order[..i + 1] && before.InSlot(q, x) && now - before.slots[q][x] >= limit
        {
          assert (q, x) in expired + more <==> (q, x) in expired || (q, x) in more;
          assert q in order[..i + 1] <==> q in order[..i] || q == p;
          assert before.OrphanedAll(expired).InSlot(p, x) <==> before.InSlot(p, x) && (p, x) !in expired;
        }
        expired := expired + more;
      }
      OrphanAllKeepsInv(before, expired);
      assert order[..|order|] == order;
    }

    /** The stale requests of one pipeline. */
    method ExpireSlot(p: Peer, limit: real, now: real) returns (gone: seq<(Peer, BlockKey)>)
      requires Wired() && State().Inv()
      modifies this`slots, this`unclaimed, endgame, pieces
      ensures State() == old(State()).OrphanedAll(gone)
      ensures forall q, x :: (q, x) in gone <==> q == p && old(State()).InSlot(p, x) && now - old(slots)[p][x] >= limit
    {
      ghost var before := State();
      gone := [];
      if p !in slots {
        return;
      }
      var slot := slots[p];
      var stale := Enumerate(set k | k in slot && now - slot[k] >= limit);
      for j := 0 to |stale|
        invariant State() == before.OrphanedAll(gone)
        invariant forall q, x :: (q, x) in gone <==> q == p && x in stale[..j]
      {
        OrphanAllKeepsInv(before, gone);
        var _ := NoteOrphaned(p, stale[j]);
        assert (gone + [(p, stale[j])])[..|gone|] == gone;
        gone := gone + [(p, stale[j])];
      }
      assert stale[..|stale|] == stale;
    }

    /** `cancel_piece`: every request for the piece, in whatever pipeline it is. */
    method CancelPiece(index: nat) returns (cancelled: seq<(Peer, BlockKey)>)
      requires Wired() && State().Inv()
      modifies this`slots, this`unclaimed, endgame, pieces
      ensures State() == old(State()).CancelledAll(cancelled)
      ensures forall q, x :: (q, x) in cancelled <==> old(State()).InSlot(q, x) && x.piece == index
    {
      ghost var before := State();
      cancelled := [];
      var order := Enumerate(slots.Keys);
      for i := 0 to |order|
        invariant State() == before.CancelledAll(cancelled) && slots.Keys == before.slots.Keys
        invariant forall q, x :: (q, x) in cancelled <==> q in order[..i] && before.InSlot(q, x) && x.piece == index
      {
        var p := order[i];
        CancelAllKeepsInv(before, cancelled);
        var more := CancelSlot(p, index);
        CancelledAllAppend(before, cancelled, more);
        forall q, x
          ensures (q, x) in cancelled + more <==> q in order[..i + 1] && before.InSlot(q, x) && x.piece == index
        {
          assert (q, x) in cancelled + more <==> (q, x) in cancelled || (q, x) in more;
          assert q in order[..i + 1] <==> q in order[..i] || q == p;
          assert before.CancelledAll(cancelled).InSlot(p, x) <==> before.InSlot(p, x) && (p, x) !in cancelled;
        }
        cancelled := cancelled + more;
      }
      assert order[..|order|] == order;
    }

    method CancelOne(key: BlockKey, p: Peer)
      requires Wired() && State().PiecesOk() && p in slots
      modifies this`slots, this`unclaimed, endgame, pieces
      ensures State() == old(State()).Dropped(p, key) && slots.Keys == old(slots).Keys
    {
      ghost var s := State();
      slots := slots[p := slots[p] - {key}];
      var _ := endgame.NoteLost(key, p);
      assert State() == s.Lost(p, key);
      SameCount(s, State());
      Unclaim(key, p);
    }

    method CancelSlot(p: Peer, index: nat) returns (gone: seq<(Peer, BlockKey)>)
      requires Wired() && State().Inv() && p in slots
      modifies this`slots, this`unclaimed, endgame, pieces
      ensures State() == old(State()).CancelledAll(gone) && slots.Keys == old(slots).Keys
      ensures forall q, x :: (q, x) in gone <==> q == p && old(State()).InSlot(p, x) && x.piece == index
    {
      ghost var before := State();
      gone := [];
      var slot := slots[p];
      var keys := Enumerate(set k | k in slot && k.piece == index);
      for j := 0 to |keys|
        invariant State() == before.CancelledAll(gone) && slots.Keys == before.slots.Keys
        invariant forall q, x :: (q, x) in gone <==> q == p && x in keys[..j]
      {
        CancelAllKeepsInv(before, gone);
        CancelOne(keys[j], p);
        assert (gone + [(p, keys[j])])[..|gone|] == gone;
        gone := gone + [(p, keys[j])];
      }
      assert keys[..|keys|] == keys;
    }

    // ----------------------------------------------------------------- planning

    /** Whether the oldest request for a block, if any, has had its chance. */
    method IsStale(key: BlockKey, now: real) returns (stale: bool)
      ensures stale == State().Stale(config, key, now)
    {
      var found, oldest := false, 0.0;
      var todo := slots.Keys;
      ghost var s := State();
      while todo != {}
        invariant todo <= slots.Keys
        invariant found <==> exists q :: q in slots.Keys - todo && s.InSlot(q, key)
        invariant found ==> exists q :: q in slots.Keys - todo && s.InSlot(q, key) && s.slots[q][key] == oldest
        invariant forall q :: q in slots.Keys - todo && s.InSlot(q, key) ==> oldest <= s.slots[q][key]
        decreases todo
      {
        var p :| p in todo;
        if key in slots[p] {
          assert s.InSlot(p, key);
          if !found || slots[p][key] < oldest {
            oldest := slots[p][key];
          }
          found := true;
        }
        todo := todo - {p};
      }
      return !found || now - oldest >= config.delay;
    }

    method Wanted() returns (wanted: set<nat>)
      requires Wired()
      ensures wanted == set i | 0 <= i < |pieces| && pieces[i].state != Verified && pieces[i].state != Verifying
    {
      wanted := {};
      for i := 0 to |pieces|
        invariant wanted == set j | 0 <= j < i && pieces[j].state != Verified && pieces[j].state != Verifying
      {
        if pieces[i].state != Verified && pieces[i].state != Verifying {
          wanted := wanted + {i};
        }
      }
    }

    /** Work in progress, nearly finished pieces first. */
    method Started() returns (order: seq<nat>)
      requires Wired() && State().PiecesOk()
      ensures forall j :: 0 <= j < |order| ==> order[j] < |pieces| && pieces[order[j]].InProgress()
      ensures forall i :: 0 <= i < |pieces| && pieces[i].InProgress() ==> i in order
      ensures FullestFirst(order)
    {
      var ranked := RankStarted();
      order := seq(|ranked|, j requires 0 <= j < |ranked| => ranked[j].index);
      forall i | 0 <= i < |pieces| && pieces[i].InProgress()
        ensures i in order
      {
        var r :| r in ranked && r.index == i;
        var j :| 0 <= j < |ranked| && ranked[j] == r;
        assert order[j] == i;
      }
      assert forall j :: 0 <= j < |ranked| ==> ranked[j] in ranked;
    }

    /** The started pieces, each with the number of blocks it holds, the fullest first. */
    method RankStarted() returns (ranked: seq<Ranked>)
      requires Wired() && State().PiecesOk()
      ensures InOrder(ranked)
      ensures forall r :: r in ranked ==> r.index < |pieces| && pieces[r.index].InProgress()
      ensures forall r :: r in ranked ==> r.received == State().pieces[r.index].Count(BlockReceived)
      ensures forall k :: 0 <= k < |pieces| && pieces[k].InProgress() ==> exists r :: r in ranked && r.index == k
    {
      ranked := [];
      ghost var s := State();
      for i := 0 to |pieces|
        invariant InOrder(ranked)
        invariant forall r :: r in ranked ==> r.index < i && pieces[r.index].InProgress()
        invariant forall r :: r in ranked ==> r.received == s.pieces[r.index].Count(BlockReceived)
        invariant forall k :: 0 <= k < i && pieces[k].InProgress() ==> exists r :: r in ranked && r.index == k
      {
        assert pieces[i].View() == s.pieces[i];
        var received := pieces[i].ReceivedBlocks();
        if pieces[i].state == Missing {
          NoneInState(s.pieces[i], BlockReceived);
        }
        if pieces[i].InProgress() || (pieces[i].state == Missing && received > 0) {
          ghost var before := ranked;
          ranked := Insert(ranked, Ranked(received, i));
          assert forall r :: r in before ==> r in ranked;
          assert Ranked(received, i) in ranked;
        }
      }
    }

    /** New pieces, in whatever order the selection strategy yields. */
    method Fresh() returns (order: seq<nat>)
      requires Wired()
      ensures forall j :: 0 <= j < |order| ==> order[j] < |pieces| && !pieces[order[j]].InProgress()
      ensures forall i :: 0 <= i < |pieces| && pieces[i].state != Verified && !pieces[i].InProgress() ==> i in order
    {
      order := [];
      var wanted := Wanted();
      var selected := Enumerate(wanted);
      for j := 0 to |selected|
        invariant forall x :: 0 <= x < |order| ==> order[x] < |pieces| && !pieces[order[x]].InProgress()
        invariant forall k :: k in selected[..j] && k < |pieces| && !pieces[k].InProgress() ==> k in order
      {
        assert selected[j] in wanted;
        if !pieces[selected[j]].InProgress() {
          order := order + [selected[j]];
        }
      }
      assert selected[..|selected|] == selected;
    }

    /** Pieces worth offering: work in progress first, then new pieces. */
    method Candidates() returns (order: seq<nat>, started: nat)
      requires Wired() && State().PiecesOk()
      ensures started <= |order|
      ensures forall j :: 0 <= j < |order| ==> order[j] < |pieces| && (pieces[order[j]].InProgress() <==> j < started)
      ensures forall i :: 0 <= i < |pieces| && pieces[i].InProgress() ==> i in order[..started]
      ensures forall i :: 0 <= i < |pieces| && pieces[i].state != Verified ==> i in order
      ensures FullestFirst(order[..started])
    {
      var front := Started();
      var back := Fresh();
      order, started := front + back, |front|;
      assert order[..started] == front;
    }

    /** Nearly finished pieces first, ties to the lower index. */
    ghost predicate FullestFirst(order: seq<nat>)
      requires State().PiecesOk() && forall j :: 0 <= j < |order| ==> order[j] < |pieces|
      reads this, pieces, endgame
    {
      forall a, b :: 0 <= a < b < |order| ==>
        Sooner(Ranked(State().pieces[order[a]].Count(BlockReceived), order[a]),
               Ranked(State().pieces[order[b]].Count(BlockReceived), order[b]))
    }

    /** What `_next_block` does with one candidate. */
    method TryPiece(v: PeerInfo, i: nat, racing: bool, now: real) returns (block: Option<Block>)
      requires Wired() && State().PiecesOk() && i < |pieces| && racing == State().Racing(config)
      requires forall k :: k in State().endgame ==> State().endgame[k] != {}
      ensures block.Some? ==>
                && block.value.index == i && block.value in pieces[i].blocks
                && Offer(config, State(), v, i) == Some(block.value.Key())
      ensures block.None? <==> Passed(config, State(), v, i, now)
    {
      assert pieces[i].View() == State().pieces[i];
      block := pieces[i].RequestableBlock(v.key, racing);
      if block.Some? {
        OfferedBlock(config, State(), v, i, block.value);
        var stale := IsStale(block.value.Key(), now);
        if block.value.Key() in endgame.requesters && endgame.requesters[block.value.Key()] != {} && !stale {
          return None;
        }
      }
    }

    /** The first candidate that yields a block; every candidate before it was passed over. */
    method FirstYield(order: seq<nat>, v: PeerInfo, racing: bool, now: real) returns (n: nat, block: Option<Block>)
      requires Wired() && State().PiecesOk() && v.Usable() && racing == State().Racing(config)
      requires forall k :: k in State().endgame ==> State().endgame[k] != {}
      requires forall j :: 0 <= j < |order| ==> order[j] < |pieces|
      ensures n <= |order| && (block.Some? <==> n < |order|)
      ensures forall j :: 0 <= j < n && v.Has(order[j]) ==> Passed(config, State(), v, order[j], now)
      ensures block.Some? ==>
                && v.Has(order[n]) && block.value.index == order[n] && block.value in pieces[order[n]].blocks
                && Offer(config, State(), v, order[n]) == Some(block.value.Key())
                && !Passed(config, State(), v, order[n], now)
    {
      n := 0;
      while n < |order|
        invariant 0 <= n <= |order|
        invariant forall j :: 0 <= j < n && v.Has(order[j]) ==> Passed(config, State(), v, order[j], now)
      {
        if order[n] in v.holds.value {
          block := TryPiece(v, order[n], racing, now);
          if block.Some? {
            return;
          }
        }
        n := n + 1;
      }
      block := None;
    }

    /** `_next_block`. */
    method NextBlock(v: PeerInfo, now: real) returns (block: Option<Block>)
      requires Wired() && State().PiecesOk() && unclaimed.Some? && v.Usable()
      requires forall k :: k in State().endgame ==> State().endgame[k] != {}
      ensures block.Some? ==> Chosen(config, State(), v, block.value, now)
      ensures block.None? ==> NothingFor(config, State(), v, now)
    {
      var racing := endgame.Active(unclaimed.value);
      var order, started := Candidates();
      var n;
      n, block := FirstYield(order, v, racing, now);
      if block.Some? {
        StartedWereTried(order, started, n, v, block.value, now);
      } else {
        AllWereTried(order, v, now);
      }
    }

    /** Finished pieces are not candidates, and nothing is offered from them anyway. */
    lemma AllWereTried(order: seq<nat>, v: PeerInfo, now: real)
      requires Wired() && State().PiecesOk()
      requires forall j :: 0 <= j < |order| ==> order[j] < |pieces|
      requires forall i :: 0 <= i < |pieces| && pieces[i].state != Verified ==> i in order
      requires forall j :: 0 <= j < |order| && v.Has(order[j]) ==> Passed(config, State(), v, order[j], now)
      ensures NothingFor(config, State(), v, now)
    {
      forall i | 0 <= i < |pieces| && v.Has(i)
        ensures Passed(config, State(), v, i, now)
      {
        assert pieces[i].View() == State().pieces[i];
      }
    }

    lemma StartedWereTried(order: seq<nat>, started: nat, n: nat, v: PeerInfo, b: Block, now: real)
      requires Wired() && State().PiecesOk() && started <= |order| && n < |order|
      requires forall j :: 0 <= j < |order| ==> order[j] < |pieces| && (pieces[order[j]].InProgress() <==> j < started)
      requires forall i :: 0 <= i < |pieces| && pieces[i].InProgress() ==> i in order[..started]
      requires FullestFirst(order[..started])
      requires forall j :: 0 <= j < n && v.Has(order[j]) ==> Passed(config, State(), v, order[j], now)
      requires v.Has(order[n]) && b.index == order[n] && b in pieces[b.index].blocks
      requires Offer(config, State(), v, b.index) == Some(b.Key()) && !Passed(config, State(), v, b.index, now)
      ensures Chosen(config, State(), v, b, now)
    {
      var s := State();
      forall i | 0 <= i < |s.pieces| && v.Has(i) && Ahead(s, i, order[n])
        ensures Passed(config, s, v, i, now)
      {
        StandsBefore(order, started, n, i);
      }
    }

    /** A piece ahead of the one at place `n` stands before it. */
    lemma StandsBefore(order: seq<nat>, started: nat, n: nat, i: nat)
      requires Wired() && State().PiecesOk() && started <= |order| && n < |order| && i < |pieces|
      requires forall j :: 0 <= j < |order| ==> order[j] < |pieces| && (pieces[order[j]].InProgress() <==> j < started)
      requires forall i :: 0 <= i < |pieces| && pieces[i].InProgress() ==> i in order[..started]
      requires FullestFirst(order[..started]) && Ahead(State(), i, order[n])
      ensures exists j :: 0 <= j < n && order[j] == i
    {
      var s := State();
      assert pieces[i].View() == s.pieces[i] && pieces[order[n]].View() == s.pieces[order[n]];
      var front := order[..started];
      var j :| 0 <= j < |front| && front[j] == i;
      assert order[j] == i && (n < started ==> front[n] == order[n]);
    }

    method GiveBlock(peer: Peer, block: Block, now: real)
      requires Wired() && peer in slots && State().Known(block.Key())
      modifies this, endgame, pieces
      ensures State() == old(State()).Give(peer, block.Key(), now)
    {
      var key := block.Key();
      slots := slots[peer := slots[peer][key := now]];
      Claim(key, peer);
      endgame.NoteRequest(key, peer);
      MarkAsked(key, peer);
    }

    /** Recount, then look for a block at a moment no earlier than `now`. */
    method Choose(v: PeerInfo, now: real) returns (block: Option<Block>, seenAt: real)
      requires Wired() && State().Inv() && v.Usable()
      modifies this`unclaimed
      ensures State() == old(State()).Counted() && State().PiecesOk()
      ensures seenAt >= now
      ensures block.Some? ==> Chosen(config, State(), v, block.value, seenAt)
      ensures block.None? ==> NothingFor(config, State(), v, seenAt)
    {
      SameCount(State(), State().Counted());
      var outstanding := UnclaimedBlocks();
      var reading: real := *;
      seenAt := if reading >= now then reading else now;
      block := NextBlock(v, seenAt);
    }

    /** One turn of the filling loop: recount, choose, and give if there is something to give. */
    method FillOne(v: PeerInfo, now: real) returns (block: Option<Block>, ghost acts: seq<Event>)
      requires Wired() && State().Inv() && v.Usable()
      requires v.key in slots && v.key in peers && |slots[v.key]| < config.capacity
      modifies this, endgame, pieces
      ensures PassReaches(config, old(State()), acts, now, State())
      ensures peers == old(peers) && v.key in slots
      ensures block.Some? ==> Gives(acts) == [(v.key, block.value.Key())] && |slots[v.key]| == |old(slots)[v.key]| + 1
      ensures block.None? ==> Gives(acts) == [] && AttendedIn(config, old(State()), acts, now, v)
      ensures block.None? && !config.endgameEnabled ==> Exhausted(State(), v)
    {
      ghost var s0 := State();
      var seenAt;
      block, seenAt := Choose(v, now);
      if block.None? {
        acts := [Count];
        NothingToGive(config, s0, v, now, seenAt);
      } else {
        acts := [Count, Assign(v, block.value.Key(), now, seenAt)];
        SomethingToGive(config, s0, v, block.value, now, seenAt);
        GiveBlock(v.key, block.value, now);
      }
    }

    /** One more turn, after those in `acts`. */
    method FillMore(v: PeerInfo, now: real, ghost s0: Sched, ghost acts: seq<Event>)
      returns (block: Option<Block>, ghost all: seq<Event>)
      requires Wired() && s0.Inv() && v.Usable() && PassReaches(config, s0, acts, now, State())
      requires v.key in slots && v.key in peers && |slots[v.key]| < config.capacity
      modifies this, endgame, pieces
      ensures PassReaches(config, s0, all, now, State())
      ensures peers == old(peers) && v.key in slots
      ensures block.Some? ==>
                Gives(all) == Gives(acts) + [(v.key, block.value.Key())] && |slots[v.key]| == |old(slots)[v.key]| + 1
      ensures block.None? ==> Gives(all) == Gives(acts) && AttendedIn(config, s0, all, now, v)
      ensures block.None? && !config.endgameEnabled ==> Exhausted(State(), v)
    {
      ghost var s := State();
      PassKeepsInv(config, s0, acts, now, s);
      ghost var more;
      block, more := FillOne(v, now);
      PassConcat(config, s0, acts, s, more, now, State());
      if block.None? {
        AttendedLater(config, s0, acts, s, more, now, v);
      }
      GivesConcat(acts, more);
      all := acts + more;
    }

    static lemma KeysMore(given: seq<Assignment>, a: Assignment)
      ensures Keys(given + [a]) == Keys(given) + [(a.peer, a.block.Key())]
    {
    }

    /** Fills one peer's pipeline. */
    method FillPeer(v: PeerInfo, now: real) returns (given: seq<Assignment>, ghost acts: seq<Event>)
      requires Wired() && State().Inv() && v.Usable()
      modifies this, endgame, pieces
      ensures PassReaches(config, old(State()), acts, now, State())
      ensures Gives(acts) == Keys(given) && forall a :: a in given ==> a.peer == v.key
      ensures v.key in slots && AttendedIn(config, old(State()), acts, now, v)
      ensures !config.endgameEnabled ==> |slots[v.key]| >= config.capacity || Exhausted(State(), v)
    {
      ghost var s0 := State();
      PassOne(config, s0, Join(v.key), now);
      Register(v.key);
      given, acts := [], [Join(v.key)];
      while |slots[v.key]| < config.capacity
        invariant v.key in slots && v.key in peers
        invariant PassReaches(config, s0, acts, now, State())
        invariant Gives(acts) == Keys(given) && forall a :: a in given ==> a.peer == v.key
        decreases config.capacity - |slots[v.key]|
      {
        var block;
        block, acts := FillMore(v, now, s0, acts);
        if block.None? {
          return;
        }
        KeysMore(given, Assignment(v.key, block.value));
        given := given + [Assignment(v.key, block.value)];
      }
      PassKeepsInv(config, s0, acts, now, State());
      AttendedAtEnd(config, s0, acts, State(), now, v);
    }

    /** Creates the pipeline of every candidate and orders them by how full it is. */
    method SortByLoad(infos: seq<PeerInfo>, now: real)
      returns (order: seq<PeerInfo>, ghost acts: seq<Event>, ghost at: seq<nat>)
      requires Wired() && State().Inv()
      modifies this`slots
      ensures PassReaches(config, old(State()), acts, now, State()) && Gives(acts) == []
      ensures forall v :: v in order <==> v in infos
      ensures SameLoads(old(slots), slots) && Queue(slots, infos, order, at)
    {
      ghost var s0 := State();
      order, acts, at := [], [], [];
      for i := 0 to |infos|
        invariant PassReaches(config, s0, acts, now, State()) && Gives(acts) == []
        invariant SameLoads(old(slots), slots)
        invariant Queue(slots, infos, order, at) && forall x :: x in at <==> 0 <= x < i
      {
        order, acts, at := QueueNext(infos, order, at, i, now, s0, acts);
      }
      EveryoneQueues(slots, infos, order, at);
    }

    /** Candidate `i` gets its pipeline and its place. */
    method QueueNext(infos: seq<PeerInfo>, order: seq<PeerInfo>, ghost at: seq<nat>, i: nat, now: real,
                     ghost s0: Sched, ghost acts: seq<Event>)
      returns (r: seq<PeerInfo>, ghost all: seq<Event>, ghost to: seq<nat>)
      requires Wired() && s0.Inv() && PassReaches(config, s0, acts, now, State()) && Gives(acts) == []
      requires i < |infos| && Queue(slots, infos, order, at) && forall x :: x in at <==> 0 <= x < i
      modifies this`slots
      ensures PassReaches(config, s0, all, now, State()) && Gives(all) == []
      ensures SameLoads(old(slots), slots)
      ensures Queue(slots, infos, r, to) && forall x :: x in to <==> 0 <= x < i + 1
    {
      all := NoticePeer(infos[i].key, now, s0, acts);
      SameQueue(old(slots), slots, infos, order, at);
      r, to := InsertByLoad(infos, order, at, i);
    }

    method NoticePeer(peer: Peer, now: real, ghost s0: Sched, ghost acts: seq<Event>) returns (ghost all: seq<Event>)
      requires Wired() && s0.Inv() && PassReaches(config, s0, acts, now, State()) && Gives(acts) == []
      modifies this`slots
      ensures PassReaches(config, s0, all, now, State()) && Gives(all) == []
      ensures SameLoads(old(slots), slots)
    {
      ghost var s := State();
      PassKeepsInv(config, s0, acts, now, s);
      PassMore(config, s0, acts, now, s, Notice(peer));
      GivesMore(acts, Notice(peer));
      TouchKeepsLoads(s, peer);
      Slot(peer);
      all := acts + [Notice(peer)];
    }

    method InsertByLoad(infos: seq<PeerInfo>, order: seq<PeerInfo>, ghost at: seq<nat>, i: nat)
      returns (r: seq<PeerInfo>, ghost to: seq<nat>)
      requires i < |infos| && Queue(slots, infos, order, at) && forall x :: x in at <==> 0 <= x < i
      ensures Queue(slots, infos, r, to) && forall x :: x in to <==> 0 <= x < i + 1
    {
      var v := infos[i];
      assert forall a :: 0 <= a < |at| ==> at[a] in at;
      var j := 0;
      while j < |order| && LoadOf(slots, order[j].key) <= LoadOf(slots, v.key)
        invariant 0 <= j <= |order|
        invariant forall a :: 0 <= a < j ==> LoadOf(slots, order[a].key) <= LoadOf(slots, v.key)
      {
        j := j + 1;
      }
      r := order[..j] + [v] + order[j..];
      to := at[..j] + [i] + at[j..];
      PutIn(at, j, i);
      PlaceInQueue(slots, infos, order, at, i, j, r, to);
    }

    /** One candidate: an unusable peer is skipped. */
    method Consider(v: PeerInfo, now: real) returns (given: seq<Assignment>, ghost acts: seq<Event>)
      requires Wired() && State().Inv()
      modifies this, endgame, pieces
      ensures PassReaches(config, old(State()), acts, now, State())
      ensures Gives(acts) == Keys(given) && forall a :: a in given ==> a.peer == v.key && v.Usable()
      ensures v.Usable() ==> AttendedIn(config, old(State()), acts, now, v)
      ensures !config.endgameEnabled && v.Usable() ==> Served(State(), v)
    {
      given, acts := [], [];
      if v.Usable() {
        given, acts := FillPeer(v, now);
      }
    }

    method FillAll(order: seq<PeerInfo>, now: real)
      returns (assignments: seq<Assignment>, ghost acts: seq<Event>, ghost turns: seq<nat>)
      requires Wired() && State().Inv()
      modifies this, endgame, pieces
      ensures PassReaches(config, old(State()), acts, now, State())
      ensures Gives(acts) == Keys(assignments) && InTurn(order, assignments, turns, |order|)
      ensures forall j :: 0 <= j < |order| && order[j].Usable() ==>
                AttendedIn(config, old(State()), acts, now, order[j])
      ensures !config.endgameEnabled ==> forall j :: 0 <= j < |order| && order[j].Usable() ==> Served(State(), order[j])
    {
      ghost var s0 := State();
      assignments, acts, turns := [], [], [];
      for i := 0 to |order|
        invariant PassReaches(config, s0, acts, now, State())
        invariant Gives(acts) == Keys(assignments) && InTurn(order, assignments, turns, i)
        invariant forall j :: 0 <= j < i && order[j].Usable() ==> AttendedIn(config, s0, acts, now, order[j])
        invariant !config.endgameEnabled ==> forall j :: 0 <= j < i && order[j].Usable() ==> Served(State(), order[j])
      {
        ghost var s := State();
        PassKeepsInv(config, s0, acts, now, s);
        var given;
        ghost var more;
        given, more := Consider(order[i], now);
        ghost var t := State();
        if !config.endgameEnabled {
          ServedStay(config, s, more, now, t, order, i);
        }
        AttendedStay(config, s0, acts, s, more, now, order, i);
        PassJoin(config, s0, acts, s, more, now, t, assignments, given);
        turns := OneMoreTurn(order, assignments, turns, given, i);
        acts := acts + more;
        assignments := assignments + given;
      }
    }

    /** `plan`: prunes the history, then fills the usable peers, emptiest pipeline first. Every usable peer ends
        with a full pipeline or was seen to hold nothing to take; with endgame off it then still has nothing:
        it holds no unfinished piece with a block nobody has been asked for. */
    method Plan(infos: seq<PeerInfo>, now: real) returns (assignments: seq<Assignment>, ghost acts: seq<Event>)
      requires Wired() && State().Inv()
      modifies this, endgame, pieces
      ensures PassReaches(config, old(State()), acts, now, State())
      ensures Gives(acts) == Keys(assignments)
      ensures EmptiestFirst(old(slots), infos, assignments)
      ensures forall v :: v in infos && v.Usable() ==> AttendedIn(config, old(State()), acts, now, v)
      ensures !config.endgameEnabled ==> forall v :: v in infos && v.Usable() ==> Served(State(), v)
    {
      ghost var s0 := State();
      PassOne(config, s0, Prune, now);
      PruneKeepsInv(s0);
      PruneAsked();
      ghost var more;
      assignments, more := PlanPruned(infos, now);
      PassConcat(config, s0, [Prune], s0.Pruned(), more, now, State());
      LaterAttended(config, s0, s0.Pruned(), more, now, infos);
      acts := [Prune] + more;
      GivesConcat([Prune], more);
      assert [Prune][..0] == [];
    }

    /** The pass after the history is pruned. */
    method PlanPruned(infos: seq<PeerInfo>, now: real) returns (assignments: seq<Assignment>, ghost acts: seq<Event>)
      requires Wired() && State().Inv()
      modifies this, endgame, pieces
      ensures PassReaches(config, old(State()), acts, now, State())
      ensures Gives(acts) == Keys(assignments)
      ensures EmptiestFirst(old(slots), infos, assignments)
      ensures forall v :: v in infos && v.Usable() ==> AttendedIn(config, old(State()), acts, now, v)
      ensures !config.endgameEnabled ==> forall v :: v in infos && v.Usable() ==> Served(State(), v)
    {
      ghost var s0 := State();
      ghost var more, rest, at, turns;
      var order;
      order, more, at := SortByLoad(infos, now);
      ghost var s1 := State();
      PassKeepsInv(config, s0, more, now, s1);
      assignments, rest, turns := FillAll(order, now);
      PassConcat(config, s0, more, s1, rest, now, State());
      AllAttended(config, s0, more, s1, rest, now, order);
      TurnsFollowLoads(s0.slots, s1.slots, infos, order, at, assignments, turns);
      acts := more + rest;
      GivesConcat(more, rest);
    }

    /** The pipeline of the peer is full, or the peer has nothing new to offer. */
    ghost predicate Served(s: Sched, v: PeerInfo) {
      v.key in s.slots && (|s.slots[v.key]| >= config.capacity || Exhausted(s, v))
    }

    /** Whoever was served before a pass is served after it. */
    lemma ServedStay(c: Config, s: Sched, acts: seq<Event>, now: real, t: Sched, order: seq<PeerInfo>, n: nat)
      requires PassReaches(c, s, acts, now, t) && n < |order|
      requires forall j :: 0 <= j < n && order[j].Usable() ==> Served(s, order[j])
      requires order[n].Usable() ==> Served(t, order[n])
      ensures forall j :: 0 <= j < n + 1 && order[j].Usable() ==> Served(t, order[j])
    {
      forall j | 0 <= j < n + 1 && order[j].Usable()
        ensures Served(t, order[j])
      {
        if j < n {
          PassMonotone(c, s, acts, now, t, order[j]);
        }
      }
    }
  }

  /** How many requests are outstanding with a peer; a peer without a pipeline has none. */
  function LoadOf(slots: map<Peer, map<BlockKey, real>>, p: Peer): nat {
    if p in slots then |slots[p]| else 0
  }

  ghost predicate SameLoads(a: map<Peer, map<BlockKey, real>>, b: map<Peer, map<BlockKey, real>>) {
    forall p :: LoadOf(a, p) == LoadOf(b, p)
  }

  lemma TouchKeepsLoads(s: Sched, peer: Peer)
    ensures SameLoads(s.slots, s.Touch(peer).slots)
  {
  }

  /** The candidates at the places `at`, emptiest pipeline first, those with equal pipelines as they were given. */
  ghost predicate Queue(slots: map<Peer, map<BlockKey, real>>, infos: seq<PeerInfo>, order: seq<PeerInfo>,
                        at: seq<nat>)
  {
    && |at| == |order|
    && (forall a :: 0 <= a < |at| ==> at[a] < |infos| && order[a] == infos[at[a]])
    && forall a, b :: 0 <= a < b < |at| ==>
         || LoadOf(slots, order[a].key) < LoadOf(slots, order[b].key)
         || (LoadOf(slots, order[a].key) == LoadOf(slots, order[b].key) && at[a] < at[b])
  }

  lemma PutIn(at: seq<nat>, j: nat, i: nat)
    requires j <= |at|
    ensures forall x :: x in at[..j] + [i] + at[j..] <==> x in at || x == i
  {
    assert at == at[..j] + at[j..];
    assert forall x :: x in at[..j] + at[j..] <==> x in at[..j] || x in at[j..];
  }

  /** A later candidate goes behind everybody with a pipeline no fuller than its own. */
  lemma PlaceInQueue(slots: map<Peer, map<BlockKey, real>>, infos: seq<PeerInfo>, order: seq<PeerInfo>, at: seq<nat>,
                     i: nat, j: nat, r: seq<PeerInfo>, to: seq<nat>)
    requires i < |infos| && Queue(slots, infos, order, at) && forall a :: 0 <= a < |at| ==> at[a] < i
    requires j <= |order| && r == order[..j] + [infos[i]] + order[j..] && to == at[..j] + [i] + at[j..]
    requires forall a :: 0 <= a < j ==> LoadOf(slots, order[a].key) <= LoadOf(slots, infos[i].key)
    requires j < |order| ==> LoadOf(slots, order[j].key) > LoadOf(slots, infos[i].key)
    ensures Queue(slots, infos, r, to)
  {
    forall a, b | 0 <= a < b < |to|
      ensures LoadOf(slots, r[a].key) < LoadOf(slots, r[b].key)
              || (LoadOf(slots, r[a].key) == LoadOf(slots, r[b].key) && to[a] < to[b])
    {
      var x, y := if a < j then a else a - 1, if b < j then b else b - 1;
      assert a != j ==> r[a] == order[x] && to[a] == at[x];
      assert b != j ==> r[b] == order[y] && to[b] == at[y];
    }
  }

  /** A queue of all places is a queue of all candidates. */
  lemma EveryoneQueues(slots: map<Peer, map<BlockKey, real>>, infos: seq<PeerInfo>, order: seq<PeerInfo>, at: seq<nat>)
    requires Queue(slots, infos, order, at) && forall x :: x in at <==> 0 <= x < |infos|
    ensures forall v :: v in order <==> v in infos
  {
    forall v | v in infos
      ensures v in order
    {
      var x :| 0 <= x < |infos| && infos[x] == v;
      assert x in at;
    }
  }

  lemma SameQueue(a: map<Peer, map<BlockKey, real>>, b: map<Peer, map<BlockKey, real>>, infos: seq<PeerInfo>,
                  order: seq<PeerInfo>, at: seq<nat>)
    requires SameLoads(a, b) && Queue(a, infos, order, at)
    ensures Queue(b, infos, order, at)
  {
  }

  /** Each assignment is to the usable candidate whose turn it was, turn after turn. */
  ghost predicate InTurn(order: seq<PeerInfo>, assignments: seq<Assignment>, turns: seq<nat>, n: nat) {
    && |turns| == |assignments| && n <= |order|
    && (forall x :: 0 <= x < |turns| ==>
          turns[x] < n && order[turns[x]].Usable() && assignments[x].peer == order[turns[x]].key)
    && forall x, y :: 0 <= x < y < |turns| ==> turns[x] <= turns[y]
  }

  lemma OneMoreTurn(order: seq<PeerInfo>, assignments: seq<Assignment>, turns: seq<nat>, given: seq<Assignment>, i: nat)
    returns (more: seq<nat>)
    requires i < |order| && InTurn(order, assignments, turns, i)
    requires forall a :: a in given ==> a.peer == order[i].key && order[i].Usable()
    ensures InTurn(order, assignments + given, more, i + 1)
  {
    more := turns + seq(|given|, _ => i);
    var all := assignments + given;
    forall x | 0 <= x < |more|
      ensures more[x] < i + 1 && order[more[x]].Usable() && all[x].peer == order[more[x]].key
    {
      if x < |turns| {
        assert all[x] == assignments[x] && more[x] == turns[x];
      } else {
        assert all[x] == given[x - |turns|] && all[x] in given;
      }
    }
  }

  /** `p` was named in the list no later than some mention of `q`. */
  ghost predicate NamedBefore(infos: seq<PeerInfo>, p: Peer, q: Peer) {
    exists i, j :: 0 <= i <= j < |infos| && infos[i].key == p && infos[j].key == q
  }

  /** Assignments go to usable candidates in the order of how full their pipelines were, those with equal
      pipelines in the order they were given in. */
  ghost predicate EmptiestFirst(slots: map<Peer, map<BlockKey, real>>, infos: seq<PeerInfo>, given: seq<Assignment>) {
    && (forall a :: a in given ==> exists v :: v in infos && v.Usable() && v.key == a.peer)
    && (forall a, b :: 0 <= a < b < |given| ==> LoadOf(slots, given[a].peer) <= LoadOf(slots, given[b].peer))
    && forall a, b :: 0 <= a < b < |given| ==>
         || LoadOf(slots, given[a].peer) != LoadOf(slots, given[b].peer)
         || NamedBefore(infos, given[a].peer, given[b].peer)
  }

  /** Turns follow the queue, so assignments follow the loads. */
  lemma TurnsFollowLoads(before: map<Peer, map<BlockKey, real>>, slots: map<Peer, map<BlockKey, real>>,
                         infos: seq<PeerInfo>, order: seq<PeerInfo>, at: seq<nat>, given: seq<Assignment>,
                         turns: seq<nat>)
    requires SameLoads(before, slots) && Queue(slots, infos, order, at) && InTurn(order, given, turns, |order|)
    ensures EmptiestFirst(before, infos, given)
  {
    forall a | a in given
      ensures exists v :: v in infos && v.Usable() && v.key == a.peer
    {
      var x :| 0 <= x < |given| && given[x] == a;
      assert order[turns[x]] in infos;
    }
    forall a, b | 0 <= a < b < |given|
      ensures LoadOf(before, given[a].peer) <= LoadOf(before, given[b].peer)
      ensures LoadOf(before, given[a].peer) != LoadOf(before, given[b].peer)
              || NamedBefore(infos, given[a].peer, given[b].peer)
    {
      var x, y := turns[a], turns[b];
      assert infos[at[x]].key == given[a].peer && infos[at[y]].key == given[b].peer;
    }
  }

  lemma AttendedStay(c: Config, s0: Sched, acts: seq<Event>, s: Sched, more: seq<Event>, now: real,
                     order: seq<PeerInfo>, i: nat)
    requires PassReaches(c, s0, acts, now, s) && i < |order|
    requires forall j :: 0 <= j < i && order[j].Usable() ==> AttendedIn(c, s0, acts, now, order[j])
    requires order[i].Usable() ==> AttendedIn(c, s, more, now, order[i])
    ensures forall j :: 0 <= j < i + 1 && order[j].Usable() ==> AttendedIn(c, s0, acts + more, now, order[j])
  {
    forall j | 0 <= j < i + 1 && order[j].Usable()
      ensures AttendedIn(c, s0, acts + more, now, order[j])
    {
      if j < i {
        AttendedBefore(c, s0, acts, more, now, order[j]);
      } else {
        AttendedLater(c, s0, acts, s, more, now, order[j]);
      }
    }
  }

  lemma AllAttended(c: Config, s0: Sched, a: seq<Event>, s: Sched, b: seq<Event>, now: real, order: seq<PeerInfo>)
    requires PassReaches(c, s0, a, now, s)
    requires forall j :: 0 <= j < |order| && order[j].Usable() ==> AttendedIn(c, s, b, now, order[j])
    ensures forall v :: v in order && v.Usable() ==> AttendedIn(c, s0, a + b, now, v)
  {
    forall v | v in order && v.Usable()
      ensures AttendedIn(c, s0, a + b, now, v)
    {
      AttendedLater(c, s0, a, s, b, now, v);
    }
  }

  lemma LaterAttended(c: Config, s0: Sched, s: Sched, acts: seq<Event>, now: real, infos: seq<PeerInfo>)
    requires PassReaches(c, s0, [Prune], now, s)
    requires forall v :: v in infos && v.Usable() ==> AttendedIn(c, s, acts, now, v)
    ensures forall v :: v in infos && v.Usable() ==> AttendedIn(c, s0, [Prune] + acts, now, v)
  {
    forall v | v in infos && v.Usable()
      ensures AttendedIn(c, s0, [Prune] + acts, now, v)
    {
      AttendedLater(c, s0, [Prune], s, acts, now, v);
    }
  }

  lemma PassJoin(c: Config, s: Sched, a: seq<Event>, m: Sched, b: seq<Event>, now: real, t: Sched,
                 x: seq<Assignment>, y: seq<Assignment>)
    requires PassReaches(c, s, a, now, m) && PassReaches(c, m, b, now, t)
    requires Gives(a) == Keys(x) && Gives(b) == Keys(y)
    ensures PassReaches(c, s, a + b, now, t) && Gives(a + b) == Keys(x + y)
  {
    PassConcat(c, s, a, m, b, now, t);
    GivesConcat(a, b);
  }

  lemma NothingToGive(c: Config, s: Sched, v: PeerInfo, now: real, seenAt: real)
    requires s.Inv() && NothingFor(c, s.Counted(), v, seenAt) && seenAt >= now && v.key in s.slots
    ensures PassReaches(c, s, [Count], now, s.Counted()) && Gives([Count]) == []
    ensures AttendedIn(c, s, [Count], now, v)
    ensures !c.endgameEnabled ==> Exhausted(s.Counted(), v)
  {
    PassOne(c, s, Count, now);
    CountedKeepsInv(s);
    AttendedAtEnd(c, s, [Count], s.Counted(), now, v);
    assert [Count][..0] == [];
    if !c.endgameEnabled {
      PassedMeansExhausted(c, s.Counted(), v, seenAt);
    }
  }

  /** The two planning steps of one turn. */
  lemma TurnIsAPass(c: Config, s: Sched, ev: Event, now: real)
    requires s.Inv() && s.Counted().Inv() && Allowed(c, s.Counted(), ev, now)
    ensures PassReaches(c, s, [Count, ev], now, PlanStep(c, s.Counted(), ev, now))
    ensures Gives([Count, ev]) == if ev.Assign? then [(ev.info.key, ev.key)] else []
  {
    PassOne(c, s, Count, now);
    PassMore(c, s, [Count], now, s.Counted(), ev);
    assert [Count] + [ev] == [Count, ev];
    GivesMore([Count], ev);
    assert [Count][..0] == [];
  }

  lemma SomethingToGive(c: Config, s: Sched, v: PeerInfo, b: Block, now: real, seenAt: real)
    requires s.Inv() && v.Usable() && s.Counted().PiecesOk() && Chosen(c, s.Counted(), v, b, seenAt)
    requires v.key in s.slots && v.key in s.peers && |s.slots[v.key]| < c.capacity
    ensures s.Counted().Known(b.Key()) && v.key in s.Counted().slots
    ensures PassReaches(c, s, [Count, Assign(v, b.Key(), now, seenAt)], now, s.Counted().Give(v.key, b.Key(), now))
    ensures Gives([Count, Assign(v, b.Key(), now, seenAt)]) == [(v.key, b.Key())]
    ensures |s.Counted().Give(v.key, b.Key(), now).slots[v.key]| == |s.slots[v.key]| + 1
  {
    CountedKeepsInv(s);
    ChosenMayBeGiven(c, s.Counted(), v, b, now, seenAt);
    TurnIsAPass(c, s, Assign(v, b.Key(), now, seenAt), now);
    PipelineGrows(s.Counted(), v.key, b.Key(), now);
  }

  lemma PipelineGrows(s: Sched, p: Peer, k: BlockKey, now: real)
    requires p in s.slots && s.Known(k) && !s.InSlot(p, k)
    ensures |s.Give(p, k, now).slots[p]| == |s.slots[p]| + 1
  {
    assert s.Give(p, k, now).slots[p].Keys == s.slots[p].Keys + {k};
  }

  datatype Assignment = Assignment(peer: Peer, block: Block)

  ghost function Keys(given: seq<Assignment>): seq<(Peer, BlockKey)> {
    seq(|given|, i requires 0 <= i < |given| => (given[i].peer, given[i].block.Key()))
  }

  lemma ChosenMayBeGiven(c: Config, s: Sched, v: PeerInfo, b: Block, now: real, seenAt: real)
    requires s.Inv() && v.Usable() && s.unclaimed.Some? && Chosen(c, s, v, b, seenAt)
    requires v.key in s.slots && v.key in s.peers && |s.slots[v.key]| < c.capacity
    ensures Allowed(c, s, Assign(v, b.Key(), now, seenAt), now)
    ensures !s.InSlot(v.key, b.Key())
  {
    var p := s.pieces[b.index];
    OffsetOfBlock(p, p.FirstOffer(v.key, s.Racing(c)).value);
    AssignmentIsSafe(c, s, v, b.Key(), seenAt);
  }

  datatype Ranked = Ranked(received: int, index: nat)

  predicate Sooner(a: Ranked, b: Ranked) {
    a.received > b.received || (a.received == b.received && a.index < b.index)
  }

  ghost predicate InOrder(r: seq<Ranked>) {
    forall a, b :: 0 <= a < b < |r| ==> Sooner(r[a], r[b])
  }

  method Insert(r: seq<Ranked>, x: Ranked) returns (q: seq<Ranked>)
    requires InOrder(r) && forall j :: 0 <= j < |r| ==> r[j].index != x.index
    ensures InOrder(q) && |q| == |r| + 1
    ensures forall y :: y in q <==> y in r || y == x
  {
    var j := 0;
    while j < |r| && Sooner(r[j], x)
      invariant 0 <= j <= |r|
      invariant forall a :: 0 <= a < j ==> Sooner(r[a], x)
    {
      j := j + 1;
    }
    q := r[..j] + [x] + r[j..];
  }

  lemma OfferedBlock(c: Config, s: Sched, v: PeerInfo, i: nat, b: Block)
    requires s.PiecesOk() && i < |s.pieces|
    requires s.pieces[i].FirstOffer(v.key, s.Racing(c)).Some?
    requires b == s.pieces[i].blocks[s.pieces[i].FirstOffer(v.key, s.Racing(c)).value]
    ensures Offer(c, s, v, i) == Some(b.Key()) && b.index == i
  {
    var n := s.pieces[i].FirstOffer(v.key, s.Racing(c)).value;
    BlockWithin(s.pieces[i].blocks, s.pieces[i].index, s.pieces[i].size, n);
  }

  lemma {:induction false} OrphanedAllAppend(s: Sched, a: seq<(Peer, BlockKey)>, b: seq<(Peer, BlockKey)>)
    ensures s.OrphanedAll(a).OrphanedAll(b) == s.OrphanedAll(a + b)
  {
    if b == [] {
      assert a + b == a;
    } else {
      OrphanedAllAppend(s, a, b[..|b| - 1]);
      assert (a + b)[..|a + b| - 1] == a + b[..|b| - 1];
    }
  }

  lemma {:induction false} CancelledAllAppend(s: Sched, a: seq<(Peer, BlockKey)>, b: seq<(Peer, BlockKey)>)
    ensures s.CancelledAll(a).CancelledAll(b) == s.CancelledAll(a + b)
  {
    if b == [] {
      assert a + b == a;
    } else {
      CancelledAllAppend(s, a, b[..|b| - 1]);
      assert (a + b)[..|a + b| - 1] == a + b[..|b| - 1];
    }
  }

  method Enumerate<T(==)>(items: set<T>) returns (r: seq<T>)
    ensures forall x :: x in r <==> x in items
    ensures forall i, j :: 0 <= i < j < |r| ==> r[i] != r[j]
  {
    r := [];
    var todo := items;
    while todo != {}
      invariant todo <= items
      invariant forall x :: x in r <==> x in items && x !in todo
      invariant forall i, j :: 0 <= i < j < |r| ==> r[i] != r[j]
      decreases todo
    {
      var x :| x in todo;
      r := r + [x];
      todo := todo - {x};
    }
  }
}
