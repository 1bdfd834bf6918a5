/** The request ledgers of the download engine as one value, and what each operation of
    app/download/scheduler.py and app/download/endgame.py does to them. */
module SchedulerSpec {
  import opened Basics
  import opened Blocks
  import opened Pieces

  datatype Config = Config(capacity: nat, endgameEnabled: bool, threshold: nat, delay: real)

  /** What the scheduler can see of a connection; `holds` is None until a bitfield is known. */
  datatype PeerInfo = PeerInfo(key: Peer, connected: bool, choked: bool, holds: Option<set<nat>>) {
    predicate Usable() {
      connected && !choked && holds.Some?
    }

    predicate Has(i: nat) {
      holds.Some? && i in holds.value
    }
  }

  datatype Sched = Sched(
    pieces: seq<PieceView>,
    slots: map<Peer, map<BlockKey, real>>,
    asked: map<Peer, set<BlockKey>>,
    peers: set<Peer>,
    unclaimed: Option<int>,
    endgame: map<BlockKey, set<Peer>>,
    races: nat)
  {
    // ---------------------------------------------------------------- queries

    predicate InSlot(p: Peer, k: BlockKey) {
      p in slots && k in slots[p]
    }

    predicate Fetching(p: Peer, k: BlockKey) {
      k in endgame && p in endgame[k]
    }

    predicate WasAsked(p: Peer, k: BlockKey) {
      p in asked && k in asked[p]
    }

    predicate Known(k: BlockKey) {
      k.piece < |pieces| && k.offset in pieces[k.piece].states && k.offset in pieces[k.piece].requesters
    }

    predicate Claimed(p: Peer, k: BlockKey) {
      Known(k) && p in pieces[k.piece].requesters[k.offset]
    }

    function Fetchers(k: BlockKey): set<Peer> {
      if k in endgame then endgame[k] else {}
    }

    /** `_stale`: nobody is timed on the block, or its oldest request has had its chance. */
    ghost predicate Stale(c: Config, k: BlockKey, now: real) {
      (exists q :: InSlot(q, k)) ==> exists q :: InSlot(q, k) && now - slots[q][k] >= c.delay
    }

    predicate Racing(c: Config) {
      unclaimed.Some? && c.endgameEnabled && unclaimed.value <= c.threshold
    }

    // -------------------------------------------------------------- invariant

    ghost predicate PiecesOk() {
      forall i :: 0 <= i < |pieces| ==> pieces[i].Valid() && pieces[i].index == i
    }

    /** The peer pipelines and the endgame sets are two views of the same pairs, and every pair
        is backed by a registered peer, the asked history and a claim on the block. */
    ghost predicate Linked() {
      && (forall p, k :: InSlot(p, k) <==> Fetching(p, k))
      && (forall k :: k in endgame ==> endgame[k] != {})
      && (forall p, k :: InSlot(p, k) ==> p in peers && WasAsked(p, k) && Claimed(p, k))
    }

    ghost predicate Inv() {
      PiecesOk() && Linked()
    }

    /** The claims remembered by the pieces are exactly the live requests. */
    ghost predicate Exact() {
      forall k :: Known(k) ==> pieces[k.piece].requesters[k.offset] == Fetchers(k)
    }

    /** No block is being fetched from two peers. */
    ghost predicate Solo() {
      forall p, q, k :: Fetching(p, k) && Fetching(q, k) ==> p == q
    }

    // ------------------------------------------------------- unclaimed counts

    ghost function UnclaimedWeights(): seq<int>
      requires PiecesOk()
    {
      seq(|pieces|, i requires 0 <= i < |pieces| =>
        if pieces[i].Finished() then 0 else pieces[i].Count(BlockMissing))
    }

    /** What `unclaimed_blocks` would compute if it recounted now. */
    ghost function TrueUnclaimed(): int
      requires PiecesOk()
    {
      Sum(UnclaimedWeights())
    }

    /** How far the cached count is above a recount. */
    ghost function Drift(): int
      requires PiecesOk()
    {
      if unclaimed.Some? then unclaimed.value - TrueUnclaimed() else 0
    }

    // ------------------------------------------------------------- operations

    ghost function SetPiece(i: nat, p: PieceView): Sched
      requires i < |pieces|
    {
      this.(pieces := pieces[i := p])
    }

    /** `slot`: the pipeline of a peer, created on first use. */
    function Touch(p: Peer): Sched {
      if p in slots then this else this.(slots := slots[p := map[]])
    }

    function Register(p: Peer): Sched {
      this.(peers := peers + {p}).Touch(p)
    }

    function Forget(p: Peer): Sched {
      this.(peers := peers - {p}, slots := slots - {p}, asked := asked - {p})
    }

    function SlotsWithout(p: Peer, k: BlockKey): map<Peer, map<BlockKey, real>> {
      if p in slots then slots[p := slots[p] - {k}] else slots
    }

    function EndgameWithout(p: Peer, k: BlockKey): map<BlockKey, set<Peer>> {
      if k !in endgame then endgame
      else if endgame[k] - {p} == {} then endgame - {k}
      else endgame[k := endgame[k] - {p}]
    }

    /** `note_lost` answers True when this was the last request for the block. */
    predicate LastFetcher(p: Peer, k: BlockKey) {
      k in endgame && endgame[k] - {p} == {}
    }

    ghost function Claim(p: Peer, k: BlockKey): Sched
      requires Known(k)
    {
      var piece := pieces[k.piece];
      SetPiece(k.piece, piece.MarkRequested(k.offset, p)).(
      unclaimed := if unclaimed.Some? && piece.states[k.offset] == BlockMissing then Some(unclaimed.value - 1)
                   else unclaimed)
    }

    ghost function Unclaim(p: Peer, k: BlockKey): Sched {
      if k.piece >= |pieces| then this
      else
        var piece := pieces[k.piece];
        SetPiece(k.piece, piece.MarkOrphaned(k.offset, p)).(
        unclaimed := if unclaimed.Some? && piece.Frees(k.offset, p) then Some(unclaimed.value + 1) else unclaimed)
    }

    /** One turn of the planning loop: slot, claim, endgame and history, in that order. */
    ghost function Give(p: Peer, k: BlockKey, now: real): Sched
      requires p in slots && Known(k)
    {
      this.(slots := slots[p := slots[p][k := now]]).Claim(p, k).(
      endgame := endgame[k := Fetchers(k) + {p}],
      races := if Fetchers(k) != {} && p !in Fetchers(k) then races + 1 else races,
      asked := asked[p := (if p in asked then asked[p] else {}) + {k}])
    }

    /** `unclaimed_blocks`: fill the cache if it is empty. */
    ghost function Counted(): Sched
      requires PiecesOk()
    {
      if unclaimed.Some? then this else this.(unclaimed := Some(TrueUnclaimed()))
    }

    predicate Settled(k: BlockKey) {
      k.piece < |pieces| && pieces[k.piece].Finished()
    }

    /** `_prune_asked`: forget the history of finished pieces. */
    function Pruned(): Sched {
      this.(asked := map p | p in asked :: set k | k in asked[p] && !Settled(k))
    }

    function ForgetPiece(i: nat): Sched {
      this.(asked := map p | p in asked :: set k | k in asked[p] && k.piece != i)
    }

    function PieceReset(i: nat): Sched {
      ForgetPiece(i).(unclaimed := None)
    }

    /** `note_received`: the block leaves every pipeline that was waiting for it. */
    function Received(p: Peer, k: BlockKey): Sched {
      var s := Touch(p);
      s.(slots := map q | q in s.slots :: if q == p || Fetching(q, k) then s.slots[q] - {k} else s.slots[q],
         asked := if p in asked then asked[p := asked[p] - {k}] else asked,
         endgame := endgame - {k})
    }

    /** The request leaves the pipeline and the endgame set; the piece is not told. */
    function Lost(p: Peer, k: BlockKey): Sched {
      this.(slots := SlotsWithout(p, k), endgame := EndgameWithout(p, k))
    }

    /** `note_orphaned`: the piece hears of it only when the last fetcher is lost. */
    ghost function Orphaned(p: Peer, k: BlockKey): Sched {
      var t := Touch(p).Lost(p, k);
      if LastFetcher(p, k) then t.Unclaim(p, k) else t
    }

    /** One key of `drop_peer`: unlike `note_orphaned`, the piece always hears of it. */
    ghost function Dropped(p: Peer, k: BlockKey): Sched {
      Lost(p, k).Unclaim(p, k)
    }

    ghost function DroppedAll(p: Peer, keys: seq<BlockKey>): Sched {
      if keys == [] then this else DroppedAll(p, keys[..|keys| - 1]).Dropped(p, keys[|keys| - 1])
    }

    /** `expire`, request by request. */
    ghost function OrphanedAll(pairs: seq<(Peer, BlockKey)>): Sched {
      if pairs == [] then this
      else OrphanedAll(pairs[..|pairs| - 1]).Orphaned(pairs[|pairs| - 1].0, pairs[|pairs| - 1].1)
    }

    /** `cancel_piece`, request by request. */
    ghost function CancelledAll(pairs: seq<(Peer, BlockKey)>): Sched {
      if pairs == [] then this
      else CancelledAll(pairs[..|pairs| - 1]).Dropped(pairs[|pairs| - 1].0, pairs[|pairs| - 1].1)
    }

    /** `drop_peer`, with the order in which its outstanding keys were walked. */
    ghost function PeerGone(p: Peer, keys: seq<BlockKey>): Sched {
      Touch(p).DroppedAll(p, keys).Forget(p)
    }
  }

  /** `keys` lists the outstanding blocks of `p`, each once. */
  ghost predicate ListsSlot(s: Sched, p: Peer, keys: seq<BlockKey>) {
    && (forall k :: k in keys <==> s.InSlot(p, k))
    && forall i, j :: 0 <= i < j < |keys| ==> keys[i] != keys[j]
  }

  /** What `_next_block` guarantees about the block it returns for `v`. */
  ghost predicate MayGive(c: Config, s: Sched, v: PeerInfo, k: BlockKey, seenAt: real)
    requires s.PiecesOk()
  {
    && v.Usable() && v.Has(k.piece)
    && s.Known(k)
    && s.pieces[k.piece].FirstOffer(v.key, s.Racing(c)).Some?
    && s.pieces[k.piece].blocks[s.pieces[k.piece].FirstOffer(v.key, s.Racing(c)).value].offset == k.offset
    && (k in s.endgame ==> s.Stale(c, k, seenAt))
    && v.key in s.peers && v.key in s.slots && |s.slots[v.key]| < c.capacity
    && s.unclaimed.Some?
  }

  // ------------------------------------------------------------ piece updates

  lemma SetPieceOk(s: Sched, i: nat, p: PieceView)
    requires s.PiecesOk() && i < |s.pieces| && p.Valid() && p.index == i
    ensures s.SetPiece(i, p).PiecesOk()
    ensures s.SetPiece(i, p).TrueUnclaimed() ==
            s.TrueUnclaimed() - s.UnclaimedWeights()[i] + (if p.Finished() then 0 else p.Count(BlockMissing))
  {
    var t := s.SetPiece(i, p);
    var w := if p.Finished() then 0 else p.Count(BlockMissing);
    assert t.UnclaimedWeights() == s.UnclaimedWeights()[i := w];
    SumUpdate(s.UnclaimedWeights(), i, w);
  }

  /** Giving a missing block out lowers the cache and the recount together. */
  lemma ClaimKeepsDrift(s: Sched, p: Peer, k: BlockKey)
    requires s.PiecesOk() && s.Known(k)
    requires s.pieces[k.piece].states[k.offset] != BlockReceived && !s.pieces[k.piece].Closed()
    ensures s.Claim(p, k).PiecesOk()
    ensures s.Claim(p, k).Drift() == s.Drift()
  {
    var piece := s.pieces[k.piece];
    var q := piece.MarkRequested(k.offset, p);
    MarkRequestedKeeps(piece, k.offset, p);
    CountChange(piece, q, k.offset, BlockMissing);
    SetPieceOk(s, k.piece, q);
    SameCount(s.Claim(p, k), s.SetPiece(k.piece, q));
  }

  /** Taking a block back raises the cache and the recount together. */
  lemma UnclaimKeepsDrift(s: Sched, p: Peer, k: BlockKey)
    requires s.PiecesOk()
    ensures s.Unclaim(p, k).PiecesOk()
    ensures s.Unclaim(p, k).Drift() == s.Drift()
  {
    if k.piece < |s.pieces| {
      var piece := s.pieces[k.piece];
      var q := piece.MarkOrphaned(k.offset, p);
      MarkOrphanedKeeps(piece, k.offset, p);
      if k.offset in piece.states {
        assert q.states == piece.states[k.offset := q.states[k.offset]];
        CountChange(piece, q, k.offset, BlockMissing);
      }
      SetPieceOk(s, k.piece, q);
      SameCount(s.Unclaim(p, k), s.SetPiece(k.piece, q));
    }
  }

  /** The recount depends on the pieces alone. */
  lemma SameCount(s: Sched, t: Sched)
    requires s.PiecesOk() && t.pieces == s.pieces
    ensures t.PiecesOk() && t.TrueUnclaimed() == s.TrueUnclaimed()
  {
    assert t.UnclaimedWeights() == s.UnclaimedWeights();
  }

  // -------------------------------------------------- every operation keeps Inv

  /** A block somebody is fetching is REQUESTED, and its piece still takes blocks. */
  lemma InFlightIsRequested(s: Sched, p: Peer, k: BlockKey)
    requires s.Inv() && s.InSlot(p, k)
    ensures s.Known(k) && s.pieces[k.piece].states[k.offset] == BlockRequested
    ensures !s.pieces[k.piece].Closed()
  {
    assert s.Claimed(p, k);
  }

  lemma RegisterKeepsInv(s: Sched, p: Peer)
    requires s.Inv()
    ensures s.Touch(p).Inv() && s.Register(p).Inv()
    ensures s.Touch(p).Drift() == s.Drift() && s.Register(p).Drift() == s.Drift()
  {
    SameCount(s, s.Touch(p));
    SameCount(s, s.Register(p));
    assert forall q, k :: s.Touch(p).InSlot(q, k) <==> s.InSlot(q, k);
    assert forall q, k :: s.Register(p).InSlot(q, k) <==> s.InSlot(q, k);
  }

  /** Giving a block out adds one pair to both views, with its history and its claim. */
  lemma GiveKeepsLinked(s: Sched, p: Peer, k: BlockKey, now: real)
    requires s.Linked() && p in s.slots && p in s.peers && s.Known(k)
    ensures s.Give(p, k, now).Linked()
    ensures forall q, x :: s.Give(p, k, now).InSlot(q, x) <==> s.InSlot(q, x) || (q == p && x == k)
  {
    var t := s.Give(p, k, now);
    forall q, x
      ensures t.InSlot(q, x) <==> s.InSlot(q, x) || (q == p && x == k)
      ensures t.Fetching(q, x) <==> s.Fetching(q, x) || (q == p && x == k)
    {
    }
    forall q, x | t.InSlot(q, x)
      ensures q in t.peers && t.WasAsked(q, x) && t.Claimed(q, x)
    {
      if !(q == p && x == k) {
        assert s.InSlot(q, x);
        assert s.WasAsked(q, x) && s.Claimed(q, x);
      }
    }
  }

  lemma GiveKeepsInv(s: Sched, p: Peer, k: BlockKey, now: real)
    requires s.Inv() && p in s.slots && p in s.peers && s.Known(k)
    requires s.pieces[k.piece].states[k.offset] != BlockReceived && !s.pieces[k.piece].Closed()
    ensures s.Give(p, k, now).Inv()
    ensures s.Give(p, k, now).Drift() == s.Drift()
  {
    GiveKeepsLinked(s, p, k, now);
    var s1 := s.(slots := s.slots[p := s.slots[p][k := now]]);
    SameCount(s, s1);
    ClaimKeepsDrift(s1, p, k);
    SameCount(s1.Claim(p, k), s.Give(p, k, now));
  }

  lemma PruneKeepsInv(s: Sched)
    requires s.Inv()
    ensures s.Pruned().Inv()
    ensures s.Pruned().Drift() == s.Drift()
  {
    var t := s.Pruned();
    SameCount(s, t);
    assert forall p, k :: t.InSlot(p, k) <==> s.InSlot(p, k);
    assert forall p, k :: t.Fetching(p, k) <==> s.Fetching(p, k);
    forall p, k | t.InSlot(p, k)
      ensures p in t.peers && t.WasAsked(p, k) && t.Claimed(p, k)
    {
      assert s.InSlot(p, k) && s.WasAsked(p, k) && s.Claimed(p, k);
      InFlightIsRequested(s, p, k);
      assert !s.Settled(k);
    }
  }

  /** Losing one request removes one pair from both views and leaves every other claim alone. */
  lemma LossKeepsLinked(s: Sched, p: Peer, k: BlockKey)
    requires s.Linked()
    ensures s.Lost(p, k).Linked()
    ensures forall q, x :: s.Lost(p, k).InSlot(q, x) <==> s.InSlot(q, x) && !(q == p && x == k)
    ensures !s.Lost(p, k).InSlot(p, k)
  {
    var t := s.Lost(p, k);
    forall q, x
      ensures t.InSlot(q, x) <==> s.InSlot(q, x) && !(q == p && x == k)
      ensures t.Fetching(q, x) <==> s.Fetching(q, x) && !(q == p && x == k)
    {
      if x == k && s.Fetching(q, k) && q != p {
        assert q in s.endgame[k] - {p};
      }
    }
    forall q, x | t.InSlot(q, x)
      ensures q in t.peers && t.WasAsked(q, x) && t.Claimed(q, x)
    {
      assert s.InSlot(q, x);
      assert s.Claimed(q, x);
    }
  }

  lemma UnclaimKeepsLinked(s: Sched, p: Peer, k: BlockKey)
    requires s.Linked() && !s.InSlot(p, k)
    ensures s.Unclaim(p, k).Linked()
    ensures forall q, x :: s.Unclaim(p, k).InSlot(q, x) <==> s.InSlot(q, x)
  {
    var u := s.Unclaim(p, k);
    forall q, x
      ensures u.InSlot(q, x) <==> s.InSlot(q, x)
      ensures u.Fetching(q, x) <==> s.Fetching(q, x)
    {
    }
    forall q, x | u.InSlot(q, x)
      ensures q in u.peers && u.WasAsked(q, x) && u.Claimed(q, x)
    {
      assert s.InSlot(q, x);
      assert s.Claimed(q, x);
    }
  }

  /** Losing one request, whether or not the piece is told. */
  lemma LossKeepsInv(s: Sched, p: Peer, k: BlockKey)
    requires s.Inv()
    ensures s.Lost(p, k).Inv() && s.Lost(p, k).Drift() == s.Drift()
    ensures s.Dropped(p, k).Inv() && s.Dropped(p, k).Drift() == s.Drift()
    ensures forall q, x :: s.Lost(p, k).InSlot(q, x) <==> s.InSlot(q, x) && !(q == p && x == k)
    ensures forall q, x :: s.Dropped(p, k).InSlot(q, x) <==> s.InSlot(q, x) && !(q == p && x == k)
  {
    var t := s.Lost(p, k);
    LossKeepsLinked(s, p, k);
    SameCount(s, t);
    UnclaimKeepsLinked(t, p, k);
    UnclaimKeepsDrift(t, p, k);
  }

  lemma OrphanKeepsInv(s: Sched, p: Peer, k: BlockKey)
    requires s.Inv()
    ensures s.Orphaned(p, k).Inv()
    ensures s.Orphaned(p, k).Drift() == s.Drift()
  {
    RegisterKeepsInv(s, p);
    LossKeepsInv(s.Touch(p), p, k);
  }

  lemma {:induction false} DropAllKeepsInv(s: Sched, p: Peer, keys: seq<BlockKey>)
    requires s.Inv()
    ensures s.DroppedAll(p, keys).Inv()
    ensures s.DroppedAll(p, keys).Drift() == s.Drift()
    ensures forall q, x :: s.DroppedAll(p, keys).InSlot(q, x) <==> s.InSlot(q, x) && !(q == p && x in keys)
  {
    if keys != [] {
      var rest, k := keys[..|keys| - 1], keys[|keys| - 1];
      DropAllKeepsInv(s, p, rest);
      var t := s.DroppedAll(p, rest);
      LossKeepsInv(t, p, k);
      forall q, x
        ensures t.Dropped(p, k).InSlot(q, x) <==> s.InSlot(q, x) && !(q == p && x in keys)
      {
        assert keys == rest + [k];
        assert t.Dropped(p, k).InSlot(q, x) <==> t.InSlot(q, x) && !(q == p && x == k);
      }
    }
  }

  lemma PeerGoneKeepsInv(s: Sched, p: Peer, keys: seq<BlockKey>)
    requires s.Inv() && ListsSlot(s, p, keys)
    ensures s.PeerGone(p, keys).Inv()
    ensures s.PeerGone(p, keys).Drift() == s.Drift()
    ensures forall q, x :: s.PeerGone(p, keys).InSlot(q, x) <==> s.InSlot(q, x) && q != p
  {
    RegisterKeepsInv(s, p);
    DropAllKeepsInv(s.Touch(p), p, keys);
    var t := s.Touch(p).DroppedAll(p, keys);
    var u := t.Forget(p);
    SameCount(t, u);
    forall q, x
      ensures u.InSlot(q, x) <==> s.InSlot(q, x) && q != p
      ensures u.InSlot(q, x) <==> u.Fetching(q, x)
      ensures u.InSlot(q, x) ==> q in u.peers && u.WasAsked(q, x) && u.Claimed(q, x)
    {
      assert s.Touch(p).InSlot(q, x) <==> s.InSlot(q, x);
      assert t.InSlot(q, x) <==> s.InSlot(q, x) && !(q == p && x in keys);
      assert t.Fetching(q, x) <==> u.Fetching(q, x);
      assert t.Claimed(q, x) <==> u.Claimed(q, x);
    }
  }

  /** An arrival removes every pair for the block and no other. */
  lemma ReceivedLinks(s: Sched, p: Peer, k: BlockKey)
    requires s.Linked()
    ensures s.Received(p, k).Linked()
    ensures forall q, x :: s.Received(p, k).InSlot(q, x) <==> s.InSlot(q, x) && x != k
  {
    var t := s.Received(p, k);
    forall q, x
      ensures t.InSlot(q, x) <==> s.InSlot(q, x) && x != k
      ensures t.Fetching(q, x) <==> s.Fetching(q, x) && x != k
    {
      assert s.InSlot(q, k) <==> s.Fetching(q, k);
    }
    forall q, x | t.InSlot(q, x)
      ensures q in t.peers && t.WasAsked(q, x) && t.Claimed(q, x)
    {
      assert s.InSlot(q, x);
      assert s.WasAsked(q, x) && s.Claimed(q, x);
    }
  }

  /** The pieces may change as long as every live claim survives. */
  lemma SetPieceLinks(s: Sched, i: nat, p: PieceView)
    requires s.Linked() && i < |s.pieces|
    requires forall q, k :: s.InSlot(q, k) && k.piece == i ==>
                              k.offset in p.states && k.offset in p.requesters && q in p.requesters[k.offset]
    ensures s.SetPiece(i, p).Linked()
  {
    var t := s.SetPiece(i, p);
    assert forall q, k :: t.InSlot(q, k) <==> s.InSlot(q, k);
    assert forall q, k :: t.Fetching(q, k) <==> s.Fetching(q, k);
    forall q, k | t.InSlot(q, k)
      ensures q in t.peers && t.WasAsked(q, k) && t.Claimed(q, k)
    {
      assert s.InSlot(q, k);
      assert s.WasAsked(q, k) && s.Claimed(q, k);
    }
  }

  /** A closed piece has no request outstanding. */
  lemma ClosedIsQuiet(s: Sched, i: nat)
    requires s.Inv() && i < |s.pieces| && s.pieces[i].Closed()
    ensures forall q, k :: s.InSlot(q, k) ==> k.piece != i
  {
    forall q, k | s.InSlot(q, k)
      ensures k.piece != i
    {
      InFlightIsRequested(s, q, k);
    }
  }

  /** Storing a block and telling the ledgers: the two updates commute, so the ledgers are
      told first here. */
  lemma StoreAfterReceived(s: Sched, p: Peer, k: BlockKey, data: seq<byte>)
    requires s.PiecesOk() && k.piece < |s.pieces| && s.pieces[k.piece].Accepts(k.offset, data)
    ensures s.SetPiece(k.piece, s.pieces[k.piece].Store(k.offset, data, p)).Received(p, k) ==
            s.Received(p, k).SetPiece(k.piece, s.pieces[k.piece].Store(k.offset, data, p))
  {
    var piece := s.pieces[k.piece].Store(k.offset, data, p);
    var a, b := s.SetPiece(k.piece, piece), s.Received(p, k);
    assert a.Received(p, k).slots == b.slots;
  }

  /** Accepting a block: the recount falls by one when nobody had claimed it, the cache never does. */
  lemma AcceptKeepsInv(s: Sched, p: Peer, k: BlockKey, data: seq<byte>)
    requires s.Inv() && k.piece < |s.pieces| && !s.pieces[k.piece].Closed()
    requires s.pieces[k.piece].Accepts(k.offset, data)
    ensures
      var piece := s.pieces[k.piece];
      var t := s.SetPiece(k.piece, piece.Store(k.offset, data, p)).Received(p, k);
      && t.Inv()
      && t.Drift() == s.Drift() + (if s.unclaimed.Some? && piece.states[k.offset] == BlockMissing then 1 else 0)
  {
    var piece := s.pieces[k.piece];
    var q := piece.Store(k.offset, data, p);
    var r := s.Received(p, k);
    StoreAfterReceived(s, p, k, data);
    StoreKeeps(piece, k.offset, data, p);
    CountChange(piece, q, k.offset, BlockMissing);
    ReceivedLinks(s, p, k);
    SameCount(s, r);
    SetPieceOk(r, k.piece, q);
    StoredLinks(s, p, k, data);
    SetPieceLinks(r, k.piece, q);
  }

  lemma StoredLinks(s: Sched, p: Peer, k: BlockKey, data: seq<byte>)
    requires s.Inv() && k.piece < |s.pieces| && s.pieces[k.piece].Accepts(k.offset, data)
    ensures var q := s.pieces[k.piece].Store(k.offset, data, p);
            forall x, y :: s.Received(p, k).InSlot(x, y) && y.piece == k.piece ==>
              y.offset in q.states && y.offset in q.requesters && x in q.requesters[y.offset]
  {
    forall x, y | s.Received(p, k).InSlot(x, y) && y.piece == k.piece
      ensures s.Claimed(x, y) && y != k
    {
      assert s.InSlot(x, y) && y != k;
    }
  }

  lemma {:induction false} OrphanAllKeepsInv(s: Sched, pairs: seq<(Peer, BlockKey)>)
    requires s.Inv()
    ensures s.OrphanedAll(pairs).Inv()
    ensures forall q, x :: s.OrphanedAll(pairs).InSlot(q, x) <==> s.InSlot(q, x) && (q, x) !in pairs
    ensures forall q, x :: s.OrphanedAll(pairs).InSlot(q, x) ==> s.OrphanedAll(pairs).slots[q][x] == s.slots[q][x]
  {
    if pairs != [] {
      var rest, p, k := pairs[..|pairs| - 1], pairs[|pairs| - 1].0, pairs[|pairs| - 1].1;
      OrphanAllKeepsInv(s, rest);
      OrphanKeepsInv(s.OrphanedAll(rest), p, k);
      OrphanRemovesOne(s.OrphanedAll(rest), p, k);
      assert pairs == rest + [(p, k)];
    }
  }

  lemma OrphanRemovesOne(s: Sched, p: Peer, k: BlockKey)
    ensures forall q, x :: s.Orphaned(p, k).InSlot(q, x) <==> s.InSlot(q, x) && (q, x) != (p, k)
    ensures forall q, x :: s.Orphaned(p, k).InSlot(q, x) ==> s.Orphaned(p, k).slots[q][x] == s.slots[q][x]
  {
  }

  lemma {:induction false} CancelAllKeepsInv(s: Sched, pairs: seq<(Peer, BlockKey)>)
    requires s.Inv()
    ensures s.CancelledAll(pairs).Inv()
    ensures forall q, x :: s.CancelledAll(pairs).InSlot(q, x) <==> s.InSlot(q, x) && (q, x) !in pairs
  {
    if pairs != [] {
      var rest, p, k := pairs[..|pairs| - 1], pairs[|pairs| - 1].0, pairs[|pairs| - 1].1;
      CancelAllKeepsInv(s, rest);
      LossKeepsInv(s.CancelledAll(rest), p, k);
      assert pairs == rest + [(p, k)];
    }
  }

  /** Emptying a pipeline before or after walking its keys comes to the same once it is forgotten. */
  lemma {:induction false} DroppedAllSlots(s: Sched, p: Peer, keys: seq<BlockKey>)
    ensures s.DroppedAll(p, keys).slots - {p} == s.slots - {p}
  {
    if keys != [] {
      DroppedAllSlots(s, p, keys[..|keys| - 1]);
    }
  }

  lemma EmptiedFirst(s: Sched, p: Peer, keys: seq<BlockKey>)
    requires p in s.slots
    ensures s.(slots := s.slots[p := map[]]).DroppedAll(p, keys).Forget(p) == s.DroppedAll(p, keys).Forget(p)
  {
    DroppedAllCleared(s, p, keys);
    DroppedAllSlots(s, p, keys);
  }

  lemma {:induction false} DroppedAllCleared(s: Sched, p: Peer, keys: seq<BlockKey>)
    requires p in s.slots
    ensures s.(slots := s.slots[p := map[]]).DroppedAll(p, keys) ==
            s.DroppedAll(p, keys).(slots := s.slots[p := map[]])
  {
    if keys != [] {
      DroppedAllCleared(s, p, keys[..|keys| - 1]);
      DroppedCleared(s.DroppedAll(p, keys[..|keys| - 1]), p, keys[|keys| - 1], s.slots[p := map[]]);
    }
  }

  lemma DroppedCleared(s: Sched, p: Peer, k: BlockKey, cleared: map<Peer, map<BlockKey, real>>)
    requires p in cleared && cleared[p] == map[]
    ensures s.(slots := cleared).Dropped(p, k) == s.Dropped(p, k).(slots := cleared)
  {
    assert cleared[p := map[]] == cleared;
  }
}
