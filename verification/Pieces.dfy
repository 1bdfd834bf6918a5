/** One piece being downloaded (app/download/piece.py): the abstract value of a piece, what each
    operation does to it, and the facts every operation keeps. */
module Pieces {
  import opened Basics
  import opened Blocks

  /** A stable peer identity, the `host:port` text the download engine keys everything by. */
  datatype Peer = Peer(name: string)

  datatype BlockState = BlockMissing | BlockRequested | BlockReceived

  datatype Phase = Missing | Requested | Downloading | Downloaded | Verifying | Verified | Failed

  datatype PieceView = PieceView(
    index: nat,
    size: nat,
    blocks: seq<Block>,
    phase: Phase,
    states: map<nat, BlockState>,
    requesters: map<nat, set<Peer>>,
    buffer: Option<seq<byte>>,
    sources: seq<Peer>,
    failures: nat)
  {
    // ------------------------------------------------------------- invariant

    ghost predicate Shape() {
      && Covers(blocks, index, size)
      && states.Keys == Offsets(blocks)
      && requesters.Keys == Offsets(blocks)
      && (buffer.Some? ==> |buffer.value| == size)
    }

    /** A block is REQUESTED exactly when somebody is remembered as asking for it. */
    ghost predicate Claims() {
      forall o :: o in states && o in requesters ==> (requesters[o] != {} <==> states[o] == BlockRequested)
    }

    /** What the phase of a piece says about its blocks and its buffer. */
    ghost predicate Lifecycle() {
      && phase != Failed
      && (phase in {Missing, Requested} ==> !AnyReceived())
      && (phase in {Downloaded, Verifying} ==> Complete())
      && (phase in {Missing, Requested, Downloading} && blocks != [] ==> !Complete())
      && (phase in {Downloading, Downloaded} && AnyReceived() ==> buffer.Some?)
      && (phase == Verified ==> forall o :: o in states ==> states[o] != BlockRequested)
    }

    ghost predicate Valid() {
      Shape() && Claims() && Lifecycle()
    }

    ghost predicate Complete() {
      forall o :: o in states ==> states[o] == BlockReceived
    }

    ghost predicate AnyReceived() {
      exists o :: o in states && states[o] == BlockReceived
    }

    predicate Finished() {
      phase == Verified
    }

    predicate InProgress() {
      phase == Requested || phase == Downloading || phase == Downloaded || phase == Verifying
    }

    /** Phases in which no block of the piece is handed out any more. */
    predicate Closed() {
      phase == Verified || phase == Verifying || phase == Downloaded
    }

    // --------------------------------------------------------------- counting

    ghost function CountWeights(which: BlockState): seq<int>
      requires Shape()
    {
      seq(|blocks|, i requires 0 <= i < |blocks| => if states[blocks[i].offset] == which then 1 else 0)
    }

    /** How many blocks are in the given state. */
    ghost function Count(which: BlockState): int
      requires Shape()
    {
      Sum(CountWeights(which))
    }

    ghost function ByteWeights(): seq<int>
      requires Shape()
    {
      seq(|blocks|, i requires 0 <= i < |blocks| =>
        if states[blocks[i].offset] == BlockReceived then blocks[i].length else 0)
    }

    /** Bytes of block data that have arrived. */
    ghost function ReceivedBytes(): int
      requires Shape()
    {
      Sum(ByteWeights())
    }

    // ------------------------------------------------------------- operations

    ghost predicate HasBlock(o: nat, length: nat) {
      exists i :: 0 <= i < |blocks| && blocks[i].offset == o && blocks[i].length == length
    }

    /** Whether `add_block` stores this payload. */
    ghost predicate Accepts(o: nat, data: seq<byte>) {
      HasBlock(o, |data|) && o in states && states[o] != BlockReceived
    }

    ghost function MarkRequested(o: nat, peer: Peer): PieceView
      requires o in states && o in requesters
    {
      this.(requesters := requesters[o := requesters[o] + {peer}],
            states := if states[o] == BlockMissing then states[o := BlockRequested] else states,
            phase := if phase == Missing then Requested else phase)
    }

    /** Whether losing `peer`'s request returns the block to the pool. */
    ghost predicate Frees(o: nat, peer: Peer) {
      o in requesters && o in states && requesters[o] - {peer} == {} && states[o] == BlockRequested
    }

    ghost function MarkOrphaned(o: nat, peer: Peer): PieceView {
      if o !in requesters then this
      else
        this.(requesters := requesters[o := requesters[o] - {peer}],
              states := if Frees(o, peer) then states[o := BlockMissing] else states)
    }

    ghost function Assembly(): seq<byte> {
      if buffer.Some? then buffer.value else Zeros(size)
    }

    ghost function Store(o: nat, data: seq<byte>, source: Peer): PieceView
      requires Shape() && Accepts(o, data)
    {
      AcceptedFits(this, o, data);
      var filled := states[o := BlockReceived];
      this.(buffer := Some(Overwrite(Assembly(), o, data)),
            states := filled,
            requesters := requesters[o := {}],
            sources := if source in sources then sources else sources + [source],
            phase := if forall x :: x in filled ==> filled[x] == BlockReceived then Downloaded
                     else if phase in {Missing, Requested} then Downloading
                     else phase)
    }

    ghost function AddBlock(o: nat, data: seq<byte>, source: Peer): PieceView
      requires Shape()
    {
      if Accepts(o, data) then Store(o, data, source) else this
    }

    ghost function Data(): Option<seq<byte>> {
      if Complete() then buffer else None
    }

    ghost function Cleared(): PieceView {
      this.(buffer := None,
            states := map o | o in states :: BlockMissing,
            requesters := map o | o in requesters :: {})
    }

    ghost function MarkFailed(): PieceView {
      Cleared().(phase := Failed, failures := failures + 1)
    }

    ghost function Reset(): PieceView {
      Cleared().(phase := Missing)
    }

    ghost function MarkVerified(): PieceView {
      this.(phase := Verified, buffer := None)
    }

    // -------------------------------------------------------------- selection

    /** Whether `requestable_block` may return block `i` to `peer`. */
    ghost predicate Offerable(i: nat, peer: Peer, racing: bool)
      requires Shape() && i < |blocks|
    {
      && states[blocks[i].offset] != BlockReceived
      && peer !in requesters[blocks[i].offset]
      && (requesters[blocks[i].offset] == {} || racing)
    }

    /** The first offerable block at position `from` or later. */
    ghost function FirstFrom(from: nat, peer: Peer, racing: bool): (r: Option<nat>)
      requires Shape() && from <= |blocks|
      ensures r.Some? ==> from <= r.value < |blocks| && Offerable(r.value, peer, racing)
      ensures r.Some? ==> forall i :: from <= i < r.value ==> !Offerable(i, peer, racing)
      ensures r.None? ==> forall i :: from <= i < |blocks| ==> !Offerable(i, peer, racing)
      decreases |blocks| - from
    {
      if from == |blocks| then None
      else if Offerable(from, peer, racing) then Some(from)
      else FirstFrom(from + 1, peer, racing)
    }

    /** `requestable_block`: nothing once the piece is whole, otherwise its first offerable block. */
    ghost function FirstOffer(peer: Peer, racing: bool): (r: Option<nat>)
      requires Shape()
      ensures r.Some? ==> !Closed() && r.value < |blocks| && Offerable(r.value, peer, racing)
    {
      if Closed() then None else FirstFrom(0, peer, racing)
    }
  }

  // -------------------------------------------------------------------- lemmas

  lemma BlockOfOffset(p: PieceView, o: nat) returns (i: nat)
    requires p.Shape() && o in p.states
    ensures i < |p.blocks| && p.blocks[i].offset == o
    ensures p.blocks[i].index == p.index && 0 < p.blocks[i].length && o + p.blocks[i].length <= p.size
  {
    i :| 0 <= i < |p.blocks| && p.blocks[i].offset == o;
    BlockWithin(p.blocks, p.index, p.size, i);
  }

  lemma OffsetOfBlock(p: PieceView, i: nat)
    requires p.Shape() && i < |p.blocks|
    ensures p.blocks[i].offset in p.states && p.blocks[i].offset in p.requesters
  {
    assert p.blocks[i].offset in Offsets(p.blocks);
  }

  lemma AcceptedFits(p: PieceView, o: nat, data: seq<byte>)
    requires p.Shape() && p.Accepts(o, data)
    ensures 0 < |data| && o + |data| <= p.size
  {
    var i :| 0 <= i < |p.blocks| && p.blocks[i].offset == o && p.blocks[i].length == |data|;
    BlockWithin(p.blocks, p.index, p.size, i);
  }

  /** Changing the state of one block moves each count by one block. */
  lemma CountChange(p: PieceView, q: PieceView, o: nat, which: BlockState)
    requires p.Shape() && q.Shape() && q.blocks == p.blocks && o in p.states
    requires q.states == p.states[o := q.states[o]]
    ensures q.Count(which) == p.Count(which)
                              - (if p.states[o] == which then 1 else 0)
                              + (if q.states[o] == which then 1 else 0)
  {
    var i := BlockOfOffset(p, o);
    OffsetsDistinct(p.blocks, p.index, p.size);
    assert q.CountWeights(which) == p.CountWeights(which)[i := if q.states[o] == which then 1 else 0];
    SumUpdate(p.CountWeights(which), i, if q.states[o] == which then 1 else 0);
  }

  lemma BytesChange(p: PieceView, q: PieceView, o: nat, length: nat)
    requires p.Shape() && q.Shape() && q.blocks == p.blocks && o in p.states && p.HasBlock(o, length)
    requires q.states == p.states[o := q.states[o]]
    ensures q.ReceivedBytes() == p.ReceivedBytes()
                                 - (if p.states[o] == BlockReceived then length else 0)
                                 + (if q.states[o] == BlockReceived then length else 0)
  {
    var i :| 0 <= i < |p.blocks| && p.blocks[i].offset == o && p.blocks[i].length == length;
    OffsetsDistinct(p.blocks, p.index, p.size);
    var v := if q.states[o] == BlockReceived then length else 0;
    assert q.ByteWeights() == p.ByteWeights()[i := v];
    SumUpdate(p.ByteWeights(), i, v);
  }

  lemma NoneInState(p: PieceView, which: BlockState)
    requires p.Shape() && forall o :: o in p.states ==> p.states[o] != which
    ensures p.Count(which) == 0
    ensures which == BlockReceived ==> p.ReceivedBytes() == 0
  {
    forall i | 0 <= i < |p.blocks|
      ensures p.CountWeights(which)[i] == 0
    {
      OffsetOfBlock(p, i);
    }
    SumOfZeros(p.CountWeights(which));
    if which == BlockReceived {
      forall i | 0 <= i < |p.blocks|
        ensures p.ByteWeights()[i] == 0
      {
        OffsetOfBlock(p, i);
      }
      SumOfZeros(p.ByteWeights());
    }
  }

  /** A whole piece has received exactly its size: the blocks tile it. */
  lemma CompleteBytes(p: PieceView)
    requires p.Shape() && p.Complete()
    ensures p.ReceivedBytes() == p.size
  {
    forall i | 0 <= i < |p.blocks|
      ensures p.ByteWeights()[i] == p.blocks[i].length
    {
      OffsetOfBlock(p, i);
    }
    LengthsAddUp(p, p.ByteWeights(), |p.blocks|);
  }

  lemma {:induction false} LengthsAddUp(p: PieceView, weights: seq<int>, n: nat)
    requires p.Shape() && n <= |p.blocks| == |weights|
    requires forall i :: 0 <= i < n ==> weights[i] == p.blocks[i].length
    ensures Sum(weights[..n]) == EndBefore(p.blocks, n)
    ensures n == |weights| ==> weights[..n] == weights
  {
    if n > 0 {
      LengthsAddUp(p, weights, n - 1);
      assert weights[..n][..n - 1] == weights[..n - 1];
      assert Placed(p.blocks, p.index, n - 1);
    }
  }

  // ------------------------------------------------ every operation keeps Valid

  lemma MarkRequestedKeeps(p: PieceView, o: nat, peer: Peer)
    requires p.Valid() && o in p.states && p.states[o] != BlockReceived && !p.Closed()
    ensures p.MarkRequested(o, peer).Valid()
    ensures p.MarkRequested(o, peer).states == p.states[o := BlockRequested]
  {
    var q := p.MarkRequested(o, peer);
    assert q.states == p.states[o := BlockRequested];
    assert q.AnyReceived() ==> p.AnyReceived();
    assert o in q.states && q.states[o] == BlockRequested;
  }

  lemma MarkOrphanedKeeps(p: PieceView, o: nat, peer: Peer)
    requires p.Valid()
    ensures p.MarkOrphaned(o, peer).Valid()
    ensures p.MarkOrphaned(o, peer).phase == p.phase
  {
    var q := p.MarkOrphaned(o, peer);
    if o in p.requesters {
      assert forall x :: x in p.states ==> (q.states[x] == BlockReceived <==> p.states[x] == BlockReceived);
      assert q.AnyReceived() ==> p.AnyReceived();
      assert q.Complete() <==> p.Complete();
    }
  }

  /** Storing an accepted block adds its bytes to those received. */
  lemma StoreCounts(p: PieceView, o: nat, data: seq<byte>, source: Peer)
    requires p.Shape() && p.Accepts(o, data)
    ensures p.Store(o, data, source).Shape()
    ensures p.Store(o, data, source).ReceivedBytes() == p.ReceivedBytes() + |data|
  {
    AcceptedFits(p, o, data);
    BytesChange(p, p.Store(o, data, source), o, |data|);
  }

  lemma StoreKeeps(p: PieceView, o: nat, data: seq<byte>, source: Peer)
    requires p.Valid() && p.Accepts(o, data) && !p.Closed()
    ensures p.Store(o, data, source).Valid()
    ensures p.Store(o, data, source).phase in {Downloading, Downloaded}
    ensures p.Store(o, data, source).phase == Downloaded <==> p.Store(o, data, source).Complete()
  {
    var q := p.Store(o, data, source);
    AcceptedFits(p, o, data);
    assert q.states[o] == BlockReceived;
    assert q.AnyReceived();
  }

  lemma ResetKeeps(p: PieceView)
    requires p.Shape()
    ensures p.Reset().Valid()
    ensures p.Reset().ReceivedBytes() == 0
  {
    var q := p.Reset();
    assert q.states.Keys == p.states.Keys && q.requesters.Keys == p.requesters.Keys;
    if q.blocks != [] {
      OffsetOfBlock(p, 0);
      assert q.states[q.blocks[0].offset] == BlockMissing;
    }
    NoneInState(q, BlockReceived);
  }
}
