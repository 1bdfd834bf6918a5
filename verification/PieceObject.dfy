/** The mutable piece of app/download/piece.py. Each method is proved to do to the abstract value
    exactly what the operation of the same name in module Pieces says. */
module PieceObject {
  import opened Basics
  import opened Blocks
  import opened Pieces

  const INFO_HASH_SIZE: nat := 20

  class Piece {
    const index: nat
    const size: nat
    const expectedHash: seq<byte>
    const blocks: seq<Block>
    var state: Phase
    var failures: nat
    var sources: seq<Peer>
    var states: map<nat, BlockState>
    var requesters: map<nat, set<Peer>>
    var buffer: Option<seq<byte>>

    ghost function View(): PieceView
      reads this
    {
      PieceView(index, size, blocks, state, states, requesters, buffer, sources, failures)
    }

    predicate InProgress()
      reads this
      ensures InProgress() == View().InProgress()
    {
      state == Requested || state == Downloading || state == Downloaded || state == Verifying
    }

    constructor (index: nat, size: nat, expectedHash: seq<byte>, blocks: seq<Block>)
      requires Covers(blocks, index, size)
      ensures this.index == index && this.size == size && this.expectedHash == expectedHash && this.blocks == blocks
      ensures View() == PieceView(index, size, blocks, Missing, View().states, View().requesters, None, [], 0)
      ensures View().Valid()
      ensures forall o :: o in View().states ==> View().states[o] == BlockMissing
    {
      this.index, this.size, this.expectedHash, this.blocks := index, size, expectedHash, blocks;
      state, failures, sources, buffer := Missing, 0, [], None;
      states := map k | 0 <= k < |blocks| :: blocks[k].offset := BlockMissing;
      requesters := map k | 0 <= k < |blocks| :: blocks[k].offset := {};
      new;
      if blocks != [] {
        OffsetOfBlock(View(), 0);
      }
    }

    // ------------------------------------------------------------------ views

    method UnclaimedBlocks() returns (n: nat)
      requires View().Shape()
      ensures n == View().Count(BlockMissing)
    {
      n := CountIn(BlockMissing);
    }

    method ReceivedBlocks() returns (n: nat)
      requires View().Shape()
      ensures n == View().Count(BlockReceived)
    {
      n := CountIn(BlockReceived);
    }

    method CountIn(which: BlockState) returns (n: nat)
      requires View().Shape()
      ensures n == View().Count(which)
    {
      n := 0;
      ghost var weights := View().CountWeights(which);
      for i := 0 to |blocks|
        invariant n == Sum(weights[..i])
      {
        OffsetOfBlock(View(), i);
        if states[blocks[i].offset] == which {
          n := n + 1;
        }
        assert weights[..i + 1][..i] == weights[..i];
      }
      assert weights[..|blocks|] == weights;
    }

    method IsComplete() returns (whole: bool)
      requires View().Shape()
      ensures whole <==> View().Complete()
    {
      for i := 0 to |blocks|
        invariant forall k :: 0 <= k < i ==> blocks[k].offset in states && states[blocks[k].offset] == BlockReceived
      {
        OffsetOfBlock(View(), i);
        if states[blocks[i].offset] != BlockReceived {
          return false;
        }
      }
      return true;
    }

    method BlockStartingAt(offset: int) returns (found: Option<Block>)
      requires View().Shape()
      ensures found.None? ==> offset !in states
      ensures found.Some? ==> found.value in blocks && found.value.offset == offset && offset in states
    {
      for i := 0 to |blocks|
        invariant forall k :: 0 <= k < i ==> blocks[k].offset != offset
      {
        if blocks[i].offset == offset {
          OffsetOfBlock(View(), i);
          return Some(blocks[i]);
        }
      }
      return None;
    }

    method GetData() returns (data: Option<seq<byte>>)
      requires View().Shape()
      ensures data == View().Data()
    {
      var whole := IsComplete();
      if !whole || buffer.None? {
        return None;
      }
      return buffer;
    }

    // -------------------------------------------------------------- selection

    method RequestableBlock(peer: Peer, allowDuplicates: bool) returns (block: Option<Block>)
      requires View().Shape()
      ensures block == match View().FirstOffer(peer, allowDuplicates)
                       case None => None
                       case Some(i) => Some(blocks[i])
    {
      if state == Verified || state == Verifying || state == Downloaded {
        return None;
      }
      var i := 0;
      while i < |blocks|
        invariant 0 <= i <= |blocks|
        invariant View().FirstFrom(0, peer, allowDuplicates) == View().FirstFrom(i, peer, allowDuplicates)
      {
        OffsetOfBlock(View(), i);
        var o := blocks[i].offset;
        if states[o] != BlockReceived && peer !in requesters[o] && (requesters[o] == {} || allowDuplicates) {
          return Some(blocks[i]);
        }
        i := i + 1;
      }
      return None;
    }

    // ------------------------------------------------------------ bookkeeping

    method MarkRequested(offset: nat, peer: Peer)
      requires offset in states && offset in requesters
      modifies this
      ensures View() == old(View().MarkRequested(offset, peer))
    {
      requesters := requesters[offset := requesters[offset] + {peer}];
      if states[offset] == BlockMissing {
        states := states[offset := BlockRequested];
      }
      if state == Missing {
        state := Requested;
      }
    }

    method MarkOrphaned(offset: nat, peer: Peer) returns (freed: bool)
      requires View().Shape()
      modifies this
      ensures View() == old(View().MarkOrphaned(offset, peer))
      ensures freed == old(View().Frees(offset, peer))
    {
      if offset !in requesters {
        return false;
      }
      requesters := requesters[offset := requesters[offset] - {peer}];
      if requesters[offset] != {} || states[offset] != BlockRequested {
        return false;
      }
      states := states[offset := BlockMissing];
      return true;
    }

    method AddBlock(offset: nat, data: seq<byte>, source: Peer) returns (stored: bool)
      requires View().Shape()
      modifies this
      ensures stored == old(View().Accepts(offset, data))
      ensures View() == old(View().AddBlock(offset, data, source))
    {
      ghost var before := View();
      var block := BlockStartingAt(offset);
      if block.None? || |data| != block.value.length {
        UniqueLength(before, offset, |data|, block);
        return false;
      }
      if states[offset] == BlockReceived {
        return false;
      }
      Deposit(offset, data, source);
      return true;
    }

    /** The storing half of `add_block`, once the block is known to be wanted. */
    method Deposit(offset: nat, data: seq<byte>, source: Peer)
      requires View().Shape() && View().Accepts(offset, data)
      modifies this
      ensures View() == old(View().Store(offset, data, source))
    {
      AcceptedFits(View(), offset, data);
      PutBytes(offset, data);
      states := states[offset := BlockReceived];
      requesters := requesters[offset := {}];
      if source !in sources {
        sources := sources + [source];
      }
      Advance();
    }

    method PutBytes(offset: nat, data: seq<byte>)
      requires View().Shape() && offset + |data| <= size
      modifies this`buffer
      ensures buffer == Some(Overwrite(old(View().Assembly()), offset, data)) && |buffer.value| == size
    {
      var assembly := if buffer.Some? then buffer.value else Zeros(size);
      buffer := Some(Overwrite(assembly, offset, data));
    }

    /** The phase after a block was stored. */
    method Advance()
      requires View().Shape()
      modifies this`state
      ensures state == if old(View()).Complete() then Downloaded
                       else if old(state) in {Missing, Requested} then Downloading
                       else old(state)
    {
      var whole := IsComplete();
      if whole {
        state := Downloaded;
      } else if state == Missing || state == Requested {
        state := Downloading;
      }
    }

    method Release()
      modifies this
      ensures View() == old(View()).(buffer := None)
    {
      buffer := None;
    }

    // ------------------------------------------------------------ transitions

    method MarkVerifying()
      modifies this
      ensures View() == old(View()).(phase := Verifying)
    {
      state := Verifying;
    }

    method MarkVerified()
      modifies this
      ensures View() == old(View().MarkVerified())
    {
      state := Verified;
      buffer := None;
    }

    method MarkFailed()
      requires View().Shape()
      modifies this
      ensures View() == old(View().MarkFailed())
    {
      failures := failures + 1;
      Clear();
      state := Failed;
    }

    method Reset()
      requires View().Shape()
      modifies this
      ensures View() == old(View().Reset())
    {
      Clear();
      state := Missing;
    }

    method Clear()
      requires View().Shape()
      modifies this
      ensures View() == old(View().Cleared())
    {
      ghost var before := View();
      buffer := None;
      for i := 0 to |blocks|
        invariant states.Keys == before.states.Keys && requesters.Keys == before.requesters.Keys
        invariant unchanged(`state) && unchanged(`failures) && unchanged(`sources) && buffer == None
        invariant forall k :: 0 <= k < i ==> states[blocks[k].offset] == BlockMissing
        invariant forall k :: 0 <= k < i ==> requesters[blocks[k].offset] == {}
      {
        OffsetOfBlock(before, i);
        states := states[blocks[i].offset := BlockMissing];
        requesters := requesters[blocks[i].offset := {}];
      }
      forall o | o in states
        ensures states[o] == BlockMissing && requesters[o] == {}
      {
        var k := BlockOfOffset(before, o);
      }
      assert states == before.Cleared().states;
      assert requesters == before.Cleared().requesters;
    }
  }

  /** When the block at an offset has another length, no block there has this one. */
  lemma UniqueLength(p: PieceView, o: nat, length: nat, found: Option<Block>)
    requires p.Shape()
    requires found.None? ==> o !in p.states
    requires found.Some? ==> found.value in p.blocks && found.value.offset == o && found.value.length != length
    ensures !p.HasBlock(o, length)
  {
    OffsetsDistinct(p.blocks, p.index, p.size);
    forall i | 0 <= i < |p.blocks| && p.blocks[i].offset == o
      ensures p.blocks[i].length != length
    {
      OffsetOfBlock(p, i);
    }
  }

  /** `build_pieces`: one piece per size, VERIFIED where the resume state says so. The constructor
      of a piece raises on a negative size, a hash of the wrong length or an unusable block size. */
  method BuildPiece(index: nat, size: int, hash: seq<byte>, blockSize: int, done: bool)
    returns (r: Result<Piece, BlockError>)
    ensures r.Ok? ==> fresh(r.value) && Built(r.value, index, size, hash, done)
    ensures r.Ok? <==> Buildable(size, hash, blockSize)
  {
    if |hash| != INFO_HASH_SIZE {
      return Err(InvalidValue);
    }
    var plan := PlanBlocks(index, size, blockSize);
    if plan.Err? {
      return Err(InvalidValue);
    }
    var piece := new Piece(index, size, hash, plan.value);
    if done {
      piece.MarkVerified();
    }
    return Ok(piece);
  }

  method BuildPieces(sizes: seq<int>, hashes: seq<seq<byte>>, blockSize: int, verified: set<nat>)
    returns (r: Result<seq<Piece>, BlockError>)
    ensures r.Ok? ==> |r.value| == |sizes| == |hashes|
    ensures r.Ok? ==> forall i :: 0 <= i < |sizes| ==> fresh(r.value[i])
    ensures r.Ok? ==> forall i, j :: 0 <= i < j < |sizes| ==> r.value[i] != r.value[j]
    ensures r.Ok? ==> forall i :: 0 <= i < |sizes| ==> Built(r.value[i], i, sizes[i], hashes[i], i in verified)
    ensures r.Ok? <==> |sizes| == |hashes| && forall i :: 0 <= i < |sizes| ==> Buildable(sizes[i], hashes[i], blockSize)
  {
    var pieces: seq<Piece> := [];
    var i := 0;
    while i < |sizes|
      invariant 0 <= i <= |sizes| && i <= |hashes| && |pieces| == i
      invariant forall k :: 0 <= k < i ==> fresh(pieces[k])
      invariant forall j, k :: 0 <= j < k < i ==> pieces[j] != pieces[k]
      invariant forall k :: 0 <= k < i ==> Built(pieces[k], k, sizes[k], hashes[k], k in verified)
      invariant forall k :: 0 <= k < i ==> Buildable(sizes[k], hashes[k], blockSize)
    {
      if i >= |hashes| {
        return Err(InvalidValue);
      }
      var piece := BuildPiece(i, sizes[i], hashes[i], blockSize, i in verified);
      if piece.Err? {
        return Err(InvalidValue);
      }
      pieces := pieces + [piece.value];
      i := i + 1;
    }
    if |hashes| != |sizes| {
      return Err(InvalidValue);
    }
    return Ok(pieces);
  }

  predicate Buildable(size: int, hash: seq<byte>, blockSize: int) {
    |hash| == INFO_HASH_SIZE && size >= 0 && blockSize > 0 && (size > 0 ==> Min(blockSize, size) <= MAX_BLOCK_SIZE)
  }

  ghost predicate Built(p: Piece, index: nat, size: int, hash: seq<byte>, done: bool)
    reads p
  {
    && p.View().Valid()
    && p.index == index && p.size == size && p.expectedHash == hash
    && p.state == (if done then Verified else Missing)
    && p.buffer.None? && p.sources == [] && p.failures == 0
    && forall o :: o in p.states ==> p.states[o] == BlockMissing
  }
}
