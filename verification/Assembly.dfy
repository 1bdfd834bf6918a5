/** What a piece finally holds: whatever order its blocks arrive in, with duplicates, wrong
    lengths and restarts, the assembled bytes are the first good copy of each block. */
module Assembly {
  import opened Basics
  import opened Blocks
  import opened Pieces

  datatype PieceEvent =
    | Arrive(offset: nat, data: seq<byte>, source: Peer)
    | Ask(offset: nat, peer: Peer)
    | Lose(offset: nat, peer: Peer)
    | Restart

  ghost function Apply(p: PieceView, e: PieceEvent): (q: PieceView)
    requires p.Shape()
    ensures q.Shape() && q.blocks == p.blocks && q.size == p.size && q.index == p.index
  {
    match e
    case Arrive(o, data, source) => AddBlockShape(p, o, data, source); p.AddBlock(o, data, source)
    case Ask(o, peer) => if o in p.states && p.states[o] != BlockReceived then p.MarkRequested(o, peer) else p
    case Lose(o, peer) => p.MarkOrphaned(o, peer)
    case Restart => ResetKeeps(p.MarkFailed()); p.MarkFailed().Reset()
  }

  lemma AddBlockShape(p: PieceView, o: nat, data: seq<byte>, source: Peer)
    requires p.Shape()
    ensures p.AddBlock(o, data, source).Shape()
  {
    if p.Accepts(o, data) {
      AcceptedFits(p, o, data);
    }
  }

  ghost function Play(p: PieceView, events: seq<PieceEvent>): (q: PieceView)
    requires p.Shape()
    ensures q.Shape() && q.blocks == p.blocks && q.size == p.size && q.index == p.index
  {
    if events == [] then p else Apply(Play(p, events[..|events| - 1]), events[|events| - 1])
  }

  /** The first payload of the right length for a block since the last restart, read off the
      events alone. */
  ghost function FirstCopy(events: seq<PieceEvent>, o: nat, length: nat): (r: Option<seq<byte>>)
    ensures r.Some? ==> |r.value| == length
  {
    if events == [] then None
    else
      var earlier := FirstCopy(events[..|events| - 1], o, length);
      match events[|events| - 1]
      case Restart => None
      case Arrive(o', data, _) =>
        if earlier.None? && o' == o && |data| == length then Some(data) else earlier
      case _ => earlier
  }

  ghost predicate Untouched(p: PieceView) {
    && p.Shape()
    && p.buffer.None?
    && forall o :: o in p.states ==> p.states[o] == BlockMissing
  }

  /** Block `i` of `q` is received exactly when a good copy came, and its bytes are that copy. */
  ghost predicate HoldsFirstCopy(q: PieceView, events: seq<PieceEvent>, i: nat)
    requires q.Shape() && i < |q.blocks|
  {
    var b := q.blocks[i];
    var copy := FirstCopy(events, b.offset, b.length);
    && b.offset in q.states
    && (q.states[b.offset] == BlockReceived <==> copy.Some?)
    && (copy.Some? ==> q.buffer.Some? && b.End() <= q.size && q.buffer.value[b.offset..b.End()] == copy.value)
  }

  lemma {:induction false} EveryBlockHoldsFirstCopy(p: PieceView, events: seq<PieceEvent>, i: nat)
    requires Untouched(p) && i < |p.blocks|
    ensures HoldsFirstCopy(Play(p, events), events, i)
  {
    OffsetOfBlock(p, i);
    BlockWithin(p.blocks, p.index, p.size, i);
    if events != [] {
      var before, e := events[..|events| - 1], events[|events| - 1];
      EveryBlockHoldsFirstCopy(p, before, i);
      StepKeepsCopies(Play(p, before), before, e, i);
      assert before + [e] == events;
    }
  }

  lemma StepKeepsCopies(q: PieceView, before: seq<PieceEvent>, e: PieceEvent, i: nat)
    requires q.Shape() && i < |q.blocks|
    requires HoldsFirstCopy(q, before, i)
    ensures HoldsFirstCopy(Apply(q, e), before + [e], i)
  {
    assert (before + [e])[..|before|] == before;
    match e {
      case Arrive(o, data, source) => ArrivalKeepsCopies(q, before, o, data, source, i);
      case Ask(o, peer) =>
      case Lose(o, peer) =>
      case Restart => assert Apply(q, e).states[q.blocks[i].offset] == BlockMissing;
    }
  }

  lemma ArrivalKeepsCopies(q: PieceView, before: seq<PieceEvent>, o: nat, data: seq<byte>, source: Peer, i: nat)
    requires q.Shape() && i < |q.blocks|
    requires HoldsFirstCopy(q, before, i)
    ensures q.AddBlock(o, data, source).Shape()
    ensures HoldsFirstCopy(q.AddBlock(o, data, source), before + [Arrive(o, data, source)], i)
  {
    AddBlockShape(q, o, data, source);
    var e := Arrive(o, data, source);
    var b := q.blocks[i];
    assert (before + [e])[..|before|] == before;
    BlockWithin(q.blocks, q.index, q.size, i);
    if q.Accepts(o, data) {
      AcceptedFits(q, o, data);
      var j :| 0 <= j < |q.blocks| && q.blocks[j].offset == o && q.blocks[j].length == |data|;
      if j < i {
        BlocksOrdered(q.blocks, q.index, q.size, j, i);
      } else if i < j {
        BlocksOrdered(q.blocks, q.index, q.size, i, j);
      }
      var buffer := Overwrite(q.Assembly(), o, data);
      if i != j {
        assert buffer[b.offset..b.End()] == q.Assembly()[b.offset..b.End()];
      } else {
        assert buffer[b.offset..b.End()] == data;
      }
    } else if o == b.offset && |data| == b.length {
      assert q.HasBlock(o, |data|);
    }
  }

  ghost function Copies(blocks: seq<Block>, events: seq<PieceEvent>): (r: seq<seq<byte>>)
    requires forall i :: 0 <= i < |blocks| ==> FirstCopy(events, blocks[i].offset, blocks[i].length).Some?
    ensures |r| == |blocks|
  {
    seq(|blocks|, i requires 0 <= i < |blocks| => FirstCopy(events, blocks[i].offset, blocks[i].length).value)
  }

  /** A piece that is complete and not empty holds exactly the first good copy of every block
      since its last restart, in offset order, and nothing else. */
  lemma AssembledData(p: PieceView, events: seq<PieceEvent>)
    requires Untouched(p) && p.size > 0
    requires Play(p, events).Complete()
    ensures forall i :: 0 <= i < |p.blocks| ==> FirstCopy(events, p.blocks[i].offset, p.blocks[i].length).Some?
    ensures Play(p, events).Data() == Some(Concat(Copies(p.blocks, events)))
    ensures |Concat(Copies(p.blocks, events))| == p.size
  {
    var q := Play(p, events);
    forall i | 0 <= i < |p.blocks|
      ensures FirstCopy(events, p.blocks[i].offset, p.blocks[i].length).Some?
      ensures HoldsFirstCopy(q, events, i)
    {
      EveryBlockHoldsFirstCopy(p, events, i);
    }
    var _ := CoveringBlock(p.blocks, p.index, p.size, 0);
    assert HoldsFirstCopy(q, events, 0);
    CopiesFillBuffer(q, events, |q.blocks|);
    assert Copies(q.blocks, events)[..|q.blocks|] == Copies(q.blocks, events);
    assert q.buffer.value[..q.size] == q.buffer.value;
  }

  lemma {:induction false} CopiesFillBuffer(q: PieceView, events: seq<PieceEvent>, n: nat)
    requires q.Shape() && q.buffer.Some? && n <= |q.blocks|
    requires forall i :: 0 <= i < |q.blocks| ==> FirstCopy(events, q.blocks[i].offset, q.blocks[i].length).Some?
    requires forall i :: 0 <= i < |q.blocks| ==> HoldsFirstCopy(q, events, i)
    ensures EndBefore(q.blocks, n) <= q.size
    ensures Concat(Copies(q.blocks, events)[..n]) == q.buffer.value[..EndBefore(q.blocks, n)]
  {
    if n > 0 {
      CopiesFillBuffer(q, events, n - 1);
      var copies, b := Copies(q.blocks, events), q.blocks[n - 1];
      assert Placed(q.blocks, q.index, n - 1);
      assert HoldsFirstCopy(q, events, n - 1);
      assert copies[..n][..n - 1] == copies[..n - 1];
      assert q.buffer.value[..b.End()] == q.buffer.value[..b.offset] + q.buffer.value[b.offset..b.End()];
    }
  }
}
