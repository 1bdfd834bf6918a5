/** Blocks, the unit of transfer: cutting a piece into blocks and finding one by its offset
    (app/download/block.py). */
module Blocks {
  import opened Basics

  const DEFAULT_BLOCK_SIZE: nat := 16384
  const MAX_BLOCK_SIZE: nat := 131072

  datatype BlockError = InvalidValue | DivisionByZero

  datatype Block = Block(index: nat, offset: nat, length: nat) {
    function End(): nat {
      offset + length
    }

    function Key(): BlockKey {
      BlockKey(index, offset)
    }
  }

  datatype BlockKey = BlockKey(piece: nat, offset: nat)

  /** The constructor of a block raises on a negative position or an unreasonable length. */
  function MakeBlock(index: int, offset: int, length: int): Result<Block, BlockError> {
    if index < 0 || offset < 0 || !(0 < length <= MAX_BLOCK_SIZE) then Err(InvalidValue)
    else Ok(Block(index, offset, length))
  }

  // ------------------------------------------------------------------- coverage

  /** The blocks lie end to end from offset 0 and stop exactly at `upto`. */
  ghost predicate Covers(blocks: seq<Block>, index: nat, upto: nat) {
    && (forall k :: 0 <= k < |blocks| ==> Placed(blocks, index, k))
    && upto == EndBefore(blocks, |blocks|)
  }

  /** Block `k` is a non-empty block of its piece and starts where its predecessor ends. */
  ghost predicate Placed(blocks: seq<Block>, index: nat, k: nat)
    requires k < |blocks|
  {
    && blocks[k].index == index
    && 0 < blocks[k].length
    && blocks[k].offset == EndBefore(blocks, k)
  }

  ghost function EndBefore(blocks: seq<Block>, k: nat): nat
    requires k <= |blocks|
  {
    if k == 0 then 0 else blocks[k - 1].End()
  }

  /** Every block has the nominal size except a last one that takes what is left. */
  ghost predicate Planned(blocks: seq<Block>, index: nat, size: nat, blockSize: nat) {
    && Covers(blocks, index, size)
    && forall k :: 0 <= k < |blocks| ==> blocks[k].length == Min(blockSize, size - blocks[k].offset)
  }

  ghost function Offsets(blocks: seq<Block>): set<nat> {
    set k | 0 <= k < |blocks| :: blocks[k].offset
  }

  /** A block ends at or before the start of every later one. */
  lemma {:induction false} BlocksOrdered(blocks: seq<Block>, index: nat, upto: nat, i: nat, j: nat)
    requires Covers(blocks, index, upto)
    requires i < j < |blocks|
    ensures blocks[i].End() <= blocks[j].offset
    decreases j - i
  {
    assert Placed(blocks, index, j) && Placed(blocks, index, j - 1);
    if i + 1 < j {
      BlocksOrdered(blocks, index, upto, i, j - 1);
    }
  }

  lemma {:induction false} BlockWithin(blocks: seq<Block>, index: nat, upto: nat, j: nat)
    requires Covers(blocks, index, upto)
    requires j < |blocks|
    ensures blocks[j].index == index && 0 < blocks[j].length && blocks[j].End() <= upto
  {
    assert Placed(blocks, index, j);
    if j + 1 < |blocks| {
      BlocksOrdered(blocks, index, upto, j, |blocks| - 1);
      assert Placed(blocks, index, |blocks| - 1);
    }
  }

  /** An offset names at most one block. */
  lemma OffsetsDistinct(blocks: seq<Block>, index: nat, upto: nat)
    requires Covers(blocks, index, upto)
    ensures forall i, j :: 0 <= i < j < |blocks| ==> blocks[i].offset < blocks[j].offset
  {
    forall i, j | 0 <= i < j < |blocks|
      ensures blocks[i].offset < blocks[j].offset
    {
      BlocksOrdered(blocks, index, upto, i, j);
      assert Placed(blocks, index, i);
    }
  }

  /** Every byte of the covered range lies in a block. */
  lemma CoveringBlock(blocks: seq<Block>, index: nat, upto: nat, x: nat) returns (k: nat)
    requires Covers(blocks, index, upto)
    requires x < upto
    ensures k < |blocks| && blocks[k].offset <= x < blocks[k].End()
  {
    k := |blocks| - 1;
    while x < blocks[k].offset
      invariant 0 <= k < |blocks| && x < blocks[k].End()
      decreases k
    {
      assert Placed(blocks, index, k);
      k := k - 1;
    }
  }

  /** Appending a block that starts where the others end extends the covered range. */
  lemma CoversAppend(blocks: seq<Block>, index: nat, upto: nat, b: Block)
    requires Covers(blocks, index, upto)
    requires b.index == index && b.offset == upto && 0 < b.length
    ensures Covers(blocks + [b], index, b.End())
  {
    var more := blocks + [b];
    forall k | 0 <= k < |more|
      ensures Placed(more, index, k)
    {
      if k < |blocks| {
        assert Placed(blocks, index, k);
      }
    }
  }

  // ------------------------------------------------------------------- planning

  /** `plan_blocks`: succeeds exactly when no block it would build is rejected. */
  method PlanBlocks(index: int, size: int, blockSize: int) returns (r: Result<seq<Block>, BlockError>)
    ensures r.Err? <==> size < 0 || blockSize <= 0 || (size > 0 && (index < 0 || Min(blockSize, size) > MAX_BLOCK_SIZE))
    ensures r.Ok? && index >= 0 ==> Planned(r.value, index, size, blockSize)
    ensures r.Ok? && size == 0 ==> r.value == []
  {
    if size < 0 || blockSize <= 0 {
      return Err(InvalidValue);
    }
    var blocks: seq<Block> := [];
    var offset := 0;
    while offset < size
      invariant 0 <= offset <= size
      invariant offset > 0 ==> index >= 0 && Min(blockSize, size) <= MAX_BLOCK_SIZE
      invariant index >= 0 ==> Covers(blocks, index, offset)
      invariant index >= 0 ==> forall k :: 0 <= k < |blocks| ==>
                blocks[k].length == Min(blockSize, size - blocks[k].offset)
      invariant offset == 0 <==> blocks == []
    {
      var length := Min(blockSize, size - offset);
      var made := MakeBlock(index, offset, length);
      if made.Err? {
        return Err(InvalidValue);
      }
      CoversAppend(blocks, index, offset, made.value);
      blocks := blocks + [made.value];
      offset := offset + length;
    }
    return Ok(blocks);
  }

  /** `block_at`: the remainder by a zero block size is Python's ZeroDivisionError. */
  function BlockAt(size: int, offset: int, blockSize: int): Result<Block, BlockError> {
    if !(0 <= offset < size) then Err(InvalidValue)
    else if blockSize == 0 then Err(DivisionByZero)
    else if offset % blockSize != 0 then Err(InvalidValue)
    else MakeBlock(0, offset, Min(blockSize, size - offset))
  }

  lemma {:induction false} PlannedOffset(blocks: seq<Block>, index: nat, size: nat, blockSize: nat, k: nat)
    requires blockSize > 0
    requires Planned(blocks, index, size, blockSize)
    requires k < |blocks|
    ensures blocks[k].offset == k * blockSize
  {
    assert Placed(blocks, index, k);
    if k > 0 {
      PlannedOffset(blocks, index, size, blockSize, k - 1);
      BlockWithin(blocks, index, size, k);
      assert Placed(blocks, index, k);
      assert blocks[k - 1].length == Min(blockSize, size - blocks[k - 1].offset) == blockSize;
      StepMultiple(k, blockSize);
    }
  }

  /** The two ways of locating a block agree: `block_at` answers at an offset exactly when the
      plan has a block there, and it answers with that block (always numbered piece 0). */
  lemma BlockAtAgrees(blocks: seq<Block>, index: nat, size: nat, blockSize: nat, offset: nat)
    requires 0 < blockSize
    requires Min(blockSize, size) <= MAX_BLOCK_SIZE
    requires Planned(blocks, index, size, blockSize)
    ensures BlockAt(size, offset, blockSize).Ok? <==> offset in Offsets(blocks)
    ensures forall k :: 0 <= k < |blocks| && blocks[k].offset == offset ==>
              BlockAt(size, offset, blockSize) == Ok(blocks[k].(index := 0))
  {
    forall k | 0 <= k < |blocks| && blocks[k].offset == offset
      ensures BlockAt(size, offset, blockSize) == Ok(blocks[k].(index := 0))
    {
      PlannedOffset(blocks, index, size, blockSize, k);
      BlockWithin(blocks, index, size, k);
      MultipleHasNoRemainder(k, blockSize);
    }
    if BlockAt(size, offset, blockSize).Ok? {
      var k := CoveringBlock(blocks, index, size, offset);
      PlannedOffset(blocks, index, size, blockSize, k);
      SameMultiple(k, offset, blockSize);
      assert blocks[k].offset == offset;
    }
  }

  lemma StepMultiple(k: nat, n: nat)
    requires k > 0
    ensures k * n == (k - 1) * n + n
  {
  }

  /** A multiple of n strictly between -n and n is zero times n. */
  lemma MulGrows(m: int, n: int)
    requires n >= 0
    ensures m >= 1 ==> m * n >= n
    ensures m <= -1 ==> m * n <= -n
  {
  }

  lemma MultipleHasNoRemainder(k: nat, n: nat)
    requires n > 0
    ensures (k * n) % n == 0
  {
    var q, rem := (k * n) / n, (k * n) % n;
    assert k * n == q * n + rem;
    assert (k - q) * n == rem;
    MulGrows(k - q, n);
  }

  lemma SameMultiple(k: nat, x: nat, n: nat)
    requires n > 0 && x % n == 0
    requires k * n <= x < k * n + n
    ensures x == k * n
  {
    var q := x / n;
    assert x == q * n;
    Distribute(q, k, n);
    MulGrows(q - k, n);
  }

  lemma Distribute(q: int, k: int, n: nat)
    ensures (q - k) * n == q * n - k * n
  {
  }
}
