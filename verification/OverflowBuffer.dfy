/**
  The bump allocator behind long strings and nested values (common/in_mem_overflow_buffer.cpp).
 */
module OverflowBuffer {
  import opened Options

  const TEMP_PAGE_SIZE: nat := 0x4_0000
  const UINT64_RANGE: nat := 0x1_0000_0000_0000_0000

  class BufferBlock {
    const size: nat
    var currentOffset: nat

    constructor (size: nat)
      ensures this.size == size && currentOffset == 0
    {
      this.size := size;
      currentOffset := 0;
    }
  }

  /** Memory handed out: `size` bytes of a block. */
  datatype Range = Range(block: BufferBlock, offset: nat, size: nat)

  predicate Disjoint(a: Range, b: Range) {
    a.block != b.block || a.offset + a.size <= b.offset || b.offset + b.size <= a.offset
  }

  ghost predicate AllDisjoint(ranges: seq<Range>) {
    forall i, j :: 0 <= i < j < |ranges| && ranges[i].size > 0 && ranges[j].size > 0 ==> Disjoint(ranges[i], ranges[j])
  }

  /** Ranges in different blocks do not overlap. */
  lemma {:induction false} BothDisjoint(a: seq<Range>, b: seq<Range>)
    requires AllDisjoint(a) && AllDisjoint(b)
    requires forall r, s :: r in a && r.size > 0 && s in b && s.size > 0 ==> r.block != s.block
    ensures AllDisjoint(a + b)
  {
    var all := a + b;
    forall i, j | 0 <= i < j < |all| && all[i].size > 0 && all[j].size > 0 ensures Disjoint(all[i], all[j]) {
      if i < |a| && j >= |a| { assert all[i] in a && all[j] in b; }
      if i >= |a| { assert all[i] == b[i - |a|] && all[j] == b[j - |a|]; }
    }
  }

  function Max(a: nat, b: nat): nat { if a < b then b else a }

  function Min(a: nat, b: nat): nat { if a < b then a else b }

  ghost predicate PowerOfTwo(n: nat) {
    n == 1 || (n > 0 && n % 2 == 0 && PowerOfTwo(n / 2))
  }

  /** The least power of two that is not below `n`. */
  function BitCeil(n: nat): (r: nat)
    ensures PowerOfTwo(r) && n <= r && (r > 1 ==> r < 2 * n)
  {
    BitCeilFrom(n, 1)
  }

  function BitCeilFrom(n: nat, p: nat): (r: nat)
    requires PowerOfTwo(p)
    ensures PowerOfTwo(r) && n <= r && (r > p ==> r < 2 * n)
    decreases if p < n then n - p else 0
  {
    if p >= n then p else BitCeilFrom(n, 2 * p)
  }

  class InMemOverflowBuffer {
    var blocks: seq<BufferBlock>
    /** What has been handed out since the buffer was last reset. */
    ghost var handed: seq<Range>

    ghost predicate Blocks()
      reads this, blocks
    {
      && (forall i, j :: 0 <= i < j < |blocks| ==> blocks[i] != blocks[j])
      && (forall i :: 0 <= i < |blocks| ==> blocks[i].currentOffset <= blocks[i].size < UINT64_RANGE)
    }

    /** Ranges that are not empty lie in the used part of blocks that are kept, and do not overlap. */
    ghost predicate Valid()
      reads this, blocks
    {
      && Blocks()
      && (forall r :: r in handed && r.size > 0 ==> r.block in blocks && r.offset + r.size <= r.block.currentOffset)
      && AllDisjoint(handed)
    }

    constructor ()
      ensures Valid() && blocks == [] && handed == []
    {
      blocks, handed := [], [];
    }

    /** The offset and the size do not fit 64 bits together. */
    predicate Wraps(size: nat)
      reads this, blocks
    {
      blocks != [] && blocks[|blocks| - 1].currentOffset + size >= UINT64_RANGE
    }

    /** Exactly when the last block, if there is one, has not that many bytes left; unless the offset wraps around. */
    predicate RequireNewBlock(size: nat): (b: bool)
      reads this, blocks
      ensures Blocks() && !Wraps(size) ==>
                (b <==> blocks == [] || blocks[|blocks| - 1].size - blocks[|blocks| - 1].currentOffset < size)
    {
      blocks == [] || (blocks[|blocks| - 1].currentOffset + size) % UINT64_RANGE > blocks[|blocks| - 1].size
    }

    /** The blocks without a last one from which nothing was taken. */
    function UsedBlocks(): seq<BufferBlock>
      reads this, blocks
    {
      if blocks != [] && blocks[|blocks| - 1].currentOffset == 0 then blocks[..|blocks| - 1] else blocks
    }

    /**
      Hands out `size` bytes that overlap nothing handed out before; the memory may run out. Only a
      block nothing was taken from is given up. If the new offset wraps around, no new block is
      taken, the bytes reach beyond the block and the offset moves back over bytes in use.
     */
    method AllocateSpace(size: nat, outOfMemory: bool) returns (r: Option<Range>)
      requires Blocks() && size < UINT64_RANGE
      modifies this, blocks
      ensures Blocks() && r.None? == (outOfMemory && old(RequireNewBlock(size)))
      ensures old(Valid()) ==> (Valid() <==> !old(Wraps(size)))
      ensures r.Some? ==> r.value.size == size && r.value.block in blocks
      ensures r.Some? ==> (r.value.offset + size <= r.value.block.size <==> !old(Wraps(size)))
      ensures handed == old(handed) + if r.Some? then [r.value] else []
      ensures old(RequireNewBlock(size)) ==> blocks == old(UsedBlocks()) + if r.Some? then [r.value.block] else []
      ensures !old(RequireNewBlock(size)) ==>
                var last := old(blocks)[|old(blocks)| - 1];
                blocks == old(blocks) && r == Some(Range(last, old(last.currentOffset), size))
      ensures old(RequireNewBlock(size)) && r.Some? ==> fresh(r.value.block) && r.value.offset == 0
      ensures r.Some? ==> r.value.block == blocks[|blocks| - 1]
      ensures r.Some? && old(blocks) == [] ==> r.value.block.size == size
      ensures r.Some? ==> r.value.block.currentOffset == (r.value.offset + size) % UINT64_RANGE
    {
      if RequireNewBlock(size) {
        if blocks != [] && blocks[|blocks| - 1].currentOffset == 0 {
          DropLast();
        }
        var ok := AllocateNewBlock(size, outOfMemory);
        if !ok {
          return None;
        }
      }
      var range := TakeFromLast(size);
      return Some(range);
    }

    /** Gives up the last block, from which nothing was taken. */
    method DropLast()
      requires Blocks() && blocks != [] && blocks[|blocks| - 1].currentOffset == 0
      modifies this`blocks
      ensures Blocks() && (old(Valid()) ==> Valid()) && blocks == old(blocks)[..|old(blocks)| - 1]
    {
      ghost var last, was := blocks[|blocks| - 1], blocks;
      blocks := blocks[..|blocks| - 1];
      if old(Valid()) {
        forall r | r in handed && r.size > 0 ensures r.block in blocks {
          assert r.block in was && r.block != last;
          var i :| 0 <= i < |was| && was[i] == r.block;
          assert blocks[i] == r.block;
        }
      }
    }

    /**
      Blocks double in size up to a page, and are never too small. Twice the size of the last block
      may not fit 64 bits, and the next power of two is then anything.
     */
    method AllocateNewBlock(size: nat, outOfMemory: bool) returns (ok: bool)
      requires Blocks() && size < UINT64_RANGE
      modifies this`blocks
      ensures ok == !outOfMemory && Blocks() && (old(Valid()) ==> Valid())
      ensures if ok then |blocks| == |old(blocks)| + 1 && blocks[..|old(blocks)|] == old(blocks) else blocks == old(blocks)
      ensures ok ==> var b := blocks[|blocks| - 1]; fresh(b) && b.currentOffset == 0 && size <= b.size
      ensures ok && old(blocks) == [] ==> blocks[0].size == size
      ensures ok && old(blocks) != [] ==>
                var was, b := old(blocks)[|old(blocks)| - 1], blocks[|blocks| - 1];
                && b.size <= Max(TEMP_PAGE_SIZE, size)
                && (2 * was.size <= UINT64_RANGE / 2 ==> Min(TEMP_PAGE_SIZE, 2 * was.size) <= b.size)
    {
      if outOfMemory {
        return false;
      }
      var capacity := size;
      if blocks != [] {
        var twice := blocks[|blocks| - 1].size * 2 % UINT64_RANGE;
        var ceiling: nat := *;
        if twice <= UINT64_RANGE / 2 {
          ceiling := BitCeil(twice);
        }
        capacity := Max(Min(TEMP_PAGE_SIZE, ceiling), size);
      }
      var block := new BufferBlock(capacity);
      blocks := blocks + [block];
      return true;
    }

    method TakeFromLast(size: nat) returns (r: Range)
      requires Blocks() && blocks != [] && size < UINT64_RANGE
      requires (blocks[|blocks| - 1].currentOffset + size) % UINT64_RANGE <= blocks[|blocks| - 1].size
      modifies this`handed, blocks[|blocks| - 1]
      ensures Blocks() && handed == old(handed) + [r]
      ensures old(Valid()) ==> (Valid() <==> !old(Wraps(size)))
      ensures r == Range(blocks[|blocks| - 1], old(blocks[|blocks| - 1].currentOffset), size)
      ensures blocks[|blocks| - 1].currentOffset == (r.offset + size) % UINT64_RANGE
    {
      var block := blocks[|blocks| - 1];
      r := Range(block, block.currentOffset, size);
      block.currentOffset := (block.currentOffset + size) % UINT64_RANGE;
      handed := handed + [r];
      assert r in handed;
    }

    /** Keeps the last block and takes back all memory. */
    method ResetBuffer()
      requires Valid()
      modifies this, blocks
      ensures Valid() && handed == [] && blocks == if old(blocks) == [] then [] else [old(blocks)[|old(blocks)| - 1]]
      ensures blocks != [] ==> blocks[0].currentOffset == 0
    {
      handed := [];
      if blocks != [] {
        var last := blocks[|blocks| - 1];
        last.currentOffset := 0;
        blocks := [last];
      }
    }

    /** Takes over the blocks of another buffer, with what was handed out of them. */
    method Merge(other: InMemOverflowBuffer)
      requires Valid() && other != this && other.Valid() && forall b :: b in blocks ==> b !in other.blocks
      modifies this, other
      ensures Valid() && other.Valid() && handed == old(handed) + old(other.handed) && other.handed == []
      ensures blocks == old(blocks) + old(other.blocks) && other.blocks == []
    {
      BothDisjoint(handed, other.handed);
      assert forall i, j :: 0 <= i < |blocks| && 0 <= j < |other.blocks| ==> blocks[i] != other.blocks[j] by {
        assert forall i :: 0 <= i < |blocks| ==> blocks[i] in blocks;
      }
      blocks := blocks + other.blocks;
      handed := handed + other.handed;
      other.blocks, other.handed := [], [];
    }
  }

  /** A request that needs no new block, for a buffer with one block. */
  method AllocateInOnly(buffer: InMemOverflowBuffer, block: BufferBlock, size: nat) returns (r: Range)
    requires buffer.Blocks() && buffer.blocks == [block] && size < UINT64_RANGE && !buffer.RequireNewBlock(size)
    modifies buffer, block
    ensures buffer.Blocks() && buffer.blocks == [block] && r == Range(block, old(block.currentOffset), size)
    ensures block.currentOffset == (old(block.currentOffset) + size) % UINT64_RANGE
  {
    var range := buffer.AllocateSpace(size, false);
    r := range.value;
  }

  method AllocateFirst(size: nat) returns (buffer: InMemOverflowBuffer, r: Range)
    requires size < UINT64_RANGE
    ensures fresh(buffer) && fresh(r.block) && buffer.Blocks() && buffer.blocks == [r.block]
    ensures r.offset == 0 && r.size == size == r.block.currentOffset <= r.block.size
  {
    buffer := new InMemOverflowBuffer();
    var range := buffer.AllocateSpace(size, false);
    r := range.value;
    assert |buffer.blocks| == 1;
  }

  /** Eight bytes, a request that wraps around, and four bytes more: the last overlap the first. */
  method WrappingRequest() returns (first: Range, last: Range)
    ensures first.size == 8 && last.size == 4 && !Disjoint(first, last)
  {
    var buffer;
    buffer, first := AllocateFirst(8);
    var _ := AllocateInOnly(buffer, first.block, UINT64_RANGE - 4);
    last := AllocateInOnly(buffer, first.block, 4);
  }
}
