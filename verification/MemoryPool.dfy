/**
 The memory pool (pool.rs): one byte region cut into fixed-size blocks and a stack of free block
 numbers. `Memory` says what writing part of the region does to each block.
 */
module Memory {
  import opened Bytes

  function Cut(mem: seq<byte>, at: nat, size: nat): (s: seq<byte>)
    requires at + size <= |mem|
    ensures |s| == size
  {
    mem[at..at + size]
  }

  /** Where block `b` starts: `b * size`, as repeated addition. */
  function Offset(size: nat, b: nat): nat {
    if b == 0 then 0 else Offset(size, b - 1) + size
  }

  /** `data` copied over `s` at offset `at`. */
  function Splice(s: seq<byte>, at: nat, data: seq<byte>): (r: seq<byte>)
    requires at + |data| <= |s|
    ensures |r| == |s|
  {
    s[..at] + data + s[at + |data|..]
  }

  lemma {:induction false} OffsetIsProduct(size: nat, b: nat)
    ensures Offset(size, b) == b * size
  {
    if b > 0 {
      OffsetIsProduct(size, b - 1);
      assert b * size == (b - 1) * size + size;
    }
  }

  lemma {:induction false} Apart(size: nat, b: nat, c: nat)
    requires b < c
    ensures Offset(size, b) + size <= Offset(size, c)
  {
    if b < c - 1 { Apart(size, b, c - 1); }
  }

  lemma SpliceSame(mem: seq<byte>, x: nat, size: nat, at: nat, data: seq<byte>)
    requires x + size <= |mem| && at + |data| <= size
    ensures Cut(Splice(mem, x + at, data), x, size) == Splice(Cut(mem, x, size), at, data)
  {
    var l, r := Cut(Splice(mem, x + at, data), x, size), Splice(Cut(mem, x, size), at, data);
    forall i | 0 <= i < size ensures l[i] == r[i] {}
  }

  lemma SpliceApart(mem: seq<byte>, x: nat, y: nat, size: nat, at: nat, data: seq<byte>)
    requires x + size <= |mem| && y + size <= |mem| && at + |data| <= size
    requires x + size <= y || y + size <= x
    ensures Cut(Splice(mem, x + at, data), y, size) == Cut(mem, y, size)
  {
    var l, r := Cut(Splice(mem, x + at, data), y, size), Cut(mem, y, size);
    forall i | 0 <= i < size ensures l[i] == r[i] {}
  }

  function BlockAt(mem: seq<byte>, size: nat, total: nat, b: nat): (s: seq<byte>)
    requires |mem| == Offset(size, total) && b < total
    ensures |s| == size
  {
    Apart(size, b, total);
    Cut(mem, Offset(size, b), size)
  }

  lemma SpliceOne(mem: seq<byte>, size: nat, total: nat, b: nat, at: nat, data: seq<byte>, c: nat)
    requires |mem| == Offset(size, total) && b < total && c < total && at + |data| <= size
    ensures Offset(size, b) + size <= |mem|
    ensures BlockAt(Splice(mem, Offset(size, b) + at, data), size, total, c) ==
            if c == b then Splice(BlockAt(mem, size, total, b), at, data) else BlockAt(mem, size, total, c)
  {
    Apart(size, b, total);
    Apart(size, c, total);
    if c == b {
      SpliceSame(mem, Offset(size, b), size, at, data);
    } else {
      if b < c { Apart(size, b, c); } else { Apart(size, c, b); }
      SpliceApart(mem, Offset(size, b), Offset(size, c), size, at, data);
    }
  }

  /** `blocks` lists the bytes of every block of the region. */
  ghost predicate Divides(mem: seq<byte>, size: nat, blocks: seq<seq<byte>>) {
    |mem| == Offset(size, |blocks|) && forall b: nat :: b < |blocks| ==> blocks[b] == BlockAt(mem, size, |blocks|, b)
  }

  /** Writing inside block `b` writes at the same offset of its bytes and touches no other block. */
  lemma SpliceBlock(mem: seq<byte>, size: nat, blocks: seq<seq<byte>>, b: nat, at: nat, data: seq<byte>)
    requires Divides(mem, size, blocks) && b < |blocks| && at + |data| <= size
    ensures Offset(size, b) + size <= |mem| && |blocks[b]| == size
    ensures Divides(Splice(mem, Offset(size, b) + at, data), size, blocks[b := Splice(blocks[b], at, data)])
  {
    Apart(size, b, |blocks|);
    var mem' := Splice(mem, Offset(size, b) + at, data);
    var blocks' := blocks[b := Splice(blocks[b], at, data)];
    forall c: nat | c < |blocks'| ensures blocks'[c] == BlockAt(mem', size, |blocks'|, c) {
      SpliceOne(mem, size, |blocks|, b, at, data, c);
    }
  }
}

module MemoryPool {
  import opened Bytes
  import opened Lists
  import opened Memory

  datatype PoolError = ZeroBlockSize | InvalidSize(totalSize: nat, blockSize: nat) | MmapFailed

  datatype BlockHandle = BlockHandle(poolId: int, blockIndex: int, offset: int, size: int)
  datatype PoolStats =
    PoolStats(totalBlocks: int, usedBlocks: int, freeBlocks: int, totalBytes: int, usedBytes: int)

  class Pool {
    const poolId: int
    const blockSize: nat
    const totalBlocks: nat
    const mem: array<byte>
    /** The `Vec` of free block numbers, used as a stack: top first. */
    var free: List<int>
    /** The region, block by block. */
    ghost var blocks: seq<seq<byte>>

    ghost predicate Valid()
      reads this, mem
    {
      |blocks| == totalBlocks && Divides(mem[..], blockSize, blocks)
    }

    constructor Zeroed(poolId: int, blockSize: nat, totalBlocks: nat)
      ensures Valid() && fresh(mem) && free == Countdown(totalBlocks)
      ensures forall i :: 0 <= i < mem.Length ==> mem[i] == 0
      ensures (this.poolId, this.blockSize, this.totalBlocks) == (poolId, blockSize, totalBlocks)
    {
      this.poolId, this.blockSize, this.totalBlocks := poolId, blockSize, totalBlocks;
      free := Countdown(totalBlocks);
      OffsetIsProduct(blockSize, totalBlocks);
      var m := new byte[totalBlocks * blockSize](_ => 0);
      mem := m;
      ghost var zeros := m[..];
      blocks := seq(totalBlocks, b requires 0 <= b < totalBlocks => BlockAt(zeros, blockSize, totalBlocks, b));
    }

    /** `new`: the sizes are checked before anything is mapped; `mapped` says whether `mmap` succeeds. */
    static method New(poolId: int, totalSize: nat, blockSize: nat, mapped: bool) returns (r: Result<Pool, PoolError>)
      ensures r.Ok? <==> blockSize > 0 && totalSize > 0 && totalSize % blockSize == 0 && mapped
      ensures r.Err? ==>
                r.error == if blockSize == 0 then ZeroBlockSize
                           else if totalSize == 0 || totalSize % blockSize != 0 then InvalidSize(totalSize, blockSize)
                           else MmapFailed
      ensures r.Ok? ==> fresh(r.value) && fresh(r.value.mem) && r.value.Valid() && r.value.blockSize == blockSize
      ensures r.Ok? ==> r.value.totalBlocks * blockSize == totalSize && r.value.free == Countdown(r.value.totalBlocks)
      ensures r.Ok? ==> r.value.poolId == poolId && forall i :: 0 <= i < r.value.mem.Length ==> r.value.mem[i] == 0
    {
      if blockSize == 0 {
        return Err(ZeroBlockSize);
      }
      if totalSize == 0 || totalSize % blockSize != 0 {
        return Err(InvalidSize(totalSize, blockSize));
      }
      if !mapped {
        return Err(MmapFailed);
      }
      var pool := new Pool.Zeroed(poolId, blockSize, totalSize / blockSize);
      return Ok(pool);
    }

    /** The block number in the handle is cast to 32 bits, the offset is not. */
    method Allocate() returns (h: Option<BlockHandle>)
      requires Valid()
      modifies this`free
      ensures Valid()
      ensures old(free).Nil? ==> h == None && free == Nil
      ensures old(free).Cons? ==>
                && h == Some(BlockHandle(poolId, old(free).head % 0x1_0000_0000, old(free).head * blockSize, blockSize))
                && free == old(free).tail
    {
      match free {
        case Nil =>
          h := None;
        case Cons(b, rest) =>
          free := rest;
          h := Some(BlockHandle(poolId, b % 0x1_0000_0000, b * blockSize, blockSize));
      }
    }

    /** The two assertions of `deallocate` are what it demands of its callers; a second free of the same
        block is accepted. */
    method Deallocate(h: BlockHandle)
      requires Valid() && h.poolId == poolId && 0 <= h.blockIndex < totalBlocks
      modifies this`free
      ensures Valid() && free == Cons(h.blockIndex, old(free))
    {
      free := Cons(h.blockIndex, free);
    }

    /** The handle points at block `b`. */
    ghost predicate PointsAt(h: BlockHandle, b: nat) {
      h.poolId == poolId && b < totalBlocks && h.offset == b * blockSize
    }

    /** Copies `data` into the slice at the handle's offset, `at` bytes in. */
    method Write(h: BlockHandle, ghost b: nat, at: nat, data: seq<byte>)
      requires Valid() && PointsAt(h, b) && at + |data| <= blockSize
      modifies mem, this`blocks
      ensures Valid() && |old(blocks)[b]| == blockSize
      ensures blocks == old(blocks)[b := Splice(old(blocks)[b], at, data)]
    {
      SpliceBlock(mem[..], blockSize, blocks, b, at, data);
      OffsetIsProduct(blockSize, b);
      var start := h.offset + at;
      forall i | 0 <= i < |data| {
        mem[start + i] := data[i];
      }
      assert mem[..] == Splice(old(mem[..]), start, data);
      blocks := blocks[b := Splice(blocks[b], at, data)];
    }

    /** The slice at the handle's offset. */
    method Slice(h: BlockHandle, ghost b: nat) returns (s: seq<byte>)
      requires Valid() && PointsAt(h, b)
      ensures s == blocks[b] && |s| == blockSize
    {
      Apart(blockSize, b, totalBlocks);
      OffsetIsProduct(blockSize, b);
      s := mem[h.offset..h.offset + blockSize];
      assert s == BlockAt(mem[..], blockSize, totalBlocks, b);
    }

    method Stats() returns (s: PoolStats)
      requires Valid()
      ensures s.freeBlocks == Len(free) && s.totalBlocks == totalBlocks
      ensures s.usedBlocks == if Len(free) <= totalBlocks then totalBlocks - Len(free) else 0
      ensures s.totalBytes == mem.Length && s.usedBytes == s.usedBlocks * blockSize
    {
      var n := Len(free);
      var used := if n <= totalBlocks then totalBlocks - n else 0;
      OffsetIsProduct(blockSize, totalBlocks);
      s := PoolStats(totalBlocks, used, n, totalBlocks * blockSize, used * blockSize);
    }
  }
}
