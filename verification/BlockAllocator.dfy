/** The block allocator (allocator.rs): header, checksum and generation on top of the memory pool. */
module BlockAllocator {
  import opened Bytes
  import opened Lists
  import opened Memory
  import opened BlockFormat
  import opened MemoryPool
  import opened IndexModel

  lemma PutsAreSplices(block: seq<byte>, h: Header, pad: seq<byte>, data: seq<byte>)
    requires |pad| == 4 && HEADER_SIZE + |data| <= |block|
    ensures PutHeader(block, h, pad) == Splice(block, 0, EncodeHeader(h, pad))
    ensures PutData(block, data) == Splice(block, HEADER_SIZE, data)
  {
    assert block[..0] == [];
  }

  class Allocator {
    const pool: Pool
    const nodeId: u32
    const crc: Crc
    /** The atomic counter; it wraps. */
    var generation: u64

    ghost predicate Valid()
      reads this, pool, pool.mem
    {
      pool.Valid() && HEADER_SIZE <= pool.blockSize
    }

    constructor (pool: Pool, nodeId: u32, crc: Crc)
      requires pool.Valid() && HEADER_SIZE <= pool.blockSize
      ensures Valid() && (this.pool, this.nodeId, generation) == (pool, nodeId, 1) && this.crc == crc
    {
      this.pool, this.nodeId, this.crc := pool, nodeId, crc;
      generation := 1;
    }

    /** The location of block `b`, written with this generation. */
    function LocationOf(b: int, gen: int): Location {
      Location(nodeId, b % 0x1_0000_0000, b * pool.blockSize, pool.blockSize, gen)
    }

    /** `pad` is whatever the four padding bytes of the header struct happen to hold. */
    method AllocateAndWrite(data: seq<byte>, pad: seq<byte>) returns (r: Option<Location>)
      requires Valid() && |pad| == 4 && (forall b :: b in Elems(pool.free) ==> 0 <= b < pool.totalBlocks)
      modifies this, pool, pool.mem
      ensures Valid()
      ensures r.None? <==> HEADER_SIZE + |data| > pool.blockSize || old(pool.free).Nil?
      ensures r.None? ==>
                pool.free == old(pool.free) && pool.blocks == old(pool.blocks) && generation == old(generation)
      ensures r.Some? ==>
        var b := old(pool.free).head;
        && 0 <= b < pool.totalBlocks
        && r == Some(LocationOf(b, old(generation)))
        && pool.free == old(pool.free).tail && generation == (old(generation) + 1) % 0x1_0000_0000_0000_0000
        && |pool.blocks[b]| == pool.blockSize && pool.blocks == old(pool.blocks)[b := pool.blocks[b]]
        && (|data| < 0x1_0000_0000 <==> Holds(crc, pool.blocks[b], data, old(generation)))
    {
      var maxData := pool.blockSize - HEADER_SIZE;
      if |data| > maxData {
        return None;
      }
      assert pool.free.Cons? ==> pool.free.head in Elems(pool.free);
      var handle := pool.Allocate();
      if handle.None? {
        return None;
      }
      var gen := generation;
      generation := (generation + 1) % 0x1_0000_0000_0000_0000;
      WriteBlock(handle.value, old(pool.free).head, data, gen, pad);
      r := Some(Location(nodeId, handle.value.blockIndex, handle.value.offset, pool.blockSize, gen));
    }

    /** The header, then the data, into the block's slice. */
    method WriteBlock(h: BlockHandle, ghost b: nat, data: seq<byte>, gen: nat, pad: seq<byte>)
      requires Valid() && pool.PointsAt(h, b) && |pad| == 4 && HEADER_SIZE + |data| <= pool.blockSize
      modifies pool`blocks, pool.mem
      ensures Valid()
      ensures |pool.blocks[b]| == pool.blockSize && pool.blocks == old(pool.blocks)[b := pool.blocks[b]]
      ensures |data| < 0x1_0000_0000 <==> Holds(crc, pool.blocks[b], data, gen)
    {
      var header := NewHeader(crc, data, gen);
      pool.Write(h, b, 0, EncodeHeader(header, pad));
      pool.Write(h, b, HEADER_SIZE, data);
      ghost var block := old(pool.blocks[b]);
      PutsAreSplices(block, header, pad, data);
      PutsAreSplices(PutHeader(block, header, pad), header, pad, data);
      WriteThenRead(crc, block, data, gen, pad);
    }

    /** Reads at the handle's offset; the block number and the generation play no part. */
    method ReadVerified(h: BlockHandle, ghost b: nat) returns (r: Option<seq<byte>>)
      requires Valid() && pool.PointsAt(h, b)
      ensures r == BlockFormat.ReadVerified(crc, pool.blocks[b])
    {
      var slice := pool.Slice(h, b);
      var header := DecodeHeader(slice);
      if header.None? {
        return None;
      }
      var end := HEADER_SIZE + header.value.dataSize;
      if end > |slice| {
        return None;
      }
      var data := slice[HEADER_SIZE..end];
      if crc(data) != header.value.crc32 {
        return None;
      }
      return Some(data);
    }

    method Deallocate(h: BlockHandle)
      requires Valid() && h.poolId == pool.poolId && 0 <= h.blockIndex < pool.totalBlocks
      modifies pool`free
      ensures Valid() && pool.free == Cons(h.blockIndex, old(pool.free))
    {
      pool.Deallocate(h);
    }
  }
}
