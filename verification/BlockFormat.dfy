/**
 The on-memory format of a block (block.rs): a 24-byte `repr(C)` header, little-endian, followed by
 the data. The checksum is a parameter `crc`; the four padding bytes at offset 4 are arbitrary.
 */
module BlockFormat {
  import opened Bytes

  const HEADER_SIZE: nat := 24

  /** crc32fast's `Hasher`, applied to a whole byte string. */
  type Crc = seq<byte> -> u32

  datatype Header = Header(crc32: u32, generation: u64, dataSize: u32)

  /** `BlockHeader::new`: both integer casts of the source wrap. */
  function NewHeader(crc: Crc, data: seq<byte>, generation: nat): Header {
    Header(crc(data), generation % 0x1_0000_0000_0000_0000, |data| % 0x1_0000_0000)
  }

  /** `write_to`: the bytes of the struct, padding included. */
  function EncodeHeader(h: Header, pad: seq<byte>): (s: seq<byte>)
    requires |pad| == 4
    ensures |s| == HEADER_SIZE
  {
    ToLE(h.crc32, 4) + pad + ToLE(h.generation, 8) + ToLE(h.dataSize, 4) + ToLE(0, 4)
  }

  /** `read_from`: `None` when the slice is shorter than a header. */
  function DecodeHeader(s: seq<byte>): Option<Header> {
    if |s| < HEADER_SIZE then None
    else
      FromLEBound(s[0..4]); FromLEBound(s[8..16]); FromLEBound(s[16..20]); Widths();
      Some(Header(FromLE(s[0..4]), FromLE(s[8..16]), FromLE(s[16..20])))
  }

  /** Whatever the padding and whatever follows, decoding returns the header that was written. */
  lemma HeaderRoundTrip(h: Header, pad: seq<byte>, rest: seq<byte>)
    requires |pad| == 4
    ensures DecodeHeader(EncodeHeader(h, pad) + rest) == Some(h)
  {
    var s := EncodeHeader(h, pad) + rest;
    Widths();
    LERoundTrip(h.crc32, 4);
    LERoundTrip(h.generation, 8);
    LERoundTrip(h.dataSize, 4);
    assert s[0..4] == ToLE(h.crc32, 4);
    assert s[8..16] == ToLE(h.generation, 8);
    assert s[16..20] == ToLE(h.dataSize, 4);
  }

  /** Only the first 24 bytes of a block decide its header. */
  lemma HeaderIsPrefix(s: seq<byte>, s': seq<byte>)
    requires |s| >= HEADER_SIZE && |s'| >= HEADER_SIZE
    requires s[..HEADER_SIZE] == s'[..HEADER_SIZE]
    ensures DecodeHeader(s) == DecodeHeader(s')
  {
    assert s[0..4] == s[..HEADER_SIZE][0..4] == s'[0..4];
    assert s[8..16] == s[..HEADER_SIZE][8..16] == s'[8..16];
    assert s[16..20] == s[..HEADER_SIZE][16..20] == s'[16..20];
  }

  /** `read_verified` on the bytes of one block: header, bounds check, checksum, data. */
  function ReadVerified(crc: Crc, block: seq<byte>): Option<seq<byte>> {
    match DecodeHeader(block)
    case None => None
    case Some(h) =>
      var end := HEADER_SIZE + h.dataSize;
      if end > |block| then None
      else if crc(block[HEADER_SIZE..end]) != h.crc32 then None
      else Some(block[HEADER_SIZE..end])
  }

  /** Where the fields are: checksum at 0, generation at 8, data size at 16, the rest of the struct zero. */
  lemma HeaderLayout(h: Header, pad: seq<byte>)
    requires |pad| == 4
    ensures var s := EncodeHeader(h, pad);
            && FromLE(s[0..4]) == h.crc32 && s[4..8] == pad && FromLE(s[8..16]) == h.generation
            && FromLE(s[16..20]) == h.dataSize && s[20..24] == [0, 0, 0, 0]
  {
    var s := EncodeHeader(h, pad);
    HeaderRoundTrip(h, pad, []);
    assert s + [] == s;
    assert s[20..24] == ToLE(0, 4);
    assert ToLE(0, 4) == [0] + ToLE(0, 3) && ToLE(0, 3) == [0] + ToLE(0, 2);
    assert ToLE(0, 2) == [0] + ToLE(0, 1) && ToLE(0, 1) == [0] + ToLE(0, 0);
  }

  /** A block reads as `data` exactly when its size field is the length of `data`, its checksum field is the
      checksum of `data`, and `data` follows the 24 bytes of the header. */
  lemma ReadsExactly(crc: Crc, block: seq<byte>, data: seq<byte>)
    ensures ReadVerified(crc, block) == Some(data) <==>
              && 24 + |data| <= |block| && FromLE(block[16..20]) == |data| && FromLE(block[0..4]) == crc(data)
              && block[24..24 + |data|] == data
  {
  }

  /** The header copy of `allocate_and_write` on one block. */
  function PutHeader(block: seq<byte>, h: Header, pad: seq<byte>): (b: seq<byte>)
    requires |pad| == 4 && |block| >= HEADER_SIZE
    ensures |b| == |block| && DecodeHeader(b) == Some(h)
  {
    HeaderRoundTrip(h, pad, block[HEADER_SIZE..]);
    EncodeHeader(h, pad) + block[HEADER_SIZE..]
  }

  /** The data copy of `allocate_and_write` on one block. */
  function PutData(block: seq<byte>, data: seq<byte>): (b: seq<byte>)
    requires HEADER_SIZE + |data| <= |block|
    ensures |b| == |block| && DecodeHeader(b) == DecodeHeader(block)
    ensures b[HEADER_SIZE..HEADER_SIZE + |data|] == data
  {
    var b := block[..HEADER_SIZE] + data + block[HEADER_SIZE + |data|..];
    HeaderIsPrefix(block, b);
    b
  }

  /** The block holds exactly `data`, written with `generation`. */
  ghost predicate Holds(crc: Crc, block: seq<byte>, data: seq<byte>, generation: nat) {
    && DecodeHeader(block) == Some(NewHeader(crc, data, generation))
    && HEADER_SIZE + |data| <= |block| && |data| < 0x1_0000_0000
    && block[HEADER_SIZE..HEADER_SIZE + |data|] == data
  }

  /** Writing header and data, in that order, then reading (`allocate_and_write` followed by
      `read_verified`) returns the data, whatever the block held before, exactly when the length
      survives the cast to `u32`. */
  lemma WriteThenRead(crc: Crc, block: seq<byte>, data: seq<byte>, generation: nat, pad: seq<byte>)
    requires |pad| == 4 && HEADER_SIZE + |data| <= |block|
    ensures var b := PutData(PutHeader(block, NewHeader(crc, data, generation), pad), data);
            && (Holds(crc, b, data, generation) <==> |data| < 0x1_0000_0000)
            && (ReadVerified(crc, b) == Some(data) <==> |data| < 0x1_0000_0000)
  {
    var b := PutData(PutHeader(block, NewHeader(crc, data, generation), pad), data);
    if ReadVerified(crc, b) == Some(data) {
      assert |data| % 0x1_0000_0000 == |data|;
    }
  }

  /** A block that holds `data` reads as `data`. */
  lemma HeldIsRead(crc: Crc, block: seq<byte>, data: seq<byte>, generation: nat)
    requires Holds(crc, block, data, generation)
    ensures ReadVerified(crc, block) == Some(data)
  {
  }

  // ---- a block as header and body ----------------------------------------------------------

  /** What a block's bytes say: the header, and everything after it. */
  datatype Block = Block(header: Header, body: seq<byte>)

  function View(block: seq<byte>): Block
    requires |block| >= HEADER_SIZE
  {
    Block(DecodeHeader(block).value, block[HEADER_SIZE..])
  }

  function Overwrite(body: seq<byte>, data: seq<byte>): (b: seq<byte>)
    requires |data| <= |body|
    ensures |b| == |body| && b[..|data|] == data
  {
    data + body[|data|..]
  }

  function ReadBlock(crc: Crc, b: Block): Option<seq<byte>> {
    if b.header.dataSize > |b.body| || crc(b.body[..b.header.dataSize]) != b.header.crc32 then None
    else Some(b.body[..b.header.dataSize])
  }

  /** The byte-level operations do to a block's bytes what `Block` says, whatever the padding. */
  lemma ViewIsExact(crc: Crc, block: seq<byte>, h: Header, pad: seq<byte>, data: seq<byte>)
    requires |pad| == 4 && HEADER_SIZE + |data| <= |block|
    ensures View(PutHeader(block, h, pad)) == View(block).(header := h)
    ensures View(PutData(block, data)) == View(block).(body := Overwrite(View(block).body, data))
    ensures ReadVerified(crc, block) == ReadBlock(crc, View(block))
  {
    var n := HEADER_SIZE + |data|;
    assert PutHeader(block, h, pad)[HEADER_SIZE..] == block[HEADER_SIZE..];
    assert block[HEADER_SIZE..][|data|..] == block[n..];
    assert PutData(block, data)[HEADER_SIZE..] == data + block[n..];
    var size := View(block).header.dataSize;
    if HEADER_SIZE + size <= |block| {
      assert block[HEADER_SIZE..][..size] == block[HEADER_SIZE..HEADER_SIZE + size];
    }
  }
}
