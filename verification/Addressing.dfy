/** Addresses inside the store: a block number and a byte position within that block. */
module Addressing {
  import opened ByteCodec

  /** A block is 8192 bytes: an 8-byte header, then 8184 bytes of data. */
  const BLOCK_SIZE := 8192
  const DATA_BEGIN := 8

  /** With this many blocks every linear address, hence every length, fits in 32 bits. */
  const MAX_BLOCKS := 524_800

  /** The number of bytes that so many data nodes hold. */
  const LIMIT := 4_294_963_200

  datatype BlockOffset = BlockOffset(blockNum: nat, bytes: nat)

  const EMPTY := BlockOffset(0, 0)

  /** A position on the data part of a block. The position one past the last byte is allowed:
      it is where the append cursor of a full block stands, and it names the same place as the
      first data byte of the following block. */
  predicate Proper(bo: BlockOffset) {
    DATA_BEGIN <= bo.bytes <= BLOCK_SIZE
  }

  /** A proper offset that is not the end-of-block alias. */
  predicate Normal(bo: BlockOffset) {
    DATA_BEGIN <= bo.bytes < BLOCK_SIZE
  }

  /** Position in the concatenation of the data parts of all blocks. */
  function Linear(bo: BlockOffset): int {
    bo.blockNum * 8184 + bo.bytes - 8
  }

  /** data_node::advance_block_offset */
  function Advance(bo: BlockOffset, length: nat): (r: BlockOffset)
    requires Proper(bo)
    ensures Normal(r)
    ensures Linear(r) == Linear(bo) + length
  {
    var blocks := length / 8184;
    var rest := length - blocks * 8184;
    var bytes := bo.bytes + rest;
    if bytes >= BLOCK_SIZE then
      BlockOffset(bo.blockNum + blocks + 1, DATA_BEGIN + (bytes - BLOCK_SIZE))
    else
      BlockOffset(bo.blockNum + blocks, bytes)
  }

  /** The order in which the free list compares offsets. */
  predicate Before(a: BlockOffset, b: BlockOffset) {
    a.blockNum < b.blockNum || (a.blockNum == b.blockNum && a.bytes < b.bytes)
  }

  lemma LinearInjective(a: BlockOffset, b: BlockOffset)
    requires Normal(a) && Normal(b)
    ensures Linear(a) == Linear(b) <==> a == b
  {
  }

  /** Comparing pairs is comparing linear addresses, except that the alias of a block's end
      precedes the start of the next block although both name one address. */
  lemma BeforeIsLinear(a: BlockOffset, b: BlockOffset)
    requires Proper(a) && Proper(b)
    ensures Linear(a) < Linear(b) ==> Before(a, b)
    ensures Before(a, b) ==> Linear(a) <= Linear(b)
    ensures Before(a, b) && Linear(a) == Linear(b) <==>
            a.bytes == BLOCK_SIZE && b == BlockOffset(a.blockNum + 1, DATA_BEGIN)
  {
  }

  function EncodeOffset(bo: BlockOffset): (b: Bytes)
    ensures |b| == 8
  {
    ToLittleEndian(bo.blockNum, 4) + ToLittleEndian(bo.bytes, 4)
  }

  function DecodeOffset(b: Bytes): BlockOffset
    requires |b| == 8
  {
    BlockOffset(FromLittleEndian(b[..4]), FromLittleEndian(b[4..]))
  }

  /** Four bytes of the block number, then four bytes of the position, each least significant first. */
  lemma OffsetLayout(bo: BlockOffset, i: nat)
    requires i < 4
    ensures EncodeOffset(bo)[i] == ByteOf(bo.blockNum, i) && EncodeOffset(bo)[4 + i] == ByteOf(bo.bytes, i)
  {
    LittleEndianAt(bo.blockNum, 4, i);
    LittleEndianAt(bo.bytes, 4, i);
  }

  /** Offsets that a 32-bit block number and a 32-bit byte position can hold. */
  predicate Fits32(bo: BlockOffset) {
    bo.blockNum < 0x1_0000_0000 && bo.bytes < 0x1_0000_0000
  }

  lemma OffsetRoundTrip(bo: BlockOffset)
    requires Fits32(bo)
    ensures DecodeOffset(EncodeOffset(bo)) == bo
  {
    SpanOf4And8();
    LittleEndianRoundTrip(bo.blockNum, 4);
    LittleEndianRoundTrip(bo.bytes, 4);
    assert EncodeOffset(bo)[..4] == ToLittleEndian(bo.blockNum, 4);
    assert EncodeOffset(bo)[4..] == ToLittleEndian(bo.bytes, 4);
  }
}
