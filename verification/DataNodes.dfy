/** One data block in memory: its number, its count of unwritten bytes and its 8192 bytes. */
module DataNodes {
  import opened ByteCodec
  import opened Addressing

  datatype DataNode = DataNode(blockNum: nat, freeBytes: nat, data: Bytes, id: Bytes)

  predicate WellFormed(dn: DataNode) {
    |dn.data| == 8192 && dn.freeBytes <= 8184 && dn.blockNum < 0x1_0000_0000
  }

  /** The part of a node that holds data. */
  function Payload(dn: DataNode): (p: Bytes)
    requires |dn.data| == 8192
    ensures |p| == 8184
  {
    dn.data[8..]
  }

  function Zeros(n: nat): (z: Bytes)
    ensures |z| == n && forall i :: 0 <= i < n ==> z[i] == 0
  {
    seq(n, _ => 0)
  }

  /** `mem` with `buffer` at address `at`. */
  function Overwrite(mem: Bytes, at: nat, buffer: Bytes): (r: Bytes)
    requires at + |buffer| <= |mem|
    ensures |r| == |mem|
  {
    mem[..at] + buffer + mem[at + |buffer|..]
  }

  function EmptyNode(blockNum: nat): DataNode {
    DataNode(blockNum, 8184, Zeros(8192), [])
  }

  /** The append position of a node. */
  function Cursor(dn: DataNode): BlockOffset
    requires dn.freeBytes <= 8184
  {
    BlockOffset(dn.blockNum, 8192 - dn.freeBytes)
  }

  /** serialize_data_header: block number and free count go into the first eight bytes. */
  function SerializeHeader(dn: DataNode): (raw: Bytes)
    requires |dn.data| == 8192
    ensures |raw| == 8192
  {
    EncodeOffset(BlockOffset(dn.blockNum, dn.freeBytes)) + dn.data[8..]
  }

  /** The node that a stored image stands for. */
  function Deserialize(raw: Bytes, id: Bytes): DataNode
    requires |raw| >= 8
  {
    var header := DecodeOffset(raw[..8]);
    DataNode(header.blockNum, header.bytes, raw, id)
  }

  /** The stored image: four bytes of the block number, four of the free count, then the payload. */
  lemma HeaderLayout(dn: DataNode, i: nat)
    requires WellFormed(dn) && i < 8192
    ensures SerializeHeader(dn)[i] ==
            if i < 4 then ByteOf(dn.blockNum, i) else if i < 8 then ByteOf(dn.freeBytes, i - 4) else Payload(dn)[i - 8]
  {
    if i < 8 { OffsetLayout(BlockOffset(dn.blockNum, dn.freeBytes), i % 4); }
  }

  lemma HeaderRoundTrip(dn: DataNode, id: Bytes)
    requires WellFormed(dn)
    ensures var back := Deserialize(SerializeHeader(dn), id);
            WellFormed(back) && Payload(back) == Payload(dn) &&
            back.blockNum == dn.blockNum && back.freeBytes == dn.freeBytes
  {
    var bo := BlockOffset(dn.blockNum, dn.freeBytes);
    OffsetRoundTrip(bo);
    assert SerializeHeader(dn)[..8] == EncodeOffset(bo);
  }

  function Min(a: nat, b: nat): nat { if a <= b then a else b }

  function Max(a: nat, b: nat): nat { if a <= b then b else a }

  /** The free count after a write that ended at byte `cursor` of the block. */
  function FreeAfter(freeBytes: nat, cursor: nat): (r: nat)
    requires freeBytes <= 8184 && cursor <= 8192
    ensures 8192 - r == Max(8192 - freeBytes, cursor)
  {
    if 8192 - freeBytes <= cursor then 8192 - cursor else freeBytes
  }

  /** write_at: copies as much of `buffer[from..]` as the block can take. */
  function WriteAt(dn: DataNode, buffer: Bytes, from: nat, bo: BlockOffset): (r: (DataNode, nat))
    requires WellFormed(dn) && bo.blockNum == dn.blockNum && Proper(bo) && from <= |buffer|
    ensures WellFormed(r.0) && r.0.blockNum == dn.blockNum && r.0.id == dn.id
    ensures r.1 == Min(|buffer| - from, 8192 - bo.bytes)
    ensures r.0.freeBytes == FreeAfter(dn.freeBytes, bo.bytes + r.1)
    ensures Payload(r.0) == Overwrite(Payload(dn), bo.bytes - 8, buffer[from..from + r.1])
  {
    var count := Min(|buffer| - from, 8192 - bo.bytes);
    var cursor := bo.bytes + count;
    var data := dn.data[..bo.bytes] + buffer[from..from + count] + dn.data[cursor..];
    assert data[8..] == Overwrite(dn.data[8..], bo.bytes - 8, buffer[from..from + count]);
    (dn.(data := data, freeBytes := FreeAfter(dn.freeBytes, cursor)), count)
  }

  /** read_at: the bytes it appends to the output. */
  function ReadAt(dn: DataNode, bo: BlockOffset, bytes: nat): (r: Bytes)
    requires WellFormed(dn) && bo.blockNum == dn.blockNum && Proper(bo)
    ensures |r| == Min(bytes, 8192 - bo.bytes)
    ensures r == Payload(dn)[bo.bytes - 8..bo.bytes - 8 + |r|]
  {
    var count := Min(bytes, 8192 - bo.bytes);
    dn.data[bo.bytes..bo.bytes + count]
  }
}
