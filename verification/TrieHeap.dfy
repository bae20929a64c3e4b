/** How a trie lies in the flat memory: 32-byte nodes and value records, linked by offsets. */
module TrieHeap {
  import opened ByteCodec
  import opened Addressing
  import opened Tries

  const NODE_SIZE := 32

  /** The stored form of a node (trie_node_h_with_ncc_t). */
  datatype NodeRecord = NodeRecord(
    deleted: bool, isValue: bool, size: nat, next: BlockOffset, child: BlockOffset, keyChunk: Bytes)

  predicate RecordOk(n: NodeRecord) {
    n.size <= MAX_CHUNK && |n.keyChunk| == MAX_CHUNK && Fits32(n.next) && Fits32(n.child)
  }

  function HeaderByte(deleted: bool, isValue: bool, size: nat): byte
    requires size <= MAX_CHUNK
  {
    (if deleted then 1 else 0) + 6 + (if isValue then 8 else 0) + 16 * size
  }

  lemma HeaderBits(deleted: bool, isValue: bool, size: nat)
    requires size <= MAX_CHUNK
    ensures var h := HeaderByte(deleted, isValue, size);
            && h % 2 == (if deleted then 1 else 0) && h / 2 % 2 == 1 && h / 4 % 2 == 1
            && h / 8 % 2 == (if isValue then 1 else 0) && h / 16 == size
  {
  }

  /** Bit 0 is isDeleted, bits 1 and 2 hasNext and hasChild (always set), bit 3 isValue, the high
      four bits the chunk size. */
  function EncodeNode(n: NodeRecord): (b: Bytes)
    requires RecordOk(n)
    ensures |b| == NODE_SIZE
  {
    [HeaderByte(n.deleted, n.isValue, n.size)] +
    EncodeOffset(n.next) + EncodeOffset(n.child) + n.keyChunk
  }

  function DecodeNode(b: Bytes): (n: NodeRecord)
    requires |b| == NODE_SIZE
    ensures n.size <= MAX_CHUNK && |n.keyChunk| == MAX_CHUNK
  {
    NodeRecord(b[0] % 2 == 1, b[0] / 8 % 2 == 1, b[0] / 16, DecodeOffset(b[1..9]), DecodeOffset(b[9..17]), b[17..])
  }

  /** The 32 bytes of a node, one by one: the five fields of the header byte, the next offset, the child
      offset and the key chunk. */
  lemma NodeLayout(n: NodeRecord, i: nat)
    requires RecordOk(n) && i < 4
    ensures var b := EncodeNode(n);
            && b[0] % 2 == (if n.deleted then 1 else 0) && b[0] / 2 % 2 == 1 && b[0] / 4 % 2 == 1
            && b[0] / 8 % 2 == (if n.isValue then 1 else 0) && b[0] / 16 == n.size
            && b[1 + i] == ByteOf(n.next.blockNum, i) && b[5 + i] == ByteOf(n.next.bytes, i)
            && b[9 + i] == ByteOf(n.child.blockNum, i) && b[13 + i] == ByteOf(n.child.bytes, i)
            && b[17..32] == n.keyChunk
  {
    hide EncodeOffset, ByteOf;
    OffsetLayout(n.next, i);
    OffsetLayout(n.child, i);
    HeaderBits(n.deleted, n.isValue, n.size);
    var b := EncodeNode(n);
    assert b[0] == HeaderByte(n.deleted, n.isValue, n.size);
    assert b[1..9] == EncodeOffset(n.next) && b[9..17] == EncodeOffset(n.child);
    assert b[1 + i] == b[1..9][i] && b[5 + i] == b[1..9][4 + i];
    assert b[9 + i] == b[9..17][i] && b[13 + i] == b[9..17][4 + i];
  }

  lemma NodeRoundTrip(n: NodeRecord)
    requires RecordOk(n)
    ensures DecodeNode(EncodeNode(n)) == n
  {
    var b := EncodeNode(n);
    OffsetRoundTrip(n.next);
    OffsetRoundTrip(n.child);
    assert b[1..9] == EncodeOffset(n.next);
    assert b[9..17] == EncodeOffset(n.child);
    assert b[17..] == n.keyChunk;
  }

  const VALUE_HEADER: byte := 8

  /** The header of a value with isDeleted set: what a deletion writes. */
  const MARK: byte := 9

  /** The stored form of a value: a header byte, the length in eight bytes, the bytes. */
  function EncodeValue(v: Bytes): (b: Bytes)
    ensures |b| == 9 + |v|
  {
    [VALUE_HEADER] + ToLittleEndian(|v|, 8) + v
  }

  /** The bytes of a value record: a header with isValue set and nothing else, eight bytes of the
      length, least significant first, and the value. */
  lemma ValueLayout(v: Bytes, i: nat)
    requires i < 9 + |v|
    ensures EncodeValue(v)[i] == if i == 0 then 8 else if i < 9 then ByteOf(|v|, i - 1) else v[i - 9]
  {
    if 0 < i < 9 { LittleEndianAt(|v|, 8, i - 1); }
  }

  /** The value record of `v` lies at `at`. Its header may carry the mark of a deletion that went
      past the record before it. */
  ghost predicate ValueAt(mem: Bytes, at: BlockOffset, v: Bytes) {
    && Inside(mem, at, 9 + |v|) && (mem[Linear(at)] == VALUE_HEADER || mem[Linear(at)] == MARK)
    && mem[Linear(at) + 1..Linear(at) + 9 + |v|] == ToLittleEndian(|v|, 8) + v
  }

  lemma ValueWritten(mem: Bytes, at: BlockOffset, v: Bytes)
    requires Inside(mem, at, 9 + |v|) && mem[Linear(at)..Linear(at) + 9 + |v|] == EncodeValue(v)
    ensures ValueAt(mem, at, v)
  {
    var b := mem[Linear(at)..Linear(at) + 9 + |v|];
    assert mem[Linear(at)] == b[0];
    SliceOfSlice(mem, Linear(at), Linear(at) + 9 + |v|, 1, 9 + |v|);
    assert EncodeValue(v)[1..] == ToLittleEndian(|v|, 8) + v;
  }

  lemma BodyParts(mem: Bytes, at: BlockOffset, v: Bytes)
    requires ValueAt(mem, at, v) && |v| < 0x1_0000_0000
    ensures FromLittleEndian(mem[Linear(at) + 1..Linear(at) + 9]) == |v|
    ensures mem[Linear(at) + 9..Linear(at) + 9 + |v|] == v
  {
    var a := Linear(at);
    var b := ToLittleEndian(|v|, 8) + v;
    SliceOfSlice(mem, a + 1, a + 9 + |v|, 0, 8);
    SliceOfSlice(mem, a + 1, a + 9 + |v|, 8, 8 + |v|);
    assert b[..8] == ToLittleEndian(|v|, 8) && b[8..] == v;
    SpanOf4And8();
    LittleEndianRoundTrip(|v|, 8);
  }

  /** The offset by which a tree is linked. */
  function Pointer(t: Tree): BlockOffset {
    if t.Leaf? then EMPTY else t.at
  }

  /** `n` is the record of a node with this chunk and these links. Only a node that ends a key may
      read as a value: no search looks at that bit, and the mark of a deletion may have set it. */
  predicate Describes(n: NodeRecord, chunk: Bytes, child: BlockOffset, next: BlockOffset) {
    && RecordOk(n) && (n.isValue ==> chunk == []) && n.size == |chunk| && n.keyChunk[..n.size] == chunk
    && n.child == child && n.next == next
  }

  predicate Inside(mem: Bytes, at: BlockOffset, length: nat) {
    Proper(at) && Linear(at) + length <= |mem|
  }

  /** The record stored at `at`. */
  function Stored(mem: Bytes, at: BlockOffset): NodeRecord
    requires Inside(mem, at, NODE_SIZE)
  {
    DecodeNode(mem[Linear(at)..Linear(at) + 32])
  }

  /** The memory holds the tree: every node and value lies where it should, linked as it should. */
  ghost predicate Repr(mem: Bytes, t: Tree) {
    match t
    case Leaf => true
    case Value(at, v) => ValueAt(mem, at, v)
    case Node(at, chunk, child, next) =>
      && Inside(mem, at, NODE_SIZE) && Describes(Stored(mem, at), chunk, Pointer(child), Pointer(next))
      && Repr(mem, child) && Repr(mem, next)
  }

  /** The addresses of one node; none while it has no place. */
  function Own(at: BlockOffset): set<int> {
    if at == EMPTY then {} else Interval(Linear(at), 32)
  }

  /** All addresses of a tree. */
  function Footprint(t: Tree): set<int> {
    match t
    case Leaf => {}
    case Value(at, v) => Interval(Linear(at), 9 + |v|)
    case Node(at, _, child, next) => Own(at) + Footprint(child) + Footprint(next)
  }

  /** Nodes and values do not overlap. */
  ghost predicate Separate(t: Tree) {
    match t
    case Node(at, _, child, next) =>
      && Own(at) !! Footprint(child) && Own(at) !! Footprint(next) && Footprint(child) !! Footprint(next)
      && Separate(child) && Separate(next)
    case _ => true
  }

  /** The addresses around a place, with those of the root node. */
  function Around(c: Ctx): set<int> {
    match c
    case Top => Interval(0, 32)
    case NextOf(at, _, child, up) => Around(up) + Own(at) + Footprint(child)
    case ChildOf(at, _, next, up) => Around(up) + Own(at) + Footprint(next)
  }

  ghost predicate SeparateAround(c: Ctx) {
    match c
    case Top => true
    case NextOf(at, _, child, up) =>
      && Own(at) !! Footprint(child) && Separate(child) && SeparateAround(up)
      && (Own(at) + Footprint(child)) !! Around(up)
    case ChildOf(at, _, next, up) =>
      && Own(at) !! Footprint(next) && Separate(next) && SeparateAround(up)
      && (Own(at) + Footprint(next)) !! Around(up)
  }

  /** A tree survives every change of memory outside its addresses. */
  lemma {:induction false} ReprFrame(mem: Bytes, mem': Bytes, t: Tree)
    requires Repr(mem, t) && Agree(mem, mem', Footprint(t))
    ensures Repr(mem', t)
  {
    hide Agree, Describes, DecodeNode, EncodeValue, Interval, Linear, Proper;
    match t
    case Leaf =>
    case Value(at, v) =>
      ProperIsPlaced(at);
      AgreeSub(mem, mem', Footprint(t), Footprint(t));
      SameSlice(mem, mem', Footprint(t), Linear(at), 9 + |v|);
      SameValue(mem, mem', at, v);
    case Node(at, chunk, child, next) =>
      ProperIsPlaced(at);
      AgreeSub(mem, mem', Footprint(t), Own(at));
      AgreeSub(mem, mem', Footprint(t), Footprint(child));
      AgreeSub(mem, mem', Footprint(t), Footprint(next));
      SameSlice(mem, mem', Own(at), Linear(at), 32);
      ReprFrame(mem, mem', child);
      ReprFrame(mem, mem', next);
  }

  lemma SameValue(mem: Bytes, mem': Bytes, at: BlockOffset, v: Bytes)
    requires ValueAt(mem, at, v) && |mem| <= |mem'|
    requires mem'[Linear(at)..Linear(at) + 9 + |v|] == mem[Linear(at)..Linear(at) + 9 + |v|]
    ensures ValueAt(mem', at, v)
  {
    hide ToLittleEndian;
    var a, n := Linear(at), 9 + |v|;
    assert mem'[a] == mem'[a..a + n][0];
    SliceOfSlice(mem, a, a + n, 1, n);
    SliceOfSlice(mem', a, a + n, 1, n);
  }

  lemma SameSlice(mem: Bytes, mem': Bytes, area: set<int>, from: nat, length: nat)
    requires Agree(mem, mem', area) && Interval(from, length) <= area && from + length <= |mem|
    ensures mem'[from..from + length] == mem[from..from + length]
  {
    forall i | from <= i < from + length ensures mem'[i] == mem[i] {
      assert i in Interval(from, length);
    }
  }

  lemma AgreeSub(mem: Bytes, mem': Bytes, big: set<int>, small: set<int>)
    requires Agree(mem, mem', big) && small <= big
    ensures Agree(mem, mem', small) && |mem| <= |mem'|
  {
  }

  lemma ProperIsPlaced(at: BlockOffset)
    requires Proper(at)
    ensures at != EMPTY && 0 <= Linear(at)
  {
  }

  /** A write changes no address outside the written range. */
  lemma WrittenAgrees(mem: Bytes, mem': Bytes, at: nat, data: Bytes, area: set<int>)
    requires Written(mem, mem', at, data) && Interval(at, |data|) !! area
    ensures Agree(mem, mem', area)
  {
    forall i | i in area && 0 <= i < |mem| ensures mem'[i] == mem[i] {
      assert i !in Interval(at, |data|);
    }
  }

  /** A node that has just been written is represented, with whatever it links to. */
  lemma ReprWritten(mem: Bytes, at: BlockOffset, n: NodeRecord, chunk: Bytes, child: Tree, next: Tree)
    requires Inside(mem, at, NODE_SIZE) && Describes(n, chunk, Pointer(child), Pointer(next))
    requires mem[Linear(at)..Linear(at) + 32] == EncodeNode(n)
    requires Repr(mem, child) && Repr(mem, next)
    ensures Repr(mem, Node(at, chunk, child, next))
  {
    hide EncodeNode, DecodeNode;
    NodeRoundTrip(n);
  }

  /** The three kinds of space below the append cursor: in use, free, and lost to both. */
  ghost predicate Partition(end: nat, used: set<int>, free: set<int>, lost: set<int>) {
    used !! free && used !! lost && free !! lost && used + free + lost == Interval(0, end)
  }
}
