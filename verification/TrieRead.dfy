/** Looking a key up in bytes of which nothing is known: the reading side of the trie as a function
    of the memory, and what it gives on a memory that holds a trie. */
module TrieRead {
  import opened ByteCodec
  import opened Addressing
  import opened Tries
  import opened TrieHeap
  import opened TrieStack
  import opened TrieWalk
  import opened TrieOps
  import opened TrieMap

  /** The bytes that can be had, by linear address. */
  type Memory = nat -> Option<byte>

  function MemoryOf(mem: Bytes): Memory {
    (i: nat) => if i < |mem| then Some(mem[i]) else None
  }

  /** How a search ends: with a value, without one, with the exception for an absent value or a
      record that is no value, or not at all, because bytes are missing, a link leads outside the
      data part of a block, or the number of steps is not enough. */
  datatype Reading = Found(value: Bytes) | Missing | Throws | Fault

  /** read_across_data_nodes */
  function Range(m: Memory, from: nat, length: nat): (r: Option<Bytes>)
    ensures r.Some? ==> |r.value| == length
  {
    if length == 0 then Some([])
    else
      var front, last := Range(m, from, length - 1), m(from + length - 1);
      if front.Some? && last.Some? then Some(front.value + [last.value]) else None
  }

  /** read_trie_node */
  function RecordOf(m: Memory, at: BlockOffset): Option<NodeRecord> {
    if !Proper(at) then None
    else
      var b := Range(m, Linear(at), NODE_SIZE);
      if b.Some? then Some(DecodeNode(b.value)) else None
  }

  /** do_read_value: the length is cut to 32 bits. */
  function ValueOf(m: Memory, at: BlockOffset): Reading {
    if at == EMPTY then Throws
    else if !Proper(at) then Fault
    else
      var header := Range(m, Linear(at), 1);
      if header.None? then Fault
      else if header.value[0] / 8 % 2 != 1 then Throws
      else
        var length := Range(m, Linear(at) + 1, 8);
        if length.None? then Fault
        else
          var v := Range(m, Linear(at) + 9, FromLittleEndian(length.value) % 0x1_0000_0000);
          if v.Some? then Found(v.value) else Fault
  }

  /** The search from a link on, for at most so many rounds: links may form a cycle. */
  function Walk(m: Memory, link: BlockOffset, key: Bytes, steps: nat): Reading
    decreases steps
  {
    if steps == 0 then Fault
    else if link == EMPTY then Missing
    else
      var n := RecordOf(m, link);
      if n.None? then Fault
      else
        var chunk := n.value.keyChunk[..n.value.size];
        if Head(chunk) != Head(key) then Walk(m, n.value.next, key, steps - 1)
        else if chunk == [] then ValueOf(m, n.value.child)
        else if chunk <= key then Walk(m, n.value.child, key[|chunk|..], steps - 1)
        else Missing
  }

  /** A get: the first node of the first block leads to the trie. */
  function ReadKey(m: Memory, key: Bytes, steps: nat): Reading {
    var root := RecordOf(m, ROOT);
    if root.None? then Fault else Walk(m, root.value.next, key, steps)
  }

  /** The second memory has every byte of the first. */
  ghost predicate PartOf(m: Memory, u: Memory) {
    forall i: nat :: m(i).Some? ==> u(i) == m(i)
  }

  lemma {:induction false} RangeStays(m: Memory, u: Memory, from: nat, length: nat)
    requires PartOf(m, u) && Range(m, from, length).Some?
    ensures Range(u, from, length) == Range(m, from, length)
  {
    if length > 0 { RangeStays(m, u, from, length - 1); }
  }

  lemma ValueStays(m: Memory, u: Memory, at: BlockOffset)
    requires PartOf(m, u) && ValueOf(m, at) != Fault
    ensures ValueOf(u, at) == ValueOf(m, at)
  {
    hide PartOf, FromLittleEndian, Range;
    if Proper(at) {
      RangeStays(m, u, Linear(at), 1);
      if ValueOf(m, at).Found? {
        RangeStays(m, u, Linear(at) + 1, 8);
        RangeStays(m, u, Linear(at) + 9, FromLittleEndian(Range(m, Linear(at) + 1, 8).value) % 0x1_0000_0000);
      }
    }
  }

  /** A search that has come to an end comes to the same end with more bytes and more rounds. */
  lemma {:induction false} WalkStays(m: Memory, u: Memory, link: BlockOffset, key: Bytes, steps: nat, more: nat)
    requires PartOf(m, u) && steps <= more && Walk(m, link, key, steps) != Fault
    ensures Walk(u, link, key, more) == Walk(m, link, key, steps)
    decreases steps
  {
    hide PartOf, Range, DecodeNode, ValueOf;
    if link != EMPTY {
      RangeStays(m, u, Linear(link), 32);
      var n := RecordOf(m, link).value;
      var chunk := n.keyChunk[..n.size];
      if Head(chunk) != Head(key) {
        WalkStays(m, u, n.next, key, steps - 1, more - 1);
      } else if chunk == [] {
        ValueStays(m, u, n.child);
      } else if chunk <= key {
        WalkStays(m, u, n.child, key[|chunk|..], steps - 1, more - 1);
      }
    }
  }

  lemma ReadStays(m: Memory, u: Memory, key: Bytes, steps: nat, more: nat)
    requires PartOf(m, u) && steps <= more && ReadKey(m, key, steps) != Fault
    ensures ReadKey(u, key, more) == ReadKey(m, key, steps)
  {
    hide PartOf, Range, DecodeNode, Walk;
    RangeStays(m, u, Linear(ROOT), 32);
    WalkStays(m, u, RecordOf(m, ROOT).value.next, key, steps, more);
  }

  /** Wherever both memories have a byte, it is the same. */
  ghost predicate Consistent(m: Memory, m': Memory) {
    forall i: nat :: m(i).Some? && m'(i).Some? ==> m(i) == m'(i)
  }

  /** Two searches that both come to an end, in memories that nowhere contradict each other, come to
      the same end, whatever else is missing from either. */
  lemma ReadConsistent(m: Memory, m': Memory, key: Bytes, steps: nat, steps': nat)
    requires Consistent(m, m') && ReadKey(m, key, steps) != Fault && ReadKey(m', key, steps') != Fault
    ensures ReadKey(m, key, steps) == ReadKey(m', key, steps')
  {
    hide ReadKey;
    var both: Memory := (i: nat) => if m(i).Some? then m(i) else m'(i);
    ReadStays(m, both, key, steps, steps + steps');
    ReadStays(m', both, key, steps', steps + steps');
  }

  lemma {:induction false} RangeOfFlat(mem: Bytes, from: nat, length: nat)
    requires from + length <= |mem|
    ensures Range(MemoryOf(mem), from, length) == Some(mem[from..from + length])
  {
    if length == 0 {
      assert mem[from..from + length] == [];
    } else {
      RangeOfFlat(mem, from, length - 1);
      assert mem[from..from + length] == mem[from..from + length - 1] + [mem[from + length - 1]];
    }
  }

  lemma NodeOfFlat(mem: Bytes, at: BlockOffset)
    requires Inside(mem, at, NODE_SIZE)
    ensures RecordOf(MemoryOf(mem), at) == Some(Stored(mem, at))
  {
    RangeOfFlat(mem, Linear(at), 32);
  }

  lemma ValueOfFlat(mem: Bytes, at: BlockOffset, v: Bytes)
    requires ValueAt(mem, at, v) && |mem| <= LIMIT
    ensures ValueOf(MemoryOf(mem), at) == Found(v)
  {
    hide ToLittleEndian, Range, FromLittleEndian;
    ValueParts(mem, at, v);
    RangeOfFlat(mem, Linear(at), 1);
    RangeOfFlat(mem, Linear(at) + 1, 8);
    RangeOfFlat(mem, Linear(at) + 9, |v|);
  }

  function Nodes(t: Tree): nat {
    if t.Node? then 1 + Nodes(t.child) + Nodes(t.next) else 0
  }

  /** A memory holds no more nodes than fit into it. */
  lemma {:induction false} NodesFit(mem: Bytes, t: Tree)
    requires Repr(mem, t) && Separate(t)
    ensures 32 * Nodes(t) <= |Footprint(t)|
  {
    hide Stored, ValueAt, Interval;
    if t.Node? {
      NodesFit(mem, t.child);
      NodesFit(mem, t.next);
      ProperIsPlaced(t.at);
      IntervalSize(Linear(t.at), 32);
      assert |Footprint(t)| == |Own(t.at) + Footprint(t.child)| + |Footprint(t.next)|;
    }
  }

  lemma NodesBelow(mem: Bytes, end: nat, free: set<int>, lost: set<int>, top: Tree)
    requires TrieAt(mem, end, free, lost, top)
    ensures 32 * Nodes(top) <= end
  {
    hide Repr, Separate, Stored, Nodes, Footprint, Interval;
    NodesFit(mem, top);
    SubsetSize(Footprint(top), Interval(0, end));
    IntervalSize(0, end);
  }

  /** What a search of the tree comes to. */
  function Search(t: Tree, key: Bytes): Reading {
    match t
    case Node(_, chunk, child, next) =>
      if Head(chunk) != Head(key) then Search(next, key)
      else if chunk == [] then (if child.Value? then Found(child.value) else Throws)
      else if chunk <= key then Search(child, key[|chunk|..])
      else Missing
    case _ => Missing
  }

  /** Reading a memory that holds the tree is searching the tree. */
  lemma {:induction false} WalkIsSearch(mem: Bytes, t: Tree, key: Bytes, steps: nat)
    requires Repr(mem, t) && Shape(t) && |mem| <= LIMIT && steps > Nodes(t)
    ensures Walk(MemoryOf(mem), Pointer(t), key, steps) == Search(t, key)
    decreases t
  {
    hide Stored, ValueAt, RecordOf, ValueOf;
    match t
    case Leaf =>
    case Node(at, chunk, child, next) =>
      NodeOfFlat(mem, at);
      ProperIsPlaced(at);
      if Head(chunk) != Head(key) {
        WalkIsSearch(mem, next, key, steps - 1);
      } else if chunk == [] {
        EndOfKey(mem, child);
      } else if chunk <= key {
        WalkIsSearch(mem, child, key[|chunk|..], steps - 1);
      }
  }

  lemma EndOfKey(mem: Bytes, child: Tree)
    requires Repr(mem, child) && !child.Node? && |mem| <= LIMIT
    ensures ValueOf(MemoryOf(mem), Pointer(child)) == if child.Value? then Found(child.value) else Throws
  {
    hide ToLittleEndian;
    if child.Value? { ValueOfFlat(mem, child.at, child.value); }
  }

  /** In a list that is reached through first nodes, only values are found, and they are those of the map. */
  lemma {:induction false} SearchIsLookup(t: Tree, key: Bytes, spine: bool)
    requires Shape(t) && Along(spine, t)
    ensures Search(t, key) == if Lookup(t, key).Some? then Found(Lookup(t, key).value) else Missing
    decreases t
  {
    if t.Node? {
      SearchIsLookup(t.next, key, false);
      assert key[0..] == key;
      if t.chunk != [] && t.chunk <= key { SearchIsLookup(t.child, key[|t.chunk|..], spine); }
    }
  }

  /** What a get of a key comes to, in terms of the map. */
  function Meant(top: Tree, key: Bytes): Reading {
    if Lookup(top, key).Some? then Found(Lookup(top, key).value)
    else if key == [] && DeadHead(top) then Throws
    else Missing
  }

  lemma SearchIsMeant(top: Tree, key: Bytes)
    requires Shaped(Top, top)
    ensures Search(top, key) == Meant(top, key)
  {
    if top.Node? {
      SearchIsLookup(top.next, key, false);
      if top.chunk == [] {
        if key == [] {
          assert key[|top.chunk|..] == [];
          assert Lookup(top, key) == Lookup(top.child, []);
        } else {
          assert Search(top, key) == Search(top.next, key);
        }
      } else if top.chunk <= key {
        SearchIsLookup(top.child, key[|top.chunk|..], true);
      }
    }
  }

  /** Reading a key from the bytes of a store gives what the map says, in no more rounds than there
      is room for nodes. */
  lemma ReadIsMeant(mem: Bytes, end: nat, free: set<int>, lost: set<int>, top: Tree, key: Bytes, steps: nat)
    requires TrieAt(mem, end, free, lost, top) && |mem| <= LIMIT && 32 * steps > end
    ensures ReadKey(MemoryOf(mem), key, steps) == Meant(top, key)
  {
    hide Stored, RecordOf, Repr, Partition, Walk, Meant, Search, Lookup;
    NodesBelow(mem, end, free, lost, top);
    NodeOfFlat(mem, ROOT);
    WalkIsSearch(mem, top, key, steps);
    SearchIsMeant(top, key);
  }
}
