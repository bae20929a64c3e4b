/** The data parts of all blocks, seen as one growing array of bytes. */
module FlatMemory {
  import opened ByteCodec
  import opened DataNodes

  /** `mem` is the concatenation of the payloads of the blocks. */
  ghost predicate Flat(data: seq<Bytes>, mem: Bytes) {
    && |mem| == 8184 * |data|
    && forall b :: 0 <= b < |data| ==> |data[b]| == 8184 && data[b] == mem[b * 8184..b * 8184 + 8184]
  }

  /** `mem` grown to `size` bytes with zeros. */
  function Padded(mem: Bytes, size: nat): (r: Bytes)
    requires |mem| <= size
    ensures |r| == size
  {
    mem + Zeros(size - |mem|)
  }

  /** The size of the smallest whole number of blocks that holds `length` bytes. */
  function WholeBlocks(length: nat): (r: nat)
    ensures length <= r < length + 8184 && r % 8184 == 0
  {
    (length + 8183) / 8184 * 8184
  }

  /** A write into a flat memory that grows by whole zeroed blocks, and only if it has to. */
  function WriteFlat(mem: Bytes, at: nat, buffer: Bytes): (r: Bytes)
    ensures |r| == Max(|mem|, WholeBlocks(at + |buffer|))
  {
    Overwrite(Padded(mem, Max(|mem|, WholeBlocks(at + |buffer|))), at, buffer)
  }

  lemma WriteFlatIsWritten(mem: Bytes, at: nat, buffer: Bytes)
    ensures Written(mem, WriteFlat(mem, at, buffer), at, buffer)
  {
  }

  /** One more block at the end. */
  lemma FlatAppend(data: seq<Bytes>, mem: Bytes, payload: Bytes)
    requires Flat(data, mem) && |payload| == 8184
    ensures Flat(data + [payload], mem + payload)
  {
    var d, m := data + [payload], mem + payload;
    forall b | 0 <= b < |d| ensures |d[b]| == 8184 && d[b] == m[b * 8184..b * 8184 + 8184] {
      if b < |data| {
        assert d[b] == data[b] == mem[b * 8184..b * 8184 + 8184];
      }
    }
  }

  /** A write inside one block is a write to the flat memory. */
  lemma FlatWrite(data: seq<Bytes>, mem: Bytes, b: nat, offset: nat, piece: Bytes)
    requires Flat(data, mem) && b < |data| && offset + |piece| <= 8184
    ensures |data[b]| == 8184 && b * 8184 + 8184 <= |mem|
    ensures Flat(data[b := Overwrite(data[b], offset, piece)], Overwrite(mem, b * 8184 + offset, piece))
  {
    assert b * 8184 + 8184 <= |mem|;
    var d, m := data[b := Overwrite(data[b], offset, piece)], Overwrite(mem, b * 8184 + offset, piece);
    forall c | 0 <= c < |d| ensures |d[c]| == 8184 && d[c] == m[c * 8184..c * 8184 + 8184] {
      assert data[c] == mem[c * 8184..c * 8184 + 8184];
      if c < b {
        assert c * 8184 + 8184 <= b * 8184;
      } else if c > b {
        assert b * 8184 + 8184 <= c * 8184;
      }
    }
  }

  /** One more piece of a write in progress, before and after growing the memory. */
  lemma OverwriteExtends(mem: Bytes, at: nat, buffer: Bytes, done: nat, count: nat)
    requires done + count <= |buffer| && at + done + count <= |mem|
    ensures Overwrite(Overwrite(mem, at, buffer[..done]), at + done, buffer[done..done + count]) ==
            Overwrite(mem, at, buffer[..done + count])
  {
    var first, second, all := buffer[..done], buffer[done..done + count], buffer[..done + count];
    var before := Overwrite(mem, at, first);
    var x, y := Overwrite(before, at + done, second), Overwrite(mem, at, all);
    hide Overwrite;
    forall i | 0 <= i < |mem| ensures x[i] == y[i] {
      OverwriteAt(mem, at, first, i);
      OverwriteAt(before, at + done, second, i);
      OverwriteAt(mem, at, all, i);
    }
  }

  lemma OverwriteAt(mem: Bytes, at: nat, buffer: Bytes, i: nat)
    requires at + |buffer| <= |mem| && i < |mem|
    ensures Overwrite(mem, at, buffer)[i] == if at <= i < at + |buffer| then buffer[i - at] else mem[i]
  {
  }

  lemma OverwriteNothing(mem: Bytes, at: nat, buffer: Bytes)
    requires at <= |mem|
    ensures Overwrite(Padded(mem, |mem|), at, buffer[..0]) == mem
  {
  }

  lemma OverwriteGrows(mem: Bytes, size: nat, at: nat, buffer: Bytes, more: nat)
    requires |mem| <= size && at + |buffer| <= size
    ensures Overwrite(Padded(mem, size), at, buffer) + Zeros(more) == Overwrite(Padded(mem, size + more), at, buffer)
  {
    assert Padded(mem, size) + Zeros(more) == Padded(mem, size + more);
  }

  lemma SizeIsWholeBlocks(before: nat, after: nat, length: nat)
    requires before <= after && length <= 8184 * after
    requires after == before || 8184 * after < length + 8184
    ensures 8184 * after == Max(8184 * before, WholeBlocks(length))
  {
  }

  lemma WriteFlatSize(mem: Bytes, size: nat, at: nat, buffer: Bytes)
    requires size == Max(|mem|, WholeBlocks(at + |buffer|))
    ensures WriteFlat(mem, at, buffer) == Overwrite(Padded(mem, size), at, buffer)
  {
  }
}
