/** Byte strings and the little-endian integers that the store writes into them. */
module ByteCodec {

  type byte = x: int | 0 <= x < 256

  type Bytes = seq<byte>

  datatype Option<+T> = None | Some(value: T)

  /** The codes of a text. */
  function Ascii(s: string): (b: Bytes)
    requires forall i :: 0 <= i < |s| ==> s[i] as int < 128
    ensures |b| == |s| && forall i :: 0 <= i < |s| ==> b[i] == s[i] as int
  {
    seq(|s|, i requires 0 <= i < |s| => s[i] as int)
  }

  /** Number of values that fit in `width` bytes. */
  function Span(width: nat): (s: nat)
    ensures s > 0
  {
    if width == 0 then 1 else 256 * Span(width - 1)
  }

  /** The `width` low-order bytes of `n`, least significant first. */
  function ToLittleEndian(n: nat, width: nat): (b: Bytes)
    ensures |b| == width
  {
    if width == 0 then [] else [n % 256] + ToLittleEndian(n / 256, width - 1)
  }

  function FromLittleEndian(b: Bytes): nat {
    if b == [] then 0 else b[0] + 256 * FromLittleEndian(b[1..])
  }

  lemma {:induction false} LittleEndianRoundTrip(n: nat, width: nat)
    requires n < Span(width)
    ensures FromLittleEndian(ToLittleEndian(n, width)) == n
  {
    if width == 0 {
    } else {
      LittleEndianRoundTrip(n / 256, width - 1);
      assert ToLittleEndian(n, width)[1..] == ToLittleEndian(n / 256, width - 1);
    }
  }

  /** The byte of a number that counts units of 256 to the power `i`. */
  function ByteOf(n: nat, i: nat): byte {
    n / Span(i) % 256
  }

  /** The least significant byte comes first. */
  lemma {:induction false} LittleEndianAt(n: nat, width: nat, i: nat)
    requires i < width
    ensures ToLittleEndian(n, width)[i] == ByteOf(n, i)
  {
    if i > 0 {
      LittleEndianAt(n / 256, width - 1, i - 1);
      DivideTwice(n, Span(i - 1));
    }
  }

  lemma DivideTwice(n: nat, b: nat)
    requires b > 0
    ensures n / 256 / b == n / (256 * b)
  {
    var m := n / 256;
    var q, s := m / b, m % b;
    assert m == b * q + s;
    assert q * (256 * b) == 256 * (b * q);
    QuotientIs(n, 256 * b, q, 256 * s + n % 256);
  }

  lemma QuotientIs(n: nat, d: nat, q: nat, r: nat)
    requires n == q * d + r && r < d
    ensures n / d == q
  {
    NextMultiple(n / d, q, d);
    NextMultiple(q, n / d, d);
  }

  lemma NextMultiple(a: nat, b: nat, d: nat)
    ensures a < b ==> a * d + d <= b * d
  {
    if a < b {
      var c := b - a - 1;
      assert (a + 1 + c) * d == a * d + d + c * d;
    }
  }

  lemma SpanOf4And8()
    ensures Span(4) == 0x1_0000_0000
    ensures Span(8) == 0x1_0000_0000_0000_0000
  {
    assert Span(2) == 256 * 256 * Span(0);
    assert Span(4) == 256 * 256 * Span(2);
    assert Span(6) == 256 * 256 * Span(4);
    assert Span(8) == 256 * 256 * Span(6);
  }

  /** The integers of `[from, from + length)`. */
  function Interval(from: int, length: nat): (s: set<int>)
    ensures forall x :: x in s <==> from <= x < from + length
  {
    if length == 0 then {} else Interval(from, length - 1) + {from + length - 1}
  }

  lemma {:induction false} IntervalSize(from: int, length: nat)
    ensures |Interval(from, length)| == length
  {
    if length > 0 { IntervalSize(from, length - 1); }
  }

  /** `after` is `before` with `data` written at `at`; it may also have grown at its end. */
  ghost predicate Written(before: Bytes, after: Bytes, at: nat, data: Bytes) {
    && |before| <= |after|
    && at + |data| <= |after|
    && after[at..at + |data|] == data
    && forall i :: 0 <= i < |before| && !(at <= i < at + |data|) ==> after[i] == before[i]
  }

  /** The two memories hold the same bytes at every address of `area`. */
  ghost predicate Agree(before: Bytes, after: Bytes, area: set<int>) {
    |before| <= |after| && forall i :: i in area && 0 <= i < |before| ==> after[i] == before[i]
  }

  lemma SliceOfSlice(s: Bytes, lo: nat, hi: nat, i: nat, j: nat)
    requires lo <= hi <= |s| && i <= j <= hi - lo
    ensures s[lo..hi][i..j] == s[lo + i..lo + j]
  {
    var a, b := s[lo..hi][i..j], s[lo + i..lo + j];
    forall k | 0 <= k < |a| ensures a[k] == b[k] { assert a[k] == s[lo..hi][i + k]; }
  }

  lemma {:induction false} SubsetSize<T>(a: set<T>, b: set<T>)
    requires a <= b
    ensures |a| <= |b|
  {
    if a != {} {
      var x :| x in a;
      SubsetSize(a - {x}, b - {x});
    }
  }
}
