/** Bytes of an image that is written in place: stores, little-endian words, bitmap bits. */
module ImageBytes {
  import opened BlockMaps

  /** d with bytes stored at off. */
  function Put(d: seq<Byte>, off: nat, bytes: seq<Byte>): (r: seq<Byte>)
    requires off + |bytes| <= |d|
    ensures |r| == |d|
    ensures forall k {:trigger r[k]} | 0 <= k < |r| :: r[k] == if off <= k < off + |bytes| then bytes[k - off] else d[k]
  {
    d[..off] + bytes + d[off + |bytes|..]
  }

  /** The bytes lo .. hi-1 are the same. */
  ghost predicate Same(d: seq<Byte>, e: seq<Byte>, lo: nat, hi: nat) {
    |e| == |d| && forall k {:trigger e[k]} | lo <= k < hi && k < |e| :: e[k] == d[k]
  }

  lemma SameTrans(d: seq<Byte>, e: seq<Byte>, f: seq<Byte>, lo: nat, hi: nat)
    requires Same(d, e, lo, hi) && Same(e, f, lo, hi)
    ensures Same(d, f, lo, hi)
  {
    forall k | lo <= k < hi && k < |f| ensures f[k] == d[k] { assert f[k] == e[k] && e[k] == d[k]; }
  }

  lemma PutSame(d: seq<Byte>, off: nat, bytes: seq<Byte>, lo: nat, hi: nat)
    requires off + |bytes| <= |d| && (hi <= off || off + |bytes| <= lo)
    ensures Same(d, Put(d, off, bytes), lo, hi)
  {
  }

  function Pack16(x: nat): (r: seq<Byte>)
    ensures |r| == 2
  {
    [x % 256, x / 256 % 256]
  }

  function Pack32(x: nat): (r: seq<Byte>)
    ensures |r| == 4
  {
    Pack16(x) + Pack16(x / 65536)
  }

  lemma Put16(d: seq<Byte>, off: nat, x: nat)
    requires off + 2 <= |d| && x < 65536
    ensures Le16(Put(d, off, Pack16(x)), off) == x
  {
    var r := Put(d, off, Pack16(x));
    assert r[off] == x % 256 && r[off + 1] == x / 256 % 256;
  }

  lemma Put32(d: seq<Byte>, off: nat, x: nat)
    requires off + 4 <= |d| && x < 0x1_0000_0000
    ensures Le32(Put(d, off, Pack32(x)), off) == x
  {
    var r := Put(d, off, Pack32(x));
    var hi := x / 65536;
    assert r[off] == x % 256 && r[off + 1] == x / 256 % 256;
    assert r[off + 2] == hi % 256 && r[off + 3] == hi / 256 % 256;
    Joins(x, hi);
  }

  /** The bytes of a 32-bit word. */
  lemma Joins(x: nat, hi: nat)
    requires x < 0x1_0000_0000 && hi == x / 65536
    ensures x % 256 + 256 * (x / 256 % 256) == x % 65536
    ensures hi % 256 + 256 * (hi / 256 % 256) == hi
  {
  }

  /** A word is the same if its bytes are. */
  lemma Same16(d: seq<Byte>, e: seq<Byte>, lo: nat, hi: nat, off: nat)
    requires Same(d, e, lo, hi) && lo <= off && off + 2 <= hi <= |d|
    ensures Le16(e, off) == Le16(d, off)
  {
    assert e[off] == d[off] && e[off + 1] == d[off + 1];
  }

  lemma Same32(d: seq<Byte>, e: seq<Byte>, lo: nat, hi: nat, off: nat)
    requires Same(d, e, lo, hi) && lo <= off && off + 4 <= hi <= |d|
    ensures Le32(e, off) == Le32(d, off)
  {
    Same16(d, e, lo, hi, off);
    Same16(d, e, lo, hi, off + 2);
  }

  // ----- bits -----

  /** (b >> j) & 1 */
  function BitOf(b: nat, j: nat): bool { if j == 0 then b % 2 == 1 else BitOf(b / 2, j - 1) }

  /** b | (1 << j) */
  function WithBit(b: nat, j: nat): nat {
    if j == 0 then (if b % 2 == 1 then b else b + 1) else 2 * WithBit(b / 2, j - 1) + b % 2
  }

  lemma {:induction false} WithBitIs(b: nat, j: nat, k: nat)
    ensures BitOf(WithBit(b, j), k) <==> k == j || BitOf(b, k)
    decreases j
  {
    if j > 0 && k > 0 { WithBitIs(b / 2, j - 1, k - 1); }
  }

  /** Setting one of the low eight bits of a byte gives a byte. */
  lemma WithBitByte(b: Byte, j: nat)
    requires j < 8
    ensures WithBit(b, j) < 256
  {
    WithBitBound(b, j, 8, 256);
  }

  lemma {:induction false} WithBitBound(b: nat, j: nat, n: nat, limit: nat)
    requires j < n && b < limit && IsPow(limit, n)
    ensures WithBit(b, j) < limit
    decreases n
  {
    if j > 0 { WithBitBound(b / 2, j - 1, n - 1, limit / 2); }
  }

  /** x is 2 to the n. */
  predicate IsPow(x: nat, n: nat) { if n == 0 then x == 1 else x % 2 == 0 && IsPow(x / 2, n - 1) }

  /** Bit i of the bitmap at base. */
  predicate Marked(d: seq<Byte>, base: nat, i: nat) { base + i / 8 < |d| && BitOf(d[base + i / 8], i % 8) }

  function Mark(d: seq<Byte>, base: nat, i: nat): (r: seq<Byte>)
    requires base + i / 8 < |d|
    ensures |r| == |d|
  {
    WithBitByte(d[base + i / 8], i % 8);
    d[base + i / 8 := WithBit(d[base + i / 8], i % 8)]
  }

  lemma MarkIs(d: seq<Byte>, base: nat, i: nat, k: nat)
    requires base + i / 8 < |d|
    ensures Marked(Mark(d, base, i), base, k) <==> k == i || Marked(d, base, k)
  {
    WithBitIs(d[base + i / 8], i % 8, k % 8);
  }
}
