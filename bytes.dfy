/** The byte-level primitives that RADS/parsers.py takes from Python:
    little-endian `struct.unpack`, a file object read front to back with
    `fp.read`, `bytes.decode('ascii')` and slicing with Python's index rules. */
module Bytes {
  import opened Failures

  type byte = x: int | 0 <= x < 0x100

  const TWO_16: nat := 0x1_0000
  const TWO_32: nat := 0x1_0000_0000

  function Min(a: int, b: int): int { if a <= b then a else b }

  /** `1 << k`. */
  function Pow2(k: nat): (p: nat)
    ensures p >= 1
  {
    if k == 0 then 1 else 2 * Pow2(k - 1)
  }

  lemma {:induction false} Pow2Add(a: nat, b: nat)
    ensures Pow2(a + b) == Pow2(a) * Pow2(b)
  {
    if b > 0 {
      Pow2Add(a, b - 1);
      assert Pow2(a) * Pow2(b) == Pow2(a) * (2 * Pow2(b - 1)) == 2 * (Pow2(a) * Pow2(b - 1));
    }
  }


  /** `struct.unpack('<H', ...)`: two bytes, least significant first. */
  function U16At(data: seq<byte>, pos: nat): (v: nat)
    requires pos + 2 <= |data|
    ensures v < TWO_16
  {
    (data[pos] as int) + 0x100 * (data[pos + 1] as int)
  }

  /** `struct.unpack('<I', ...)` (and `'<L'`, the same layout): four bytes,
      least significant first. */
  function U32At(data: seq<byte>, pos: nat): (v: nat)
    requires pos + 4 <= |data|
    ensures v < TWO_32
  {
    (data[pos] as int) + 0x100 * (data[pos + 1] as int) + 0x1_0000 * (data[pos + 2] as int) + 0x100_0000 * (data[pos + 3] as int)
  }

  /** The four bytes a writer of the format stores for the u32 `v`. */
  function U32Bytes(v: nat): (b: seq<byte>)
    requires v < TWO_32
    ensures |b| == 4
  {
    [v % 0x100, (v / 0x100) % 0x100, (v / 0x1_0000) % 0x100, v / 0x100_0000]
  }

  /** Reading back what was written gives the number. */
  lemma U32RoundTrip(v: nat)
    requires v < TWO_32
    ensures U32At(U32Bytes(v), 0) == v
  {
    var b := U32Bytes(v);
    assert v == v % 0x100 + 0x100 * (v / 0x100);
    assert v / 0x100 == (v / 0x100) % 0x100 + 0x100 * (v / 0x1_0000);
    assert v / 0x1_0000 == (v / 0x1_0000) % 0x100 + 0x100 * (v / 0x100_0000);
  }

  /** Writing what was read gives the bytes: the little-endian reading is injective. */
  lemma U32BytesOfRead(data: seq<byte>, pos: nat)
    requires pos + 4 <= |data|
    ensures U32Bytes(U32At(data, pos)) == data[pos..pos + 4]
  {
    var v := U32At(data, pos);
    var a, b, c, d: int := data[pos], data[pos + 1], data[pos + 2], data[pos + 3];
    assert v == a + 0x100 * (b + 0x100 * (c + 0x100 * d));
    assert v % 0x100 == a && v / 0x100 == b + 0x100 * (c + 0x100 * d);
    var v1 := b + 0x100 * (c + 0x100 * d);
    assert v1 % 0x100 == b && v1 / 0x100 == c + 0x100 * d;
    assert v / 0x1_0000 == v1 / 0x100;
    assert v / 0x100_0000 == (v / 0x1_0000) / 0x100;
  }

  /** `bytes.decode('ascii')`: every byte must be below 0x80; each byte becomes
      the character with that code. */
  function AsciiDecode(b: seq<byte>): (r: Option<string>)
    ensures r.Some? ==> |r.value| == |b| && forall i :: 0 <= i < |b| ==> r.value[i] as int == b[i]
  {
    if forall i :: 0 <= i < |b| ==> b[i] < 0x80 then Some(seq(|b|, i requires 0 <= i < |b| => b[i] as char))
    else None
  }

  /** `str.encode('ascii')` for a string whose characters are all below 0x80. */
  function AsciiEncode(s: string): (b: seq<byte>)
    requires forall i :: 0 <= i < |s| ==> s[i] as int < 0x80
    ensures |b| == |s|
  {
    seq(|s|, i requires 0 <= i < |s| => s[i] as int)
  }

  lemma AsciiRoundTrip(b: seq<byte>)
    requires AsciiDecode(b).Some?
    ensures AsciiEncode(AsciiDecode(b).value) == b
  {
  }

  /** How Python turns a slice bound into a position: a negative bound counts
      from the end, and the result is clamped to `0..len`. */
  function SliceBound(i: int, len: nat): (r: nat)
    ensures r <= len
    ensures 0 <= i <= len ==> r == i
    ensures i < 0 && 0 <= i + len ==> r == i + len
  {
    if i < 0 then (if i + len < 0 then 0 else i + len)
    else if i > len then len
    else i
  }

  /** Python's `s[a:b]`. */
  function PySlice<T>(s: seq<T>, a: int, b: int): (r: seq<T>)
    ensures 0 <= a <= b <= |s| ==> r == s[a..b]
    ensures |r| <= |s|
  {
    var i, j := SliceBound(a, |s|), SliceBound(b, |s|);
    if i < j then s[i..j] else []
  }

  /** An open binary file as RADS/parsers.py uses it: a byte content and a
      cursor that only moves forward. */
  class Reader {
    const data: seq<byte>
    var pos: nat

    ghost predicate Valid()
      reads this
    {
      pos <= |data|
    }

    constructor (data: seq<byte>)
      ensures Valid() && this.data == data && pos == 0
    {
      this.data := data;
      pos := 0;
    }

    /** `fp.read(n)`: up to `n` bytes; fewer (possibly none) at the end of the file. */
    method Read(n: nat) returns (b: seq<byte>)
      requires Valid()
      modifies this
      ensures Valid()
      ensures b == data[old(pos)..Min(old(pos) + n, |data|)]
      ensures pos == old(pos) + |b|
    {
      var end := Min(pos + n, |data|);
      b := data[pos..end];
      pos := end;
    }

    /** `fp.read()`: everything up to the end of the file. */
    method ReadRest() returns (b: seq<byte>)
      requires Valid()
      modifies this
      ensures Valid() && b == data[old(pos)..] && pos == |data|
    {
      b := data[pos..];
      pos := |data|;
    }

    /** `struct.unpack('BBBB', fp.read(4))`: exactly four bytes, or `struct.error`. */
    method Read4() returns (r: Result<seq<byte>>)
      requires Valid()
      modifies this
      ensures Valid()
      ensures old(pos) + 4 <= |data| ==> r == Ok(data[old(pos)..old(pos) + 4]) && pos == old(pos) + 4
      ensures old(pos) + 4 > |data| ==> r == Err(Truncated)
    {
      var b := Read(4);
      if |b| < 4 {
        return Err(Truncated);
      }
      r := Ok(b);
    }

    /** `struct.unpack('<I', fp.read(4))[0]`. */
    method ReadU32() returns (r: Result<nat>)
      requires Valid()
      modifies this
      ensures Valid()
      ensures old(pos) + 4 <= |data| ==> r == Ok(U32At(data, old(pos))) && pos == old(pos) + 4
      ensures old(pos) + 4 > |data| ==> r == Err(Truncated)
    {
      var b := Read(4);
      if |b| < 4 {
        return Err(Truncated);
      }
      r := Ok((b[0] as int) + 0x100 * (b[1] as int) + 0x1_0000 * (b[2] as int) + 0x100_0000 * (b[3] as int));
    }

    /** `struct.unpack('<H', fp.read(2))[0]`. */
    method ReadU16() returns (r: Result<nat>)
      requires Valid()
      modifies this
      ensures Valid()
      ensures old(pos) + 2 <= |data| ==> r == Ok(U16At(data, old(pos))) && pos == old(pos) + 2
      ensures old(pos) + 2 > |data| ==> r == Err(Truncated)
    {
      var b := Read(2);
      if |b| < 2 {
        return Err(Truncated);
      }
      r := Ok((b[0] as int) + 0x100 * (b[1] as int));
    }

    /** `struct.unpack('B', fp.read(1))[0]`. */
    method ReadU8() returns (r: Result<nat>)
      requires Valid()
      modifies this
      ensures Valid()
      ensures old(pos) + 1 <= |data| ==> r == Ok(data[old(pos)]) && pos == old(pos) + 1
      ensures old(pos) + 1 > |data| ==> r == Err(Truncated)
    {
      var b := Read(1);
      if |b| < 1 {
        return Err(Truncated);
      }
      r := Ok(b[0]);
    }
  }
}
