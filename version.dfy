/** `parse_version` (RADS/parsers.py:7-8): a 4-byte version block rendered as
    dotted decimal text, last byte first. */
module Version {
  import opened Failures
  import opened Bytes
  import opened Seqs
  import opened Decimal

  /** `'.'.join(str(x) for x in reversed(struct.unpack('BBBB', v)))`.
      The short-read failure of `struct.unpack` is raised by the callers'
      `Reader.Read4`, which hands over exactly four bytes. */
  function ParseVersion(v: seq<byte>): (s: string)
    requires |v| == 4
    ensures 7 <= |s| <= 15
  {
    var parts := [Show(v[3]), Show(v[2]), Show(v[1]), Show(v[0])];
    ByteWidth(v[0]);
    ByteWidth(v[1]);
    ByteWidth(v[2]);
    ByteWidth(v[3]);
    LengthOfFour(parts[0], parts[1], parts[2], parts[3]);
    Join(parts, '.')
  }

  lemma LengthOfFour(a: string, b: string, c: string, d: string)
    ensures TotalLength([a, b, c, d]) == |a| + |b| + |c| + |d|
  {
    assert [d][1..] == [];
    assert TotalLength([d]) == |d|;
    assert [c, d][1..] == [d];
    assert TotalLength([c, d]) == |c| + |d|;
    assert [b, c, d][1..] == [c, d];
    assert TotalLength([b, c, d]) == |b| + |c| + |d|;
    assert [a, b, c, d][1..] == [b, c, d];
  }

  /** A byte is written with one to three digits. */
  lemma ByteWidth(b: byte)
    ensures 1 <= |Show(b)| <= 3
  {
    if b >= 10 {
      assert Show(b) == Show(b / 10) + [DigitChar(b % 10)];
      if b / 10 >= 10 {
        assert Show(b / 10) == Show(b / 100) + [DigitChar(b / 10 % 10)];
      }
    }
  }

  /** The four bytes a version string stands for: four '.'-separated decimal
      numbers below 256, the last one naming the first byte. */
  function VersionBytes(s: string): (r: Option<seq<byte>>)
    ensures r.Some? ==> |r.value| == 4
  {
    var parts := Split(s, '.');
    if |parts| == 4 && forall i :: 0 <= i < 4 ==> IsDigits(parts[i]) && Value(parts[i]) < 0x100
    then Some([Value(parts[3]), Value(parts[2]), Value(parts[1]), Value(parts[0])])
    else None
  }

  /** The rendering loses nothing: the bytes b0, b1, b2, b3 are read back from
      "b3.b2.b1.b0" in reverse order. */
  lemma VersionRoundTrip(v: seq<byte>)
    requires |v| == 4
    ensures VersionBytes(ParseVersion(v)) == Some(v)
  {
    var parts := [Show(v[3]), Show(v[2]), Show(v[1]), Show(v[0])];
    forall i | 0 <= i < 4
      ensures '.' !in parts[i]
    {
      assert forall k :: 0 <= k < |parts[i]| ==> IsDigit(parts[i][k]);
    }
    SplitJoin(parts, '.');
    ValueOfShow(v[0]);
    ValueOfShow(v[1]);
    ValueOfShow(v[2]);
    ValueOfShow(v[3]);
    var ps := Split(ParseVersion(v), '.');
    assert ps == parts;
    assert forall i :: 0 <= i < 4 ==> IsDigits(ps[i]) && Value(ps[i]) < 0x100;
    assert [Value(ps[3]), Value(ps[2]), Value(ps[1]), Value(ps[0])] == v;
  }

  /** Two version blocks with the same text are the same bytes. */
  lemma ParseVersionInjective(a: seq<byte>, b: seq<byte>)
    requires |a| == 4 && |b| == 4
    requires ParseVersion(a) == ParseVersion(b)
    ensures a == b
  {
    VersionRoundTrip(a);
    VersionRoundTrip(b);
  }
}
