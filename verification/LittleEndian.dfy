/** Bytes and little-endian numbers, as the binary formats use them. */
module LittleEndian {

  type Byte = b: int | 0 <= b < 256

  /** `dv.getUint16(i, true)`; reading past the end is an error. */
  function U16(buf: seq<Byte>, i: nat): nat
    requires i + 2 <= |buf|
  {
    buf[i] as int + 256 * (buf[i + 1] as int)
  }

  /** `dv.getUint32(i, true)`. */
  function U32(buf: seq<Byte>, i: nat): nat
    requires i + 4 <= |buf|
  {
    buf[i] as int + 256 * (buf[i + 1] as int + 256 * (buf[i + 2] as int + 256 * (buf[i + 3] as int)))
  }

  function Le16(x: nat): (s: seq<Byte>)
    requires x < 0x10000
    ensures |s| == 2
  {
    [x % 256, x / 256]
  }

  function Le32(x: nat): (s: seq<Byte>)
    requires x < 0x100000000
    ensures |s| == 4
  {
    [x % 256, (x / 256) % 256, (x / 256 / 256) % 256, x / 256 / 256 / 256]
  }

  lemma Le16RoundTrip(x: nat)
    requires x < 0x10000
    ensures U16(Le16(x), 0) == x
  {
  }

  lemma Le32RoundTrip(x: nat)
    requires x < 0x100000000
    ensures U32(Le32(x), 0) == x
  {
    var y := x / 256;
    var z := y / 256;
    assert z == 256 * (z / 256) + z % 256;
    assert y == 256 * z + y % 256;
    assert x == 256 * y + x % 256;
  }

  /** `part` lies in `buf` at offset `p`. */
  ghost predicate HasAt(buf: seq<Byte>, p: nat, part: seq<Byte>) {
    p + |part| <= |buf| && buf[p..p + |part|] == part
  }

  lemma ByteInside(buf: seq<Byte>, p: nat, part: seq<Byte>, i: nat)
    requires HasAt(buf, p, part) && i < |part|
    ensures buf[p + i] == part[i]
  {
    assert buf[p..p + |part|][i] == part[i];
  }

  lemma ReadInside(buf: seq<Byte>, p: nat, part: seq<Byte>, i: nat)
    requires HasAt(buf, p, part)
    ensures i + 2 <= |part| ==> U16(buf, p + i) == U16(part, i)
    ensures i + 4 <= |part| ==> U32(buf, p + i) == U32(part, i)
  {
    forall k: nat | k < |part| ensures buf[p + k] == part[k] { ByteInside(buf, p, part, k); }
  }

  lemma HasAtSplit(buf: seq<Byte>, p: nat, a: seq<Byte>, b: seq<Byte>)
    requires HasAt(buf, p, a + b)
    ensures HasAt(buf, p, a) && HasAt(buf, p + |a|, b)
  {
    var whole := buf[p..p + |a + b|];
    assert buf[p..p + |a|] == whole[..|a|] == a;
    assert buf[p + |a|..p + |a| + |b|] == whole[|a|..] == b;
  }

  lemma HasAtJoin(buf: seq<Byte>, p: nat, a: seq<Byte>, b: seq<Byte>)
    requires HasAt(buf, p, a) && HasAt(buf, p + |a|, b)
    ensures HasAt(buf, p, a + b)
  {
    assert buf[p..p + |a + b|] == buf[p..p + |a|] + buf[p + |a|..p + |a| + |b|];
  }

  /** The number that four bytes spell, written again, is those bytes. */
  lemma Le32Read(buf: seq<Byte>, x: nat)
    requires 4 <= |buf| && U32(buf, 0) == x
    ensures x < 0x100000000 && HasAt(buf, 0, Le32(x))
  {
    var z := buf[2] as int + 256 * (buf[3] as int);
    var y := buf[1] as int + 256 * z;
    assert x == buf[0] as int + 256 * y;
    assert x / 256 == y && x % 256 == buf[0];
    assert y / 256 == z && y % 256 == buf[1];
    assert z / 256 == buf[3] && z % 256 == buf[2];
    assert buf[0..4] == Le32(x);
  }

  /** Byte k has weight 256 to the k, in reading and in writing. */
  lemma Weights(buf: seq<Byte>, i: nat, x: nat)
    ensures i + 2 <= |buf| ==> U16(buf, i) == buf[i] as int + 256 * (buf[i + 1] as int)
    ensures i + 4 <= |buf| ==>
              U32(buf, i) == buf[i] as int + 256 * (buf[i + 1] as int) + 65536 * (buf[i + 2] as int)
                + 16777216 * (buf[i + 3] as int)
    ensures x < 0x10000 ==> Le16(x)[0] == x % 256 && Le16(x)[1] == x / 256
    ensures x < 0x100000000 ==>
              x == Le32(x)[0] as int + 256 * (Le32(x)[1] as int) + 65536 * (Le32(x)[2] as int)
                + 16777216 * (Le32(x)[3] as int)
  {
    if x < 0x100000000 { Le32RoundTrip(x); }
  }
}
