/** Base64 VLQ numbers and delta-coded mappings, as bench/sourcemap/append-vlq-bench.ts writes them, against
    a reader for the Base64 VLQ and mappings grammars of ECMA-426 with the alphabet of section 4 of RFC 4648. */
module Vlq {
  import opened Wrappers

  // ---------------------------------------------------------------- the alphabet

  const B64 := "ABCDEFGHIJKLMNOP" + "QRSTUVWXYZabcdef" + "ghijklmnopqrstuv" + "wxyz0123456789+/"

  /** The value of a character by the table of RFC 4648, or -1. */
  function Index(c: char): (d: int)
    ensures -1 <= d < 64
  {
    if 'A' <= c <= 'Z' then c as int - 65
    else if 'a' <= c <= 'z' then c as int - 71
    else if '0' <= c <= '9' then c as int + 4
    else if c == '+' then 62
    else if c == '/' then 63
    else -1
  }

  /** The character with a value by that table. */
  function Char(d: nat): (c: char)
    requires d < 64
    ensures Index(c) == d
  {
    if d < 26 then (d + 65) as char
    else if d < 52 then (d + 71) as char
    else if d < 62 then (d - 4) as char
    else if d == 62 then '+' else '/'
  }

  /** The table is that of the standard. */
  lemma AlphabetIsStandard(d: nat)
    requires d < 64
    ensures |B64| == 64 && B64[d] == Char(d)
  {
    if d < 16 { FirstQuarter(d); }
    else if d < 32 { SecondQuarter(d - 16); }
    else if d < 48 { ThirdQuarter(d - 32); }
    else { LastQuarter(d - 48); }
  }

  lemma FirstQuarter(d: nat)
    requires d < 16
    ensures "ABCDEFGHIJKLMNOP"[d] == Char(d)
  {
  }

  lemma SecondQuarter(d: nat)
    requires d < 16
    ensures "QRSTUVWXYZabcdef"[d] == Char(d + 16)
  {
  }

  lemma ThirdQuarter(d: nat)
    requires d < 16
    ensures "ghijklmnopqrstuv"[d] == Char(d + 32)
  {
  }

  lemma LastQuarter(d: nat)
    requires d < 16
    ensures "wxyz0123456789+/"[d] == Char(d + 48)
  {
  }

  // ---------------------------------------------------------------- writing numbers

  /** JavaScript's conversions to 32-bit integers. */
  function ToUint32(x: int): nat {
    x % 0x100000000
  }

  function ToInt32(x: int): (r: int)
    ensures -0x80000000 <= r < 0x80000000 && (r - x) % 0x100000000 == 0
  {
    if ToUint32(x) < 0x80000000 then ToUint32(x) else ToUint32(x) - 0x100000000
  }

  /** `(-value << 1) | 1` or `value << 1`, as an unsigned number. */
  function Unsigned(value: int): (u: nat)
    ensures u < 0x100000000
  {
    if value < 0 then ToUint32(2 * -value) + 1 else ToUint32(2 * value)
  }

  function Digits(u: nat): string {
    if u < 32 then [Char(u)] else [Char(u % 32 + 32)] + Digits(u / 32)
  }

  lemma UnsignedOf(value: int)
    ensures value < 0 ==> ToUint32(ToInt32(2 * -value) + 1) == Unsigned(value)
    ensures value >= 0 ==> ToUint32(ToInt32(2 * value)) == Unsigned(value)
  {
  }

  lemma RemainderIs(x: int, q: int, r: nat)
    requires x == 32 * q + r && r < 32
    ensures x % 32 == r
  {
  }

  lemma LowBits(v: int)
    ensures v % 32 == ToUint32(v) % 32 && (0 <= v < 0x100000000 ==> ToUint32(v) == v)
  {
    var q, r := v / 0x100000000, v % 0x100000000;
    assert v == 0x100000000 * q + r && r == 32 * (r / 32) + r % 32;
    RemainderIs(v, 0x8000000 * q + r / 32, r % 32);
  }

  /** One round of the loop writes the first digit and leaves the others. */
  lemma Round(v: int, next: nat, digit: nat)
    requires next == ToUint32(v) / 32 && digit == v % 32 + if next > 0 then 32 else 0
    ensures digit < 64 == |B64| && ToUint32(next) == next && (next > 0 ==> next < ToUint32(v))
    ensures Digits(ToUint32(v)) == [B64[digit]] + if next > 0 then Digits(next) else ""
  {
    LowBits(v);
    LowBits(next);
    AlphabetIsStandard(digit);
  }

  method EncodeVlq(value: int) returns (out: string)
    ensures out == Digits(Unsigned(value))
  {
    UnsignedOf(value);
    var v := if value < 0 then ToInt32(2 * -value) + 1 else ToInt32(2 * value);
    out := "";
    var more := true;
    while more
      invariant if more then out + Digits(ToUint32(v)) == Digits(Unsigned(value)) else out == Digits(Unsigned(value))
      decreases more, ToUint32(v)
    {
      ghost var before := v;
      var digit := v % 32;
      v := ToUint32(v) / 32;
      if v > 0 { digit := digit + 32; }
      Round(before, v, digit);
      out := out + [B64[digit]];
      more := v > 0;
    }
  }

  // ---------------------------------------------------------------- reading numbers

  /** The unsigned value of the digits at the head of `s`, and what follows them. */
  function ReadDigits(s: string): (r: Option<(nat, string)>)
    ensures r.Some? ==> |r.value.1| < |s|
  {
    if s == "" || Index(s[0]) < 0 then None
    else if Index(s[0]) < 32 then Some((Index(s[0]), s[1..]))
    else match ReadDigits(s[1..])
      case None => None
      case Some((u, rest)) => Some((Index(s[0]) - 32 + 32 * u, rest))
  }

  /** The low bit is the sign; minus zero stands for the least number. */
  function Signed(u: nat): (r: Option<int>)
    ensures r.Some? ==> -0x80000000 <= r.value < 0x80000000
  {
    if u == 1 then Some(-0x80000000)
    else if u / 2 >= 0x80000000 then None
    else if u % 2 == 1 then Some(-(u / 2)) else Some(u / 2)
  }

  function ReadVlq(s: string): (r: Option<(int, string)>)
    ensures r.Some? ==> |r.value.1| < |s|
  {
    match ReadDigits(s)
    case None => None
    case Some((u, rest)) => match Signed(u)
      case None => None
      case Some(v) => Some((v, rest))
  }

  predicate Fits(value: int) {
    -0x80000000 <= value < 0x80000000
  }

  lemma SignedIff(value: int)
    ensures Signed(Unsigned(value)).Some? && Fits(Signed(Unsigned(value)).value)
    ensures Signed(Unsigned(value)) == Some(value) <==> Fits(value)
  {
  }

  lemma {:induction false} DigitsRead(u: nat, rest: string)
    ensures ReadDigits(Digits(u) + rest) == Some((u, rest))
  {
    var s := Digits(u) + rest;
    if u < 32 {
      assert s[1..] == rest;
    } else {
      DigitsRead(u / 32, rest);
      assert s[1..] == Digits(u / 32) + rest;
    }
  }

  /** Whatever follows a number, reading gives it back if and only if it has 32 bits. */
  lemma NumberRead(value: int, rest: string)
    ensures ReadVlq(Digits(Unsigned(value)) + rest) == Some((value, rest)) <==> Fits(value)
  {
    DigitsRead(Unsigned(value), rest);
    SignedIff(value);
  }

  lemma {:induction false} DigitsLength(u: nat, n: nat, bound: nat)
    requires 0 < n && u < bound && bound == Power32(n)
    ensures 0 < |Digits(u)| <= n
  {
    if u >= 32 {
      DigitsLength(u / 32, n - 1, Power32(n - 1));
    }
  }

  function Power32(n: nat): nat {
    if n == 0 then 1 else 32 * Power32(n - 1)
  }

  lemma AtMostSeven(value: int)
    ensures 1 <= |Digits(Unsigned(value))| <= 7
  {
    assert Power32(7) == 0x800000000;
    DigitsLength(Unsigned(value), 7, Power32(7));
  }

  /** No encoding begins another: texts of numbers divide in one way only. */
  lemma PrefixFree(a: int, b: int, x: string, y: string)
    requires Digits(Unsigned(a)) + x == Digits(Unsigned(b)) + y
    ensures Digits(Unsigned(a)) == Digits(Unsigned(b)) && x == y
    ensures Fits(a) && Fits(b) ==> a == b
  {
    DigitsRead(Unsigned(a), x);
    DigitsRead(Unsigned(b), y);
    SignedIff(a);
    SignedIff(b);
  }

  /** Some numbers as every source map has them. */
  lemma Samples()
    ensures Digits(Unsigned(0)) == "A" && Digits(Unsigned(1)) == "C" && Digits(Unsigned(-1)) == "D"
    ensures Digits(Unsigned(15)) == "e" && Digits(Unsigned(16)) == "gB" && Digits(Unsigned(-16)) == "hB"
    ensures Digits(Unsigned(511)) == "+f" && Digits(Unsigned(1000)) == "w+B"
  {
    assert Digits(62) == [Char(62 % 32 + 32)] + Digits(1);
    assert Digits(1022) == [Char(1022 % 32 + 32)] + Digits(31);
    assert Digits(2000) == [Char(2000 % 32 + 32)] + Digits(62);
  }
}
