/** Bit-packing of a two-class table and the lookup emitted for it
    (misctools/gen-unicode-table.ts). The packed words are the program's BigInts. */
module PackedTables {
  import opened Wrappers
  import opened UnicodeTables

  const MAX_CODE_POINT: nat := 0x10FFFF

  // ---------------------------------------------------------------- bits of a number

  function Pow2(n: nat): (p: nat)
    ensures p > 0
  {
    if n == 0 then 1 else 2 * Pow2(n - 1)
  }

  /** Bit `j` of `v`: `(v & (1 << j)) != 0`. */
  predicate Bit(v: nat, j: nat) {
    if j == 0 then v % 2 == 1 else Bit(v / 2, j - 1)
  }

  /** `v | (1 << j)`. */
  function SetBit(v: nat, j: nat): nat {
    if Bit(v, j) then v else v + Pow2(j)
  }

  lemma {:induction false} SetBitMeaning(v: nat, j: nat)
    ensures Bit(SetBit(v, j), j)
    ensures forall i :: 0 <= i && i != j ==> (Bit(SetBit(v, j), i) <==> Bit(v, i))
  {
    if !Bit(v, j) {
      AddBit(v, j);
    }
  }

  lemma {:induction false} AddBit(v: nat, j: nat)
    requires !Bit(v, j)
    ensures Bit(v + Pow2(j), j)
    ensures forall i :: 0 <= i && i != j ==> (Bit(v + Pow2(j), i) <==> Bit(v, i))
  {
    if j == 0 {
      assert (v + 1) / 2 == v / 2;
      forall i | 0 <= i && i != j ensures Bit(v + 1, i) <==> Bit(v, i) {
        assert Bit(v + 1, i) == Bit((v + 1) / 2, i - 1);
      }
    } else {
      AddBit(v / 2, j - 1);
      assert (v + Pow2(j)) / 2 == v / 2 + Pow2(j - 1);
      forall i | 0 <= i && i != j ensures Bit(v + Pow2(j), i) <==> Bit(v, i) {
        if i > 0 { assert Bit(v + Pow2(j), i) == Bit(v / 2 + Pow2(j - 1), i - 1); }
      }
    }
  }

  lemma {:induction false} SetBitBound(v: nat, j: nat)
    requires v < Pow2(j)
    ensures SetBit(v, j) < Pow2(j + 1)
  {
  }

  lemma {:induction false} NoBits(j: nat)
    ensures !Bit(0, j)
  {
    if j > 0 { NoBits(j - 1); }
  }

  lemma {:induction false} Pow2Grows(i: nat, j: nat)
    requires i <= j
    ensures Pow2(i) <= Pow2(j)
  {
    if i < j { Pow2Grows(i, j - 1); }
  }

  // ---------------------------------------------------------------- packing

  /** Word `i` holds entries 64 * i .. 64 * i + 63 as bits. */
  ghost predicate Packs(word: nat, bits: seq<nat>, i: nat) {
    && word < Pow2(64)
    && forall j :: 0 <= j < 64 ==> (Bit(word, j) <==> BitSet(bits, 64 * i + j))
  }

  ghost predicate BitSet(bits: seq<nat>, k: nat) {
    k < |bits| && bits[k] != 0
  }

  /** One word of the packed table. */
  method PackWord(bits: seq<nat>, i: nat) returns (value: nat)
    ensures Packs(value, bits, i)
  {
    value := 0;
    var j := 0;
    forall k: nat ensures !Bit(0, k) { NoBits(k); }
    while j < 64 && 64 * i + j < |bits|
      invariant j <= 64 && value < Pow2(j)
      invariant forall k :: 0 <= k < j ==> (Bit(value, k) <==> BitSet(bits, 64 * i + k))
      invariant forall k :: j <= k ==> !Bit(value, k)
    {
      SetBitMeaning(value, j);
      SetBitBound(value, j);
      if bits[64 * i + j] != 0 {
        value := SetBit(value, j);
      }
      j := j + 1;
    }
    Pow2Grows(j, 64);
  }

  method BitsToU64Array(bits: seq<nat>) returns (result: seq<nat>)
    ensures |result| == (|bits| + 63) / 64
    ensures forall i :: 0 <= i < |result| ==> Packs(result[i], bits, i)
  {
    result := [];
    var i := 0;
    while i < |bits|
      invariant i == 64 * |result| && |result| <= (|bits| + 63) / 64
      invariant forall k :: 0 <= k < |result| ==> Packs(result[k], bits, k)
    {
      var value := PackWord(bits, |result|);
      result := result + [value];
      i := i + 64;
    }
  }

  // ---------------------------------------------------------------- the emitted function

  /** The tables in the emitted source: `[_]u16` and `[_]u64`. */
  datatype Packed = Packed(stage1: seq<nat>, stage2: seq<nat>)

  /** Every array access of the emitted lookup is in range, and every number it handles fits
      the width it is declared with. */
  ghost predicate InRange(p: Packed, cp: nat) {
    && cp / 256 < |p.stage1|
    && p.stage1[cp / 256] <= 0xffff
    && p.stage1[cp / 256] + cp % 256 < 0x200000
    && (p.stage1[cp / 256] + cp % 256) / 64 < |p.stage2|
    && p.stage2[(p.stage1[cp / 256] + cp % 256) / 64] < Pow2(64)
  }

  function Lookup(p: Packed, cp: nat): bool
    requires cp <= MAX_CODE_POINT ==> InRange(p, cp)
  {
    if cp > MAX_CODE_POINT then false
    else
      var pos := p.stage1[cp / 256] + cp % 256;
      Bit(p.stage2[pos / 64], pos % 64)
  }

  function CheckContext(check: nat -> bool): Context<bool> {
    Context(check, (a: bool, b: bool) => a == b)
  }

  /** With two classes, a code point is in class 0 exactly when it agrees with code point 0. */
  lemma {:induction false} TwoClasses(check: nat -> bool, n: nat)
    ensures |Classes(CheckContext(check), n)| <= 2
    ensures n > 0 ==> |Classes(CheckContext(check), n)| > 0 && Classes(CheckContext(check), n)[0] == check(0)
    ensures |Classes(CheckContext(check), n)| == 2 ==> Classes(CheckContext(check), n)[1] == !check(0)
  {
    if n > 0 {
      TwoClasses(check, n - 1);
      FindMeaning(CheckContext(check), Classes(CheckContext(check), n - 1), check(n - 1));
    }
  }

  lemma ClassIsDifference(check: nat -> bool, cp: nat)
    ensures ClassOf(CheckContext(check), cp) != 0 <==> check(cp) != check(0)
  {
    var c := CheckContext(check);
    TwoClasses(check, cp + 1);
    TwoClasses(check, cp);
    ClassRepresents(c, cp, cp + 1);
  }

  /** A code point whose class is stored resolves to its class's bit. */
  lemma PackedResolves(t: Tables<bool>, words: seq<nat>, check: nat -> bool, cp: nat)
    requires cp <= MAX_CODE_POINT
    requires Resolves(t, CheckContext(check), cp)
    requires |words| == (|t.stage2| + 63) / 64
    requires forall i :: 0 <= i < |words| ==> Packs(words[i], t.stage2, i)
    ensures InRange(Packed(t.stage1, words), cp)
    ensures Lookup(Packed(t.stage1, words), cp) == (check(cp) != check(0))
  {
    ClassIsDifference(check, cp);
    var pos := t.stage1[cp / 256] + cp % 256;
    assert Packs(words[pos / 64], t.stage2, pos / 64);
    assert 64 * (pos / 64) + pos % 64 == pos;
    assert BitSet(t.stage2, 64 * (pos / 64) + pos % 64) <==> t.stage2[pos] != 0;
  }

  /** The emitted lookup returns whether a code point differs from code point 0; so it is the
      checked predicate if and only if that predicate is false at 0. */
  method GenerateTable(check: nat -> bool) returns (r: Result<Packed, string>)
    ensures r.Ok? ==> forall cp :: 0 <= cp <= 0x10FFFF ==>
                        InRange(r.value, cp) && Lookup(r.value, cp) == (check(cp) != check(0))
    ensures r.Ok? ==> forall cp :: cp > 0x10FFFF ==> !Lookup(r.value, cp)
    ensures r.Ok? ==> ((forall cp :: 0 <= cp <= MAX_CODE_POINT ==> Lookup(r.value, cp) == check(cp)) <==> !check(0))
    ensures r.Err? <==> |Distinct(Blocks(CheckContext(check), MAX_CODE_POINT, BlockCount(MAX_CODE_POINT)))| > 0x100
  {
    var ctx := CheckContext(check);
    var generator := new Generator(ctx);
    var tables := generator.Generate(MAX_CODE_POINT);
    TwoClasses(check, MAX_CODE_POINT + 1);
    if tables.Err? { return Err(tables.error); }
    var t := tables.value;
    var words := BitsToU64Array(t.stage2);
    r := Ok(Packed(t.stage1, words));
    forall cp | 0 <= cp <= MAX_CODE_POINT
      ensures InRange(r.value, cp) && Lookup(r.value, cp) == (check(cp) != check(0))
    {
      assert Resolves(t, ctx, cp);
      PackedResolves(t, words, check, cp);
    }
    assert Lookup(r.value, 0) == (check(0) != check(0));
  }

  /** The block map outlives a run: a second run of the same generator finds every block in it,
      stores none, and its tables resolve no code point. */
  method SecondRun<Elem>(ctx: Context<Elem>, last: nat) returns (r: Result<Tables<Elem>, string>)
    ensures r.Err? <==> Overflows(ctx, last)
    ensures r.Ok? ==> r.value.stage2 == [] && !Represents(r.value, ctx, last)
  {
    var generator := new Generator(ctx);
    r := generator.Generate(last);
    if r.Ok? {
      r := generator.Generate(last);
      assert !Resolves(r.value, ctx, 0);
    }
  }
}
