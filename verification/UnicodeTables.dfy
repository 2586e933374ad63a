/** The block-deduplicated tables of misctools/unicode-generator.ts. */
module UnicodeTables {
  import opened Wrappers

  // Generator.BLOCK_SIZE is written out as 256 throughout.

  /** What is tabulated: a property of code points and the equivalence to store it up to. */
  datatype Context<!Elem> = Context(get: nat -> Elem, eql: (Elem, Elem) -> bool)

  datatype Tables<Elem> = Tables(stage1: seq<nat>, stage2: seq<nat>, stage3: seq<Elem>)

  // ---------------------------------------------------------------- specification

  /** The first item equivalent to `e`, or the length of the list. */
  function Find<Elem>(c: Context<Elem>, items: seq<Elem>, e: Elem): (i: nat)
    ensures i <= |items|
  {
    if items == [] then 0
    else
      var i := Find(c, items[..|items| - 1], e);
      if i < |items| - 1 || c.eql(items[|items| - 1], e) then i else |items|
  }

  lemma {:induction false} FindMeaning<Elem>(c: Context<Elem>, items: seq<Elem>, e: Elem)
    ensures var i := Find(c, items, e);
            && (i < |items| ==> c.eql(items[i], e))
            && (forall j :: 0 <= j < i ==> !c.eql(items[j], e))
  {
    if items != [] {
      var h := items[..|items| - 1];
      FindMeaning(c, h, e);
      assert forall j :: 0 <= j < |h| ==> items[j] == h[j];
    }
  }

  /** The representatives met among the first `n` code points. */
  function Classes<Elem>(c: Context<Elem>, n: nat): (s: seq<Elem>)
    ensures |s| <= n
  {
    if n == 0 then []
    else
      var s := Classes(c, n - 1);
      if Find(c, s, c.get(n - 1)) < |s| then s else s + [c.get(n - 1)]
  }

  /** The class that code point `cp` is given. */
  function ClassOf<Elem>(c: Context<Elem>, cp: nat): (i: nat)
    ensures i <= |Classes(c, cp)|
  {
    Find(c, Classes(c, cp), c.get(cp))
  }

  lemma {:induction false} ClassesGrow<Elem>(c: Context<Elem>, m: nat, n: nat)
    requires m <= n
    ensures Classes(c, m) <= Classes(c, n)
  {
    if m < n {
      ClassesGrow(c, m, n - 1);
      assert Classes(c, n - 1) <= Classes(c, n);
    }
  }

  lemma TooManyClasses<Elem>(c: Context<Elem>, cp: nat, n: nat)
    requires cp < n && ClassOf(c, cp) > 0xffff
    ensures |Classes(c, n)| > 0x10000
  {
    ClassesGrow(c, cp + 1, n);
  }

  lemma ClassRepresents<Elem>(c: Context<Elem>, cp: nat, n: nat)
    requires cp < n
    ensures ClassOf(c, cp) < |Classes(c, n)|
    ensures c.eql(c.get(cp), c.get(cp)) ==> c.eql(Classes(c, n)[ClassOf(c, cp)], c.get(cp))
  {
    FindMeaning(c, Classes(c, cp), c.get(cp));
    ClassesGrow(c, cp + 1, n);
    assert Classes(c, cp) <= Classes(c, cp + 1);
  }

  function Entry<Elem>(c: Context<Elem>, last: nat, cp: nat): nat {
    if cp <= last then ClassOf(c, cp) else 0
  }

  /** Block `b` of code points up to `last`, padded with zeros to full size. */
  function Block<Elem>(c: Context<Elem>, last: nat, b: nat): (s: seq<nat>)
    ensures |s| == 256
  {
    Entries(c, last, 256 * b, 256)
  }

  function Entries<Elem>(c: Context<Elem>, last: nat, from: nat, n: nat): (s: seq<nat>)
    ensures |s| == n
  {
    if n == 0 then [] else Entries(c, last, from, n - 1) + [Entry(c, last, from + n - 1)]
  }

  lemma {:induction false} EntriesAt<Elem>(c: Context<Elem>, last: nat, from: nat, n: nat, i: nat)
    requires i < n
    ensures Entries(c, last, from, n)[i] == Entry(c, last, from + i)
  {
    if i < n - 1 { EntriesAt(c, last, from, n - 1, i); }
  }

  lemma BlockAt<Elem>(c: Context<Elem>, last: nat, b: nat, i: nat)
    requires i < 256
    ensures Block(c, last, b)[i] == Entry(c, last, 256 * b + i)
  {
    EntriesAt(c, last, 256 * b, 256, i);
  }

  function Blocks<Elem>(c: Context<Elem>, last: nat, n: nat): (bs: seq<seq<nat>>)
    ensures |bs| == n
  {
    if n == 0 then [] else Blocks(c, last, n - 1) + [Block(c, last, n - 1)]
  }

  lemma {:induction false} BlocksAt<Elem>(c: Context<Elem>, last: nat, n: nat, b: nat)
    requires b < n
    ensures Blocks(c, last, n)[b] == Block(c, last, b)
  {
    if b < n - 1 { BlocksAt(c, last, n - 1, b); }
  }

  function Distinct(bs: seq<seq<nat>>): set<seq<nat>> {
    set b | b in bs
  }

  /** The lookup through the three stages stays in range and finds an element equivalent to
      what the context says. */
  ghost predicate Represents<Elem>(t: Tables<Elem>, c: Context<Elem>, last: nat) {
    forall cp :: 0 <= cp <= last ==> Resolves(t, c, cp)
  }

  ghost predicate Resolves<Elem>(t: Tables<Elem>, c: Context<Elem>, cp: nat) {
    && cp / 256 < |t.stage1|
    && t.stage1[cp / 256] <= 0xffff
    && t.stage1[cp / 256] + cp % 256 < |t.stage2|
    && var k := t.stage2[t.stage1[cp / 256] + cp % 256];
       k < |t.stage3| && k == ClassOf(c, cp) && (c.eql(c.get(cp), c.get(cp)) ==> c.eql(t.stage3[k], c.get(cp)))
  }

  /** Two blocks share storage exactly when they hold the same classes. */
  ghost predicate Deduplicated<Elem>(t: Tables<Elem>, c: Context<Elem>, last: nat) {
    forall a, b :: 0 <= a < |t.stage1| && 0 <= b < |t.stage1| ==>
      (t.stage1[a] == t.stage1[b] <==> Block(c, last, a) == Block(c, last, b))
  }

  function BlockCount(last: nat): (n: nat) {
    last / 256 + 1
  }

  /** Too many classes or too many distinct blocks for 16-bit indices. */
  ghost predicate Overflows<Elem>(c: Context<Elem>, last: nat) {
    || |Classes(c, last + 1)| > 0x10000
    || |Distinct(Blocks(c, last, BlockCount(last)))| > 0x100
  }

  // ---------------------------------------------------------------- deduplicated storage

  type BlockMap = map<seq<nat>, nat>

  ghost predicate Knows(m: BlockMap, bs: seq<seq<nat>>) {
    forall k :: k in bs ==> k in m && m[k] <= 0xffff
  }

  ghost predicate HoldsAt(stage2: seq<nat>, at: nat, block: seq<nat>) {
    at + |block| <= |stage2| && stage2[at..at + |block|] == block
  }

  ghost predicate MapHolds(stage2: seq<nat>, m: BlockMap) {
    forall k :: k in m ==> |k| == 256 && m[k] <= 0xffff && HoldsAt(stage2, m[k], k)
  }

  ghost predicate Indexed(bs: seq<seq<nat>>, stage1: seq<nat>, m: BlockMap) {
    |stage1| == |bs| && forall b :: 0 <= b < |bs| ==> bs[b] in m && stage1[b] == m[bs[b]]
  }

  /** The map remembers where each of the blocks, all of them full, was stored. */
  ghost predicate Stored(bs: seq<seq<nat>>, stage1: seq<nat>, stage2: seq<nat>, m: BlockMap) {
    && Indexed(bs, stage1, m)
    && MapHolds(stage2, m)
    && m.Keys == Distinct(bs)
    && |stage2| == 256 * |m.Keys| && |m.Keys| <= 0x100
  }

  /** All blocks can be found; the final one may be stored short, with `len` entries. */
  ghost predicate Addressed(bs: seq<seq<nat>>, len: nat, stage1: seq<nat>, stage2: seq<nat>) {
    && |stage1| == |bs|
    && (forall b :: 0 <= b < |bs| ==> stage1[b] <= 0xffff && |bs[b]| == 256)
    && (forall b :: 0 <= b < |bs| - 1 ==> HoldsAt(stage2, stage1[b], bs[b]))
    && (0 < |bs| && len <= 256 ==> HoldsAt(stage2, stage1[|bs| - 1], bs[|bs| - 1][..len]))
    && (forall a: nat, b: nat :: a < |bs| && b < |bs| ==> SharedAt(bs, stage1, a, b))
  }

  /** Blocks `a` and `b` share storage exactly if they are equal. */
  ghost predicate SharedAt(bs: seq<seq<nat>>, stage1: seq<nat>, a: nat, b: nat) {
    a < |bs| == |stage1| && b < |bs| && (stage1[a] == stage1[b] <==> bs[a] == bs[b])
  }

  lemma DistinctStep(bs: seq<seq<nat>>, k: seq<nat>)
    ensures Distinct(bs + [k]) == Distinct(bs) + {k}
    ensures k in Distinct(bs) <==> k in bs
    ensures |Distinct(bs + [k])| == if k in Distinct(bs) then |Distinct(bs)| else |Distinct(bs)| + 1
  {
    if k in Distinct(bs) { assert Distinct(bs) + {k} == Distinct(bs); }
  }

  lemma {:induction false} SubsetSize(a: set<seq<nat>>, b: set<seq<nat>>)
    requires a <= b
    ensures |a| <= |b|
  {
    if a != {} {
      var x :| x in a;
      SubsetSize(a - {x}, b - {x});
    }
  }

  lemma HoldsAtExtend(stage2: seq<nat>, more: seq<nat>, at: nat, block: seq<nat>)
    requires HoldsAt(stage2, at, block)
    ensures HoldsAt(stage2 + more, at, block)
  {
    assert (stage2 + more)[at..at + |block|] == stage2[at..at + |block|];
  }

  lemma HoldsAtPrefix(stage2: seq<nat>, at: nat, block: seq<nat>, n: nat)
    requires HoldsAt(stage2, at, block) && n <= |block|
    ensures HoldsAt(stage2, at, block[..n])
  {
    assert stage2[at..at + n] == stage2[at..at + |block|][..n];
  }

  /** A block that was stored before. */
  lemma StoreKnown(bs: seq<seq<nat>>, stage1: seq<nat>, stage2: seq<nat>, m: BlockMap, k: seq<nat>)
    requires Stored(bs, stage1, stage2, m) && k in m
    ensures Stored(bs + [k], stage1 + [m[k]], stage2, m)
  {
    DistinctStep(bs, k);
    assert Distinct(bs) + {k} == Distinct(bs);
  }

  lemma MapHoldsNew(stage2: seq<nat>, m: BlockMap, k: seq<nat>)
    requires MapHolds(stage2, m) && k !in m && |k| == 256 && |stage2| <= 0xffff
    ensures MapHolds(stage2 + k, m[k := |stage2|])
  {
    var m' := m[k := |stage2|];
    forall k' | k' in m' ensures HoldsAt(stage2 + k, m'[k'], k') {
      if k' != k { HoldsAtExtend(stage2, k, m[k'], k'); }
    }
  }

  lemma IndexedNew(bs: seq<seq<nat>>, stage1: seq<nat>, m: BlockMap, k: seq<nat>, at: nat)
    requires Indexed(bs, stage1, m) && k !in m
    ensures Indexed(bs + [k], stage1 + [at], m[k := at])
  {
  }

  /** A new full block goes to the end. */
  lemma StoreNew(bs: seq<seq<nat>>, stage1: seq<nat>, stage2: seq<nat>, m: BlockMap, k: seq<nat>)
    requires Stored(bs, stage1, stage2, m) && k !in m && |k| == 256 && |stage2| <= 0xffff
    ensures Stored(bs + [k], stage1 + [|stage2|], stage2 + k, m[k := |stage2|])
  {
    MapHoldsNew(stage2, m, k);
    IndexedNew(bs, stage1, m, k, |stage2|);
    DistinctStep(bs, k);
    assert m[k := |stage2|].Keys == m.Keys + {k};
  }

  /** Storage tells blocks apart. */
  lemma StoredApart(bs: seq<seq<nat>>, stage1: seq<nat>, stage2: seq<nat>, m: BlockMap, a: nat, b: nat)
    requires Stored(bs, stage1, stage2, m) && a < |bs| && b < |bs|
    ensures stage1[a] == stage1[b] <==> bs[a] == bs[b]
    ensures stage1[a] < |stage2| && stage1[a] <= 0xffff && |bs[a]| == 256 && HoldsAt(stage2, stage1[a], bs[a])
  {
    assert HoldsAt(stage2, m[bs[a]], bs[a]) && HoldsAt(stage2, m[bs[b]], bs[b]);
  }

  lemma StoredIsAddressed(bs: seq<seq<nat>>, len: nat, stage1: seq<nat>, stage2: seq<nat>, m: BlockMap)
    requires Stored(bs, stage1, stage2, m) && len <= 256
    ensures Addressed(bs, len, stage1, stage2)
  {
    forall a: nat, b: nat | a < |bs| && b < |bs| ensures SharedAt(bs, stage1, a, b) {
      StoredApart(bs, stage1, stage2, m, a, b);
    }
    forall a | 0 <= a < |bs| ensures stage1[a] <= 0xffff && |bs[a]| == 256 && HoldsAt(stage2, stage1[a], bs[a]) {
      StoredApart(bs, stage1, stage2, m, a, a);
    }
    if bs != [] { HoldsAtPrefix(stage2, stage1[|bs| - 1], bs[|bs| - 1], len); }
  }

  /** A new final block is stored without its padding. */
  lemma LastApart(bs: seq<seq<nat>>, stage1: seq<nat>, stage2: seq<nat>, m: BlockMap, k: seq<nat>, a: nat, b: nat)
    requires Stored(bs, stage1, stage2, m) && k !in m && a <= |bs| && b <= |bs|
    ensures SharedAt(bs + [k], stage1 + [|stage2|], a, b)
  {
    if a < |bs| { StoredApart(bs, stage1, stage2, m, a, if b < |bs| then b else a); }
    if b < |bs| { StoredApart(bs, stage1, stage2, m, b, b); }
  }

  lemma LastHolds(bs: seq<seq<nat>>, stage1: seq<nat>, stage2: seq<nat>, m: BlockMap, more: seq<nat>, b: nat)
    requires Stored(bs, stage1, stage2, m) && b < |bs|
    ensures stage1[b] <= 0xffff && |bs[b]| == 256 && HoldsAt(stage2 + more, stage1[b], bs[b])
  {
    StoredApart(bs, stage1, stage2, m, b, b);
    HoldsAtExtend(stage2, more, stage1[b], bs[b]);
  }

  lemma LastShared(bs: seq<seq<nat>>, stage1: seq<nat>, stage2: seq<nat>, m: BlockMap, k: seq<nat>)
    requires Stored(bs, stage1, stage2, m) && k !in m
    ensures forall a: nat, b: nat :: a <= |bs| && b <= |bs| ==> SharedAt(bs + [k], stage1 + [|stage2|], a, b)
  {
    forall a: nat, b: nat | a <= |bs| && b <= |bs| ensures SharedAt(bs + [k], stage1 + [|stage2|], a, b) {
      LastApart(bs, stage1, stage2, m, k, a, b);
    }
  }

  lemma LastAllHold(bs: seq<seq<nat>>, stage1: seq<nat>, stage2: seq<nat>, m: BlockMap, more: seq<nat>)
    requires Stored(bs, stage1, stage2, m)
    ensures forall b :: 0 <= b < |bs| ==>
      stage1[b] <= 0xffff && |bs[b]| == 256 && HoldsAt(stage2 + more, stage1[b], bs[b])
  {
    forall b | 0 <= b < |bs|
      ensures stage1[b] <= 0xffff && |bs[b]| == 256 && HoldsAt(stage2 + more, stage1[b], bs[b])
    {
      LastHolds(bs, stage1, stage2, m, more, b);
    }
  }

  lemma HoldsLast(stage2: seq<nat>, more: seq<nat>)
    ensures HoldsAt(stage2 + more, |stage2|, more)
  {
  }

  lemma StoreLast(bs: seq<seq<nat>>, len: nat, stage1: seq<nat>, stage2: seq<nat>, m: BlockMap, k: seq<nat>)
    requires Stored(bs, stage1, stage2, m) && k !in m && |k| == 256 && len <= 256 && |stage2| <= 0xffff
    ensures Addressed(bs + [k], len, stage1 + [|stage2|], stage2 + k[..len])
  {
    LastShared(bs, stage1, stage2, m, k);
    LastAllHold(bs, stage1, stage2, m, k[..len]);
    HoldsLast(stage2, k[..len]);
  }

  /** Finding every block makes every code point resolve. */
  lemma AddressedRepresents<Elem>(c: Context<Elem>, last: nat, t: Tables<Elem>, total: nat, len: nat)
    requires last + 1 == 256 * (total - 1) + len && 0 < len <= 256
    requires Addressed(Blocks(c, last, total), len, t.stage1, t.stage2)
    requires t.stage3 == Classes(c, last + 1)
    ensures Represents(t, c, last) && Deduplicated(t, c, last)
  {
    forall cp | 0 <= cp <= last ensures Resolves(t, c, cp) {
      ResolvesAt(c, last, t, total, len, cp);
    }
    forall a, b | 0 <= a < total && 0 <= b < total
      ensures t.stage1[a] == t.stage1[b] <==> Block(c, last, a) == Block(c, last, b)
    {
      assert SharedAt(Blocks(c, last, total), t.stage1, a, b);
      BlocksAt(c, last, total, a);
      BlocksAt(c, last, total, b);
    }
  }

  lemma ResolvesAt<Elem>(c: Context<Elem>, last: nat, t: Tables<Elem>, total: nat, len: nat, cp: nat)
    requires last + 1 == 256 * (total - 1) + len && 0 < len <= 256
    requires Addressed(Blocks(c, last, total), len, t.stage1, t.stage2)
    requires t.stage3 == Classes(c, last + 1) && cp <= last
    ensures Resolves(t, c, cp)
  {
    var b, i := Split(cp);
    AddressedResolves(c, last, t, total, len, b, i, cp);
    ResolvesSplit(t, c, last, cp, b, i);
  }

  lemma Split(cp: nat) returns (b: nat, i: nat)
    ensures b == cp / 256 && i == cp % 256 && 256 * b + i == cp && i < 256
  {
    b, i := cp / 256, cp % 256;
  }

  /** Entry `i` of block `b` has class `k`. */
  ghost predicate StagedAt<Elem>(t: Tables<Elem>, b: nat, i: nat, k: nat) {
    && b < |t.stage1| && t.stage1[b] <= 0xffff && t.stage1[b] + i < |t.stage2|
    && t.stage2[t.stage1[b] + i] == k
  }

  lemma ResolvesSplit<Elem>(t: Tables<Elem>, c: Context<Elem>, last: nat, cp: nat, b: nat, i: nat)
    requires b == cp / 256 && i == cp % 256 && cp <= last && t.stage3 == Classes(c, last + 1)
    requires StagedAt(t, b, i, ClassOf(c, cp))
    ensures Resolves(t, c, cp)
  {
    ClassRepresents(c, cp, last + 1);
  }

  lemma AddressedResolves<Elem>(c: Context<Elem>, last: nat, t: Tables<Elem>, total: nat, len: nat,
                                b: nat, i: nat, cp: nat)
    requires last + 1 == 256 * (total - 1) + len && 0 < len <= 256
    requires Addressed(Blocks(c, last, total), len, t.stage1, t.stage2)
    requires 256 * b + i == cp <= last && i < 256
    ensures StagedAt(t, b, i, ClassOf(c, cp))
  {
    var bs := Blocks(c, last, total);
    StoredEntry(bs, len, t.stage1, t.stage2, b, i);
    assert bs[b][i] == ClassOf(c, 256 * b + i) by {
      BlocksAt(c, last, total, b);
      BlockAt(c, last, b, i);
    }
  }

  lemma StoredEntry(bs: seq<seq<nat>>, len: nat, stage1: seq<nat>, stage2: seq<nat>, b: nat, i: nat)
    requires Addressed(bs, len, stage1, stage2) && len <= 256
    requires b < |bs| && i < if b == |bs| - 1 then len else 256
    ensures stage1[b] <= 0xffff && |bs[b]| == 256
    ensures stage1[b] + i < |stage2| && stage2[stage1[b] + i] == bs[b][i]
  {
    if b == |bs| - 1 {
      assert stage2[stage1[b]..stage1[b] + len][i] == bs[b][..len][i];
    } else {
      assert stage2[stage1[b]..stage1[b] + 256][i] == bs[b][i];
    }
  }

  // ---------------------------------------------------------------- the generator

  /** The block map belongs to the generator, not to one run of it. It is keyed here by the block
      itself, where the program uses a SHA-256 digest of it. */
  class Generator<Elem> {
    const ctx: Context<Elem>
    var blockMap: BlockMap

    constructor (ctx: Context<Elem>)
      ensures this.ctx == ctx && blockMap == map[]
    {
      this.ctx := ctx;
      blockMap := map[];
    }

    /** All blocks are already in the map, as they are after a successful run. */
    ghost predicate Stale(last: nat)
      reads this
    {
      Knows(blockMap, Blocks(ctx, last, BlockCount(last)))
    }

    /** Looks a finished block up, appending its `len` real entries if it is new. */
    method StoreBlock(block: seq<nat>, len: nat, stage1: seq<nat>, stage2: seq<nat>)
      returns (ok: bool, stage1': seq<nat>, stage2': seq<nat>)
      requires len <= |block|
      modifies this`blockMap
      ensures Put(block, len, stage1, stage2, old(blockMap), ok, stage1', stage2', blockMap)
    {
      stage1', stage2' := stage1, stage2;
      var stage2Idx;
      if block in blockMap {
        stage2Idx := blockMap[block];
      } else {
        stage2Idx := |stage2|;
        blockMap := blockMap[block := stage2Idx];
        stage2' := stage2 + block[..len];
      }
      if stage2Idx > 0xffff { return false, stage1', stage2'; }
      return true, stage1' + [stage2Idx], stage2';
    }

    /** The class of the next code point, found or added. */
    method Classify(cp: nat, stage3: seq<Elem>) returns (idx: nat, stage3': seq<Elem>)
      requires stage3 == Classes(ctx, cp)
      ensures idx == ClassOf(ctx, cp) && stage3' == Classes(ctx, cp + 1)
      ensures idx < |stage3'| <= |stage3| + 1 && (idx < |stage3| ==> |stage3'| == |stage3|)
    {
      var elem := ctx.get(cp);
      idx := Find(ctx, stage3, elem);
      stage3' := stage3;
      if idx == |stage3| {
        stage3' := stage3' + [elem];
      }
    }

    /** One code point. `ends` says whether it completes a block. */
    method Take(last: nat, cp: nat, t: Tables<Elem>, block: seq<nat>, blockLen: nat,
                ghost all: seq<seq<nat>>, ghost lastLen: nat)
      returns (r: Result<Tables<Elem>, string>, block': seq<nat>, blockLen': nat, ghost ends: bool,
               ghost t': Tables<Elem>)
      requires AreBlocks(ctx, last, all) && cp <= last
      requires last + 1 == 256 * (|all| - 1) + lastLen && 0 < lastLen <= 256
      requires Filling(ctx, all, cp, t, block, blockLen)
      modifies this`blockMap
      ensures r.Ok? ==> r.value == t'
      ensures r.Ok? && cp < last ==> Filling(ctx, all, cp + 1, t', block', blockLen')
      ensures r.Ok? && cp == last ==> Filled(ctx, last, all, t')
      ensures !ends ==> t'.stage1 == t.stage1 && t'.stage2 == t.stage2 && blockMap == old(blockMap)
      ensures !ends ==> if r.Ok? then cp < last else |Classes(ctx, last + 1)| > 0x10000
      ensures ends ==> blockLen + 1 == (if |t.stage1| + 1 < |all| then 256 else lastLen)
                       && Put(all[|t.stage1|], blockLen + 1, t.stage1, t.stage2, old(blockMap), r.Ok?, t'.stage1,
                         t'.stage2, blockMap)
    {
      blockLen', ends, t' := blockLen, false, t;
      var ok, stage3;
      ok, stage3, block' := Place(last, cp, t, block, blockLen, all);
      if !ok {
        r := Err("Block index too large");
        return;
      }
      blockLen' := blockLen + 1;
      if blockLen' < 256 && cp != last {
        t' := t.(stage3 := stage3);
        r := Ok(t.(stage3 := stage3));
        return;
      }
      ends := true;
      r, t' := EndBlock(last, block', blockLen', t.(stage3 := stage3), all, lastLen);
      block', blockLen' := ZeroBlock(), 0;
    }

    /** The element of a code point, and its number in the block. */
    method Place(last: nat, cp: nat, t: Tables<Elem>, block: seq<nat>, blockLen: nat, ghost all: seq<seq<nat>>)
      returns (ok: bool, stage3: seq<Elem>, block': seq<nat>)
      requires AreBlocks(ctx, last, all) && cp <= last && Filling(ctx, all, cp, t, block, blockLen)
      ensures !ok ==> |Classes(ctx, last + 1)| > 0x10000
      ensures ok ==> stage3 == Classes(ctx, cp + 1) && |stage3| <= 0x10000
      ensures ok ==> PartOf(block', all[|t.stage1|], blockLen + 1)
    {
      block' := block;
      var blockIdx;
      blockIdx, stage3 := Classify(cp, t.stage3);
      ok := blockIdx <= 0xffff;
      if !ok {
        TooManyClasses(ctx, cp, last + 1);
        return;
      }
      PlaceEntry(ctx, last, all, |t.stage1|, block, blockLen);
      block' := block[blockLen := blockIdx];
    }

    /** The end of a block: zeros fill it up, and it is stored. */
    method EndBlock(last: nat, block: seq<nat>, blockLen: nat, t: Tables<Elem>, ghost all: seq<seq<nat>>,
                    ghost lastLen: nat)
      returns (r: Result<Tables<Elem>, string>, ghost t': Tables<Elem>)
      requires AreBlocks(ctx, last, all) && |t.stage1| < |all|
      requires last + 1 == 256 * (|all| - 1) + lastLen && 0 < lastLen <= 256
      requires blockLen == 256 || last + 1 == 256 * |t.stage1| + blockLen
      requires blockLen <= 256 && PartOf(block, all[|t.stage1|], blockLen)
      modifies this`blockMap
      ensures r.Ok? ==> r.value == t'
      ensures t'.stage3 == t.stage3
      ensures Put(all[|t.stage1|], blockLen, t.stage1, t.stage2, old(blockMap), r.Ok?, t'.stage1, t'.stage2, blockMap)
    {
      WholeBlock(ctx, last, all, |t.stage1|, block, blockLen);
      var whole := if blockLen < 256 then ZeroFrom(block, blockLen) else block;
      var ok, stage1, stage2 := StoreBlock(whole, blockLen, t.stage1, t.stage2);
      t' := Tables(stage1, stage2, t.stage3);
      r := if ok then Ok(Tables(stage1, stage2, t.stage3)) else Err("Stage2 index too large");
    }

    /** The same, with what is stored so far. */
    method TakeSoundly(last: nat, cp: nat, t: Tables<Elem>, block: seq<nat>, blockLen: nat,
                       ghost all: seq<seq<nat>>, ghost lastLen: nat, ghost first: bool, ghost stale: bool)
      returns (r: Result<Tables<Elem>, string>, block': seq<nat>, blockLen': nat)
      requires AreBlocks(ctx, last, all) && cp <= last
      requires last + 1 == 256 * (|all| - 1) + lastLen && 0 < lastLen <= 256
      requires Filling(ctx, all, cp, t, block, blockLen)
      requires Sound(all, lastLen, first, stale, t.stage1, t.stage2, blockMap)
      modifies this`blockMap
      ensures r.Ok? && cp < last ==> Filling(ctx, all, cp + 1, r.value, block', blockLen')
      ensures r.Ok? && cp == last ==> Filled(ctx, last, all, r.value)
      ensures r.Ok? ==> Sound(all, lastLen, first, stale, r.value.stage1, r.value.stage2, blockMap)
      ensures r.Err? ==> |Classes(ctx, last + 1)| > 0x10000 || (!stale && (first ==> |Distinct(all)| > 0x100))
    {
      ghost var m := blockMap;
      ghost var ends, t';
      r, block', blockLen', ends, t' := Take(last, cp, t, block, blockLen, all, lastLen);
      if ends {
        PutProgress(all, blockLen + 1, lastLen, first, stale, t.stage1, t.stage2, m, r.Ok?, t'.stage1, t'.stage2,
          blockMap);
      }
    }

    /** The loop over the code points; `all` are the blocks it will meet. */
    method Run(last: nat, ghost all: seq<seq<nat>>, ghost lastLen: nat) returns (r: Result<Tables<Elem>, string>)
      requires AreBlocks(ctx, last, all)
      requires last + 1 == 256 * (|all| - 1) + lastLen && 0 < lastLen <= 256
      modifies this`blockMap
      ensures old(blockMap) == map[] && r.Ok? ==>
                && Addressed(all, lastLen, r.value.stage1, r.value.stage2)
                && |Distinct(all)| <= 0x100 && Knows(blockMap, all)
      ensures old(blockMap) == map[] && r.Err? ==> |Classes(ctx, last + 1)| > 0x10000 || |Distinct(all)| > 0x100
      ensures r.Ok? ==>
        r.value.stage3 == Classes(ctx, last + 1) && |r.value.stage1| == |all| && |r.value.stage3| <= 0x10000
      ensures old(Knows(blockMap, all)) && |Classes(ctx, last + 1)| <= 0x10000 ==> r.Ok? && r.value.stage2 == []
    {
      var t: Tables<Elem> := Tables([], [], []);
      var block: seq<nat>, blockLen: nat := ZeroBlock(), 0;
      ghost var first, stale := blockMap == map[], Knows(blockMap, all);
      for cp := 0 to last + 1
        invariant cp <= last ==> Filling(ctx, all, cp, t, block, blockLen)
        invariant cp == last + 1 ==> Filled(ctx, last, all, t)
        invariant Sound(all, lastLen, first, stale, t.stage1, t.stage2, blockMap)
      {
        r, block, blockLen := TakeSoundly(last, cp, t, block, blockLen, all, lastLen, first, stale);
        if r.Err? { return; }
        t := r.value;
      }
      r := Ok(t);
    }

    /** The program runs this with `last` = 0x10FFFF. */
    method Generate(last: nat) returns (r: Result<Tables<Elem>, string>)
      modifies this`blockMap
      ensures old(blockMap) == map[] && r.Ok? ==>
                Represents(r.value, ctx, last) && Deduplicated(r.value, ctx, last) && Stale(last)
      ensures old(blockMap) == map[] ==> (r.Err? <==> Overflows(ctx, last))
      ensures r.Ok? ==> r.value.stage3 == Classes(ctx, last + 1) && |r.value.stage1| == BlockCount(last)
      ensures old(Stale(last)) && |Classes(ctx, last + 1)| <= 0x10000 ==> r.Ok? && r.value.stage2 == []
    {
      ghost var all := Blocks(ctx, last, BlockCount(last));
      ghost var first := blockMap == map[];
      BlocksAreBlocks(ctx, last);
      r := Run(last, all, last % 256 + 1);
      if first && r.Ok? { AddressedRepresents(ctx, last, r.value, |all|, last % 256 + 1); }
    }
  }

  function ZeroBlock(): (r: seq<nat>)
    ensures |r| == 256 && forall i :: 0 <= i < 256 ==> r[i] == 0
  {
    seq<nat>(256, _ => 0)
  }

  /** `block.fill(0, n)`. */
  function ZeroFrom(block: seq<nat>, n: nat): (r: seq<nat>)
    requires n <= |block|
    ensures |r| == |block| && forall i :: 0 <= i < |r| ==> r[i] == if i < n then block[i] else 0
  {
    block[..n] + seq(|block| - n, _ => 0)
  }

  /** `all` are the padded blocks of the code points up to `last`. */
  ghost predicate AreBlocks<Elem>(c: Context<Elem>, last: nat, all: seq<seq<nat>>) {
    && (forall b :: 0 <= b < |all| ==> |all[b]| == 256)
    && (forall b, i :: 0 <= b < |all| && 0 <= i < 256 ==> EntryIs(c, last, all, b, i))
  }

  ghost predicate EntryIs<Elem>(c: Context<Elem>, last: nat, all: seq<seq<nat>>, b: nat, i: nat) {
    b < |all| && i < |all[b]| && all[b][i] == Entry(c, last, 256 * b + i)
  }

  lemma BlocksAreBlocks<Elem>(c: Context<Elem>, last: nat)
    ensures AreBlocks(c, last, Blocks(c, last, BlockCount(last)))
  {
    var all := Blocks(c, last, BlockCount(last));
    forall b, i | 0 <= b < |all| && 0 <= i < 256 ensures EntryIs(c, last, all, b, i) {
      BlocksAt(c, last, |all|, b);
      BlockAt(c, last, b, i);
    }
    forall b | 0 <= b < |all| ensures |all[b]| == 256 { BlocksAt(c, last, |all|, b); }
  }

  /** The tables and the current block after `cp` code points, before the last. */
  ghost predicate Filling<Elem>(c: Context<Elem>, all: seq<seq<nat>>, cp: nat, t: Tables<Elem>, block: seq<nat>,
                                blockLen: nat) {
    && t.stage3 == Classes(c, cp) && |t.stage3| <= 0x10000
    && blockLen < 256 && cp == 256 * |t.stage1| + blockLen
    && |t.stage1| < |all| && PartOf(block, all[|t.stage1|], blockLen)
  }

  /** All code points have been taken. */
  ghost predicate Filled<Elem>(c: Context<Elem>, last: nat, all: seq<seq<nat>>, t: Tables<Elem>) {
    |t.stage1| == |all| && t.stage3 == Classes(c, last + 1) && |t.stage3| <= 0x10000
  }

  lemma PlaceEntry<Elem>(c: Context<Elem>, last: nat, all: seq<seq<nat>>, b: nat, buf: seq<nat>, n: nat)
    requires AreBlocks(c, last, all) && b < |all|
    requires PartOf(buf, all[b], n) && n < 256 && 256 * b + n <= last
    ensures PartOf(buf[n := ClassOf(c, 256 * b + n)], all[b], n + 1)
  {
    assert EntryIs(c, last, all, b, n);
  }

  /** The buffer holds the first `n` entries of a block and zeros after them. */
  ghost predicate PartOf(buf: seq<nat>, block: seq<nat>, n: nat) {
    && n <= |buf| == |block| == 256
    && (forall i :: 0 <= i < n ==> buf[i] == block[i])
    && (forall i :: n <= i < 256 ==> buf[i] == 0)
  }

  /** A finished block needs no filling: the array was created zero-filled. */
  lemma WholeBlock<Elem>(c: Context<Elem>, last: nat, all: seq<seq<nat>>, b: nat, buf: seq<nat>, n: nat)
    requires AreBlocks(c, last, all) && b < |all|
    requires n == 256 || last + 1 == 256 * b + n
    requires PartOf(buf, all[b], n)
    ensures buf == all[b] && buf == ZeroFrom(buf, n)
  {
    forall i | 0 <= i < 256 ensures buf[i] == all[b][i] { assert EntryIs(c, last, all, b, i); }
  }

  /** The tables of a first run after |stage1| of the blocks. */
  ghost predicate Progress(all: seq<seq<nat>>, len: nat, stage1: seq<nat>, stage2: seq<nat>, m: BlockMap) {
    if |stage1| < |all| then Stored(all[..|stage1|], stage1, stage2, m)
    else Addressed(all, len, stage1, stage2) && |Distinct(all)| <= 0x100 && Knows(m, all)
  }

  /** Looking block `k` up and storing its first `len` entries if it is new. */
  ghost predicate Put(k: seq<nat>, len: nat, s1: seq<nat>, s2: seq<nat>, m: BlockMap,
                      ok: bool, s1': seq<nat>, s2': seq<nat>, m': BlockMap)
  {
    if k in m then
      && m' == m && s2' == s2 && ok == (m[k] <= 0xffff)
      && (ok ==> s1' == s1 + [m[k]])
    else
      && len <= |k| && m' == m[k := |s2|] && s2' == s2 + k[..len] && ok == (|s2| <= 0xffff)
      && (ok ==> s1' == s1 + [|s2|])
  }

  /** A first run makes progress; a run with everything known stores nothing. */
  ghost predicate Sound(all: seq<seq<nat>>, len: nat, first: bool, stale: bool, s1: seq<nat>, s2: seq<nat>,
                        m: BlockMap) {
    && (first ==> Progress(all, len, s1, s2, m))
    && (stale ==> s2 == [] && Knows(m, all))
  }

  lemma PutProgress(all: seq<seq<nat>>, len: nat, lastLen: nat, first: bool, stale: bool,
                    s1: seq<nat>, s2: seq<nat>, m: BlockMap,
                    ok: bool, s1': seq<nat>, s2': seq<nat>, m': BlockMap)
    requires |s1| < |all| && len == (if |s1| + 1 < |all| then 256 else lastLen) && len <= 256
    requires |all[|s1|]| == 256
    requires Put(all[|s1|], len, s1, s2, m, ok, s1', s2', m')
    requires Sound(all, lastLen, first, stale, s1, s2, m)
    ensures ok ==> Sound(all, lastLen, first, stale, s1', s2', m')
    ensures !ok ==> !stale && (first ==> |Distinct(all)| > 0x100)
  {
    if first { FinishBlock(all, len, lastLen, s1, s2, m); }
  }

  /** Finishing the next block of a first run. */
  lemma FinishBlock(all: seq<seq<nat>>, len: nat, lastLen: nat, stage1: seq<nat>, stage2: seq<nat>, m: BlockMap)
    requires |stage1| < |all| && len == (if |stage1| + 1 < |all| then 256 else lastLen) && len <= 256
    requires |all[|stage1|]| == 256
    requires Progress(all, lastLen, stage1, stage2, m)
    ensures var k := all[|stage1|];
            && (k in m ==> m[k] <= 0xffff && Progress(all, lastLen, stage1 + [m[k]], stage2, m))
            && (k !in m && |stage2| > 0xffff ==> |Distinct(all)| > 0x100)
            && (k !in m && |stage2| <= 0xffff ==>
                  Progress(all, lastLen, stage1 + [|stage2|], stage2 + k[..len], m[k := |stage2|]))
  {
    var k := all[|stage1|];
    if k in m {
      FinishKnown(all, lastLen, stage1, stage2, m);
    } else if |stage2| > 0xffff {
      TooManyBlocks(all, |stage1|);
    } else if |stage1| + 1 < |all| {
      assert k[..256] == k;
      FinishNew(all, lastLen, stage1, stage2, m);
    } else {
      FinishLast(all, lastLen, stage1, stage2, m);
    }
  }

  lemma FinishKnown(all: seq<seq<nat>>, len: nat, stage1: seq<nat>, stage2: seq<nat>, m: BlockMap)
    requires |stage1| < |all| && (|stage1| + 1 == |all| ==> len <= 256)
    requires Stored(all[..|stage1|], stage1, stage2, m)
    requires all[|stage1|] in m
    ensures Progress(all, len, stage1 + [m[all[|stage1|]]], stage2, m)
  {
    var n := |stage1|;
    var k, bs := all[n], all[..n];
    assert all[..n + 1] == bs + [k];
    StoreKnown(bs, stage1, stage2, m, k);
    if n + 1 == |all| {
      assert all == bs + [k];
      StoredIsAddressed(bs + [k], len, stage1 + [m[k]], stage2, m);
    }
  }

  lemma FinishNew(all: seq<seq<nat>>, len: nat, stage1: seq<nat>, stage2: seq<nat>, m: BlockMap)
    requires |stage1| + 1 < |all| && |all[|stage1|]| == 256
    requires Stored(all[..|stage1|], stage1, stage2, m)
    requires all[|stage1|] !in m && |stage2| <= 0xffff
    ensures var k := all[|stage1|]; Progress(all, len, stage1 + [|stage2|], stage2 + k, m[k := |stage2|])
  {
    var n := |stage1|;
    assert all[..n + 1] == all[..n] + [all[n]];
    StoreNew(all[..n], stage1, stage2, m, all[n]);
  }

  lemma FinishLast(all: seq<seq<nat>>, len: nat, stage1: seq<nat>, stage2: seq<nat>, m: BlockMap)
    requires |stage1| + 1 == |all| && len <= 256 && |all[|stage1|]| == 256
    requires Stored(all[..|stage1|], stage1, stage2, m)
    requires all[|stage1|] !in m && |stage2| <= 0xffff
    ensures var k := all[|stage1|]; Progress(all, len, stage1 + [|stage2|], stage2 + k[..len], m[k := |stage2|])
  {
    var n := |stage1|;
    var k, bs := all[n], all[..n];
    assert all == bs + [k];
    StoreLast(bs, len, stage1, stage2, m, k);
    KnowsNew(bs, stage1, stage2, m, k);
  }

  lemma KnowsNew(bs: seq<seq<nat>>, stage1: seq<nat>, stage2: seq<nat>, m: BlockMap, k: seq<nat>)
    requires Stored(bs, stage1, stage2, m) && k !in m && |stage2| <= 0xffff
    ensures |Distinct(bs + [k])| <= 0x100 && Knows(m[k := |stage2|], bs + [k])
  {
    DistinctStep(bs, k);
  }

  lemma TooManyBlocks(all: seq<seq<nat>>, n: nat)
    requires n < |all|
    requires |Distinct(all[..n])| >= 0x100 && all[n] !in Distinct(all[..n])
    ensures |Distinct(all)| > 0x100
  {
    DistinctStep(all[..n], all[n]);
    SubsetSize(Distinct(all[..n] + [all[n]]), Distinct(all));
  }
}
