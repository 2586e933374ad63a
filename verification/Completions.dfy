/** The package names of misctools/generate-add-completions.ts: sorting, grouping by first letter, the index of
    letters and the `get_packages` emitted for it. */
module Completions {
  import opened Wrappers
  import opened LittleEndian
  import opened CompletionTable

  // ---------------------------------------------------------------- sorting

  /** JavaScript's order of strings. */
  predicate LexLe(a: Name, b: Name) {
    a == [] || (b != [] && (a[0] < b[0] || (a[0] == b[0] && LexLe(a[1..], b[1..]))))
  }

  lemma {:induction false} LexTotal(a: Name, b: Name)
    ensures LexLe(a, b) || LexLe(b, a)
  {
    if a != [] && b != [] { LexTotal(a[1..], b[1..]); }
  }

  lemma {:induction false} LexTransitive(a: Name, b: Name, c: Name)
    requires LexLe(a, b) && LexLe(b, c)
    ensures LexLe(a, c)
  {
    if a != [] && a[0] == b[0] == c[0] { LexTransitive(a[1..], b[1..], c[1..]); }
  }

  /** A prefix comes first, and else the first byte that differs decides. */
  lemma LexMeaning(a: Name, b: Name)
    ensures LexLe(a, b) <==> a <= b || exists k: nat :: DiffersAt(a, b, k) && a[k] < b[k]
  {
    if LexLe(a, b) { var k := LexFirst(a, b); }
    if a <= b { LexAt(a, b, |a|); }
    if exists k: nat :: DiffersAt(a, b, k) && a[k] < b[k] {
      var k: nat :| DiffersAt(a, b, k) && a[k] < b[k];
      LexAt(a, b, k);
    }
  }

  ghost predicate DiffersAt(a: Name, b: Name, k: nat) {
    k < |a| && k < |b| && a[..k] == b[..k] && a[k] != b[k]
  }

  lemma {:induction false} LexFirst(a: Name, b: Name) returns (k: nat)
    requires LexLe(a, b)
    ensures a <= b || (DiffersAt(a, b, k) && a[k] < b[k])
  {
    k := 0;
    if a != [] && a[0] == b[0] {
      k := LexFirst(a[1..], b[1..]);
      k := k + 1;
      assert a == [a[0]] + a[1..] && b == [b[0]] + b[1..];
      if !(a <= b) { assert a[..k] == [a[0]] + a[1..][..k - 1] && b[..k] == [b[0]] + b[1..][..k - 1]; }
    }
  }

  lemma {:induction false} LexAt(a: Name, b: Name, k: nat)
    requires k <= |a| && k <= |b| && a[..k] == b[..k]
    requires k == |a| || (k < |b| && a[k] < b[k])
    ensures LexLe(a, b)
  {
    if k > 0 {
      assert a[0] == a[..k][0] && b[0] == b[..k][0];
      assert a[1..][..k - 1] == a[..k][1..] && b[1..][..k - 1] == b[..k][1..];
      LexAt(a[1..], b[1..], k - 1);
    }
  }

  lemma {:induction false} LexAntisymmetric(a: Name, b: Name)
    requires LexLe(a, b) && LexLe(b, a)
    ensures a == b
  {
    if a != [] {
      LexAntisymmetric(a[1..], b[1..]);
      assert a == [a[0]] + a[1..] && b == [b[0]] + b[1..];
    }
  }

  ghost predicate Sorted(ns: seq<Name>) {
    forall i, j :: 0 <= i < j < |ns| ==> LexLe(ns[i], ns[j])
  }

  function Insert(ns: seq<Name>, n: Name): seq<Name> {
    if ns == [] || LexLe(ns[|ns| - 1], n) then ns + [n]
    else Insert(ns[..|ns| - 1], n) + [ns[|ns| - 1]]
  }

  /** `.sort()`. */
  function Sort(ns: seq<Name>): seq<Name> {
    if ns == [] then [] else Insert(Sort(ns[..|ns| - 1]), ns[|ns| - 1])
  }

  lemma AppendSorts(ns: seq<Name>, n: Name)
    requires Sorted(ns) && forall i :: 0 <= i < |ns| ==> LexLe(ns[i], n)
    ensures Sorted(ns + [n]) && multiset(ns + [n]) == multiset(ns) + multiset{n}
  {
  }

  lemma {:induction false} InsertSorts(ns: seq<Name>, n: Name)
    requires Sorted(ns)
    ensures Sorted(Insert(ns, n)) && multiset(Insert(ns, n)) == multiset(ns) + multiset{n}
  {
    if ns == [] || LexLe(ns[|ns| - 1], n) {
      forall i | 0 <= i < |ns| ensures LexLe(ns[i], n) {
        if i < |ns| - 1 { LexTransitive(ns[i], ns[|ns| - 1], n); }
      }
      AppendSorts(ns, n);
    } else {
      var h, last := ns[..|ns| - 1], ns[|ns| - 1];
      InsertSorts(h, n);
      LexTotal(last, n);
      var s := Insert(h, n);
      InsertBound(ns, n, s);
      AppendSorts(s, last);
      assert ns == h + [last];
    }
  }

  /** Everything in `s`, the last name's predecessors and `n`, comes before the last name. */
  lemma InsertBound(ns: seq<Name>, n: Name, s: seq<Name>)
    requires Sorted(ns) && ns != [] && LexLe(n, ns[|ns| - 1])
    requires multiset(s) == multiset(ns[..|ns| - 1]) + multiset{n}
    ensures forall i :: 0 <= i < |s| ==> LexLe(s[i], ns[|ns| - 1])
  {
    var h := ns[..|ns| - 1];
    forall i | 0 <= i < |s| ensures LexLe(s[i], ns[|ns| - 1]) {
      assert s[i] in multiset(s);
      if s[i] != n {
        assert s[i] in multiset(h);
        var k :| 0 <= k < |h| && h[k] == s[i];
        assert LexLe(ns[k], ns[|ns| - 1]);
      }
    }
  }

  lemma {:induction false} SortSorts(ns: seq<Name>)
    ensures Sorted(Sort(ns)) && multiset(Sort(ns)) == multiset(ns)
  {
    if ns != [] {
      SortSorts(ns[..|ns| - 1]);
      InsertSorts(Sort(ns[..|ns| - 1]), ns[|ns| - 1]);
      assert ns == ns[..|ns| - 1] + [ns[|ns| - 1]];
    }
  }

  // ---------------------------------------------------------------- grouping

  /** `toLowerCase` of an ASCII character. */
  function Lower(c: Byte): Byte {
    if 65 <= c <= 90 then c + 32 else c
  }

  predicate InGroup(n: Name, letter: Byte) {
    n != [] && Lower(n[0]) == letter
  }

  function Filter(ns: seq<Name>, letter: Byte): seq<Name> {
    if ns == [] then []
    else
      var rest := Filter(ns[..|ns| - 1], letter);
      if InGroup(ns[|ns| - 1], letter) then rest + [ns[|ns| - 1]] else rest
  }

  function Count(ns: seq<Name>, letter: Byte): nat {
    |Filter(ns, letter)|
  }

  /** `list` has the names of `ns` at `from`, all those that begin with the character, in order. */
  ghost predicate Picked(ns: seq<Name>, c: Byte, from: seq<nat>, list: seq<Name>) {
    && |from| == |list| && (forall a, b :: 0 <= a < b < |from| ==> from[a] < from[b])
    && (forall k :: 0 <= k < |from| ==> from[k] < |ns| && list[k] == ns[from[k]])
    && (forall k: nat :: k < |ns| ==> (k in from <==> BeginsWith(ns[k], c)))
  }

  lemma PickedPush(h: seq<Name>, n: Name, c: Byte, from: seq<nat>, list: seq<Name>)
    requires Picked(h, c, from, list)
    ensures !BeginsWith(n, c) ==> Picked(h + [n], c, from, list)
    ensures BeginsWith(n, c) ==> Picked(h + [n], c, from + [|h|], list + [n])
  {
    var ns := h + [n];
    if BeginsWith(n, c) {
      forall k: nat | k < |ns| ensures k in from + [|h|] <==> BeginsWith(ns[k], c) {
        assert k in from + [|h|] <==> k in from || k == |h|;
      }
    }
  }

  /** A group's names are those that begin with its character, and for a letter also those that begin with the
      capital, in the order of the list; no group is that of a capital. */
  lemma {:induction false} FilterMeaning(ns: seq<Name>, c: Byte) returns (from: seq<nat>)
    ensures Picked(ns, c, from, Filter(ns, c))
  {
    if ns == [] {
      from := [];
    } else {
      var h, n := ns[..|ns| - 1], ns[|ns| - 1];
      from := FilterMeaning(h, c);
      PickedPush(h, n, c, from, Filter(h, c));
      assert h + [n] == ns;
      InGroupMeaning(n, c);
      if InGroup(n, c) { from := from + [|h|]; }
    }
  }

  ghost predicate BeginsWith(n: Name, c: Byte) {
    n != [] && ((n[0] == c && !(65 <= c <= 90)) || (97 <= c <= 122 && n[0] == c - 32))
  }

  lemma InGroupMeaning(n: Name, c: Byte)
    ensures InGroup(n, c) <==> BeginsWith(n, c)
  {
  }

  function Letter(i: nat): Byte
    requires i < 26
  {
    97 + i
  }

  ghost predicate GroupSizes(ns: seq<Name>, lengths: map<Byte, nat>) {
    forall l: Byte :: (l in lengths <==> Count(ns, l) > 0) && (l in lengths ==> lengths[l] == Count(ns, l))
  }

  /** The group sizes and the largest of them, which becomes `BIGGEST_LIST`. */
  method Group(packages: seq<Name>) returns (lengths: map<Byte, nat>, maxListSize: nat)
    ensures GroupSizes(packages, lengths)
    ensures forall l: Byte :: Count(packages, l) <= maxListSize
    ensures maxListSize > 0 ==> exists l: Byte :: Count(packages, l) == maxListSize
  {
    lengths, maxListSize := map[], 0;
    for k := 0 to |packages|
      invariant GroupSizes(packages[..k], lengths)
      invariant forall l: Byte :: Count(packages[..k], l) <= maxListSize
      invariant maxListSize > 0 ==> exists l: Byte :: Count(packages[..k], l) == maxListSize
    {
      var pkg := packages[k];
      assert packages[..k + 1][..k] == packages[..k];
      ghost var before := maxListSize;
      if |pkg| == 0 {
        assert forall l: Byte :: Count(packages[..k + 1], l) == Count(packages[..k], l);
        continue;
      }
      var firstLetter := Lower(pkg[0]);
      var size := (if firstLetter in lengths then lengths[firstLetter] else 0) + 1;
      lengths := lengths[firstLetter := size];
      maxListSize := if maxListSize < size then size else maxListSize;
      assert Count(packages[..k + 1], firstLetter) == size;
      assert forall l: Byte :: l != firstLetter ==> Count(packages[..k + 1], l) == Count(packages[..k], l);
      if maxListSize == before {
        var l: Byte :| Count(packages[..k], l) == before;
        assert l != firstLetter;
        assert Count(packages[..k + 1], l) == before;
      }
    }
    assert packages[..|packages|] == packages;
  }

  datatype Range = Range(offset: nat, length: nat)

  /** How many names belong to the first `i` letters. */
  function Offset(ns: seq<Name>, i: nat): nat
    requires i <= 26
  {
    if i == 0 then 0 else Offset(ns, i - 1) + Count(ns, Letter(i - 1))
  }

  method BuildIndex(ghost packages: seq<Name>, lengths: map<Byte, nat>) returns (index: seq<Range>)
    requires GroupSizes(packages, lengths)
    ensures |index| == 26 && IndexOk(packages, index)
  {
    index := [];
    var offset := 0;
    for i := 0 to 26
      invariant |index| == i && offset == Offset(packages, i)
      invariant IndexOk(packages, index)
    {
      var len := if Letter(i) in lengths then lengths[Letter(i)] else 0;
      IndexPush(packages, lengths, index, offset, len);
      index := index + [Range(offset, len)];
      offset := offset + len;
    }
  }

  lemma IndexPush(ns: seq<Name>, lengths: map<Byte, nat>, index: seq<Range>, offset: nat, len: nat)
    requires GroupSizes(ns, lengths) && IndexOk(ns, index) && |index| < 26
    requires offset == Offset(ns, |index|)
    requires len == if Letter(|index|) in lengths then lengths[Letter(|index|)] else 0
    ensures IndexOk(ns, index + [Range(offset, len)]) && Offset(ns, |index| + 1) == offset + len
  {
    assert len == Count(ns, Letter(|index|));
    assert EntryIs(ns, Range(offset, len), |index|);
  }

  /** Entry `i` says how many names come before letter `i`, and how many belong to it. */
  ghost predicate IndexOk(ns: seq<Name>, index: seq<Range>) {
    |index| <= 26 && forall k :: 0 <= k < |index| ==> EntryIs(ns, index[k], k)
  }

  ghost predicate EntryIs(ns: seq<Name>, r: Range, k: nat)
    requires k < 26
  {
    r.offset == Offset(ns, k) && r.length == Count(ns, Letter(k))
  }

  /** The emitted `get_packages` for an entry of the index; `None` would be a slice out of range. */
  function GetPackages(packages: seq<Name>, r: Range): Option<seq<Name>> {
    if r.length == 0 then Some([])
    else if r.offset + r.length <= |packages| then Some(packages[r.offset..r.offset + r.length])
    else None
  }

  // ---------------------------------------------------------------- the slices

  /** The place of a name's letter in the alphabet; names without one come last. */
  function Key(n: Name): nat {
    if n != [] && 97 <= Lower(n[0]) <= 122 then Lower(n[0]) - 97 else 26
  }

  lemma KeyMeaning(n: Name, i: nat)
    ensures i < 26 ==> (Key(n) == i <==> n != [] && (n[0] == 97 + i || n[0] == 65 + i))
    ensures Key(n) <= 26
    ensures Key(n) == 26 <==> n == [] || !(65 <= n[0] <= 90 || 97 <= n[0] <= 122)
  {
  }

  /** The names of each letter stand together, letter after letter, before all other names. */
  ghost predicate Ordered(ns: seq<Name>) {
    forall i, j :: 0 <= i < j < |ns| ==> Key(ns[i]) <= Key(ns[j])
  }

  ghost predicate LowerCase(ns: seq<Name>) {
    forall i :: 0 <= i < |ns| ==> ns[i] != [] && 97 <= ns[i][0] <= 122
  }

  lemma SameInitials(lines: seq<Name>, ns: seq<Name>)
    requires LowerCase(lines) && multiset(ns) == multiset(lines)
    ensures LowerCase(ns)
  {
    forall i | 0 <= i < |ns| ensures ns[i] != [] && 97 <= ns[i][0] <= 122 {
      assert ns[i] in multiset(ns);
      assert ns[i] in multiset(lines);
      var k :| 0 <= k < |lines| && lines[k] == ns[i];
    }
  }

  lemma SortedInitials(ns: seq<Name>)
    requires LowerCase(ns) && Sorted(ns)
    ensures Ordered(ns)
  {
    forall i, j | 0 <= i < j < |ns| ensures Key(ns[i]) <= Key(ns[j]) {
      assert LexLe(ns[i], ns[j]);
    }
  }

  /** Names with lower-case initials are in that order once sorted. */
  lemma LowerCaseOrdered(lines: seq<Name>)
    requires LowerCase(lines)
    ensures Ordered(Sort(lines))
  {
    SortSorts(lines);
    SameInitials(lines, Sort(lines));
    SortedInitials(Sort(lines));
  }

  /** A scoped name, as `@x`, sorts before all letters and breaks that order. */
  lemma ScopedNotOrdered()
    ensures Sorted([[64, 120], [120]]) && !Ordered([[64, 120], [120]])
  {
    var ns: seq<Name> := [[64, 120], [120]];
    assert Key(ns[0]) == 26 && Key(ns[1]) == 23;
  }

  function Below(ns: seq<Name>, i: nat): (c: nat)
    ensures c <= |ns|
  {
    if ns == [] then 0
    else Below(ns[..|ns| - 1], i) + if Key(ns[|ns| - 1]) < i then 1 else 0
  }

  ghost predicate LiesAt(ns: seq<Name>, b: nat, part: seq<Name>) {
    b + |part| <= |ns| && ns[b..b + |part|] == part
  }

  lemma LiesAtPush(h: seq<Name>, last: Name, b: nat, part: seq<Name>)
    requires LiesAt(h, b, part)
    ensures LiesAt(h + [last], b, part)
    ensures b + |part| == |h| ==> LiesAt(h + [last], b, part + [last])
  {
    var ns := h + [last];
    assert ns[b..b + |part|] == h[b..b + |part|];
    if b + |part| == |h| { assert ns[b..b + |part| + 1] == h[b..b + |part|] + [last]; }
  }

  /** In an ordered list the names of a letter are consecutive, after all names of earlier letters. */
  ghost predicate Slice(ns: seq<Name>, i: nat)
    requires i < 26
  {
    var f := Filter(ns, Letter(i));
    && LiesAt(ns, Below(ns, i), f)
    && (Below(ns, i) + |f| == |ns| || Key(ns[|ns| - 1]) > i)
  }

  lemma CountsPush(h: seq<Name>, last: Name, i: nat)
    requires i < 26
    ensures Below(h + [last], i) == Below(h, i) + if Key(last) < i then 1 else 0
    ensures Filter(h + [last], Letter(i)) == Filter(h, Letter(i)) + if Key(last) == i then [last] else []
  {
    assert (h + [last])[..|h|] == h;
  }

  lemma {:induction false} SliceIsFilter(ns: seq<Name>, i: nat)
    requires Ordered(ns) && i < 26
    ensures Slice(ns, i)
  {
    if ns != [] {
      var h, last := ns[..|ns| - 1], ns[|ns| - 1];
      assert h == [] || Key(ns[|h| - 1]) <= Key(ns[|h|]);
      if Key(last) < i {
        AllBelow(ns, i);
      } else {
        SliceIsFilter(h, i);
        SlicePush(h, last, i);
        assert ns == h + [last];
      }
    }
  }

  lemma SlicePush(h: seq<Name>, last: Name, i: nat)
    requires i < 26 && Slice(h, i) && i <= Key(last) && (h == [] || Key(h[|h| - 1]) <= Key(last))
    ensures Slice(h + [last], i)
  {
    CountsPush(h, last, i);
    LiesAtPush(h, last, Below(h, i), Filter(h, Letter(i)));
  }

  lemma {:induction false} AllBelow(ns: seq<Name>, i: nat)
    requires i < 26 && Ordered(ns) && (ns != [] ==> Key(ns[|ns| - 1]) < i)
    ensures Below(ns, i) == |ns| && Filter(ns, Letter(i)) == []
  {
    if ns != [] {
      var h := ns[..|ns| - 1];
      if h != [] { assert Key(ns[|h| - 1]) <= Key(ns[|ns| - 1]); }
      AllBelow(h, i);
    }
  }

  lemma {:induction false} BelowStep(ns: seq<Name>, i: nat)
    requires i < 26
    ensures Below(ns, i + 1) == Below(ns, i) + Count(ns, Letter(i))
  {
    if ns != [] { BelowStep(ns[..|ns| - 1], i); }
  }

  lemma {:induction false} BelowNone(ns: seq<Name>)
    ensures Below(ns, 0) == 0
  {
    if ns != [] { BelowNone(ns[..|ns| - 1]); }
  }

  /** The index counts the names of earlier letters. */
  lemma {:induction false} OffsetIsBelow(ns: seq<Name>, i: nat)
    requires i <= 26
    ensures Below(ns, i) == Offset(ns, i)
  {
    if i == 0 {
      BelowNone(ns);
    } else {
      OffsetIsBelow(ns, i - 1);
      BelowStep(ns, i - 1);
    }
  }

  /** `list` is what lies between the offsets of letter `i` and of the next. */
  ghost predicate SlicedAt(ns: seq<Name>, i: nat, list: Option<seq<Name>>) {
    && i < 26 && Offset(ns, i) <= Offset(ns, i + 1) <= |ns|
    && list == Some(ns[Offset(ns, i)..Offset(ns, i + 1)])
  }

  /** Whatever the names and their order, every slice is in range. */
  lemma SliceInRange(ns: seq<Name>, index: seq<Range>, i: nat)
    requires |index| == 26 && IndexOk(ns, index) && i < 26
    ensures SlicedAt(ns, i, GetPackages(ns, index[i]))
  {
    assert EntryIs(ns, index[i], i);
    OffsetIsBelow(ns, i + 1);
    assert Offset(ns, i + 1) == index[i].offset + index[i].length <= |ns|;
    if index[i].length == 0 { assert ns[index[i].offset..index[i].offset] == []; }
  }

  /** Every letter's slice holds exactly the names of that letter. */
  ghost predicate SlicesOk(ns: seq<Name>, index: seq<Range>)
    requires |index| == 26
  {
    forall i :: 0 <= i < 26 ==> SliceOk(ns, index[i], Letter(i))
  }

  ghost predicate SliceOk(ns: seq<Name>, r: Range, letter: Byte) {
    GetPackages(ns, r) == Some(Filter(ns, letter))
  }

  /** Each letter's slice holds exactly the names of that letter if and only if the list is so ordered. */
  lemma SlicesIff(ns: seq<Name>, index: seq<Range>)
    requires |index| == 26 && IndexOk(ns, index)
    ensures SlicesOk(ns, index) <==> Ordered(ns)
  {
    if Ordered(ns) {
      forall i | 0 <= i < 26 ensures SliceOk(ns, index[i], Letter(i)) {
        assert EntryIs(ns, index[i], i);
        OffsetIsBelow(ns, i);
        SliceIsFilter(ns, i);
      }
    }
    if SlicesOk(ns, index) {
      SlicesOrder(ns, index);
    }
  }

  /** The names in a right slice have its letter. */
  lemma SliceKeys(ns: seq<Name>, r: Range, i: nat, k: nat)
    requires i < 26 && EntryIs(ns, r, i) && SliceOk(ns, r, Letter(i)) && Offset(ns, i) <= k < Offset(ns, i + 1)
    ensures k < |ns| && Key(ns[k]) == i
  {
    FilterMembers(ns, Letter(i));
    assert r.length > 0;
    var f := Filter(ns, Letter(i));
    assert f == ns[r.offset..r.offset + r.length];
    assert f[k - r.offset] == ns[k];
    assert InGroup(f[k - r.offset], Letter(i));
  }

  /** The places that the index gives to letter `i` hold names of that letter. */
  ghost predicate Keyed(ns: seq<Name>, i: nat) {
    i < 26 && forall k: nat :: Offset(ns, i) <= k < Offset(ns, i + 1) ==> KeyAt(ns, k, i)
  }

  ghost predicate KeyAt(ns: seq<Name>, k: nat, i: nat) {
    k < |ns| && Key(ns[k]) == i
  }

  lemma {:induction false} Located(ns: seq<Name>, i: nat, k: nat) returns (a: nat)
    requires i <= 26 && (forall b: nat :: b < 26 ==> Keyed(ns, b)) && k < Offset(ns, i)
    ensures a < i && KeyAt(ns, k, a) && Offset(ns, a) <= k < Offset(ns, a + 1)
  {
    if k < Offset(ns, i - 1) {
      a := Located(ns, i - 1, k);
    } else {
      a := i - 1;
      assert Keyed(ns, a);
    }
  }

  lemma {:induction false} OffsetGrows(ns: seq<Name>, i: nat, j: nat)
    requires i <= j <= 26
    ensures Offset(ns, i) <= Offset(ns, j)
  {
    if i < j { OffsetGrows(ns, i, j - 1); }
  }

  lemma SlicesOrder(ns: seq<Name>, index: seq<Range>)
    requires |index| == 26 && IndexOk(ns, index) && SlicesOk(ns, index)
    ensures Ordered(ns)
  {
    forall i: nat | i < 26 ensures Keyed(ns, i) {
      assert EntryIs(ns, index[i], i) && SliceOk(ns, index[i], Letter(i));
      forall k: nat | Offset(ns, i) <= k < Offset(ns, i + 1) ensures KeyAt(ns, k, i) {
        SliceKeys(ns, index[i], i, k);
      }
    }
    KeysOrder(ns);
  }

  lemma KeysOrder(ns: seq<Name>)
    requires forall i: nat :: i < 26 ==> Keyed(ns, i)
    ensures Ordered(ns)
  {
    var letters := Offset(ns, 26);
    OffsetIsBelow(ns, 26);
    forall k | 0 <= k < letters ensures Key(ns[k]) < 26 { var _ := Located(ns, 26, k); }
    forall i, j | 0 <= i < j < |ns| ensures Key(ns[i]) <= Key(ns[j]) {
      if j >= letters {
        LettersFirst(ns, letters, j);
      } else {
        var a := Located(ns, 26, i);
        var b := Located(ns, 26, j);
        if a > b { OffsetGrows(ns, b + 1, a); }
      }
    }
  }

  /** If the first `n` names have letters and there are `n` in all, no later name has one. */
  lemma LettersFirst(ns: seq<Name>, n: nat, j: nat)
    requires n <= j < |ns| && Below(ns, 26) == n && forall k :: 0 <= k < n ==> Key(ns[k]) < 26
    ensures Key(ns[j]) == 26
  {
    BelowPrefix(ns, n);
    BelowMore(ns, n, j);
  }

  lemma {:induction false} BelowPrefix(ns: seq<Name>, n: nat)
    requires n <= |ns| && forall k :: 0 <= k < n ==> Key(ns[k]) < 26
    ensures Below(ns[..n], 26) == n
  {
    if n > 0 {
      BelowPrefix(ns, n - 1);
      assert ns[..n][..n - 1] == ns[..n - 1];
    }
  }

  lemma {:induction false} BelowMore(ns: seq<Name>, n: nat, j: nat)
    requires n <= j < |ns|
    ensures Below(ns[..n], 26) <= Below(ns, 26) && (Key(ns[j]) < 26 ==> Below(ns[..n], 26) < Below(ns, 26))
  {
    var h := ns[..|ns| - 1];
    if n < |h| {
      assert h[..n] == ns[..n];
      BelowMore(h, n, if j < |h| then j else n);
    } else {
      assert ns[..n] == h;
    }
  }

  lemma {:induction false} FilterMembers(ns: seq<Name>, letter: Byte)
    ensures forall k :: 0 <= k < |Filter(ns, letter)| ==> InGroup(Filter(ns, letter)[k], letter)
  {
    if ns != [] { FilterMembers(ns[..|ns| - 1], letter); }
  }

  // ---------------------------------------------------------------- the whole

  /** The list shown for each letter is that of the names with that letter. */
  ghost predicate Shows(ns: seq<Name>, lists: seq<Option<seq<Name>>>) {
    |lists| == 26 && forall i :: 0 <= i < 26 ==> lists[i] == Some(Filter(ns, Letter(i)))
  }

  method ReadLists(packages: seq<Name>, index: seq<Range>) returns (lists: seq<Option<seq<Name>>>)
    requires |index| == 26
    ensures Shows(packages, lists) <==> SlicesOk(packages, index)
    ensures |lists| == 26 && forall i :: 0 <= i < 26 ==> lists[i] == GetPackages(packages, index[i])
  {
    lists := [];
    for i := 0 to 26
      invariant |lists| == i && forall k :: 0 <= k < i ==> lists[k] == GetPackages(packages, index[k])
    {
      lists := lists + [GetPackages(packages, index[i])];
    }
    ghost var all := lists;
    if SlicesOk(packages, index) {
      forall i | 0 <= i < 26 ensures all[i] == Some(Filter(packages, Letter(i))) {
        assert SliceOk(packages, index[i], Letter(i));
      }
    } else {
      var i :| 0 <= i < 26 && !SliceOk(packages, index[i], Letter(i));
      assert all[i] != Some(Filter(packages, Letter(i)));
    }
  }

  lemma SortEncodable(lines: seq<Name>)
    ensures Encodable(Sort(lines)) <==>
              |lines| < 0x1_0000_0000 && forall i :: 0 <= i < |lines| ==> |lines[i]| < 0x1_0000
  {
    var ns := Sort(lines);
    SortSorts(lines);
    assert |multiset(ns)| == |multiset(lines)|;
    assert |ns| == |lines|;
    forall i | 0 <= i < |ns| ensures ns[i] in lines { assert ns[i] in multiset(ns); }
    forall i | 0 <= i < |lines| ensures lines[i] in ns { assert lines[i] in multiset(lines); }
  }

  /** From the list of names to the lists that the completions show: each list holds just the names of its
      letter if and only if the sorted names with a letter come first, letter by letter. */
  method GenerateAndRead(lines: seq<Name>) returns (r: Option<seq<Option<seq<Name>>>>, biggest: nat)
    ensures r.Some? <==> |lines| < 0x1_0000_0000 && forall i :: 0 <= i < |lines| ==> |lines[i]| < 0x1_0000
    ensures r.Some? ==> (Shows(Sort(lines), r.value) <==> Ordered(Sort(lines)))
    ensures r.Some? ==> |r.value| == 26 && forall i :: 0 <= i < 26 ==> SlicedAt(Sort(lines), i, r.value[i])
    ensures forall l: Byte :: Count(Sort(lines), l) <= biggest
    ensures biggest > 0 ==> exists l: Byte :: Count(Sort(lines), l) == biggest
  {
    var packages := Sort(lines);
    SortEncodable(lines);
    var lengths;
    lengths, biggest := Group(packages);
    var table, _, _ := RoundTrip(packages);
    if table.None? { return None, biggest; }
    var index := BuildIndex(packages, lengths);
    var lists := ReadLists(table.value, index);
    SlicesIff(packages, index);
    forall i | 0 <= i < 26 ensures SlicedAt(packages, i, lists[i]) { SliceInRange(packages, index, i); }
    return Some(lists), biggest;
  }
}
