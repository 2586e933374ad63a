/** The package-name table of misctools/generate-add-completions.ts: the length-prefixed encoding and the
    `build_table` emitted for it. Names are ASCII, so a character is a byte. */
module CompletionTable {
  import opened Wrappers
  import opened LittleEndian

  type Name = seq<Byte>

  // ---------------------------------------------------------------- the table

  /** One name with its length in two bytes. */
  function Record(n: Name): seq<Byte>
    requires |n| < 0x10000
  {
    Le16(|n|) + n
  }

  ghost predicate Short(ns: seq<Name>) {
    forall i :: 0 <= i < |ns| ==> |ns[i]| < 0x10000
  }

  ghost function Records(ns: seq<Name>): seq<Byte>
    requires Short(ns)
  {
    if ns == [] then [] else Records(ns[..|ns| - 1]) + Record(ns[|ns| - 1])
  }

  ghost predicate Encodable(ns: seq<Name>) {
    |ns| < 0x100000000 && Short(ns)
  }

  ghost function Table(ns: seq<Name>): seq<Byte>
    requires Encodable(ns)
  {
    Le32(|ns|) + Records(ns)
  }

  /** The layout: the number of names in four bytes, and record `k` after those of the names before it, its length in
      two bytes, low byte first, and then its characters. */
  lemma TableLayout(ns: seq<Name>, k: nat)
    requires Encodable(ns) && k < |ns|
    ensures Short(ns[..k]) && Short(ns[..k + 1])
    ensures |Records(ns[..k + 1])| == |Records(ns[..k])| + 2 + |ns[k]| && Records([]) == []
    ensures var t, p := Table(ns), 4 + |Records(ns[..k])|;
            && |t| == 4 + |Records(ns)| && p + 2 + |ns[k]| <= |t|
            && t[0] as int + 256 * (t[1] as int) + 65536 * (t[2] as int) + 16777216 * (t[3] as int) == |ns|
            && t[p] as int + 256 * (t[p + 1] as int) == |ns[k]| && t[p + 2..p + 2 + |ns[k]|] == ns[k]
  {
    var t, p := Table(ns), 4 + |Records(ns[..k])|;
    assert ns[..k + 1][..k] == ns[..k];
    assert Holds(t, ns) by { assert t[0..|t|] == t; }
    HeadRead(t, ns);
    Weights(t, 0, 0);
    RecordAt(t, 4, ns, k);
    RecordRead(t, p, ns[k]);
    Weights(t, p, 0);
  }

  /** The uncompressed table and its recorded size; `None` when a number does not fit its field. */
  method Encode(packages: seq<Name>) returns (r: Option<(seq<Byte>, nat)>)
    ensures r.Some? <==> Encodable(packages)
    ensures r.Some? ==> r.value.0 == Table(packages) && r.value.1 == |r.value.0|
  {
    if |packages| >= 0x100000000 { return None; }
    var data := Le32(|packages|);
    var totalUncompressed := 4;
    for k := 0 to |packages|
      invariant Short(packages[..k]) && data == Le32(|packages|) + Records(packages[..k])
      invariant totalUncompressed == |data|
    {
      var pkg := packages[k];
      if |pkg| >= 0x10000 { return None; }
      ghost var next := packages[..k + 1];
      assert next[..k] == packages[..k];
      assert Records(next) == Records(packages[..k]) + Record(pkg);
      data := data + Le16(|pkg|) + pkg;
      totalUncompressed := totalUncompressed + 2 + |pkg|;
    }
    assert packages[..|packages|] == packages;
    return Some((data, totalUncompressed));
  }

  /** `data` begins with the table of `ns`. */
  ghost predicate Holds(data: seq<Byte>, ns: seq<Name>) {
    Encodable(ns) && HasAt(data, 0, Table(ns))
  }

  lemma {:induction false} RecordAt(data: seq<Byte>, p: nat, ns: seq<Name>, k: nat)
    requires Short(ns) && HasAt(data, p, Records(ns)) && k < |ns|
    ensures Short(ns[..k]) && HasAt(data, p + |Records(ns[..k])|, Record(ns[k]))
  {
    var h := ns[..|ns| - 1];
    HasAtSplit(data, p, Records(h), Record(ns[|ns| - 1]));
    if k < |h| {
      RecordAt(data, p, h, k);
      assert h[..k] == ns[..k];
    }
  }

  lemma RecordRead(data: seq<Byte>, p: nat, n: Name)
    requires |n| < 0x10000 && HasAt(data, p, Record(n))
    ensures p + 2 + |n| <= |data| && U16(data, p) == |n| && data[p + 2..p + 2 + |n|] == n
  {
    HasAtSplit(data, p, Le16(|n|), n);
    ReadInside(data, p, Le16(|n|), 0);
    Le16RoundTrip(|n|);
  }

  /** What is read at `p` is a record there. */
  lemma ReadRecord(data: seq<Byte>, p: nat, n: Name)
    requires p + 2 + |n| <= |data| && U16(data, p) == |n| && data[p + 2..p + 2 + |n|] == n
    ensures HasAt(data, p, Record(n))
  {
    assert data[p] == |n| % 256 && data[p + 1] == |n| / 256;
    assert data[p..p + 2] == Le16(|n|);
    HasAtJoin(data, p, Le16(|n|), n);
  }

  lemma HeadRead(data: seq<Byte>, ns: seq<Name>)
    requires Holds(data, ns)
    ensures 4 <= |data| && U32(data, 0) == |ns| && HasAt(data, 4, Records(ns))
  {
    HasAtSplit(data, 0, Le32(|ns|), Records(ns));
    ReadInside(data, 0, Le32(|ns|), 0);
    Le32RoundTrip(|ns|);
  }

  lemma ReadHead(data: seq<Byte>, ns: seq<Name>)
    requires 4 <= |data| && U32(data, 0) == |ns| && Encodable(ns) && HasAt(data, 4, Records(ns))
    ensures Holds(data, ns)
  {
    Le32Read(data, |ns|);
    HasAtJoin(data, 0, Le32(|ns|), Records(ns));
  }

  /** Whatever table `data` holds, it has `total` names and begins with `read`. */
  ghost predicate Agrees(data: seq<Byte>, total: nat, read: seq<Name>) {
    forall ns | Holds(data, ns) :: Begins(ns, total, read)
  }

  ghost predicate Begins(ns: seq<Name>, total: nat, read: seq<Name>) {
    |read| <= |ns| == total && ns[..|read|] == read
  }

  lemma NextAgrees(data: seq<Byte>, total: nat, read: seq<Name>, ns: seq<Name>, p: nat)
    requires Holds(data, ns) && Begins(ns, total, read) && |read| < total
    requires Short(read) && p == 4 + |Records(read)|
    ensures p + 2 <= |data| && p + 2 + U16(data, p) <= |data|
    ensures Begins(ns, total, read + [data[p + 2..p + 2 + U16(data, p)]])
  {
    HeadRead(data, ns);
    RecordAt(data, 4, ns, |read|);
    RecordRead(data, p, ns[|read|]);
    assert ns[..|read| + 1] == read + [ns[|read|]];
  }

  lemma RecordsPush(data: seq<Byte>, read: seq<Name>, n: Name, p: nat)
    requires Short(read) && HasAt(data, 4, Records(read)) && p == 4 + |Records(read)|
    requires |n| < 0x10000 && HasAt(data, p, Record(n))
    ensures Short(read + [n]) && HasAt(data, 4, Records(read + [n])) && p + 2 + |n| == 4 + |Records(read + [n])|
  {
    assert (read + [n])[..|read|] == read;
    HasAtJoin(data, 4, Records(read), Record(n));
  }

  /** The names `read` so far lie before `p`, and any table that `data` holds begins with them. */
  ghost predicate ReadTo(data: seq<Byte>, total: nat, read: seq<Name>, p: nat) {
    && |read| <= total && Short(read) && HasAt(data, 4, Records(read)) && p == 4 + |Records(read)|
    && Agrees(data, total, read)
  }

  predicate RecordFits(data: seq<Byte>, p: nat) {
    p + 2 <= |data| && p + 2 + U16(data, p) <= |data|
  }

  /** If there is a table, the next record fits. */
  lemma RecordThere(data: seq<Byte>, total: nat, read: seq<Name>, p: nat)
    requires ReadTo(data, total, read, p) && |read| < total
    ensures forall ns :: Holds(data, ns) ==> RecordFits(data, p)
  {
    forall ns | Holds(data, ns) ensures RecordFits(data, p) {
      assert Begins(ns, total, read);
      NextAgrees(data, total, read, ns, p);
    }
  }

  /** If it fits, it is the next name. */
  lemma OneRecord(data: seq<Byte>, total: nat, read: seq<Name>, p: nat)
    requires ReadTo(data, total, read, p) && |read| < total && RecordFits(data, p)
    ensures ReadTo(data, total, read + [data[p + 2..p + 2 + U16(data, p)]], p + 2 + U16(data, p))
  {
    var n := data[p + 2..p + 2 + U16(data, p)];
    ReadRecord(data, p, n);
    RecordsPush(data, read, n, p);
    forall ns | Holds(data, ns) ensures Begins(ns, total, read + [n]) {
      assert Begins(ns, total, read);
      NextAgrees(data, total, read, ns, p);
    }
  }

  lemma ReadStart(data: seq<Byte>)
    requires 4 <= |data|
    ensures ReadTo(data, U32(data, 0), [], 4)
  {
    forall ns | Holds(data, ns) ensures Begins(ns, U32(data, 0), []) { HeadRead(data, ns); }
  }

  lemma ReadAll(data: seq<Byte>, total: nat, read: seq<Name>, p: nat)
    requires 4 <= |data| && total == U32(data, 0) && ReadTo(data, total, read, p) && |read| == total
    ensures forall ns :: Holds(data, ns) <==> ns == read
    ensures Encodable(read) && p == |Table(read)|
  {
    Le32Read(data, total);
    ReadHead(data, read);
    forall ns | Holds(data, ns) ensures ns == read { assert Begins(ns, total, read); }
  }

  lemma HeadThere(data: seq<Byte>)
    ensures forall ns :: Holds(data, ns) ==> 4 <= |data|
  {
    forall ns | Holds(data, ns) ensures 4 <= |data| { HeadRead(data, ns); }
  }

  /** The emitted `build_table`, with the position it stops at; `None` would be an index out of range. It
      finds the names of a table exactly when the bytes begin with that table. */
  method BuildTable(data: seq<Byte>) returns (r: Option<seq<Name>>, pos: nat)
    ensures forall ns :: Holds(data, ns) <==> r == Some(ns)
    ensures r.Some? ==> Encodable(r.value) && pos == |Table(r.value)|
  {
    pos := 4;
    HeadThere(data);
    if |data| < 4 { return None, pos; }
    var total := U32(data, 0);
    var packages: seq<Name> := [];
    ReadStart(data);
    while |packages| < total
      invariant ReadTo(data, total, packages, pos)
    {
      RecordThere(data, total, packages, pos);
      if pos + 2 > |data| || pos + 2 + U16(data, pos) > |data| { return None, pos; }
      OneRecord(data, total, packages, pos);
      var len := U16(data, pos);
      pos := pos + 2;
      packages := packages + [data[pos..pos + len]];
      pos := pos + len;
    }
    ReadAll(data, total, packages, pos);
    return Some(packages), pos;
  }

  /** What the encoder writes, the emitted decoder reads, to the recorded size exactly. */
  method RoundTrip(packages: seq<Name>) returns (r: Option<seq<Name>>, uncompressedSize: nat, end: nat)
    ensures r.Some? <==> |packages| < 0x1_0000_0000 && forall i :: 0 <= i < |packages| ==> |packages[i]| < 0x1_0000
    ensures r.Some? ==> r.value == packages
    ensures r.Some? ==> end == uncompressedSize == |Table(packages)|
  {
    var encoded := Encode(packages);
    if encoded.None? { return None, 0, 0; }
    var data := encoded.value.0;
    uncompressedSize := encoded.value.1;
    assert HasAt(data, 0, Table(packages));
    assert Holds(data, packages);
    r, end := BuildTable(data);
  }
}
