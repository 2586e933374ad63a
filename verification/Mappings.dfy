/** Mappings strings: a reader by the mappings grammar of ECMA-426, and `buildDense` of
    bench/sourcemap/append-vlq-bench.ts, whose text it reads back. */
module Mappings {
  import opened Wrappers
  import opened Vlq

  datatype Original = Original(source: nat, line: nat, col: nat, name: Option<nat>)
  datatype Mapping = Mapping(genLine: nat, genCol: nat, original: Option<Original>)

  /** The values that the next segment's fields are relative to. */
  datatype Previous = Previous(genCol: nat, source: nat, line: nat, col: nat, name: nat)

  // ---------------------------------------------------------------- the reader

  predicate Ends(s: string) {
    s == "" || s[0] == ',' || s[0] == ';'
  }

  /** The numbers of the segment at the head of `s`. */
  function ReadFields(s: string): (r: Option<(seq<int>, string)>)
    ensures r.Some? ==> |r.value.1| <= |s| && (!Ends(s) ==> |r.value.1| < |s|)
    decreases |s|
  {
    if Ends(s) then Some(([], s))
    else match ReadVlq(s)
      case None => None
      case Some((v, rest)) => match ReadFields(rest)
        case None => None
        case Some((fields, tail)) => Some(([v] + fields, tail))
  }

  /** A segment has one, four or five fields, and leads to no negative number. */
  function Segment(fields: seq<int>, prev: Previous): Option<(Previous, Option<Original>)> {
    if |fields| !in {1, 4, 5} || prev.genCol + fields[0] < 0 then None
    else if |fields| == 1 then Some((prev.(genCol := prev.genCol + fields[0]), None))
    else if prev.source + fields[1] < 0 || prev.line + fields[2] < 0 || prev.col + fields[3] < 0 then None
    else if |fields| == 5 && prev.name + fields[4] < 0 then None
    else
      var name := if |fields| == 5 then prev.name + fields[4] else prev.name;
      var p := Previous(prev.genCol + fields[0], prev.source + fields[1], prev.line + fields[2], prev.col + fields[3],
        name);
      Some((p, Some(Original(p.source, p.line, p.col, if |fields| == 5 then Some(name) else None))))
  }

  function Decode(s: string, line: nat, prev: Previous): Option<seq<Mapping>>
    decreases |s|
  {
    if s == "" then Some([])
    else if s[0] == ';' then Decode(s[1..], line + 1, prev.(genCol := 0))
    else if s[0] == ',' then Decode(s[1..], line, prev)
    else match ReadFields(s)
      case None => None
      case Some((fields, rest)) => match Segment(fields, prev)
        case None => None
        case Some((p, original)) => match Decode(rest, line, p)
          case None => None
          case Some(ms) => Some([Mapping(line, p.genCol, original)] + ms)
  }

  const START := Previous(0, 0, 0, 0, 0)

  // ---------------------------------------------------------------- delta coding

  datatype Entry = Entry(genCol: nat, source: nat, line: nat, col: nat)

  function Number(v: int): string {
    Digits(Unsigned(v))
  }

  /** The four fields of an entry, and the text after them. */
  function Fields(e: Entry, prev: Entry, rest: string): string {
    Number(e.genCol - prev.genCol) + (Number(e.source - prev.source)
      + (Number(e.line - prev.line) + (Number(e.col - prev.col) + rest)))
  }

  /** The text of the lines `rows` from entry `k` of line `l` on. */
  function Text(rows: seq<seq<Entry>>, l: nat, k: nat, prev: Entry): string
    requires l < |rows| ==> k <= |rows[l]|
    decreases |rows| - l, if l < |rows| then |rows[l]| - k else 0
  {
    if l >= |rows| then ""
    else if k == |rows[l]| then ";" + Text(rows, l + 1, 0, prev.(genCol := 0))
    else
      var segment := Fields(rows[l][k], prev, Text(rows, l, k + 1, rows[l][k]));
      if k > 0 then "," + segment else segment
  }

  function Meaning(rows: seq<seq<Entry>>, l: nat, k: nat): seq<Mapping>
    requires l < |rows| ==> k <= |rows[l]|
    decreases |rows| - l, if l < |rows| then |rows[l]| - k else 0
  {
    if l >= |rows| then []
    else if k == |rows[l]| then Meaning(rows, l + 1, 0)
    else [Absolute(l, rows[l][k])] + Meaning(rows, l, k + 1)
  }

  function Absolute(l: nat, e: Entry): Mapping {
    Mapping(l, e.genCol, Some(Original(e.source, e.line, e.col, None)))
  }

  predicate Small(e: Entry) {
    e.genCol < 0x80000000 && e.source < 0x80000000 && e.line < 0x80000000 && e.col < 0x80000000
  }

  ghost predicate AllSmall(rows: seq<seq<Entry>>) {
    forall l, k :: 0 <= l < |rows| && 0 <= k < |rows[l]| ==> Small(rows[l][k])
  }

  function Carried(e: Entry): Previous {
    Previous(e.genCol, e.source, e.line, e.col, 0)
  }

  lemma FieldRead(v: int, s: string, fields: seq<int>, tail: string)
    requires Fits(v) && ReadFields(s) == Some((fields, tail))
    ensures ReadFields(Number(v) + s) == Some(([v] + fields, tail))
    ensures !Ends(Number(v) + s)
  {
    NumberRead(v, s);
  }

  lemma SegmentRead(e: Entry, prev: Entry, rest: string)
    requires Small(e) && Small(prev) && Ends(rest)
    ensures !Ends(Fields(e, prev, rest))
    ensures ReadFields(Fields(e, prev, rest))
         == Some(([e.genCol - prev.genCol, e.source - prev.source, e.line - prev.line, e.col - prev.col], rest))
  {
    var a, b, c, d := e.genCol - prev.genCol, e.source - prev.source, e.line - prev.line, e.col - prev.col;
    FourRead(a, b, c, d, rest);
  }

  lemma FourRead(a: int, b: int, c: int, d: int, rest: string)
    requires Fits(a) && Fits(b) && Fits(c) && Fits(d) && Ends(rest)
    ensures !Ends(Number(a) + (Number(b) + (Number(c) + (Number(d) + rest))))
    ensures ReadFields(Number(a) + (Number(b) + (Number(c) + (Number(d) + rest)))) == Some(([a, b, c, d], rest))
  {
    FieldRead(d, rest, [], rest);
    assert [d] + [] == [d] && [c] + [d] == [c, d] && [b] + [c, d] == [b, c, d] && [a] + [b, c, d] == [a, b, c, d];
    FieldRead(c, Number(d) + rest, [d], rest);
    FieldRead(b, Number(c) + (Number(d) + rest), [c, d], rest);
    FieldRead(a, Number(b) + (Number(c) + (Number(d) + rest)), [b, c, d], rest);
  }

  lemma EntryRead(e: Entry, prev: Entry, rest: string, line: nat, ms: seq<Mapping>)
    requires Small(e) && Small(prev) && Ends(rest) && Decode(rest, line, Carried(e)) == Some(ms)
    ensures Decode(Fields(e, prev, rest), line, Carried(prev)) == Some([Absolute(line, e)] + ms)
  {
    SegmentRead(e, prev, rest);
    var fields := [e.genCol - prev.genCol, e.source - prev.source, e.line - prev.line, e.col - prev.col];
    assert Segment(fields, Carried(prev)) == Some((Carried(e), Absolute(line, e).original));
  }

  /** The differences between two positions lead from the one to the other, with a name, without one, and for a
      generated column alone. */
  lemma DifferencesRead(p: Previous, q: Previous)
    ensures Segment([q.genCol - p.genCol], p) == Some((p.(genCol := q.genCol), None))
    ensures var four := [q.genCol - p.genCol, q.source - p.source, q.line - p.line, q.col - p.col];
            && Segment(four, p) == Some((q.(name := p.name), Some(Original(q.source, q.line, q.col, None))))
            && Segment(four + [q.name - p.name], p) == Some((q, Some(Original(q.source, q.line, q.col, Some(q.name)))))
  {
  }

  lemma SeparatorRead(s: string, line: nat, prev: Previous)
    ensures Decode("," + s, line, prev) == Decode(s, line, prev)
    ensures Decode(";" + s, line, prev) == Decode(s, line + 1, prev.(genCol := 0))
  {
    assert ("," + s)[1..] == s && (";" + s)[1..] == s;
  }

  /** Reading the text gives every absolute position back. */
  lemma {:induction false} TextRead(rows: seq<seq<Entry>>, l: nat, k: nat, prev: Entry)
    requires AllSmall(rows) && Small(prev) && (l < |rows| ==> k <= |rows[l]|)
    ensures Decode(Text(rows, l, k, prev), l, Carried(prev)) == Some(Meaning(rows, l, k))
    ensures k > 0 ==> Ends(Text(rows, l, k, prev))
    decreases |rows| - l, if l < |rows| then |rows[l]| - k else 0
  {
    if l < |rows| {
      if k == |rows[l]| {
        TextRead(rows, l + 1, 0, prev.(genCol := 0));
        SeparatorRead(Text(rows, l + 1, 0, prev.(genCol := 0)), l, Carried(prev));
      } else {
        var e := rows[l][k];
        var rest := Text(rows, l, k + 1, e);
        TextRead(rows, l, k + 1, e);
        EntryRead(e, prev, rest, l, Meaning(rows, l, k + 1));
        SeparatorRead(Fields(e, prev, rest), l, Carried(prev));
      }
    }
  }

  // ---------------------------------------------------------------- lines of four

  ghost predicate Fours(rows: seq<seq<Entry>>) {
    forall l :: 0 <= l < |rows| ==> |rows[l]| == 4
  }

  lemma {:induction false} MeaningSize(rows: seq<seq<Entry>>, l: nat, k: nat)
    requires Fours(rows) && l < |rows| && k <= 4
    ensures |Meaning(rows, l, k)| == 4 * (|rows| - l) - k
    decreases |rows| - l, 4 - k
  {
    if k < 4 { MeaningSize(rows, l, k + 1); } else if l + 1 < |rows| { MeaningSize(rows, l + 1, 0); }
  }

  lemma {:induction false} MeaningAt(rows: seq<seq<Entry>>, l: nat, k: nat, line: nat, i: nat)
    requires Fours(rows) && k <= 4 && i < 4 && (line > l || (line == l && i >= k)) && line < |rows|
    ensures 4 * (line - l) + i - k < |Meaning(rows, l, k)|
    ensures Meaning(rows, l, k)[4 * (line - l) + i - k] == Absolute(line, rows[line][i])
    decreases |rows| - l, 4 - k
  {
    if k == 4 {
      MeaningAt(rows, l + 1, 0, line, i);
    } else if line > l || i > k {
      MeaningAt(rows, l, k + 1, line, i);
    }
  }

  // ---------------------------------------------------------------- buildDense

  /** 3, 7, 12 and 18: the columns of a line. */
  function Column(k: nat): nat {
    if k == 0 then 3 else if k == 1 then 7 else if k == 2 then 12 else 18
  }

  function DenseEntry(l: nat, k: nat): Entry {
    Entry(Column(k), 0, l, 18 * l + Column(k))
  }

  function DenseRow(l: nat): seq<Entry> {
    [DenseEntry(l, 0), DenseEntry(l, 1), DenseEntry(l, 2), DenseEntry(l, 3)]
  }

  function DenseRows(n: nat): (rows: seq<seq<Entry>>)
    ensures |rows| == n && forall l :: 0 <= l < n ==> rows[l] == DenseRow(l)
  {
    seq(n, l requires 0 <= l => DenseRow(l))
  }

  lemma DenseSmall(rows: seq<seq<Entry>>)
    requires |rows| <= 50_000 && forall l :: 0 <= l < |rows| ==> rows[l] == DenseRow(l)
    ensures AllSmall(rows) && Fours(rows)
  {
    forall l, k | 0 <= l < |rows| && 0 <= k < |rows[l]| ensures Small(rows[l][k]) {
      assert rows[l][k] == DenseEntry(l, k);
    }
  }

  /** What has been written and what is left make up the whole. */
  ghost predicate Owed(out: string, rows: seq<seq<Entry>>, l: nat, k: nat, prev: Entry, whole: string) {
    (l < |rows| ==> k <= |rows[l]|) && out + Text(rows, l, k, prev) == whole
  }

  lemma OwedEntry(out: string, rows: seq<seq<Entry>>, l: nat, k: nat, prev: Entry, whole: string, comma: string,
                  part: string)
    requires l < |rows| && k < |rows[l]| && Owed(out, rows, l, k, prev, whole)
    requires comma == (if k > 0 then "," else "") && IsPart(part, rows[l][k], prev)
    ensures Owed(out + comma + part, rows, l, k + 1, rows[l][k], whole)
  {
    var e := rows[l][k];
    var rest := Text(rows, l, k + 1, e);
    PartIsFields(part, e, prev, rest);
    TextBegins(rows, l, k, prev, comma);
    ThreeJoin(out, comma, part, rest);
  }

  lemma ThreeJoin(a: string, b: string, c: string, rest: string)
    ensures a + b + c + rest == a + (b + (c + rest))
  {
  }

  lemma TextBegins(rows: seq<seq<Entry>>, l: nat, k: nat, prev: Entry, comma: string)
    requires l < |rows| && k < |rows[l]| && comma == if k > 0 then "," else ""
    ensures Text(rows, l, k, prev) == comma + Fields(rows[l][k], prev, Text(rows, l, k + 1, rows[l][k]))
  {
  }

  ghost predicate IsPart(part: string, e: Entry, prev: Entry) {
    part == Number(e.genCol - prev.genCol) + Number(e.source - prev.source) + Number(e.line - prev.line)
      + Number(e.col - prev.col)
  }

  lemma PartIsFields(part: string, e: Entry, prev: Entry, rest: string)
    requires IsPart(part, e, prev)
    ensures part + rest == Fields(e, prev, rest)
  {
    FourJoin(Number(e.genCol - prev.genCol), Number(e.source - prev.source), Number(e.line - prev.line),
      Number(e.col - prev.col), rest);
  }

  lemma FourJoin(a: string, b: string, c: string, d: string, rest: string)
    ensures a + b + c + d + rest == a + (b + (c + (d + rest)))
  {
  }

  lemma OwedLine(out: string, rows: seq<seq<Entry>>, l: nat, prev: Entry, whole: string)
    requires l < |rows| && Owed(out, rows, l, |rows[l]|, prev, whole)
    ensures Owed(out + ";", rows, l + 1, 0, prev.(genCol := 0), whole)
  {
    var rest := Text(rows, l + 1, 0, prev.(genCol := 0));
    assert out + (";" + rest) == out + ";" + rest;
  }

  /** The text of one entry, as the loop body concatenates it. */
  method EncodeEntry(a: int, b: int, c: int, ghost e: Entry, ghost prev: Entry) returns (part: string)
    requires a == e.genCol - prev.genCol && e.source == prev.source && b == e.line - prev.line && c == e.col - prev.col
    ensures IsPart(part, e, prev)
  {
    var x := EncodeVlq(a);
    var y := EncodeVlq(0);
    var z := EncodeVlq(b);
    var w := EncodeVlq(c);
    part := x + y + z + w;
  }

  /** The column and the original column before entry `k` of a line. */
  function ColumnBefore(k: nat): nat {
    if k == 0 then 0 else Column(k - 1)
  }

  /** Where the building of a line stands before entry `k`. */
  ghost predicate InLine(out: string, rows: seq<seq<Entry>>, line: nat, k: nat, col: nat, origLine: nat, origCol: nat,
                         whole: string)
  {
    && col == ColumnBefore(k) && origCol == 18 * line + col && (k > 0 ==> origLine == line)
    && Owed(out, rows, line, k, Entry(col, 0, origLine, origCol), whole)
  }

  /** The next entry of a line is the one that the loop computes. */
  lemma NextEntry(rows: seq<seq<Entry>>, line: nat, k: nat, col: nat, ocol: nat)
    requires line < |rows| && rows[line] == DenseRow(line) && k < 4
    requires col == ColumnBefore(k) + 3 + k && ocol == 18 * line + col
    ensures k < |rows[line]| && rows[line][k] == Entry(col, 0, line, ocol) && col == ColumnBefore(k + 1)
  {
  }

  /** One entry; its columns become the previous ones. */
  method BuildEntry(line: nat, k: nat, prevGenCol: nat, origLine: nat, origCol: nat, out0: string,
                    ghost rows: seq<seq<Entry>>, ghost whole: string)
    returns (out: string, col: nat, ocol: nat)
    requires line < |rows| && rows[line] == DenseRow(line) && k < 4
    requires InLine(out0, rows, line, k, prevGenCol, origLine, origCol, whole)
    ensures InLine(out, rows, line, k + 1, col, line, ocol, whole)
  {
    col := prevGenCol + 3 + k;
    ocol := origCol + 3 + k;
    NextEntry(rows, line, k, col, ocol);
    ghost var e, prev := Entry(col, 0, line, ocol), Entry(prevGenCol, 0, origLine, origCol);
    var comma := if k > 0 then "," else "";
    var part := EncodeEntry(col - prevGenCol, line - origLine, ocol - origCol, e, prev);
    OwedEntry(out0, rows, line, k, prev, whole, comma, part);
    out := out0 + comma + part;
  }

  method BuildLine(line: nat, prevOrigLine: nat, prevOrigCol: nat, out0: string,
                   ghost rows: seq<seq<Entry>>, ghost first: nat, ghost whole: string)
    returns (out: string, lastOrigCol: nat)
    requires line < |rows| && rows[line] == DenseRow(line) && first == 0
    requires InLine(out0, rows, line, first, 0, prevOrigLine, prevOrigCol, whole)
    ensures lastOrigCol == 18 * (line + 1)
    ensures InLine(out, rows, line + 1, first, 0, line, lastOrigCol, whole)
  {
    out := out0;
    var prevGenCol, origLine, origCol := 0, prevOrigLine, prevOrigCol;
    for k := 0 to 4
      invariant InLine(out, rows, line, first + k, prevGenCol, origLine, origCol, whole)
    {
      out, prevGenCol, origCol := BuildEntry(line, k, prevGenCol, origLine, origCol, out, rows, whole);
      origLine := line;
    }
    EndLine(out, rows, line, first, prevGenCol, origLine, origCol, whole);
    out := out + ";";
    lastOrigCol := origCol;
  }

  lemma EndLine(out: string, rows: seq<seq<Entry>>, line: nat, first: nat, col: nat, origLine: nat, origCol: nat,
                whole: string)
    requires line < |rows| && rows[line] == DenseRow(line) && first == 0
    requires InLine(out, rows, line, first + 4, col, origLine, origCol, whole)
    ensures origCol == 18 * (line + 1) && InLine(out + ";", rows, line + 1, first, 0, line, origCol, whole)
  {
    OwedLine(out, rows, line, Entry(col, 0, origLine, origCol), whole);
  }

  ghost predicate DenseAt(ms: seq<Mapping>, l: nat, k: nat) {
    && k < 4 && 4 * l + k < |ms|
    && var column := [3, 7, 12, 18][k];
       ms[4 * l + k] == Mapping(l, column, Some(Original(0, l, 18 * l + column, None)))
  }

  /** Line after line, four mappings at columns 3, 7, 12 and 18, with original columns 18 further a line. */
  ghost predicate IsDense(ms: seq<Mapping>, lines: nat) {
    |ms| == 4 * lines && forall l: nat, k: nat :: l < lines && k < 4 ==> DenseAt(ms, l, k)
  }

  lemma DenseMeaning(rows: seq<seq<Entry>>, first: nat)
    requires first == 0 < |rows| && Fours(rows) && forall l :: 0 <= l < |rows| ==> rows[l] == DenseRow(l)
    ensures IsDense(Meaning(rows, first, first), |rows|)
  {
    MeaningSize(rows, first, first);
    var ms := Meaning(rows, first, first);
    forall l: nat, k: nat | l < |rows| && k < 4 ensures DenseAt(ms, l, k) {
      DenseMeaningAt(rows, first, l, k);
    }
  }

  lemma DenseMeaningAt(rows: seq<seq<Entry>>, first: nat, l: nat, k: nat)
    requires first == 0 && Fours(rows) && l < |rows| && k < 4 && rows[l] == DenseRow(l)
    ensures DenseAt(Meaning(rows, first, first), l, k)
  {
    MeaningAt(rows, first, first, l, k);
    assert rows[l][k] == DenseEntry(l, k);
  }

  lemma OwedAll(out: string, rows: seq<seq<Entry>>, first: nat, prev: Entry, whole: string)
    requires Owed(out, rows, |rows|, first, prev, whole)
    ensures out == whole
  {
  }

  /** 50000 lines of four entries. */
  method BuildDense() returns (out: string)
    ensures Decode(out, 0, START).Some? && IsDense(Decode(out, 0, START).value, 50_000)
  {
    var lines := 50_000;
    ghost var rows := DenseRows(lines);
    DenseSmall(rows);
    ghost var first: nat, start := 0, Entry(0, 0, 0, 0);
    ghost var whole := Text(rows, first, first, start);
    out := BuildLines(lines, rows, start, first, whole);
    TextRead(rows, first, first, start);
    DenseMeaning(rows, first);
  }

  method BuildLines(lines: nat, ghost rows: seq<seq<Entry>>, ghost start: Entry, ghost first: nat, ghost whole: string)
    returns (out: string)
    requires |rows| == lines && (forall l :: 0 <= l < |rows| ==> rows[l] == DenseRow(l))
    requires first == 0 && start == Entry(0, 0, 0, 0) && whole == Text(rows, first, first, start)
    ensures out == whole
  {
    out := "";
    var prevOrigLine, prevOrigCol := 0, 0;
    assert out + whole == whole;
    for line := 0 to lines
      invariant InLine(out, rows, line, first, 0, prevOrigLine, prevOrigCol, whole)
    {
      out, prevOrigCol := BuildLine(line, prevOrigLine, prevOrigCol, out, rows, first, whole);
      prevOrigLine := line;
    }
    OwedAll(out, rows, first, Entry(0, 0, prevOrigLine, prevOrigCol), whole);
  }
}
