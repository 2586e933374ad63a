/** `parseLog` of scripts/ci-slowest-tests.ts: charging the time of a CI log to test files. Lines are
    given as the program's regular expressions classify them. */
module LogAccounting {
  import opened Wrappers

  /** The text of a `[N/M]` header: a summary with its own wall clock, a file path, or a label. */
  datatype Title = Timed(file: string, ms: nat) | Path(file: string) | Label

  /** `dashes` is the leading `--- ` of a serial header. */
  datatype Body = Header(dashes: bool, title: Title) | Phase | Other

  datatype Line = Unstamped | Stamped(ts: int, body: Body)

  // ---------------------------------------------------------------- specification

  predicate Closes(line: Line) {
    line.Stamped? && !line.body.Other?
  }

  /** A header naming a file; a timed summary behind dashes is not one. */
  predicate Opens(line: Line) {
    line.Stamped? && line.body.Header? && line.body.title.Path?
  }

  predicate ReportsTime(line: Line) {
    line.Stamped? && line.body.Header? && line.body.title.Timed? && !line.body.dashes
  }

  /** When a span that is open before `lines` ends: at the next header or phase, or at the last
      timestamp of the log, which is `last` if none follows. */
  function CloseTime(lines: seq<Line>, last: int): int {
    if lines == [] then last
    else if lines[0].Unstamped? then CloseTime(lines[1..], last)
    else if Closes(lines[0]) then lines[0].ts
    else CloseTime(lines[1..], lines[0].ts)
  }

  function LastTime(lines: seq<Line>, last: int): int {
    if lines == [] then last
    else LastTime(lines[1..], if lines[0].Stamped? then lines[0].ts else last)
  }

  /** What a span is charged: a concurrent one counts for at most half a second. */
  function Clamp(span: int, concurrent: bool): int {
    if concurrent && span > 500 then 500 else span
  }

  /** The charge of the span that the first line opens. */
  function SpanCharge(lines: seq<Line>): int
    requires lines != [] && Opens(lines[0])
  {
    Clamp(CloseTime(lines[1..], lines[0].ts) - lines[0].ts, !lines[0].body.dashes)
  }

  /** All that file `f` is charged for spans. */
  function SpansOf(lines: seq<Line>, f: string): int {
    if lines == [] then 0
    else
      var rest := SpansOf(lines[1..], f);
      if Opens(lines[0]) && lines[0].body.title.file == f then SpanCharge(lines) + rest else rest
  }

  /** All that file `f` reports itself. */
  function InlineOf(lines: seq<Line>, f: string): int {
    if lines == [] then 0
    else
      var rest := InlineOf(lines[1..], f);
      if ReportsTime(lines[0]) && lines[0].body.title.file == f then lines[0].body.title.ms + rest else rest
  }

  /** The same for all files together. */
  function Spans(lines: seq<Line>): int {
    if lines == [] then 0
    else if Opens(lines[0]) then SpanCharge(lines) + Spans(lines[1..])
    else Spans(lines[1..])
  }

  function Inline(lines: seq<Line>): int {
    if lines == [] then 0
    else if ReportsTime(lines[0]) then lines[0].body.title.ms + Inline(lines[1..])
    else Inline(lines[1..])
  }

  /** A line that opens a span of `f` or reports its time. */
  predicate Names(line: Line, f: string) {
    (Opens(line) || ReportsTime(line)) && line.body.title.file == f
  }

  predicate NamedIn(lines: seq<Line>, f: string) {
    exists k :: 0 <= k < |lines| && Names(lines[k], f)
  }

  lemma NamedFirst(lines: seq<Line>, f: string)
    requires lines != []
    ensures NamedIn(lines, f) <==> Names(lines[0], f) || NamedIn(lines[1..], f)
  {
    if NamedIn(lines[1..], f) {
      var k :| 0 <= k < |lines[1..]| && Names(lines[1..][k], f);
      assert Names(lines[k + 1], f);
    }
    if NamedIn(lines, f) {
      var k :| 0 <= k < |lines| && Names(lines[k], f);
      if k > 0 { assert lines[1..][k - 1] == lines[k]; }
    }
  }

  function Get(m: map<string, int>, f: string): int {
    if f in m then m[f] else 0
  }

  ghost function Total(m: map<string, int>): int {
    if m == map[] then 0
    else
      var k :| k in m;
      m[k] + Total(m - {k})
  }

  lemma {:induction false} TotalRemove(m: map<string, int>, f: string)
    requires f in m
    ensures Total(m) == m[f] + Total(m - {f})
    decreases |m|
  {
    var k :| k in m && Total(m) == m[k] + Total(m - {k});
    if k != f {
      TotalRemove(m - {k}, f);
      TotalRemove(m - {f}, k);
      assert (m - {k}) - {f} == (m - {f}) - {k};
    }
  }

  lemma TotalAdd(m: map<string, int>, f: string, x: int)
    ensures Total(m[f := Get(m, f) + x]) == Total(m) + x
  {
    var m' := m[f := Get(m, f) + x];
    TotalRemove(m', f);
    if f in m {
      TotalRemove(m, f);
      assert m' - {f} == m - {f};
    } else {
      assert m' - {f} == m;
    }
  }

  // ---------------------------------------------------------------- the parser

  /** The parser's variables. */
  class Parser {
    var out: map<string, int>
    var curName: Option<string>
    var curStart: int
    var concurrent: bool
    var lastTs: int

    constructor ()
      ensures out == map[] && curName == None && lastTs == 0
    {
      out, curName, curStart, concurrent, lastTs := map[], None, 0, false, 0;
    }

    method Charge(f: string, x: int)
      modifies this`out
      ensures forall g :: Get(out, g) == Get(old(out), g) + if g == f then x else 0
      ensures Total(out) == old(Total(out)) + x
      ensures out.Keys == old(out.Keys) + {f}
    {
      TotalAdd(out, f, x);
      out := out[f := Get(out, f) + x];
    }

    /** `close`. */
    method Close(ts: int)
      modifies this`out, this`curName
      ensures curName == None
      ensures forall g :: Get(out, g) == Get(old(out), g) + OpenCharge(old(curName), curStart, concurrent, ts, g)
      ensures Total(out) == old(Total(out)) + OpenTotal(old(curName), curStart, concurrent, ts)
      ensures forall g :: g in out <==> g in old(out) || old(curName) == Some(g)
    {
      if curName.None? { return; }
      var span := ts - curStart;
      Charge(curName.value, if concurrent then (if span < 500 then span else 500) else span);
      curName := None;
    }

    /** One line of the log, the first of `rest`. */
    method Take(line: Line, ghost rest: seq<Line>)
      requires rest != [] && rest[0] == line
      modifies this
      ensures forall g :: Owed(out, curName, curStart, concurrent, lastTs, rest[1..], g)
                          == old(Owed(out, curName, curStart, concurrent, lastTs, rest, g))
      ensures OwedTotal(out, curName, curStart, concurrent, lastTs, rest[1..])
              == old(OwedTotal(out, curName, curStart, concurrent, lastTs, rest))
      ensures forall g :: EntryDue(out, curName, rest[1..], g) <==> old(EntryDue(out, curName, rest, g))
      ensures lastTs == if line.Stamped? then line.ts else old(lastTs)
    {
      forall g ensures NamedIn(rest, g) <==> Names(line, g) || NamedIn(rest[1..], g) { NamedFirst(rest, g); }
      if line.Unstamped? { return; }
      lastTs := line.ts;
      match line.body {
        case Header(dashes, title) =>
          TakeHeader(line.ts, dashes, title, rest);
        case Phase =>
          Close(line.ts);
          concurrent := false;
        case Other =>
      }
    }

    method TakeHeader(ts: int, dashes: bool, title: Title, ghost rest: seq<Line>)
      requires rest != [] && rest[0] == Stamped(ts, Header(dashes, title)) && lastTs == ts
      modifies this
      ensures forall g :: Owed(out, curName, curStart, concurrent, lastTs, rest[1..], g)
                          == old(Owed(out, curName, curStart, concurrent, lastTs, rest, g))
      ensures OwedTotal(out, curName, curStart, concurrent, lastTs, rest[1..])
              == old(OwedTotal(out, curName, curStart, concurrent, lastTs, rest))
      ensures forall g :: EntryDue(out, curName, rest[1..], g) <==> old(EntryDue(out, curName, rest, g))
      ensures lastTs == ts
    {
      forall g ensures HeaderOwes(rest, g) { NamedFirst(rest, g); }
      Close(ts);
      if !dashes && title.Timed? {
        Charge(title.file, title.ms);
        concurrent := false;
        return;
      }
      curName := if title.Path? then Some(title.file) else None;
      curStart := ts;
      concurrent := !dashes;
    }
  }

  /** What the header at the head of `rest` adds for `f` to what the lines after it owe. */
  ghost predicate HeaderOwes(rest: seq<Line>, f: string)
    requires rest != [] && rest[0].Stamped? && rest[0].body.Header?
  {
    var more := rest[1..];
    && SpansOf(rest, f) == SpansOf(more, f) + (if Opens(rest[0]) && Names(rest[0], f) then SpanCharge(rest) else 0)
    && InlineOf(rest, f) == InlineOf(more, f)
         + (if ReportsTime(rest[0]) && Names(rest[0], f) then rest[0].body.title.ms else 0)
    && (NamedIn(rest, f) <==> Names(rest[0], f) || NamedIn(more, f))
  }

  /** The charge of the span that is open, if it closes at `ts`. */
  function OpenCharge(curName: Option<string>, curStart: int, concurrent: bool, ts: int, f: string): int {
    if curName == Some(f) then Clamp(ts - curStart, concurrent) else 0
  }

  function OpenTotal(curName: Option<string>, curStart: int, concurrent: bool, ts: int): int {
    if curName.Some? then Clamp(ts - curStart, concurrent) else 0
  }

  /** What file `f` will have been charged when `rest` is parsed too. */
  ghost function Owed(out: map<string, int>, curName: Option<string>, curStart: int, concurrent: bool, lastTs: int,
                      rest: seq<Line>, f: string): int
  {
    Get(out, f) + OpenCharge(curName, curStart, concurrent, CloseTime(rest, lastTs), f) + SpansOf(rest, f)
      + InlineOf(rest, f)
  }

  ghost function OwedTotal(out: map<string, int>, curName: Option<string>, curStart: int, concurrent: bool, lastTs: int,
                           rest: seq<Line>): int
  {
    Total(out) + OpenTotal(curName, curStart, concurrent, CloseTime(rest, lastTs)) + Spans(rest) + Inline(rest)
  }

  /** File `f` will have an entry when `rest` is parsed too. */
  ghost predicate EntryDue(out: map<string, int>, curName: Option<string>, rest: seq<Line>, f: string) {
    f in out || curName == Some(f) || NamedIn(rest, f)
  }

  /** Every file is charged its spans and the times it reports, and nothing else is charged. */
  method ParseLog(lines: seq<Line>) returns (out: map<string, int>)
    ensures forall f :: Get(out, f) == SpansOf(lines, f) + InlineOf(lines, f)
    ensures Total(out) == Spans(lines) + Inline(lines)
    ensures forall f :: f in out <==> exists k :: 0 <= k < |lines| && Charges(lines[k], f)
  {
    var p := new Parser();
    for k := 0 to |lines|
      invariant fresh(p)
      invariant forall f ::
                  Owed(p.out, p.curName, p.curStart, p.concurrent, p.lastTs, lines[k..], f)
                  == SpansOf(lines, f) + InlineOf(lines, f)
      invariant OwedTotal(p.out, p.curName, p.curStart, p.concurrent, p.lastTs, lines[k..])
                == Spans(lines) + Inline(lines)
      invariant forall f :: EntryDue(p.out, p.curName, lines[k..], f) <==> NamedIn(lines, f)
    {
      assert lines[k..][1..] == lines[k + 1..];
      p.Take(lines[k], lines[k..]);
    }
    p.Close(p.lastTs);
    out := p.out;
    forall f ensures f in out <==> exists k :: 0 <= k < |lines| && Charges(lines[k], f) {
      assert f in out <==> NamedIn(lines, f);
      NamedMeaning(lines, f);
    }
  }

  /** A header with the path of `f`, or a summary without dashes of its time. */
  ghost predicate Charges(line: Line, f: string) {
    match line
    case Stamped(_, Header(_, Path(file))) => file == f
    case Stamped(_, Header(false, Timed(file, _))) => file == f
    case _ => false
  }

  lemma NamedMeaning(lines: seq<Line>, f: string)
    ensures NamedIn(lines, f) <==> exists k :: 0 <= k < |lines| && Charges(lines[k], f)
  {
    if NamedIn(lines, f) {
      var k :| 0 <= k < |lines| && Names(lines[k], f);
      NamesIsCharges(lines[k], f);
    }
    if exists k :: 0 <= k < |lines| && Charges(lines[k], f) {
      var k :| 0 <= k < |lines| && Charges(lines[k], f);
      NamesIsCharges(lines[k], f);
    }
  }

  lemma NamesIsCharges(line: Line, f: string)
    ensures Names(line, f) <==> Charges(line, f)
  {
  }

  // ---------------------------------------------------------------- line by line

  /** A line that leaves an open span open. */
  ghost predicate Quiet(line: Line) {
    line.Unstamped? || line.body == Other
  }

  /** A span opened by line `k` ends at line `m`: the next header or phase, or else the last line with a time. */
  ghost predicate EndsAt(lines: seq<Line>, k: nat, m: nat) {
    && k <= m < |lines| && lines[m].Stamped?
    && (forall i :: k < i < m ==> Quiet(lines[i]))
    && (m == k || lines[m].body == Other ==> forall i :: m < i < |lines| ==> lines[i].Unstamped?)
  }

  lemma {:induction false} CloseMeaning(lines: seq<Line>, k: nat, j: nat, last: nat) returns (m: nat)
    requires k <= last < j <= |lines| && lines[last].Stamped? && (last > k ==> lines[last].body == Other)
    requires forall i :: k < i < j ==> Quiet(lines[i])
    requires forall i :: last < i < j ==> lines[i].Unstamped?
    ensures EndsAt(lines, k, m) && CloseTime(lines[j..], lines[last].ts) == lines[m].ts
    decreases |lines| - j
  {
    if j == |lines| {
      m := last;
    } else {
      assert lines[j..][1..] == lines[j + 1..];
      if Closes(lines[j]) {
        m := j;
      } else {
        m := CloseMeaning(lines, k, j + 1, if lines[j].Unstamped? then last else j);
      }
    }
  }

  /** What one line adds to the charges of `f`: a file's header, the time up to the end of its span, but no more than
      500 ms if it is concurrent; a summary, the time that it reports; any other line, nothing. */
  lemma LineCharges(lines: seq<Line>, k: nat, f: string) returns (m: nat)
    requires k < |lines|
    ensures SpansOf([], f) == 0 && InlineOf([], f) == 0
    ensures var line := lines[k];
            var spans := SpansOf(lines[k..], f) - SpansOf(lines[k + 1..], f);
            var inline := InlineOf(lines[k..], f) - InlineOf(lines[k + 1..], f);
            if line.Stamped? && line.body.Header? && line.body.title == Path(f) then
              && EndsAt(lines, k, m) && inline == 0
              && var span := lines[m].ts - line.ts;
                 && (line.body.dashes || span <= 500 ==> spans == span)
                 && (!line.body.dashes && span > 500 ==> spans == 500)
            else if line.Stamped? && line.body.Header? && line.body.title.Timed? && line.body.title.file == f then
              spans == 0 && inline == if line.body.dashes then 0 else line.body.title.ms
            else spans == 0 && inline == 0
  {
    m := k;
    assert lines[k..][1..] == lines[k + 1..] && lines[k..][0] == lines[k];
    if Opens(lines[k]) { m := CloseMeaning(lines, k, k + 1, k); }
  }

  // ---------------------------------------------------------------- disjoint spans

  /** Timestamps never decrease, from `last` on. */
  ghost predicate Ordered(lines: seq<Line>, last: int) {
    lines == [] ||
    (if lines[0].Stamped? then lines[0].ts >= last && Ordered(lines[1..], lines[0].ts) else Ordered(lines[1..], last))
  }

  lemma {:induction false} TimesOrdered(lines: seq<Line>, last: int)
    requires Ordered(lines, last)
    ensures last <= CloseTime(lines, last) <= LastTime(lines, last)
  {
    if lines != [] {
      if lines[0].Unstamped? {
        TimesOrdered(lines[1..], last);
      } else {
        TimesOrdered(lines[1..], lines[0].ts);
      }
    }
  }

  /** The spans do not overlap: together they last no longer than from the first header or phase to the
      end of the log. No charge is negative. */
  lemma {:induction false} SpansDisjoint(lines: seq<Line>, last: int)
    requires Ordered(lines, last)
    ensures 0 <= Spans(lines) <= LastTime(lines, last) - CloseTime(lines, last)
    ensures forall f :: SpansOf(lines, f) >= 0
  {
    if lines != [] {
      var next := if lines[0].Unstamped? then last else lines[0].ts;
      SpansDisjoint(lines[1..], next);
      TimesOrdered(lines[1..], next);
    }
  }

  /** A log of serial files only, without phases. */
  ghost predicate SerialOnly(lines: seq<Line>) {
    forall k :: 0 <= k < |lines| && Closes(lines[k]) ==> Opens(lines[k]) && lines[k].body.dashes
  }

  /** Then every instant from the first header to the end is charged to exactly one file. */
  lemma {:induction false} SerialChargesAll(lines: seq<Line>, last: int)
    requires SerialOnly(lines)
    ensures Spans(lines) == LastTime(lines, last) - CloseTime(lines, last)
    ensures Inline(lines) == 0
  {
    if lines != [] {
      assert SerialOnly(lines[1..]) by {
        forall k | 0 <= k < |lines[1..]| && Closes(lines[1..][k])
          ensures Opens(lines[1..][k]) && lines[1..][k].body.dashes
        {
          assert lines[1..][k] == lines[k + 1];
        }
      }
      SerialChargesAll(lines[1..], if lines[0].Unstamped? then last else lines[0].ts);
    }
  }

  lemma {:induction false} InlineNonNegative(lines: seq<Line>, f: string)
    ensures InlineOf(lines, f) >= 0 && Inline(lines) >= 0
  {
    if lines != [] { InlineNonNegative(lines[1..], f); }
  }
}
