/** `serialWindows` of scripts/rust-timings.ts: a sweep over start and end events that
    reports the stretches of wall-clock time in which at most `maxActive` units run. */
module SerialWindows {
  import opened Wrappers
  import opened BuildUnits

  // ---------------------------------------------------------------- specification

  /** How many units run at instant `x`; a unit occupies [start, end). */
  ghost function Running(units: seq<BuildUnit>, x: real): nat {
    if units == [] then 0
    else
      var u := units[|units| - 1];
      Running(units[..|units| - 1], x) + if u.start <= x < u.start + u.duration then 1 else 0
  }

  /** When the last unit finishes; 0 for no units. */
  function LastEnd(units: seq<BuildUnit>): (e: real) {
    if units == [] then 0.0
    else
      var rest := LastEnd(units[..|units| - 1]);
      var u := units[|units| - 1];
      if |units| == 1 || u.End() > rest then u.End() else rest
  }

  /** [s, e) lies in the build and never has more than `m` units running. */
  ghost predicate LowStretch(units: seq<BuildUnit>, m: int, s: real, e: real) {
    && 0.0 <= s < e <= LastEnd(units)
    && forall x: real :: s <= x < e ==> Running(units, x) <= m
  }

  ghost predicate MaximalLowStretch(units: seq<BuildUnit>, m: int, s: real, e: real) {
    && LowStretch(units, m, s, e)
    && forall s', e' :: s' <= s && e <= e' && LowStretch(units, m, s', e') ==> s' == s && e' == e
  }

  datatype Window = Window(s: real, e: real, names: seq<string>)

  /** Every low stretch longer than `minDur` is inside one reported window. */
  ghost predicate Covers(units: seq<BuildUnit>, m: int, minDur: real, out: seq<Window>) {
    forall s, e :: LowStretch(units, m, s, e) && e - s > minDur ==>
      exists k :: 0 <= k < |out| && out[k].s <= s && e <= out[k].e
  }

  /** No unit starts at the very instant at which a unit ends. */
  predicate NoTies(units: seq<BuildUnit>) {
    forall k, l :: 0 <= k < |units| && 0 <= l < |units| ==> units[k].start != units[l].End()
  }

  /** The sweep's own count after `k` sorted events. At an instant with both starts and
      ends it may briefly exceed the number of units really running there. */
  ghost predicate NoBriefPeak(units: seq<BuildUnit>, es: seq<Event>, m: int, minDur: real) {
    forall s, e, j :: LowStretch(units, m, s, e) && e - s > minDur && 0 < j <= |es| && s < es[j - 1].t < e
      ==> Active(es, j) <= m
  }

  // ---------------------------------------------------------------- events

  datatype Event = Event(t: real, d: int)

  function Events(units: seq<BuildUnit>): seq<Event> {
    if units == [] then []
    else
      var u := units[|units| - 1];
      Events(units[..|units| - 1]) + [Event(u.start, 1), Event(u.End(), -1)]
  }

  predicate SortedByTime(es: seq<Event>) {
    forall i, j :: 0 <= i < j < |es| ==> es[i].t <= es[j].t
  }

  /** Insert after every event that is not later: what a stable sort does with the last element. */
  function StableInsert(es: seq<Event>, e: Event): (r: seq<Event>)
    ensures |r| == |es| + 1
  {
    if es == [] || es[|es| - 1].t <= e.t then es + [e]
    else StableInsert(es[..|es| - 1], e) + [es[|es| - 1]]
  }

  function StableSort(es: seq<Event>): (r: seq<Event>)
    ensures |r| == |es|
  {
    if es == [] then [] else StableInsert(StableSort(es[..|es| - 1]), es[|es| - 1])
  }

  function At(es: seq<Event>, t: real): seq<Event> {
    if es == [] then []
    else At(es[..|es| - 1], t) + if es[|es| - 1].t == t then [es[|es| - 1]] else []
  }

  /** Where `StableInsert` puts the new event. */
  ghost function InsertPos(es: seq<Event>, e: Event): (p: nat)
    ensures p <= |es|
  {
    if es == [] || es[|es| - 1].t <= e.t then |es| else InsertPos(es[..|es| - 1], e)
  }

  lemma {:induction false} InsertSplits(es: seq<Event>, e: Event)
    ensures var p := InsertPos(es, e); StableInsert(es, e) == es[..p] + [e] + es[p..]
    ensures var p := InsertPos(es, e); p > 0 ==> es[p - 1].t <= e.t
    ensures forall i :: InsertPos(es, e) <= i < |es| ==> es[i].t > e.t
  {
    if es == [] || es[|es| - 1].t <= e.t {
      assert es[..|es|] == es;
    } else {
      var h := es[..|es| - 1];
      InsertSplits(h, e);
      var p := InsertPos(h, e);
      assert es[..p] == h[..p] && es[p..] == h[p..] + [es[|es| - 1]];
    }
  }

  lemma InsertAt(es: seq<Event>, e: Event, i: nat)
    requires i <= |es|
    ensures var p := InsertPos(es, e);
            StableInsert(es, e)[i] == if i < p then es[i] else if i == p then e else es[i - 1]
  {
    InsertSplits(es, e);
  }

  lemma InsertKeepsSorted(es: seq<Event>, e: Event)
    requires SortedByTime(es)
    ensures SortedByTime(StableInsert(es, e))
  {
    var r, p := StableInsert(es, e), InsertPos(es, e);
    forall i, j | 0 <= i < j < |r| ensures r[i].t <= r[j].t {
      InsertAt(es, e, i);
      InsertAt(es, e, j);
      assert (p > 0 ==> es[p - 1].t <= e.t) && forall i :: p <= i < |es| ==> es[i].t > e.t by { InsertSplits(es, e); }
    }
  }

  lemma {:induction false} SortSorts(es: seq<Event>)
    ensures SortedByTime(StableSort(es))
  {
    if es != [] {
      SortSorts(es[..|es| - 1]);
      InsertKeepsSorted(StableSort(es[..|es| - 1]), es[|es| - 1]);
    }
  }

  lemma {:induction false} AtInsert(es: seq<Event>, e: Event, t: real)
    ensures At(StableInsert(es, e), t) == At(es + [e], t)
  {
    if es == [] || es[|es| - 1].t <= e.t {
    } else {
      var h, l := es[..|es| - 1], es[|es| - 1];
      AtInsert(h, e, t);
      assert (StableInsert(h, e) + [l])[..|es|] == StableInsert(h, e);
      assert (h + [e])[..|h|] == h;
      assert (es + [e])[..|es|] == es;
    }
  }

  /** The sort is stable: events of equal time keep their order. */
  lemma {:induction false} SortIsStable(es: seq<Event>, t: real)
    ensures At(StableSort(es), t) == At(es, t)
  {
    if es != [] {
      var h, e := es[..|es| - 1], es[|es| - 1];
      SortIsStable(h, t);
      AtInsert(StableSort(h), e, t);
      assert (StableSort(h) + [e])[..|h|] == StableSort(h);
    }
  }

  // ---------------------------------------------------------------- the running count

  ghost function Sum(es: seq<Event>): int {
    if es == [] then 0 else Sum(es[..|es| - 1]) + es[|es| - 1].d
  }

  /** The sweep's `active` after the first `k` events. */
  ghost function Active(es: seq<Event>, k: nat): int
    requires k <= |es|
  {
    Sum(es[..k])
  }

  lemma ActiveStep(es: seq<Event>, k: nat)
    requires k < |es|
    ensures Active(es, k + 1) == Active(es, k) + es[k].d
  {
    assert es[..k + 1][..k] == es[..k];
  }

  lemma {:induction false} SumAppend(a: seq<Event>, b: seq<Event>)
    ensures Sum(a + b) == Sum(a) + Sum(b)
  {
    if b == [] {
      assert a + b == a;
    } else {
      assert (a + b)[..|a + b| - 1] == a + b[..|b| - 1];
      SumAppend(a, b[..|b| - 1]);
    }
  }

  /** Inserting an event shifts the running count by its `d` from its position on. */
  lemma ActiveInsert(es: seq<Event>, e: Event, k: nat)
    requires k <= |es| + 1
    ensures var p := InsertPos(es, e);
            Active(StableInsert(es, e), k) == if k <= p then Active(es, k) else Active(es, k - 1) + e.d
  {
    var p := InsertPos(es, e);
    InsertSplits(es, e);
    if k <= p {
      assert StableInsert(es, e)[..k] == es[..k];
    } else {
      ActiveAround(es, e, p, k, StableInsert(es, e));
    }
  }

  lemma ActiveAround(es: seq<Event>, e: Event, p: nat, k: nat, r: seq<Event>)
    requires p < k <= |es| + 1 && r == es[..p] + [e] + es[p..]
    ensures Active(r, k) == Active(es, k - 1) + e.d
  {
    assert r[..k] == es[..p] + [e] + es[p..k - 1];
    SumAround(es[..p], e, es[p..k - 1]);
    assert es[..k - 1] == es[..p] + es[p..k - 1];
  }

  lemma SumAround(a: seq<Event>, e: Event, b: seq<Event>)
    ensures Sum(a + [e] + b) == Sum(a + b) + e.d
  {
    SumAppend(a + [e], b);
    SumAppend(a, b);
    assert (a + [e])[..|a|] == a;
  }

  /** Sorting one more unit is inserting its start and then its end. */
  lemma SortUnit(units: seq<BuildUnit>)
    requires units != []
    ensures var u := units[|units| - 1];
            StableSort(Events(units)) ==
            StableInsert(StableInsert(StableSort(Events(units[..|units| - 1])), Event(u.start, 1)), Event(u.End(), -1))
  {
    var u := units[|units| - 1];
    var es, h := Events(units), Events(units[..|units| - 1]);
    assert es[..|es| - 1] == h + [Event(u.start, 1)];
    assert (h + [Event(u.start, 1)])[..|h|] == h;
  }

  lemma InsertedStartStaysBelow(s: seq<Event>, u: BuildUnit)
    requires u.duration >= 0.0
    ensures InsertPos(StableInsert(s, Event(u.start, 1)), Event(u.End(), -1)) > InsertPos(s, Event(u.start, 1))
  {
    var a := Event(u.start, 1);
    InsertSplits(s, a);
    var s' := StableInsert(s, a);
    InsertSplits(s', Event(u.End(), -1));
    assert s'[InsertPos(s, a)] == a;
  }

  /** The sweep's count never goes negative, whatever ties there are: a stable sort keeps
      each unit's start ahead of its end. */
  lemma {:induction false} ActiveNonNegative(units: seq<BuildUnit>, k: nat)
    requires ValidUnits(units)
    requires k <= |StableSort(Events(units))|
    ensures Active(StableSort(Events(units)), k) >= 0
  {
    if units != [] {
      var h, u := units[..|units| - 1], units[|units| - 1];
      var s := StableSort(Events(h));
      var a, b := Event(u.start, 1), Event(u.End(), -1);
      var s' := StableInsert(s, a);
      SortUnit(units);
      InsertedStartStaysBelow(s, u);
      ActiveInsert(s', b, k);
      var k' := if k <= InsertPos(s', b) then k else k - 1;
      ActiveInsert(s, a, k');
      ActiveNonNegative(h, if k' <= InsertPos(s, a) then k' else k' - 1);
    }
  }

  lemma {:induction false} ActiveEndsAtZero(units: seq<BuildUnit>)
    ensures Sum(StableSort(Events(units))) == 0
  {
    if units != [] {
      var h, u := units[..|units| - 1], units[|units| - 1];
      var s := StableSort(Events(h));
      var a, b := Event(u.start, 1), Event(u.End(), -1);
      var s' := StableInsert(s, a);
      SortUnit(units);
      ActiveEndsAtZero(h);
      ActiveInsert(s, a, |s| + 1);
      ActiveInsert(s', b, |s'| + 1);
      assert s[..|s|] == s && s'[..|s'|] == s';
      var r := StableInsert(s', b);
      assert r[..|r|] == r;
    }
  }

  /** The change that the events up to and including instant `x` make. */
  ghost function SumUpTo(es: seq<Event>, x: real): int {
    if es == [] then 0
    else SumUpTo(es[..|es| - 1], x) + if es[|es| - 1].t <= x then es[|es| - 1].d else 0
  }

  lemma {:induction false} SumUpToInsert(es: seq<Event>, e: Event, x: real)
    ensures SumUpTo(StableInsert(es, e), x) == SumUpTo(es, x) + if e.t <= x then e.d else 0
  {
    if es == [] || es[|es| - 1].t <= e.t {
      assert (es + [e])[..|es|] == es;
    } else {
      var h, l := es[..|es| - 1], es[|es| - 1];
      SumUpToInsert(h, e, x);
      assert (StableInsert(h, e) + [l])[..|es|] == StableInsert(h, e);
    }
  }

  lemma {:induction false} SumUpToIsRunning(units: seq<BuildUnit>, x: real)
    requires ValidUnits(units)
    ensures SumUpTo(StableSort(Events(units)), x) == Running(units, x)
  {
    if units != [] {
      var h, u := units[..|units| - 1], units[|units| - 1];
      SortUnit(units);
      SumUpToIsRunning(h, x);
      var s := StableSort(Events(h));
      SumUpToInsert(s, Event(u.start, 1), x);
      SumUpToInsert(StableInsert(s, Event(u.start, 1)), Event(u.End(), -1), x);
    }
  }

  /** How many leading events of a sorted sequence happen no later than `x`. */
  ghost function CountUpTo(es: seq<Event>, x: real): (k: nat)
    ensures k <= |es|
    ensures SortedByTime(es) ==>
              (forall i :: 0 <= i < k ==> es[i].t <= x) && (forall i :: k <= i < |es| ==> x < es[i].t)
  {
    if es == [] || es[|es| - 1].t <= x then |es| else CountUpTo(es[..|es| - 1], x)
  }

  lemma {:induction false} SumUpToPrefix(es: seq<Event>, x: real)
    requires SortedByTime(es)
    ensures SumUpTo(es, x) == Active(es, CountUpTo(es, x))
  {
    if es == [] {
    } else if es[|es| - 1].t <= x {
      SumUpToWhole(es, x);
      assert es[..|es|] == es;
    } else {
      var h := es[..|es| - 1];
      SumUpToPrefix(h, x);
      assert es[..CountUpTo(h, x)] == h[..CountUpTo(h, x)];
    }
  }

  lemma {:induction false} SumUpToWhole(es: seq<Event>, x: real)
    requires forall i :: 0 <= i < |es| ==> es[i].t <= x
    ensures SumUpTo(es, x) == Sum(es)
  {
    if es != [] { SumUpToWhole(es[..|es| - 1], x); }
  }

  /** The number of running units at an instant is the sweep's count after the events up to it. */
  lemma RunningIsActive(units: seq<BuildUnit>, x: real)
    requires ValidUnits(units)
    ensures var es := StableSort(Events(units));
            SortedByTime(es) && Running(units, x) == Active(es, CountUpTo(es, x))
  {
    var es := StableSort(Events(units));
    SortSorts(Events(units));
    SumUpToIsRunning(units, x);
    SumUpToPrefix(es, x);
  }

  /** `e` is the start or the end of one of the units. */
  ghost predicate EventOf(units: seq<BuildUnit>, e: Event) {
    exists l :: 0 <= l < |units| && (e == Event(units[l].start, 1) || e == Event(units[l].End(), -1))
  }

  lemma EventOfPrefix(units: seq<BuildUnit>, e: Event)
    requires units != [] && EventOf(units[..|units| - 1], e)
    ensures EventOf(units, e)
  {
    var h := units[..|units| - 1];
    var l :| 0 <= l < |h| && (e == Event(h[l].start, 1) || e == Event(h[l].End(), -1));
    assert units[l] == h[l];
  }

  lemma {:induction false} EventsOfUnits(units: seq<BuildUnit>, k: nat)
    requires k < |StableSort(Events(units))|
    ensures EventOf(units, StableSort(Events(units))[k])
  {
    var h, u := units[..|units| - 1], units[|units| - 1];
    var s := StableSort(Events(h));
    var a, b := Event(u.start, 1), Event(u.End(), -1);
    var s' := StableInsert(s, a);
    SortUnit(units);
    InsertAt(s', b, k);
    if k != InsertPos(s', b) {
      var k' := if k < InsertPos(s', b) then k else k - 1;
      InsertAt(s, a, k');
      if k' != InsertPos(s, a) {
        var k'' := if k' < InsertPos(s, a) then k' else k' - 1;
        EventsOfUnits(h, k'');
        EventOfPrefix(units, s[k'']);
      }
    }
  }

  /** Every event lies in the build. */
  lemma EventInBuild(units: seq<BuildUnit>, e: Event)
    requires ValidUnits(units) && EventOf(units, e)
    ensures 0.0 <= e.t <= LastEnd(units)
  {
    LastEndIsMax(units);
  }

  lemma {:induction false} LastEndIsMax(units: seq<BuildUnit>)
    ensures forall k :: 0 <= k < |units| ==> units[k].start + units[k].duration <= LastEnd(units)
    ensures units != [] ==> exists k :: 0 <= k < |units| && units[k].start + units[k].duration == LastEnd(units)
    ensures units == [] ==> LastEnd(units) == 0.0
  {
    if units != [] {
      LastEndIsMax(units[..|units| - 1]);
      assert units[|units| - 1].End() == LastEnd(units) || LastEnd(units) == LastEnd(units[..|units| - 1]);
    }
  }

  function LastTime(es: seq<Event>): real {
    if es == [] then 0.0 else es[|es| - 1].t
  }

  /** A time-sorted sequence is determined by the order it gives each instant's events, so
      `StableSort` is what any stable sort returns. */
  lemma {:induction false} StableSortUnique(a: seq<Event>, b: seq<Event>)
    requires SortedByTime(a) && SortedByTime(b)
    requires forall t :: At(a, t) == At(b, t)
    ensures a == b
  {
    if a == [] || b == [] {
      assert At(a, LastTime(a)) == At(b, LastTime(a));
      assert At(a, LastTime(b)) == At(b, LastTime(b));
    } else {
      var t := a[|a| - 1].t;
      assert At(a, t) == At(b, t);
      LaterHasNone(b, t);
      var u := b[|b| - 1].t;
      assert At(a, u) == At(b, u);
      LaterHasNone(a, u);
      assert a[|a| - 1] == At(a, t)[|At(a, t)| - 1] == b[|b| - 1];
      var a', b' := a[..|a| - 1], b[..|b| - 1];
      forall v: real ensures At(a', v) == At(b', v) {
        assert At(a, v) == At(b, v);
        if v == t {
          assert At(a, v)[..|At(a, v)| - 1] == At(a', v);
          assert At(b, v)[..|At(b, v)| - 1] == At(b', v);
        } else {
          assert At(a', v) + [] == At(a', v) && At(b', v) + [] == At(b', v);
        }
      }
      StableSortUnique(a', b');
      assert a == a' + [a[|a| - 1]];
    }
  }

  lemma {:induction false} LaterHasNone(es: seq<Event>, t: real)
    requires SortedByTime(es)
    ensures es != [] && es[|es| - 1].t < t ==> At(es, t) == []
    ensures es == [] ==> At(es, t) == []
  {
    if es != [] && es[|es| - 1].t < t {
      LaterHasNone(es[..|es| - 1], t);
    }
  }

  // ---------------------------------------------------------------- the sweep

  /** Counts `a` to `b` inclusive form one uninterrupted low run of the sweep. */
  datatype Span = Span(a: nat, b: nat)

  ghost predicate LowFrom(es: seq<Event>, m: int, a: nat, b: nat)
    requires b <= |es|
  {
    && a <= b
    && (a > 0 ==> Active(es, a - 1) > m)
    && forall j :: a <= j <= b ==> Active(es, j) <= m
  }

  ghost predicate LowRun(es: seq<Event>, m: int, r: Span) {
    && r.b <= |es|
    && LowFrom(es, m, r.a, r.b)
    && (r.b < |es| ==> Active(es, r.b + 1) > m)
  }

  /** `runs` are all the low runs, in order. */
  ghost predicate LowRuns(es: seq<Event>, m: int, runs: seq<Span>) {
    && (forall i :: 0 <= i < |runs| ==> LowRun(es, m, runs[i]))
    && (forall i, j :: 0 <= i < j < |runs| ==> runs[i].b < runs[j].a)
    && (forall j :: 0 <= j <= |es| && Active(es, j) <= m ==> InSomeRun(runs, j))
  }

  ghost predicate InSomeRun(runs: seq<Span>, j: nat) {
    exists i :: 0 <= i < |runs| && runs[i].a <= j <= runs[i].b
  }

  function OpenTime(es: seq<Event>, a: nat): real
    requires a <= |es|
  {
    if a == 0 then 0.0 else es[a - 1].t
  }

  function CloseTime(units: seq<BuildUnit>, es: seq<Event>, b: nat): real {
    if b < |es| then es[b].t else LastEnd(units)
  }

  /** The distinct names of the units that overlap a window; the final window has no upper bound. */
  function NamesIn(units: seq<BuildUnit>, s: real, e: Option<real>): (names: seq<string>) {
    if units == [] then []
    else
      var u := units[|units| - 1];
      var names := NamesIn(units[..|units| - 1], s, e);
      if Overlaps(u, s, e) && u.name !in names then names + [u.name] else names
  }

  predicate Overlaps(u: BuildUnit, s: real, e: Option<real>) {
    u.End() > s && (e.Some? ==> u.start < e.value)
  }

  /** The names of exactly the overlapping units, each once. */
  lemma {:induction false} NamesInMeaning(units: seq<BuildUnit>, s: real, e: Option<real>)
    ensures forall i, j :: 0 <= i < j < |NamesIn(units, s, e)| ==> NamesIn(units, s, e)[i] != NamesIn(units, s, e)[j]
    ensures forall n :: n in NamesIn(units, s, e) <==>
                        exists k :: 0 <= k < |units| && units[k].name == n && Overlaps(units[k], s, e)
  {
    if units != [] {
      var h, u := units[..|units| - 1], units[|units| - 1];
      NamesInMeaning(h, s, e);
      forall n | n in NamesIn(units, s, e)
        ensures exists k :: 0 <= k < |units| && units[k].name == n && Overlaps(units[k], s, e)
      {
        if n in NamesIn(h, s, e) {
          var k :| 0 <= k < |h| && h[k].name == n && Overlaps(h[k], s, e);
          assert units[k] == h[k];
        }
      }
      forall k | 0 <= k < |units| && Overlaps(units[k], s, e) ensures units[k].name in NamesIn(units, s, e) {
        assert k < |h| ==> h[k] == units[k];
      }
    }
  }

  function WindowOf(units: seq<BuildUnit>, es: seq<Event>, r: Span): Window
    requires r.a <= |es|
  {
    var s, e := OpenTime(es, r.a), CloseTime(units, es, r.b);
    Window(s, e, NamesIn(units, s, if r.b < |es| then Some(e) else None))
  }

  function Report(units: seq<BuildUnit>, es: seq<Event>, minDur: real, runs: seq<Span>): seq<Window>
    requires forall i :: 0 <= i < |runs| ==> runs[i].a <= |es|
  {
    if runs == [] then []
    else
      var w := WindowOf(units, es, runs[|runs| - 1]);
      var rest := Report(units, es, minDur, runs[..|runs| - 1]);
      if w.e - w.s > minDur then rest + [w] else rest
  }

  /** The event loop; `runs` and `open` are the ghost record of what it has seen. */
  method Sweep(units: seq<BuildUnit>, es: seq<Event>, maxActive: int, minDur: real)
    returns (out: seq<Window>, since: Option<real>, ghost runs: seq<Span>, ghost open: nat)
    requires forall k :: 0 <= k <= |es| ==> Active(es, k) >= 0
    requires forall k :: 0 <= k < |es| ==> es[k].d == 1 || es[k].d == -1
    ensures maxActive < 0 ==> out == [] && since == Some(0.0)
    ensures es == [] ==> out == []
    ensures maxActive >= 0 ==>
              && (forall i :: 0 <= i < |runs| ==> runs[i].b < |es| && LowRun(es, maxActive, runs[i]))
              && out == Report(units, es, minDur, runs)
              && (Sum(es) <= maxActive ==>
                    && open <= |es| && since == Some(OpenTime(es, open))
                    && LowRuns(es, maxActive, runs + [Span(open, |es|)]))
  {
    out, since, runs, open := [], Some(0.0), [], 0;
    var active := 0;
    for k := 0 to |es|
      invariant active == Active(es, k)
      invariant k == 0 ==> out == []
      invariant SweepInv(units, es, maxActive, minDur, out, since, runs, open, k)
    {
      var t := es[k].t;
      var was := active;
      active := active + es[k].d;
      ActiveStep(es, k);
      SweepStep(units, es, maxActive, minDur, out, since, runs, open, k);
      if was > maxActive && active <= maxActive {
        since := Some(t);
        open := k + 1;
      }
      if was <= maxActive && active > maxActive && since.Some? {
        if t - since.value > minDur {
          out := out + [Window(since.value, t, NamesIn(units, since.value, Some(t)))];
        }
        since := None;
        runs := runs + [Span(open, k)];
      }
    }
    assert es[..|es|] == es;
    if maxActive >= 0 && Sum(es) <= maxActive {
      RunsComplete(es, maxActive, runs, open);
    }
  }

  ghost predicate SweepState(es: seq<Event>, m: int, runs: seq<Span>, open: nat, since: Option<real>, k: nat)
    requires k <= |es|
  {
    && (since.Some? <==> Active(es, k) <= m)
    && (since.Some? ==> LowFrom(es, m, open, k) && since.value == OpenTime(es, open))
    && (since.Some? ==> forall i :: 0 <= i < |runs| ==> runs[i].b < open)
    && (forall i :: 0 <= i < |runs| ==> runs[i].b < k && LowRun(es, m, runs[i]))
    && (forall i, j :: 0 <= i < j < |runs| ==> runs[i].b < runs[j].a)
    && (forall j :: 0 <= j <= k && Active(es, j) <= m ==> (since.Some? && open <= j) || InSomeRun(runs, j))
  }

  ghost predicate SweepInv(units: seq<BuildUnit>, es: seq<Event>, m: int, minDur: real, out: seq<Window>,
                           since: Option<real>, runs: seq<Span>, open: nat, k: nat)
    requires k <= |es|
  {
    if m < 0 then out == [] && since == Some(0.0)
    else SweepState(es, m, runs, open, since, k) && out == Report(units, es, minDur, runs)
  }

  lemma SweepStep(units: seq<BuildUnit>, es: seq<Event>, m: int, minDur: real, out: seq<Window>,
                  since: Option<real>, runs: seq<Span>, open: nat, k: nat)
    requires k < |es| && SweepInv(units, es, m, minDur, out, since, runs, open, k)
    requires Active(es, k) >= 0 && Active(es, k + 1) >= 0
    ensures Active(es, k) > m && Active(es, k + 1) <= m ==>
              SweepInv(units, es, m, minDur, out, Some(es[k].t), runs, k + 1, k + 1)
    ensures Active(es, k) <= m && Active(es, k + 1) > m ==>
              && since.Some?
              && var t := es[k].t;
                 var w := Window(since.value, t, NamesIn(units, since.value, Some(t)));
                 SweepInv(units, es, m, minDur, if t - since.value > minDur then out + [w] else out,
                          None, runs + [Span(open, k)], open, k + 1)
    ensures (Active(es, k) <= m <==> Active(es, k + 1) <= m) ==>
              SweepInv(units, es, m, minDur, out, since, runs, open, k + 1)
  {
    if m >= 0 {
      StepState(es, m, runs, open, since, k);
      ReportStep(units, es, minDur, runs, Span(open, k));
    }
  }

  lemma StepState(es: seq<Event>, m: int, runs: seq<Span>, open: nat, since: Option<real>, k: nat)
    requires k < |es| && SweepState(es, m, runs, open, since, k)
    ensures Active(es, k) > m && Active(es, k + 1) <= m ==>
              SweepState(es, m, runs, k + 1, Some(es[k].t), k + 1)
    ensures Active(es, k) <= m && Active(es, k + 1) > m ==>
              SweepState(es, m, runs + [Span(open, k)], open, None, k + 1)
    ensures (Active(es, k) <= m <==> Active(es, k + 1) <= m) ==> SweepState(es, m, runs, open, since, k + 1)
  {
    if Active(es, k) <= m && Active(es, k + 1) > m {
      forall j | 0 <= j <= k + 1 && Active(es, j) <= m ensures InSomeRun(runs + [Span(open, k)], j) {
        InExtendedRuns(runs, open, k, j);
      }
      assert LowRun(es, m, Span(open, k));
    }
  }

  lemma InExtendedRuns(runs: seq<Span>, open: nat, k: nat, j: nat)
    requires InSomeRun(runs, j) || open <= j <= k
    ensures InSomeRun(runs + [Span(open, k)], j)
  {
    var runs' := runs + [Span(open, k)];
    if open <= j <= k {
      assert runs'[|runs|].a <= j <= runs'[|runs|].b;
    } else {
      var i :| 0 <= i < |runs| && runs[i].a <= j <= runs[i].b;
      assert runs'[i] == runs[i];
    }
  }

  lemma ReportStep(units: seq<BuildUnit>, es: seq<Event>, minDur: real, runs: seq<Span>, r: Span)
    requires forall i :: 0 <= i < |runs| ==> runs[i].a <= |es|
    ensures r.a <= |es| ==>
              var w := WindowOf(units, es, r);
              var rest := Report(units, es, minDur, runs);
              Report(units, es, minDur, runs + [r]) == if w.e - w.s > minDur then rest + [w] else rest
  {
    assert (runs + [r])[..|runs|] == runs;
  }

  lemma RunsComplete(es: seq<Event>, m: int, runs: seq<Span>, open: nat)
    requires open <= |es|
    requires SweepState(es, m, runs, open, Some(OpenTime(es, open)), |es|)
    ensures LowRuns(es, m, runs + [Span(open, |es|)])
  {
    forall j | 0 <= j <= |es| && Active(es, j) <= m ensures InSomeRun(runs + [Span(open, |es|)], j) {
      InExtendedRuns(runs, open, |es|, j);
    }
  }

  // ---------------------------------------------------------------- from runs to instants

  /** What the sorted events say about the instants of the build. */
  ghost predicate Timeline(units: seq<BuildUnit>, es: seq<Event>) {
    && SortedByTime(es)
    && (forall x :: Running(units, x) == Active(es, CountUpTo(es, x)))
    && (forall k :: 0 <= k < |es| ==> 0.0 <= es[k].t <= LastEnd(units))
    && LastEnd(units) >= 0.0
  }

  lemma SortedEventsAreTimeline(units: seq<BuildUnit>)
    requires ValidUnits(units)
    ensures Timeline(units, StableSort(Events(units)))
  {
    var es := StableSort(Events(units));
    SortSorts(Events(units));
    forall x: real ensures Running(units, x) == Active(es, CountUpTo(es, x)) { RunningIsActive(units, x); }
    forall k | 0 <= k < |es| ensures 0.0 <= es[k].t <= LastEnd(units) {
      EventsOfUnits(units, k);
      EventInBuild(units, es[k]);
    }
    LastEndIsMax(units);
  }

  /** The events counted at an instant of a run belong to the run, so the run is low there. */
  lemma RunIsLow(units: seq<BuildUnit>, es: seq<Event>, m: int, r: Span, x: real)
    requires Timeline(units, es) && LowRun(es, m, r)
    requires OpenTime(es, r.a) <= x < CloseTime(units, es, r.b)
    ensures Running(units, x) <= m
  {
    var k := CountUpTo(es, x);
    assert r.a == 0 || es[r.a - 1].t <= x;
    assert r.a <= k <= r.b;
    assert Active(es, k) <= m;
  }

  /** At a low instant the sweep is inside a run that is open there. */
  lemma LowInstantHasRun(units: seq<BuildUnit>, es: seq<Event>, m: int, runs: seq<Span>, x: real) returns (i: nat)
    requires Timeline(units, es) && LowRuns(es, m, runs)
    requires 0.0 <= x < LastEnd(units) && Running(units, x) <= m
    ensures i < |runs| && LowRun(es, m, runs[i])
    ensures OpenTime(es, runs[i].a) <= x < CloseTime(units, es, runs[i].b)
  {
    var k := CountUpTo(es, x);
    assert Active(es, k) <= m;
    assert InSomeRun(runs, k);
    i :| 0 <= i < |runs| && runs[i].a <= k <= runs[i].b;
  }

  ghost predicate ReportedRun(units: seq<BuildUnit>, es: seq<Event>, minDur: real, runs: seq<Span>, w: Window) {
    w.e - w.s > minDur && exists i :: 0 <= i < |runs| && runs[i].a <= |es| && w == WindowOf(units, es, runs[i])
  }

  lemma {:induction false} ReportMembers(units: seq<BuildUnit>, es: seq<Event>, minDur: real, runs: seq<Span>)
    requires forall i :: 0 <= i < |runs| ==> runs[i].a <= |es|
    ensures forall w :: w in Report(units, es, minDur, runs) <==> ReportedRun(units, es, minDur, runs, w)
  {
    if runs != [] {
      var h, r := runs[..|runs| - 1], runs[|runs| - 1];
      ReportMembers(units, es, minDur, h);
      forall w ensures ReportedRun(units, es, minDur, runs, w) <==>
          ReportedRun(units, es, minDur, h, w) || (w == WindowOf(units, es, r) && w.e - w.s > minDur)
      {
        if ReportedRun(units, es, minDur, h, w) {
          var i :| 0 <= i < |h| && w == WindowOf(units, es, h[i]);
          assert runs[i] == h[i];
        }
        if ReportedRun(units, es, minDur, runs, w) {
          var i :| 0 <= i < |runs| && w == WindowOf(units, es, runs[i]);
          assert i < |h| ==> h[i] == runs[i];
        }
      }
    }
  }

  ghost predicate Ordered(out: seq<Window>) {
    forall i, j :: 0 <= i < j < |out| ==> out[i].e <= out[j].s
  }

  lemma RunBefore(units: seq<BuildUnit>, es: seq<Event>, q: Span, r: Span)
    requires SortedByTime(es) && q.a <= |es| && r.a <= |es| && q.b < r.a
    ensures WindowOf(units, es, q).e <= OpenTime(es, r.a)
  {
  }

  lemma OrderedPush(out: seq<Window>, w: Window)
    requires Ordered(out) && forall k :: 0 <= k < |out| ==> out[k].e <= w.s
    ensures Ordered(out + [w])
  {
  }

  lemma {:induction false} ReportOrdered(units: seq<BuildUnit>, es: seq<Event>, m: int, minDur: real, runs: seq<Span>)
    requires SortedByTime(es)
    requires forall i :: 0 <= i < |runs| ==> LowRun(es, m, runs[i]) && runs[i].a <= |es|
    requires forall i, j :: 0 <= i < j < |runs| ==> runs[i].b < runs[j].a
    ensures Ordered(Report(units, es, minDur, runs))
  {
    if runs != [] {
      var h, r := runs[..|runs| - 1], runs[|runs| - 1];
      ReportOrdered(units, es, m, minDur, h);
      var out := Report(units, es, minDur, h);
      forall k | 0 <= k < |out| ensures out[k].e <= OpenTime(es, r.a) {
        var i := RunOfWindow(units, es, minDur, h, out[k]);
        RunBefore(units, es, runs[i], r);
      }
      OrderedPush(out, WindowOf(units, es, r));
    }
  }

  // ---------------------------------------------------------------- ties

  /** From a start to the end of its instant, only units start. */
  lemma {:induction false} OnlyStarts(units: seq<BuildUnit>, es: seq<Event>, i: nat, k: nat)
    requires NoTies(units) && SortedByTime(es)
    requires forall k :: 0 <= k < |es| ==> EventOf(units, es[k])
    requires i < k <= |es| && es[i].d == 1 && es[k - 1].t == es[i].t
    ensures Active(es, k) >= Active(es, i + 1)
  {
    if k > i + 1 {
      OnlyStarts(units, es, i, k - 1);
      assert EventOf(units, es[k - 1]) && EventOf(units, es[i]);
      ActiveStep(es, k - 1);
    }
  }

  /** Without ties the events of one instant are all starts or all ends. */
  lemma SameKind(units: seq<BuildUnit>, e: Event, f: Event)
    requires NoTies(units) && EventOf(units, e) && EventOf(units, f) && e.t == f.t
    ensures e.d == f.d
  {
  }

  /** Down to the first event of its instant, an end is preceded only by ends. */
  lemma {:induction false} OnlyEnds(units: seq<BuildUnit>, es: seq<Event>, m: int, s: real, j: nat)
    requires NoTies(units) && Timeline(units, es)
    requires forall k :: 0 <= k < |es| ==> EventOf(units, es[k])
    requires 0 < j <= |es| && s < es[j - 1].t && es[j - 1].d == -1 && LowBefore(units, m, s, es[j - 1].t)
    ensures Active(es, j) <= m
  {
    ActiveStep(es, j - 1);
    var t := es[j - 1].t;
    if j > 1 && es[j - 2].t == t {
      SameKind(units, es[j - 1], es[j - 2]);
      assert LowBefore(units, m, s, es[j - 2].t);
      OnlyEnds(units, es, m, s, j - 1);
    } else {
      CountBefore(units, es, m, s, j);
    }
  }

  ghost predicate LowBefore(units: seq<BuildUnit>, m: int, s: real, t: real) {
    forall x :: s <= x < t ==> Running(units, x) <= m
  }

  /** The count before the first event of an instant is the number running just before it. */
  lemma CountBefore(units: seq<BuildUnit>, es: seq<Event>, m: int, s: real, j: nat)
    requires Timeline(units, es)
    requires 0 < j <= |es| && s < es[j - 1].t && (j > 1 ==> es[j - 2].t < es[j - 1].t)
    requires LowBefore(units, m, s, es[j - 1].t)
    ensures Active(es, j - 1) <= m
  {
    var x := if j > 1 && es[j - 2].t > s then es[j - 2].t else s;
    assert CountUpTo(es, x) == j - 1;
    assert Running(units, x) <= m;
  }

  /** With no tie, the count never peaks inside a low stretch. */
  lemma NoTiesNoPeak(units: seq<BuildUnit>, es: seq<Event>, m: int, minDur: real)
    requires NoTies(units) && Timeline(units, es)
    requires forall k :: 0 <= k < |es| ==> EventOf(units, es[k])
    ensures NoBriefPeak(units, es, m, minDur)
  {
    forall s, e, j | LowStretch(units, m, s, e) && e - s > minDur && 0 < j <= |es| && s < es[j - 1].t < e
      ensures Active(es, j) <= m
    {
      assert EventOf(units, es[j - 1]);
      if es[j - 1].d == 1 {
        StartIsLow(units, es, m, j);
      } else {
        OnlyEnds(units, es, m, s, j);
      }
    }
  }

  lemma StartIsLow(units: seq<BuildUnit>, es: seq<Event>, m: int, j: nat)
    requires NoTies(units) && Timeline(units, es)
    requires forall k :: 0 <= k < |es| ==> EventOf(units, es[k])
    requires 0 < j <= |es| && es[j - 1].d == 1 && Running(units, es[j - 1].t) <= m
    ensures Active(es, j) <= m
  {
    var k := CountUpTo(es, es[j - 1].t);
    assert j <= k && es[k - 1].t == es[j - 1].t;
    OnlyStarts(units, es, j - 1, k);
  }

  // ---------------------------------------------------------------- exactness

  lemma StretchHasWindow(units: seq<BuildUnit>, es: seq<Event>, m: int, minDur: real, runs: seq<Span>, s: real, e: real)
    returns (i: nat)
    requires Timeline(units, es) && LowRuns(es, m, runs) && NoBriefPeak(units, es, m, minDur)
    requires LowStretch(units, m, s, e) && e - s > minDur
    ensures i < |runs| && LowRun(es, m, runs[i])
    ensures OpenTime(es, runs[i].a) <= s && e <= CloseTime(units, es, runs[i].b)
  {
    i := LowInstantHasRun(units, es, m, runs, s);
    var b := runs[i].b;
    if b < |es| {
      // the event that closes the run is not inside the stretch
      assert Active(es, b + 1) > m;
      assert !(s < es[(b + 1) - 1].t < e);
    }
  }

  lemma CoversNoPeak(units: seq<BuildUnit>, es: seq<Event>, m: int, minDur: real, runs: seq<Span>)
    requires Timeline(units, es) && LowRuns(es, m, runs)
    requires Covers(units, m, minDur, Report(units, es, minDur, runs))
    ensures NoBriefPeak(units, es, m, minDur)
  {
    var out := Report(units, es, minDur, runs);
    forall s, e, j | LowStretch(units, m, s, e) && e - s > minDur && 0 < j <= |es| && s < es[j - 1].t < e
      ensures Active(es, j) <= m
    {
      var k :| 0 <= k < |out| && out[k].s <= s && e <= out[k].e;
      var i := RunOfWindow(units, es, minDur, runs, out[k]);
      LowInsideRun(units, es, m, runs[i], j);
    }
  }

  lemma LowInsideRun(units: seq<BuildUnit>, es: seq<Event>, m: int, r: Span, j: nat)
    requires SortedByTime(es) && LowRun(es, m, r)
    requires 0 < j <= |es| && OpenTime(es, r.a) < es[j - 1].t < CloseTime(units, es, r.b)
    ensures Active(es, j) <= m
  {
    assert r.a < j <= r.b || (r.a == 0 && j <= r.b);
  }

  lemma RunOfWindow(units: seq<BuildUnit>, es: seq<Event>, minDur: real, runs: seq<Span>, w: Window) returns (i: nat)
    requires forall i :: 0 <= i < |runs| ==> runs[i].a <= |es|
    requires w in Report(units, es, minDur, runs)
    ensures i < |runs| && w == WindowOf(units, es, runs[i]) && w.e - w.s > minDur
  {
    ReportMembers(units, es, minDur, runs);
    i :| 0 <= i < |runs| && runs[i].a <= |es| && w == WindowOf(units, es, runs[i]);
  }

  lemma WindowOfRun(units: seq<BuildUnit>, es: seq<Event>, minDur: real, runs: seq<Span>, i: nat) returns (k: nat)
    requires forall i :: 0 <= i < |runs| ==> runs[i].a <= |es|
    requires i < |runs| && CloseTime(units, es, runs[i].b) - OpenTime(es, runs[i].a) > minDur
    ensures var out := Report(units, es, minDur, runs);
            k < |out| && out[k].s == OpenTime(es, runs[i].a) && out[k].e == CloseTime(units, es, runs[i].b)
  {
    ReportMembers(units, es, minDur, runs);
    var w := WindowOf(units, es, runs[i]);
    assert ReportedRun(units, es, minDur, runs, w);
    var out := Report(units, es, minDur, runs);
    k :| 0 <= k < |out| && out[k] == w;
  }

  /** Every long low stretch is inside one report if and only if no brief peak splits one. */
  lemma CoversIffNoPeak(units: seq<BuildUnit>, es: seq<Event>, m: int, minDur: real, runs: seq<Span>)
    requires Timeline(units, es) && LowRuns(es, m, runs)
    ensures Covers(units, m, minDur, Report(units, es, minDur, runs)) <==> NoBriefPeak(units, es, m, minDur)
  {
    var out := Report(units, es, minDur, runs);
    if Covers(units, m, minDur, out) {
      CoversNoPeak(units, es, m, minDur, runs);
    } else if NoBriefPeak(units, es, m, minDur) {
      forall s, e | LowStretch(units, m, s, e) && e - s > minDur
        ensures exists k :: 0 <= k < |out| && out[k].s <= s && e <= out[k].e
      {
        var i := StretchHasWindow(units, es, m, minDur, runs, s, e);
        var k := WindowOfRun(units, es, minDur, runs, i);
      }
    }
  }

  /** Without brief peaks, no count reached inside a long low stretch is high, before an event or after it. */
  lemma LowAroundEvent(units: seq<BuildUnit>, es: seq<Event>, m: int, minDur: real, s: real, e: real, j: nat)
    requires Timeline(units, es) && NoBriefPeak(units, es, m, minDur)
    requires LowStretch(units, m, s, e) && e - s > minDur
    requires 0 < j <= |es| && s < es[j - 1].t < e
    ensures Active(es, j - 1) <= m && Active(es, j) <= m
  {
    if j > 1 && es[j - 2].t == es[j - 1].t {
      assert s < es[(j - 1) - 1].t < e;
    } else {
      CountBefore(units, es, m, s, j);
    }
  }

  /** Without brief peaks a reported stretch cannot be extended. */
  lemma ReportedIsMaximal(units: seq<BuildUnit>, es: seq<Event>, m: int, minDur: real, r: Span)
    requires Timeline(units, es) && NoBriefPeak(units, es, m, minDur) && LowRun(es, m, r)
    requires OpenTime(es, r.a) < CloseTime(units, es, r.b) && CloseTime(units, es, r.b) - OpenTime(es, r.a) > minDur
    ensures MaximalLowStretch(units, m, OpenTime(es, r.a), CloseTime(units, es, r.b))
  {
    var s, e := OpenTime(es, r.a), CloseTime(units, es, r.b);
    forall x | s <= x < e ensures Running(units, x) <= m { RunIsLow(units, es, m, r, x); }
    forall s', e' | s' <= s && e <= e' && LowStretch(units, m, s', e') ensures s' == s && e' == e {
      var next := r.b + 1;
      assert r.b < |es| ==> Active(es, next) > m && es[next - 1].t == e;
      if r.a > 0 && s' < s < e' { LowAroundEvent(units, es, m, minDur, s', e', r.a); }
    }
  }

  ghost predicate Reports(out: seq<Window>, s: real, e: real) {
    exists k :: 0 <= k < |out| && out[k].s == s && out[k].e == e
  }

  /** Without brief peaks the reports are exactly the maximal stretches longer than `minDur`. */
  lemma ReportsExactly(units: seq<BuildUnit>, es: seq<Event>, m: int, minDur: real, runs: seq<Span>, s: real, e: real)
    requires Timeline(units, es) && LowRuns(es, m, runs) && NoBriefPeak(units, es, m, minDur)
    requires s < e
    ensures Reports(Report(units, es, minDur, runs), s, e) <==> (MaximalLowStretch(units, m, s, e) && e - s > minDur)
  {
    var out := Report(units, es, minDur, runs);
    if Reports(out, s, e) {
      var k :| 0 <= k < |out| && out[k].s == s && out[k].e == e;
      var i := RunOfWindow(units, es, minDur, runs, out[k]);
      ReportedIsMaximal(units, es, m, minDur, runs[i]);
    }
    if MaximalLowStretch(units, m, s, e) && e - s > minDur {
      var i := StretchHasWindow(units, es, m, minDur, runs, s, e);
      ReportedIsMaximal(units, es, m, minDur, runs[i]);
      var k := WindowOfRun(units, es, minDur, runs, i);
    }
  }

  /** Strictly inside [s, e) the sweep's count goes above `m`. */
  ghost predicate PeakIn(es: seq<Event>, m: int, s: real, e: real) {
    exists j: nat :: PeakAt(es, m, s, e, j)
  }

  ghost predicate PeakAt(es: seq<Event>, m: int, s: real, e: real, j: nat) {
    0 < j <= |es| && s < es[j - 1].t < e && Active(es, j) > m
  }

  /** Whatever happens elsewhere, a long maximal stretch is reported if and only if there is no brief peak
      inside it. */
  lemma StretchReportedIff(units: seq<BuildUnit>, es: seq<Event>, m: int, minDur: real, runs: seq<Span>,
                           s: real, e: real)
    requires Timeline(units, es) && LowRuns(es, m, runs)
    requires MaximalLowStretch(units, m, s, e) && e - s > minDur
    ensures Reports(Report(units, es, minDur, runs), s, e) <==> !PeakIn(es, m, s, e)
  {
    var out := Report(units, es, minDur, runs);
    if Reports(out, s, e) {
      var k :| 0 <= k < |out| && out[k].s == s && out[k].e == e;
      var i := RunOfWindow(units, es, minDur, runs, out[k]);
      forall j: nat | 0 < j <= |es| && s < es[j - 1].t < e ensures Active(es, j) <= m {
        LowInsideRun(units, es, m, runs[i], j);
      }
    }
    if !PeakIn(es, m, s, e) { UnpeakedReported(units, es, m, minDur, runs, s, e); }
  }

  lemma UnpeakedReported(units: seq<BuildUnit>, es: seq<Event>, m: int, minDur: real, runs: seq<Span>,
                         s: real, e: real)
    requires Timeline(units, es) && LowRuns(es, m, runs)
    requires MaximalLowStretch(units, m, s, e) && e - s > minDur && !PeakIn(es, m, s, e)
    ensures Reports(Report(units, es, minDur, runs), s, e)
  {
    var i := LowInstantHasRun(units, es, m, runs, s);
    var r := runs[i];
    var from, to := OpenTime(es, r.a), CloseTime(units, es, r.b);
    assert !PeakAt(es, m, s, e, r.b + 1);
    forall x | from <= x < to ensures Running(units, x) <= m { RunIsLow(units, es, m, r, x); }
    assert LowStretch(units, m, from, to);
    var k := WindowOfRun(units, es, minDur, runs, i);
  }

  /** The report of all low runs. */
  ghost predicate IsReport(units: seq<BuildUnit>, es: seq<Event>, m: int, minDur: real, out: seq<Window>) {
    exists runs :: LowRuns(es, m, runs) && out == Report(units, es, minDur, runs)
  }

  lemma SameRun(es: seq<Event>, m: int, q: Span, r: Span, j: nat)
    requires LowRun(es, m, q) && LowRun(es, m, r) && q.a <= j <= q.b && r.a <= j <= r.b
    ensures q == r
  {
    assert q.a == r.a by {
      assert q.a > 0 ==> Active(es, q.a - 1) > m;
      assert r.a > 0 ==> Active(es, r.a - 1) > m;
    }
    assert q.b < |es| ==> Active(es, q.b + 1) > m;
    assert r.b < |es| ==> Active(es, r.b + 1) > m;
  }

  /** A run of one list is in any other, no earlier. */
  lemma {:induction false} FoundLater(es: seq<Event>, m: int, q: seq<Span>, r: seq<Span>, i: nat) returns (k: nat)
    requires LowRuns(es, m, q) && LowRuns(es, m, r) && i < |q|
    ensures i <= k < |r| && r[k] == q[i]
  {
    k := Found(es, m, q[i], r);
    if i > 0 {
      var before := FoundLater(es, m, q, r, i - 1);
      assert LowRun(es, m, q[i - 1]);
      InOrder(r, before, k);
    }
  }

  lemma Found(es: seq<Event>, m: int, q: Span, r: seq<Span>) returns (k: nat)
    requires LowRuns(es, m, r) && LowRun(es, m, q)
    ensures k < |r| && r[k] == q
  {
    assert Active(es, q.a) <= m;
    assert InSomeRun(r, q.a);
    k :| 0 <= k < |r| && r[k].a <= q.a <= r[k].b;
    SameRun(es, m, q, r[k], q.a);
  }

  lemma InOrder(r: seq<Span>, i: nat, j: nat)
    requires i < |r| && j < |r| && r[i].a <= r[i].b < r[j].a <= r[j].b
    requires forall k, l :: 0 <= k < l < |r| ==> r[k].b < r[l].a
    ensures i < j
  {
  }

  lemma SamePlace(es: seq<Event>, m: int, q: seq<Span>, r: seq<Span>, i: nat)
    requires LowRuns(es, m, q) && LowRuns(es, m, r) && i < |q|
    ensures i < |r| && q[i] == r[i]
  {
    var k := FoundLater(es, m, q, r, i);
    var j := FoundLater(es, m, r, q, k);
    assert LowRun(es, m, q[i]);
    assert j == i;
  }

  lemma SameRuns(es: seq<Event>, m: int, q: seq<Span>, r: seq<Span>)
    requires LowRuns(es, m, q) && LowRuns(es, m, r)
    ensures q == r
  {
    forall i: nat | i < |q| ensures i < |r| && q[i] == r[i] { SamePlace(es, m, q, r, i); }
    if |r| > 0 { SamePlace(es, m, r, q, |r| - 1); }
    if |q| > 0 { SamePlace(es, m, q, r, |q| - 1); }
  }

  /** There is only one report. */
  lemma OneReport(units: seq<BuildUnit>, es: seq<Event>, m: int, minDur: real, a: seq<Window>, b: seq<Window>)
    requires IsReport(units, es, m, minDur, a) && IsReport(units, es, m, minDur, b)
    ensures a == b
  {
    var q :| LowRuns(es, m, q) && a == Report(units, es, minDur, q);
    var r :| LowRuns(es, m, r) && b == Report(units, es, minDur, r);
    SameRuns(es, m, q, r);
  }

  // ---------------------------------------------------------------- the operation

  /** All that is promised of the windows reported for a non-negative `maxActive`; `es` are the
      sorted events. */
  ghost predicate Correct(units: seq<BuildUnit>, es: seq<Event>, m: int, minDur: real, out: seq<Window>) {
    && (forall k, x :: 0 <= k < |out| && out[k].s <= x < out[k].e ==> Running(units, x) <= m)
    && (Covers(units, m, minDur, out) <==> NoBriefPeak(units, es, m, minDur))
    && (NoBriefPeak(units, es, m, minDur) ==>
          forall s, e :: s < e ==>
            (Reports(out, s, e) <==> (MaximalLowStretch(units, m, s, e) && e - s > minDur)))
    && (forall s, e :: MaximalLowStretch(units, m, s, e) && e - s > minDur ==>
          (Reports(out, s, e) <==> !PeakIn(es, m, s, e)))
    && (NoTies(units) ==> NoBriefPeak(units, es, m, minDur))
  }

  lemma ReportIsCorrect(units: seq<BuildUnit>, es: seq<Event>, m: int, minDur: real, runs: seq<Span>)
    requires Timeline(units, es) && LowRuns(es, m, runs)
    requires forall k :: 0 <= k < |es| ==> EventOf(units, es[k])
    ensures Correct(units, es, m, minDur, Report(units, es, minDur, runs))
  {
    var out := Report(units, es, minDur, runs);
    CoversIffNoPeak(units, es, m, minDur, runs);
    forall k, x | 0 <= k < |out| && out[k].s <= x < out[k].e ensures Running(units, x) <= m {
      var i := RunOfWindow(units, es, minDur, runs, out[k]);
      RunIsLow(units, es, m, runs[i], x);
    }
    if NoBriefPeak(units, es, m, minDur) {
      forall s, e | s < e ensures Reports(out, s, e) <==> (MaximalLowStretch(units, m, s, e) && e - s > minDur) {
        ReportsExactly(units, es, m, minDur, runs, s, e);
      }
    }
    forall s, e | MaximalLowStretch(units, m, s, e) && e - s > minDur
      ensures Reports(out, s, e) <==> !PeakIn(es, m, s, e)
    {
      StretchReportedIff(units, es, m, minDur, runs, s, e);
    }
    if NoTies(units) {
      NoTiesNoPeak(units, es, m, minDur);
    }
  }

  /** Each window is longer than `minDur` and lists the units that overlap it. */
  ghost predicate Named(units: seq<BuildUnit>, minDur: real, out: seq<Window>) {
    forall k :: 0 <= k < |out| ==>
      && out[k].e - out[k].s > minDur
      && (|| out[k].names == NamesIn(units, out[k].s, Some(out[k].e))
          || (k == |out| - 1 && out[k].e == LastEnd(units) && out[k].names == NamesIn(units, out[k].s, None)))
  }

  lemma {:induction false} ReportNames(units: seq<BuildUnit>, es: seq<Event>, minDur: real, runs: seq<Span>)
    requires forall i :: 0 <= i < |runs| ==> runs[i].a <= |es| && runs[i].b < |es|
    ensures forall w :: w in Report(units, es, minDur, runs) ==>
              w.e - w.s > minDur && w.names == NamesIn(units, w.s, Some(w.e))
  {
    if runs != [] { ReportNames(units, es, minDur, runs[..|runs| - 1]); }
  }

  // ---------------------------------------------------------------- who is in a window

  ghost predicate RunsAt(u: BuildUnit, x: real) {
    u.start <= x < u.start + u.duration
  }

  /** Unit `u` runs at some instant of the window; a unit that takes no time lies inside it, at its end only if
      `final`. A window without instants, which only a negative `minDur` lets through, shows what runs across it. */
  ghost predicate Present(u: BuildUnit, s: real, e: real, final: bool) {
    if u.duration <= 0.0 then s < u.start && (u.start < e || (final && u.start == e))
    else if s < e then exists x: real :: s <= x < e && RunsAt(u, x)
    else u.start < s < u.start + u.duration
  }

  /** A window that ends with the build is closed by its end, not by a count that rises above `m` there. */
  ghost predicate ClosedByEnd(units: seq<BuildUnit>, es: seq<Event>, m: int, e: real) {
    e == LastEnd(units) && (m < 0 || forall j :: 0 < j <= |es| && es[j - 1].t == e ==> Active(es, j) <= m)
  }

  /** `names` are those of the units present, in the order in which the first of each name is listed. */
  ghost predicate NamesOfPresent(units: seq<BuildUnit>, w: Window, final: bool) {
    && (forall n :: n in w.names <==>
          exists j :: 0 <= j < |units| && units[j].name == n && Present(units[j], w.s, w.e, final))
    && exists from: seq<nat> :: FirstListed(units, w.names, from, w.s, w.e, final)
  }

  ghost predicate FirstListed(units: seq<BuildUnit>, names: seq<string>, from: seq<nat>, s: real, e: real,
                              final: bool)
  {
    && |from| == |names|
    && (forall i, j :: 0 <= i < j < |from| ==> from[i] < from[j])
    && (forall i :: 0 <= i < |from| ==>
          && from[i] < |units| && units[from[i]].name == names[i] && Present(units[from[i]], s, e, final)
          && forall j :: 0 <= j < from[i] && units[j].name == names[i] ==> !Present(units[j], s, e, final))
  }

  lemma OverlapsIsPresent(units: seq<BuildUnit>, j: nat, s: real, e: real, final: bool, bound: Option<real>)
    requires ValidUnits(units) && j < |units| && s <= e
    requires bound == Some(e) || (bound == None && e == LastEnd(units))
    requires s < e ==> (final <==> bound == None)
    ensures Overlaps(units[j], s, bound) <==> Present(units[j], s, e, final)
  {
    LastEndIsMax(units);
    var u := units[j];
    if u.duration > 0.0 && s < e && Overlaps(u, s, bound) {
      var x := if s < u.start then u.start else s;
      assert s <= x < e && RunsAt(u, x);
    }
  }

  lemma {:induction false} NamesInFirst(units: seq<BuildUnit>, k: nat, s: real, e: real, final: bool,
                                        bound: Option<real>)
    returns (from: seq<nat>)
    requires ValidUnits(units) && k <= |units| && s <= e
    requires bound == Some(e) || (bound == None && e == LastEnd(units))
    requires s < e ==> (final <==> bound == None)
    ensures FirstListed(units, NamesIn(units[..k], s, bound), from, s, e, final)
    ensures forall i :: 0 <= i < |from| ==> from[i] < k
  {
    if k == 0 {
      from := [];
    } else {
      from := NamesInFirst(units, k - 1, s, e, final, bound);
      assert units[..k][..k - 1] == units[..k - 1];
      OverlapsIsPresent(units, k - 1, s, e, final, bound);
      var u, names := units[k - 1], NamesIn(units[..k - 1], s, bound);
      if Overlaps(u, s, bound) && u.name !in names {
        forall j | 0 <= j < k - 1 && units[j].name == u.name ensures !Present(units[j], s, e, final) {
          NamesInMeaning(units[..k - 1], s, bound);
          OverlapsIsPresent(units, j, s, e, final, bound);
          assert units[..k - 1][j] == units[j];
        }
        from := from + [k - 1];
      }
    }
  }

  lemma WindowNames(units: seq<BuildUnit>, w: Window, final: bool, bound: Option<real>)
    requires ValidUnits(units) && w.s <= w.e && w.names == NamesIn(units, w.s, bound)
    requires bound == Some(w.e) || (bound == None && w.e == LastEnd(units))
    requires w.s < w.e ==> (final <==> bound == None)
    ensures NamesOfPresent(units, w, final)
  {
    NamesInMeaning(units, w.s, bound);
    forall j: nat | j < |units| ensures Overlaps(units[j], w.s, bound) <==> Present(units[j], w.s, w.e, final) {
      OverlapsIsPresent(units, j, w.s, w.e, final, bound);
    }
    var from := NamesInFirst(units, |units|, w.s, w.e, final, bound);
    assert units[..|units|] == units;
  }

  lemma RunNames(units: seq<BuildUnit>, es: seq<Event>, m: int, r: Span)
    requires ValidUnits(units) && Timeline(units, es) && LowRun(es, m, r) && m >= 0
    ensures var w := WindowOf(units, es, r); NamesOfPresent(units, w, ClosedByEnd(units, es, m, w.e))
  {
    var w := WindowOf(units, es, r);
    if r.b < |es| {
      assert Active(es, r.b + 1) > m && es[r.b + 1 - 1].t == w.e;
    } else if w.s < w.e {
      forall j | 0 < j <= |es| && es[j - 1].t == w.e ensures Active(es, j) <= m {
        assert r.a == 0 || r.a - 1 < j - 1;
      }
    }
    WindowNames(units, w, ClosedByEnd(units, es, m, w.e), if r.b < |es| then Some(w.e) else None);
  }

  ghost predicate AllNamed(units: seq<BuildUnit>, es: seq<Event>, m: int, out: seq<Window>) {
    forall k :: 0 <= k < |out| ==> NamesOfPresent(units, out[k], ClosedByEnd(units, es, m, out[k].e))
  }

  lemma AllNames(units: seq<BuildUnit>, es: seq<Event>, m: int, minDur: real, out: seq<Window>)
    requires ValidUnits(units) && Timeline(units, es)
    requires m >= 0 ==> if units == [] then out == [] else IsReport(units, es, m, minDur, out)
    requires m < 0 ==> out == [] || out == [Window(0.0, LastEnd(units), NamesIn(units, 0.0, None))]
    ensures AllNamed(units, es, m, out)
  {
    if out != [] {
      if m >= 0 { ReportNamed(units, es, m, minDur, out); } else { WindowNames(units, out[0], true, None); }
    }
  }

  lemma ReportNamed(units: seq<BuildUnit>, es: seq<Event>, m: int, minDur: real, out: seq<Window>)
    requires ValidUnits(units) && Timeline(units, es) && m >= 0 && IsReport(units, es, m, minDur, out)
    ensures AllNamed(units, es, m, out)
  {
    var runs :| LowRuns(es, m, runs) && out == Report(units, es, minDur, runs);
    forall k | 0 <= k < |out| ensures NamesOfPresent(units, out[k], ClosedByEnd(units, es, m, out[k].e)) {
      var i := RunOfWindow(units, es, minDur, runs, out[k]);
      RunNames(units, es, m, runs[i]);
    }
  }

  /** A negative `maxActive` is never crossed, so the window opened at 0 is never closed. */
  method SerialWindows(units: seq<BuildUnit>, maxActive: int, minDur: real) returns (out: seq<Window>)
    requires ValidUnits(units)
    ensures Ordered(out)
    ensures maxActive >= 0 ==> Correct(units, StableSort(Events(units)), maxActive, minDur, out)
    ensures maxActive >= 0 ==>
              if units == [] then out == [] else IsReport(units, StableSort(Events(units)), maxActive, minDur, out)
    ensures Named(units, minDur, out)
    ensures maxActive < 0 ==>
              out == if units == [] || LastEnd(units) <= minDur then []
                     else [Window(0.0, LastEnd(units), NamesIn(units, 0.0, None))]
    ensures AllNamed(units, StableSort(Events(units)), maxActive, out)
  {
    var events := CollectEvents(units);
    var es := StableSort(events);
    EventsAreFit(units);
    out := SweepAll(units, es, maxActive, minDur);
    AllNames(units, es, maxActive, minDur, out);
  }

  /** The start and the end of every unit, in the order of listing. */
  method CollectEvents(units: seq<BuildUnit>) returns (events: seq<Event>)
    ensures events == Events(units)
    ensures |events| == 2 * |units|
    ensures forall k :: 0 <= k < |units| ==>
              && events[2 * k] == Event(units[k].start, 1)
              && events[2 * k + 1] == Event(units[k].start + units[k].duration, -1)
  {
    events := [];
    for k := 0 to |units|
      invariant events == Events(units[..k]) && |events| == 2 * k
      invariant forall i :: 0 <= i < k ==>
                  && events[2 * i] == Event(units[i].start, 1)
                  && events[2 * i + 1] == Event(units[i].start + units[i].duration, -1)
    {
      assert units[..k + 1][..k] == units[..k];
      events := events + [Event(units[k].start, 1)];
      events := events + [Event(units[k].End(), -1)];
    }
    assert units[..|units|] == units;
  }

  lemma EventsAreFit(units: seq<BuildUnit>)
    requires ValidUnits(units)
    ensures var es := StableSort(Events(units));
            && Timeline(units, es) && Sum(es) == 0 && (units == [] <==> es == [])
            && (forall k :: 0 <= k <= |es| ==> Active(es, k) >= 0)
            && (forall k :: 0 <= k < |es| ==> EventOf(units, es[k]))
  {
    var es := StableSort(Events(units));
    SortedEventsAreTimeline(units);
    forall k | 0 <= k <= |es| ensures Active(es, k) >= 0 { ActiveNonNegative(units, k); }
    forall k | 0 <= k < |es| ensures EventOf(units, es[k]) { EventsOfUnits(units, k); }
    ActiveEndsAtZero(units);
  }

  /** The windows with that of the run which is still open at the end. */
  function WithLast(units: seq<BuildUnit>, es: seq<Event>, minDur: real, rest: seq<Window>, open: nat): seq<Window>
    requires open <= |es|
  {
    var w := WindowOf(units, es, Span(open, |es|));
    if w.e - w.s > minDur then rest + [w] else rest
  }

  lemma FinalNamed(units: seq<BuildUnit>, es: seq<Event>, minDur: real, runs: seq<Span>, open: nat)
    requires forall i :: 0 <= i < |runs| ==> runs[i].a <= |es| && runs[i].b < |es|
    requires open <= |es|
    ensures Named(units, minDur, WithLast(units, es, minDur, Report(units, es, minDur, runs), open))
  {
    ReportNames(units, es, minDur, runs);
  }

  /** Closing the run that is still open at the end. */
  lemma FinalReport(units: seq<BuildUnit>, es: seq<Event>, m: int, minDur: real, runs: seq<Span>, open: nat)
    requires Timeline(units, es)
    requires forall k :: 0 <= k < |es| ==> EventOf(units, es[k])
    requires forall i :: 0 <= i < |runs| ==> runs[i].a <= |es| && runs[i].b < |es|
    requires open <= |es| && LowRuns(es, m, runs + [Span(open, |es|)])
    ensures var out := WithLast(units, es, minDur, Report(units, es, minDur, runs), open);
            && Correct(units, es, m, minDur, out) && Ordered(out) && Named(units, minDur, out)
            && IsReport(units, es, m, minDur, out)
  {
    ReportStep(units, es, minDur, runs, Span(open, |es|));
    AllReported(units, es, m, minDur, runs + [Span(open, |es|)]);
    FinalNamed(units, es, minDur, runs, open);
  }

  lemma AllReported(units: seq<BuildUnit>, es: seq<Event>, m: int, minDur: real, all: seq<Span>)
    requires Timeline(units, es) && LowRuns(es, m, all)
    requires forall k :: 0 <= k < |es| ==> EventOf(units, es[k])
    ensures var out := Report(units, es, minDur, all);
            Correct(units, es, m, minDur, out) && Ordered(out) && IsReport(units, es, m, minDur, out)
  {
    ReportIsCorrect(units, es, m, minDur, all);
    ReportOrdered(units, es, m, minDur, all);
  }

  /** Nothing built, nothing to report. */
  lemma NothingBuilt(m: int, minDur: real)
    ensures Correct([], [], m, minDur, [])
  {
  }

  method SweepAll(units: seq<BuildUnit>, es: seq<Event>, maxActive: int, minDur: real) returns (out: seq<Window>)
    requires Timeline(units, es) && Sum(es) == 0
    requires units == [] <==> es == []
    requires forall k :: 0 <= k <= |es| ==> Active(es, k) >= 0
    requires forall k :: 0 <= k < |es| ==> EventOf(units, es[k])
    ensures Ordered(out)
    ensures maxActive >= 0 ==> Correct(units, es, maxActive, minDur, out)
    ensures maxActive >= 0 ==> if units == [] then out == [] else IsReport(units, es, maxActive, minDur, out)
    ensures Named(units, minDur, out)
    ensures maxActive < 0 ==>
              out == if units == [] || LastEnd(units) <= minDur then []
                     else [Window(0.0, LastEnd(units), NamesIn(units, 0.0, None))]
  {
    var since; ghost var runs, open;
    out, since, runs, open := Sweep(units, es, maxActive, minDur);
    ghost var swept := out;
    if since.Some? && units != [] {
      var end := LastEnd(units);
      if end - since.value > minDur {
        out := out + [Window(since.value, end, NamesIn(units, since.value, None))];
      }
    }
    if units == [] {
      NothingBuilt(maxActive, minDur);
    } else if maxActive >= 0 {
      assert out == WithLast(units, es, minDur, swept, open);
      FinalReport(units, es, maxActive, minDur, runs, open);
    }
  }

  // ---------------------------------------------------------------- a tie that splits a stretch

  /** Listed first, `late` starts at the instant at which `early` ends. */
  function Handover(early: BuildUnit, late: BuildUnit): seq<BuildUnit> {
    [late, early]
  }

  lemma HandoverEvents(early: BuildUnit, late: BuildUnit)
    requires 0.0 <= early.start < early.End() == late.start < late.End()
    ensures StableSort(Events(Handover(early, late)))
         == [Event(early.start, 1), Event(late.start, 1), Event(late.start, -1), Event(late.End(), -1)]
  {
    var a, b, c, d := Event(late.start, 1), Event(late.End(), -1), Event(early.start, 1), Event(early.End(), -1);
    var units := Handover(early, late);
    assert units[..1] == [late] && [late][..0] == [];
    assert Events([late]) == [a, b];
    assert Events(units) == Events([late]) + [c, d] == [a, b, c, d];
    SortFour(a, b, c, d);
  }

  lemma SortFour(a: Event, b: Event, c: Event, d: Event)
    requires c.t < a.t == d.t < b.t
    ensures StableSort([a, b, c, d]) == [c, a, d, b]
  {
    assert [a, b, c, d][..3] == [a, b, c] && [a, b, c][..2] == [a, b] && [a, b][..1] == [a] && [a][..0] == [];
    assert StableSort([a]) == [a];
    assert StableSort([a, b]) == [a, b];
    assert StableInsert([a], c) == [c, a];
    assert StableInsert([a, b], c) == [c, a, b];
    assert [c, a, b][..2] == [c, a];
    assert StableInsert([c, a], d) == [c, a, d];
    assert StableInsert([c, a, b], d) == [c, a, d, b];
  }

  /** One unit hands over to the next, so one unit runs all the time, but the sweep counts two at that
      instant: with a bound of one, the stretch is cut in two. */
  lemma TieSplits(early: BuildUnit, late: BuildUnit, minDur: real)
    requires 0.0 <= early.start < early.End() == late.start < late.End()
    requires minDur < late.End() - early.start
    ensures var units := Handover(early, late);
      LowStretch(units, 1, early.start, late.End()) && !NoBriefPeak(units, StableSort(Events(units)), 1, minDur)
  {
    var units := Handover(early, late);
    var es := StableSort(Events(units));
    HandoverEvents(early, late);
    assert units[..1] == [late] && [late][..0] == [];
    assert LastEnd([late]) == late.End();
    forall x: real | early.start <= x < late.End() ensures Running(units, x) <= 1 {
      assert Running([late], x) == if late.start <= x < late.End() then 1 else 0;
    }
    assert es[..2] == [es[0], es[1]] && [es[0], es[1]][..1] == [es[0]] && [es[0]][..0] == [];
    assert Sum([es[0]]) == 1;
    assert Active(es, 2) == 2;
    var j := 2;
    assert LowStretch(units, 1, early.start, late.End()) && early.start < es[j - 1].t < late.End();
    assert Active(es, j) > 1;
  }
}
