/** `criticalPath` of scripts/rust-timings.ts: the chain of last blockers that leads to the
    unit finishing last. */
module CriticalPath {
  import opened Wrappers
  import opened BuildUnits

  /** When a unit unblocks the dependents that only need its metadata: the end of its
      frontend section, or the end of the unit when it has none. */
  function RmetaEnd(u: BuildUnit): real {
    u.start + FrontendEnd(u.sections, u.duration)
  }

  function FrontendEnd(sections: seq<Section>, default: real): real {
    if sections == [] then default
    else if sections[0].name == "frontend" then sections[0].end
    else FrontendEnd(sections[1..], default)
  }

  /** `at` is when the metadata of `u` is there: at the end of its first section called "frontend", counted
      from its start, or at its own end. */
  ghost predicate MetadataAt(u: BuildUnit, at: real) {
    || (exists j :: FirstFrontend(u.sections, j) && at == u.start + u.sections[j].end)
    || ((forall j :: 0 <= j < |u.sections| ==> u.sections[j].name != "frontend") && at == u.start + u.duration)
  }

  ghost predicate FirstFrontend(sections: seq<Section>, j: int) {
    && 0 <= j < |sections| && sections[j].name == "frontend"
    && forall i :: 0 <= i < j ==> sections[i].name != "frontend"
  }

  lemma RmetaEndMeaning(u: BuildUnit)
    ensures MetadataAt(u, RmetaEnd(u)) && forall at :: MetadataAt(u, at) ==> at == RmetaEnd(u)
  {
    FrontendEndMeaning(u.sections, u.duration);
    forall j | FirstFrontend(u.sections, j) ensures FrontendEnd(u.sections, u.duration) == u.sections[j].end {
      FrontendEndIs(u.sections, u.duration, j);
    }
  }

  lemma {:induction false} FrontendEndMeaning(sections: seq<Section>, default: real)
    ensures (exists j :: FirstFrontend(sections, j) && FrontendEnd(sections, default) == sections[j].end)
      || ((forall j :: 0 <= j < |sections| ==> sections[j].name != "frontend")
          && FrontendEnd(sections, default) == default)
  {
    if sections != [] {
      var rest := sections[1..];
      if sections[0].name == "frontend" {
        assert FirstFrontend(sections, 0);
      } else {
        FrontendEndMeaning(rest, default);
        assert forall j :: 0 <= j < |rest| ==> rest[j] == sections[j + 1];
        assert sections == [sections[0]] + rest;
        if exists j :: FirstFrontend(rest, j) && FrontendEnd(rest, default) == rest[j].end {
          var j :| FirstFrontend(rest, j) && FrontendEnd(rest, default) == rest[j].end;
          assert FirstFrontend(sections, j + 1);
        }
      }
    }
  }

  lemma {:induction false} FrontendEndIs(sections: seq<Section>, default: real, j: int)
    requires FirstFrontend(sections, j)
    ensures FrontendEnd(sections, default) == sections[j].end
  {
    if j > 0 {
      assert sections[0].name != "frontend";
      FrontendEndIs(sections[1..], default, j - 1);
    }
  }

  // ---------------------------------------------------------------- specification

  /** A unit that unblocks another one, and when. */
  datatype Blocker = Blocker(u: BuildUnit, at: real)

  /** Cargo's record says that `b.u` unblocks the unit numbered `d` at time `b.at`. */
  ghost predicate Unblocks(units: seq<BuildUnit>, b: Blocker, d: int) {
    && b.u in units
    && ((d in b.u.unblockedUnits && b.at == b.u.End()) || (d in b.u.unblockedRmetaUnits && b.at == RmetaEnd(b.u)))
  }

  /** Unblocked no later than `u` started, give or take the scheduler's jitter. */
  predicate Eligible(b: Blocker, u: BuildUnit) {
    b.at <= u.start + 0.5
  }

  /** `b` is what `u` was last waiting on. */
  ghost predicate LastBlocker(units: seq<BuildUnit>, b: Blocker, u: BuildUnit) {
    && Unblocks(units, b, u.i) && Eligible(b, u)
    && forall b' :: Unblocks(units, b', u.i) && Eligible(b', u) ==> b'.at <= b.at
  }

  ghost predicate Unblocked(units: seq<BuildUnit>, u: BuildUnit) {
    forall b :: Unblocks(units, b, u.i) ==> !Eligible(b, u)
  }

  const MAX_PATH := 81

  /** `path` is a chain of last blockers, complete unless it has the maximal length. */
  ghost predicate BlockerChain(units: seq<BuildUnit>, path: seq<BuildUnit>) {
    && 0 < |path| <= MAX_PATH
    && (forall k :: 0 <= k < |path| - 1 ==> Step(units, path[k], path[k + 1]))
    && (|path| < MAX_PATH ==> Unblocked(units, path[0]))
  }

  ghost predicate Step(units: seq<BuildUnit>, a: BuildUnit, b: BuildUnit) {
    exists at :: LastBlocker(units, Blocker(a, at), b) && Latest(Blockers(units, b.i), b) == Some(Blocker(a, at))
  }

  // ---------------------------------------------------------------- the inverted index

  function Hits(ds: seq<int>, d: int, b: Blocker): seq<Blocker> {
    if ds == [] then []
    else if ds[|ds| - 1] == d then Hits(ds[..|ds| - 1], d, b) + [b]
    else Hits(ds[..|ds| - 1], d, b)
  }

  /** The blockers of unit number `d`, in the order the index lists them. */
  function Blockers(units: seq<BuildUnit>, d: int): seq<Blocker> {
    if units == [] then []
    else
      var u := units[|units| - 1];
      Blockers(units[..|units| - 1], d)
      + Hits(u.unblockedUnits, d, Blocker(u, u.End()))
      + Hits(u.unblockedRmetaUnits, d, Blocker(u, RmetaEnd(u)))
  }

  lemma {:induction false} HitsMeaning(ds: seq<int>, d: int, b: Blocker)
    ensures forall b' :: b' in Hits(ds, d, b) <==> (d in ds && b' == b)
  {
    if ds != [] {
      HitsMeaning(ds[..|ds| - 1], d, b);
      assert ds == ds[..|ds| - 1] + [ds[|ds| - 1]];
    }
  }

  /** The inverted index holds exactly the unblock edges that cargo recorded. */
  lemma {:induction false} BlockersMeaning(units: seq<BuildUnit>, d: int)
    ensures forall b :: b in Blockers(units, d) <==> Unblocks(units, b, d)
  {
    if units != [] {
      var h, u := units[..|units| - 1], units[|units| - 1];
      BlockersMeaning(h, d);
      HitsMeaning(u.unblockedUnits, d, Blocker(u, u.End()));
      HitsMeaning(u.unblockedRmetaUnits, d, Blocker(u, RmetaEnd(u)));
      assert units == h + [u];
    }
  }

  /** The first of the latest eligible blockers: what filtering, a stable descending sort and
      taking element 0 select. */
  function Latest(bs: seq<Blocker>, u: BuildUnit): (r: Option<Blocker>)
    ensures r.None? <==> forall b :: b in bs ==> !Eligible(b, u)
    ensures r.Some? ==> r.value in bs && Eligible(r.value, u)
    ensures r.Some? ==> forall b :: b in bs && Eligible(b, u) ==> b.at <= r.value.at
  {
    if bs == [] then None
    else
      var b, r := bs[|bs| - 1], Latest(bs[..|bs| - 1], u);
      assert bs == bs[..|bs| - 1] + [b];
      if Eligible(b, u) && (r.None? || b.at > r.value.at) then Some(b) else r
  }

  /** Ties go to the blocker listed first. */
  lemma {:induction false} LatestIsFirst(bs: seq<Blocker>, u: BuildUnit, k: nat)
    requires k < |bs| && Eligible(bs[k], u)
    requires forall j :: 0 <= j < |bs| && Eligible(bs[j], u) ==> bs[j].at <= bs[k].at
    requires forall j :: 0 <= j < k && Eligible(bs[j], u) ==> bs[j].at < bs[k].at
    ensures Latest(bs, u) == Some(bs[k])
  {
    var h := bs[..|bs| - 1];
    if k < |h| {
      LatestIsFirst(h, u, k);
    } else {
      assert Latest(h, u).Some? ==> Latest(h, u).value in h;
      assert bs[k] == bs[|bs| - 1];
    }
  }

  type Index = map<int, seq<Blocker>>

  function Get(m: Index, d: int): seq<Blocker> {
    if d in m then m[d] else []
  }

  lemma PushStep(m: Index, r: Index, ds: seq<int>, k: nat, b: Blocker, d: int)
    requires k < |ds|
    requires Get(r, d) == Get(m, d) + Hits(ds[..k], d, b)
    ensures Get(r[ds[k] := Get(r, ds[k]) + [b]], d) == Get(m, d) + Hits(ds[..k + 1], d, b)
  {
    assert ds[..k + 1][..k] == ds[..k];
    assert Get(m, d) + Hits(ds[..k], d, b) + [b] == Get(m, d) + (Hits(ds[..k], d, b) + [b]);
  }

  method Push(m: Index, ds: seq<int>, b: Blocker) returns (r: Index)
    ensures forall d :: Get(r, d) == Get(m, d) + Hits(ds, d, b)
  {
    r := m;
    var k := 0;
    while k < |ds|
      invariant k <= |ds|
      invariant forall d :: Get(r, d) == Get(m, d) + Hits(ds[..k], d, b)
    {
      ghost var old_r := r;
      r := r[ds[k] := Get(r, ds[k]) + [b]];
      forall d: int ensures Get(r, d) == Get(m, d) + Hits(ds[..k + 1], d, b) {
        PushStep(m, old_r, ds, k, b, d);
      }
      k := k + 1;
    }
    assert ds[..k] == ds;
  }

  method WaitsOn(units: seq<BuildUnit>) returns (m: Index)
    ensures forall d :: Get(m, d) == Blockers(units, d)
  {
    m := map[];
    for k := 0 to |units|
      invariant forall d :: Get(m, d) == Blockers(units[..k], d)
    {
      var u := units[k];
      assert units[..k + 1][..k] == units[..k];
      m := Push(m, u.unblockedUnits, Blocker(u, u.End()));
      m := Push(m, u.unblockedRmetaUnits, Blocker(u, RmetaEnd(u)));
    }
    assert units[..|units|] == units;
  }

  // ---------------------------------------------------------------- the walk

  /** The reduction keeps the later of two equally late units. */
  method LastToFinish(units: seq<BuildUnit>) returns (u: BuildUnit, ghost at: nat)
    requires units != []
    ensures at < |units| && units[at] == u
    ensures forall k :: 0 <= k < |units| ==> units[k].End() <= u.End()
    ensures forall k :: at < k < |units| ==> units[k].End() < u.End()
  {
    u, at := units[0], 0;
    for k := 1 to |units|
      invariant at < k && units[at] == u
      invariant forall j :: 0 <= j < k ==> units[j].End() <= u.End()
      invariant forall j :: at < j < k ==> units[j].End() < u.End()
    {
      if !(u.End() > units[k].End()) {
        u, at := units[k], k;
      }
    }
  }

  function Reverse(p: seq<BuildUnit>): (r: seq<BuildUnit>)
    ensures |r| == |p|
    ensures forall k :: 0 <= k < |p| ==> r[k] == p[|p| - 1 - k]
  {
    if p == [] then [] else [p[|p| - 1]] + Reverse(p[..|p| - 1])
  }

  lemma NextIsLastBlocker(units: seq<BuildUnit>, u: BuildUnit)
    ensures var r := Latest(Blockers(units, u.i), u);
            if r.Some? then LastBlocker(units, r.value, u) && Step(units, r.value.u, u) else Unblocked(units, u)
  {
    BlockersMeaning(units, u.i);
    var r := Latest(Blockers(units, u.i), u);
    if r.Some? {
      assert r.value == Blocker(r.value.u, r.value.at);
    }
  }

  /** `path` leads from `last` backwards, blocker by blocker. */
  ghost predicate Walked(units: seq<BuildUnit>, last: BuildUnit, path: seq<BuildUnit>) {
    && 0 < |path| && path[0] == last
    && (forall k :: 0 <= k < |path| ==> path[k] in units)
    && (forall k :: 0 <= k < |path| - 1 ==> Step(units, path[k + 1], path[k]))
  }

  lemma ExtendWalk(units: seq<BuildUnit>, last: BuildUnit, path: seq<BuildUnit>, b: Blocker)
    requires Walked(units, last, path)
    requires LastBlocker(units, b, path[|path| - 1]) && Step(units, b.u, path[|path| - 1])
    ensures Walked(units, last, path + [b.u])
  {
  }

  /** From the last unit backwards; `path` is still in walking order. */
  method Walk(units: seq<BuildUnit>, waitsOn: Index, last: BuildUnit) returns (path: seq<BuildUnit>)
    requires forall d :: Get(waitsOn, d) == Blockers(units, d)
    requires last in units
    ensures |path| <= MAX_PATH && Walked(units, last, path)
    ensures |path| < MAX_PATH ==> Unblocked(units, path[|path| - 1])
  {
    var cur := last;
    path := [cur];
    while true
      invariant |path| <= MAX_PATH && Walked(units, last, path) && path[|path| - 1] == cur
      decreases MAX_PATH - |path|
    {
      var next := Latest(Get(waitsOn, cur.i), cur);
      NextIsLastBlocker(units, cur);
      if next.None? || |path| > 80 { return; }
      ExtendWalk(units, last, path, next.value);
      path := path + [next.value.u];
      cur := next.value.u;
    }
  }

  /** Reducing an empty list throws. */
  method CriticalPath(units: seq<BuildUnit>) returns (r: Option<seq<BuildUnit>>)
    ensures r.None? <==> units == []
    ensures r.Some? ==> BlockerChain(units, r.value) && 0 < |r.value| <= 81
    ensures r.Some? ==> forall k :: 0 <= k < |r.value| - 1 ==> ReleasedLast(units, r.value[k], r.value[k + 1])
    ensures r.Some? && |r.value| < 81 ==>
              forall c, t :: c in units && Releases(c, r.value[0], t) ==> t > r.value[0].start + 0.5
    ensures r.Some? ==> forall k :: 0 <= k < |r.value| ==> r.value[k] in units
    ensures r.Some? ==>
              exists k :: 0 <= k < |units| && units[k] == r.value[|r.value| - 1]
                          && FinishesLast(units, k)
  {
    var waitsOn := WaitsOn(units);
    if units == [] { return None; }
    var cur; ghost var at;
    cur, at := LastToFinish(units);
    var path := Walk(units, waitsOn, cur);
    r := Some(Reverse(path));
    forall k | 0 <= k < |path| - 1 ensures Step(units, r.value[k], r.value[k + 1]) {
      var j := |path| - 2 - k;
      assert Step(units, path[j + 1], path[j]);
    }
    assert units[at] == r.value[|r.value| - 1] && FinishesLast(units, at);
    forall k | 0 <= k < |path| - 1 ensures ReleasedLast(units, r.value[k], r.value[k + 1]) {
      StepMeaning(units, r.value[k], r.value[k + 1]);
    }
    UnblockedMeaning(units, r.value[0]);
  }

  /** Unit `k` ends last, and is the last listed of those that do. */
  ghost predicate FinishesLast(units: seq<BuildUnit>, k: nat) {
    && k < |units|
    && (forall j :: 0 <= j < |units| ==> units[j].start + units[j].duration <= units[k].start + units[k].duration)
    && (forall j :: k < j < |units| ==> units[j].start + units[j].duration < units[k].start + units[k].duration)
  }

  // ---------------------------------------------------------------- in terms of the records

  /** Unit `a` unblocks unit `b` at time `at`, by its record. */
  ghost predicate Releases(a: BuildUnit, b: BuildUnit, at: real) {
    || (b.i in a.unblockedUnits && at == a.start + a.duration)
    || (b.i in a.unblockedRmetaUnits && MetadataAt(a, at))
  }

  /** No unit released `b` later than `a` did, within half a second of its start. */
  ghost predicate ReleasedLast(units: seq<BuildUnit>, a: BuildUnit, b: BuildUnit) {
    exists at :: Releases(a, b, at) && at <= b.start + 0.5 && NoneLater(units, b, at)
  }

  ghost predicate NoneLater(units: seq<BuildUnit>, b: BuildUnit, at: real) {
    forall c, t :: c in units && Releases(c, b, t) && t <= b.start + 0.5 ==> t <= at
  }

  lemma ReleasesIff(units: seq<BuildUnit>, a: BuildUnit, b: BuildUnit, at: real)
    ensures a in units ==> (Unblocks(units, Blocker(a, at), b.i) <==> Releases(a, b, at))
    ensures Eligible(Blocker(a, at), b) <==> at <= b.start + 0.5
  {
    RmetaEndMeaning(a);
  }

  /** Each step of the critical path, and its beginning, by the records alone. */
  lemma StepMeaning(units: seq<BuildUnit>, a: BuildUnit, b: BuildUnit)
    requires Step(units, a, b)
    ensures a in units && ReleasedLast(units, a, b)
  {
    var at :| LastBlocker(units, Blocker(a, at), b);
    ReleasesIff(units, a, b, at);
    forall c, t | c in units && Releases(c, b, t) && t <= b.start + 0.5 ensures t <= at {
      ReleasesIff(units, c, b, t);
      assert Unblocks(units, Blocker(c, t), b.i);
    }
    assert NoneLater(units, b, at);
  }

  lemma UnblockedMeaning(units: seq<BuildUnit>, u: BuildUnit)
    ensures Unblocked(units, u) <==> forall c, t :: c in units && Releases(c, u, t) ==> t > u.start + 0.5
  {
    forall c, t | c in units
      ensures Unblocks(units, Blocker(c, t), u.i) <==> Releases(c, u, t)
      ensures Eligible(Blocker(c, t), u) <==> t <= u.start + 0.5
    {
      ReleasesIff(units, c, u, t);
    }
    if !Unblocked(units, u) {
      var b :| Unblocks(units, b, u.i) && Eligible(b, u);
      assert b == Blocker(b.u, b.at) && Releases(b.u, u, b.at);
    }
    if !(forall c, t :: c in units && Releases(c, u, t) ==> t > u.start + 0.5) {
      var c, t :| c in units && Releases(c, u, t) && t <= u.start + 0.5;
      assert Unblocks(units, Blocker(c, t), u.i);
    }
  }
}
