/** The wrappers of src/runtime.js against InnerModuleEvaluation and Evaluate of section 16.2.1.5 of ECMA-262:
    the standard fails all modules of an unfinished cycle together, the wrappers one by one. */
module EsmStandard {
  import opened Wrappers
  import opened EsmInit

  // ---------------------------------------------------------------- the standard

  /** `dfs` and `anc` are [[DFSIndex]] and [[DFSAncestorIndex]]. */
  datatype Status = Linked | Evaluating(dfs: nat, anc: nat) | Evaluated(error: Option<Error>)

  datatype Std = Std(st: seq<Status>, stack: seq<nat>, index: nat)

  /** Static imports only. */
  ghost predicate Static(p: Program) {
    Closed(p) && forall m, k :: 0 <= m < |p| && 0 <= k < |p[m].body| ==> !p[m].body[k].Attempt?
  }

  ghost function LinkedSet(st: seq<Status>): set<nat> {
    set i | 0 <= i < |st| && st[i].Linked?
  }

  ghost predicate StdOk(p: Program, s: Std) {
    |s.st| == |p| && forall a :: 0 <= a < |s.stack| ==> s.stack[a] < |p|
  }

  function Min(a: nat, b: nat): nat {
    if a < b then a else b
  }

  /** All modules of `stack` are evaluated, with `error` or without one. */
  ghost function Settle(st: seq<Status>, stack: seq<nat>, error: Option<Error>): seq<Status> {
    seq(|st|, i requires 0 <= i < |st| => if i in stack then Evaluated(error) else st[i])
  }

  /** InnerModuleEvaluation. */
  ghost function Inner(p: Program, s: Std, m: nat): (r: (Std, Option<Error>))
    requires Static(p) && StdOk(p, s) && m < |p|
    ensures StdOk(p, r.0) && LinkedSet(r.0.st) <= LinkedSet(s.st) && !r.0.st[m].Linked?
    decreases LinkedSet(s.st), 0
  {
    match s.st[m]
    case Evaluated(error) => (s, error)
    case Evaluating(_, _) => (s, None)
    case Linked =>
      var begun := Std(s.st[m := Evaluating(s.index, s.index)], s.stack + [m], s.index + 1);
      assert m in LinkedSet(s.st) && m !in LinkedSet(begun.st);
      var (t, thrown) := InnerSteps(p, begun, m, 0);
      if thrown.Some? then (t, thrown) else (Finish(t, m, |s.stack|), None)
  }

  /** A module that is the root of its cycle takes the cycle off the stack. */
  ghost function Finish(t: Std, m: nat, at: nat): Std
    requires m < |t.st|
  {
    if t.st[m].Evaluating? && t.st[m].anc == t.st[m].dfs && at <= |t.stack|
    then Std(Settle(t.st, t.stack[at..], None), t.stack[..at], t.index)
    else t
  }

  /** The requested modules in order, and what the body throws. */
  ghost function InnerSteps(p: Program, s: Std, m: nat, k: nat): (r: (Std, Option<Error>))
    requires Static(p) && StdOk(p, s) && m < |p| && k <= |p[m].body| && !s.st[m].Linked?
    ensures StdOk(p, r.0) && LinkedSet(r.0.st) <= LinkedSet(s.st) && !r.0.st[m].Linked?
    decreases LinkedSet(s.st), 1, |p[m].body| - k
  {
    if k == |p[m].body| then (s, None)
    else match p[m].body[k]
      case Throw(e) => (s, Some(e))
      case Attempt(_) => (s, None)
      case Import(t) =>
        var (next, thrown) := Inner(p, s, t);
        assert m !in LinkedSet(s.st);
        if thrown.Some? then (next, thrown) else InnerSteps(p, Lowered(next, m, t), m, k + 1)
  }

  /** The ancestor index of `m` once `t` was requested. */
  ghost function Lowered(s: Std, m: nat, t: nat): Std
    requires m < |s.st| && t < |s.st|
  {
    if s.st[m].Evaluating? && s.st[t].Evaluating?
    then s.(st := s.st[m := Evaluating(s.st[m].dfs, Min(s.st[m].anc, s.st[t].anc))])
    else s
  }

  /** Evaluate: an error is that of all modules on the stack. */
  ghost function EvaluateModule(p: Program, st: seq<Status>, m: nat): (seq<Status>, Option<Error>)
    requires Static(p) && |st| == |p| && m < |p|
  {
    var (s, thrown) := Inner(p, Std(st, [], 0), m);
    (if thrown.Some? then Settle(s.st, s.stack, thrown) else s.st, thrown)
  }

  // ---------------------------------------------------------------- both at once

  /** The wrappers' variables fit the standard's fields, while `thrown` is on its way up. */
  ghost predicate Fits(c: Closure, st: Status, thrown: Option<Error>) {
    match st
    case Linked => c.Pending()
    case Evaluated(None) => c.Done()
    case Evaluated(Some(e)) => c.Failed() && c.err == Some(e)
    case Evaluating(_, _) => c.Running() || c.Done() || (thrown.Some? && c.Failed() && c.err == thrown)
  }

  ghost predicate AllFit(cs: seq<Closure>, st: seq<Status>, thrown: Option<Error>) {
    |cs| == |st| && forall i: nat :: i < |cs| ==> Fits(cs[i], st[i], thrown)
  }

  /** The stack holds the modules under evaluation, in the order of their indices. */
  ghost predicate Stacked(s: Std) {
    && (forall a :: 0 <= a < |s.stack| ==> s.stack[a] < |s.st| && s.st[s.stack[a]].Evaluating?)
    && (forall i: nat :: i < |s.st| && s.st[i].Evaluating? ==> i in s.stack && s.st[i].dfs < s.index)
    && (forall a, b :: 0 <= a < b < |s.stack| ==> s.st[s.stack[a]].dfs < s.st[s.stack[b]].dfs)
  }

  /** The ancestor index of a module is the index of one on the stack that it reaches. */
  ghost predicate Lows(p: Program, s: Std, y: nat) {
    y < |s.st| && s.st[y].Evaluating? ==> exists z: nat :: LowIs(p, s, y, z)
  }

  ghost predicate LowIs(p: Program, s: Std, y: nat, z: nat) {
    && y < |s.st| && s.st[y].Evaluating? && z < |s.st| && s.st[z].Evaluating?
    && s.st[z].dfs == s.st[y].anc <= s.st[y].dfs && Reaches(p, y, z)
  }

  /** What is evaluated without an error requests only such modules. */
  ghost predicate ClosedAt(p: Program, st: seq<Status>, x: nat)
    requires |st| == |p| && x < |p|
  {
    st[x] == Evaluated(None) ==> forall t: nat :: Import(t) in p[x].body ==> t < |p| && st[t] == Evaluated(None)
  }

  ghost predicate AllClosed(p: Program, st: seq<Status>) {
    |st| == |p| && forall x: nat :: x < |p| ==> ClosedAt(p, st, x)
  }

  ghost predicate Tree(p: Program, cs: seq<Closure>, s: Std) {
    |cs| == |s.st| == |p| && Stacked(s) && AllClosed(p, s.st) && AllLow(p, s) && DoneLow(cs, s) && Upward(p, cs, s)
  }

  ghost predicate AllLow(p: Program, s: Std) {
    forall y: nat :: Lows(p, s, y)
  }

  /** What has ended and is still on the stack waits for a module further down. */
  ghost predicate DoneLow(cs: seq<Closure>, s: Std) {
    |cs| == |s.st| && forall y: nat :: y < |s.st| && s.st[y].Evaluating? && cs[y].Done() ==> s.st[y].anc < s.st[y].dfs
  }

  /** What has not ended reaches all that is above it on the stack. */
  ghost predicate Upward(p: Program, cs: seq<Closure>, s: Std) {
    forall a: nat, b: nat :: a <= b < |s.stack| ==> UpwardAt(p, cs, s, a, b)
  }

  ghost predicate UpwardAt(p: Program, cs: seq<Closure>, s: Std, a: nat, b: nat) {
    a < |s.stack| && b < |s.stack| && s.stack[a] < |cs|
      && (!cs[s.stack[a]].Done() ==> Reaches(p, s.stack[a], s.stack[b]))
  }

  // ---------------------------------------------------------------- reaching

  lemma ReachesSelf(p: Program, a: nat)
    ensures Reaches(p, a, a)
  {
    assert IsPath(p, [a]) && [a][0] == a;
  }

  lemma ReachesEdge(p: Program, a: nat, b: nat, c: nat)
    requires Reaches(p, a, b) && Edge(p, b, c)
    ensures Reaches(p, a, c)
  {
    var path :| IsPath(p, path) && path[0] == a && path[|path| - 1] == b;
    var longer := path + [c];
    assert IsPath(p, longer) by {
      forall k | 0 <= k < |longer| - 1 ensures Edge(p, longer[k], longer[k + 1]) {
        if k < |path| - 1 { assert Edge(p, path[k], path[k + 1]); }
      }
    }
    assert longer[0] == a && longer[|longer| - 1] == c;
  }

  lemma {:induction false} PathReaches(p: Program, path: seq<nat>, c: nat)
    requires IsPath(p, path) && Reaches(p, path[|path| - 1], c)
    ensures Reaches(p, path[0], c)
    decreases |path|
  {
    if |path| > 1 {
      var rest := path[1..];
      assert IsPath(p, rest) by {
        forall k | 0 <= k < |rest| - 1
          ensures Edge(p, rest[k], rest[k + 1])
        {
          assert Edge(p, path[k + 1], path[k + 2]);
        }
      }
      PathReaches(p, rest, c);
      assert Edge(p, path[0], path[1]);
      PrependReach(p, path[0], path[1], c);
    }
  }

  lemma ReachesOn(p: Program, a: nat, b: nat, c: nat)
    requires Reaches(p, a, b) && Reaches(p, b, c)
    ensures Reaches(p, a, c)
  {
    var path :| IsPath(p, path) && path[0] == a && path[|path| - 1] == b;
    PathReaches(p, path, c);
  }

  // ---------------------------------------------------------------- entering a module

  /** The first `n` modules of the stack, and what is evaluated, stay as they are. */
  ghost predicate Below(s: Std, t: Std, n: nat) {
    && |s.st| == |t.st| && n <= |s.stack| && n <= |t.stack| && s.index <= t.index
    && (forall a :: 0 <= a < n ==> s.stack[a] == t.stack[a])
    && (forall a :: 0 <= a < n ==> s.stack[a] < |s.st| && t.st[s.stack[a]] == s.st[s.stack[a]])
    && (forall i: nat :: i < |s.st| && s.st[i].Evaluated? ==> t.st[i] == s.st[i])
  }

  ghost function Begun(s: Std, m: nat): Std
    requires m < |s.st|
  {
    Std(s.st[m := Evaluating(s.index, s.index)], s.stack + [m], s.index + 1)
  }

  lemma BeginStacked(s: Std, m: nat)
    requires Stacked(s) && m < |s.st| && s.st[m].Linked?
    ensures Stacked(Begun(s, m)) && Below(s, Begun(s, m), |s.stack|)
  {
    var t := Begun(s, m);
    forall i: nat | i < |t.st| && t.st[i].Evaluating? ensures i in t.stack && t.st[i].dfs < t.index {
      if i == m { assert t.stack[|s.stack|] == m; } else { assert i in s.stack; }
    }
  }

  lemma BeginLows(p: Program, s: Std, m: nat, y: nat)
    requires m < |s.st| && s.st[m].Linked? && Lows(p, s, y)
    ensures Lows(p, Begun(s, m), y)
  {
    var t := Begun(s, m);
    if y == m {
      ReachesSelf(p, m);
      assert LowIs(p, t, m, m);
    } else if y < |t.st| && t.st[y].Evaluating? {
      var z: nat :| LowIs(p, s, y, z);
      assert LowIs(p, t, y, z);
    }
  }

  lemma BeginClosed(p: Program, s: Std, m: nat)
    requires AllClosed(p, s.st) && m < |s.st| && s.st[m].Linked?
    ensures AllClosed(p, Begun(s, m).st)
  {
    forall x: nat | x < |p| ensures ClosedAt(p, Begun(s, m).st, x) { assert ClosedAt(p, s.st, x); }
  }

  lemma BeginTree(p: Program, cs: seq<Closure>, stack: seq<nat>, s: Std, m: nat)
    requires Tree(p, cs, s) && StackOk(p, cs, stack) && AllFit(cs, s.st, None) && m < |p| && s.st[m].Linked?
    requires stack != [] ==> Edge(p, stack[|stack| - 1], m)
    ensures Tree(p, cs[m := cs[m].(fn := false)], Begun(s, m))
  {
    BeginStacked(s, m);
    BeginClosed(p, s, m);
    BeginAllLow(p, s, m);
    BeginDone(cs, s, m);
    BeginUpward(p, cs, stack, s, m);
  }

  lemma BeginAllLow(p: Program, s: Std, m: nat)
    requires AllLow(p, s) && m < |s.st| && s.st[m].Linked?
    ensures AllLow(p, Begun(s, m))
  {
    var t := Begun(s, m);
    forall y: nat ensures Lows(p, t, y) {
      assert Lows(p, s, y);
      BeginLows(p, s, m, y);
    }
  }

  lemma BeginDone(cs: seq<Closure>, s: Std, m: nat)
    requires DoneLow(cs, s) && AllFit(cs, s.st, None) && m < |s.st| && s.st[m].Linked?
    ensures DoneLow(cs[m := cs[m].(fn := false)], Begun(s, m))
  {
    assert Fits(cs[m], s.st[m], None);
  }

  lemma BeginUpward(p: Program, cs: seq<Closure>, stack: seq<nat>, s: Std, m: nat)
    requires Upward(p, cs, s) && Stacked(s) && StackOk(p, cs, stack) && AllFit(cs, s.st, None)
    requires m < |p| && s.st[m].Linked? && (stack != [] ==> Edge(p, stack[|stack| - 1], m))
    ensures Upward(p, cs[m := cs[m].(fn := false)], Begun(s, m))
  {
    var t, ds := Begun(s, m), cs[m := cs[m].(fn := false)];
    forall a: nat, b: nat | a <= b < |t.stack| ensures UpwardAt(p, ds, t, a, b) {
      if b < |s.stack| {
        assert UpwardAt(p, cs, s, a, b);
      } else if a == b {
        ReachesSelf(p, m);
      } else if !cs[s.stack[a]].Done() {
        RunningReaches(p, cs, stack, s, s.stack[a], m);
      }
    }
  }

  /** A module under evaluation that has not ended reaches what the top of the stack requests. */
  lemma RunningReaches(p: Program, cs: seq<Closure>, stack: seq<nat>, s: Std, c: nat, m: nat)
    requires StackOk(p, cs, stack) && AllFit(cs, s.st, None) && c < |p| && s.st[c].Evaluating? && !cs[c].Done()
    requires stack != [] ==> Edge(p, stack[|stack| - 1], m)
    ensures Reaches(p, c, m)
  {
    assert Fits(cs[c], s.st[c], None);
    assert c in stack;
    StackReaches(p, stack, c);
    ReachesEdge(p, c, stack[|stack| - 1], m);
  }

  // ---------------------------------------------------------------- requesting a module

  /** The first `n` steps of `x` request modules evaluated without an error, or on the stack from `low` up. */
  ghost predicate Bounded(p: Program, s: Std, x: nat, n: nat, low: nat) {
    && x < |p| == |s.st| && n <= |p[x].body|
    && forall j: nat :: j < n && p[x].body[j].Import? ==> BoundedAt(s, p[x].body[j].target, low)
  }

  ghost predicate BoundedAt(s: Std, t: nat, low: nat) {
    t < |s.st| && (s.st[t] == Evaluated(None) || (s.st[t].Evaluating? && s.st[t].dfs >= low))
  }

  /** From place `from` on the stack holds modules whose bodies have ended. */
  ghost predicate Segment(p: Program, cs: seq<Closure>, s: Std, from: nat, low: nat) {
    forall a: nat :: from <= a < |s.stack| ==> SegmentAt(p, cs, s, a, low)
  }

  ghost predicate SegmentAt(p: Program, cs: seq<Closure>, s: Std, a: nat, low: nat) {
    && a < |s.stack| && s.stack[a] < |p| == |cs| && cs[s.stack[a]].Done()
    && Bounded(p, s, s.stack[a], |p[s.stack[a]].body|, low)
  }

  lemma LowerTree(p: Program, cs: seq<Closure>, s: Std, m: nat, t: nat)
    requires Tree(p, cs, s) && m < |p| && t < |p| && s.st[m].Evaluating? && !cs[m].Done() && Edge(p, m, t)
    ensures Tree(p, cs, Lowered(s, m, t))
  {
    LowerStacked(s, m, t);
    LowerClosed(p, s, m, t);
    LowerAll(p, s, m, t);
    LowerDone(cs, s, m, t);
    LowerUpward(p, cs, s, m, t);
  }

  lemma LowerDone(cs: seq<Closure>, s: Std, m: nat, t: nat)
    requires DoneLow(cs, s) && m < |s.st| && t < |s.st| && !cs[m].Done()
    ensures DoneLow(cs, Lowered(s, m, t))
  {
  }

  lemma LowerClosed(p: Program, s: Std, m: nat, t: nat)
    requires AllClosed(p, s.st) && m < |s.st| && t < |s.st|
    ensures AllClosed(p, Lowered(s, m, t).st)
  {
    var r := Lowered(s, m, t);
    forall x: nat | x < |p| ensures ClosedAt(p, r.st, x) { assert ClosedAt(p, s.st, x); }
  }

  lemma LowerUpward(p: Program, cs: seq<Closure>, s: Std, m: nat, t: nat)
    requires Upward(p, cs, s) && m < |s.st| && t < |s.st|
    ensures Upward(p, cs, Lowered(s, m, t))
  {
    var r := Lowered(s, m, t);
    forall a: nat, b: nat | a <= b < |r.stack| ensures UpwardAt(p, cs, r, a, b) { assert UpwardAt(p, cs, s, a, b); }
  }

  lemma LowerAll(p: Program, s: Std, m: nat, t: nat)
    requires AllLow(p, s) && m < |s.st| && t < |s.st| && s.st[m].Evaluating? && Edge(p, m, t)
    ensures AllLow(p, Lowered(s, m, t))
  {
    var r := Lowered(s, m, t);
    if s.st[t].Evaluating? {
      forall y: nat ensures Lows(p, r, y) {
        assert Lows(p, s, y) && Lows(p, s, m) && Lows(p, s, t);
        LowerLows(p, s, m, t, y);
      }
    }
  }

  lemma LowerStacked(s: Std, m: nat, t: nat)
    requires Stacked(s) && m < |s.st| && t < |s.st|
    ensures Stacked(Lowered(s, m, t))
  {
  }

  lemma LowerLows(p: Program, s: Std, m: nat, t: nat, y: nat)
    requires m < |s.st| && t < |s.st| && s.st[m].Evaluating? && s.st[t].Evaluating? && Edge(p, m, t)
    requires Lows(p, s, y) && Lows(p, s, m) && Lows(p, s, t)
    ensures Lows(p, Lowered(s, m, t), y)
  {
    var r := Lowered(s, m, t);
    if y == m && s.st[t].anc < s.st[m].anc {
      var z: nat :| LowIs(p, s, t, z);
      PrependReach(p, m, t, z);
      var u: nat :| LowIs(p, s, m, u);
      assert LowIs(p, r, m, z);
    } else if y < |r.st| && r.st[y].Evaluating? {
      var z: nat :| LowIs(p, s, y, z);
      assert LowIs(p, r, y, z);
    }
  }

  // ---------------------------------------------------------------- ending a module

  /** Only whether modules under evaluation have ended matters. */
  lemma SameDone(p: Program, cs: seq<Closure>, ds: seq<Closure>, s: Std)
    requires Tree(p, cs, s) && |ds| == |cs|
    requires forall i: nat :: i < |cs| && s.st[i].Evaluating? ==> (cs[i].Done() <==> ds[i].Done())
    ensures Tree(p, ds, s)
  {
    SameUpward(p, cs, ds, s);
    assert DoneLow(ds, s);
  }

  lemma SameUpward(p: Program, cs: seq<Closure>, ds: seq<Closure>, s: Std)
    requires Upward(p, cs, s) && Stacked(s) && |ds| == |cs| == |s.st|
    requires forall i: nat :: i < |cs| && s.st[i].Evaluating? && cs[i].Done() ==> ds[i].Done()
    ensures Upward(p, ds, s)
  {
    forall a: nat, b: nat | a <= b < |s.stack| ensures UpwardAt(p, ds, s, a, b) { assert UpwardAt(p, cs, s, a, b); }
  }

  /** A module that is not the root of its cycle stays on the stack when it has ended. */
  lemma WaitTree(p: Program, cs: seq<Closure>, s: Std, m: nat, c: Closure)
    requires Tree(p, cs, s) && m < |p| && s.st[m].Evaluating? && s.st[m].anc < s.st[m].dfs && c.Done()
    ensures Tree(p, cs[m := c], s)
  {
    var ds := cs[m := c];
    SameUpward(p, cs, ds, s);
    WaitDone(cs, s, m, c);
  }

  lemma WaitDone(cs: seq<Closure>, s: Std, m: nat, c: Closure)
    requires DoneLow(cs, s) && m < |s.st| && s.st[m].Evaluating? && s.st[m].anc < s.st[m].dfs
    ensures DoneLow(cs[m := c], s)
  {
  }

  ghost function Popped(s: Std, at: nat): Std
    requires at <= |s.stack|
  {
    Std(Settle(s.st, s.stack[at..], None), s.stack[..at], s.index)
  }

  lemma NotAbove(s: Std, at: nat, a: nat, i: nat)
    requires Stacked(s) && at < |s.stack| && a < |s.stack| && s.stack[a] == i && i !in s.stack[at..]
    ensures s.st[i].dfs < s.st[s.stack[at]].dfs
  {
    forall b | at <= b < |s.stack| ensures s.stack[b] in s.stack[at..] { assert s.stack[at..][b - at] == s.stack[b]; }
  }

  lemma PopAt(s: Std, at: nat, i: nat)
    requires Stacked(s) && at < |s.stack| && i < |s.st|
    ensures Popped(s, at).st[i]
         == if s.st[i].Evaluating? && s.st[i].dfs >= s.st[s.stack[at]].dfs then Evaluated(None) else s.st[i]
  {
    var top := s.stack[at..];
    if i in top {
      var a :| 0 <= a < |top| && top[a] == i;
      assert s.stack[at + a] == i;
    } else if s.st[i].Evaluating? {
      var a :| 0 <= a < |s.stack| && s.stack[a] == i;
      NotAbove(s, at, a, i);
    }
  }

  /** Whether `i` is taken off. */
  ghost predicate TakenOff(s: Std, at: nat, i: nat)
    requires at < |s.stack| && s.stack[at] < |s.st| && s.st[s.stack[at]].Evaluating? && i < |s.st|
  {
    var off := s.st[i].Evaluating? && s.st[i].dfs >= s.st[s.stack[at]].dfs;
    Popped(s, at).st[i] == if off then Evaluated(None) else s.st[i]
  }

  lemma PopAll(s: Std, at: nat)
    requires Stacked(s) && at < |s.stack|
    ensures forall i: nat :: i < |s.st| ==> TakenOff(s, at, i)
  {
    forall i: nat | i < |s.st| ensures TakenOff(s, at, i) { PopAt(s, at, i); }
  }

  lemma PopInStack(s: Std, at: nat, i: nat)
    requires Stacked(s) && at < |s.stack| && i < |s.st| && s.st[i].Evaluating? && s.st[i].dfs < s.st[s.stack[at]].dfs
    ensures i in s.stack[..at]
  {
    var a :| 0 <= a < |s.stack| && s.stack[a] == i;
    assert a < at;
    assert s.stack[..at][a] == i;
  }

  lemma PopStacked(s: Std, at: nat)
    requires Stacked(s) && at < |s.stack|
    ensures Stacked(Popped(s, at))
  {
    var r := Popped(s, at);
    PopAll(s, at);
    forall i: nat | i < |r.st| && r.st[i].Evaluating? ensures i in r.stack && r.st[i].dfs < r.index {
      assert TakenOff(s, at, i);
      PopInStack(s, at, i);
    }
    forall a | 0 <= a < |r.stack| ensures r.stack[a] < |r.st| && r.st[r.stack[a]] == s.st[s.stack[a]] {
      assert TakenOff(s, at, s.stack[a]);
    }
  }

  lemma PopBelow(s: Std, at: nat)
    requires Stacked(s) && at < |s.stack|
    ensures Below(s, Popped(s, at), at)
  {
    PopAll(s, at);
    forall a | 0 <= a < at ensures Popped(s, at).st[s.stack[a]] == s.st[s.stack[a]] {
      assert TakenOff(s, at, s.stack[a]);
    }
    forall i: nat | i < |s.st| && s.st[i].Evaluated? ensures Popped(s, at).st[i] == s.st[i] {
      assert TakenOff(s, at, i);
    }
  }

  lemma PopLows(p: Program, s: Std, at: nat, y: nat)
    requires Stacked(s) && at < |s.stack| && Lows(p, s, y)
    ensures Lows(p, Popped(s, at), y)
  {
    if y < |s.st| && Popped(s, at).st[y].Evaluating? {
      PopAt(s, at, y);
      var z: nat :| LowIs(p, s, y, z);
      PopAt(s, at, z);
      assert LowIs(p, Popped(s, at), y, z);
    }
  }

  /** The cycle that is taken off requests nothing but itself and what was evaluated before. */
  lemma PopClosed(p: Program, cs: seq<Closure>, s: Std, at: nat)
    requires Stacked(s) && AllClosed(p, s.st) && |cs| == |p| && at < |s.stack|
    requires Segment(p, cs, s, at, s.st[s.stack[at]].dfs)
    ensures AllClosed(p, Popped(s, at).st)
  {
    var r := Popped(s, at);
    forall x: nat | x < |p| ensures ClosedAt(p, r.st, x) { PopClosedAt(p, cs, s, at, x); }
  }

  lemma PopClosedAt(p: Program, cs: seq<Closure>, s: Std, at: nat, x: nat)
    requires Stacked(s) && AllClosed(p, s.st) && |cs| == |p| && at < |s.stack| && x < |p|
    requires Segment(p, cs, s, at, s.st[s.stack[at]].dfs)
    ensures ClosedAt(p, Popped(s, at).st, x)
  {
    var r := Popped(s, at);
    PopAt(s, at, x);
    assert ClosedAt(p, s.st, x);
    forall t: nat | r.st[x] == Evaluated(None) && Import(t) in p[x].body ensures t < |p| && r.st[t] == Evaluated(None) {
      if s.st[x].Evaluating? {
        var a :| 0 <= a < |s.stack| && s.stack[a] == x;
        assert SegmentAt(p, cs, s, a, s.st[s.stack[at]].dfs);
        var j :| 0 <= j < |p[x].body| && p[x].body[j] == Import(t);
        assert BoundedAt(s, t, s.st[s.stack[at]].dfs);
      }
      PopAt(s, at, t);
    }
  }

  lemma PopTree(p: Program, cs: seq<Closure>, ds: seq<Closure>, s: Std, at: nat)
    requires Tree(p, cs, s) && at < |s.stack| && |ds| == |p| && Segment(p, ds, s, at, s.st[s.stack[at]].dfs)
    ensures Tree(p, cs, Popped(s, at))
  {
    PopStacked(s, at);
    PopClosed(p, ds, s, at);
    PopAllLow(p, s, at);
    PopDone(cs, s, at);
    PopUpward(p, cs, s, at);
  }

  lemma PopAllLow(p: Program, s: Std, at: nat)
    requires Stacked(s) && AllLow(p, s) && at < |s.stack|
    ensures AllLow(p, Popped(s, at))
  {
    var r := Popped(s, at);
    forall y: nat ensures Lows(p, r, y) {
      assert Lows(p, s, y);
      PopLows(p, s, at, y);
    }
  }

  lemma PopUpward(p: Program, cs: seq<Closure>, s: Std, at: nat)
    requires Upward(p, cs, s) && at < |s.stack|
    ensures Upward(p, cs, Popped(s, at))
  {
    var r := Popped(s, at);
    forall a: nat, b: nat | a <= b < |r.stack| ensures UpwardAt(p, cs, r, a, b) { assert UpwardAt(p, cs, s, a, b); }
  }

  lemma PopDone(cs: seq<Closure>, s: Std, at: nat)
    requires Stacked(s) && DoneLow(cs, s) && at < |s.stack|
    ensures DoneLow(cs, Popped(s, at))
  {
    var r := Popped(s, at);
    forall y: nat | y < |r.st| && r.st[y].Evaluating? && cs[y].Done()
      ensures r.st[y].anc < r.st[y].dfs
    {
      PopAt(s, at, y);
    }
  }

  // ---------------------------------------------------------------- side by side

  /** A wrapper's world and the standard's state, between two steps. */
  ghost predicate Both(p: Program, w: World, stack: seq<nat>, s: Std) {
    Static(p) && WorldOk(p, w, stack) && StdOk(p, s) && AllFit(w.cs, s.st, None) && Tree(p, w.cs, s)
  }

  /** A module was requested: the same error, or it is evaluated, or it waits on the stack. */
  ghost predicate Given(p: Program, cs: seq<Closure>, s: Std, m: nat, t: Std, thrown: Option<Error>) {
    && m < |cs| && AllFit(cs, t.st, thrown) && Tree(p, cs, t) && Below(s, t, |s.stack|) && cs[m].err == thrown
    && (thrown.None? ==> GivenWhole(p, cs, s, m, t))
  }

  ghost predicate GivenWhole(p: Program, cs: seq<Closure>, s: Std, m: nat, t: Std) {
    && m < |t.st|
    && if t.st[m].Evaluating? then Segment(p, cs, t, |s.stack|, t.st[m].anc)
       else t.st[m] == Evaluated(None) && |t.stack| == |s.stack|
  }

  /** The body of `m`, at place `at` of the stack, has passed `k` steps. */
  ghost predicate Passing(p: Program, cs: seq<Closure>, s: Std, at: nat, m: nat, k: nat) {
    && |cs| == |p| == |s.st| && m < |p| && at < |s.stack| && s.stack[at] == m && s.st[m].Evaluating? && cs[m].Running()
    && Segment(p, cs, s, at + 1, s.st[m].anc) && Bounded(p, s, m, k, s.st[m].anc)
  }

  /** The body of `m` has ended, with the same error or none. */
  ghost predicate BodyGiven(p: Program, cs: seq<Closure>, s: Std, at: nat, m: nat, t: Std, thrown: Option<Error>) {
    && AllFit(cs, t.st, thrown) && Tree(p, cs, t) && Below(s, t, at)
    && m < |p| && at < |t.stack| && t.stack[at] == m && t.st[m].Evaluating? && cs[m].Running()
    && (thrown.None? ==> Passing(p, cs, t, at, m, |p[m].body|))
  }

  /** What is on the stack keeps its index, and what is evaluated stays so. */
  lemma BoundKept(s: Std, t: Std, x: nat, low: nat)
    requires Stacked(s) && Below(s, t, |s.stack|) && BoundedAt(s, x, low)
    ensures BoundedAt(t, x, low)
  {
    if s.st[x].Evaluating? {
      var a :| 0 <= a < |s.stack| && s.stack[a] == x;
    }
  }

  lemma BoundedKept(p: Program, s: Std, t: Std, x: nat, n: nat, low: nat, lower: nat)
    requires Stacked(s) && Below(s, t, |s.stack|) && Bounded(p, s, x, n, low) && lower <= low
    ensures Bounded(p, t, x, n, lower)
  {
    forall j: nat | j < n && p[x].body[j].Import? ensures BoundedAt(t, p[x].body[j].target, lower) {
      BoundKept(s, t, p[x].body[j].target, low);
    }
  }

  lemma BoundedLowered(p: Program, s: Std, m: nat, t: nat, x: nat, n: nat, low: nat, lower: nat)
    requires m < |s.st| && t < |s.st| && Bounded(p, s, x, n, low) && lower <= low
    ensures Bounded(p, Lowered(s, m, t), x, n, lower)
  {
    forall j: nat | j < n && p[x].body[j].Import? ensures BoundedAt(Lowered(s, m, t), p[x].body[j].target, lower) {
      assert BoundedAt(s, p[x].body[j].target, low);
    }
  }

  lemma FitLowered(cs: seq<Closure>, s: Std, m: nat, t: nat)
    requires AllFit(cs, s.st, None) && m < |s.st| && t < |s.st|
    ensures AllFit(cs, Lowered(s, m, t).st, None)
  {
    var r := Lowered(s, m, t);
    forall i: nat | i < |cs| ensures Fits(cs[i], r.st[i], None) { assert Fits(cs[i], s.st[i], None); }
  }

  /** `t` follows `s` when the step `k` of `m` has requested `x` without an error. */
  ghost predicate Requested(p: Program, m: nat, k: nat, x: nat, s: Std, t: Std) {
    && m < |p| == |s.st| && k < |p[m].body| && p[m].body[k] == Import(x) && x < |p|
    && Stacked(s) && Below(s, t, |s.stack|) && s.st[m].Evaluating? && t.st[m] == s.st[m]
    && (t.st[x] == Evaluated(None) || (t.st[x].Evaluating? && t.st[x].anc <= t.st[x].dfs))
  }

  lemma StepBounded(p: Program, m: nat, k: nat, x: nat, s: Std, t: Std)
    requires Requested(p, m, k, x, s, t) && Bounded(p, s, m, k, s.st[m].anc)
    ensures var r := Lowered(t, m, x); Bounded(p, r, m, k + 1, r.st[m].anc)
  {
    var r := Lowered(t, m, x);
    BoundedKept(p, s, t, m, k, s.st[m].anc, s.st[m].anc);
    BoundedLowered(p, t, m, x, m, k, s.st[m].anc, r.st[m].anc);
    assert BoundedAt(r, x, r.st[m].anc);
  }

  lemma StepSegment(p: Program, cs: seq<Closure>, ds: seq<Closure>, m: nat, k: nat, x: nat, s: Std, t: Std, a: nat)
    requires Requested(p, m, k, x, s, t) && Keeps(cs, ds) && a < |s.stack| && SegmentAt(p, cs, s, a, s.st[m].anc)
    ensures var r := Lowered(t, m, x); SegmentAt(p, ds, r, a, r.st[m].anc)
  {
    var y := s.stack[a];
    BoundedKept(p, s, t, y, |p[y].body|, s.st[m].anc, s.st[m].anc);
    BoundedLowered(p, t, m, x, y, |p[y].body|, s.st[m].anc, Lowered(t, m, x).st[m].anc);
  }

  /** One more step of the body has been passed. */
  lemma StepPassing(p: Program, cs: seq<Closure>, ds: seq<Closure>, at: nat, m: nat, k: nat, x: nat, s: Std, t: Std)
    requires Passing(p, cs, s, at, m, k) && Requested(p, m, k, x, s, t) && Keeps(cs, ds) && GivenWhole(p, ds, s, x, t)
    ensures Passing(p, ds, Lowered(t, m, x), at, m, k + 1)
  {
    var r := Lowered(t, m, x);
    StepBounded(p, m, k, x, s, t);
    forall a: nat | at + 1 <= a < |r.stack| ensures SegmentAt(p, ds, r, a, r.st[m].anc) {
      if a < |s.stack| {
        assert SegmentAt(p, cs, s, a, s.st[m].anc);
        StepSegment(p, cs, ds, m, k, x, s, t, a);
      } else {
        assert SegmentAt(p, ds, t, a, t.st[x].anc);
        BoundedLowered(p, t, m, x, t.stack[a], |p[t.stack[a]].body|, t.st[x].anc, r.st[m].anc);
      }
    }
  }

  lemma BelowOn(a: Std, b: Std, c: Std, n: nat)
    requires Below(a, b, n) && Below(b, c, n)
    ensures Below(a, c, n)
  {
  }

  lemma BelowLowered(s: Std, m: nat, t: nat, at: nat)
    requires Stacked(s) && m < |s.st| && t < |s.st| && at < |s.stack| && s.stack[at] == m
    ensures Below(s, Lowered(s, m, t), at)
  {
  }

  lemma FitThrown(cs: seq<Closure>, st: seq<Status>, e: Error)
    requires AllFit(cs, st, None)
    ensures AllFit(cs, st, Some(e))
  {
    forall i: nat | i < |cs| ensures Fits(cs[i], st[i], Some(e)) { assert Fits(cs[i], st[i], None); }
  }

  lemma FitEnded(cs: seq<Closure>, st: seq<Status>, m: nat, value: Value, thrown: Option<Error>)
    requires AllFit(cs, st, thrown) && m < |cs| && st[m].Evaluating? && cs[m].Running()
    ensures AllFit(cs[m := Ended(cs[m], value, thrown)], st, thrown)
  {
    var ds := cs[m := Ended(cs[m], value, thrown)];
    forall i: nat | i < |cs| ensures Fits(ds[i], st[i], thrown) { assert Fits(cs[i], st[i], thrown); }
  }

  lemma FitPopped(cs: seq<Closure>, p: Program, s: Std, at: nat, low: nat)
    requires AllFit(cs, s.st, None) && Stacked(s) && at < |s.stack| && Segment(p, cs, s, at, low)
    ensures AllFit(cs, Popped(s, at).st, None)
  {
    var r := Popped(s, at);
    forall i: nat | i < |cs| ensures Fits(cs[i], r.st[i], None) {
      assert Fits(cs[i], s.st[i], None);
      PopAt(s, at, i);
      if r.st[i] != s.st[i] {
        var a :| 0 <= a < |s.stack| && s.stack[a] == i;
        assert SegmentAt(p, cs, s, a, low);
      }
    }
  }

  /** The segment of a module that has ended includes the module. */
  lemma WholeSegment(p: Program, cs: seq<Closure>, t: Std, at: nat, m: nat, c: Closure)
    requires m < |p| && Passing(p, cs, t, at, m, |p[m].body|) && Stacked(t) && c.Done()
    ensures Segment(p, cs[m := c], t, at, t.st[m].anc)
  {
    var ds := cs[m := c];
    forall a: nat | at <= a < |t.stack| ensures SegmentAt(p, ds, t, a, t.st[m].anc) {
      if a > at { assert SegmentAt(p, cs, t, a, t.st[m].anc); }
    }
  }

  lemma EndThrown(p: Program, cs: seq<Closure>, s: Std, m: nat, t: Std, e: Error)
    requires m < |s.st| && BodyGiven(p, cs, Begun(s, m), |s.stack|, m, t, Some(e)) && Below(s, Begun(s, m), |s.stack|)
    ensures Given(p, cs[m := Ended(cs[m], p[m].value, Some(e))], s, m, t, Some(e))
  {
    var ds := cs[m := Ended(cs[m], p[m].value, Some(e))];
    BelowOn(s, Begun(s, m), t, |s.stack|);
    FitEnded(cs, t.st, m, p[m].value, Some(e));
    ThrownTree(p, cs, t, m, ds[m]);
  }

  lemma ThrownTree(p: Program, cs: seq<Closure>, t: Std, m: nat, c: Closure)
    requires Tree(p, cs, t) && m < |cs| && !cs[m].Done() && !c.Done()
    ensures Tree(p, cs[m := c], t)
  {
    SameDone(p, cs, cs[m := c], t);
  }

  /** The cycle of `m` is taken off the stack. */
  lemma PoppedTree(p: Program, cs: seq<Closure>, t: Std, at: nat, m: nat, c: Closure)
    requires Tree(p, cs, t) && m < |p| && at < |t.stack| && t.stack[at] == m
    requires Segment(p, cs[m := c], t, at, t.st[m].dfs)
    ensures Tree(p, cs[m := c], Popped(t, at)) && Popped(t, at).st[m] == Evaluated(None)
  {
    PopTree(p, cs, cs[m := c], t, at);
    PopAt(t, at, m);
    SameDone(p, cs, cs[m := c], Popped(t, at));
  }

  lemma EndWaiting(p: Program, cs: seq<Closure>, s: Std, m: nat, t: Std)
    requires m < |s.st| && BodyGiven(p, cs, Begun(s, m), |s.stack|, m, t, None) && Below(s, Begun(s, m), |s.stack|)
    requires t.st[m].anc < t.st[m].dfs
    ensures Given(p, cs[m := Ended(cs[m], p[m].value, None)], s, m, t, None)
  {
    var c := Ended(cs[m], p[m].value, None);
    BelowOn(s, Begun(s, m), t, |s.stack|);
    FitEnded(cs, t.st, m, p[m].value, None);
    WaitTree(p, cs, t, m, c);
    WholeSegment(p, cs, t, |s.stack|, m, c);
  }

  lemma EndPopped(p: Program, cs: seq<Closure>, s: Std, m: nat, t: Std)
    requires m < |s.st| && BodyGiven(p, cs, Begun(s, m), |s.stack|, m, t, None) && Below(s, Begun(s, m), |s.stack|)
    requires t.st[m].anc == t.st[m].dfs
    ensures Given(p, cs[m := Ended(cs[m], p[m].value, None)], s, m, Popped(t, |s.stack|), None)
  {
    var c, at := Ended(cs[m], p[m].value, None), |s.stack|;
    WholeSegment(p, cs, t, at, m, c);
    FitEnded(cs, t.st, m, p[m].value, None);
    FitPopped(cs[m := c], p, t, at, t.st[m].dfs);
    PoppedTree(p, cs, t, at, m, c);
    PoppedBelow(s, m, t);
  }

  lemma PoppedBelow(s: Std, m: nat, t: Std)
    requires m < |s.st| && Below(s, Begun(s, m), |s.stack|) && Below(Begun(s, m), t, |s.stack|)
    requires Stacked(t) && |s.stack| < |t.stack|
    ensures Below(s, Popped(t, |s.stack|), |s.stack|)
  {
    PopBelow(t, |s.stack|);
    BelowOn(s, Begun(s, m), t, |s.stack|);
    BelowOn(s, t, Popped(t, |s.stack|), |s.stack|);
  }

  /** A wrapper's call and the standard's evaluation of a module go together. */
  lemma {:induction false} InnerLock(p: Program, w: World, stack: seq<nat>, s: Std, m: nat)
    returns (r: World, t: Std, thrown: Option<Error>)
    requires Both(p, w, stack, s) && m < |p| && (stack != [] ==> Edge(p, stack[|stack| - 1], m))
    ensures Call(p, w, m) == r && Inner(p, s, m) == (t, thrown)
    ensures Given(p, r.cs, s, m, t, thrown)
    decreases PendingSet(w.cs), 0
  {
    assert Fits(w.cs[m], s.st[m], None);
    if s.st[m].Linked? {
      var begun := World(w.cs[m := w.cs[m].(fn := false)], w.starts + [m], w.order);
      BeginBoth(p, w, stack, s, m);
      var inner, u;
      inner, u, thrown := StepsLock(p, begun, stack + [m], Begun(s, m), |s.stack|, m, 0);
      r := World(inner.cs[m := Ended(inner.cs[m], p[m].value, thrown)], inner.starts, inner.order + [m]);
      t := if thrown.Some? then u else Finish(u, m, |s.stack|);
      EndGiven(p, inner.cs, s, m, u, thrown);
    } else {
      r, t, thrown := w, s, if s.st[m].Evaluated? then s.st[m].error else None;
      if thrown.Some? { FitThrown(w.cs, s.st, thrown.value); }
    }
  }

  lemma EndGiven(p: Program, cs: seq<Closure>, s: Std, m: nat, t: Std, thrown: Option<Error>)
    requires m < |s.st| && BodyGiven(p, cs, Begun(s, m), |s.stack|, m, t, thrown) && Below(s, Begun(s, m), |s.stack|)
    ensures Given(p, cs[m := Ended(cs[m], p[m].value, thrown)], s, m,
      if thrown.Some? then t else Finish(t, m, |s.stack|), thrown)
  {
    if thrown.Some? {
      EndThrown(p, cs, s, m, t, thrown.value);
    } else if t.st[m].anc == t.st[m].dfs {
      EndPopped(p, cs, s, m, t);
    } else {
      assert Lows(p, t, m);
      EndWaiting(p, cs, s, m, t);
    }
  }

  lemma BeginBoth(p: Program, w: World, stack: seq<nat>, s: Std, m: nat)
    requires Both(p, w, stack, s) && m < |p| && s.st[m].Linked? && (stack != [] ==> Edge(p, stack[|stack| - 1], m))
    ensures var begun := World(w.cs[m := w.cs[m].(fn := false)], w.starts + [m], w.order);
      && Both(p, begun, stack + [m], Begun(s, m)) && Passing(p, begun.cs, Begun(s, m), |s.stack|, m, 0)
      && PendingSet(begun.cs) < PendingSet(w.cs) && Below(s, Begun(s, m), |s.stack|)
  {
    BeginStacked(s, m);
    assert Fits(w.cs[m], s.st[m], None);
    EnterLemma(p, w.cs, stack, w.starts, w.order, m);
    BeginTree(p, w.cs, stack, s, m);
    BeginFits(w.cs, s, m);
  }

  lemma BeginFits(cs: seq<Closure>, s: Std, m: nat)
    requires AllFit(cs, s.st, None) && m < |s.st| && s.st[m].Linked?
    ensures AllFit(cs[m := cs[m].(fn := false)], Begun(s, m).st, None) && cs[m := cs[m].(fn := false)][m].Running()
  {
    var ds, t := cs[m := cs[m].(fn := false)], Begun(s, m);
    assert Fits(cs[m], s.st[m], None);
    forall i: nat | i < |ds| ensures Fits(ds[i], t.st[i], None) { assert Fits(cs[i], s.st[i], None); }
  }

  lemma {:induction false} StepsLock(p: Program, w: World, stack: seq<nat>, s: Std, at: nat, m: nat, k: nat)
    returns (r: World, t: Std, thrown: Option<Error>)
    requires Both(p, w, stack, s) && stack != [] && stack[|stack| - 1] == m && m < |p| && k <= |p[m].body|
    requires Passing(p, w.cs, s, at, m, k)
    ensures Steps(p, w, m, k) == (r, thrown) && InnerSteps(p, s, m, k) == (t, thrown)
    ensures BodyGiven(p, r.cs, s, at, m, t, thrown)
    decreases PendingSet(w.cs), 2, |p[m].body| - k
  {
    if k == |p[m].body| {
      r, t, thrown := w, s, None;
    } else if p[m].body[k].Throw? {
      r, t, thrown := w, s, Some(p[m].body[k].error);
      FitThrown(w.cs, s.st, p[m].body[k].error);
    } else {
      var x := p[m].body[k].target;
      var next, u;
      next, u, thrown := ImportLock(p, w, stack, s, at, m, k, x);
      r, t := next, u;
      if thrown.None? {
        r, t, thrown := StepsLock(p, next, stack, Lowered(u, m, x), at, m, k + 1);
        BodyMoved(p, r.cs, s, Lowered(u, m, x), at, m, t, thrown);
      }
    }
  }

  lemma BodyMoved(p: Program, cs: seq<Closure>, s: Std, r: Std, at: nat, m: nat, t: Std, thrown: Option<Error>)
    requires Below(s, r, at) && BodyGiven(p, cs, r, at, m, t, thrown)
    ensures BodyGiven(p, cs, s, at, m, t, thrown)
  {
    BelowOn(s, r, t, at);
  }

  /** One request, on both sides. */
  lemma {:induction false} ImportLock(p: Program, w: World, stack: seq<nat>, s: Std, at: nat, m: nat, k: nat, x: nat)
    returns (next: World, t: Std, thrown: Option<Error>)
    requires Both(p, w, stack, s) && stack != [] && stack[|stack| - 1] == m && m < |p| && k < |p[m].body|
    requires Passing(p, w.cs, s, at, m, k) && !p[m].body[k].Throw? && p[m].body[k].target == x
    ensures x < |p| && p[m].body[k] == Import(x) && Call(p, w, x) == next && Inner(p, s, x) == (t, thrown)
    ensures next.cs[x].err == thrown && !next.cs[m].fn
    ensures thrown.Some? ==> BodyGiven(p, next.cs, s, at, m, t, thrown)
    ensures thrown.None? ==> Both(p, next, stack, Lowered(t, m, x)) && Below(s, Lowered(t, m, x), at)
    ensures thrown.None? ==> Passing(p, next.cs, Lowered(t, m, x), at, m, k + 1)
    decreases PendingSet(w.cs), 1
  {
    EdgeAt(p, m, k);
    CallOk(p, w, stack, x);
    next, t, thrown := InnerLock(p, w, stack, s, x);
    if thrown.Some? {
      StepThrown(p, w.cs, next.cs, s, at, m, k, x, t, thrown);
    } else {
      StepBoth(p, w, next, stack, s, at, m, k, x, t);
      StepBelow(p, s, t, at, m, x);
    }
  }

  lemma StepThrown(p: Program, cs: seq<Closure>, ds: seq<Closure>, s: Std, at: nat, m: nat, k: nat, x: nat, t: Std,
                   thrown: Option<Error>)
    requires Passing(p, cs, s, at, m, k) && Keeps(cs, ds) && Given(p, ds, s, x, t, thrown) && thrown.Some?
    ensures BodyGiven(p, ds, s, at, m, t, thrown)
  {
  }

  lemma StepBoth(p: Program, w: World, next: World, stack: seq<nat>, s: Std, at: nat, m: nat, k: nat, x: nat, t: Std)
    requires Both(p, w, stack, s) && WorldOk(p, next, stack) && StdOk(p, t) && Keeps(w.cs, next.cs)
    requires Passing(p, w.cs, s, at, m, k) && k < |p[m].body| && p[m].body[k] == Import(x) && Edge(p, m, x)
    requires Given(p, next.cs, s, x, t, None)
    ensures Both(p, next, stack, Lowered(t, m, x)) && Passing(p, next.cs, Lowered(t, m, x), at, m, k + 1)
  {
    assert t.st[m] == s.st[m];
    LowerTree(p, next.cs, t, m, x);
    FitLowered(next.cs, t, m, x);
    AncestorBelow(p, next.cs, t, x);
    StepPassing(p, w.cs, next.cs, at, m, k, x, s, t);
  }

  lemma AncestorBelow(p: Program, cs: seq<Closure>, t: Std, x: nat)
    requires Tree(p, cs, t) && x < |p|
    ensures t.st[x].Evaluating? ==> t.st[x].anc <= t.st[x].dfs
  {
    if t.st[x].Evaluating? { assert Lows(p, t, x); }
  }

  lemma StepBelow(p: Program, s: Std, t: Std, at: nat, m: nat, x: nat)
    requires Below(s, t, |s.stack|) && Stacked(t) && m < |t.st| && x < |t.st| && at < |s.stack| && s.stack[at] == m
    ensures Below(s, Lowered(t, m, x), at)
  {
    BelowLowered(t, m, x, at);
    BelowOn(s, t, Lowered(t, m, x), at);
  }

  // ---------------------------------------------------------------- when they agree

  /** Between evaluations: every module is as the standard has it. */
  ghost predicate Agrees(p: Program, cs: seq<Closure>, st: seq<Status>) {
    AllFit(cs, st, None) && AllClosed(p, st) && forall i: nat :: i < |st| ==> !st[i].Evaluating?
  }

  /** No module that ended normally is on a cycle with one that failed. */
  ghost predicate NoMixedCycle(p: Program, cs: seq<Closure>) {
    forall d: nat, f: nat :: !MixedCycle(p, cs, d, f)
  }

  ghost predicate MixedCycle(p: Program, cs: seq<Closure>, d: nat, f: nat) {
    d < |cs| && f < |cs| && cs[d].Done() && cs[f].Failed() && Reaches(p, d, f) && Reaches(p, f, d)
  }

  lemma {:induction false} PathClosed(p: Program, st: seq<Status>, path: seq<nat>)
    requires Static(p) && AllClosed(p, st) && IsPath(p, path) && path[0] < |p| && st[path[0]] == Evaluated(None)
    ensures path[|path| - 1] < |p| && st[path[|path| - 1]] == Evaluated(None)
    decreases |path|
  {
    if |path| > 1 {
      assert Edge(p, path[0], path[1]);
      ImportEdge(p, path[0], path[1]);
      assert ClosedAt(p, st, path[0]);
      var rest := path[1..];
      assert IsPath(p, rest) by {
        forall k | 0 <= k < |rest| - 1
          ensures Edge(p, rest[k], rest[k + 1])
        {
          assert Edge(p, path[k + 1], path[k + 2]);
        }
      }
      PathClosed(p, st, rest);
    }
  }

  lemma ImportEdge(p: Program, a: nat, b: nat)
    requires Static(p) && Edge(p, a, b)
    ensures Import(b) in p[a].body
  {
  }

  /** Where they agree, nothing that ended normally reaches anything that failed. */
  lemma AgreesUnmixed(p: Program, cs: seq<Closure>, st: seq<Status>)
    requires Static(p) && Agrees(p, cs, st)
    ensures NoMixedCycle(p, cs)
  {
    forall d: nat, f: nat ensures !MixedCycle(p, cs, d, f) {
      if d < |cs| && f < |cs| && cs[d].Done() && Reaches(p, d, f) {
        assert Fits(cs[d], st[d], None) && Fits(cs[f], st[f], None);
        var path :| IsPath(p, path) && path[0] == d && path[|path| - 1] == f;
        PathClosed(p, st, path);
      }
    }
  }

  /** A module that has ended and is still on the stack reaches one below it that has not ended. */
  lemma {:induction false} Waits(p: Program, cs: seq<Closure>, s: Std, d: nat) returns (c: nat)
    requires Tree(p, cs, s) && d < |p| && s.st[d].Evaluating? && cs[d].Done()
    ensures c < |p| && s.st[c].Evaluating? && !cs[c].Done() && Reaches(p, d, c) && s.st[c].dfs < s.st[d].dfs
    decreases s.st[d].dfs
  {
    assert Lows(p, s, d);
    c :| LowIs(p, s, d, c);
    if cs[c].Done() {
      var b := Waits(p, cs, s, c);
      ReachesOn(p, d, c, b);
      c := b;
    }
  }

  lemma WaitsOnCycle(p: Program, cs: seq<Closure>, s: Std, d: nat) returns (c: nat)
    requires Tree(p, cs, s) && d < |p| && s.st[d].Evaluating? && cs[d].Done()
    ensures c < |p| && s.st[c].Evaluating? && !cs[c].Done() && Reaches(p, d, c) && Reaches(p, c, d)
  {
    c := Waits(p, cs, s, d);
    var a: nat :| a < |s.stack| && s.stack[a] == c;
    var b: nat :| b < |s.stack| && s.stack[b] == d;
    assert a <= b by { Rising(s, b, a); }
    assert UpwardAt(p, cs, s, a, b);
  }

  lemma Rising(s: Std, a: nat, b: nat)
    requires Stacked(s) && a < |s.stack| && b < |s.stack|
    ensures a < b ==> s.st[s.stack[a]].dfs < s.st[s.stack[b]].dfs
  {
  }

  lemma QuietTree(p: Program, cs: seq<Closure>, st: seq<Status>)
    requires |p| == |cs| && Agrees(p, cs, st)
    ensures Tree(p, cs, Std(st, [], 0)) && StdOk(p, Std(st, [], 0))
  {
  }

  /** At the end of an evaluation without an error the stack is empty. */
  lemma NothingWaits(p: Program, cs: seq<Closure>, s: Std, i: nat)
    requires Tree(p, cs, s) && i < |p| && forall a :: 0 <= a < |s.stack| ==> cs[s.stack[a]].Done()
    ensures !s.st[i].Evaluating?
  {
    if s.st[i].Evaluating? {
      var b :| 0 <= b < |s.stack| && s.stack[b] == i;
      var _ := Waits(p, cs, s, i);
    }
  }

  lemma NoneRunning(p: Program, w: World, i: nat)
    requires WorldOk(p, w, []) && i < |w.cs|
    ensures w.cs[i].Pending() || w.cs[i].Done() || w.cs[i].Failed()
  {
  }

  lemma SettleClosed(p: Program, s: Std, e: Error)
    requires Stacked(s) && AllClosed(p, s.st)
    ensures AllClosed(p, Settle(s.st, s.stack, Some(e)))
  {
    var st := Settle(s.st, s.stack, Some(e));
    forall x: nat | x < |p| ensures ClosedAt(p, st, x) {
      assert ClosedAt(p, s.st, x);
      forall t: nat | st[x] == Evaluated(None) && Import(t) in p[x].body ensures t < |p| && st[t] == Evaluated(None) {
        assert s.st[x] == Evaluated(None) && s.st[t] == Evaluated(None);
      }
    }
  }

  /** After an error they agree if and only if nothing on the stack had ended. */
  lemma SettleAgrees(p: Program, w: World, s: Std, e: Error)
    requires WorldOk(p, w, []) && AllFit(w.cs, s.st, Some(e)) && Tree(p, w.cs, s)
    ensures var st := Settle(s.st, s.stack, Some(e));
      Agrees(p, w.cs, st) <==> forall i: nat :: i < |p| && s.st[i].Evaluating? ==> !w.cs[i].Done()
  {
    var st := Settle(s.st, s.stack, Some(e));
    SettleClosed(p, s, e);
    forall i: nat | i < |p|
      ensures Fits(w.cs[i], st[i], None) <==> (s.st[i].Evaluating? ==> !w.cs[i].Done())
      ensures !st[i].Evaluating?
    {
      assert Fits(w.cs[i], s.st[i], Some(e));
      NoneRunning(p, w, i);
    }
  }

  /** A call from outside, where the two agreed before: the outcome is the same, and they agree afterwards
      if and only if no module that ended normally is on a cycle with one that failed. */
  lemma CallAgrees(p: Program, w: World, st: seq<Status>, m: nat)
    requires Static(p) && WorldOk(p, w, []) && Agrees(p, w.cs, st) && m < |p|
    ensures Call(p, w, m).cs[m].err == EvaluateModule(p, st, m).1
    ensures Agrees(p, Call(p, w, m).cs, EvaluateModule(p, st, m).0) <==> NoMixedCycle(p, Call(p, w, m).cs)
  {
    QuietTree(p, w.cs, st);
    CallOk(p, w, [], m);
    var r, t, thrown := InnerLock(p, w, [], Std(st, [], 0), m);
    if thrown.None? {
      EndsQuiet(p, r.cs, st, m, t);
      AgreesUnmixed(p, r.cs, t.st);
    } else {
      ThrownAgrees(p, r, t, thrown.value);
    }
  }

  lemma EndsQuiet(p: Program, cs: seq<Closure>, st: seq<Status>, m: nat, t: Std)
    requires Given(p, cs, Std(st, [], 0), m, t, None)
    ensures Agrees(p, cs, t.st)
  {
    forall a: nat | a < |t.stack| ensures cs[t.stack[a]].Done() {
      assert SegmentAt(p, cs, t, a, t.st[m].anc);
    }
    forall i: nat | i < |t.st| ensures !t.st[i].Evaluating? { NothingWaits(p, cs, t, i); }
  }

  lemma ThrownAgrees(p: Program, w: World, s: Std, e: Error)
    requires Static(p) && WorldOk(p, w, []) && AllFit(w.cs, s.st, Some(e)) && Tree(p, w.cs, s)
    ensures Agrees(p, w.cs, Settle(s.st, s.stack, Some(e))) <==> NoMixedCycle(p, w.cs)
  {
    var st := Settle(s.st, s.stack, Some(e));
    SettleAgrees(p, w, s, e);
    if Agrees(p, w.cs, st) {
      AgreesUnmixed(p, w.cs, st);
    } else {
      var d: nat :| d < |p| && s.st[d].Evaluating? && w.cs[d].Done();
      var c := WaitsOnCycle(p, w.cs, s, d);
      assert Fits(w.cs[c], s.st[c], Some(e));
      NoneRunning(p, w, c);
      assert MixedCycle(p, w.cs, d, c);
    }
  }

  // ---------------------------------------------------------------- any number of calls

  ghost function Fresh(p: Program): World {
    World(seq(|p|, _ => Closure(true, None, None)), [], [])
  }

  ghost predicate CallsIn(p: Program, calls: seq<nat>) {
    forall i :: 0 <= i < |calls| ==> calls[i] < |p|
  }

  /** The standard's fields after the calls. */
  ghost function StandardAfter(p: Program, calls: seq<nat>): (st: seq<Status>)
    requires Static(p) && CallsIn(p, calls)
    ensures |st| == |p|
  {
    if calls == [] then seq(|p|, _ => Linked)
    else EvaluateModule(p, StandardAfter(p, calls[..|calls| - 1]), calls[|calls| - 1]).0
  }

  ghost function WrappersAfter(p: Program, calls: seq<nat>): (w: World)
    requires Static(p) && CallsIn(p, calls)
    ensures |w.cs| == |p|
  {
    CallsFrom(p, Fresh(p), calls)
  }

  ghost predicate AgreeAfter(p: Program, calls: seq<nat>)
    requires Static(p) && CallsIn(p, calls)
  {
    Agrees(p, WrappersAfter(p, calls).cs, StandardAfter(p, calls))
  }

  ghost predicate UnmixedAfter(p: Program, calls: seq<nat>)
    requires Static(p) && CallsIn(p, calls)
  {
    NoMixedCycle(p, WrappersAfter(p, calls).cs)
  }

  lemma {:induction false} WrappersOk(p: Program, calls: seq<nat>)
    requires Static(p) && CallsIn(p, calls)
    ensures WorldOk(p, WrappersAfter(p, calls), [])
  {
    if calls != [] {
      WrappersOk(p, calls[..|calls| - 1]);
      CallOk(p, WrappersAfter(p, calls[..|calls| - 1]), [], calls[|calls| - 1]);
    }
  }

  /** While all went well up to here, they agree after the next call if and only if it leaves no mixed cycle. */
  lemma NextAgrees(p: Program, calls: seq<nat>)
    requires Static(p) && CallsIn(p, calls) && (calls != [] ==> AgreeAfter(p, calls[..|calls| - 1]))
    ensures AgreeAfter(p, calls) <==> UnmixedAfter(p, calls)
    ensures calls != [] ==>
      var before, m := calls[..|calls| - 1], calls[|calls| - 1];
      WrappersAfter(p, calls).cs[m].err == EvaluateModule(p, StandardAfter(p, before), m).1
  {
    if calls == [] {
      var cs, st := Fresh(p).cs, StandardAfter(p, []);
      assert AllFit(cs, st, None) && AllClosed(p, st);
      AgreesUnmixed(p, cs, st);
    } else {
      var before := calls[..|calls| - 1];
      WrappersOk(p, before);
      CallAgrees(p, WrappersAfter(p, before), StandardAfter(p, before), calls[|calls| - 1]);
    }
  }

  /** Over any calls, the wrappers agree with the standard throughout if and only if at no point a module that
      ended normally is on a cycle with one that failed. */
  lemma {:induction false} AgreesIff(p: Program, calls: seq<nat>)
    requires Static(p) && CallsIn(p, calls)
    ensures (forall k: nat :: k <= |calls| ==> AgreeAfter(p, calls[..k]))
       <==> (forall k: nat :: k <= |calls| ==> UnmixedAfter(p, calls[..k]))
  {
    if forall k: nat :: k <= |calls| ==> AgreeAfter(p, calls[..k]) {
      forall k: nat | k <= |calls| ensures UnmixedAfter(p, calls[..k]) {
        assert AgreeAfter(p, calls[..k]);
        AgreesUnmixed(p, WrappersAfter(p, calls[..k]).cs, StandardAfter(p, calls[..k]));
      }
    }
    if forall k: nat :: k <= |calls| ==> UnmixedAfter(p, calls[..k]) {
      forall k: nat | k <= |calls| ensures AgreeAfter(p, calls[..k]) { AgreesUpTo(p, calls, k); }
    }
  }

  lemma {:induction false} AgreesUpTo(p: Program, calls: seq<nat>, k: nat)
    requires Static(p) && CallsIn(p, calls) && k <= |calls|
    requires forall j: nat :: j <= |calls| ==> UnmixedAfter(p, calls[..j])
    ensures AgreeAfter(p, calls[..k])
  {
    if k > 0 {
      AgreesUpTo(p, calls, k - 1);
      assert calls[..k][..k - 1] == calls[..k - 1];
    }
    assert UnmixedAfter(p, calls[..k]);
    NextAgrees(p, calls[..k]);
  }

  // ---------------------------------------------------------------- a cycle that fails in part

  /** Two modules that import each other, the first of which throws after its import. */
  function Pair(e: Error, a: Value, b: Value): Program {
    [Module([Import(1), Throw(e)], a), Module([Import(0)], b)]
  }

  /** After a call of the first the second has ended normally here, and has failed by the standard. */
  lemma PairSplits(e: Error, a: Value, b: Value)
    ensures var p := Pair(e, a, b);
      && Static(p) && Call(p, Fresh(p), 0).cs == [Closure(false, None, Some(e)), Closure(false, Some(b), None)]
      && !NoMixedCycle(p, Call(p, Fresh(p), 0).cs) && !AgreeAfter(p, [0])
  {
    var p := Pair(e, a, b);
    var zero, one: nat := 0, 1;
    PairCall(p, e, a, b, zero, one);
    assert Import(1) in p[0].body && Import(0) in p[1].body by {
      assert p[0].body[0] == Import(1) && p[1].body[0] == Import(0);
    }
    var cs := Call(p, Fresh(p), 0).cs;
    ReachesSelf(p, 0);
    ReachesSelf(p, 1);
    assert Edge(p, 0, 1) && Edge(p, 1, 0);
    ReachesEdge(p, 0, 0, 1);
    ReachesEdge(p, 1, 1, 0);
    assert MixedCycle(p, cs, 1, 0);
    OneCall(p, 0);
  }

  /** One call from the beginning: they agree if and only if it leaves no mixed cycle. */
  lemma OneCall(p: Program, m: nat)
    requires Static(p) && m < |p|
    ensures AgreeAfter(p, [m]) <==> NoMixedCycle(p, Call(p, Fresh(p), m).cs)
  {
    var calls, none: seq<nat> := [m], [];
    assert calls[..|calls| - 1] == none;
    NoCalls(p);
    NextAgrees(p, calls);
    assert CallsFrom(p, Fresh(p), none) == Fresh(p);
    assert WrappersAfter(p, calls) == Call(p, Fresh(p), m);
  }

  lemma NoCalls(p: Program)
    requires Static(p)
    ensures AgreeAfter(p, [])
  {
    var cs, st := Fresh(p).cs, StandardAfter(p, []);
    assert AllFit(cs, st, None) && AllClosed(p, st);
  }

  lemma PairCall(p: Program, e: Error, a: Value, b: Value, zero: nat, one: nat)
    requires p == Pair(e, a, b) && zero == 0 && one == 1
    ensures Closed(p) && Call(p, Fresh(p), zero).cs == [Closure(false, None, Some(e)), Closure(false, Some(b), None)]
  {
    var idle, busy := Closure(true, None, None), Closure(false, None, None);
    var w := Fresh(p);
    assert w.cs == [idle, idle];
    var w1 := World([busy, idle], [zero], []);
    var w2 := World([busy, busy], [zero] + [one], []);
    assert World(w.cs[zero := idle.(fn := false)], w.starts + [zero], w.order) == w1;
    assert World(w1.cs[one := idle.(fn := false)], w1.starts + [one], w1.order) == w2;
    assert Steps(p, w2, one, one) == (w2, None);
    assert Steps(p, w2, one, zero) == (w2, None);
    var w3 := World([busy, Closure(false, Some(b), None)], w2.starts, [one]);
    assert w2.cs[one := Ended(busy, b, None)] == w3.cs;
    assert Call(p, w1, one) == w3;
    assert Steps(p, w3, zero, one) == (w3, Some(e));
    assert Steps(p, w1, zero, zero) == (w3, Some(e));
    assert w3.cs[zero := Ended(busy, a, Some(e))] == [Closure(false, None, Some(e)), Closure(false, Some(b), None)];
  }
}
