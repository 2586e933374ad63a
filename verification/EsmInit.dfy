/** The run-once wrapper `__esm` of src/runtime.js under nested and cyclic imports. Each module's
    wrapper closes over `fn`, `res` and `err`; a body that imports calls other wrappers. */
module EsmInit {
  import opened Wrappers

  type Value = int
  type Error = int

  /** What the body of a module does, in order. An error thrown by an import ends the body unless
      the body catches it. */
  datatype Step =
    | Import(target: nat)
    | Attempt(target: nat)
    | Throw(error: Error)

  datatype Module = Module(body: seq<Step>, value: Value)

  type Program = seq<Module>

  ghost predicate Closed(p: Program) {
    forall m, k :: 0 <= m < |p| && 0 <= k < |p[m].body| && !p[m].body[k].Throw? ==> p[m].body[k].target < |p|
  }

  /** How a call of a wrapper ends; the result is `undefined` while the module is being evaluated. */
  datatype Outcome = Returned(res: Option<Value>) | Threw(error: Error)

  /** The variables of one wrapper; `fn` says whether it still holds the body. */
  datatype Closure = Closure(fn: bool, res: Option<Value>, err: Option<Error>) {
    predicate Running() { !fn && res.None? && err.None? }
    predicate Done() { !fn && res.Some? && err.None? }
    predicate Failed() { !fn && res.None? && err.Some? }
    predicate Pending() { fn && res.None? && err.None? }

    function Result(): Outcome {
      if err.Some? then Threw(err.value) else Returned(res)
    }
  }

  // ---------------------------------------------------------------- the import graph

  /** The body of `a` calls the wrapper of `b`. */
  ghost predicate Edge(p: Program, a: nat, b: nat) {
    a < |p| && b < |p| && (Import(b) in p[a].body || Attempt(b) in p[a].body)
  }

  ghost predicate IsPath(p: Program, path: seq<nat>) {
    |path| > 0 && forall k :: 0 <= k < |path| - 1 ==> Edge(p, path[k], path[k + 1])
  }

  ghost predicate Reaches(p: Program, a: nat, b: nat) {
    exists path :: IsPath(p, path) && path[0] == a && path[|path| - 1] == b
  }

  // ---------------------------------------------------------------- the state

  ghost predicate Distinct(s: seq<nat>) {
    forall i, j :: 0 <= i < j < |s| ==> s[i] != s[j]
  }

  /** The evaluation stack: each module on it is being evaluated for the one below. */
  ghost predicate StackOk(p: Program, cs: seq<Closure>, stack: seq<nat>) {
    && |cs| == |p|
    && Distinct(stack)
    && (stack != [] ==> IsPath(p, stack))
    && (forall k :: 0 <= k < |stack| ==> stack[k] < |p|)
    && (forall i :: 0 <= i < |cs| ==> (cs[i].Running() <==> i in stack))
    && (forall i :: 0 <= i < |cs| ==> cs[i].Pending() || cs[i].Running() || cs[i].Done() || cs[i].Failed())
  }

  /** Step `j` of `m` did not end its body: an import was completed then, or was still on the stack
      and so lies on a cycle with `m`. */
  ghost predicate Passed(p: Program, cs: seq<Closure>, m: nat, j: nat)
    requires |cs| == |p| && m < |p| && j < |p[m].body|
  {
    match p[m].body[j]
    case Throw(_) => false
    case Attempt(t) => t < |p| && !cs[t].fn
    case Import(t) => t < |p| && (cs[t].Done() || (!cs[t].fn && Reaches(p, t, m)))
  }

  ghost predicate PassedTo(p: Program, cs: seq<Closure>, m: nat, k: nat)
    requires |cs| == |p| && m < |p|
  {
    k <= |p[m].body| && forall j :: 0 <= j < k ==> Passed(p, cs, m, j)
  }

  /** The imports among the first `k` steps of `m` have finished normally or are on the stack. */
  ghost predicate ImportsMet(p: Program, cs: seq<Closure>, stack: seq<nat>, m: nat, k: nat)
    requires |cs| == |p| && m < |p|
  {
    && k <= |p[m].body|
    && forall j :: 0 <= j < k && p[m].body[j].Import? ==>
         p[m].body[j].target < |p| && (cs[p[m].body[j].target].Done() || p[m].body[j].target in stack)
  }

  /** Step `k` of `m` throws `e` itself or imports a module that had already failed with `e`;
      `prior` are the modules settled before. */
  ghost predicate Throws(p: Program, cs: seq<Closure>, prior: seq<nat>, m: nat, k: nat, e: Error)
    requires |cs| == |p| && m < |p|
  {
    k < |p[m].body| &&
    match p[m].body[k]
    case Throw(e') => e' == e
    case Attempt(_) => false
    case Import(t) => t < |p| && t in prior && cs[t].Failed() && cs[t].err == Some(e)
  }

  /** Module `m` ended as its body says: normally past all of its steps, or with the error of the
      first step that failed. */
  ghost predicate Settled(p: Program, cs: seq<Closure>, prior: seq<nat>, m: nat)
    requires |cs| == |p|
  {
    && m < |p|
    && (cs[m].Done() || cs[m].Failed())
    && (cs[m].Done() ==> cs[m].res == Some(p[m].value) && PassedTo(p, cs, m, |p[m].body|))
    && (cs[m].Failed() ==> FailedOk(p, cs, prior, m, cs[m].err.value))
  }

  ghost predicate FailedOk(p: Program, cs: seq<Closure>, prior: seq<nat>, m: nat, e: Error)
    requires |cs| == |p| && m < |p|
  {
    exists k :: 0 <= k < |p[m].body| && PassedTo(p, cs, m, k) && Throws(p, cs, prior, m, k, e)
  }

  /** `order` lists the modules whose evaluation has ended, in the order it did. */
  ghost predicate SettledOk(p: Program, cs: seq<Closure>, order: seq<nat>)
    requires |cs| == |p|
  {
    && (forall m :: 0 <= m < |p| && (cs[m].Done() || cs[m].Failed()) ==> m in order)
    && (forall i :: 0 <= i < |order| ==> Settled(p, cs, order[..i], order[i]))
  }

  ghost predicate StartsOk(cs: seq<Closure>, starts: seq<nat>) {
    && Distinct(starts)
    && forall i :: 0 <= i < |cs| ==> (i in starts <==> !cs[i].fn)
  }

  /** Nothing that has been started is touched again by calls made later. */
  ghost predicate Keeps(before: seq<Closure>, after: seq<Closure>) {
    && |before| == |after|
    && forall i :: 0 <= i < |before| && !before[i].fn ==> after[i] == before[i]
  }

  ghost function PendingSet(cs: seq<Closure>): set<nat> {
    set i | 0 <= i < |cs| && cs[i].fn
  }

  // ---------------------------------------------------------------- what a call does

  /** The wrappers' variables, the modules started so far and those ended so far, in order. */
  datatype World = World(cs: seq<Closure>, starts: seq<nat>, order: seq<nat>)

  /** A wrapper whose body ended. */
  function Ended(c: Closure, value: Value, thrown: Option<Error>): Closure {
    if thrown.Some? then c.(err := thrown) else c.(res := Some(value))
  }

  /** The state after a call of the wrapper of `m`: the body runs the first time only. */
  function Call(p: Program, w: World, m: nat): (r: World)
    requires Closed(p) && |w.cs| == |p| && m < |p|
    ensures |r.cs| == |p| && PendingSet(r.cs) <= PendingSet(w.cs) && !r.cs[m].fn
    decreases PendingSet(w.cs), 0
  {
    if !w.cs[m].fn then w
    else
      var begun := w.cs[m := w.cs[m].(fn := false)];
      assert m in PendingSet(w.cs) && m !in PendingSet(begun);
      var (inner, thrown) := Steps(p, World(begun, w.starts + [m], w.order), m, 0);
      World(inner.cs[m := Ended(inner.cs[m], p[m].value, thrown)], inner.starts, inner.order + [m])
  }

  /** The steps of `m` from `k` on, one after another in the order listed, up to the first error. */
  function Steps(p: Program, w: World, m: nat, k: nat): (r: (World, Option<Error>))
    requires Closed(p) && |w.cs| == |p| && m < |p| && k <= |p[m].body| && !w.cs[m].fn
    ensures |r.0.cs| == |p| && PendingSet(r.0.cs) <= PendingSet(w.cs) && !r.0.cs[m].fn
    decreases PendingSet(w.cs), 1, |p[m].body| - k
  {
    if k == |p[m].body| then (w, None)
    else match p[m].body[k]
      case Throw(e) => (w, Some(e))
      case Import(t) =>
        var next := Call(p, w, t);
        assert m !in PendingSet(w.cs);
        if next.cs[t].err.Some? then (next, next.cs[t].err) else Steps(p, next, m, k + 1)
      case Attempt(t) =>
        var next := Call(p, w, t);
        assert m !in PendingSet(w.cs);
        Steps(p, next, m, k + 1)
  }

  // ---------------------------------------------------------------- the wrappers

  class Runtime {
    const program: Program
    var closures: seq<Closure>
    /** Modules whose body was started, in order. */
    ghost var starts: seq<nat>
    /** Modules whose evaluation ended, in order. */
    ghost var order: seq<nat>

    ghost predicate Valid()
      reads this
    {
      Closed(program) && |closures| == |program|
    }

    ghost function Now(): World
      reads this
    {
      World(closures, starts, order)
    }

    constructor (program: Program)
      requires Closed(program)
      ensures Valid() && this.program == program && WorldOk(program, Now(), [])
      ensures starts == [] && order == [] && forall i :: 0 <= i < |closures| ==> closures[i].Pending()
    {
      this.program := program;
      closures := seq(|program|, _ => Closure(true, None, None));
      starts, order := [], [];
    }

    /** The function `__esm` returns for module `m`. */
    method Init(m: nat) returns (r: Outcome)
      requires Valid() && m < |program|
      modifies this
      ensures Valid() && Now() == Call(program, old(Now()), m) && r == closures[m].Result()
      decreases PendingSet(closures), 0
    {
      if closures[m].fn {
        assert m in PendingSet(closures);
        closures := closures[m := closures[m].(fn := false)];
        starts := starts + [m];
        assert m !in PendingSet(closures);
        var thrown := RunBody(m);
        if thrown.Some? {
          closures := closures[m := closures[m].(err := thrown)];
        } else {
          closures := closures[m := closures[m].(res := Some(program[m].value))];
        }
        order := order + [m];
      }
      r := closures[m].Result();
    }

    /** The body of module `m`; the error that it throws, if any. */
    method RunBody(m: nat) returns (thrown: Option<Error>)
      requires Valid() && m < |program| && !closures[m].fn
      modifies this
      ensures Valid() && Steps(program, old(Now()), m, 0) == (Now(), thrown)
      decreases PendingSet(closures), 2
    {
      thrown := None;
      for k := 0 to |program[m].body|
        invariant Valid() && !closures[m].fn && thrown == None
        invariant PendingSet(closures) <= old(PendingSet(closures))
        invariant Steps(program, old(Now()), m, 0) == Steps(program, Now(), m, k)
      {
        thrown := RunStep(m, k);
        if thrown.Some? { return; }
      }
    }

    /** Step `k` of the body; `None` if the body goes on. */
    method RunStep(m: nat, k: nat) returns (thrown: Option<Error>)
      requires Valid() && m < |program| && k < |program[m].body| && !closures[m].fn
      modifies this
      ensures Valid() && !closures[m].fn && PendingSet(closures) <= old(PendingSet(closures))
      ensures Steps(program, old(Now()), m, k)
           == if thrown.Some? then (Now(), thrown) else Steps(program, Now(), m, k + 1)
      decreases PendingSet(closures), 1
    {
      assert m !in PendingSet(closures);
      match program[m].body[k] {
        case Throw(e) =>
          thrown := Some(e);
        case Import(t) =>
          var inner := Init(t);
          thrown := if inner.Threw? then Some(inner.error) else None;
        case Attempt(t) =>
          var _ := Init(t);
          thrown := None;
      }
    }
  }

  // ---------------------------------------------------------------- what calls keep

  /** The modules on `stack` are being evaluated; all others are settled as they should be, or not started. */
  ghost predicate WorldOk(p: Program, w: World, stack: seq<nat>) {
    Closed(p) && StackOk(p, w.cs, stack) && SettledOk(p, w.cs, w.order) && StartsOk(w.cs, w.starts)
  }

  /** `r` is a later world: what was started or has ended stays as it is. */
  ghost predicate Later(w: World, r: World) {
    w.starts <= r.starts && w.order <= r.order && Keeps(w.cs, r.cs)
  }

  /** A call of the wrapper of `m` from the body on top of the stack, or from outside: afterwards `m` is
      settled, unless it is on the stack; a module that was started before is left alone, and the next
      module to start is `m` itself. */
  lemma {:induction false} CallOk(p: Program, w: World, stack: seq<nat>, m: nat)
    requires WorldOk(p, w, stack) && m < |p| && (stack != [] ==> Edge(p, stack[|stack| - 1], m))
    ensures var r := Call(p, w, m);
      && WorldOk(p, r, stack) && Later(w, r) && !r.cs[m].fn && (r.cs[m].Running() ==> m in stack)
      && (if w.cs[m].fn then |w.starts| < |r.starts| && r.starts[|w.starts|] == m && r.order[|r.order| - 1] == m
          else r == w)
    decreases PendingSet(w.cs), 0
  {
    if w.cs[m].fn {
      var begun := World(w.cs[m := w.cs[m].(fn := false)], w.starts + [m], w.order);
      EnterLemma(p, w.cs, stack, w.starts, w.order, m);
      StepsOk(p, begun, stack + [m], m, 0);
      var (inner, thrown) := Steps(p, begun, m, 0);
      BodyEnds(p, w, begun, stack, m, inner, thrown);
    }
  }

  /** The end of the body of `m`, which was entered from `w`. */
  lemma BodyEnds(p: Program, w: World, begun: World, stack: seq<nat>, m: nat, inner: World, thrown: Option<Error>)
    requires WorldOk(p, inner, stack + [m]) && m < |p| && |w.cs| == |p| && w.cs[m].Pending() && Later(begun, inner)
    requires begun == World(w.cs[m := w.cs[m].(fn := false)], w.starts + [m], w.order) && inner.cs[m] == begun.cs[m]
    requires thrown.None? ==> PassedTo(p, inner.cs, m, |p[m].body|)
    requires thrown.Some? ==> FailedOk(p, inner.cs, inner.order, m, thrown.value)
    ensures var r := World(inner.cs[m := Ended(inner.cs[m], p[m].value, thrown)], inner.starts, inner.order + [m]);
      && WorldOk(p, r, stack) && Later(w, r) && !r.cs[m].fn && !r.cs[m].Running()
      && |w.starts| < |r.starts| && r.starts[|w.starts|] == m && r.order[|r.order| - 1] == m
  {
    LeaveLemma(p, inner.cs, stack, inner.starts, inner.order, m, Ended(inner.cs[m], p[m].value, thrown));
    assert begun.starts[|w.starts|] == m;
  }

  /** The body on top of the stack, from step `k` on: it returns only if every import has finished normally or
      is on the stack, and throws its own error or that of an import that failed. */
  lemma {:induction false} StepsOk(p: Program, w: World, stack: seq<nat>, m: nat, k: nat)
    requires WorldOk(p, w, stack) && stack != [] && stack[|stack| - 1] == m && k <= |p[m].body| && !w.cs[m].fn
    requires PassedTo(p, w.cs, m, k) && ImportsMet(p, w.cs, stack, m, k)
    ensures var (r, thrown) := Steps(p, w, m, k);
      && WorldOk(p, r, stack) && Later(w, r) && r.cs[m] == w.cs[m]
      && (thrown.None? ==> PassedTo(p, r.cs, m, |p[m].body|) && ImportsMet(p, r.cs, stack, m, |p[m].body|))
      && (thrown.Some? ==> FailedOk(p, r.cs, r.order, m, thrown.value))
    decreases PendingSet(w.cs), 1, |p[m].body| - k
  {
    if k < |p[m].body| && !p[m].body[k].Throw? {
      var t := p[m].body[k].target;
      EdgeAt(p, m, k);
      CallOk(p, w, stack, t);
      var next := Call(p, w, t);
      StepPassed(p, w, stack, m, k, next);
      if !(p[m].body[k].Import? && next.cs[t].err.Some?) { StepsOk(p, next, stack, m, k + 1); }
    }
  }

  /** A step that calls a wrapper and goes on has been passed; else its error is the body's. */
  lemma StepPassed(p: Program, w: World, stack: seq<nat>, m: nat, k: nat, next: World)
    requires WorldOk(p, w, stack) && WorldOk(p, next, stack) && Later(w, next)
    requires stack != [] && stack[|stack| - 1] == m && k < |p[m].body| && !p[m].body[k].Throw?
    requires PassedTo(p, w.cs, m, k) && ImportsMet(p, w.cs, stack, m, k)
    requires var t := p[m].body[k].target; t < |p| && !next.cs[t].fn
    ensures if p[m].body[k].Import? && next.cs[p[m].body[k].target].err.Some?
            then FailedOk(p, next.cs, next.order, m, next.cs[p[m].body[k].target].err.value)
            else PassedTo(p, next.cs, m, k + 1) && ImportsMet(p, next.cs, stack, m, k + 1)
  {
    PassedKept(p, w.cs, next.cs, m, k);
    StillOnStack(p, next.cs, stack, p[m].body[k].target);
  }

  lemma EdgeAt(p: Program, m: nat, k: nat)
    requires Closed(p) && m < |p| && k < |p[m].body| && !p[m].body[k].Throw?
    ensures Edge(p, m, p[m].body[k].target)
  {
    assert p[m].body[k] in p[m].body;
  }

  /** Passed steps stay passed. */
  lemma PassedKept(p: Program, before: seq<Closure>, after: seq<Closure>, m: nat, k: nat)
    requires |before| == |p| && m < |p| && Keeps(before, after) && PassedTo(p, before, m, k)
    ensures PassedTo(p, after, m, k)
  {
    forall j | 0 <= j < k ensures Passed(p, after, m, j) { assert Passed(p, before, m, j); }
  }

  /** A module that is found running is below the top of the stack. */
  lemma StillOnStack(p: Program, cs: seq<Closure>, stack: seq<nat>, t: nat)
    requires StackOk(p, cs, stack) && stack != [] && t < |p|
    ensures cs[t].Running() ==> Reaches(p, t, stack[|stack| - 1])
  {
    if cs[t].Running() { StackReaches(p, stack, t); }
  }

  lemma KeepsPending(before: seq<Closure>, after: seq<Closure>)
    requires Keeps(before, after)
    ensures PendingSet(after) <= PendingSet(before)
  {
  }

  lemma EnterLemma(p: Program, cs: seq<Closure>, stack: seq<nat>, starts: seq<nat>, order: seq<nat>, m: nat)
    requires StackOk(p, cs, stack) && SettledOk(p, cs, order) && StartsOk(cs, starts)
    requires m < |p| && cs[m].fn
    requires stack != [] ==> Edge(p, stack[|stack| - 1], m)
    ensures var cs' := cs[m := cs[m].(fn := false)];
            && StackOk(p, cs', stack + [m]) && SettledOk(p, cs', order) && StartsOk(cs', starts + [m])
            && PendingSet(cs') < PendingSet(cs)
  {
    var cs' := cs[m := cs[m].(fn := false)];
    assert m in PendingSet(cs) && m !in PendingSet(cs');
    SettledKept(p, cs, cs', order, m);
  }

  /** Changing a module that is not settled leaves the settled ones as they should be. */
  lemma SettledKept(p: Program, cs: seq<Closure>, cs': seq<Closure>, order: seq<nat>, m: nat)
    requires |cs| == |p| == |cs'| && m < |p| && SettledOk(p, cs, order)
    requires (cs[m].Pending() || cs[m].Running()) && !cs'[m].fn && cs' == cs[m := cs'[m]]
    ensures forall i :: 0 <= i < |order| ==> Settled(p, cs', order[..i], order[i])
  {
    forall i | 0 <= i < |order| ensures Settled(p, cs', order[..i], order[i]) {
      SettledOneKept(p, cs, cs', order[..i], order[i], m);
    }
  }

  lemma SettledOneKept(p: Program, cs: seq<Closure>, cs': seq<Closure>, prior: seq<nat>, n: nat, m: nat)
    requires |cs| == |p| == |cs'| && m < |p| && Settled(p, cs, prior, n)
    requires (cs[m].Pending() || cs[m].Running()) && !cs'[m].fn && cs' == cs[m := cs'[m]]
    ensures Settled(p, cs', prior, n)
  {
    PassedStill(p, cs, cs', n, m);
    if cs[n].Failed() { FailedStill(p, cs, cs', prior, n, m, cs[n].err.value); }
  }

  lemma PassedStill(p: Program, cs: seq<Closure>, cs': seq<Closure>, n: nat, m: nat)
    requires |cs| == |p| == |cs'| && m < |p| && n < |p|
    requires (cs[m].Pending() || cs[m].Running()) && !cs'[m].fn && cs' == cs[m := cs'[m]]
    ensures forall k: nat :: PassedTo(p, cs, n, k) ==> PassedTo(p, cs', n, k)
  {
    forall k: nat | PassedTo(p, cs, n, k) ensures PassedTo(p, cs', n, k) {
      forall j | 0 <= j < k ensures Passed(p, cs', n, j) { assert Passed(p, cs, n, j); }
    }
  }

  lemma FailedStill(p: Program, cs: seq<Closure>, cs': seq<Closure>, prior: seq<nat>, n: nat, m: nat, e: Error)
    requires |cs| == |p| == |cs'| && m < |p| && n < |p| && FailedOk(p, cs, prior, n, e)
    requires (cs[m].Pending() || cs[m].Running()) && !cs'[m].fn && cs' == cs[m := cs'[m]]
    ensures FailedOk(p, cs', prior, n, e)
  {
    PassedStill(p, cs, cs', n, m);
    var k :| 0 <= k < |p[n].body| && PassedTo(p, cs, n, k) && Throws(p, cs, prior, n, k, e);
    assert Throws(p, cs', prior, n, k, e);
  }

  /** A module on the stack reaches the one on top of it. */
  lemma StackReaches(p: Program, stack: seq<nat>, i: nat)
    requires stack != [] && IsPath(p, stack) && i in stack
    ensures Reaches(p, i, stack[|stack| - 1])
  {
    var k :| 0 <= k < |stack| && stack[k] == i;
    var path := stack[k..];
    assert IsPath(p, path) by {
      forall j | 0 <= j < |path| - 1 ensures Edge(p, path[j], path[j + 1]) {
        assert Edge(p, stack[k + j], stack[k + j + 1]);
      }
    }
    assert path[0] == i && path[|path| - 1] == stack[|stack| - 1];
  }

  lemma LeaveStack(p: Program, cs: seq<Closure>, stack: seq<nat>, m: nat, c: Closure)
    requires StackOk(p, cs, stack + [m])
    requires m < |p| && (c.Done() || c.Failed())
    ensures StackOk(p, cs[m := c], stack)
  {
    var s := stack + [m];
    assert forall k :: 0 <= k < |stack| ==> s[k] == stack[k];
    assert s[|stack|] == m;
    assert stack != [] ==> IsPath(p, stack) by {
      forall k | 0 <= k < |stack| - 1 ensures Edge(p, stack[k], stack[k + 1]) { assert Edge(p, s[k], s[k + 1]); }
    }
    forall i, j | 0 <= i < j < |stack| ensures stack[i] != stack[j] { assert s[i] != s[j]; }
    forall i | 0 <= i < |cs| ensures cs[m := c][i].Running() <==> i in stack {
      if i in stack {
        var k :| 0 <= k < |stack| && stack[k] == i;
        assert s[k] != s[|stack|];
      }
      assert i in s <==> i in stack || i == m;
    }
  }

  lemma LeaveLemma(p: Program, cs: seq<Closure>, stack: seq<nat>, starts: seq<nat>, order: seq<nat>, m: nat, c: Closure)
    requires StackOk(p, cs, stack + [m]) && SettledOk(p, cs, order) && StartsOk(cs, starts)
    requires m < |p| && (c.Done() || c.Failed())
    requires c.Done() ==> c.res == Some(p[m].value) && PassedTo(p, cs, m, |p[m].body|)
    requires c.Failed() ==> FailedOk(p, cs, order, m, c.err.value)
    ensures var cs' := cs[m := c];
            StackOk(p, cs', stack) && SettledOk(p, cs', order + [m]) && StartsOk(cs', starts)
  {
    var s, cs' := stack + [m], cs[m := c];
    assert s[|stack|] == m;
    LeaveStack(p, cs, stack, m, c);
    SettledKept(p, cs, cs', order, m);
    PassedStill(p, cs, cs', m, m);
    if c.Failed() { FailedStill(p, cs, cs', order, m, m, c.err.value); }
    var order' := order + [m];
    forall i | 0 <= i < |order'| ensures Settled(p, cs', order'[..i], order'[i]) {
      assert order'[..i] == order[..i] || i == |order|;
      assert i == |order| ==> order'[..i] == order;
    }
    forall n | 0 <= n < |p| && (cs'[n].Done() || cs'[n].Failed()) ensures n in order' {
      assert order'[|order|] == m;
    }
  }

  // ---------------------------------------------------------------- acyclic programs

  /** An order in which every import comes before its importer. */
  ghost predicate Ranked(p: Program, rank: seq<nat>) {
    |rank| == |p| && forall a: nat, b: nat :: Edge(p, a, b) ==> rank[b] < rank[a]
  }

  /** What importing `m` means without wrappers: every import evaluates its target anew. */
  ghost function Evaluate(p: Program, rank: seq<nat>, m: nat): Outcome
    requires Closed(p) && Ranked(p, rank) && m < |p|
    decreases rank[m], |p[m].body| + 1
  {
    EvaluateFrom(p, rank, m, 0)
  }

  ghost function EvaluateFrom(p: Program, rank: seq<nat>, m: nat, k: nat): Outcome
    requires Closed(p) && Ranked(p, rank) && m < |p| && k <= |p[m].body|
    decreases rank[m], |p[m].body| - k
  {
    if k == |p[m].body| then Returned(Some(p[m].value))
    else
      match p[m].body[k]
      case Throw(e) => Threw(e)
      case Attempt(_) => EvaluateFrom(p, rank, m, k + 1)
      case Import(t) =>
        assert Edge(p, m, t) by { EdgeAt(p, m, k); }
        var inner := Evaluate(p, rank, t);
        if inner.Threw? then inner else EvaluateFrom(p, rank, m, k + 1)
  }

  lemma {:induction false} PathDescends(p: Program, rank: seq<nat>, path: seq<nat>)
    requires Ranked(p, rank) && IsPath(p, path) && path[0] < |p|
    ensures path[|path| - 1] < |p| && rank[path[|path| - 1]] <= rank[path[0]]
    decreases |path|
  {
    if |path| > 1 {
      assert Edge(p, path[0], path[1]);
      var rest := path[1..];
      assert IsPath(p, rest) by {
        forall k | 0 <= k < |rest| - 1 ensures Edge(p, rest[k], rest[k + 1]) {
          assert Edge(p, path[k + 1], path[k + 2]);
        }
      }
      PathDescends(p, rank, rest);
    }
  }

  lemma ReachDescends(p: Program, rank: seq<nat>, a: nat, b: nat)
    requires Ranked(p, rank) && Reaches(p, a, b) && a < |p| && b < |p|
    ensures rank[b] <= rank[a]
  {
    var path :| IsPath(p, path) && path[0] == a && path[|path| - 1] == b;
    PathDescends(p, rank, path);
  }

  /** Evaluating an import whenever it is met, and once only, come to the same on an acyclic
      program, whatever calls were made before. */
  lemma {:induction false} OnceIsEnough(p: Program, rank: seq<nat>, cs: seq<Closure>, order: seq<nat>, m: nat)
    requires Closed(p) && Ranked(p, rank) && |cs| == |p| && SettledOk(p, cs, order)
    requires m < |p| && (cs[m].Done() || cs[m].Failed())
    ensures cs[m].Result() == Evaluate(p, rank, m)
    decreases rank[m], 1
  {
    var i :| 0 <= i < |order| && order[i] == m;
    assert Settled(p, cs, order[..i], m);
    if cs[m].Done() {
      StepsAgree(p, rank, cs, order, m, |p[m].body|);
    } else {
      var e := cs[m].err.value;
      var k :| 0 <= k < |p[m].body| && PassedTo(p, cs, m, k) && Throws(p, cs, order[..i], m, k, e);
      StepsAgree(p, rank, cs, order, m, k);
      if p[m].body[k].Import? {
        EdgeAt(p, m, k);
        OnceIsEnough(p, rank, cs, order, p[m].body[k].target);
      }
    }
  }

  /** Passed steps do not end the evaluation either. */
  lemma {:induction false} StepsAgree(p: Program, rank: seq<nat>, cs: seq<Closure>, order: seq<nat>, m: nat, k: nat)
    requires Closed(p) && Ranked(p, rank) && |cs| == |p| && SettledOk(p, cs, order)
    requires m < |p| && PassedTo(p, cs, m, k)
    ensures EvaluateFrom(p, rank, m, 0) == EvaluateFrom(p, rank, m, k)
    decreases rank[m], 0, k
  {
    if k > 0 {
      StepsAgree(p, rank, cs, order, m, k - 1);
      assert Passed(p, cs, m, k - 1);
      if p[m].body[k - 1].Import? {
        EdgeAt(p, m, k - 1);
        var t := p[m].body[k - 1].target;
        if cs[t].Done() {
          OnceIsEnough(p, rank, cs, order, t);
        } else {
          ReachDescends(p, rank, t, m);
        }
      }
    }
  }

  /** Any sequence of calls from outside: every body is started at most once, no module is left
      half evaluated, every call of a module ends the same way, and on an acyclic program it ends
      as plain evaluation does. */
  method CallAll(rt: Runtime, calls: seq<nat>, ghost rank: seq<nat>) returns (rs: seq<Outcome>)
    requires rt.Valid() && WorldOk(rt.program, rt.Now(), [])
    requires forall i :: 0 <= i < |calls| ==> calls[i] < |rt.program|
    modifies rt
    ensures rt.Valid() && WorldOk(rt.program, rt.Now(), []) && Later(old(rt.Now()), rt.Now())
    ensures Distinct(rt.starts) && |rs| == |calls|
    ensures rt.Now() == CallsFrom(rt.program, old(rt.Now()), calls)
    ensures forall i :: 0 <= i < |calls| ==> SettledAs(rt.closures, calls[i], rs[i])
    ensures Ranked(rt.program, rank) ==>
              forall i :: 0 <= i < |calls| ==> rs[i] == Evaluate(rt.program, rank, calls[i])
  {
    rs := [];
    ghost var start := rt.Now();
    for k := 0 to |calls|
      invariant rt.Valid() && |rs| == k && CalledOk(rt.program, start, calls[..k], rt.Now(), rs)
    {
      assert calls[..k + 1] == calls[..k] + [calls[k]];
      CalledMore(rt.program, start, calls[..k], rt.Now(), rs, calls[k]);
      var r := rt.Init(calls[k]);
      rs := rs + [r];
    }
    assert calls[..|calls|] == calls;
    if Ranked(rt.program, rank) {
      forall i | 0 <= i < |calls| ensures rs[i] == Evaluate(rt.program, rank, calls[i]) {
        assert SettledAs(rt.closures, calls[i], rs[i]);
        OnceIsEnough(rt.program, rank, rt.closures, rt.order, calls[i]);
      }
    }
  }

  /** The calls lead from `start` to `w` and gave `rs`. */
  ghost predicate CalledOk(p: Program, start: World, calls: seq<nat>, w: World, rs: seq<Outcome>) {
    && WorldOk(p, w, []) && Later(start, w) && |rs| == |calls| && |start.cs| == |p|
    && (forall i :: 0 <= i < |calls| ==> calls[i] < |p| && SettledAs(w.cs, calls[i], rs[i]))
    && w == CallsFrom(p, start, calls)
  }

  lemma CalledMore(p: Program, start: World, calls: seq<nat>, w: World, rs: seq<Outcome>, m: nat)
    requires CalledOk(p, start, calls, w, rs) && m < |p|
    ensures CalledOk(p, start, calls + [m], Call(p, w, m), rs + [Call(p, w, m).cs[m].Result()])
  {
    var more, r := calls + [m], Call(p, w, m);
    CallOk(p, w, [], m);
    assert more[..|calls|] == calls;
    forall i | 0 <= i < |calls| ensures SettledAs(r.cs, calls[i], rs[i]) {
      assert SettledAs(w.cs, calls[i], rs[i]);
    }
  }

  /** The state after calls from outside, one after another. */
  ghost function CallsFrom(p: Program, w: World, calls: seq<nat>): (r: World)
    requires Closed(p) && |w.cs| == |p| && forall i :: 0 <= i < |calls| ==> calls[i] < |p|
    ensures |r.cs| == |p|
  {
    if calls == [] then w else Call(p, CallsFrom(p, w, calls[..|calls| - 1]), calls[|calls| - 1])
  }

  ghost predicate SettledAs(cs: seq<Closure>, m: nat, r: Outcome) {
    m < |cs| && (cs[m].Done() || cs[m].Failed()) && cs[m].Result() == r
  }

  /** An error that a wrapper throws was thrown by a body it reaches through imports, cycles or not. */
  lemma {:induction false} ErrorHasOrigin(p: Program, cs: seq<Closure>, order: seq<nat>, i: nat) returns (origin: nat)
    requires |cs| == |p| && SettledOk(p, cs, order) && i < |order| && order[i] < |p| && cs[order[i]].Failed()
    ensures origin < |p| && Reaches(p, order[i], origin) && Throw(cs[order[i]].err.value) in p[origin].body
    decreases i
  {
    var m := order[i];
    var e := cs[m].err.value;
    assert Settled(p, cs, order[..i], m);
    var k :| 0 <= k < |p[m].body| && PassedTo(p, cs, m, k) && Throws(p, cs, order[..i], m, k, e);
    assert p[m].body[k] in p[m].body;
    if p[m].body[k].Throw? {
      origin := m;
      assert IsPath(p, [m]);
    } else {
      var t := p[m].body[k].target;
      var j :| 0 <= j < i && order[..i][j] == t;
      origin := ErrorHasOrigin(p, cs, order, j);
      PrependReach(p, m, t, origin);
    }
  }

  lemma PrependReach(p: Program, a: nat, b: nat, c: nat)
    requires Edge(p, a, b) && Reaches(p, b, c)
    ensures Reaches(p, a, c)
  {
    var path :| IsPath(p, path) && path[0] == b && path[|path| - 1] == c;
    var longer := [a] + path;
    assert IsPath(p, longer) by {
      forall k | 0 <= k < |longer| - 1 ensures Edge(p, longer[k], longer[k + 1]) {
        if k > 0 { assert Edge(p, path[k - 1], path[k]); }
      }
    }
    assert longer[0] == a && longer[|longer| - 1] == c;
  }
}
