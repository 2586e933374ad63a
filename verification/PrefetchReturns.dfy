/** When the stamps of scripts/prefetch-deps.ts can be trusted: exactly when no run goes back to an identity
    that a run before it had replaced, unless that identity's tree is nothing but its stamp. */
module PrefetchReturns {
  import opened Wrappers
  import opened Prefetch
  import opened PrefetchWorkers

  // ---------------------------------------------------------------- walks

  ghost predicate Walks(env: Env, ys: seq<System>, y: System, z: System) {
    |ys| > 0 && ys[0] == y && ys[|ys| - 1] == z && forall i: nat :: Linked(env, ys, i)
  }

  /** Some execution leads from `y` to `z`. */
  ghost predicate Leads(env: Env, y: System, z: System) {
    exists ys :: Walks(env, ys, y, z)
  }

  lemma Stays(env: Env, y: System)
    ensures Leads(env, y, y)
  {
    assert Walks(env, [y], y, y);
  }

  lemma Onward(env: Env, y: System, z: System, next: System)
    requires Leads(env, y, z) && SystemNext(env, z, next)
    ensures Leads(env, y, next)
  {
    var ys :| Walks(env, ys, y, z);
    var more := ys + [next];
    forall i: nat ensures Linked(env, more, i) {
      assert Linked(env, ys, i);
    }
    assert Walks(env, more, y, next);
  }

  // ---------------------------------------------------------------- one worker at work

  /** The first worker is at item `k`, and the others have not begun. */
  ghost predicate AtWork(s: State, items: seq<Item>, fs: FileSystem, k: nat, phase: Phase) {
    && s.all == items && k < |items| && |s.taken| == k + 1 && s.queue == items[k + 1..]
    && s.workers == [Busy(k, phase), Idle, Idle, Idle] && s.fs == fs
  }

  lemma FirstItem(env: Env, y: System, hist: seq<seq<Item>>, items: seq<Item>, fs: FileSystem) returns (s: State)
    requires items != [] && Leads(env, y, System(hist, Fresh(items, fs)))
    ensures AtWork(s, items, fs, 0, Download) && Leads(env, y, System(hist, s))
  {
    var from := Fresh(items, fs);
    s := State(items, items[1..], [items[0].url], [Busy(0, Download), Idle, Idle, Idle], fs);
    assert s.taken == from.taken + [items[0].url];
    var w: nat := 0;
    assert Step(env, from, s, w);
    Onward(env, y, System(hist, from), System(hist, s));
  }

  /** A step of the item. */
  lemma Work(env: Env, y: System, hist: seq<seq<Item>>, items: seq<Item>, s: State, fs: FileSystem, k: nat,
             phase: Phase, phase': Phase, fs': FileSystem)
    returns (s': State)
    requires Leads(env, y, System(hist, s))
    requires AtWork(s, items, fs, k, phase) && ItemStep(env, items[k], phase, fs, Stay(phase'), fs')
    ensures AtWork(s', items, fs', k, phase') && Leads(env, y, System(hist, s'))
  {
    s' := s.(workers := [Busy(k, phase'), Idle, Idle, Idle], fs := fs');
    assert s'.workers == s.workers[0 := After(k, Stay(phase'))];
    var w: nat := 0;
    assert Step(env, s, s', w);
    Onward(env, y, System(hist, s), System(hist, s'));
  }

  /** Leaving an item alone. */
  lemma Leave(env: Env, y: System, hist: seq<seq<Item>>, items: seq<Item>, s: State, fs: FileSystem, k: nat)
    returns (t: State)
    requires AtWork(s, items, fs, k, Download) && Leads(env, y, System(hist, s))
    ensures t == s.(workers := [Idle, Idle, Idle, Idle]) && Leads(env, y, System(hist, t))
  {
    t := s.(workers := [Idle, Idle, Idle, Idle]);
    assert ItemStep(env, items[k], Download, fs, Finished, fs);
    assert t.workers == s.workers[0 := After(k, Finished)];
    var w: nat := 0;
    assert Step(env, s, t, w);
    Onward(env, y, System(hist, s), System(hist, t));
  }

  lemma NextItem(env: Env, y: System, hist: seq<seq<Item>>, items: seq<Item>, t: State, fs: FileSystem, k: nat)
    returns (s: State)
    requires t.all == items && k + 1 < |items| && |t.taken| == k + 1 && t.queue == items[k + 1..]
    requires t.workers == [Idle, Idle, Idle, Idle] && t.fs == fs && Leads(env, y, System(hist, t))
    ensures AtWork(s, items, fs, k + 1, Download) && Leads(env, y, System(hist, s))
  {
    s := State(items, items[k + 2..], t.taken + [items[k + 1].url], [Busy(k + 1, Download), Idle, Idle, Idle], fs);
    assert t.queue[1..] == items[k + 2..] && t.queue[0] == items[k + 1];
    assert s.workers == t.workers[0 := Busy(|t.taken|, Download)];
    var w: nat := 0;
    assert Step(env, t, s, w);
    Onward(env, y, System(hist, t), System(hist, s));
  }

  lemma {:induction false} ToItem(env: Env, y: System, hist: seq<seq<Item>>, items: seq<Item>, fs: FileSystem, k: nat)
    returns (s: State)
    requires k < |items| && Leads(env, y, System(hist, Fresh(items, fs)))
    ensures AtWork(s, items, fs, k, Download) && Leads(env, y, System(hist, s))
  {
    if k == 0 {
      s := FirstItem(env, y, hist, items, fs);
    } else {
      s := ToItem(env, y, hist, items, fs, k - 1);
      var t := Leave(env, y, hist, items, s, fs, k - 1);
      s := NextItem(env, y, hist, items, t, fs, k - 1);
    }
  }

  function Staged(env: Env, it: Item, fs: FileSystem): FileSystem
    requires it.extract.Some?
  {
    var staging := Staging(it.extract.value.name);
    (fs - {staging})[staging := Complete(env, it)]
  }

  /** The staging directory is made. */
  lemma ToExtracting(env: Env, y: System, hist: seq<seq<Item>>, items: seq<Item>, fs: FileSystem, k: nat)
    returns (s: State)
    requires k < |items| && items[k].extract.Some? && Leads(env, y, System(hist, Fresh(items, fs)))
    requires Stamp(fs, items[k].extract.value.name) != Some(items[k].extract.value.value)
    ensures var staging := Staging(items[k].extract.value.name);
      AtWork(s, items, (fs - {staging})[staging := map[]], k, Extracting)
    ensures Leads(env, y, System(hist, s))
  {
    var staging := Staging(items[k].extract.value.name);
    var clear := fs - {staging};
    s := ToItem(env, y, hist, items, fs, k);
    s := Work(env, y, hist, items, s, fs, k, Download, Check, fs);
    s := Work(env, y, hist, items, s, fs, k, Check, ClearStaging, fs);
    s := Work(env, y, hist, items, s, fs, k, ClearStaging, MakeStaging, clear);
    s := Work(env, y, hist, items, s, clear, k, MakeStaging, Extracting, clear[staging := map[]]);
  }

  /** Everything up to the removal of the old tree, when its stamp is another one. */
  lemma ToRemoveOld(env: Env, y: System, hist: seq<seq<Item>>, items: seq<Item>, fs: FileSystem, k: nat)
    returns (s: State)
    requires k < |items| && items[k].extract.Some? && Leads(env, y, System(hist, Fresh(items, fs)))
    requires Stamp(fs, items[k].extract.value.name) != Some(items[k].extract.value.value)
    ensures AtWork(s, items, Staged(env, items[k], fs), k, RemoveOld) && Leads(env, y, System(hist, s))
  {
    var it := items[k];
    var x := it.extract.value;
    var staging := Staging(x.name);
    var made := (fs - {staging})[staging := map[]];
    var full := made[staging := env.archive(it.url)];
    var pruned := full[staging := Prune(env.archive(it.url), x.remove)];
    s := ToExtracting(env, y, hist, items, fs, k);
    assert Touches(made, full, staging);
    s := Work(env, y, hist, items, s, made, k, Extracting, Extracting, full);
    s := Work(env, y, hist, items, s, full, k, Extracting, Pruning, full);
    assert Shrinks(full, pruned, staging);
    s := Work(env, y, hist, items, s, full, k, Pruning, Pruning, pruned);
    s := Work(env, y, hist, items, s, pruned, k, Pruning, Stamping, pruned);
    var stamped := pruned[staging := pruned[staging][STAMP := x.value]];
    s := Work(env, y, hist, items, s, pruned, k, Stamping, RemoveOld, stamped);
    assert stamped == Staged(env, it, fs);
  }

  /** An item's tree is published. */
  lemma ToPublished(env: Env, y: System, hist: seq<seq<Item>>, items: seq<Item>, fs: FileSystem, k: nat)
    returns (s: State)
    requires k < |items| && items[k].extract.Some? && Leads(env, y, System(hist, Fresh(items, fs)))
    requires Stamp(fs, items[k].extract.value.name) != Some(items[k].extract.value.value)
    ensures Leads(env, y, System(hist, s))
    ensures var out := items[k].extract.value.name; out in s.fs && s.fs[out] == Complete(env, items[k])
  {
    var out := items[k].extract.value.name;
    StagingDiffers(out);
    var staged := Staged(env, items[k], fs);
    s := ToRemoveOld(env, y, hist, items, fs, k);
    s := Work(env, y, hist, items, s, staged, k, RemoveOld, Publish, staged - {out});
    var published := (staged - {out} - {Staging(out)})[out := staged[Staging(out)]];
    s := Work(env, y, hist, items, s, staged - {out}, k, Publish, Cleanup, published);
  }

  /** A file of the old tree is removed, before its stamp. */
  lemma ToTorn(env: Env, y: System, hist: seq<seq<Item>>, items: seq<Item>, fs: FileSystem, k: nat, p: string)
    returns (s: State)
    requires k < |items| && items[k].extract.Some? && Leads(env, y, System(hist, Fresh(items, fs)))
    requires Stamp(fs, items[k].extract.value.name) != Some(items[k].extract.value.value)
    requires items[k].extract.value.name in fs
    ensures Leads(env, y, System(hist, s))
    ensures var out := items[k].extract.value.name; out in s.fs && s.fs[out] == fs[out] - {p}
  {
    var out := items[k].extract.value.name;
    StagingDiffers(out);
    var staged := Staged(env, items[k], fs);
    s := ToRemoveOld(env, y, hist, items, fs, k);
    assert Shrinks(staged, staged[out := fs[out] - {p}], out);
    s := Work(env, y, hist, items, s, staged, k, RemoveOld, RemoveOld, staged[out := fs[out] - {p}]);
  }

  // ---------------------------------------------------------------- interrupted runs

  ghost predicate AllOk(env: Env, hist: seq<seq<Item>>) {
    forall r: nat :: RunOk(env, hist, r)
  }

  ghost predicate RunOk(env: Env, hist: seq<seq<Item>>, r: nat) {
    r < |hist| ==> ItemsOk(env, hist[r])
  }

  /** A run is interrupted and the next one starts. */
  lemma Restart(env: Env, y: System, hist: seq<seq<Item>>, items: seq<Item>, s: State)
    requires ItemsOk(env, items) && Leads(env, y, System(hist, s))
    ensures Leads(env, y, System(hist + [items], Fresh(items, s.fs)))
  {
    assert SystemNext(env, System(hist, s), System(hist + [items], Fresh(items, s.fs)));
    Onward(env, y, System(hist, s), System(hist + [items], Fresh(items, s.fs)));
  }

  /** Runs that are interrupted at once. */
  lemma {:induction false} Skip(env: Env, y: System, hist: seq<seq<Item>>, m: nat, n: nat, s: State)
    requires AllOk(env, hist) && m < n <= |hist| && Leads(env, y, System(hist[..m], s))
    ensures Leads(env, y, System(hist[..n], Fresh(hist[n - 1], s.fs)))
  {
    assert RunOk(env, hist, n - 1);
    assert hist[..n] == hist[..n - 1] + [hist[n - 1]];
    if m < n - 1 {
      Skip(env, y, hist, m, n - 1, s);
      Restart(env, y, hist[..n - 1], hist[n - 1], Fresh(hist[n - 2], s.fs));
    } else {
      Restart(env, y, hist[..m], hist[m], s);
    }
  }

  ghost function Begin(hist: seq<seq<Item>>): System
    requires hist != []
  {
    System([hist[0]], Fresh(hist[0], map[]))
  }

  lemma ToRun(env: Env, hist: seq<seq<Item>>, r: nat)
    requires AllOk(env, hist) && r < |hist|
    ensures Leads(env, Begin(hist), System(hist[..r + 1], Fresh(hist[r], map[])))
  {
    Stays(env, Begin(hist));
    assert hist[..1] == [hist[0]];
    if r > 0 { Skip(env, Begin(hist), hist, 1, r + 1, Fresh(hist[0], map[])); }
  }

  lemma IndexOf(items: seq<Item>, name: string, value: string) returns (k: nat)
    requires Wants(items, name, value)
    ensures k < |items| && items[k].extract.Some? && items[k].extract.value.name == name
      && items[k].extract.value.value == value
  {
    k :| 0 <= k < |items| && items[k].extract.Some? && items[k].extract.value.name == name
      && items[k].extract.value.value == value;
  }

  /** Run `a` publishes identity `value`. */
  lemma Publishes(env: Env, hist: seq<seq<Item>>, a: nat, name: string, value: string) returns (s: State)
    requires AllOk(env, hist) && WantedBy(hist, a, name, value)
    ensures Leads(env, Begin(hist), System(hist[..a + 1], s))
    ensures name in s.fs && s.fs[name] == env.tree(name, value) && Stamp(s.fs, name) == Some(value)
  {
    ToRun(env, hist, a);
    var k := IndexOf(hist[a], name, value);
    assert RunOk(env, hist, a);
    assert Honest(env, hist[a][k]);
    s := ToPublished(env, Begin(hist), hist[..a + 1], hist[a], map[], k);
  }

  /** Run `b` starts with that tree. */
  lemma PublishedBefore(env: Env, hist: seq<seq<Item>>, a: nat, b: nat, name: string, value: string)
    returns (fs: FileSystem)
    requires AllOk(env, hist) && a < b < |hist| && WantedBy(hist, a, name, value)
    ensures Leads(env, Begin(hist), System(hist[..b + 1], Fresh(hist[b], fs)))
    ensures name in fs && fs[name] == env.tree(name, value) && Stamp(fs, name) == Some(value)
  {
    var published := Publishes(env, hist, a, name, value);
    Skip(env, Begin(hist), hist, a + 1, b + 1, published);
    fs := published.fs;
  }

  /** Run `b`, which wants another identity, is interrupted while it removes the old tree. */
  lemma Tears(env: Env, hist: seq<seq<Item>>, b: nat, fs: FileSystem, name: string, value: string, other: string,
              p: string)
    returns (s: State)
    requires b < |hist| && Leads(env, Begin(hist), System(hist[..b + 1], Fresh(hist[b], fs)))
    requires name in fs && Stamp(fs, name) == Some(value) && WantedBy(hist, b, name, other) && other != value
      && p != STAMP
    ensures Leads(env, Begin(hist), System(hist[..b + 1], s))
    ensures name in s.fs && Stamp(s.fs, name) == Some(value) && p !in s.fs[name]
  {
    var k := IndexOf(hist[b], name, other);
    s := ToTorn(env, Begin(hist), hist[..b + 1], hist[b], fs, k, p);
  }

  /** A run that goes back to a replaced identity may find a torn tree with its stamp. */
  lemma ReturnFails(env: Env, hist: seq<seq<Item>>, a: nat, b: nat, c: nat, name: string, value: string,
                    other: string, p: string)
    returns (s: State)
    requires AllOk(env, hist) && a < b < c < |hist| && other != value && p in env.tree(name, value) && p != STAMP
    requires WantedBy(hist, a, name, value) && WantedBy(hist, b, name, other) && WantedBy(hist, c, name, value)
    ensures Leads(env, Begin(hist), System(hist[..c + 1], s)) && !Trustworthy(env, s)
  {
    var fs := PublishedBefore(env, hist, a, b, name, value);
    var torn := Tears(env, hist, b, fs, name, value, other, p);
    Skip(env, Begin(hist), hist, b + 1, c + 1, torn);
    s := Fresh(hist[c], torn.fs);
    Untrusted(env, hist[c], torn.fs, name, value, p);
  }

  lemma Untrusted(env: Env, items: seq<Item>, fs: FileSystem, name: string, value: string, p: string)
    requires Wants(items, name, value) && Stamp(fs, name) == Some(value) && p in env.tree(name, value) && p !in fs[name]
    ensures !Trustworthy(env, Fresh(items, fs))
  {
    var k := IndexOf(items, name, value);
    assert !StampOk(env, fs, items[k].extract.value.name, items[k].extract.value.value);
  }

  // ---------------------------------------------------------------- what is left of a tree

  /** A directory with some of a tree's files and no others. */
  ghost predicate IsPart(d: Dir, tree: Dir) {
    d.Keys <= tree.Keys && forall p :: p in d ==> d[p] == tree[p]
  }

  ghost predicate PartAt(env: Env, fs: FileSystem, name: string) {
    !IsStaging(name) && Stamp(fs, name).Some? ==> IsPart(fs[name], env.tree(name, Stamp(fs, name).value))
  }

  /** What bears a stamp is at least a part of its identity's tree. */
  ghost predicate PartsOk(env: Env, fs: FileSystem) {
    forall name :: PartAt(env, fs, name)
  }

  lemma StepPart(env: Env, it: Item, phase: Phase, fs: FileSystem, next: Next, fs': FileSystem, name: string)
    requires ItemStep(env, it, phase, fs, next, fs') && PhaseOk(env, it, phase, fs)
    requires (it.extract.Some? ==> Honest(env, it)) && PartAt(env, fs, name)
    ensures PartAt(env, fs', name)
  {
    if it.extract.Some? && it.extract.value.name == name {
      StagingDiffers(name);
    } else if !IsStaging(name) {
      if it.extract.Some? { StagingApart(it.extract.value.name, name); }
      StepFrame(env, it, phase, fs, next, fs', name);
    }
  }

  lemma StepParts(env: Env, y: System, y': System)
    requires SystemOk(env, y) && SystemNext(env, y, y') && PartsOk(env, y.s.fs)
    ensures PartsOk(env, y'.s.fs)
  {
    if y'.hist == y.hist && exists w: nat :: Step(env, y.s, y'.s, w) {
      var w: nat :| Step(env, y.s, y'.s, w);
      if y.s.workers[w].Busy? {
        var k, phase := y.s.workers[w].k, y.s.workers[w].phase;
        var next :| ItemStep(env, y.s.all[k], phase, y.s.fs, next, y'.s.fs)
          && y'.s.workers == y.s.workers[w := After(k, next)];
        forall name ensures PartAt(env, y'.s.fs, name) {
          assert PartAt(env, y.s.fs, name);
          StepPart(env, y.s.all[k], phase, y.s.fs, next, y'.s.fs, name);
        }
      }
    }
  }

  lemma {:induction false} ExecutionParts(env: Env, ys: seq<System>, i: nat)
    requires Execution(env, ys) && i < |ys|
    ensures PartsOk(env, ys[i].s.fs)
  {
    if i > 0 {
      ExecutionParts(env, ys, i - 1);
      ExecutionOk(env, ys, i - 1);
      assert Linked(env, ys, i - 1);
      StepParts(env, ys[i - 1], ys[i]);
    }
  }

  // ---------------------------------------------------------------- the exact condition

  ghost predicate OnlyStamp(env: Env, name: string, value: string) {
    forall p :: p in env.tree(name, value) ==> p == STAMP
  }

  /** No run goes back to an identity that a run before it had replaced, if that has anything to lose. */
  ghost predicate NoLossyReturn(env: Env, hist: seq<seq<Item>>) {
    forall a: nat, b: nat, c: nat, name, value, other :: !LossyReturn(env, hist, a, b, c, name, value, other)
  }

  /** Run `c` goes back from `other` to `value`, which run `a` wanted and run `b` replaced. */
  ghost predicate LossyReturn(env: Env, hist: seq<seq<Item>>, a: nat, b: nat, c: nat,
                              name: string, value: string, other: string)
  {
    && a < b < c && other != value && !OnlyStamp(env, name, value)
    && WantedBy(hist, a, name, value) && WantedBy(hist, b, name, other) && WantedBy(hist, c, name, value)
  }

  /** Whatever happens in these runs, up to any of them, a matching stamp means a complete tree. */
  ghost predicate AlwaysTrusted(env: Env, hist: seq<seq<Item>>)
    requires hist != []
  {
    forall z: System :: Leads(env, Begin(hist), z) && z.hist <= hist ==> Trustworthy(env, z.s)
  }

  lemma NoLossyPrefix(env: Env, hist: seq<seq<Item>>, part: seq<seq<Item>>)
    requires NoLossyReturn(env, hist) && part <= hist
    ensures NoLossyReturn(env, part)
  {
    forall a: nat, b: nat, c: nat, name, value, other ensures !LossyReturn(env, part, a, b, c, name, value, other) {
      assert !LossyReturn(env, hist, a, b, c, name, value, other);
      if a < b < c < |part| { assert part[a] == hist[a] && part[b] == hist[b] && part[c] == hist[c]; }
    }
  }

  lemma Untrustworthy(env: Env, hist: seq<seq<Item>>, a: nat, b: nat, c: nat, name: string, value: string,
                      other: string)
    requires AllOk(env, hist) && a < b < c < |hist| && other != value && !OnlyStamp(env, name, value)
    requires WantedBy(hist, a, name, value) && WantedBy(hist, b, name, other) && WantedBy(hist, c, name, value)
    ensures !AlwaysTrusted(env, hist)
  {
    var p :| p in env.tree(name, value) && p != STAMP;
    var s := ReturnFails(env, hist, a, b, c, name, value, other, p);
    assert System(hist[..c + 1], s).hist <= hist;
  }

  /** A stamp of the current run that was replaced in between is on a tree with nothing to lose. */
  lemma ReplacedIsWhole(env: Env, y: System, name: string, value: string)
    requires SystemOk(env, y) && NoLossyReturn(env, y.hist) && WantedBy(y.hist, |y.hist| - 1, name, value)
    requires Displaced(y.hist, name, value) && PartAt(env, y.s.fs, name) && !IsStaging(name)
    ensures StampOk(env, y.s.fs, name, value)
  {
    var a: nat, b: nat, other :| a < b && WantedBy(y.hist, a, name, value) && WantedBy(y.hist, b, name, other)
      && other != value;
    var last := |y.hist| - 1;
    if b == last { WantsOne(env, y.s.all, name, other, value); }
    assert !LossyReturn(env, y.hist, a, b, last, name, value, other);
    assert OnlyStamp(env, name, value);
    if Stamp(y.s.fs, name) == Some(value) {
      var d, tree := y.s.fs[name], env.tree(name, value);
      assert STAMP in d && d.Keys <= tree.Keys;
      assert d == tree;
    }
  }

  lemma TrustedAt(env: Env, y: System)
    requires SystemOk(env, y) && PartsOk(env, y.s.fs) && NoLossyReturn(env, y.hist)
    ensures Trustworthy(env, y.s)
  {
    forall k | 0 <= k < |y.s.all| && y.s.all[k].extract.Some?
      ensures StampOk(env, y.s.fs, y.s.all[k].extract.value.name, y.s.all[k].extract.value.value)
    {
      var x := y.s.all[k].extract.value;
      assert Honest(env, y.s.all[k]);
      assert WantedBy(y.hist, |y.hist| - 1, x.name, x.value);
      assert PartAt(env, y.s.fs, x.name);
      if Stamp(y.s.fs, x.name) == Some(x.value) {
        assert Vouched(env, y.hist, y.s.fs, x.name, x.value);
        if Displaced(y.hist, x.name, x.value) { ReplacedIsWhole(env, y, x.name, x.value); }
      }
    }
  }

  lemma NoReturnNoLoss(env: Env, hist: seq<seq<Item>>)
    requires NoReturn(hist)
    ensures NoLossyReturn(env, hist)
  {
  }

  /** At every point of every execution whose runs never go back to a replaced identity, a matching stamp
      means a complete tree. */
  lemma CacheIsSafe(env: Env, ys: seq<System>, i: nat)
    requires Execution(env, ys) && i < |ys| && NoReturn(ys[i].hist)
    ensures Trustworthy(env, ys[i].s)
  {
    ExecutionOk(env, ys, i);
    ExecutionParts(env, ys, i);
    NoReturnNoLoss(env, ys[i].hist);
    TrustedAt(env, ys[i]);
  }

  lemma TrustedAfter(env: Env, hist: seq<seq<Item>>, z: System)
    requires hist != [] && ItemsOk(env, hist[0]) && Leads(env, Begin(hist), z) && NoLossyReturn(env, z.hist)
    ensures Trustworthy(env, z.s)
  {
    var ys :| Walks(env, ys, Begin(hist), z);
    assert Execution(env, ys);
    ExecutionOk(env, ys, |ys| - 1);
    ExecutionParts(env, ys, |ys| - 1);
    TrustedAt(env, z);
  }

  lemma NoReturnTrusted(env: Env, hist: seq<seq<Item>>)
    requires hist != [] && ItemsOk(env, hist[0]) && NoLossyReturn(env, hist)
    ensures AlwaysTrusted(env, hist)
  {
    forall z: System | Leads(env, Begin(hist), z) && z.hist <= hist ensures Trustworthy(env, z.s) {
      NoLossyPrefix(env, hist, z.hist);
      TrustedAfter(env, hist, z);
    }
  }

  lemma LossyUntrusted(env: Env, hist: seq<seq<Item>>)
    requires AllOk(env, hist) && !NoLossyReturn(env, hist) && hist != []
    ensures !AlwaysTrusted(env, hist)
  {
    var a: nat, b: nat, c: nat, name, value, other :| LossyReturn(env, hist, a, b, c, name, value, other);
    Untrustworthy(env, hist, a, b, c, name, value, other);
  }

  /** The stamps can be trusted throughout if and only if no run goes back to a replaced identity that has
      anything to lose. */
  lemma TrustedIffNoReturn(env: Env, hist: seq<seq<Item>>)
    requires hist != [] && AllOk(env, hist)
    ensures AlwaysTrusted(env, hist) <==> NoLossyReturn(env, hist)
  {
    assert RunOk(env, hist, 0);
    if NoLossyReturn(env, hist) {
      NoReturnTrusted(env, hist);
    } else {
      LossyUntrusted(env, hist);
    }
  }

  /** So a directory that bears the stamp of an item of the run holds the archive's files without what is to be
      removed, and the stamp. */
  lemma StampedTree(env: Env, ys: seq<System>, i: nat, k: nat, p: string)
    requires Execution(env, ys) && i < |ys| && NoLossyReturn(env, ys[i].hist)
    requires k < |ys[i].s.all| && ys[i].s.all[k].extract.Some?
    requires var x := ys[i].s.all[k].extract.value;
             x.name in ys[i].s.fs && ".identity" in ys[i].s.fs[x.name] && ys[i].s.fs[x.name][".identity"] == x.value
    ensures var it := ys[i].s.all[k];
            var d, remove := ys[i].s.fs[it.extract.value.name], it.extract.value.remove;
            && (p in d <==>
                  || p == ".identity"
                  || (p in env.archive(it.url)
                      && forall j :: 0 <= j < |remove| ==> p != remove[j] && !(remove[j] + "/" <= p)))
            && (p in d && p != ".identity" ==> d[p] == env.archive(it.url)[p])
  {
    ExecutionOk(env, ys, i);
    ExecutionParts(env, ys, i);
    TrustedAt(env, ys[i]);
    var it := ys[i].s.all[k];
    assert StampOk(env, ys[i].s.fs, it.extract.value.name, it.extract.value.value);
    assert Honest(env, it);
    CompleteTree(env, it, p);
  }
}
