/** The four workers of scripts/prefetch-deps.ts as a state machine over a shared queue and file
    system, across failures, interruptions and later runs. */
module PrefetchWorkers {
  import opened Wrappers
  import opened Prefetch

  // ---------------------------------------------------------------- trees and names

  /** `p` is the path `dir` or lies below it. */
  predicate Under(p: string, dir: string) {
    dir <= p && (|p| == |dir| || p[|dir|] == '/')
  }

  predicate Removed(p: string, remove: seq<string>) {
    exists i :: 0 <= i < |remove| && Under(p, remove[i])
  }

  function Prune(d: Dir, remove: seq<string>): Dir {
    map p | p in d && !Removed(p, remove) :: d[p]
  }

  /** What the archives hold, and which tree belongs to an identity. */
  datatype Env = Env(archive: string -> Dir, tree: (string, string) -> Dir)

  /** The tree an item is meant to publish: extracted, pruned and stamped. */
  function Complete(env: Env, it: Item): Dir
    requires it.extract.Some?
  {
    Prune(env.archive(it.url), it.extract.value.remove)[STAMP := it.extract.value.value]
  }

  /** Of the archive's files exactly those stay, with their bytes, that are neither one of the paths to be removed
      nor below one; beside them there is the stamp with the identity. */
  lemma CompleteTree(env: Env, it: Item, p: string)
    requires it.extract.Some?
    ensures var remove := it.extract.value.remove;
            p in Complete(env, it) <==>
              || p == ".identity"
              || (p in env.archive(it.url)
                  && forall i :: 0 <= i < |remove| ==> p != remove[i] && !(remove[i] + "/" <= p))
    ensures p in Complete(env, it) && p != ".identity" ==> Complete(env, it)[p] == env.archive(it.url)[p]
    ensures Complete(env, it)[".identity"] == it.extract.value.value
  {
    var remove := it.extract.value.remove;
    forall i | 0 <= i < |remove| ensures Under(p, remove[i]) <==> p == remove[i] || remove[i] + "/" <= p {
      UnderMeaning(p, remove[i]);
    }
  }

  lemma UnderMeaning(p: string, dir: string)
    ensures Under(p, dir) <==> p == dir || dir + "/" <= p
  {
    if dir + "/" <= p { assert p[|dir|] == (dir + "/")[|dir|]; }
  }

  function Staging(name: string): string {
    name + ".staging"
  }

  predicate IsStaging(name: string) {
    |name| >= 8 && name[|name| - 8..] == ".staging"
  }

  lemma StagingApart(a: string, b: string)
    requires a != b && !IsStaging(a) && !IsStaging(b)
    ensures Staging(a) != Staging(b) && Staging(a) != b && Staging(b) != a && IsStaging(Staging(a)) && Staging(a) != a
  {
    assert Staging(a)[|Staging(a)| - 8..] == ".staging" && Staging(b)[|Staging(b)| - 8..] == ".staging";
    assert Staging(a)[..|Staging(a)| - 8] == a && Staging(b)[..|Staging(b)| - 8] == b;
  }

  /** The items of one run: free of conflicts, and an identity stands for one tree. */
  ghost predicate ItemsOk(env: Env, items: seq<Item>) {
    && DistinctUrls(items) && DistinctNames(items)
    && forall i :: 0 <= i < |items| && items[i].extract.Some? ==> Honest(env, items[i])
  }

  ghost predicate Honest(env: Env, it: Item)
    requires it.extract.Some?
  {
    var x := it.extract.value;
    !IsStaging(x.name) && Complete(env, it) == env.tree(x.name, x.value)
  }

  /** Whatever was added, if every addition that extracts is honest, the list is fit for the workers. */
  lemma ListIsOk(env: Env, all: seq<Item>, items: seq<Item>, from: seq<nat>)
    requires Selected(all, items, from) && DistinctUrls(items) && DistinctNames(items)
    requires forall i :: 0 <= i < |all| && all[i].extract.Some? ==> Honest(env, all[i])
    ensures ItemsOk(env, items)
  {
    forall k | 0 <= k < |items| && items[k].extract.Some? ensures Honest(env, items[k]) {
      assert SelectedAt(all, items, from, k);
    }
  }

  function Stamp(fs: FileSystem, name: string): Option<string> {
    if name in fs && STAMP in fs[name] then Some(fs[name][STAMP]) else None
  }

  /** A directory stamped with an identity holds that identity's tree. */
  ghost predicate StampOk(env: Env, fs: FileSystem, name: string, value: string) {
    Stamp(fs, name) == Some(value) ==> fs[name] == env.tree(name, value)
  }

  // ---------------------------------------------------------------- one worker, one item

  datatype Phase =
    | Download | Check | ClearStaging | MakeStaging | Extracting | Pruning | Stamping | RemoveOld | Publish | Cleanup

  datatype Next = Stay(phase: Phase) | Finished | Rejected

  /** Some files of directory `name` are gone; recursive removal is not atomic. */
  ghost predicate Shrinks(fs: FileSystem, fs': FileSystem, name: string) {
    && name in fs && name in fs' && fs' == fs[name := fs'[name]]
    && fs'[name].Keys <= fs[name].Keys
    && forall p :: p in fs'[name] ==> fs'[name][p] == fs[name][p]
  }

  ghost predicate Touches(fs: FileSystem, fs': FileSystem, name: string) {
    name in fs' && fs' == fs[name := fs'[name]]
  }

  /** One step of `fetchOne`. From the first removal on, anything may throw; the `finally` block
      then clears the staging directory. */
  ghost predicate ItemStep(env: Env, it: Item, phase: Phase, fs: FileSystem, next: Next, fs': FileSystem) {
    if phase == Download then
      && fs' == fs
      && (next == Finished || next == Rejected || (it.extract.Some? && next == Stay(Check)))
    else if it.extract.None? then false
    else
      var x := it.extract.value;
      var out, staging := x.name, Staging(x.name);
      match phase
      case Check =>
        fs' == fs && next == if Stamp(fs, out) == Some(x.value) then Finished else Stay(ClearStaging)
      case ClearStaging =>
        || (Shrinks(fs, fs', staging) && next == Stay(ClearStaging))
        || (fs' == fs - {staging} && next == Stay(MakeStaging))
        || Fails(fs, fs', next)
      case MakeStaging =>
        || (fs' == (if staging in fs then fs else fs[staging := map[]]) && next == Stay(Extracting))
        || Fails(fs, fs', next)
      case Extracting =>
        || (Touches(fs, fs', staging) && next == Stay(Extracting))
        || (fs' == fs && staging in fs && fs[staging] == env.archive(it.url) && next == Stay(Pruning))
        || Fails(fs, fs', next)
      case Pruning =>
        || (Shrinks(fs, fs', staging) && next == Stay(Pruning))
        || (fs' == fs && staging in fs && fs[staging] == Prune(env.archive(it.url), x.remove) && next == Stay(Stamping))
        || Fails(fs, fs', next)
      case Stamping =>
        || (staging in fs && Touches(fs, fs', staging) && STAMP in fs'[staging]
            && fs'[staging] == fs[staging][STAMP := fs'[staging][STAMP]] && next == Stay(Stamping))
        || (staging in fs && fs' == fs[staging := fs[staging][STAMP := x.value]] && next == Stay(RemoveOld))
        || Fails(fs, fs', next)
      case RemoveOld =>
        || (Shrinks(fs, fs', out) && next == Stay(RemoveOld))
        || (fs' == fs - {out} && next == Stay(Publish))
        || Fails(fs, fs', next)
      case Publish =>
        || (staging in fs && out !in fs && fs' == (fs - {staging})[out := fs[staging]] && next == Stay(Cleanup))
        || Fails(fs, fs', next)
      case Cleanup =>
        || (Shrinks(fs, fs', staging) && next == Stay(Cleanup))
        || (fs' == fs - {staging} && next == Finished)
        || (fs' == fs && next == Rejected)
      case Download => false
  }

  ghost predicate Fails(fs: FileSystem, fs': FileSystem, next: Next) {
    fs' == fs && next == Stay(Cleanup)
  }

  /** What a worker has achieved when it is in a phase. */
  ghost predicate PhaseOk(env: Env, it: Item, phase: Phase, fs: FileSystem) {
    it.extract.Some? ==>
      var x := it.extract.value;
      var staging := Staging(x.name);
      match phase
      case Download => true
      case Check => true
      case Cleanup => true
      case Stamping =>
        && Stamp(fs, x.name) != Some(x.value)
        && staging in fs && fs[staging][STAMP := x.value] == Complete(env, it)
      case RemoveOld =>
        && Stamp(fs, x.name) != Some(x.value)
        && staging in fs && fs[staging] == Complete(env, it)
      case Publish =>
        x.name !in fs && staging in fs && fs[staging] == Complete(env, it)
      case ClearStaging => Stamp(fs, x.name) != Some(x.value)
      case MakeStaging => Stamp(fs, x.name) != Some(x.value)
      case Extracting => Stamp(fs, x.name) != Some(x.value)
      case Pruning =>
        && Stamp(fs, x.name) != Some(x.value)
        && staging in fs && fs[staging].Keys <= env.archive(it.url).Keys
        && (forall p :: p in fs[staging] ==> fs[staging][p] == env.archive(it.url)[p])
  }

  ghost predicate Same(fs: FileSystem, fs': FileSystem, name: string) {
    (name in fs <==> name in fs') && (name in fs ==> fs'[name] == fs[name])
  }

  /** Only the item's own two directories change. */
  lemma StepFrame(env: Env, it: Item, phase: Phase, fs: FileSystem, next: Next, fs': FileSystem, name: string)
    requires ItemStep(env, it, phase, fs, next, fs')
    requires it.extract.Some? ==> name != it.extract.value.name && name != Staging(it.extract.value.name)
    ensures Same(fs, fs', name)
  {
  }

  lemma StepPhase(env: Env, it: Item, phase: Phase, fs: FileSystem, next: Next, fs': FileSystem)
    requires ItemStep(env, it, phase, fs, next, fs') && PhaseOk(env, it, phase, fs)
    requires it.extract.Some? ==> Honest(env, it)
    ensures next.Stay? ==> PhaseOk(env, it, next.phase, fs')
  {
    if it.extract.Some? {
      var x := it.extract.value;
      StagingDiffers(x.name);
      StepStampOther(env, it, phase, fs, next, fs');
    }
  }

  lemma StagingDiffers(name: string)
    ensures Staging(name) != name
  {
    assert |Staging(name)| == |name| + 8;
  }

  /** In every phase but publishing, the old directory only loses files. */
  lemma StepStampOther(env: Env, it: Item, phase: Phase, fs: FileSystem, next: Next, fs': FileSystem)
    requires ItemStep(env, it, phase, fs, next, fs') && it.extract.Some?
    ensures phase != Publish ==>
              Stamp(fs', it.extract.value.name).Some? ==>
                Stamp(fs', it.extract.value.name) == Stamp(fs, it.extract.value.name)
  {
    StagingDiffers(it.extract.value.name);
  }

  /** A stamp seen after a step is on an untouched directory, on the complete tree just published,
      or one that a foreign identity already had before. */
  lemma StepStamp(env: Env, it: Item, phase: Phase, fs: FileSystem, next: Next, fs': FileSystem, u: string)
    requires ItemStep(env, it, phase, fs, next, fs') && PhaseOk(env, it, phase, fs)
    requires it.extract.Some? && Honest(env, it)
    requires Stamp(fs', it.extract.value.name) == Some(u)
    ensures var x := it.extract.value;
            || Same(fs, fs', x.name)
            || (u == x.value && fs'[x.name] == env.tree(x.name, u))
            || (u != x.value && Stamp(fs, x.name) == Some(u))
  {
    StagingDiffers(it.extract.value.name);
    if phase != Publish { StepStampOther(env, it, phase, fs, next, fs'); }
  }

  // ---------------------------------------------------------------- four workers

  /** A worker between items, in the middle of item number `k` of the run, finished, or ended by an error. */
  datatype Worker = Idle | Busy(k: nat, phase: Phase) | Stopped | Dead

  /** `taken` records the URLs dequeued so far. */
  datatype State = State(all: seq<Item>, queue: seq<Item>, taken: seq<string>, workers: seq<Worker>, fs: FileSystem)

  function Fresh(items: seq<Item>, fs: FileSystem): State {
    State(items, items, [], [Idle, Idle, Idle, Idle], fs)
  }

  /** Worker `w` takes one step. */
  ghost predicate Step(env: Env, s: State, s': State, w: nat) {
    && w < |s.workers|
    && s'.all == s.all
    && match s.workers[w]
       case Idle =>
         && s'.fs == s.fs
         && (if s.queue != []
             then && s'.queue == s.queue[1..] && s'.taken == s.taken + [s.queue[0].url]
                  && s'.workers == s.workers[w := Busy(|s.taken|, Download)]
             else s'.queue == s.queue && s'.taken == s.taken && s'.workers == s.workers[w := Stopped])
       case Busy(k, phase) =>
         && s'.queue == s.queue && s'.taken == s.taken && k < |s.all|
         && exists next ::
              && ItemStep(env, s.all[k], phase, s.fs, next, s'.fs)
              && s'.workers == s.workers[w := After(k, next)]
       case Stopped => false
       case Dead => false
  }

  function After(k: nat, next: Next): Worker {
    match next
    case Stay(phase) => Busy(k, phase)
    case Finished => Idle
    case Rejected => Dead
  }

  /** What was taken and what is queued make up the run's items, in order. */
  ghost predicate Dequeued(s: State) {
    && |s.taken| <= |s.all| && s.queue == s.all[|s.taken|..]
    && forall i :: 0 <= i < |s.taken| ==> s.taken[i] == s.all[i].url
  }

  /** Items are handed out in order, each to one worker, which has done what its phase says. */
  ghost predicate WorkersOk(env: Env, s: State) {
    && |s.workers| == 4 && Dequeued(s)
    && (forall w :: 0 <= w < 4 && s.workers[w].Busy? ==>
          s.workers[w].k < |s.taken| && PhaseOk(env, s.all[s.workers[w].k], s.workers[w].phase, s.fs))
    && (forall v, w :: 0 <= v < w < 4 && s.workers[v].Busy? && s.workers[w].Busy? ==> s.workers[v].k != s.workers[w].k)
    && (forall w :: 0 <= w < 4 && s.workers[w].Stopped? ==> s.queue == [])
  }

  /** Two items have different URLs and no output or staging directory in common. */
  ghost predicate Apart(x: Item, y: Item) {
    && x.url != y.url
    && (x.extract.Some? && y.extract.Some? ==>
          var a, b := x.extract.value.name, y.extract.value.name;
          {a, Staging(a)} !! {b, Staging(b)})
  }

  /** Two busy workers never share an item, an output or a staging directory. */
  lemma NoSharedDirectory(env: Env, s: State, v: nat, w: nat)
    requires ItemsOk(env, s.all) && WorkersOk(env, s)
    requires v < 4 && w < 4 && v != w && s.workers[v].Busy? && s.workers[w].Busy?
    ensures Apart(s.all[s.workers[v].k], s.all[s.workers[w].k])
  {
    var i, j := s.workers[v].k, s.workers[w].k;
    assert i != j by { if v < w { assert i != j; } else { assert j != i; } }
    ItemsApart(env, s.all, i, j);
  }

  lemma ItemsApart(env: Env, items: seq<Item>, i: nat, j: nat)
    requires ItemsOk(env, items) && i < |items| && j < |items| && i != j
    ensures items[i].url != items[j].url
    ensures items[i].extract.Some? && items[j].extract.Some? ==>
              var a, b := items[i].extract.value.name, items[j].extract.value.name;
              a != b && Staging(a) != Staging(b) && Staging(a) != b && Staging(b) != a
  {
    if items[i].extract.Some? && items[j].extract.Some? {
      assert Honest(env, items[i]) && Honest(env, items[j]);
      assert items[i].extract.value.name != items[j].extract.value.name by {
        if i < j { assert items[i].extract.value.name != items[j].extract.value.name; }
        else { assert items[j].extract.value.name != items[i].extract.value.name; }
      }
      StagingApart(items[i].extract.value.name, items[j].extract.value.name);
    }
    if i < j { assert items[i].url != items[j].url; } else { assert items[j].url != items[i].url; }
  }

  /** A worker's phase survives the steps of the others. */
  lemma OthersPhase(env: Env, items: seq<Item>, i: nat, j: nat, phase: Phase, next: Next, fs: FileSystem,
                    fs': FileSystem, other: Phase)
    requires ItemsOk(env, items) && i < |items| && j < |items| && i != j
    requires ItemStep(env, items[i], phase, fs, next, fs') && PhaseOk(env, items[j], other, fs)
    ensures PhaseOk(env, items[j], other, fs')
  {
    if items[j].extract.Some? {
      ItemsApart(env, items, i, j);
      StepFrame(env, items[i], phase, fs, next, fs', items[j].extract.value.name);
      StepFrame(env, items[i], phase, fs, next, fs', Staging(items[j].extract.value.name));
    }
  }

  lemma WorkersStep(env: Env, s: State, s': State, w: nat)
    requires ItemsOk(env, s.all) && WorkersOk(env, s) && Step(env, s, s', w)
    ensures WorkersOk(env, s')
  {
    if s.workers[w].Busy? {
      var k, phase := s.workers[w].k, s.workers[w].phase;
      var next :| ItemStep(env, s.all[k], phase, s.fs, next, s'.fs) && s'.workers == s.workers[w := After(k, next)];
      StepPhase(env, s.all[k], phase, s.fs, next, s'.fs);
      forall v | 0 <= v < 4 && s'.workers[v].Busy?
        ensures s'.workers[v].k < |s'.taken| && PhaseOk(env, s'.all[s'.workers[v].k], s'.workers[v].phase, s'.fs)
      {
        if v != w { OtherWorker(env, s, v, w, next, s'.fs); }
      }
    }
  }

  lemma OtherWorker(env: Env, s: State, v: nat, w: nat, next: Next, fs': FileSystem)
    requires ItemsOk(env, s.all) && WorkersOk(env, s) && v < 4 && w < 4 && v != w
    requires s.workers[v].Busy? && s.workers[w].Busy?
    requires ItemStep(env, s.all[s.workers[w].k], s.workers[w].phase, s.fs, next, fs')
    ensures PhaseOk(env, s.all[s.workers[v].k], s.workers[v].phase, fs')
  {
    var i, j := s.workers[w].k, s.workers[v].k;
    assert i != j by {
      if v < w { assert s.workers[v].k != s.workers[w].k; } else { assert s.workers[w].k != s.workers[v].k; }
    }
    OthersPhase(env, s.all, i, j, s.workers[w].phase, next, s.fs, fs', s.workers[v].phase);
  }

  // ---------------------------------------------------------------- histories of runs

  /** A run wants `name` to hold identity `value`. */
  ghost predicate Wants(items: seq<Item>, name: string, value: string) {
    exists i :: 0 <= i < |items| && items[i].extract.Some?
                && items[i].extract.value.name == name && items[i].extract.value.value == value
  }

  ghost predicate WantedBy(hist: seq<seq<Item>>, r: nat, name: string, value: string) {
    r < |hist| && Wants(hist[r], name, value)
  }

  /** A later run wanted something else under the same name. */
  ghost predicate Displaced(hist: seq<seq<Item>>, name: string, value: string) {
    exists a: nat, b: nat, other :: a < b && WantedBy(hist, a, name, value) && WantedBy(hist, b, name, other)
      && other != value
  }

  /** No run goes back to an identity that a run before it had replaced. */
  ghost predicate NoReturn(hist: seq<seq<Item>>) {
    forall a: nat, b: nat, c: nat, name, value, other ::
      a < b < c && WantedBy(hist, a, name, value) && WantedBy(hist, b, name, other) && WantedBy(hist, c, name, value)
      ==> other == value
  }

  /** All the runs so far, and where the last one is. */
  datatype System = System(hist: seq<seq<Item>>, s: State)

  /** Every stamp was wanted by some run, and vouches for its tree unless it has been displaced. */
  ghost predicate StampsOk(env: Env, hist: seq<seq<Item>>, fs: FileSystem) {
    forall name, u :: !IsStaging(name) && Stamp(fs, name) == Some(u) ==> Vouched(env, hist, fs, name, u)
  }

  ghost predicate Vouched(env: Env, hist: seq<seq<Item>>, fs: FileSystem, name: string, u: string)
  {
    && (exists r: nat :: WantedBy(hist, r, name, u))
    && (StampOk(env, fs, name, u) || Displaced(hist, name, u))
  }

  ghost predicate SystemOk(env: Env, y: System) {
    && y.hist != [] && y.hist[|y.hist| - 1] == y.s.all
    && ItemsOk(env, y.s.all) && WorkersOk(env, y.s)
    && StampsOk(env, y.hist, y.s.fs)
  }

  /** A worker's step; or the run ends, finished or interrupted at any point, and the next one
      starts on the file system as it is. */
  ghost predicate SystemNext(env: Env, y: System, y': System) {
    || (y'.hist == y.hist && exists w: nat :: Step(env, y.s, y'.s, w))
    || (exists items :: ItemsOk(env, items) && y' == System(y.hist + [items], Fresh(items, y.s.fs)))
  }

  /** Any number of runs, starting with an empty cache. */
  ghost predicate Execution(env: Env, ys: seq<System>) {
    && |ys| > 0
    && (exists items :: ItemsOk(env, items) && ys[0] == System([items], Fresh(items, map[])))
    && forall i: nat :: Linked(env, ys, i)
  }

  ghost predicate Linked(env: Env, ys: seq<System>, i: nat) {
    i + 1 < |ys| ==> SystemNext(env, ys[i], ys[i + 1])
  }

  lemma WantedByMore(hist: seq<seq<Item>>, items: seq<Item>, r: nat, name: string, value: string)
    requires WantedBy(hist, r, name, value)
    ensures WantedBy(hist + [items], r, name, value)
  {
  }

  lemma VouchedMore(env: Env, hist: seq<seq<Item>>, items: seq<Item>, fs: FileSystem, name: string, u: string)
    requires Vouched(env, hist, fs, name, u)
    ensures Vouched(env, hist + [items], fs, name, u)
  {
    var r: nat :| WantedBy(hist, r, name, u);
    WantedByMore(hist, items, r, name, u);
    if Displaced(hist, name, u) {
      var a: nat, b: nat, other :| a < b && WantedBy(hist, a, name, u) && WantedBy(hist, b, name, other) && other != u;
      WantedByMore(hist, items, a, name, u);
      WantedByMore(hist, items, b, name, other);
    }
  }

  /** A run wants one identity per name. */
  lemma WantsOne(env: Env, items: seq<Item>, name: string, u: string, v: string)
    requires ItemsOk(env, items) && Wants(items, name, u) && Wants(items, name, v)
    ensures u == v
  {
    var i :| 0 <= i < |items| && items[i].extract.Some? && items[i].extract.value.name == name
      && items[i].extract.value.value == u;
    var j :| 0 <= j < |items| && items[j].extract.Some? && items[j].extract.value.name == name
      && items[j].extract.value.value == v;
    assert i == j;
  }

  /** One worker's step keeps the stamps vouched for. */
  lemma StampsStep(env: Env, y: System, k: nat, phase: Phase, next: Next, fs': FileSystem, name: string, u: string)
    requires SystemOk(env, y) && k < |y.s.all|
    requires ItemStep(env, y.s.all[k], phase, y.s.fs, next, fs') && PhaseOk(env, y.s.all[k], phase, y.s.fs)
    requires !IsStaging(name) && Stamp(fs', name) == Some(u)
    ensures Vouched(env, y.hist, fs', name, u)
  {
    var it, fs, hist := y.s.all[k], y.s.fs, y.hist;
    if it.extract.Some? && it.extract.value.name == name {
      var x := it.extract.value;
      var last := |hist| - 1;
      assert Honest(env, it);
      assert WantedBy(hist, last, name, x.value);
      StepStamp(env, it, phase, fs, next, fs', u);
      if Same(fs, fs', name) {
        assert Vouched(env, hist, fs, name, u);
      } else if u != x.value {
        assert Vouched(env, hist, fs, name, u);
        var r: nat :| WantedBy(hist, r, name, u);
        if r == last { WantsOne(env, y.s.all, name, u, x.value); }
        assert r < last && Displaced(hist, name, u);
      }
    } else {
      if it.extract.Some? {
        assert Honest(env, it);
        StagingApart(it.extract.value.name, name);
      }
      StepFrame(env, it, phase, fs, next, fs', name);
      assert Vouched(env, hist, fs, name, u);
    }
  }

  lemma SystemStep(env: Env, y: System, y': System)
    requires SystemOk(env, y) && SystemNext(env, y, y')
    ensures SystemOk(env, y')
  {
    if y'.hist == y.hist && exists w: nat :: Step(env, y.s, y'.s, w) {
      var w: nat :| Step(env, y.s, y'.s, w);
      WorkersStep(env, y.s, y'.s, w);
      if y.s.workers[w].Busy? {
        var k, phase := y.s.workers[w].k, y.s.workers[w].phase;
        var next :| ItemStep(env, y.s.all[k], phase, y.s.fs, next, y'.s.fs)
          && y'.s.workers == y.s.workers[w := After(k, next)];
        forall name, u | !IsStaging(name) && Stamp(y'.s.fs, name) == Some(u)
          ensures Vouched(env, y'.hist, y'.s.fs, name, u)
        {
          StampsStep(env, y, k, phase, next, y'.s.fs, name, u);
        }
      }
    } else {
      var items :| ItemsOk(env, items) && y' == System(y.hist + [items], Fresh(items, y.s.fs));
      forall name, u | !IsStaging(name) && Stamp(y'.s.fs, name) == Some(u)
        ensures Vouched(env, y'.hist, y'.s.fs, name, u)
      {
        VouchedMore(env, y.hist, items, y.s.fs, name, u);
      }
    }
  }

  lemma {:induction false} ExecutionOk(env: Env, ys: seq<System>, i: nat)
    requires Execution(env, ys) && i < |ys|
    ensures SystemOk(env, ys[i])
  {
    if i > 0 {
      ExecutionOk(env, ys, i - 1);
      assert Linked(env, ys, i - 1);
      SystemStep(env, ys[i - 1], ys[i]);
    }
  }

  /** What an item of the current run finds under its own stamp is its complete tree. */
  ghost predicate Trustworthy(env: Env, s: State) {
    forall k :: 0 <= k < |s.all| && s.all[k].extract.Some? ==>
      StampOk(env, s.fs, s.all[k].extract.value.name, s.all[k].extract.value.value)
  }

  /** At every point of every execution, whatever the runs before: the items of the run are handed out once
      each, all of them if a worker finished, and no two busy workers share a directory. */
  lemma WorkersApart(env: Env, ys: seq<System>, i: nat)
    requires Execution(env, ys) && i < |ys|
    ensures WorkersOk(env, ys[i].s)
    ensures forall a, b :: 0 <= a < b < |ys[i].s.taken| ==> ys[i].s.taken[a] != ys[i].s.taken[b]
    ensures (exists w :: 0 <= w < 4 && ys[i].s.workers[w].Stopped?) ==>
              |ys[i].s.taken| == |ys[i].s.all| && forall k :: 0 <= k < |ys[i].s.all| ==>
                ys[i].s.taken[k] == ys[i].s.all[k].url
    ensures forall v: nat, w: nat :: v < w < 4 && ys[i].s.workers[v].Busy? && ys[i].s.workers[w].Busy? ==>
              Apart(ys[i].s.all[ys[i].s.workers[v].k], ys[i].s.all[ys[i].s.workers[w].k])
  {
    ExecutionOk(env, ys, i);
    var s := ys[i].s;
    forall v: nat, w: nat | v < w < 4 && s.workers[v].Busy? && s.workers[w].Busy?
      ensures Apart(s.all[s.workers[v].k], s.all[s.workers[w].k])
    {
      NoSharedDirectory(env, s, v, w);
    }
  }

  /** In every execution, a worker that is about to publish finds no directory of that name; its step either changes
      nothing or leaves there exactly what the archive holds without what is to be removed, and the stamp. */
  lemma PublishedTree(env: Env, ys: seq<System>, i: nat, w: nat, p: string)
    requires Execution(env, ys) && i + 1 < |ys| && w < 4 && Step(env, ys[i].s, ys[i + 1].s, w)
    requires ys[i].s.workers[w].Busy? && ys[i].s.workers[w].phase == Publish
    ensures ys[i].s.workers[w].k < |ys[i].s.all| && ys[i].s.all[ys[i].s.workers[w].k].extract.Some?
    ensures var it := ys[i].s.all[ys[i].s.workers[w].k];
            var x, fs, fs' := it.extract.value, ys[i].s.fs, ys[i + 1].s.fs;
            && x.name !in fs
            && (fs' == fs
                || (&& x.name in fs'
                    && (p in fs'[x.name] <==>
                          || p == ".identity"
                          || (p in env.archive(it.url) && forall j :: 0 <= j < |x.remove| ==>
                                p != x.remove[j] && !(x.remove[j] + "/" <= p)))
                    && (p in fs'[x.name] && p != ".identity" ==> fs'[x.name][p] == env.archive(it.url)[p])
                    && ".identity" in fs'[x.name] && fs'[x.name][".identity"] == x.value))
  {
    ExecutionOk(env, ys, i);
    var s, s' := ys[i].s, ys[i + 1].s;
    var k := s.workers[w].k;
    var next :| ItemStep(env, s.all[k], Publish, s.fs, next, s'.fs) && s'.workers == s.workers[w := After(k, next)];
    CompleteTree(env, s.all[k], p);
    assert PhaseOk(env, s.all[k], Publish, s.fs);
  }

  // ---------------------------------------------------------------- what a run leaves behind

  ghost predicate AnyDead(s: State) {
    exists w :: 0 <= w < |s.workers| && s.workers[w].Dead?
  }

  ghost predicate BusyWith(s: State, k: nat) {
    exists w :: 0 <= w < |s.workers| && s.workers[w].Busy? && s.workers[w].k == k
  }

  /** Item `k` has not touched its staging directory until it clears it, and has removed it when it is done with. */
  ghost predicate TidyAt(start: FileSystem, s: State, k: nat) {
    k < |s.all| && s.all[k].extract.Some? ==>
      var staging := Staging(s.all[k].extract.value.name);
      && (k >= |s.taken| ==> Same(start, s.fs, staging))
      && (forall w :: 0 <= w < |s.workers| && s.workers[w] in {Busy(k, Download), Busy(k, Check)} ==>
            Same(start, s.fs, staging))
      && (k < |s.taken| && !BusyWith(s, k) && !AnyDead(s) ==> Same(start, s.fs, staging) || staging !in s.fs)
  }

  lemma TidyOther(env: Env, start: FileSystem, s: State, s': State, w: nat, k: nat, j: nat, next: Next)
    requires ItemsOk(env, s.all) && WorkersOk(env, s) && Step(env, s, s', w) && s.workers[w].Busy?
    requires k == s.workers[w].k && j != k && j < |s.all| && TidyAt(start, s, j)
    requires ItemStep(env, s.all[k], s.workers[w].phase, s.fs, next, s'.fs)
    requires s'.workers == s.workers[w := After(k, next)]
    ensures TidyAt(start, s', j)
  {
    if s.all[j].extract.Some? {
      var staging := Staging(s.all[j].extract.value.name);
      if s.all[k].extract.Some? { ItemsApart(env, s.all, k, j); }
      StepFrame(env, s.all[k], s.workers[w].phase, s.fs, next, s'.fs, staging);
      forall v | 0 <= v < |s'.workers| && s'.workers[v] in {Busy(j, Download), Busy(j, Check)}
        ensures Same(start, s'.fs, staging)
      {
        assert v != w && s.workers[v] == s'.workers[v];
      }
      if !BusyWith(s', j) && !AnyDead(s') { StillQuiet(s, s', w, k, next, j); }
    }
  }

  lemma StillQuiet(s: State, s': State, w: nat, k: nat, next: Next, j: nat)
    requires w < |s.workers| && s.workers[w].Busy? && s.workers[w].k == k && j != k
    requires s'.workers == s.workers[w := After(k, next)]
    requires !BusyWith(s', j) && !AnyDead(s')
    ensures !BusyWith(s, j) && !AnyDead(s)
  {
    forall v | 0 <= v < |s.workers| ensures !s.workers[v].Dead? && !(s.workers[v].Busy? && s.workers[v].k == j) {
      if v != w { assert s'.workers[v] == s.workers[v]; }
    }
  }

  lemma TidyOwn(env: Env, start: FileSystem, s: State, s': State, w: nat, k: nat, next: Next)
    requires ItemsOk(env, s.all) && WorkersOk(env, s) && Step(env, s, s', w)
    requires s.workers[w].Busy? && k == s.workers[w].k && TidyAt(start, s, k)
    requires ItemStep(env, s.all[k], s.workers[w].phase, s.fs, next, s'.fs)
    requires s'.workers == s.workers[w := After(k, next)]
    ensures TidyAt(start, s', k)
  {
    assert s'.workers[w] == After(k, next);
    forall v | 0 <= v < |s'.workers| && v != w ensures !(s'.workers[v].Busy? && s'.workers[v].k == k) {
      assert s'.workers[v] == s.workers[v];
      if s.workers[v].Busy? { OneEach(env, s, v, w); }
    }
  }

  lemma OneEach(env: Env, s: State, v: nat, w: nat)
    requires WorkersOk(env, s) && v < 4 && w < 4 && v != w && s.workers[v].Busy? && s.workers[w].Busy?
    ensures s.workers[v].k != s.workers[w].k
  {
    if v < w { assert s.workers[v].k != s.workers[w].k; } else { assert s.workers[w].k != s.workers[v].k; }
  }

  /** A worker between items takes one, or stops. */
  lemma TidyIdle(env: Env, start: FileSystem, s: State, s': State, w: nat, j: nat)
    requires WorkersOk(env, s) && Step(env, s, s', w) && s.workers[w].Idle? && TidyAt(start, s, j)
    ensures TidyAt(start, s', j)
  {
    forall v | 0 <= v < |s.workers| && v != w ensures s'.workers[v] == s.workers[v] {
    }
    assert s'.workers[w] == Stopped || s'.workers[w] == Busy(|s.taken|, Download);
    if BusyWith(s, j) {
      var v :| 0 <= v < |s.workers| && s.workers[v].Busy? && s.workers[v].k == j;
      assert s'.workers[v] == s.workers[v];
    }
    if AnyDead(s) {
      var v :| 0 <= v < |s.workers| && s.workers[v].Dead?;
      assert s'.workers[v] == s.workers[v];
    }
  }

  ghost predicate Tidy(start: FileSystem, s: State) {
    forall k: nat :: TidyAt(start, s, k)
  }

  lemma TidyStep(env: Env, start: FileSystem, s: State, s': State, w: nat)
    requires ItemsOk(env, s.all) && WorkersOk(env, s) && Step(env, s, s', w) && Tidy(start, s)
    ensures Tidy(start, s')
  {
    forall j: nat ensures TidyAt(start, s', j) {
      assert TidyAt(start, s, j);
      if s.workers[w].Busy? && j < |s.all| {
        var k := s.workers[w].k;
        var next :| ItemStep(env, s.all[k], s.workers[w].phase, s.fs, next, s'.fs)
          && s'.workers == s.workers[w := After(k, next)];
        if j == k { TidyOwn(env, start, s, s', w, k, next); } else { TidyOther(env, start, s, s', w, k, j, next); }
      } else if s.workers[w].Idle? {
        TidyIdle(env, start, s, s', w, j);
      }
    }
  }

  lemma {:induction false} TidyRun(env: Env, ys: seq<System>, a: nat, i: nat)
    requires Execution(env, ys) && a <= i < |ys| && ys[a].s == Fresh(ys[a].s.all, ys[a].s.fs)
    requires forall j :: a <= j <= i ==> ys[j].hist == ys[a].hist
    ensures Tidy(ys[a].s.fs, ys[i].s)
  {
    if a < i {
      TidyRun(env, ys, a, i - 1);
      ExecutionOk(env, ys, i - 1);
      assert Linked(env, ys, i - 1);
      var w: nat :| Step(env, ys[i - 1].s, ys[i].s, w);
      TidyStep(env, ys[a].s.fs, ys[i - 1].s, ys[i].s, w);
    }
  }

  /** A run that ends without a dead worker, whatever failed in it, leaves no staging directory that it did not find:
      one that is still there was there, with the same files, when the run began. */
  lemma NothingLeft(env: Env, ys: seq<System>, a: nat, i: nat, k: nat)
    requires Execution(env, ys) && a <= i < |ys| && ys[a].s == Fresh(ys[a].s.all, ys[a].s.fs)
    requires forall j :: a <= j <= i ==> ys[j].hist == ys[a].hist
    requires forall w :: 0 <= w < |ys[i].s.workers| ==> ys[i].s.workers[w].Stopped?
    requires k < |ys[i].s.all| && ys[i].s.all[k].extract.Some?
    ensures var staging := ys[i].s.all[k].extract.value.name + ".staging";
            staging in ys[i].s.fs ==> staging in ys[a].s.fs && ys[i].s.fs[staging] == ys[a].s.fs[staging]
  {
    TidyRun(env, ys, a, i);
    ExecutionOk(env, ys, i);
    assert ys[i].s.workers[0].Stopped?;
    assert TidyAt(ys[a].s.fs, ys[i].s, k);
  }

  // ---------------------------------------------------------------- what is published stays

  /** The old directory is touched only by its removal and by publishing. */
  lemma OldStays(env: Env, it: Item, phase: Phase, fs: FileSystem, next: Next, fs': FileSystem)
    requires ItemStep(env, it, phase, fs, next, fs') && it.extract.Some? && phase != RemoveOld && phase != Publish
    ensures Same(fs, fs', it.extract.value.name)
  {
    StagingDiffers(it.extract.value.name);
  }

  /** Item `k` has its complete tree in place. */
  ghost predicate InPlace(env: Env, s: State, k: nat) {
    && k < |s.all| && s.all[k].extract.Some? && s.all[k].extract.value.name in s.fs
    && s.fs[s.all[k].extract.value.name] == Complete(env, s.all[k])
  }

  lemma StepInPlace(env: Env, s: State, s': State, w: nat, k: nat)
    requires ItemsOk(env, s.all) && WorkersOk(env, s) && Step(env, s, s', w) && InPlace(env, s, k)
    ensures InPlace(env, s', k)
  {
    if s.workers[w].Busy? {
      var j, phase, x := s.workers[w].k, s.workers[w].phase, s.all[k].extract.value;
      var next :| ItemStep(env, s.all[j], phase, s.fs, next, s'.fs) && s'.workers == s.workers[w := After(j, next)];
      CompleteTree(env, s.all[k], STAMP);
      if j == k {
        assert PhaseOk(env, s.all[k], phase, s.fs);
        assert Stamp(s.fs, x.name) == Some(x.value);
        OldStays(env, s.all[k], phase, s.fs, next, s'.fs);
      } else {
        ItemsApart(env, s.all, j, k);
        StepFrame(env, s.all[j], phase, s.fs, next, s'.fs, x.name);
      }
    }
  }

  /** In every execution, a complete tree stays in place for the rest of its run, whatever the other workers do. */
  lemma {:induction false} StaysInPlace(env: Env, ys: seq<System>, a: nat, i: nat, k: nat)
    requires Execution(env, ys) && a <= i < |ys| && InPlace(env, ys[a].s, k)
    requires forall j :: a <= j <= i ==> ys[j].hist == ys[a].hist
    ensures ys[i].s.all == ys[a].s.all && InPlace(env, ys[i].s, k)
  {
    if a < i {
      StaysInPlace(env, ys, a, i - 1, k);
      ExecutionOk(env, ys, i - 1);
      assert Linked(env, ys, i - 1);
      var w: nat :| Step(env, ys[i - 1].s, ys[i].s, w);
      StepInPlace(env, ys[i - 1].s, ys[i].s, w, k);
    }
  }

  /** Within one run nothing more is needed than that it starts well: the guarantee of
      the run's own stamps survives every step, failure and interruption. */
  lemma RunKeepsTrust(env: Env, s: State, s': State, w: nat)
    requires ItemsOk(env, s.all) && WorkersOk(env, s) && Step(env, s, s', w)
    requires Trustworthy(env, s)
    ensures Trustworthy(env, s') && WorkersOk(env, s')
  {
    WorkersStep(env, s, s', w);
    if s.workers[w].Busy? {
      var k, phase := s.workers[w].k, s.workers[w].phase;
      var next :| ItemStep(env, s.all[k], phase, s.fs, next, s'.fs) && s'.workers == s.workers[w := After(k, next)];
      forall j | 0 <= j < |s.all| && s.all[j].extract.Some?
        ensures StampOk(env, s'.fs, s.all[j].extract.value.name, s.all[j].extract.value.value)
      {
        var x := s.all[j].extract.value;
        if j == k {
          assert Honest(env, s.all[k]);
          if Stamp(s'.fs, x.name) == Some(x.value) { StepStamp(env, s.all[k], phase, s.fs, next, s'.fs, x.value); }
        } else {
          ItemsApart(env, s.all, k, j);
          StepFrame(env, s.all[k], phase, s.fs, next, s'.fs, x.name);
        }
        assert StampOk(env, s.fs, x.name, x.value);
      }
    }
  }

  /** Without that condition the guarantee fails. While a worker removes the tree of identity `u`, the
      stamp may outlive another file; a run that is then interrupted and goes back to `u` takes the
      torn tree for complete and leaves it alone. */
  lemma TornTreeAccepted(env: Env, s: State, w: nat, p: string, back: seq<Item>, u: string) returns (s': State)
    requires ItemsOk(env, s.all) && WorkersOk(env, s)
    requires w < 4 && s.workers[w].Busy? && s.workers[w].phase == RemoveOld && s.all[s.workers[w].k].extract.Some?
    requires var out := s.all[s.workers[w].k].extract.value.name;
             && Stamp(s.fs, out) == Some(u) && s.fs[out] == env.tree(out, u) && p in s.fs[out] && p != STAMP
             && |back| == 1 && back[0].extract.Some? && back[0].extract.value.name == out
               && back[0].extract.value.value == u
    ensures Step(env, s, s', w)
    ensures !Trustworthy(env, Fresh(back, s'.fs))
    ensures ItemStep(env, back[0], Check, s'.fs, Finished, s'.fs)
  {
    var k := s.workers[w].k;
    var out := s.all[k].extract.value.name;
    var fs' := s.fs[out := s.fs[out] - {p}];
    s' := s.(fs := fs');
    assert Shrinks(s.fs, fs', out);
    assert ItemStep(env, s.all[k], RemoveOld, s.fs, Stay(RemoveOld), fs');
    assert s'.workers == s.workers[w := After(k, Stay(RemoveOld))];
    assert p !in fs'[out];
    assert !StampOk(env, fs', out, u);
  }
}
