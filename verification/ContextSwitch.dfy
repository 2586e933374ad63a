/** The context stack of the bundled React server renderer
    (bench/react-hello-world/react-hello-world.workerd.js). A context holds one current value;
    switching between tasks rewrites it along two paths of a tree of provider snapshots. */
module ContextSwitch {
  import opened Wrappers

  type Value = int

  /** A React context; what consumers read is `currentValue` (`_currentValue`). */
  class Context {
    const defaultValue: Value
    var currentValue: Value

    constructor (v: Value)
      ensures defaultValue == v && currentValue == v
    {
      defaultValue := v;
      currentValue := v;
    }
  }

  /** One provider on the path from the root; never changed once created. */
  class ContextNode {
    const parent: ContextNode?
    const depth: nat
    const context: Context
    const parentValue: Value
    const value: Value

    constructor (parent: ContextNode?, depth: nat, context: Context, parentValue: Value, value: Value)
      ensures this.parent == parent && this.depth == depth && this.context == context
      ensures this.parentValue == parentValue && this.value == value
    {
      this.parent, this.depth, this.context := parent, depth, context;
      this.parentValue, this.value := parentValue, value;
    }
  }

  // ---------------------------------------------------------------- specification

  /** The providers around a place in the tree, innermost first. */
  datatype Env = Top | Bind(context: Context, value: Value, outer: Env)

  /** What a consumer should read: the nearest provider's value, or the default. */
  function Nearest(env: Env, c: Context): Value {
    match env
    case Top => c.defaultValue
    case Bind(context, value, outer) => if context == c then value else Nearest(outer, c)
  }

  function Height(n: ContextNode?): nat {
    if n == null then 0 else n.depth + 1
  }

  /** `depth` counts the parents of a node. */
  ghost predicate Linked(n: ContextNode?)
    decreases Height(n)
  {
    n == null || (n.depth == Height(n.parent) && Linked(n.parent))
  }

  ghost function EnvOf(n: ContextNode?): Env
    requires Linked(n)
    decreases Height(n)
  {
    if n == null then Top else Bind(n.context, n.value, EnvOf(n.parent))
  }

  /** Every snapshot remembers the value that its own provider hides. */
  ghost predicate WellFormed(n: ContextNode?, contexts: set<Context>)
    decreases Height(n)
  {
    && Linked(n)
    && (n != null ==>
          && n.context in contexts
          && n.parentValue == Nearest(EnvOf(n.parent), n.context)
          && WellFormed(n.parent, contexts))
  }

  /** The current values are those a consumer below `n` should read. */
  ghost predicate Shows(n: ContextNode?, contexts: set<Context>)
    requires Linked(n)
    reads contexts
  {
    forall c :: c in contexts ==> c.currentValue == Nearest(EnvOf(n), c)
  }

  // ---------------------------------------------------------------- switching

  /** Leaving one provider. */
  method Pop(n: ContextNode, ghost contexts: set<Context>)
    requires WellFormed(n, contexts) && Shows(n, contexts)
    modifies contexts
    ensures Shows(n.parent, contexts)
  {
    n.context.currentValue := n.parentValue;
  }

  /** Entering one provider. */
  method Push(n: ContextNode, ghost contexts: set<Context>)
    requires WellFormed(n, contexts) && Shows(n.parent, contexts)
    modifies contexts
    ensures Shows(n, contexts)
  {
    n.context.currentValue := n.value;
  }

  /** `AE`: both paths have the same length; stop where they meet. */
  method PopToNearestCommonAncestor(prev: ContextNode, next: ContextNode, ghost contexts: set<Context>)
    requires WellFormed(prev, contexts) && WellFormed(next, contexts) && Shows(prev, contexts)
    requires prev.depth == next.depth
    modifies contexts
    ensures Shows(next, contexts)
    decreases prev.depth
  {
    if prev != next {
      Pop(prev, contexts);
      var parentPrev, parentNext := prev.parent, next.parent;
      if parentPrev == null {
        if parentNext != null {
          assert false;
        }
      } else {
        if parentNext == null {
          assert false;
        }
        PopToNearestCommonAncestor(parentPrev, parentNext, contexts);
      }
      Push(next, contexts);
    }
  }

  /** `mC`. */
  method PopAllPrevious(prev: ContextNode, ghost contexts: set<Context>)
    requires WellFormed(prev, contexts) && Shows(prev, contexts)
    modifies contexts
    ensures Shows(null, contexts)
    decreases prev.depth
  {
    Pop(prev, contexts);
    if prev.parent != null {
      PopAllPrevious(prev.parent, contexts);
    }
  }

  /** `MC`. */
  method PushAllNext(next: ContextNode, ghost contexts: set<Context>)
    requires WellFormed(next, contexts) && Shows(null, contexts)
    modifies contexts
    ensures Shows(next, contexts)
    decreases next.depth
  {
    if next.parent != null {
      PushAllNext(next.parent, contexts);
    }
    Push(next, contexts);
  }

  /** `HC`: the old path is the longer one. */
  method PopPreviousToCommonLevel(prev: ContextNode, next: ContextNode, ghost contexts: set<Context>)
    requires WellFormed(prev, contexts) && WellFormed(next, contexts) && Shows(prev, contexts)
    requires prev.depth > next.depth
    modifies contexts
    ensures Shows(next, contexts)
    decreases prev.depth
  {
    Pop(prev, contexts);
    var parentPrev := prev.parent;
    if parentPrev == null {
      assert false;
    }
    if parentPrev.depth == next.depth {
      PopToNearestCommonAncestor(parentPrev, next, contexts);
    } else {
      PopPreviousToCommonLevel(parentPrev, next, contexts);
    }
  }

  /** `IC`: the new path is the longer one. */
  method PopNextToCommonLevel(prev: ContextNode, next: ContextNode, ghost contexts: set<Context>)
    requires WellFormed(prev, contexts) && WellFormed(next, contexts) && Shows(prev, contexts)
    requires prev.depth < next.depth
    modifies contexts
    ensures Shows(next, contexts)
    decreases next.depth
  {
    var parentNext := next.parent;
    if parentNext == null {
      assert false;
    }
    if prev.depth == parentNext.depth {
      PopToNearestCommonAncestor(prev, parentNext, contexts);
    } else {
      PopNextToCommonLevel(prev, parentNext, contexts);
    }
    Push(next, contexts);
  }

  // ---------------------------------------------------------------- rendering

  /** What the renderer is given. `Suspend` throws a promise the first time it is reached; when the
      promise settles, rendering goes on with its child. */
  datatype Element =
    | Text
    | Consumer(id: int, context: Context)
    | Provider(context: Context, value: Value, child: Element)
    | Fragment(children: seq<Element>)
    | Suspend(child: Element)

  datatype Read = Read(id: int, value: Value)

  /** A suspended place: where to go on, and under which providers. */
  datatype Task = Task(node: Element, context: ContextNode?)

  ghost predicate InScope(e: Element, contexts: set<Context>) {
    match e
    case Text => true
    case Consumer(_, c) => c in contexts
    case Provider(c, _, child) => c in contexts && InScope(child, contexts)
    case Fragment(children) => forall k :: 0 <= k < |children| ==> InScope(children[k], contexts)
    case Suspend(child) => InScope(child, contexts)
  }

  /** Lexical scoping: every consumer below `env` reads its nearest provider. */
  ghost function ScopedReads(e: Element, env: Env): multiset<Read> {
    match e
    case Text => multiset{}
    case Consumer(id, c) => multiset{Read(id, Nearest(env, c))}
    case Provider(c, v, child) => ScopedReads(child, Bind(c, v, env))
    case Fragment(children) => ScopedReadsAll(children, env)
    case Suspend(child) => ScopedReads(child, env)
  }

  ghost function ScopedReadsAll(es: seq<Element>, env: Env): multiset<Read> {
    if es == [] then multiset{} else ScopedReads(es[0], env) + ScopedReadsAll(es[1..], env)
  }

  ghost predicate AllLinked(tasks: seq<Task>) {
    forall k :: 0 <= k < |tasks| ==> Linked(tasks[k].context)
  }

  ghost predicate TasksInScope(tasks: seq<Task>, contexts: set<Context>) {
    forall k :: 0 <= k < |tasks| ==> WellFormed(tasks[k].context, contexts) && InScope(tasks[k].node, contexts)
  }

  /** What the suspended tasks will still read. */
  ghost function Pending(tasks: seq<Task>): multiset<Read>
    requires AllLinked(tasks)
  {
    if tasks == [] then multiset{}
    else ScopedReads(tasks[0].node, EnvOf(tasks[0].context)) + Pending(tasks[1..])
  }

  lemma {:induction false} PendingAppend(a: seq<Task>, b: seq<Task>)
    requires AllLinked(a) && AllLinked(b)
    ensures AllLinked(a + b) && Pending(a + b) == Pending(a) + Pending(b)
  {
    if a == [] {
      assert a + b == b;
    } else {
      assert a[1..] + b == (a + b)[1..];
      PendingAppend(a[1..], b);
    }
  }

  lemma PendingOne(t: Task)
    requires Linked(t.context)
    ensures AllLinked([t]) && Pending([t]) == ScopedReads(t.node, EnvOf(t.context))
  {
    assert [t][1..] == [];
  }

  lemma WithoutRest<T>(s: seq<T>, k: nat)
    requires 0 < k < |s|
    ensures Without(s, k) != [] && Without(s, k)[0] == s[0] && Without(s, k)[1..] == Without(s[1..], k - 1)
  {
  }

  lemma {:induction false} SizeSplit(tasks: seq<Task>, k: nat)
    requires k < |tasks|
    ensures TotalSize(tasks) == TotalSize(Without(tasks, k)) + Size(tasks[k].node)
  {
    if k == 0 {
      assert Without(tasks, k) == tasks[1..];
    } else {
      SizeSplit(tasks[1..], k - 1);
      WithoutRest(tasks, k);
    }
  }

  lemma {:induction false} ReadsSplit(tasks: seq<Task>, k: nat)
    requires AllLinked(tasks) && k < |tasks| && AllLinked(Without(tasks, k))
    ensures Pending(tasks) == Pending(Without(tasks, k)) + ScopedReads(tasks[k].node, EnvOf(tasks[k].context))
  {
    if k == 0 {
      assert Without(tasks, k) == tasks[1..];
    } else {
      WithoutRest(tasks, k);
      ReadsSplit(tasks[1..], k - 1);
    }
  }

  lemma PendingSplit(tasks: seq<Task>, k: nat)
    requires AllLinked(tasks) && k < |tasks|
    ensures AllLinked(Without(tasks, k))
    ensures Pending(tasks) == Pending(Without(tasks, k)) + ScopedReads(tasks[k].node, EnvOf(tasks[k].context))
    ensures TotalSize(tasks) == TotalSize(Without(tasks, k)) + Size(tasks[k].node)
  {
    SizeSplit(tasks, k);
    ReadsSplit(tasks, k);
  }

  function Without<T>(s: seq<T>, k: nat): seq<T>
    requires k < |s|
  {
    s[..k] + s[k + 1..]
  }

  ghost function Size(e: Element): nat {
    match e
    case Text => 1
    case Consumer(_, _) => 1
    case Provider(_, _, child) => 1 + Size(child)
    case Fragment(children) => 1 + SizeAll(children)
    case Suspend(child) => 1 + Size(child)
  }

  ghost function SizeAll(es: seq<Element>): nat {
    if es == [] then 0 else Size(es[0]) + SizeAll(es[1..])
  }

  ghost function TotalSize(tasks: seq<Task>): nat {
    if tasks == [] then 0 else Size(tasks[0].node) + TotalSize(tasks[1..])
  }

  lemma {:induction false} SizeAppend(a: seq<Task>, b: seq<Task>)
    ensures TotalSize(a + b) == TotalSize(a) + TotalSize(b)
  {
    if a == [] {
      assert a + b == b;
    } else {
      assert a[1..] + b == (a + b)[1..];
      SizeAppend(a[1..], b);
    }
  }

  /** The reads made and owed grow by exactly those of `e`, of which those of `rest` are left over. */
  ghost predicate Accounts(before: multiset<Read>, after: multiset<Read>, e: Element, env: Env,
                           rest: Option<Element>, restEnv: Env)
  {
    (if rest.Some? then after + ScopedReads(rest.value, restEnv) else after) == before + ScopedReads(e, env)
  }

  /** The reads of a provider are those of its child where it binds its value. */
  lemma ProviderAccounts(before: multiset<Read>, after: multiset<Read>, e: Element, env: Env,
                         rest: Option<Element>, restEnv: Env)
    requires e.Provider? && Accounts(before, after, e.child, Bind(e.context, e.value, env), rest, restEnv)
    ensures Accounts(before, after, e, env, rest, restEnv)
  {
  }

  /** The part of the renderer that deals with contexts. `current` is the global `Uc`. */
  class Renderer {
    ghost const contexts: set<Context>
    var current: ContextNode?
    var log: seq<Read>
    var tasks: seq<Task>

    ghost predicate Valid()
      reads this, contexts
    {
      && WellFormed(current, contexts)
      && Shows(current, contexts)
      && AllLinked(tasks)
      && TasksInScope(tasks, contexts)
    }

    /** Reads made so far and reads still to be made. */
    ghost function Total(): multiset<Read>
      requires AllLinked(tasks)
      reads this`log, this`tasks
    {
      multiset(log) + Pending(tasks)
    }

    constructor (ghost contexts: set<Context>)
      requires forall c :: c in contexts ==> c.currentValue == c.defaultValue
      ensures Valid() && this.contexts == contexts && current == null && log == [] && tasks == []
    {
      this.contexts := contexts;
      current, log, tasks := null, [], [];
    }

    /** `qu`: from whatever is current to any other snapshot. */
    method SwitchContext(next: ContextNode?)
      requires Valid() && WellFormed(next, contexts)
      modifies this`current, contexts
      ensures Valid() && current == next
    {
      var prev := current;
      if prev != next {
        if prev == null {
          PushAllNext(next, contexts);
        } else if next == null {
          PopAllPrevious(prev, contexts);
        } else if prev.depth == next.depth {
          PopToNearestCommonAncestor(prev, next, contexts);
        } else if prev.depth > next.depth {
          PopPreviousToCommonLevel(prev, next, contexts);
        } else {
          PopNextToCommonLevel(prev, next, contexts);
        }
        current := next;
      }
    }

    method PushProvider(c: Context, v: Value)
      requires Valid() && c in contexts
      modifies this`current, contexts
      ensures Valid() && current != null && fresh(current) && current.parent == old(current)
      ensures EnvOf(current) == Bind(c, v, old(EnvOf(current)))
    {
      var prevValue := c.currentValue;
      c.currentValue := v;
      var prev := current;
      current := new ContextNode(prev, if prev == null then 0 else prev.depth + 1, c, prevValue, v);
    }

    method PopProvider()
      requires Valid() && current != null
      modifies this`current, contexts
      ensures Valid() && current == old(current).parent
    {
      var prev := current;
      prev.context.currentValue := prev.parentValue;
      current := prev.parent;
    }

    /** `yu`: renders one node. A suspension is thrown past every provider entered meanwhile, so
        it leaves `current` where it happened; `rest` is the node to go on with. */
    method RenderDestructive(e: Element) returns (rest: Option<Element>)
      requires Valid() && InScope(e, contexts)
      modifies this`current, this`log, this`tasks, contexts
      ensures Valid() && (rest.Some? ==> InScope(rest.value, contexts))
      ensures rest.None? ==> current == old(current)
      ensures Accounts(old(Total()), Total(), e, EnvOf(old(current)), rest, EnvOf(current))
      ensures TotalSize(tasks) + (if rest.Some? then Size(rest.value) else 0) < old(TotalSize(tasks)) + Size(e)
      decreases e, 1
    {
      match e
      case Text =>
        rest := None;
      case Consumer(id, c) =>
        ReadContext(id, c);
        rest := None;
      case Provider(c, v, child) =>
        rest := RenderProvider(e);
      case Fragment(children) =>
        RenderChildren(children);
        rest := None;
      case Suspend(child) =>
        rest := Some(child);
    }

    /** `useContext` and `readContext`. */
    method ReadContext(id: int, c: Context)
      requires Valid() && c in contexts
      modifies this`log
      ensures Valid() && Total() == old(Total()) + multiset{Read(id, Nearest(EnvOf(current), c))}
    {
      log := log + [Read(id, c.currentValue)];
    }

    /** The provider case of `vE`. */
    method RenderProvider(e: Element) returns (rest: Option<Element>)
      requires Valid() && InScope(e, contexts) && e.Provider?
      modifies this`current, this`log, this`tasks, contexts
      ensures Valid() && (rest.Some? ==> InScope(rest.value, contexts))
      ensures rest.None? ==> current == old(current)
      ensures Accounts(old(Total()), Total(), e, EnvOf(old(current)), rest, EnvOf(current))
      ensures TotalSize(tasks) + (if rest.Some? then Size(rest.value) else 0) < old(TotalSize(tasks)) + Size(e)
      decreases e, 0
    {
      ghost var total, env := Total(), EnvOf(current);
      PushProvider(e.context, e.value);
      rest := RenderDestructive(e.child);
      ProviderAccounts(total, Total(), e, env, rest, EnvOf(current));
      if rest.None? {
        PopProvider();
      }
    }

    /** `lv`. */
    method RenderChildren(es: seq<Element>)
      requires Valid() && forall k :: 0 <= k < |es| ==> InScope(es[k], contexts)
      modifies this`current, this`log, this`tasks, contexts
      ensures Valid() && current == old(current)
      ensures Total() == old(Total()) + ScopedReadsAll(es, EnvOf(current))
      ensures TotalSize(tasks) <= old(TotalSize(tasks)) + SizeAll(es)
      decreases es, 0
    {
      if es != [] {
        RenderNode(es[0]);
        RenderChildren(es[1..]);
      }
    }

    /** `Ef`: renders a node and catches its suspension: what is left becomes a task, and the
        context from before is restored. */
    method RenderNode(e: Element)
      requires Valid() && InScope(e, contexts)
      modifies this`current, this`log, this`tasks, contexts
      ensures Valid() && current == old(current)
      ensures Total() == old(Total()) + ScopedReads(e, EnvOf(current))
      ensures TotalSize(tasks) <= old(TotalSize(tasks)) + Size(e)
      decreases e, 2
    {
      var saved := current;
      var rest := RenderDestructive(e);
      if rest.Some? {
        CatchSuspension(rest.value, saved);
      }
    }

    method CatchSuspension(e: Element, saved: ContextNode?)
      requires Valid() && InScope(e, contexts) && WellFormed(saved, contexts)
      modifies this`current, this`tasks, contexts
      ensures Valid() && current == saved
      ensures Total() == old(Total()) + ScopedReads(e, EnvOf(old(current)))
      ensures TotalSize(tasks) == old(TotalSize(tasks)) + Size(e)
    {
      AddTask(e);
      SwitchContext(saved);
    }

    method AddTask(e: Element)
      requires Valid() && InScope(e, contexts)
      modifies this`tasks
      ensures Valid()
      ensures Total() == old(Total()) + ScopedReads(e, EnvOf(current))
      ensures TotalSize(tasks) == old(TotalSize(tasks)) + Size(e)
    {
      var t := Task(e, current);
      PendingOne(t);
      PendingAppend(tasks, [t]);
      SizeAppend(tasks, [t]);
      assert [t][1..] == [];
      tasks := tasks + [t];
    }

    method TakeTask(k: nat) returns (task: Task)
      requires Valid() && k < |tasks|
      modifies this`tasks
      ensures Valid() && WellFormed(task.context, contexts) && InScope(task.node, contexts)
      ensures old(Total()) == Total() + ScopedReads(task.node, EnvOf(task.context))
      ensures old(TotalSize(tasks)) == TotalSize(tasks) + Size(task.node)
    {
      task := tasks[k];
      PendingSplit(tasks, k);
      tasks := Without(tasks, k);
    }

    /** Resumes one suspended task, under the providers it was suspended under. */
    method Resume(k: nat)
      requires Valid() && k < |tasks|
      modifies this`current, this`log, this`tasks, contexts
      ensures Valid()
      ensures Total() == old(Total())
      ensures TotalSize(tasks) < old(TotalSize(tasks))
    {
      var task := TakeTask(k);
      SwitchContext(task.context);
      var rest := RenderDestructive(task.node);
      if rest.Some? {
        AddTask(rest.value);
      }
    }

    /** Renders `root` and then resumes the suspended tasks in any order until none is left: every
        consumer has read the value of its nearest provider, once. */
    method RenderAll(root: Element)
      requires Valid() && tasks == [] && log == [] && InScope(root, contexts)
      modifies this`current, this`log, this`tasks, contexts
      ensures Valid() && current == old(current) && tasks == []
      ensures multiset(log) == ScopedReads(root, EnvOf(current))
    {
      var prev := current;
      RenderNode(root);
      while tasks != []
        invariant Valid()
        invariant Total() == ScopedReads(root, EnvOf(prev))
        decreases TotalSize(tasks)
      {
        var k :| 0 <= k < |tasks|;
        Resume(k);
      }
      SwitchContext(prev);
    }
  }
}
