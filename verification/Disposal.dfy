/** `using` declarations after lowering: `__using` and `__callDispose` of src/runtime.bun.js. */
module Disposal {
  import opened Wrappers

  // ---------------------------------------------------------------- resources

  /** A property that should hold a dispose method. */
  datatype Method = Undefined | Null | NotCallable | Function(id: nat)

  /** The initialiser of a `using` declaration. */
  datatype Resource = Nullish | Primitive | Object(asyncDispose: Method, dispose: Method)

  /** What `__using` pushes; an `await using` of null has nothing to call. `borrowed` remembers that an
      `await using` took `Symbol.dispose`; the code does not. */
  datatype Entry = Entry(isAsync: bool, dispose: Option<nat>, borrowed: bool)

  datatype Acquired = Pushed(stack: seq<Entry>) | TypeError

  function DisposeMethod(v: Resource, isAsync: bool): Method
    requires v.Object?
  {
    if isAsync && v.asyncDispose != Undefined then v.asyncDispose else v.dispose
  }

  /** `__using`. */
  function Using(stack: seq<Entry>, v: Resource, isAsync: bool): (r: Acquired)
    ensures r.TypeError? <==> v.Primitive? || (v.Object? && !DisposeMethod(v, isAsync).Function?)
    ensures v.Nullish? ==> r == Pushed(if isAsync then stack + [Entry(true, None, false)] else stack)
    ensures r.Pushed? && v.Object? ==>
      r.stack == stack + [Entry(isAsync, Some(DisposeMethod(v, isAsync).id), isAsync && v.asyncDispose.Undefined?)]
  {
    match v
    case Nullish => if isAsync then Pushed(stack + [Entry(isAsync, None, false)]) else Pushed(stack)
    case Primitive => TypeError
    case Object(asyncDispose, dispose) =>
      var m := if isAsync then asyncDispose else Undefined;
      var borrowed := isAsync && m == Undefined;
      var m := if m == Undefined then dispose else m;
      if m.Function? then Pushed(stack + [Entry(isAsync, Some(m.id), borrowed)]) else TypeError
  }

  // ---------------------------------------------------------------- specification

  type Thrown = int

  /** What calling a disposer does: throw, or return something that, if awaited, may reject. */
  datatype Behaviour = Throws(e: Thrown) | Returns(rejection: Option<Thrown>)

  datatype Error = Plain(e: Thrown) | SuppressedError(error: Thrown, suppressed: Error)

  /** A completion: normal, or throwing an error. */
  type Completion = Option<Error>

  /** A failure on top of a completion. */
  function Combine(c: Completion, failure: Option<Thrown>): Completion {
    if failure.None? then c
    else if c.Some? then Some(SuppressedError(failure.value, c.value))
    else Some(Plain(failure.value))
  }

  /** How disposing one resource fails, if it does. Only an async resource is waited for. */
  function Failure(behaviour: nat -> Behaviour, it: Entry): Option<Thrown> {
    if it.dispose.None? then None
    else
      match behaviour(it.dispose.value)
      case Throws(e) => Some(e)
      case Returns(rejection) => if it.isAsync then rejection else None
  }

  /** Last in, first out, each failure suppressing what came before. */
  function Dispose(behaviour: nat -> Behaviour, stack: seq<Entry>, c: Completion): Completion {
    if stack == [] then c
    else Dispose(behaviour, stack[..|stack| - 1], Combine(c, Failure(behaviour, stack[|stack| - 1])))
  }

  /** The disposers of a stack, last first. */
  function Calls(stack: seq<Entry>): seq<nat> {
    if stack == [] then []
    else
      var it := stack[|stack| - 1];
      (if it.dispose.Some? then [it.dispose.value] else []) + Calls(stack[..|stack| - 1])
  }

  /** Waited for: async, unless the call itself throws. */
  predicate Awaited(behaviour: nat -> Behaviour, it: Entry) {
    it.isAsync && (it.dispose.None? || behaviour(it.dispose.value).Returns?)
  }

  function Awaits(behaviour: nat -> Behaviour, stack: seq<Entry>): nat {
    if stack == [] then 0
    else Awaits(behaviour, stack[..|stack| - 1]) + if Awaited(behaviour, stack[|stack| - 1]) then 1 else 0
  }

  /** Something is waited for if and only if an `await using` had null, or its disposer's call returns. */
  lemma {:induction false} AwaitsIff(behaviour: nat -> Behaviour, stack: seq<Entry>)
    ensures Awaits(behaviour, stack) > 0 <==>
              exists i :: 0 <= i < |stack| && stack[i].isAsync
                          && (stack[i].dispose.None? || behaviour(stack[i].dispose.value).Returns?)
  {
    if stack != [] {
      var rest := stack[..|stack| - 1];
      AwaitsIff(behaviour, rest);
      assert forall i :: 0 <= i < |rest| ==> rest[i] == stack[i];
    }
  }

  // ---------------------------------------------------------------- the continuation

  /** How `next` ends: with a promise to wait for, which settles as given, or for good. */
  datatype Progress = Waiting(rejection: Option<Thrown>) | Returned | Threw(error: Error)

  /** The variables that the closures of one `__callDispose` call share. */
  class Disposing {
    const behaviour: nat -> Behaviour
    var stack: seq<Entry>
    var error: Error
    var hasError: bool
    /** The disposers called so far, in order. */
    ghost var calls: seq<nat>

    constructor (behaviour: nat -> Behaviour, stack: seq<Entry>, error: Error, hasError: bool)
      ensures this.behaviour == behaviour && this.stack == stack && this.error == error && this.hasError == hasError
      ensures calls == []
    {
      this.behaviour, this.stack, this.error, this.hasError, this.calls := behaviour, stack, error, hasError, [];
    }

    function Current(): Completion
      reads this
    {
      if hasError then Some(error) else None
    }

    method Fail(e: Thrown)
      modifies this`error, this`hasError
      ensures Current() == Combine(old(Current()), Some(e))
    {
      if hasError {
        error := SuppressedError(e, error);
      } else {
        hasError := true;
        error := Plain(e);
      }
    }

    /** `next`: pops and disposes until a result has to be waited for or the stack is empty. What is
        still to be called and how it will all end never change. */
    method Next() returns (r: Progress)
      modifies this
      ensures calls + Calls(stack) == old(calls + Calls(stack))
      ensures r.Waiting? ==>
        Dispose(behaviour, stack, Combine(Current(), r.rejection)) == old(Dispose(behaviour, stack, Current()))
      ensures r.Waiting? ==> Awaits(behaviour, stack) + 1 == old(Awaits(behaviour, stack)) && |stack| < old(|stack|)
      ensures !r.Waiting? ==> stack == [] && old(Awaits(behaviour, stack)) == 0
      ensures !r.Waiting? ==> Current() == old(Dispose(behaviour, stack, Current()))
      ensures r.Threw? ==> Current() == Some(r.error)
      ensures r.Returned? ==> Current() == None
    {
      while stack != []
        invariant calls + Calls(stack) == old(calls + Calls(stack))
        invariant Dispose(behaviour, stack, Current()) == old(Dispose(behaviour, stack, Current()))
        invariant Awaits(behaviour, stack) == old(Awaits(behaviour, stack)) && |stack| <= old(|stack|)
        decreases |stack|
      {
        var it := stack[|stack| - 1];
        stack := stack[..|stack| - 1];
        var result: Behaviour := Returns(None);
        if it.dispose.Some? {
          calls := calls + [it.dispose.value];
          result := behaviour(it.dispose.value);
        }
        if result.Throws? {
          Fail(result.e);
        } else if it.isAsync {
          return Waiting(result.rejection);
        }
      }
      r := if hasError then Threw(error) else Returned;
    }

    /** The two reactions given to `then`. */
    method Resume(rejection: Option<Thrown>) returns (r: Progress)
      modifies this
      ensures calls + Calls(stack) == old(calls + Calls(stack))
      ensures r.Waiting? ==>
                Dispose(behaviour, stack, Combine(Current(), r.rejection))
                  == old(Dispose(behaviour, stack, Combine(Current(), rejection)))
      ensures r.Waiting? ==> Awaits(behaviour, stack) + 1 == old(Awaits(behaviour, stack)) && |stack| < old(|stack|)
      ensures !r.Waiting? ==> stack == [] && old(Awaits(behaviour, stack)) == 0
      ensures !r.Waiting? ==> Current() == old(Dispose(behaviour, stack, Combine(Current(), rejection)))
      ensures r.Threw? ==> Current() == Some(r.error)
      ensures r.Returned? ==> Current() == None
    {
      if rejection.Some? {
        Fail(rejection.value);
      }
      r := Next();
    }
  }

  /** `__callDispose` run to its end over all suspensions: every disposer is called once, last first;
      the outcome is that of the reference; and it is a promise exactly if something was waited for. */
  method CallDispose(behaviour: nat -> Behaviour, stack: seq<Entry>, error: Error, hasError: bool)
    returns (outcome: Completion, promised: bool, ghost calls: seq<nat>)
    ensures outcome == Dispose(behaviour, stack, if hasError then Some(error) else None)
    ensures calls == Calls(stack)
    ensures promised <==>
              exists i :: 0 <= i < |stack| && stack[i].isAsync
                          && (stack[i].dispose.None? || behaviour(stack[i].dispose.value).Returns?)
  {
    AwaitsIff(behaviour, stack);
    var d := new Disposing(behaviour, stack, error, hasError);
    ghost var goal := Dispose(behaviour, stack, d.Current());
    var r := d.Next();
    promised := r.Waiting?;
    while r.Waiting?
      invariant fresh(d) && d.behaviour == behaviour
      invariant d.calls + Calls(d.stack) == Calls(stack)
      invariant r.Waiting? ==> Dispose(behaviour, d.stack, Combine(d.Current(), r.rejection)) == goal
      invariant !r.Waiting? ==> d.stack == [] && d.Current() == goal
      invariant r.Threw? ==> d.Current() == Some(r.error)
      invariant r.Returned? ==> d.Current() == None
      decreases r.Waiting?, |d.stack|
    {
      r := d.Resume(r.rejection);
    }
    outcome := if r.Threw? then Some(r.error) else None;
    calls := d.calls;
    assert d.calls + [] == d.calls;
  }

  // ---------------------------------------------------------------- what the reference means

  /** The chain of an error: itself, then what it suppressed. */
  function Chain(c: Completion): seq<Thrown> {
    if c.None? then [] else ChainOf(c.value)
  }

  function ChainOf(e: Error): seq<Thrown> {
    match e
    case Plain(e) => [e]
    case SuppressedError(e, s) => [e] + ChainOf(s)
  }

  /** The failures of a stack in the order of declaration. */
  function Failures(behaviour: nat -> Behaviour, stack: seq<Entry>): seq<Thrown> {
    if stack == [] then []
    else
      var f := Failure(behaviour, stack[|stack| - 1]);
      Failures(behaviour, stack[..|stack| - 1]) + if f.Some? then [f.value] else []
  }

  /** No failure is lost: the error chain lists the failures in order of declaration, and ends with the
      error the block itself threw. */
  lemma {:induction false} NothingLost(behaviour: nat -> Behaviour, stack: seq<Entry>, c: Completion)
    ensures Chain(Dispose(behaviour, stack, c)) == Failures(behaviour, stack) + Chain(c)
  {
    if stack == [] {
    } else {
      var rest, f := stack[..|stack| - 1], Failure(behaviour, stack[|stack| - 1]);
      NothingLost(behaviour, rest, Combine(c, f));
      assert Chain(Combine(c, f)) == (if f.Some? then [f.value] else []) + Chain(c);
    }
  }

  /** The disposers of a stack in order of declaration. */
  function Disposers(stack: seq<Entry>): seq<nat> {
    if stack == [] then []
    else
      var dispose := stack[|stack| - 1].dispose;
      Disposers(stack[..|stack| - 1]) + if dispose.Some? then [dispose.value] else []
  }

  lemma {:induction false} CallsReverse(stack: seq<Entry>)
    ensures |Calls(stack)| == |Disposers(stack)|
    ensures forall k :: 0 <= k < |Calls(stack)| ==> Calls(stack)[k] == Disposers(stack)[|Calls(stack)| - 1 - k]
  {
    if stack != [] {
      CallsReverse(stack[..|stack| - 1]);
    }
  }

  // ---------------------------------------------------------------- the proposal

  /** GetDisposeMethod of the Explicit Resource Management proposal: null counts as undefined, and a borrowed
      method is wrapped. */
  function ProposedUsing(stack: seq<Entry>, v: Resource, isAsync: bool): Acquired {
    match v
    case Nullish => if isAsync then Pushed(stack + [Entry(true, None, false)]) else Pushed(stack)
    case Primitive => TypeError
    case Object(asyncDispose, dispose) =>
      var borrowed := isAsync && (asyncDispose.Undefined? || asyncDispose.Null?);
      var m := if isAsync && !borrowed then asyncDispose else dispose;
      if m.Function? then Pushed(stack + [Entry(isAsync, Some(m.id), borrowed)]) else TypeError
  }

  /** Acquisition is that of the proposal, except that a null `Symbol.asyncDispose` is refused. */
  lemma UsingIff(stack: seq<Entry>, v: Resource, isAsync: bool)
    ensures Using(stack, v, isAsync) == ProposedUsing(stack, v, isAsync)
       <==> !(isAsync && v.Object? && v.asyncDispose.Null? && v.dispose.Function?)
  {
  }

  /** The wrapper of a borrowed method ignores what the method returns. */
  function ProposedFailure(behaviour: nat -> Behaviour, it: Entry): Option<Thrown> {
    if it.dispose.None? then None
    else
      match behaviour(it.dispose.value)
      case Throws(e) => Some(e)
      case Returns(rejection) => if it.isAsync && !it.borrowed then rejection else None
  }

  /** DisposeResources of the proposal. */
  function ProposedDispose(behaviour: nat -> Behaviour, stack: seq<Entry>, c: Completion): Completion {
    if stack == [] then c
    else ProposedDispose(behaviour, stack[..|stack| - 1], Combine(c, ProposedFailure(behaviour, stack[|stack| - 1])))
  }

  /** A borrowed disposer returns a promise that rejects. */
  predicate Differs(behaviour: nat -> Behaviour, it: Entry) {
    it.isAsync && it.borrowed && it.dispose.Some? && behaviour(it.dispose.value).Returns?
      && behaviour(it.dispose.value).rejection.Some?
  }

  lemma {:induction false} ProposedLength(behaviour: nat -> Behaviour, stack: seq<Entry>, c: Completion)
    ensures |Chain(ProposedDispose(behaviour, stack, c))| <= |Failures(behaviour, stack)| + |Chain(c)|
    ensures (exists i :: 0 <= i < |stack| && Differs(behaviour, stack[i])) ==>
      |Chain(ProposedDispose(behaviour, stack, c))| < |Failures(behaviour, stack)| + |Chain(c)|
  {
    if stack != [] {
      var rest, it := stack[..|stack| - 1], stack[|stack| - 1];
      var f := ProposedFailure(behaviour, it);
      ProposedLength(behaviour, rest, Combine(c, f));
      assert |Chain(Combine(c, f))| == |Chain(c)| + if f.Some? then 1 else 0;
      if exists i :: 0 <= i < |stack| && Differs(behaviour, stack[i]) {
        var i :| 0 <= i < |stack| && Differs(behaviour, stack[i]);
        if i < |rest| { assert Differs(behaviour, rest[i]); }
      }
    }
  }

  lemma {:induction false} SameOutcome(behaviour: nat -> Behaviour, stack: seq<Entry>, c: Completion)
    requires forall i :: 0 <= i < |stack| ==> !Differs(behaviour, stack[i])
    ensures Dispose(behaviour, stack, c) == ProposedDispose(behaviour, stack, c)
  {
    if stack != [] {
      var rest, it := stack[..|stack| - 1], stack[|stack| - 1];
      assert !Differs(behaviour, it);
      SameOutcome(behaviour, rest, Combine(c, Failure(behaviour, it)));
    }
  }

  /** The outcome is that of the proposal if and only if no borrowed disposer returns a promise that rejects. */
  lemma OutcomeIff(behaviour: nat -> Behaviour, stack: seq<Entry>, c: Completion)
    ensures Dispose(behaviour, stack, c) == ProposedDispose(behaviour, stack, c)
       <==> forall i :: 0 <= i < |stack| ==> !Differs(behaviour, stack[i])
  {
    if forall i :: 0 <= i < |stack| ==> !Differs(behaviour, stack[i]) {
      SameOutcome(behaviour, stack, c);
    } else {
      NothingLost(behaviour, stack, c);
      ProposedLength(behaviour, stack, c);
    }
  }

  /** `await using x = { [Symbol.dispose]() { return Promise.reject(e) } }` fails with `e`, and completes by the
      proposal. */
  lemma BorrowedRejects(id: nat, e: Thrown)
    ensures var r := Using([], Object(Undefined, Function(id)), true);
      && r == ProposedUsing([], Object(Undefined, Function(id)), true) && r.Pushed?
      && Dispose(_ => Returns(Some(e)), r.stack, None) == Some(Plain(e))
      && ProposedDispose(_ => Returns(Some(e)), r.stack, None) == None
  {
    var stack := [Entry(true, Some(id), true)];
    assert Using([], Object(Undefined, Function(id)), true) == Pushed(stack);
    assert stack[..0] == [];
  }

  // ---------------------------------------------------------------- waiting, by the proposal

  /** The calls of Await that DisposeResources makes: one for each async resource whose method returns normally, as
      the wrapper of a borrowed one always does; and one that stands for all the async nulls, before the next sync
      resource or at the end, unless there was another Await. `needs` and `has` are needsAwait and hasAwaited. */
  function ProposedAwaits(behaviour: nat -> Behaviour, stack: seq<Entry>, needs: bool, has: bool): nat {
    if stack == [] then (if needs && !has then 1 else 0)
    else
      var rest, it := stack[..|stack| - 1], stack[|stack| - 1];
      var now := !it.isAsync && needs && !has;
      var needs' := needs && !now;
      (if now then 1 else 0)
      + if it.dispose.None? then ProposedAwaits(behaviour, rest, needs' || it.isAsync, has)
        else if it.isAsync && (it.borrowed || behaviour(it.dispose.value).Returns?)
        then 1 + ProposedAwaits(behaviour, rest, needs', true)
        else ProposedAwaits(behaviour, rest, needs', has)
  }

  /** The proposal waits at all if and only if an `await using` had null, or a disposer that was borrowed or whose
      call returns. */
  lemma {:induction false} ProposedAwaitsIff(behaviour: nat -> Behaviour, stack: seq<Entry>, needs: bool)
    ensures ProposedAwaits(behaviour, stack, needs, false) > 0 <==>
              || needs
              || exists i :: 0 <= i < |stack| && stack[i].isAsync
                             && (stack[i].dispose.None? || stack[i].borrowed
                                 || behaviour(stack[i].dispose.value).Returns?)
  {
    if stack != [] {
      var rest, it := stack[..|stack| - 1], stack[|stack| - 1];
      ProposedAwaitsIff(behaviour, rest, needs || (it.isAsync && it.dispose.None?));
      assert forall i :: 0 <= i < |rest| ==> rest[i] == stack[i];
      assert it == stack[|rest|];
    }
  }

  /** There is a promise exactly if the proposal waits, unless the calls of borrowed disposers throw and nothing else
      is waited for: then the proposal waits for their wrappers, and `__callDispose` throws at once. */
  lemma PromiseIff(behaviour: nat -> Behaviour, stack: seq<Entry>)
    ensures (Awaits(behaviour, stack) > 0 <==> ProposedAwaits(behaviour, stack, false, false) > 0) <==>
              || (exists i :: 0 <= i < |stack| && stack[i].isAsync
                              && (stack[i].dispose.None? || behaviour(stack[i].dispose.value).Returns?))
              || (forall i :: 0 <= i < |stack| && stack[i].isAsync && stack[i].borrowed && stack[i].dispose.Some? ==>
                                !behaviour(stack[i].dispose.value).Throws?)
  {
    AwaitsIff(behaviour, stack);
    ProposedAwaitsIff(behaviour, stack, false);
  }

  /** `await using x = null` waits, here and by the proposal. */
  lemma NullWaits(behaviour: nat -> Behaviour)
    ensures Using([], Nullish, true) == Pushed([Entry(true, None, false)])
    ensures Awaits(behaviour, [Entry(true, None, false)]) == 1
    ensures ProposedAwaits(behaviour, [Entry(true, None, false)], false, false) == 1
  {
    var stack := [Entry(true, None, false)];
    assert stack[..0] == [];
  }

  /** `await using x = { [Symbol.dispose]() { throw e } }` throws without a promise, and waits by the proposal. */
  lemma BorrowedThrows(id: nat, e: Thrown)
    ensures var r := Using([], Object(Undefined, Function(id)), true);
            && r.Pushed? && Awaits(_ => Throws(e), r.stack) == 0
            && ProposedAwaits(_ => Throws(e), r.stack, false, false) == 1
            && Dispose(_ => Throws(e), r.stack, None) == ProposedDispose(_ => Throws(e), r.stack, None)
  {
    var stack := [Entry(true, Some(id), true)];
    assert Using([], Object(Undefined, Function(id)), true) == Pushed(stack);
    assert stack[..0] == [];
  }

  // ---------------------------------------------------------------- a whole block

  datatype Declaration = Declaration(resource: Resource, isAsync: bool)

  /** How many leading declarations are acquired before one is refused. */
  function AcquiredCount(ds: seq<Declaration>): (n: nat)
    ensures n <= |ds|
  {
    if ds == [] then 0
    else
      var n := AcquiredCount(ds[..|ds| - 1]);
      if n < |ds| - 1 then n
      else if Using([], ds[|ds| - 1].resource, ds[|ds| - 1].isAsync).TypeError? then n else n + 1
  }

  /** The stack after acquiring declarations none of which is refused. */
  function StackOf(ds: seq<Declaration>): seq<Entry> {
    if ds == [] then []
    else
      var stack := StackOf(ds[..|ds| - 1]);
      var r := Using(stack, ds[|ds| - 1].resource, ds[|ds| - 1].isAsync);
      if r.Pushed? then r.stack else stack
  }

  const TYPE_ERROR: Thrown := -1

  lemma {:induction false} CountStops(ds: seq<Declaration>, k: nat)
    requires k < |ds| && AcquiredCount(ds[..k]) == k
    requires Using([], ds[k].resource, ds[k].isAsync).TypeError?
    ensures AcquiredCount(ds) == k
  {
    if |ds| == k + 1 {
      assert ds[..|ds| - 1] == ds[..k];
    } else {
      var h := ds[..|ds| - 1];
      assert h[..k] == ds[..k];
      CountStops(h, k);
    }
  }

  /** The first refused declaration stops the acquisition. */
  lemma {:induction false} CountMeaning(ds: seq<Declaration>)
    ensures forall k :: 0 <= k < AcquiredCount(ds) ==> !IsRefused(ds[k])
    ensures AcquiredCount(ds) < |ds| ==> IsRefused(ds[AcquiredCount(ds)])
  {
    if ds != [] { CountMeaning(ds[..|ds| - 1]); }
  }

  /** A primitive, or an object without a method to dispose of it. */
  ghost predicate IsRefused(d: Declaration) {
    match d.resource
    case Nullish => false
    case Primitive => true
    case Object(asyncDispose, dispose) =>
      if d.isAsync && asyncDispose != Undefined then !asyncDispose.Function? else !dispose.Function?
  }

  /** How a block ends that threw at its first refused declaration, or as its body did. */
  function BlockThrows(refused: bool, body: Option<Thrown>): Completion {
    if refused then Some(Plain(TYPE_ERROR)) else if body.Some? then Some(Plain(body.value)) else None
  }

  /** A block with `using` declarations, lowered: a refused declaration ends the block like an error
      of its body, and whatever was acquired before it is disposed of. */
  method RunBlock(behaviour: nat -> Behaviour, ds: seq<Declaration>, body: Option<Thrown>)
    returns (outcome: Completion, ghost calls: seq<nat>)
    ensures calls == Calls(StackOf(ds[..AcquiredCount(ds)]))
    ensures outcome == Dispose(behaviour, StackOf(ds[..AcquiredCount(ds)]),
                               if AcquiredCount(ds) < |ds| then Some(Plain(TYPE_ERROR))
                               else if body.Some? then Some(Plain(body.value)) else None)
  {
    var stack: seq<Entry> := [];
    var error, hasError := Plain(TYPE_ERROR), false;
    var k := 0;
    while k < |ds| && !hasError
      invariant k <= |ds| && AcquiredCount(ds[..k]) == k && stack == StackOf(ds[..k])
      invariant hasError ==> k < |ds| && AcquiredCount(ds) == k && error == Plain(TYPE_ERROR)
      decreases |ds| - k, !hasError
    {
      assert ds[..k + 1][..k] == ds[..k];
      var r := Using(stack, ds[k].resource, ds[k].isAsync);
      if r.TypeError? {
        CountStops(ds, k);
        error, hasError := Plain(TYPE_ERROR), true;
      } else {
        stack := r.stack;
        k := k + 1;
      }
    }
    assert ds[..|ds|] == ds;
    if !hasError && body.Some? {
      error, hasError := Plain(body.value), true;
    }
    var promised;
    outcome, promised, calls := CallDispose(behaviour, stack, error, hasError);
  }

  // ---------------------------------------------------------------- a whole block by the proposal

  function ProposedCount(ds: seq<Declaration>): (n: nat)
    ensures n <= |ds|
  {
    if ds == [] then 0
    else
      var n := ProposedCount(ds[..|ds| - 1]);
      if n < |ds| - 1 then n
      else if ProposedUsing([], ds[|ds| - 1].resource, ds[|ds| - 1].isAsync).TypeError? then n else n + 1
  }

  function ProposedStack(ds: seq<Declaration>): seq<Entry> {
    if ds == [] then []
    else
      var stack := ProposedStack(ds[..|ds| - 1]);
      var r := ProposedUsing(stack, ds[|ds| - 1].resource, ds[|ds| - 1].isAsync);
      if r.Pushed? then r.stack else stack
  }

  function ProposedBlock(behaviour: nat -> Behaviour, ds: seq<Declaration>, body: Option<Thrown>): Completion {
    var n := ProposedCount(ds);
    ProposedDispose(behaviour, ProposedStack(ds[..n]), BlockThrows(n < |ds|, body))
  }

  /** A null `Symbol.asyncDispose` that the proposal passes over. */
  predicate NullAsync(d: Declaration) {
    d.isAsync && d.resource.Object? && d.resource.asyncDispose.Null? && d.resource.dispose.Function?
  }

  lemma {:induction false} SameStack(ds: seq<Declaration>)
    requires forall k :: 0 <= k < |ds| ==> !NullAsync(ds[k])
    ensures StackOf(ds) == ProposedStack(ds)
  {
    if ds != [] {
      var h, last := ds[..|ds| - 1], ds[|ds| - 1];
      assert !NullAsync(last);
      SameStack(h);
      UsingIff(StackOf(h), last.resource, last.isAsync);
    }
  }

  /** As many are acquired if no declaration that is reached differs. */
  lemma {:induction false} SameCount(ds: seq<Declaration>)
    requires forall k :: 0 <= k < |ds| && k <= AcquiredCount(ds) ==> !NullAsync(ds[k])
    ensures AcquiredCount(ds) == ProposedCount(ds)
  {
    if ds != [] {
      var h, last := ds[..|ds| - 1], ds[|ds| - 1];
      assert forall k :: 0 <= k < |h| ==> h[k] == ds[k];
      SameCount(h);
      UsingIff([], last.resource, last.isAsync);
      if AcquiredCount(h) == |h| { assert !NullAsync(last); }
    }
  }

  /** A whole block ends as the proposal says if no declaration that is reached has a null
      `Symbol.asyncDispose` to pass over, and exactly if, moreover, no acquired entry is borrowed and rejects. */
  lemma BlockIff(behaviour: nat -> Behaviour, ds: seq<Declaration>, body: Option<Thrown>)
    requires forall k :: 0 <= k < |ds| && k <= AcquiredCount(ds) ==>
               !(ds[k].isAsync && ds[k].resource.Object? && ds[k].resource.asyncDispose == Null
                 && ds[k].resource.dispose.Function?)
    ensures var n := AcquiredCount(ds);
      var stack := StackOf(ds[..n]);
      var thrown := if n < |ds| then Some(Plain(TYPE_ERROR)) else if body.Some? then Some(Plain(body.value)) else None;
      Dispose(behaviour, stack, thrown) == ProposedBlock(behaviour, ds, body)
      <==> forall i :: 0 <= i < |stack| ==> !Differs(behaviour, stack[i])
  {
    var n := AcquiredCount(ds);
    SameCount(ds);
    SameStack(ds[..n]);
    OutcomeIff(behaviour, StackOf(ds[..n]), BlockThrows(n < |ds|, body));
  }
}
