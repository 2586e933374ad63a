/** Decorator application by src/runtime.js: the slot array of a class, `__decorateElement` and
    `__runInitializers`, with arbitrary decorators. */
module Decorators {
  import opened Wrappers

  /** Errors of the helpers, and errors thrown by decorators and initialisers. */
  datatype Error = TypeError | Thrown(id: nat)

  datatype Fn = Fn(id: nat)

  datatype Kind = Class | Method | Getter | Setter | Accessor | Field

  predicate OwnsSlots(kind: Kind) {
    kind.Accessor? || kind.Field?
  }

  /** A property descriptor. The function of a private method or of the class itself is held in one too. */
  datatype Desc = Desc(value: Option<Fn>, getter: Option<Fn>, setter: Option<Fn>)

  const BLANK := Desc(None, None, None)

  /** What a decorator is called with. */
  datatype Subject = Undefined | Function(f: Fn) | Pair(getter: Option<Fn>, setter: Option<Fn>)

  /** What a decorator returns. `Other` is neither undefined, nor a function, nor an object. */
  datatype Returned = Void | Callable(f: Fn) | Object(getter: Part, setter: Part, init: Part) | Other
  datatype Part = Absent | Good(f: Fn) | Bad

  /** What a decorator does: calls of `addInitializer` on contexts, its own or others it got hold of, whose
      errors it may catch, and then the end. */
  datatype Add = Add(context: nat, fn: Option<Fn>, caught: bool)
  datatype Ending = Returns(it: Returned) | Throws(error: Error)
  datatype Script = Script(adds: seq<Add>, ending: Ending)

  /** A decorator decides what to do from its subject and its context. */
  datatype Decorator = Decorator(run: (Subject, nat) -> Script)

  datatype Holder = Prototype | Constructor | Brand
  datatype Key = Key(holder: Holder, name: string)

  /** `extra` is the private function, the accessor's storage functions, or the class. */
  datatype Element = Element(kind: Kind, isStatic: bool, isPrivate: bool, name: string, decorators: seq<Decorator>,
                             extra: Desc)

  // ---------------------------------------------------------------- one decorator

  function FnSubject(f: Option<Fn>): Subject {
    match f case None => Undefined case Some(g) => Function(g)
  }

  function Current(kind: Kind, d: Desc): Subject {
    match kind
    case Class => FnSubject(d.value)
    case Method => FnSubject(d.value)
    case Getter => FnSubject(d.getter)
    case Setter => FnSubject(d.setter)
    case Accessor => Pair(d.getter, d.setter)
    case Field => Undefined
  }

  predicate GoodParts(it: Returned) {
    it.Object? && !it.getter.Bad? && !it.setter.Bad? && !it.init.Bad?
  }

  /** A result the kind of element allows. */
  predicate Allowed(kind: Kind, it: Returned) {
    it.Void? || (if kind.Accessor? then GoodParts(it) else it.Callable?)
  }

  function Replaced(f: Option<Fn>, part: Part): Option<Fn> {
    if part.Good? then Some(part.f) else f
  }

  /** The element as a result replaces it. */
  function Wrap(kind: Kind, d: Desc, it: Returned): Desc {
    match it
    case Callable(f) =>
      (match kind
       case Getter => d.(getter := Some(f))
       case Setter => d.(setter := Some(f))
       case Field => d
       case _ => d.(value := Some(f)))
    case Object(getter, setter, _) => d.(getter := Replaced(d.getter, getter), setter := Replaced(d.setter, setter))
    case _ => d
  }

  /** The initialiser that a result asks for. */
  function InitOf(kind: Kind, it: Returned): seq<Fn> {
    if kind.Field? && it.Callable? then [it.f]
    else if kind.Accessor? && it.Object? && it.init.Good? then [it.init.f]
    else []
  }

  /** The initialisers added through context `own`, when no other context is open, and whether an error
      escapes. */
  function Adds(adds: seq<Add>, own: nat): (seq<Fn>, bool) {
    if |adds| == 0 then ([], false)
    else if adds[0].context == own && adds[0].fn.Some? then
      var (fns, failed) := Adds(adds[1..], own);
      ([adds[0].fn.value] + fns, failed)
    else if adds[0].caught then Adds(adds[1..], own)
    else ([], true)
  }

  function Failed(kind: Kind, script: Script, own: nat): Option<Error> {
    if Adds(script.adds, own).1 then Some(TypeError)
    else match script.ending
      case Throws(e) => Some(e)
      case Returns(it) => if Allowed(kind, it) then None else Some(TypeError)
  }

  // ---------------------------------------------------------------- all decorators of an element

  /** The error that stops the decorators, the last listed being called first. */
  function Failure(kind: Kind, ds: seq<Decorator>, base: nat, d: Desc): Option<Error> {
    if |ds| == 0 then None
    else
      var inner := Failure(kind, ds[1..], base, d);
      if inner.Some? then inner else Failed(kind, FirstScript(kind, ds, base, d), base + |ds| - 1)
  }

  /** What the first listed decorator does: it is called with what the others made of the element. */
  function FirstScript(kind: Kind, ds: seq<Decorator>, base: nat, d: Desc): Script
    requires |ds| > 0
    decreases |ds|, 0
  {
    ds[0].run(Current(kind, Composed(kind, ds[1..], base, d)), base + |ds| - 1)
  }

  /** The first listed decorator is outermost. */
  function Composed(kind: Kind, ds: seq<Decorator>, base: nat, d: Desc): Desc
    decreases |ds|, 1
  {
    if |ds| == 0 then d
    else
      var script := FirstScript(kind, ds, base, d);
      var inner := Composed(kind, ds[1..], base, d);
      if script.ending.Returns? then Wrap(kind, inner, script.ending.it) else inner
  }

  /** The initialisers that the decorators ask for, in the order in which the decorators are listed. */
  function Initialisers(kind: Kind, ds: seq<Decorator>, base: nat, d: Desc): seq<Fn> {
    if |ds| == 0 then []
    else
      var script := FirstScript(kind, ds, base, d);
      (if script.ending.Returns? then InitOf(kind, script.ending.it) else []) + Initialisers(kind, ds[1..], base, d)
  }

  /** The extra initialisers, in the order in which they were added. */
  function Extras(kind: Kind, ds: seq<Decorator>, base: nat, d: Desc): seq<Fn> {
    if |ds| == 0 then []
    else Extras(kind, ds[1..], base, d) + Adds(FirstScript(kind, ds, base, d).adds, base + |ds| - 1).0
  }

  /** An error of some decorators is the error of the whole list: no earlier listed one is called. */
  lemma {:induction false} FailureStays(kind: Kind, ds: seq<Decorator>, base: nat, d: Desc, i: nat)
    requires i <= |ds| && Failure(kind, ds[i..], base, d).Some?
    ensures Failure(kind, ds, base, d) == Failure(kind, ds[i..], base, d)
  {
    if i > 0 {
      assert ds[i - 1..][1..] == ds[i..];
      FailureStays(kind, ds, base, d, i - 1);
    } else {
      assert ds[0..] == ds;
    }
  }

  // ---------------------------------------------------------------- the slot array

  /** A context pushes to the extra initialisers in a slot until its decorator is done. */
  datatype Context = Context(slot: nat, done: bool)

  ghost predicate SlotsOk(length: nat, slots: map<nat, seq<Fn>>, contexts: seq<Context>) {
    && length >= 4 && length % 2 == 0
    && (forall s :: s in slots ==> s < length && s != 3)
    && (forall s :: 4 <= s < length ==> s in slots)
    && (forall c :: 0 <= c < |contexts| ==> contexts[c].slot in slots)
  }

  ghost predicate AllDone(contexts: seq<Context>, n: nat) {
    n <= |contexts| && forall c :: 0 <= c < n ==> contexts[c].done
  }

  class Decoration {
    var length: nat
    var slots: map<nat, seq<Fn>>
    var contexts: seq<Context>
    var members: map<Key, Desc>

    ghost predicate Valid()
      reads this
    {
      SlotsOk(length, slots, contexts)
    }

    /** `__decoratorStart`: three empty slots and the metadata. */
    constructor (members: map<Key, Desc>)
      ensures Valid() && length == 4 && slots == map[] && contexts == [] && this.members == members
    {
      length, slots, contexts, this.members := 4, map[], [], members;
    }

    method AddInitializer(c: nat, fn: Option<Fn>) returns (r: Option<Error>)
      requires Valid()
      modifies this`slots
      ensures Valid()
      ensures r == if c < |contexts| && !contexts[c].done && fn.Some? then None else Some(TypeError)
      ensures r.None? ==> slots == old(slots)[contexts[c].slot := old(slots)[contexts[c].slot] + [fn.value]]
      ensures r.Some? ==> slots == old(slots)
    {
      if c >= |contexts| || contexts[c].done || fn.None? { return Some(TypeError); }
      var s := contexts[c].slot;
      slots := slots[s := slots[s] + [fn.value]];
      return None;
    }

    /** The calls a decorator makes, while only its own context is open. */
    method RunAdds(adds: seq<Add>, own: nat) returns (failed: bool)
      requires Valid() && |contexts| == own + 1 && AllDone(contexts, own) && !contexts[own].done
      modifies this`slots
      ensures Valid()
      ensures failed == Adds(adds, own).1
      ensures var j := contexts[own].slot; slots == old(slots)[j := old(slots)[j] + Adds(adds, own).0]
    {
      var j := contexts[own].slot;
      failed := false;
      ghost var added: seq<Fn> := [];
      assert slots[j] + added == slots[j] && adds[0..] == adds && added + Adds(adds, own).0 == Adds(adds, own).0;
      for k := 0 to |adds|
        invariant Valid() && !failed && AddsDone(adds, own, k, added)
        invariant slots == old(slots)[j := old(slots)[j] + added]
      {
        ghost var before := slots;
        var a := adds[k];
        var error := AddInitializer(a.context, a.fn);
        AddsStep(adds, own, k, added);
        if error.Some? && !a.caught {
          failed := true;
          return;
        }
        if error.None? {
          assert old(slots)[j] + (added + [a.fn.value]) == before[j] + [a.fn.value];
          added := added + [a.fn.value];
        }
      }
      assert added + [] == added;
    }

    /** A call of a decorator with a context of its own. */
    method CallDecorator(decorator: Decorator, subject: Subject, j: nat) returns (r: Result<Returned, Error>)
      requires Valid() && AllDone(contexts, |contexts|) && j in slots
      modifies this`slots, this`contexts
      ensures Valid() && contexts == old(contexts) + [Context(j, r.Ok?)]
      ensures var own, script := |old(contexts)|, decorator.run(subject, |old(contexts)|);
        && r == (if Adds(script.adds, own).1 then Err(TypeError)
                 else if script.ending.Throws? then Err(script.ending.error) else Ok(script.ending.it))
        && slots == old(slots)[j := old(slots)[j] + Adds(script.adds, own).0]
    {
      var own := |contexts|;
      contexts := contexts + [Context(j, false)];
      var script := decorator.run(subject, own);
      var failed := RunAdds(script.adds, own);
      if failed { return Err(TypeError); }
      if script.ending.Throws? { return Err(script.ending.error); }
      contexts := contexts[own := Context(j, true)];
      return Ok(script.ending.it);
    }

    /** What is done with a decorator's result. */
    method Accept(kind: Kind, d: Desc, it: Returned, j: nat) returns (r: Result<Desc, Error>)
      requires Valid() && (OwnsSlots(kind) ==> j >= 5 && j - 1 in slots)
      modifies this`slots
      ensures Valid()
      ensures r == if Allowed(kind, it) then Ok(Wrap(kind, d, it)) else Err(TypeError)
      ensures slots == if OwnsSlots(kind) && r.Ok? then old(slots)[j - 1 := InitOf(kind, it) + old(slots)[j - 1]]
                       else old(slots)
    {
      if !kind.Accessor? || it.Void? {
        if it.Void? {
          if OwnsSlots(kind) { assert InitOf(kind, it) + slots[j - 1] == slots[j - 1]; }
          return Ok(d);
        }
        if !it.Callable? { return Err(TypeError); }
        if kind.Field? {
          slots := slots[j - 1 := [it.f] + slots[j - 1]];
          return Ok(d);
        }
        if kind.Getter? { return Ok(d.(getter := Some(it.f))); }
        if kind.Setter? { return Ok(d.(setter := Some(it.f))); }
        return Ok(d.(value := Some(it.f)));
      }
      if !it.Object? { return Err(TypeError); }
      var desc := d;
      if it.getter.Bad? { return Err(TypeError); }
      if it.getter.Good? { desc := desc.(getter := Some(it.getter.f)); }
      if it.setter.Bad? { return Err(TypeError); }
      if it.setter.Good? { desc := desc.(setter := Some(it.setter.f)); }
      if it.init.Bad? { return Err(TypeError); }
      if it.init.Good? {
        slots := slots[j - 1 := [it.init.f] + slots[j - 1]];
      } else {
        assert InitOf(kind, it) + slots[j - 1] == slots[j - 1];
      }
      return Ok(desc);
    }

    /** A decorator called and its result taken over. */
    method ApplyOne(kind: Kind, decorator: Decorator, d: Desc, j: nat) returns (r: Result<Desc, Error>)
      requires Valid() && AllDone(contexts, |contexts|) && j in slots
      requires OwnsSlots(kind) ==> j >= 5 && j - 1 in slots
      modifies this`slots, this`contexts
      ensures Valid() && SameElsewhere(old(slots), slots, kind, j)
      ensures |contexts| == |old(contexts)| + 1
      ensures var own, script := |old(contexts)|, decorator.run(Current(kind, d), |old(contexts)|);
        var failure := Failed(kind, script, own);
        && r == (if failure.Some? then Err(failure.value) else Ok(Wrap(kind, d, script.ending.it)))
        && (r.Ok? ==> AllDone(contexts, |contexts|))
        && (r.Ok? ==> slots == Stepped(old(slots), kind, j, InitOf(kind, script.ending.it), Adds(script.adds, own).0))
    {
      var called := CallDecorator(decorator, Current(kind, d), j);
      if called.Err? { return Err(called.error); }
      r := Accept(kind, d, called.value, j);
    }

    /** One round of the loop: `decorator` is the first of `ds`, the others having been called. */
    method ApplyNext(kind: Kind, decorator: Decorator, d: Desc, j: nat, ghost before: map<nat, seq<Fn>>,
                     ghost ds: seq<Decorator>, ghost base: nat, ghost d0: Desc)
      returns (r: Result<Desc, Error>)
      requires Valid() && AllDone(contexts, |contexts|)
      requires |ds| > 0 && decorator == ds[0] && |contexts| == base + |ds| - 1
      requires j in before && (OwnsSlots(kind) ==> j >= 5 && j - 1 in before)
      requires Progress(before, slots, kind, j, ds[1..], base, d0, d)
      modifies this`slots, this`contexts
      ensures Valid() && SameElsewhere(before, slots, kind, j)
      ensures r.Ok? ==> Progress(before, slots, kind, j, ds, base, d0, r.value)
      ensures r.Ok? ==> |contexts| == base + |ds| && AllDone(contexts, |contexts|)
      ensures r.Err? ==> Failure(kind, ds, base, d0) == Some(r.error)
    {
      FirstStep(before, slots, kind, j, ds, base, d0, d);
      r := ApplyOne(kind, decorator, d, j);
    }

    /** The decorators of an element, from the last listed to the first. */
    method ApplyAll(kind: Kind, ds: seq<Decorator>, d0: Desc, j: nat) returns (r: Result<Desc, Error>)
      requires Valid() && AllDone(contexts, |contexts|) && j in slots
      requires OwnsSlots(kind) ==> j >= 5 && j - 1 in slots && slots[j - 1] == []
      modifies this`slots, this`contexts
      ensures Valid() && SameElsewhere(old(slots), slots, kind, j)
      ensures r == Outcome(kind, ds, |old(contexts)|, d0)
      ensures r.Ok? ==> |contexts| == |old(contexts)| + |ds| && AllDone(contexts, |contexts|)
      ensures r.Ok? ==> slots == AllSlots(old(slots), kind, j, ds, |old(contexts)|, d0)
    {
      ghost var base := |contexts|;
      var d := d0;
      var i := |ds|;
      NothingAfter(slots, kind, j);
      while i > 0
        invariant 0 <= i <= |ds| && Valid()
        invariant |contexts| == base + |ds| - i && AllDone(contexts, |contexts|)
        invariant Progress(old(slots), slots, kind, j, ds[i..], base, d0, d)
      {
        i := i - 1;
        assert ds[i..][1..] == ds[i + 1..] && ds[i..][0] == ds[i];
        var applied := ApplyNext(kind, ds[i], d, j, old(slots), ds[i..], base, d0);
        if applied.Err? {
          FailureStays(kind, ds, base, d0, i);
          return applied;
        }
        d := applied.value;
      }
      assert ds[0..] == ds;
      return Ok(d);
    }

    /** The element's slots come into being. */
    method OpenSlots(e: Element) returns (j: nat)
      requires Valid()
      modifies this`slots, this`length
      ensures Valid() && length == old(length) + if OwnsSlots(e.kind) then 2 else 0
      ensures j == SlotOf(e, old(length)) && slots == Opened(old(slots), e, old(length))
    {
      j := SlotOf(e, length);
      if OwnsSlots(e.kind) {
        slots := slots[j - 1 := []][j := []];
        length := length + 2;
      } else if j !in slots {
        slots := slots[j := []];
      }
    }

    /** `__decorateElement`. */
    method DecorateElement(e: Element) returns (r: Result<Desc, Error>)
      requires Valid() && AllDone(contexts, |contexts|)
      modifies this
      ensures Valid() && length == old(length) + if OwnsSlots(e.kind) then 2 else 0
      ensures r == ElementOutcome(e, old(members), |old(contexts)|)
      ensures forall s :: s in old(slots) && s != SlotOf(e, old(length)) ==> s in slots && slots[s] == old(slots)[s]
      ensures r.Ok? ==> |contexts| == |old(contexts)| + |e.decorators| && AllDone(contexts, |contexts|)
      ensures r.Ok? ==> slots == ElementSlots(old(slots), e, old(length), old(members), |old(contexts)|)
      ensures members == if r.Ok? then MembersWith(e, old(members), |old(contexts)|) else old(members)
    {
      var j := OpenSlots(e);
      var desc := DescOf(e, members);
      OpenedThenFilled(old(slots), e, old(length), members, |contexts|);
      if desc.None? { return if |e.decorators| > 0 then Err(TypeError) else Ok(BLANK); }
      r := ApplyAll(e.kind, e.decorators, desc.value, j);
      if r.Ok? && Published(e) { members := members[KeyOf(e) := r.value]; }
    }

    /** `__runInitializers`; `call` says what each function returns or throws. */
    method RunInitializers<V>(flags: nat, value0: V, call: (Fn, Option<V>) -> Result<V, Error>)
      returns (r: Result<V, Error>, called: seq<Fn>)
      ensures r == if flags / 2 !in slots then Ok(value0)
                   else if flags % 2 == 1 then Effects(slots[flags / 2], value0, call)
                   else Piped(slots[flags / 2], value0, call)
      ensures flags / 2 in slots ==> called <= slots[flags / 2] && (r.Ok? ==> called == slots[flags / 2])
    {
      var value := value0;
      called := [];
      if flags / 2 !in slots { return Ok(value), called; }
      var fns := slots[flags / 2];
      assert fns[0..] == fns;
      for i := 0 to |fns|
        invariant called == fns[..i]
        invariant flags % 2 == 1 ==> value == value0 && Effects(fns, value0, call) == Effects(fns[i..], value, call)
        invariant flags % 2 == 0 ==> Piped(fns, value0, call) == Piped(fns[i..], value, call)
      {
        assert fns[i..][1..] == fns[i + 1..];
        called := called + [fns[i]];
        var result := call(fns[i], if flags % 2 == 1 then None else Some(value));
        if result.Err? { return result, called; }
        if flags % 2 == 0 { value := result.value; }
      }
      return Ok(value), called;
    }
  }

  // ---------------------------------------------------------------- running initialisers

  /** Each function gets what the one before returned. */
  function Piped<V>(fns: seq<Fn>, v: V, call: (Fn, Option<V>) -> Result<V, Error>): Result<V, Error> {
    if |fns| == 0 then Ok(v)
    else match call(fns[0], Some(v))
      case Err(e) => Err(e)
      case Ok(w) => Piped(fns[1..], w, call)
  }

  function Effects<V>(fns: seq<Fn>, v: V, call: (Fn, Option<V>) -> Result<V, Error>): Result<V, Error> {
    if |fns| == 0 then Ok(v)
    else match call(fns[0], None)
      case Err(e) => Err(e)
      case Ok(_) => Effects(fns[1..], v, call)
  }

  /** The last function gets what the ones before it made of the value, unless one of them threw. */
  lemma {:induction false} PipedNext<V>(fns: seq<Fn>, f: Fn, v: V, call: (Fn, Option<V>) -> Result<V, Error>)
    ensures Piped([], v, call) == Ok(v)
    ensures var before := Piped(fns, v, call);
            Piped(fns + [f], v, call) == if before.Ok? then call(f, Some(before.value)) else before
  {
    var more := fns + [f];
    if |fns| > 0 {
      assert more[1..] == fns[1..] + [f];
      var w := call(fns[0], Some(v));
      if w.Ok? { PipedNext(fns[1..], f, w.value, call); }
    }
  }

  /** Extra initialisers are called without a value: the first that throws decides, else the value stays. */
  lemma {:induction false} EffectsFirst<V>(fns: seq<Fn>, v: V, call: (Fn, Option<V>) -> Result<V, Error>, k: nat)
    requires k <= |fns| && forall i :: 0 <= i < k ==> call(fns[i], None).Ok?
    requires k < |fns| ==> call(fns[k], None).Err?
    ensures Effects(fns, v, call) == if k < |fns| then call(fns[k], None) else Ok(v)
  {
    if k > 0 { EffectsFirst(fns[1..], v, call, k - 1); }
  }

  /** A field's value: the first listed decorator changes it first. */
  function FieldValue<V>(kind: Kind, ds: seq<Decorator>, base: nat, d: Desc, v: V,
                         call: (Fn, Option<V>) -> Result<V, Error>): Result<V, Error> {
    if |ds| == 0 then Ok(v)
    else
      var script := FirstScript(kind, ds, base, d);
      var init := if script.ending.Returns? then InitOf(kind, script.ending.it) else [];
      match if |init| == 0 then Ok(v) else call(init[0], Some(v))
      case Err(e) => Err(e)
      case Ok(w) => FieldValue(kind, ds[1..], base, d, w, call)
  }

  lemma {:induction false} InitialisersInOrder<V>(kind: Kind, ds: seq<Decorator>, base: nat, d: Desc, v: V,
                                                  call: (Fn, Option<V>) -> Result<V, Error>)
    ensures Piped(Initialisers(kind, ds, base, d), v, call) == FieldValue(kind, ds, base, d, v, call)
  {
    if |ds| > 0 {
      var script := FirstScript(kind, ds, base, d);
      var init := if script.ending.Returns? then InitOf(kind, script.ending.it) else [];
      var rest := Initialisers(kind, ds[1..], base, d);
      if |init| == 0 {
        assert init + rest == rest;
        InitialisersInOrder(kind, ds[1..], base, d, v, call);
      } else {
        assert init == [init[0]];
        assert (init + rest)[1..] == rest;
        var w := call(init[0], Some(v));
        if w.Ok? { InitialisersInOrder(kind, ds[1..], base, d, w.value, call); }
      }
    }
  }

  // ---------------------------------------------------------------- one element

  function KeyOf(e: Element): Key {
    Key(if e.isPrivate then Brand else if e.isStatic then Constructor else Prototype, e.name)
  }

  /** The slot for extra initialisers; an owner's initialisers go before it. */
  function SlotOf(e: Element, length: nat): nat {
    if OwnsSlots(e.kind) then length + 1 else if e.kind.Class? then 0 else if e.isStatic then 1 else 2
  }

  /** The element before its decorators, if there is one. */
  function DescOf(e: Element, members: map<Key, Desc>): Option<Desc> {
    if e.kind.Field? then Some(BLANK)
    else if e.kind.Class? || e.kind.Accessor? || e.isPrivate then Some(e.extra)
    else if KeyOf(e) in members then Some(members[KeyOf(e)]) else None
  }

  /** Whether the result is defined as a property. */
  predicate Published(e: Element) {
    e.kind.Accessor? || (!e.isPrivate && !e.kind.Class? && !e.kind.Field?)
  }

  ghost function ElementOutcome(e: Element, members: map<Key, Desc>, base: nat): Result<Desc, Error> {
    match DescOf(e, members)
    case None => if |e.decorators| == 0 then Ok(BLANK) else Err(TypeError)
    case Some(d) => Outcome(e.kind, e.decorators, base, d)
  }

  ghost function MembersWith(e: Element, members: map<Key, Desc>, base: nat): map<Key, Desc> {
    var d := DescOf(e, members);
    if d.Some? && Published(e) then members[KeyOf(e) := Composed(e.kind, e.decorators, base, d.value)] else members
  }

  ghost function InitialisersOf(e: Element, members: map<Key, Desc>, base: nat): seq<Fn> {
    var d := DescOf(e, members);
    if d.Some? then Initialisers(e.kind, e.decorators, base, d.value) else []
  }

  ghost function ExtrasOf(e: Element, members: map<Key, Desc>, base: nat): seq<Fn> {
    var d := DescOf(e, members);
    if d.Some? then Extras(e.kind, e.decorators, base, d.value) else []
  }

  ghost function Opened(slots: map<nat, seq<Fn>>, e: Element, length: nat): (empty: map<nat, seq<Fn>>)
    ensures SlotOf(e, length) in empty
  {
    var j := SlotOf(e, length);
    if OwnsSlots(e.kind) then slots[j - 1 := []][j := []] else if j in slots then slots else slots[j := []]
  }

  lemma OpenedThenFilled(slots: map<nat, seq<Fn>>, e: Element, length: nat, members: map<Key, Desc>, base: nat)
    requires length >= 4
    ensures var j, empty := SlotOf(e, length), Opened(slots, e, length);
      var after := SlotsAfter(empty, e.kind, j, InitialisersOf(e, members, base), ExtrasOf(e, members, base));
      && after == ElementSlots(slots, e, length, members, base)
      && (DescOf(e, members).None? ==> after == empty)
  {
    var j, empty, extras := SlotOf(e, length), Opened(slots, e, length), ExtrasOf(e, members, base);
    assert empty[j] + [] == empty[j];
    assert [] + extras == extras;
  }

  /** The slots once an element is decorated. */
  ghost function ElementSlots(slots: map<nat, seq<Fn>>, e: Element, length: nat, members: map<Key, Desc>,
                              base: nat): map<nat, seq<Fn>> {
    var j, inits, extras := SlotOf(e, length), InitialisersOf(e, members, base), ExtrasOf(e, members, base);
    if OwnsSlots(e.kind) then slots[j - 1 := inits][j := extras]
    else slots[j := (if j in slots then slots[j] else []) + extras]
  }

  ghost predicate SameElsewhere(before: map<nat, seq<Fn>>, after: map<nat, seq<Fn>>, kind: Kind, j: nat) {
    && after.Keys == before.Keys
    && forall s :: s in before && s != j && !(OwnsSlots(kind) && s == j - 1) ==> after[s] == before[s]
  }

  /** The slots after one more decorator. */
  ghost function Stepped(slots: map<nat, seq<Fn>>, kind: Kind, j: nat, init: seq<Fn>, more: seq<Fn>): map<nat, seq<Fn>>
    requires j in slots && (OwnsSlots(kind) ==> j >= 5 && j - 1 in slots)
  {
    var pushed := slots[j := slots[j] + more];
    if OwnsSlots(kind) then pushed[j - 1 := init + pushed[j - 1]] else pushed
  }

  ghost function Outcome(kind: Kind, ds: seq<Decorator>, base: nat, d: Desc): Result<Desc, Error> {
    var failure := Failure(kind, ds, base, d);
    if failure.Some? then Err(failure.value) else Ok(Composed(kind, ds, base, d))
  }

  ghost function AllSlots(slots: map<nat, seq<Fn>>, kind: Kind, j: nat, ds: seq<Decorator>, base: nat,
                          d: Desc): map<nat, seq<Fn>>
    requires j in slots && (OwnsSlots(kind) ==> j >= 5)
  {
    SlotsAfter(slots, kind, j, Initialisers(kind, ds, base, d), Extras(kind, ds, base, d))
  }

  /** The decorators `ds` have been called, without an error. */
  ghost predicate Progress(before: map<nat, seq<Fn>>, slots: map<nat, seq<Fn>>, kind: Kind, j: nat,
                           ds: seq<Decorator>, base: nat, d0: Desc, d: Desc)
    requires j in before && (OwnsSlots(kind) ==> j >= 5 && j - 1 in before)
  {
    && Outcome(kind, ds, base, d0) == Ok(d) && slots == AllSlots(before, kind, j, ds, base, d0)
    && j in slots && (OwnsSlots(kind) ==> j - 1 in slots) && SameElsewhere(before, slots, kind, j)
  }

  /** The first listed decorator is the last step. */
  lemma FirstStep(before: map<nat, seq<Fn>>, slots: map<nat, seq<Fn>>, kind: Kind, j: nat, ds: seq<Decorator>,
                  base: nat, d0: Desc, d: Desc)
    requires |ds| > 0 && j in before && (OwnsSlots(kind) ==> j >= 5 && j - 1 in before)
    requires Progress(before, slots, kind, j, ds[1..], base, d0, d)
    ensures var own := base + |ds| - 1;
      var script := ds[0].run(Current(kind, d), own);
      && Failure(kind, ds, base, d0) == Failed(kind, script, own)
      && (Failed(kind, script, own).None? ==>
            Progress(before, Stepped(slots, kind, j, InitOf(kind, script.ending.it), Adds(script.adds, own).0),
              kind, j, ds, base, d0, Wrap(kind, d, script.ending.it)))
  {
    var script := FirstScript(kind, ds, base, d0);
    if script.ending.Returns? {
      OneMore(before, kind, j, InitOf(kind, script.ending.it), Initialisers(kind, ds[1..], base, d0),
        Extras(kind, ds[1..], base, d0), Adds(script.adds, base + |ds| - 1).0);
    }
  }

  /** The slots once an element's initialisers and extra initialisers are in. */
  ghost function SlotsAfter(slots: map<nat, seq<Fn>>, kind: Kind, j: nat, inits: seq<Fn>,
                            extras: seq<Fn>): map<nat, seq<Fn>>
    requires j in slots && (OwnsSlots(kind) ==> j >= 5)
  {
    var pushed := slots[j := slots[j] + extras];
    if OwnsSlots(kind) then pushed[j - 1 := inits] else pushed
  }

  lemma NothingAfter(slots: map<nat, seq<Fn>>, kind: Kind, j: nat)
    requires j in slots && (OwnsSlots(kind) ==> j >= 5 && j - 1 in slots && slots[j - 1] == [])
    ensures SlotsAfter(slots, kind, j, [], []) == slots
  {
    assert slots[j] + [] == slots[j];
  }

  lemma OneMore(slots: map<nat, seq<Fn>>, kind: Kind, j: nat, init: seq<Fn>, inits: seq<Fn>, extras: seq<Fn>,
                more: seq<Fn>)
    requires j in slots && (OwnsSlots(kind) ==> j >= 5)
    ensures SlotsAfter(slots, kind, j, init + inits, extras + more)
         == Stepped(SlotsAfter(slots, kind, j, inits, extras), kind, j, init, more)
  {
    assert slots[j] + (extras + more) == slots[j] + extras + more;
  }

  /** The first `k` calls raised no error and added `done`. */
  ghost predicate AddsDone(adds: seq<Add>, own: nat, k: nat, done: seq<Fn>) {
    k <= |adds| && Adds(adds, own) == (done + Adds(adds[k..], own).0, Adds(adds[k..], own).1)
  }

  lemma AddsStep(adds: seq<Add>, own: nat, k: nat, done: seq<Fn>)
    requires k < |adds| && AddsDone(adds, own, k, done)
    ensures adds[k].context == own && adds[k].fn.Some? ==> AddsDone(adds, own, k + 1, done + [adds[k].fn.value])
    ensures !(adds[k].context == own && adds[k].fn.Some?) && adds[k].caught ==> AddsDone(adds, own, k + 1, done)
    ensures !(adds[k].context == own && adds[k].fn.Some?) && !adds[k].caught ==> Adds(adds, own) == (done, true)
  {
    assert adds[k..][1..] == adds[k + 1..];
    var rest := Adds(adds[k + 1..], own).0;
    if adds[k].fn.Some? { assert done + ([adds[k].fn.value] + rest) == done + [adds[k].fn.value] + rest; }
    assert done + [] == done;
  }

  // ---------------------------------------------------------------- what decorators get and give

  /** Where an element stands after some of its decorators: what the next one is called with, and the
      initialisers so far. */
  datatype Round = Round(subject: Subject, inits: seq<Fn>, extras: seq<Fn>)

  /** Accessors may be replaced by an object of functions, everything else by a function. */
  ghost predicate GoodResult(kind: Kind, it: Returned) {
    match it
    case Void => true
    case Callable(_) => kind != Accessor
    case Object(getter, setter, init) => kind == Accessor && getter != Bad && setter != Bad && init != Bad
    case Other => false
  }

  ghost predicate CallFails(kind: Kind, script: Script, own: nat, error: Error) {
    if Adds(script.adds, own).1 then error == TypeError
    else match script.ending
      case Throws(thrown) => error == thrown
      case Returns(it) => !GoodResult(kind, it) && error == TypeError
  }

  /** A decorator returned `it`: the next one is called with that, or with the same again if it is undefined. What
      a field's decorator returns is an initialiser, and so is the `init` of an accessor's; they come first. */
  ghost predicate Follows(kind: Kind, a: Round, it: Returned, more: seq<Fn>, b: Round) {
    && b.extras == a.extras + more
    && match it
       case Void => b.subject == a.subject && b.inits == a.inits
       case Callable(f) =>
         if kind == Field then b.subject == a.subject && b.inits == [f] + a.inits
         else b.subject == Function(f) && b.inits == a.inits
       case Object(getter, setter, init) =>
         && a.subject.Pair?
         && b.subject == Pair(if getter.Good? then Some(getter.f) else a.subject.getter,
                              if setter.Good? then Some(setter.f) else a.subject.setter)
         && b.inits == if init.Good? then [init.f] + a.inits else a.inits
       case Other => false
  }

  /** Call number `k` is that of the k-th decorator from the end of the list. */
  ghost predicate RoundAt(kind: Kind, ds: seq<Decorator>, base: nat, rounds: seq<Round>, k: nat)
    requires k < |ds| && k + 1 < |rounds|
  {
    var script := ds[|ds| - 1 - k].run(rounds[k].subject, base + k);
    && !Adds(script.adds, base + k).1 && script.ending.Returns? && GoodResult(kind, script.ending.it)
    && Follows(kind, rounds[k], script.ending.it, Adds(script.adds, base + k).0, rounds[k + 1])
  }

  /** The rounds of an element, all of them or up to the call that fails. */
  ghost predicate Rounds(kind: Kind, ds: seq<Decorator>, base: nat, first: Subject, rounds: seq<Round>,
                         error: Option<Error>)
  {
    && 1 <= |rounds| <= |ds| + 1 && rounds[0] == Round(first, [], [])
    && (forall k: nat :: k + 1 < |rounds| ==> RoundAt(kind, ds, base, rounds, k))
    && (error.None? <==> |rounds| == |ds| + 1)
    && (error.Some? ==>
          var k := |rounds| - 1;
          CallFails(kind, ds[|ds| - 1 - k].run(rounds[k].subject, base + k), base + k, error.value))
  }

  /** The element `d` with its function, or pair of functions, replaced by `subject`. */
  ghost predicate Becomes(kind: Kind, d: Desc, subject: Subject, r: Desc) {
    match kind
    case Class => r == d.(value := r.value) && Holding(r.value, subject)
    case Method => r == d.(value := r.value) && Holding(r.value, subject)
    case Getter => r == d.(getter := r.getter) && Holding(r.getter, subject)
    case Setter => r == d.(setter := r.setter) && Holding(r.setter, subject)
    case Accessor => r.value == d.value && subject == Pair(r.getter, r.setter)
    case Field => r == d && subject == Undefined
  }

  ghost predicate Holding(f: Option<Fn>, subject: Subject) {
    if f.Some? then subject == Function(f.value) else subject == Undefined
  }

  lemma WrapFollows(kind: Kind, d: Desc, it: Returned, a: Round, more: seq<Fn>)
    requires GoodResult(kind, it) && a.subject == Current(kind, d)
    ensures Follows(kind, a, it, more, Round(Current(kind, Wrap(kind, d, it)), InitOf(kind, it) + a.inits,
                                             a.extras + more))
  {
    assert [] + a.inits == a.inits;
  }

  ghost predicate LastRound(kind: Kind, ds: seq<Decorator>, base: nat, d: Desc, last: Round) {
    last == Round(Current(kind, Composed(kind, ds, base, d)), Initialisers(kind, ds, base, d),
                  Extras(kind, ds, base, d))
  }

  lemma {:induction false} RoundsOf(kind: Kind, ds: seq<Decorator>, base: nat, d: Desc) returns (rounds: seq<Round>)
    ensures Rounds(kind, ds, base, Current(kind, d), rounds, Failure(kind, ds, base, d))
    ensures Failure(kind, ds, base, d).None? ==> LastRound(kind, ds, base, d, rounds[|ds|])
  {
    if |ds| == 0 {
      rounds := [Round(Current(kind, d), [], [])];
    } else {
      rounds := RoundsOf(kind, ds[1..], base, d);
      RoundsShifted(kind, ds, base, rounds);
      if Failure(kind, ds, base, d).None? {
        var next := NextRound(kind, ds, base, d, rounds);
        rounds := rounds + [next];
      }
    }
  }

  lemma RoundsShifted(kind: Kind, ds: seq<Decorator>, base: nat, rounds: seq<Round>)
    requires |ds| > 0 && 1 <= |rounds| <= |ds|
    requires forall k: nat :: k + 1 < |rounds| ==> RoundAt(kind, ds[1..], base, rounds, k)
    ensures forall k: nat :: k + 1 < |rounds| ==> RoundAt(kind, ds, base, rounds, k)
  {
    forall k: nat | k + 1 < |rounds| ensures RoundAt(kind, ds, base, rounds, k) {
      assert RoundAt(kind, ds[1..], base, rounds, k);
    }
  }

  lemma NextRound(kind: Kind, ds: seq<Decorator>, base: nat, d: Desc, rounds: seq<Round>) returns (next: Round)
    requires |ds| > 0 && |rounds| == |ds| && Failure(kind, ds, base, d).None?
    requires LastRound(kind, ds[1..], base, d, rounds[|ds| - 1])
    requires forall k: nat :: k + 1 < |rounds| ==> RoundAt(kind, ds, base, rounds, k)
    ensures LastRound(kind, ds, base, d, next)
    ensures forall k: nat :: k < |rounds| ==> RoundAt(kind, ds, base, rounds + [next], k)
  {
    var last, script := rounds[|ds| - 1], FirstScript(kind, ds, base, d);
    var it, more := script.ending.it, Adds(script.adds, base + |ds| - 1).0;
    WrapFollows(kind, Composed(kind, ds[1..], base, d), it, last, more);
    next := Round(Current(kind, Composed(kind, ds, base, d)), InitOf(kind, it) + last.inits, last.extras + more);
    forall k: nat | k < |rounds| ensures RoundAt(kind, ds, base, rounds + [next], k) {
      if k + 1 < |rounds| { assert RoundAt(kind, ds, base, rounds, k); }
    }
  }

  lemma {:induction false} ComposedBecomes(kind: Kind, ds: seq<Decorator>, base: nat, d: Desc)
    requires Failure(kind, ds, base, d).None?
    ensures Becomes(kind, d, Current(kind, Composed(kind, ds, base, d)), Composed(kind, ds, base, d))
  {
    if |ds| > 0 { ComposedBecomes(kind, ds[1..], base, d); }
  }

  /** The element before its decorators: a public method, getter or setter is what the prototype, or the
      constructor if it is static, has under its name. */
  ghost predicate Undecorated(e: Element, members: map<Key, Desc>, d: Desc) {
    var key := Key(if e.isStatic then Constructor else Prototype, e.name);
    match e.kind
    case Class => d == e.extra
    case Accessor => d == e.extra
    case Field => d == Desc(None, None, None)
    case _ => if e.isPrivate then d == e.extra else key in members && d == members[key]
  }

  /** The first subject: the function or the pair of functions that the element is. */
  ghost predicate SubjectOf(kind: Kind, d: Desc, subject: Subject) {
    match kind
    case Class => Holding(d.value, subject)
    case Method => Holding(d.value, subject)
    case Getter => Holding(d.getter, subject)
    case Setter => Holding(d.setter, subject)
    case Accessor => subject == Pair(d.getter, d.setter)
    case Field => subject == Undefined
  }

  /** The reference for a whole element: the last listed decorator is called with the element as it was, each one
      before it with what came out of the call before, and the last round is the result. */
  lemma ElementMeaning(e: Element, members: map<Key, Desc>, base: nat, d: Desc) returns (rounds: seq<Round>)
    requires Undecorated(e, members, d)
    ensures |rounds| > 0 && SubjectOf(e.kind, d, rounds[0].subject)
    ensures var r := ElementOutcome(e, members, base);
            && Rounds(e.kind, e.decorators, base, rounds[0].subject, rounds, if r.Err? then Some(r.error) else None)
            && (r.Ok? ==>
                  && Becomes(e.kind, d, rounds[|e.decorators|].subject, r.value)
                  && InitialisersOf(e, members, base) == rounds[|e.decorators|].inits
                  && ExtrasOf(e, members, base) == rounds[|e.decorators|].extras
                  && MembersWith(e, members, base) == MembersPut(e, members, r.value))
  {
    assert DescOf(e, members) == Some(d);
    rounds := RoundsOf(e.kind, e.decorators, base, d);
    if Failure(e.kind, e.decorators, base, d).None? { ComposedBecomes(e.kind, e.decorators, base, d); }
  }

  /** Public methods, getters and setters are defined again where they were; an accessor gets its place; a private
      function, a field and a class leave the members alone. */
  ghost function MembersPut(e: Element, members: map<Key, Desc>, d: Desc): map<Key, Desc> {
    var holder := if e.isPrivate then Brand else if e.isStatic then Constructor else Prototype;
    match e.kind
    case Class => members
    case Field => members
    case Accessor => members[Key(holder, e.name) := d]
    case _ => if e.isPrivate then members else members[Key(holder, e.name) := d]
  }

  /** A decorator of a public method, getter or setter that is not there is a type error. */
  lemma MissingElement(e: Element, members: map<Key, Desc>, base: nat)
    requires !exists d :: Undecorated(e, members, d)
    ensures (e.kind.Method? || e.kind.Getter? || e.kind.Setter?) && !e.isPrivate
    ensures Key(if e.isStatic then Constructor else Prototype, e.name) !in members
    ensures ElementOutcome(e, members, base)
         == if e.decorators == [] then Ok(Desc(None, None, None)) else Err(TypeError)
    ensures MembersWith(e, members, base) == members
  {
    var key := Key(if e.isStatic then Constructor else Prototype, e.name);
    assert !Undecorated(e, members, e.extra) && !Undecorated(e, members, Desc(None, None, None));
    assert key in members ==> Undecorated(e, members, members[key]);
  }

  /** Where an element's initialisers go: a class to slot 0, static elements to slot 1, others to slot 2, and fields
      and accessors to two new slots at the end. */
  lemma ElementPlaces(slots: map<nat, seq<Fn>>, e: Element, length: nat, members: map<Key, Desc>, base: nat, s: nat)
    requires length >= 4
    ensures var after, extras := ElementSlots(slots, e, length, members, base), ExtrasOf(e, members, base);
            if e.kind == Field || e.kind == Accessor then
              && after[length] == InitialisersOf(e, members, base) && after[length + 1] == extras
              && (s != length && s != length + 1 ==> (s in after <==> s in slots))
              && (s != length && s != length + 1 && s in slots ==> after[s] == slots[s])
            else
              var place := if e.kind == Class then 0 else if e.isStatic then 1 else 2;
              && place in after && after[place] == (if place in slots then slots[place] else []) + extras
              && (s != place ==> (s in after <==> s in slots))
              && (s != place && s in slots ==> after[s] == slots[s])
  {
  }

  /** `addInitializer` refuses foreign contexts and what is not a function. */
  ghost predicate Refused(a: Add, own: nat) {
    a.context != own || a.fn.None?
  }

  /** The calls one after another: each adds its function at the end unless it is refused, and the first refusal that
      is not caught ends them. */
  lemma {:induction false} AddsNext(adds: seq<Add>, a: Add, own: nat)
    ensures Adds([], own) == ([], false)
    ensures var (fns, failed) := Adds(adds, own);
            Adds(adds + [a], own) ==
              if failed then (fns, true)
              else if !Refused(a, own) then (fns + [a.fn.value], false)
              else (fns, !a.caught)
  {
    var more := adds + [a];
    if |adds| == 0 {
      assert more[1..] == [];
      if !Refused(a, own) { assert [a.fn.value] + [] == [] + [a.fn.value]; }
    } else {
      assert more[1..] == adds[1..] + [a];
      AddsNext(adds[1..], a, own);
      if !Refused(adds[0], own) && !Refused(a, own) {
        var fns := Adds(adds[1..], own).0;
        assert [adds[0].fn.value] + (fns + [a.fn.value]) == [adds[0].fn.value] + fns + [a.fn.value];
      }
    }
  }

  // ---------------------------------------------------------------- all elements of a class

  function Owners(es: seq<Element>): nat {
    if |es| == 0 then 0 else Owners(es[..|es| - 1]) + if OwnsSlots(es[|es| - 1].kind) then 1 else 0
  }

  function Calls(es: seq<Element>): nat {
    if |es| == 0 then 0 else Calls(es[..|es| - 1]) + |es[|es| - 1].decorators|
  }

  ghost function MembersAfter(es: seq<Element>, members: map<Key, Desc>): map<Key, Desc> {
    if |es| == 0 then members
    else MembersWith(es[|es| - 1], MembersAfter(es[..|es| - 1], members), Calls(es[..|es| - 1]))
  }

  /** The error that ends the class definition, if any. */
  ghost function RunError(es: seq<Element>, members: map<Key, Desc>): Option<Error> {
    if |es| == 0 then None
    else
      var before := es[..|es| - 1];
      var r := ElementOutcome(es[|es| - 1], MembersAfter(before, members), Calls(before));
      if RunError(before, members).Some? then RunError(before, members) else if r.Err? then Some(r.error) else None
  }

  /** The extra initialisers of the elements that share slot `t`, in the order of decoration. */
  ghost function Shared(es: seq<Element>, members: map<Key, Desc>, t: nat): seq<Fn> {
    if |es| == 0 then []
    else
      var e, before := es[|es| - 1], es[..|es| - 1];
      var more := ExtrasOf(e, MembersAfter(before, members), Calls(before));
      Shared(before, members, t) + if !OwnsSlots(e.kind) && SlotOf(e, 4) == t then more else []
  }

  ghost function InitialisersAt(es: seq<Element>, members: map<Key, Desc>, x: nat): seq<Fn>
    requires x < |es|
  {
    InitialisersOf(es[x], MembersAfter(es[..x], members), Calls(es[..x]))
  }

  ghost function ExtrasAt(es: seq<Element>, members: map<Key, Desc>, x: nat): seq<Fn>
    requires x < |es|
  {
    ExtrasOf(es[x], MembersAfter(es[..x], members), Calls(es[..x]))
  }

  ghost predicate Holds(slots: map<nat, seq<Fn>>, n: nat, inits: seq<Fn>, extras: seq<Fn>) {
    && 4 + 2 * n in slots && slots[4 + 2 * n] == inits
    && 5 + 2 * n in slots && slots[5 + 2 * n] == extras
  }

  /** Element `x`, if a field or accessor and the n-th of those, owns slots 4 + 2n and 5 + 2n. */
  ghost predicate Owned(es: seq<Element>, members: map<Key, Desc>, slots: map<nat, seq<Fn>>, x: nat)
    requires x < |es|
  {
    OwnsSlots(es[x].kind) ==>
      Holds(slots, Owners(es[..x]), InitialisersAt(es, members, x), ExtrasAt(es, members, x))
  }

  ghost predicate SharedOk(es: seq<Element>, members: map<Key, Desc>, slots: map<nat, seq<Fn>>, t: nat) {
    (if t in slots then slots[t] else []) == Shared(es, members, t)
  }

  ghost predicate RunIs(es: seq<Element>, members: map<Key, Desc>, length: nat, slots: map<nat, seq<Fn>>) {
    && length == 4 + 2 * Owners(es)
    && (forall x: nat :: x < |es| ==> Owned(es, members, slots, x))
    && (forall t: nat :: t < 3 ==> SharedOk(es, members, slots, t))
  }

  lemma {:induction false} OwnersGrow(es: seq<Element>, x: nat)
    requires x < |es|
    ensures Owners(es[..x]) + (if OwnsSlots(es[x].kind) then 1 else 0) <= Owners(es)
  {
    var before := es[..|es| - 1];
    if x < |before| {
      OwnersGrow(before, x);
      assert before[..x] == es[..x];
    }
  }

  /** No two fields or accessors own the same slots. */
  lemma SlotsApart(es: seq<Element>, x: nat, y: nat)
    requires x < y < |es| && OwnsSlots(es[x].kind) && OwnsSlots(es[y].kind)
    ensures Owners(es[..x]) < Owners(es[..y])
  {
    OwnersGrow(es[..y], x);
    assert es[..y][..x] == es[..x];
  }

  /** Another element leaves the slots of all earlier owners alone. */
  lemma OwnedStays(es: seq<Element>, e: Element, members: map<Key, Desc>, slots: map<nat, seq<Fn>>,
                   after: map<nat, seq<Fn>>, x: nat)
    requires x < |es| && Owned(es, members, slots, x)
    requires forall s :: s in slots && 4 <= s < 4 + 2 * Owners(es) ==> s in after && after[s] == slots[s]
    ensures Owned(es + [e], members, after, x)
  {
    assert (es + [e])[..x] == es[..x];
    OwnersGrow(es, x);
  }

  lemma ElementFrame(slots: map<nat, seq<Fn>>, e: Element, length: nat, members: map<Key, Desc>, base: nat)
    requires length >= 4
    ensures var after := ElementSlots(slots, e, length, members, base);
      && (forall s :: s in slots && 4 <= s < length ==> s in after && after[s] == slots[s])
      && (OwnsSlots(e.kind) ==> after[length] == InitialisersOf(e, members, base))
      && (OwnsSlots(e.kind) ==> after[length + 1] == ExtrasOf(e, members, base))
  {
  }

  lemma SharedStep(es: seq<Element>, e: Element, members: map<Key, Desc>, t: nat)
    ensures Shared(es + [e], members, t)
         == Shared(es, members, t)
            + if !OwnsSlots(e.kind) && SlotOf(e, 4) == t then ExtrasOf(e, MembersAfter(es, members), Calls(es)) else []
  {
    assert (es + [e])[..|es|] == es;
  }

  /** What an element does to a shared slot. */
  lemma SharedSlot(slots: map<nat, seq<Fn>>, e: Element, length: nat, members: map<Key, Desc>, base: nat, t: nat)
    requires length >= 4 && t < 3
    ensures var after := ElementSlots(slots, e, length, members, base);
      (if t in after then after[t] else [])
      == (if t in slots then slots[t] else [])
         + if !OwnsSlots(e.kind) && SlotOf(e, 4) == t then ExtrasOf(e, members, base) else []
  {
    var now := if t in slots then slots[t] else [];
    assert now + [] == now;
  }

  lemma SharedPush(es: seq<Element>, e: Element, members: map<Key, Desc>, slots: map<nat, seq<Fn>>, length: nat, t: nat)
    requires length >= 4 && t < 3 && SharedOk(es, members, slots, t)
    ensures SharedOk(es + [e], members, ElementSlots(slots, e, length, MembersAfter(es, members), Calls(es)), t)
  {
    SharedStep(es, e, members, t);
    SharedSlot(slots, e, length, MembersAfter(es, members), Calls(es), t);
  }

  lemma RunPush(es: seq<Element>, e: Element, members: map<Key, Desc>, length: nat, slots: map<nat, seq<Fn>>)
    requires RunIs(es, members, length, slots)
    ensures RunIs(es + [e], members, length + (if OwnsSlots(e.kind) then 2 else 0),
      ElementSlots(slots, e, length, MembersAfter(es, members), Calls(es)))
  {
    var now := es + [e];
    var after := ElementSlots(slots, e, length, MembersAfter(es, members), Calls(es));
    ElementFrame(slots, e, length, MembersAfter(es, members), Calls(es));
    assert now[..|es|] == es;
    forall x: nat | x < |now| ensures Owned(now, members, after, x) {
      if x < |es| { OwnedStays(es, e, members, slots, after, x); }
    }
    forall t: nat | t < 3 ensures SharedOk(now, members, after, t) {
      SharedPush(es, e, members, slots, length, t);
    }
  }

  /** `c` is the outcome of decorating the elements `es`, all without an error. */
  ghost predicate Decorated(es: seq<Element>, members: map<Key, Desc>, c: Decoration)
    reads c
  {
    && c.Valid() && RunError(es, members).None? && RunIs(es, members, c.length, c.slots)
    && c.members == MembersAfter(es, members)
    && |c.contexts| == Calls(es) && AllDone(c.contexts, |c.contexts|)
  }

  method DecorateNext(c: Decoration, ghost es: seq<Element>, e: Element, ghost members: map<Key, Desc>)
    returns (error: Option<Error>)
    requires Decorated(es, members, c)
    modifies c
    ensures error == RunError(es + [e], members)
    ensures error.None? ==> Decorated(es + [e], members, c)
  {
    assert (es + [e])[..|es|] == es;
    RunPush(es, e, members, c.length, c.slots);
    var r := c.DecorateElement(e);
    error := if r.Err? then Some(r.error) else None;
  }

  /** The decorated elements of a class, one after another, up to the first error. */
  method DecorateAll(es: seq<Element>, members: map<Key, Desc>) returns (error: Option<Error>, c: Decoration)
    ensures error == RunError(es, members)
    ensures error.None? ==> Decorated(es, members, c)
  {
    c := new Decoration(members);
    for k := 0 to |es|
      invariant fresh(c) && Decorated(es[..k], members, c)
    {
      assert es[..k + 1] == es[..k] + [es[k]];
      error := DecorateNext(c, es[..k], es[k], members);
      if error.Some? {
        RunErrorStays(es, members, k + 1);
        return;
      }
    }
    assert es[..|es|] == es;
    error := None;
  }

  lemma {:induction false} RunErrorStays(es: seq<Element>, members: map<Key, Desc>, k: nat)
    requires k <= |es| && RunError(es[..k], members).Some?
    ensures RunError(es, members) == RunError(es[..k], members)
    decreases |es| - k
  {
    if k < |es| {
      assert es[..k + 1][..k] == es[..k];
      RunErrorStays(es, members, k + 1);
    } else {
      assert es[..k] == es;
    }
  }
}
