/** Module namespaces of src/runtime.js: `__toESM` with its caches and live getters, and `__reExport`. */
module Namespaces {
  import opened Wrappers

  type Name = string

  /** Objects and functions are given by their place in the heap. */
  datatype Value = Undefined | Null | Primitive(id: nat, truthy: bool) | Object(at: nat) | Function(at: nat)

  predicate Truthy(v: Value) {
    !v.Undefined? && !v.Null? && (v.Primitive? ==> v.truthy)
  }

  predicate HasNames(v: Value) {
    v.Object? || v.Function?
  }

  /** `Live` is a getter that reads the property of the same name of another object. Getters are numbered
      in the order of their definition. */
  datatype Property = Data(value: Value, writable: bool) | Live(from: nat, number: nat)

  /** `names` is the order in which the own properties were defined. */
  datatype Item = Item(proto: Option<nat>, names: seq<Name>, props: map<Name, Property>)

  type Heap = seq<Item>

  // ---------------------------------------------------------------- heaps

  function Age(p: Property): nat {
    if p.Live? then p.number + 1 else 0
  }

  /** A getter reads a property that was there before the getter. */
  ghost predicate PropertyOk(h: Heap, clock: nat, name: Name, p: Property) {
    p.Live? ==> p.number < clock && p.from < |h| && name in h[p.from].props && Age(h[p.from].props[name]) < Age(p)
  }

  /** Every own property is listed once. */
  ghost predicate Listed(item: Item) {
    (forall name :: name in item.names <==> name in item.props) && Apart(item.names)
  }

  ghost predicate Apart(names: seq<Name>) {
    forall i, j :: 0 <= i < j < |names| ==> names[i] != names[j]
  }

  ghost predicate ItemOk(h: Heap, clock: nat, o: nat)
    requires o < |h|
  {
    && (h[o].proto.Some? ==> h[o].proto.value < o)
    && Listed(h[o])
    && (forall name :: name in h[o].props ==> PropertyOk(h, clock, name, h[o].props[name]))
  }

  ghost predicate HeapOk(h: Heap, clock: nat) {
    forall o: nat :: o < |h| ==> ItemOk(h, clock, o)
  }

  /** The object whose own data an own property gives: following getters comes to an end. */
  function Source(h: Heap, clock: nat, o: nat, name: Name): (s: nat)
    requires HeapOk(h, clock) && o < |h| && name in h[o].props
    ensures s < |h| && name in h[s].props && h[s].props[name].Data?
    decreases Age(h[o].props[name])
  {
    assert ItemOk(h, clock, o);
    assert PropertyOk(h, clock, name, h[o].props[name]);
    if h[o].props[name].Data? then o else Source(h, clock, h[o].props[name].from, name)
  }

  function Own(h: Heap, clock: nat, o: nat, name: Name): Value
    requires HeapOk(h, clock) && o < |h| && name in h[o].props
  {
    h[Source(h, clock, o, name)].props[name].value
  }

  /** Reading a property, through the prototypes if need be. */
  function Get(h: Heap, clock: nat, o: nat, name: Name): Value
    requires HeapOk(h, clock) && o < |h|
    decreases o
  {
    assert ItemOk(h, clock, o);
    if name in h[o].props then Own(h, clock, o, name)
    else if h[o].proto.Some? then Get(h, clock, h[o].proto.value, name)
    else Undefined
  }

  /** The object `n` prototypes up from `o`, if there is one. */
  ghost function Above(h: Heap, o: nat, n: nat): Option<nat>
    decreases n
  {
    if o >= |h| then None
    else if n == 0 then Some(o)
    else if h[o].proto.Some? then Above(h, h[o].proto.value, n - 1)
    else None
  }

  /** `p` is `n` prototypes up from `o` and the first object there with the name. */
  ghost predicate FirstWith(h: Heap, o: nat, name: Name, n: nat, p: nat) {
    && Above(h, o, n) == Some(p) && p < |h| && name in h[p].props
    && forall i: nat :: i < n ==> Lacks(h, Above(h, o, i), name)
  }

  ghost predicate Lacks(h: Heap, q: Option<nat>, name: Name) {
    q.Some? ==> q.value < |h| ==> name !in h[q.value].props
  }

  /** Some own property decides, the object's own or else the nearest inherited one; or there is none. */
  lemma {:induction false} NearestOwner(h: Heap, clock: nat, o: nat, name: Name) returns (n: nat, p: Option<nat>)
    requires HeapOk(h, clock) && o < |h|
    ensures p.Some? ==>
              && FirstWith(h, o, name, n, p.value)
              && Get(h, clock, o, name) == Own(h, clock, p.value, name)
              && CanWrite(h, clock, o, name) == (h[p.value].props[name].Data? && h[p.value].props[name].writable)
    ensures p.None? ==>
              && (forall i: nat :: Lacks(h, Above(h, o, i), name))
              && Get(h, clock, o, name) == Undefined && CanWrite(h, clock, o, name)
    decreases o
  {
    assert ItemOk(h, clock, o);
    if name in h[o].props {
      n, p := 0, Some(o);
    } else if h[o].proto.Some? {
      n, p := NearestOwner(h, clock, h[o].proto.value, name);
      n := n + 1;
      forall i: nat | p.None? || i < n ensures Lacks(h, Above(h, o, i), name) {
        if i > 0 { assert Lacks(h, Above(h, h[o].proto.value, i - 1), name); }
      }
    } else {
      n, p := 0, None;
    }
  }

  /** An own property gives its own value, or what the object behind its getter has under the same name. */
  lemma OwnMeaning(h: Heap, clock: nat, o: nat, name: Name)
    requires HeapOk(h, clock) && o < |h| && name in h[o].props
    ensures h[o].props[name].Data? ==> Own(h, clock, o, name) == h[o].props[name].value
    ensures h[o].props[name].Live? ==>
              var m := h[o].props[name].from;
              m < |h| && name in h[m].props && Own(h, clock, o, name) == Own(h, clock, m, name)
  {
    if h[o].props[name].Live? { LiveReads(h, clock, o, name); }
  }

  // ---------------------------------------------------------------- defining getters

  /** Getters for those of `keys` that are not there yet, all with the same number. */
  function Extend(item: Item, from: nat, keys: seq<Name>, skipDefault: bool, number: nat): Item {
    if |keys| == 0 then item
    else
      var done, key := Extend(item, from, keys[..|keys| - 1], skipDefault, number), keys[|keys| - 1];
      if key in done.props || (skipDefault && key == "default") then done
      else Item(done.proto, done.names + [key], done.props[key := Live(from, number)])
  }

  predicate Added(item: Item, keys: seq<Name>, skipDefault: bool, name: Name) {
    name in keys && name !in item.props && !(skipDefault && name == "default")
  }

  ghost predicate IsExtended(item: Item, from: nat, keys: seq<Name>, skipDefault: bool, number: nat, r: Item) {
    && r.proto == item.proto
    && (forall name :: name in r.props <==> name in item.props || Added(item, keys, skipDefault, name))
    && (forall name :: name in item.props ==> r.props[name] == item.props[name])
    && (forall name :: Added(item, keys, skipDefault, name) ==> r.props[name] == Live(from, number))
  }

  lemma {:induction false} ExtendMeaning(item: Item, from: nat, keys: seq<Name>, skipDefault: bool, number: nat)
    ensures IsExtended(item, from, keys, skipDefault, number, Extend(item, from, keys, skipDefault, number))
  {
    if |keys| > 0 {
      ExtendMeaning(item, from, keys[..|keys| - 1], skipDefault, number);
      assert keys == keys[..|keys| - 1] + [keys[|keys| - 1]];
    }
  }

  lemma {:induction false} ExtendNames(item: Item, from: nat, keys: seq<Name>, skipDefault: bool, number: nat)
    requires Listed(item)
    ensures Listed(Extend(item, from, keys, skipDefault, number))
  {
    if |keys| > 0 {
      var done := Extend(item, from, keys[..|keys| - 1], skipDefault, number);
      ExtendNames(item, from, keys[..|keys| - 1], skipDefault, number);
      if keys[|keys| - 1] !in done.props { ListedPush(done, keys[|keys| - 1], Live(from, number)); }
    }
  }

  lemma ListedPush(item: Item, name: Name, p: Property)
    requires Listed(item) && name !in item.props
    ensures Listed(Item(item.proto, item.names + [name], item.props[name := p]))
  {
    var r := Item(item.proto, item.names + [name], item.props[name := p]);
    forall n ensures n in r.names <==> n in r.props {
      assert n in r.names <==> n in item.names || n == name;
    }
  }

  /** New getters for names of `from` keep a heap in order. */
  lemma ExtendKeeps(h: Heap, clock: nat, o: nat, from: nat, keys: seq<Name>, skipDefault: bool)
    requires HeapOk(h, clock) && o < |h| && from < |h|
    requires forall name :: name in keys ==> name in h[from].props
    ensures HeapOk(h[o := Extend(h[o], from, keys, skipDefault, clock)], clock + 1)
  {
    var item, next := Extend(h[o], from, keys, skipDefault, clock), clock + 1;
    var g := h[o := item];
    assert ItemOk(h, clock, o) && ItemOk(h, clock, from);
    ExtendMeaning(h[o], from, keys, skipDefault, clock);
    ExtendNames(h[o], from, keys, skipDefault, clock);
    forall q: nat | q < |g| ensures ItemOk(g, next, q) {
      assert ItemOk(h, clock, q);
      forall name | name in g[q].props ensures PropertyOk(g, next, name, g[q].props[name]) {
        if name in h[from].props { assert PropertyOk(h, clock, name, h[from].props[name]); }
        if name in h[q].props { assert PropertyOk(h, clock, name, h[q].props[name]); }
      }
    }
  }

  // ---------------------------------------------------------------- what stays

  /** Later heaps: properties stay, and those that cannot be written stay the same. */
  ghost predicate Grows(h: Heap, g: Heap) {
    |h| <= |g| && forall o: nat, name :: o < |h| && name in h[o].props ==>
      name in g[o].props && Kept(h[o].props[name], g[o].props[name])
  }

  ghost predicate Kept(p: Property, q: Property) {
    if p.Data? && p.writable then q.Data? && q.writable else q == p
  }

  lemma GrowsOn(h: Heap, g: Heap, k: Heap)
    requires Grows(h, g) && Grows(g, k)
    ensures Grows(h, k)
  {
    forall o: nat, name | o < |h| && name in h[o].props
      ensures name in k[o].props && Kept(h[o].props[name], k[o].props[name])
    {
      assert name in g[o].props && Kept(h[o].props[name], g[o].props[name]);
      assert Kept(g[o].props[name], k[o].props[name]);
    }
  }

  lemma ExtendGrows(h: Heap, o: nat, from: nat, keys: seq<Name>, skipDefault: bool, number: nat)
    requires o < |h|
    ensures Grows(h, h[o := Extend(h[o], from, keys, skipDefault, number)])
  {
    ExtendMeaning(h[o], from, keys, skipDefault, number);
  }

  /** A namespace that `__toESM` made: for which module, in which mode, with which names, and whether
      `default` is the module itself. */
  datatype Made = Made(mod: Value, node: bool, names: seq<Name>, byDefault: bool)

  ghost predicate InHeap(v: Value, h: Heap) {
    HasNames(v) ==> v.at < |h|
  }

  ghost predicate MadeOk(h: Heap, ns: nat, m: Made) {
    && ns < |h| && InHeap(m.mod, h)
    && (m.byDefault ==> "default" in h[ns].props && h[ns].props["default"] == Data(m.mod, false))
    && (m.names != [] ==> HasNames(m.mod))
    && (forall name :: name in m.names && !(m.byDefault && name == "default") ==> ReadsModule(h, ns, m.mod, name))
    && (!m.byDefault ==> "default" in m.names)
  }

  ghost predicate ReadsModule(h: Heap, ns: nat, mod: Value, name: Name) {
    && HasNames(mod) && ns < |h| && mod.at < |h| && name in h[mod.at].props
    && name in h[ns].props && h[ns].props[name].Live? && h[ns].props[name].from == mod.at
  }

  lemma MadeKept(h: Heap, g: Heap, ns: nat, m: Made)
    requires MadeOk(h, ns, m) && Grows(h, g)
    ensures MadeOk(g, ns, m)
  {
    forall name | name in m.names && !(m.byDefault && name == "default") ensures ReadsModule(g, ns, m.mod, name) {
      assert ReadsModule(h, ns, m.mod, name);
    }
  }

  /** In every heap, names other than `default` read what the module has now; `default` is the module, or
      else the module's own `default` now. */
  ghost predicate Reads(h: Heap, clock: nat, ns: nat, m: Made, name: Name)
    requires HeapOk(h, clock)
  {
    && ns < |h| && name in h[ns].props
    && if name == "default" && m.byDefault then Own(h, clock, ns, name) == m.mod
       else && HasNames(m.mod) && m.mod.at < |h| && name in h[m.mod.at].props
            && Own(h, clock, ns, name) == Own(h, clock, m.mod.at, name)
  }

  lemma NamespaceReads(h: Heap, clock: nat, ns: nat, m: Made, name: Name)
    requires HeapOk(h, clock) && MadeOk(h, ns, m) && (name in m.names || name == "default")
    ensures Reads(h, clock, ns, m, name)
  {
    if name != "default" || !m.byDefault { assert ReadsModule(h, ns, m.mod, name); }
  }

  /** When `default` is the module itself. */
  function DefaultRule(h: Heap, clock: nat, mod: Value, isNodeMode: bool): bool
    requires HeapOk(h, clock) && InHeap(mod, h)
  {
    isNodeMode || !HasNames(mod) || !Truthy(Get(h, clock, mod.at, "__esModule")) || "default" !in h[mod.at].props
  }

  /** The new object that `__toESM` starts with, before the names. */
  function Start(h: Heap, mod: Value, byDefault: bool): Item
    requires InHeap(mod, h)
  {
    var proto := if HasNames(mod) then h[mod.at].proto else None;
    if byDefault then Item(proto, ["default"], map["default" := Data(mod, false)]) else Item(proto, [], map[])
  }

  function NamesOf(h: Heap, v: Value): seq<Name>
    requires InHeap(v, h)
  {
    if HasNames(v) then h[v.at].names else []
  }

  lemma StartKeeps(h: Heap, clock: nat, mod: Value, byDefault: bool)
    requires HeapOk(h, clock) && InHeap(mod, h)
    ensures HeapOk(h + [Start(h, mod, byDefault)], clock) && Grows(h, h + [Start(h, mod, byDefault)])
  {
    var g := h + [Start(h, mod, byDefault)];
    if HasNames(mod) { assert ItemOk(h, clock, mod.at); }
    forall o: nat | o < |g| ensures ItemOk(g, clock, o) {
      if o < |h| {
        assert ItemOk(h, clock, o);
        forall name | name in g[o].props ensures PropertyOk(g, clock, name, g[o].props[name]) {
          assert PropertyOk(h, clock, name, h[o].props[name]);
        }
      }
    }
  }

  /** The heap with a new namespace. */
  ghost function Converted(h: Heap, clock: nat, mod: Value, node: bool): Heap
    requires HeapOk(h, clock) && InHeap(mod, h)
  {
    var start := Start(h, mod, DefaultRule(h, clock, mod, node));
    h + [if HasNames(mod) then Extend(start, mod.at, NamesOf(h, mod), false, clock) else start]
  }

  ghost function Record(h: Heap, clock: nat, mod: Value, node: bool): Made
    requires HeapOk(h, clock) && InHeap(mod, h)
  {
    Made(mod, node, NamesOf(h, mod), DefaultRule(h, clock, mod, node))
  }

  /** A new namespace is as it should be. */
  lemma NewMade(h: Heap, clock: nat, mod: Value, node: bool)
    requires HeapOk(h, clock) && InHeap(mod, h)
    ensures MadeOk(Converted(h, clock, mod, node), |h|, Record(h, clock, mod, node))
  {
    var byDefault, names := DefaultRule(h, clock, mod, node), NamesOf(h, mod);
    var start := Start(h, mod, byDefault);
    if HasNames(mod) {
      assert ItemOk(h, clock, mod.at);
      ExtendMeaning(start, mod.at, names, false, clock);
      forall name | name in names && !(byDefault && name == "default")
        ensures Added(start, names, false, name)
      {
      }
    }
  }

  /** `mod` has a truthy `__esModule`, its own or inherited. */
  ghost predicate MarkedEsm(h: Heap, clock: nat, at: nat)
    requires HeapOk(h, clock) && at < |h|
  {
    var v := Get(h, clock, at, "__esModule");
    v.Object? || v.Function? || (v.Primitive? && v.truthy)
  }

  /** The namespace of `mod`, from the heap `h` before it was made. `default` is the module in node mode, and for
      null, undefined and primitives; else it reads the module's own `default` if there is one and the module is
      marked, and is the module if not. All other own names of the module, and no others, read the module. */
  ghost predicate Namespace(h: Heap, clock: nat, mod: Value, isNodeMode: bool, ns: Item)
    requires HeapOk(h, clock) && ((mod.Object? || mod.Function?) ==> mod.at < |h|)
  {
    && "default" in ns.props
    && (if mod.Object? || mod.Function? then
          && ns.proto == h[mod.at].proto
          && (if !isNodeMode && "default" in h[mod.at].props && MarkedEsm(h, clock, mod.at)
              then ns.props["default"] == Live(mod.at, clock) else ns.props["default"] == Data(mod, false))
          && (forall name :: name != "default" ==> (name in ns.props <==> name in h[mod.at].props))
          && (forall name :: name != "default" && name in ns.props ==> ns.props[name] == Live(mod.at, clock))
        else ns == Item(None, ["default"], map["default" := Data(mod, false)]))
  }

  lemma NewNamespace(h: Heap, clock: nat, mod: Value, node: bool)
    requires HeapOk(h, clock) && InHeap(mod, h)
    ensures Namespace(h, clock, mod, node, Converted(h, clock, mod, node)[|h|])
  {
    if HasNames(mod) {
      assert ItemOk(h, clock, mod.at);
      var start := Start(h, mod, DefaultRule(h, clock, mod, node));
      ExtendMeaning(start, mod.at, NamesOf(h, mod), false, clock);
      var r := Converted(h, clock, mod, node)[|h|];
      forall name ensures Added(start, NamesOf(h, mod), false, name) <==>
          name in h[mod.at].props && name !in start.props {
      }
    }
  }

  lemma ConvertedKeeps(h: Heap, clock: nat, mod: Value, node: bool)
    requires HeapOk(h, clock) && InHeap(mod, h)
    ensures HeapOk(Converted(h, clock, mod, node), if HasNames(mod) then clock + 1 else clock)
    ensures Grows(h, Converted(h, clock, mod, node))
  {
    var start, names := Start(h, mod, DefaultRule(h, clock, mod, node)), NamesOf(h, mod);
    var g := h + [start];
    StartKeeps(h, clock, mod, DefaultRule(h, clock, mod, node));
    if HasNames(mod) {
      assert ItemOk(h, clock, mod.at);
      ExtendKeeps(g, clock, |h|, mod.at, names, false);
      ExtendGrows(g, |h|, mod.at, names, false, clock);
      assert g[|h| := Extend(start, mod.at, names, false, clock)] == Converted(h, clock, mod, node);
      GrowsOn(h, g, Converted(h, clock, mod, node));
    }
  }

  // ---------------------------------------------------------------- re-exports

  /** Re-exporting to one target, and to both. */
  ghost function Exported(h: Heap, clock: nat, target: nat, mod: Value, keys: seq<Name>): Heap
    requires target < |h|
  {
    if HasNames(mod) then h[target := Extend(h[target], mod.at, keys, true, clock)] else h
  }

  ghost function ExportedBoth(h: Heap, clock: nat, target: nat, mod: Value, second: Option<nat>): Heap
    requires target < |h| && InHeap(mod, h) && (second.Some? ==> second.value < |h|)
  {
    var g := Exported(h, clock, target, mod, NamesOf(h, mod));
    if second.Some? then Exported(g, if HasNames(mod) then clock + 1 else clock, second.value, mod, NamesOf(h, mod))
      else g
  }

  datatype Origin = Existing | From(at: nat) | Missing

  /** The first of the modules that owns a name. */
  function FirstOwner(h: Heap, mods: seq<Value>, name: Name): (r: Origin)
    ensures !r.Existing?
  {
    if |mods| == 0 then Missing
    else
      var first, last := FirstOwner(h, mods[..|mods| - 1], name), mods[|mods| - 1];
      if first != Missing then first
      else if HasNames(last) && last.at < |h| && name in h[last.at].props then From(last.at)
      else Missing
  }

  /** Where an export comes from: what was there before, or else the first owner; `default` is not re-exported. */
  function OriginOf(h: Heap, x: nat, mods: seq<Value>, name: Name): Origin
    requires x < |h|
  {
    if name in h[x].props then Existing else if name == "default" then Missing else FirstOwner(h, mods, name)
  }

  ghost predicate ResolvesName(h: Heap, g: Heap, x: nat, mods: seq<Value>, name: Name)
    requires x < |h| == |g|
  {
    match OriginOf(h, x, mods, name)
    case Existing => name in h[x].props && name in g[x].props && g[x].props[name] == h[x].props[name]
    case From(m) => name in g[x].props && g[x].props[name].Live? && g[x].props[name].from == m
    case Missing => name !in g[x].props
  }

  ghost predicate Resolves(h: Heap, g: Heap, x: nat, mods: seq<Value>)
    requires x < |h| == |g|
  {
    forall name :: ResolvesName(h, g, x, mods, name)
  }

  predicate IsTarget(x: nat, target: nat, second: Option<nat>) {
    x == target || second == Some(x)
  }

  /** `g` comes from `h` by re-exporting all of `mods`. */
  ghost predicate AllResolve(h: Heap, g: Heap, target: nat, second: Option<nat>, mods: seq<Value>) {
    && |h| == |g|
    && (forall x: nat :: x < |h| && IsTarget(x, target, second) ==> Resolves(h, g, x, mods))
    && (forall x: nat :: x < |h| && !IsTarget(x, target, second) ==> g[x] == h[x])
  }

  /** One more module leaves what is there, and gives its other names. */
  ghost predicate Gains(before: Item, from: nat, keys: seq<Name>, after: Item) {
    forall name :: GainsName(before, from, keys, after, name)
  }

  ghost predicate GainsName(before: Item, from: nat, keys: seq<Name>, after: Item, name: Name) {
    if name in before.props then name in after.props && after.props[name] == before.props[name]
    else if name in keys && name != "default" then
      name in after.props && after.props[name].Live? && after.props[name].from == from
    else name !in after.props
  }

  lemma ExtendGains(item: Item, from: nat, keys: seq<Name>, number: nat)
    ensures Gains(item, from, keys, Extend(item, from, keys, true, number))
  {
    ExtendMeaning(item, from, keys, true, number);
    forall name ensures GainsName(item, from, keys, Extend(item, from, keys, true, number), name) {
      assert Added(item, keys, true, name) <==> name in keys && name !in item.props && name != "default";
    }
  }

  lemma TwiceGains(a: Item, from: nat, keys: seq<Name>, b: Item, c: Item)
    requires Gains(a, from, keys, b) && Gains(b, from, keys, c)
    ensures Gains(a, from, keys, c)
  {
    forall name ensures GainsName(a, from, keys, c, name) {
      assert GainsName(a, from, keys, b, name) && GainsName(b, from, keys, c, name);
    }
  }

  lemma BothGain(h: Heap, clock: nat, target: nat, mod: Value, second: Option<nat>)
    requires target < |h| && InHeap(mod, h) && HasNames(mod) && (second.Some? ==> second.value < |h|)
    ensures var g := ExportedBoth(h, clock, target, mod, second);
      && |g| == |h|
      && (forall x: nat :: x < |h| && IsTarget(x, target, second) ==> Gains(h[x], mod.at, NamesOf(h, mod), g[x]))
      && (forall x: nat :: x < |h| && !IsTarget(x, target, second) ==> g[x] == h[x])
  {
    var keys := NamesOf(h, mod);
    var f := Exported(h, clock, target, mod, keys);
    var g := ExportedBoth(h, clock, target, mod, second);
    ExtendGains(h[target], mod.at, keys, clock);
    if second.Some? {
      ExtendGains(f[second.value], mod.at, keys, clock + 1);
      if second.value == target { TwiceGains(h[target], mod.at, keys, f[target], g[target]); }
    }
  }

  /** As long as no module has given a name, the heap has it where it had it. */
  lemma OwnerBefore(h: Heap, g: Heap, target: nat, second: Option<nat>, mods: seq<Value>, q: nat, name: Name)
    requires AllResolve(h, g, target, second, mods) && q < |h|
    requires name != "default" && FirstOwner(h, mods, name) == Missing
    ensures name in g[q].props <==> name in h[q].props
  {
    if IsTarget(q, target, second) { assert ResolvesName(h, g, q, mods, name); }
  }

  lemma NameResolved(h: Heap, g: Heap, k: Heap, target: nat, second: Option<nat>, mods: seq<Value>, mod: Value,
                     x: nat, name: Name)
    requires AllResolve(h, g, target, second, mods) && |k| == |g| && x < |h| && IsTarget(x, target, second)
    requires HasNames(mod) && mod.at < |h| && Listed(g[mod.at]) && GainsName(g[x], mod.at, g[mod.at].names, k[x], name)
    ensures ResolvesName(h, k, x, mods + [mod], name)
  {
    assert (mods + [mod])[..|mods|] == mods;
    assert ResolvesName(h, g, x, mods, name);
    if OriginOf(h, x, mods, name) == Missing && name != "default" {
      OwnerBefore(h, g, target, second, mods, mod.at, name);
    }
  }

  lemma NoNamesResolved(h: Heap, g: Heap, target: nat, second: Option<nat>, mods: seq<Value>, mod: Value)
    requires AllResolve(h, g, target, second, mods) && !HasNames(mod)
    ensures AllResolve(h, g, target, second, mods + [mod])
  {
    assert (mods + [mod])[..|mods|] == mods;
    forall x: nat | x < |h| && IsTarget(x, target, second) ensures Resolves(h, g, x, mods + [mod]) {
      forall name ensures ResolvesName(h, g, x, mods + [mod], name) { assert ResolvesName(h, g, x, mods, name); }
    }
  }

  lemma StepResolved(h: Heap, g: Heap, clock: nat, target: nat, second: Option<nat>, mods: seq<Value>, mod: Value)
    requires AllResolve(h, g, target, second, mods) && HeapOk(g, clock) && InHeap(mod, g)
    requires target < |g| && (second.Some? ==> second.value < |g|)
    ensures AllResolve(h, ExportedBoth(g, clock, target, mod, second), target, second, mods + [mod])
  {
    var k := ExportedBoth(g, clock, target, mod, second);
    if HasNames(mod) {
      assert ItemOk(g, clock, mod.at);
      BothGain(g, clock, target, mod, second);
      forall x: nat | x < |h| && IsTarget(x, target, second) ensures Resolves(h, k, x, mods + [mod]) {
        assert Gains(g[x], mod.at, g[mod.at].names, k[x]);
        forall name ensures ResolvesName(h, k, x, mods + [mod], name) {
          assert GainsName(g[x], mod.at, g[mod.at].names, k[x], name);
          NameResolved(h, g, k, target, second, mods, mod, x, name);
        }
      }
    } else {
      NoNamesResolved(h, g, target, second, mods, mod);
    }
  }

  /** A getter reads what the other object has now. */
  lemma LiveReads(h: Heap, clock: nat, o: nat, name: Name)
    requires HeapOk(h, clock) && o < |h| && name in h[o].props && h[o].props[name].Live?
    ensures var m := h[o].props[name].from;
      m < |h| && name in h[m].props && Own(h, clock, o, name) == Own(h, clock, m, name)
  {
    assert ItemOk(h, clock, o);
    assert PropertyOk(h, clock, name, h[o].props[name]);
  }

  // ---------------------------------------------------------------- assignments

  /** An own property decides whether it can be written; else an inherited one does. */
  function CanWrite(h: Heap, clock: nat, o: nat, name: Name): bool
    requires HeapOk(h, clock) && o < |h|
    decreases o
  {
    assert ItemOk(h, clock, o);
    if name in h[o].props then h[o].props[name].Data? && h[o].props[name].writable
    else h[o].proto.Some? ==> CanWrite(h, clock, h[o].proto.value, name)
  }

  /** The object with an own property assigned. */
  function With(item: Item, name: Name, v: Value): Item {
    Item(item.proto, if name in item.props then item.names else item.names + [name], item.props[name := Data(v, true)])
  }

  lemma AssignKeeps(h: Heap, clock: nat, o: nat, name: Name, v: Value)
    requires HeapOk(h, clock) && o < |h| && CanWrite(h, clock, o, name)
    ensures var g := h[o := With(h[o], name, v)]; HeapOk(g, clock) && Grows(h, g) && Own(g, clock, o, name) == v
  {
    var g := h[o := With(h[o], name, v)];
    assert ItemOk(h, clock, o);
    if name !in h[o].props { ListedPush(h[o], name, Data(v, true)); }
    forall q: nat | q < |g| ensures ItemOk(g, clock, q) {
      assert ItemOk(h, clock, q);
      forall n | n in g[q].props ensures PropertyOk(g, clock, n, g[q].props[n]) {
        if n in h[q].props { assert PropertyOk(h, clock, n, h[q].props[n]); }
      }
    }
  }

  lemma CreateKeeps(h: Heap, clock: nat, proto: Option<nat>)
    requires HeapOk(h, clock) && (proto.Some? ==> proto.value < |h|)
    ensures HeapOk(h + [Item(proto, [], map[])], clock) && Grows(h, h + [Item(proto, [], map[])])
  {
    var g := h + [Item(proto, [], map[])];
    forall o: nat | o < |g| ensures ItemOk(g, clock, o) {
      if o < |h| {
        assert ItemOk(h, clock, o);
        forall name | name in g[o].props ensures PropertyOk(g, clock, name, g[o].props[name]) {
          assert PropertyOk(h, clock, name, h[o].props[name]);
        }
      }
    }
  }

  // ---------------------------------------------------------------- operations

  datatype State = State(heap: Heap, clock: nat, nodeCache: map<nat, nat>, esmCache: map<nat, nat>)
  {
    function Cache(node: bool): map<nat, nat> {
      if node then nodeCache else esmCache
    }

    ghost predicate Valid() {
      HeapOk(heap, clock)
    }
  }

  datatype Op =
    | Convert(mod: Value, node: bool)
    | Export(target: nat, mod: Value, second: Option<nat>)
    | Write(o: nat, name: Name, v: Value)
    | New(proto: Option<nat>)

  /** All objects that an operation mentions are there. */
  predicate InRange(op: Op, h: Heap) {
    match op
    case Convert(mod, _) => HasNames(mod) ==> mod.at < |h|
    case Export(target, mod, second) =>
      target < |h| && (HasNames(mod) ==> mod.at < |h|) && (second.Some? ==> second.value < |h|)
    case Write(o, _, _) => o < |h|
    case New(proto) => proto.Some? ==> proto.value < |h|
  }

  function Ticks(mod: Value, n: nat): nat {
    if HasNames(mod) then n else 0
  }

  /** A conversion finds its namespace in the cache, or makes it and, for an object, keeps it there. */
  ghost function ConvertEffect(s: State, mod: Value, node: bool): (State, nat)
    requires s.Valid() && InHeap(mod, s.heap)
  {
    if mod.Object? && mod.at in s.Cache(node) then (s, s.Cache(node)[mod.at])
    else
      var ns, heap, clock := |s.heap|, Converted(s.heap, s.clock, mod, node), s.clock + Ticks(mod, 1);
      var nodeCache := if mod.Object? && node then s.nodeCache[mod.at := ns] else s.nodeCache;
      var esmCache := if mod.Object? && !node then s.esmCache[mod.at := ns] else s.esmCache;
      (State(heap, clock, nodeCache, esmCache), ns)
  }

  ghost function ExportEffect(s: State, target: nat, mod: Value, second: Option<nat>): State
    requires target < |s.heap| && InHeap(mod, s.heap) && (second.Some? ==> second.value < |s.heap|)
  {
    var ticks := Ticks(mod, if second.Some? then 2 else 1);
    s.(heap := ExportedBoth(s.heap, s.clock, target, mod, second), clock := s.clock + ticks)
  }

  ghost function WriteEffect(s: State, o: nat, name: Name, v: Value): State
    requires s.Valid() && o < |s.heap|
  {
    if CanWrite(s.heap, s.clock, o, name) then s.(heap := s.heap[o := With(s.heap[o], name, v)]) else s
  }

  /** What an operation does, and returns. Operations on objects that are not there do nothing. */
  ghost function Effect(op: Op, s: State): (State, Option<nat>)
    requires s.Valid()
  {
    if !InRange(op, s.heap) then (s, None)
    else match op
      case Convert(mod, node) => var (t, ns) := ConvertEffect(s, mod, node); (t, Some(ns))
      case Export(target, mod, second) => (ExportEffect(s, target, mod, second), second)
      case Write(o, name, v) => (WriteEffect(s, o, name, v), None)
      case New(proto) => (s.(heap := s.heap + [Item(proto, [], map[])]), Some(|s.heap|))
  }

  lemma ExportKeeps(h: Heap, clock: nat, target: nat, mod: Value, keys: seq<Name>)
    requires HeapOk(h, clock) && target < |h| && InHeap(mod, h)
    requires HasNames(mod) ==> forall name :: name in keys ==> name in h[mod.at].props
    ensures HeapOk(Exported(h, clock, target, mod, keys), clock + Ticks(mod, 1))
      && Grows(h, Exported(h, clock, target, mod, keys))
  {
    if HasNames(mod) {
      ExtendKeeps(h, clock, target, mod.at, keys, true);
      ExtendGrows(h, target, mod.at, keys, true, clock);
    }
  }

  lemma ExportEffectKeeps(s: State, target: nat, mod: Value, second: Option<nat>)
    requires s.Valid() && target < |s.heap| && InHeap(mod, s.heap) && (second.Some? ==> second.value < |s.heap|)
    ensures ExportEffect(s, target, mod, second).Valid() && Grows(s.heap, ExportEffect(s, target, mod, second).heap)
  {
    var keys := NamesOf(s.heap, mod);
    if HasNames(mod) { assert ItemOk(s.heap, s.clock, mod.at); }
    ExportKeeps(s.heap, s.clock, target, mod, keys);
    var g := Exported(s.heap, s.clock, target, mod, keys);
    if second.Some? {
      ExportKeeps(g, s.clock + Ticks(mod, 1), second.value, mod, keys);
      GrowsOn(s.heap, g, ExportedBoth(s.heap, s.clock, target, mod, second));
    }
  }

  lemma EffectKeeps(op: Op, s: State)
    requires s.Valid()
    ensures Effect(op, s).0.Valid() && Grows(s.heap, Effect(op, s).0.heap)
  {
    if InRange(op, s.heap) {
      match op
      case Convert(mod, node) => ConvertedKeeps(s.heap, s.clock, mod, node);
      case Export(target, mod, second) => ExportEffectKeeps(s, target, mod, second);
      case Write(o, name, v) => if CanWrite(s.heap, s.clock, o, name) { AssignKeeps(s.heap, s.clock, o, name, v); }
      case New(proto) => CreateKeeps(s.heap, s.clock, proto);
    }
  }

  // ---------------------------------------------------------------- the runtime

  class Runtime {
    var heap: Heap
    var clock: nat
    var nodeCache: map<nat, nat>
    var esmCache: map<nat, nat>

    function Now(): State
      reads this
    {
      State(heap, clock, nodeCache, esmCache)
    }

    constructor (heap: Heap)
      ensures Now() == State(heap, 0, map[], map[])
    {
      this.heap, clock, nodeCache, esmCache := heap, 0, map[], map[];
    }

    /** Getters on `o` for `keys` of `from`. */
    method Define(o: nat, from: nat, keys: seq<Name>, skipDefault: bool)
      requires o < |heap|
      modifies this`heap
      ensures heap == old(heap)[o := Extend(old(heap)[o], from, keys, skipDefault, clock)]
    {
      for k := 0 to |keys|
        invariant heap == old(heap)[o := Extend(old(heap)[o], from, keys[..k], skipDefault, clock)]
      {
        var key, item := keys[k], heap[o];
        assert keys[..k + 1][..k] == keys[..k];
        if key !in item.props && !(skipDefault && key == "default") {
          heap := heap[o := Item(item.proto, item.names + [key], item.props[key := Live(from, clock)])];
        }
      }
      assert keys[..|keys|] == keys;
    }

    /** `__toESM`. */
    method ToEsm(mod: Value, isNodeMode: bool) returns (ns: nat)
      requires Now().Valid() && InHeap(mod, heap)
      modifies this
      ensures Now().Valid() && Grows(old(heap), heap)
      ensures (Now(), ns) == ConvertEffect(old(Now()), mod, isNodeMode)
      ensures !(mod.Object? && mod.at in old(Now().Cache(isNodeMode))) ==>
        MadeOk(heap, ns, Record(old(heap), old(clock), mod, isNodeMode))
      ensures !(mod.Object? && mod.at in old(Now().Cache(isNodeMode))) ==>
        && ns == |old(heap)| && |heap| == ns + 1
        && Namespace(old(heap), old(clock), mod, isNodeMode, heap[ns])
    {
      NewNamespace(heap, clock, mod, isNodeMode);
      ConvertedKeeps(heap, clock, mod, isNodeMode);
      NewMade(heap, clock, mod, isNodeMode);
      if mod.Object? && mod.at in Now().Cache(isNodeMode) {
        return Now().Cache(isNodeMode)[mod.at];
      }
      ns := |heap|;
      var names := NamesOf(heap, mod);
      heap := heap + [Start(heap, mod, DefaultRule(heap, clock, mod, isNodeMode))];
      if HasNames(mod) {
        Define(ns, mod.at, names, false);
        clock := clock + 1;
      }
      assert heap == Converted(old(heap), old(clock), mod, isNodeMode);
      if mod.Object? {
        if isNodeMode { nodeCache := nodeCache[mod.at := ns]; } else { esmCache := esmCache[mod.at := ns]; }
      }
    }

    /** `__reExport` to one of its targets. */
    method ReExportTo(target: nat, mod: Value, keys: seq<Name>)
      requires target < |heap|
      modifies this`heap, this`clock
      ensures heap == Exported(old(heap), old(clock), target, mod, keys) && clock == old(clock) + Ticks(mod, 1)
    {
      if HasNames(mod) {
        Define(target, mod.at, keys, true);
        clock := clock + 1;
      }
    }

    /** `__reExport`. */
    method ReExport(target: nat, mod: Value, second: Option<nat>) returns (r: Option<nat>)
      requires Now().Valid() && target < |heap| && InHeap(mod, heap) && (second.Some? ==> second.value < |heap|)
      modifies this`heap, this`clock
      ensures Now().Valid() && Grows(old(heap), heap) && r == second
      ensures Now() == ExportEffect(old(Now()), target, mod, second)
    {
      ExportEffectKeeps(Now(), target, mod, second);
      var keys := NamesOf(heap, mod);
      ReExportTo(target, mod, keys);
      if second.Some? { ReExportTo(second.value, mod, keys); }
      r := second;
    }

    /** Any number of re-exports resolve each name to what was there before, or else to its first owner. */
    method ReExportAll(target: nat, mods: seq<Value>, second: Option<nat>)
      requires Now().Valid() && target < |heap| && (second.Some? ==> second.value < |heap|)
      requires forall i :: 0 <= i < |mods| ==> InHeap(mods[i], heap)
      modifies this`heap, this`clock
      ensures Now().Valid() && Grows(old(heap), heap)
      ensures AllResolve(old(heap), heap, target, second, mods)
    {
      NothingResolved(heap, target, second);
      for k := 0 to |mods|
        invariant Now().Valid() && Grows(old(heap), heap) && AllResolve(old(heap), heap, target, second, mods[..k])
      {
        ghost var before := heap;
        StepResolved(old(heap), heap, clock, target, second, mods[..k], mods[k]);
        assert mods[..k + 1] == mods[..k] + [mods[k]];
        var _ := ReExport(target, mods[k], second);
        GrowsOn(old(heap), before, heap);
      }
      assert mods[..|mods|] == mods;
    }

    /** An assignment; own or inherited getters and read-only properties refuse it. */
    method Assign(o: nat, name: Name, v: Value) returns (ok: bool)
      requires Now().Valid() && o < |heap|
      modifies this`heap
      ensures Now().Valid() && Grows(old(heap), heap)
      ensures ok == CanWrite(old(heap), clock, o, name)
      ensures Now() == WriteEffect(old(Now()), o, name, v)
      ensures ok ==> name in heap[o].props && Own(heap, clock, o, name) == v
    {
      ok := CanWrite(heap, clock, o, name);
      if ok {
        AssignKeeps(heap, clock, o, name, v);
        heap := heap[o := With(heap[o], name, v)];
      }
    }

    /** One operation. */
    method Do(op: Op) returns (r: Option<nat>)
      requires Now().Valid()
      modifies this
      ensures Now().Valid() && (Now(), r) == Effect(op, old(Now()))
    {
      EffectKeeps(op, Now());
      if !InRange(op, heap) { return None; }
      match op {
        case Convert(mod, node) =>
          var ns := ToEsm(mod, node);
          r := Some(ns);
        case Export(target, mod, second) =>
          r := ReExport(target, mod, second);
        case Write(o, name, v) =>
          var _ := Assign(o, name, v);
          r := None;
        case New(proto) =>
          r := Some(|heap|);
          heap := heap + [Item(proto, [], map[])];
      }
    }
  }

  lemma NothingResolved(h: Heap, target: nat, second: Option<nat>)
    ensures AllResolve(h, h, target, second, [])
  {
    forall x: nat | x < |h| && IsTarget(x, target, second) ensures Resolves(h, h, x, []) {
      forall name ensures ResolvesName(h, h, x, [], name) {}
    }
  }

  // ---------------------------------------------------------------- whole runs

  /** The state after the operations. */
  ghost function After(s: State, ops: seq<Op>): (t: State)
    requires s.Valid()
    ensures t.Valid()
  {
    if |ops| == 0 then s
    else
      var before := After(s, ops[..|ops| - 1]);
      EffectKeeps(ops[|ops| - 1], before);
      Effect(ops[|ops| - 1], before).0
  }

  /** What operation `i` returns. */
  ghost function ResultAt(s: State, ops: seq<Op>, i: nat): Option<nat>
    requires s.Valid() && i < |ops|
  {
    Effect(ops[i], After(s, ops[..i])).1
  }

  /** A run is the operations' effects one after another. */
  method RunAll(heap: Heap, ops: seq<Op>) returns (rt: Runtime, results: seq<Option<nat>>)
    requires HeapOk(heap, 0)
    ensures rt.Now() == After(State(heap, 0, map[], map[]), ops)
    ensures |results| == |ops|
    ensures forall i: nat :: i < |ops| ==> results[i] == ResultAt(State(heap, 0, map[], map[]), ops, i)
  {
    rt := new Runtime(heap);
    results := [];
    ghost var s := rt.Now();
    for k := 0 to |ops|
      invariant fresh(rt) && |results| == k && rt.Now() == After(s, ops[..k])
      invariant forall i: nat :: i < k ==> results[i] == ResultAt(s, ops, i)
    {
      assert ops[..k + 1][..k] == ops[..k];
      var r := rt.Do(ops[k]);
      results := results + [r];
    }
    assert ops[..|ops|] == ops;
  }

  lemma AfterStep(s: State, ops: seq<Op>, i: nat)
    requires s.Valid() && i < |ops|
    ensures After(s, ops[..i + 1]) == Effect(ops[i], After(s, ops[..i])).0
    ensures Grows(After(s, ops[..i]).heap, After(s, ops[..i + 1]).heap)
  {
    assert ops[..i + 1][..i] == ops[..i];
    EffectKeeps(ops[i], After(s, ops[..i]));
  }

  lemma {:induction false} GrowsOver(s: State, ops: seq<Op>, i: nat, k: nat)
    requires s.Valid() && i <= k <= |ops|
    ensures Grows(After(s, ops[..i]).heap, After(s, ops[..k]).heap)
  {
    if i < k {
      GrowsOver(s, ops, i, k - 1);
      AfterStep(s, ops, k - 1);
      GrowsOn(After(s, ops[..i]).heap, After(s, ops[..k - 1]).heap, After(s, ops[..k]).heap);
    }
  }

  /** Operation `i` is `op`, on objects that are there. */
  ghost predicate DoneAt(s: State, ops: seq<Op>, i: nat, op: Op)
    requires s.Valid()
  {
    i < |ops| && ops[i] == op && InRange(op, After(s, ops[..i]).heap)
  }

  lemma DoneAtPrefix(s: State, ops: seq<Op>, k: nat, i: nat, op: Op)
    requires s.Valid() && i < k <= |ops|
    ensures DoneAt(s, ops[..k], i, op) <==> DoneAt(s, ops, i, op)
  {
    assert ops[..k][..i] == ops[..i];
  }

  /** The first time that an operation was done. */
  ghost function FirstDone(s: State, ops: seq<Op>, op: Op): (r: Option<nat>)
    requires s.Valid()
    ensures r.Some? ==> r.value < |ops|
  {
    if |ops| == 0 then None
    else
      var first := FirstDone(s, ops[..|ops| - 1], op);
      if first.Some? then first else if DoneAt(s, ops, |ops| - 1, op) then Some(|ops| - 1) else None
  }

  lemma {:induction false} FirstIsFirst(s: State, ops: seq<Op>, op: Op)
    requires s.Valid()
    ensures var r := FirstDone(s, ops, op);
      && (r.Some? ==> DoneAt(s, ops, r.value, op))
      && (forall i: nat :: i < (if r.Some? then r.value else |ops|) ==> !DoneAt(s, ops, i, op))
  {
    if |ops| > 0 {
      var before := ops[..|ops| - 1];
      FirstIsFirst(s, before, op);
      var r := FirstDone(s, before, op);
      if r.Some? { DoneAtPrefix(s, ops, |before|, r.value, op); }
      forall i: nat | i < (if r.Some? then r.value else |before|) ensures !DoneAt(s, ops, i, op) {
        DoneAtPrefix(s, ops, |before|, i, op);
      }
    }
  }

  /** A cache holds the object modules converted in its mode, each with the namespace made the first time. */
  ghost predicate CacheAt(s: State, ops: seq<Op>, at: nat, node: bool)
    requires s.Valid()
  {
    var first, cache := FirstDone(s, ops, Convert(Object(at), node)), After(s, ops).Cache(node);
    && (at in cache <==> first.Some?)
    && (first.Some? ==> at in cache && cache[at] == |After(s, ops[..first.value]).heap|)
  }

  lemma {:induction false} CacheIsFirst(s: State, ops: seq<Op>, at: nat, node: bool)
    requires s.Valid() && s.nodeCache == map[] && s.esmCache == map[]
    ensures CacheAt(s, ops, at, node)
  {
    if |ops| > 0 {
      var before := ops[..|ops| - 1];
      CacheIsFirst(s, before, at, node);
      var first := FirstDone(s, before, Convert(Object(at), node));
      if first.Some? { assert before[..first.value] == ops[..first.value]; }
    }
  }

  /** The operation that made the namespace which conversion `i` returns: for an object the first such
      conversion, else this one. */
  ghost function MadeBy(s: State, ops: seq<Op>, i: nat): (j: nat)
    requires s.Valid() && i < |ops| && ops[i].Convert?
    ensures j <= i
  {
    var first := FirstDone(s, ops[..i], ops[i]);
    if ops[i].mod.Object? && first.Some? then first.value else i
  }

  lemma FirstBefore(s: State, ops: seq<Op>, i: nat, op: Op)
    requires s.Valid() && i <= |ops|
    ensures var r := FirstDone(s, ops[..i], op);
      && (r.Some? ==> DoneAt(s, ops, r.value, op))
      && (forall e: nat :: e < (if r.Some? then r.value else i) ==> !DoneAt(s, ops, e, op))
  {
    FirstIsFirst(s, ops[..i], op);
    var r := FirstDone(s, ops[..i], op);
    if r.Some? { DoneAtPrefix(s, ops, i, r.value, op); }
    forall e: nat | e < (if r.Some? then r.value else i) ensures !DoneAt(s, ops, e, op) {
      DoneAtPrefix(s, ops, i, e, op);
    }
  }

  lemma MadeByFirst(s: State, ops: seq<Op>, i: nat)
    requires s.Valid() && i < |ops| && DoneAt(s, ops, i, ops[i]) && ops[i].Convert?
    ensures DoneAt(s, ops, MadeBy(s, ops, i), ops[i])
    ensures ops[i].mod.Object? ==> forall e: nat :: e < MadeBy(s, ops, i) ==> !DoneAt(s, ops, e, ops[i])
  {
    FirstBefore(s, ops, i, ops[i]);
  }

  /** Conversion `i` returns the object that its maker added to the heap. */
  lemma ConversionResult(s: State, ops: seq<Op>, i: nat)
    requires s.Valid() && s.nodeCache == map[] && s.esmCache == map[] && i < |ops| && ops[i].Convert?
    ensures ResultAt(s, ops, i).Some? <==>
      (ops[i].mod.Object? || ops[i].mod.Function? ==> ops[i].mod.at < |After(s, ops[..i]).heap|)
    ensures ResultAt(s, ops, i).Some? ==> ResultAt(s, ops, i).value == |After(s, ops[..MadeBy(s, ops, i)]).heap|
  {
    if ops[i].mod.Object? && InRange(ops[i], After(s, ops[..i]).heap) {
      CacheIsFirst(s, ops[..i], ops[i].mod.at, ops[i].node);
      var first := FirstDone(s, ops[..i], ops[i]);
      if first.Some? { assert ops[..i][..first.value] == ops[..first.value]; }
    }
  }

  /** Making it leaves a namespace as it should be. */
  lemma MadeThen(s: State, ops: seq<Op>, j: nat)
    requires s.Valid() && s.nodeCache == map[] && s.esmCache == map[] && j < |ops| && ops[j].Convert?
    requires DoneAt(s, ops, j, ops[j])
    requires ops[j].mod.Object? ==> forall e: nat :: e < j ==> !DoneAt(s, ops, e, ops[j])
    ensures var t := After(s, ops[..j]);
      MadeOk(After(s, ops[..j + 1]).heap, |t.heap|, Record(t.heap, t.clock, ops[j].mod, ops[j].node))
  {
    var t := After(s, ops[..j]);
    AfterStep(s, ops, j);
    NewMade(t.heap, t.clock, ops[j].mod, ops[j].node);
    NotMadeBefore(s, ops, j);
  }

  lemma MadeLater(s: State, ops: seq<Op>, j: nat, k: nat)
    requires s.Valid() && s.nodeCache == map[] && s.esmCache == map[] && j < k <= |ops| && ops[j].Convert?
    requires DoneAt(s, ops, j, ops[j])
    requires ops[j].mod.Object? ==> forall e: nat :: e < j ==> !DoneAt(s, ops, e, ops[j])
    ensures var t := After(s, ops[..j]);
      MadeOk(After(s, ops[..k]).heap, |t.heap|, Record(t.heap, t.clock, ops[j].mod, ops[j].node))
  {
    var t := After(s, ops[..j]);
    MadeThen(s, ops, j);
    GrowsOver(s, ops, j + 1, k);
    MadeKept(After(s, ops[..j + 1]).heap, After(s, ops[..k]).heap, |t.heap|,
      Record(t.heap, t.clock, ops[j].mod, ops[j].node));
  }

  /** At any later point of any run, the namespace that a conversion returned reads the module as it is
      then, for all names that the module had when the namespace was made; `default` follows the rule of
      that moment. */
  lemma NamespaceOverRun(s: State, ops: seq<Op>, i: nat, k: nat, name: Name)
    requires s.Valid() && s.nodeCache == map[] && s.esmCache == map[] && i < k <= |ops| && ops[i].Convert?
    requires DoneAt(s, ops, i, ops[i])
    ensures DoneAt(s, ops, MadeBy(s, ops, i), ops[i])
    ensures ops[i].mod.Object? ==> forall e: nat :: e < MadeBy(s, ops, i) ==> !DoneAt(s, ops, e, ops[i])
    ensures var past := After(s, ops[..MadeBy(s, ops, i)]);
      var record := Record(past.heap, past.clock, ops[i].mod, ops[i].node);
      && ResultAt(s, ops, i) == Some(|past.heap|)
      && (name in record.names || name == "default" ==>
            Reads(After(s, ops[..k]).heap, After(s, ops[..k]).clock, |past.heap|, record, name))
  {
    MadeByFirst(s, ops, i);
    ConversionResult(s, ops, i);
    var past, now := After(s, ops[..MadeBy(s, ops, i)]), After(s, ops[..k]);
    MadeLater(s, ops, MadeBy(s, ops, i), k);
    var record := Record(past.heap, past.clock, ops[i].mod, ops[i].node);
    if name in record.names || name == "default" { NamespaceReads(now.heap, now.clock, |past.heap|, record, name); }
  }

  /** What `default` of a returned namespace reads at any later point, by the heap when the namespace was made. */
  lemma DefaultOverRun(s: State, ops: seq<Op>, i: nat, k: nat)
    requires s.Valid() && s.nodeCache == map[] && s.esmCache == map[] && i < k <= |ops| && ops[i].Convert?
    requires DoneAt(s, ops, i, ops[i])
    ensures var past, now := After(s, ops[..MadeBy(s, ops, i)]), After(s, ops[..k]);
      var mod, ns := ops[i].mod, |past.heap|;
      && ResultAt(s, ops, i) == Some(ns) && ns < |now.heap| && "default" in now.heap[ns].props
      && (if mod.Object? || mod.Function? then
            && mod.at < |past.heap| <= |now.heap|
            && (if !ops[i].node && "default" in past.heap[mod.at].props && MarkedEsm(past.heap, past.clock, mod.at)
                then "default" in now.heap[mod.at].props
                     && Own(now.heap, now.clock, ns, "default") == Own(now.heap, now.clock, mod.at, "default")
                else Own(now.heap, now.clock, ns, "default") == mod)
          else Own(now.heap, now.clock, ns, "default") == mod)
  {
    NamespaceOverRun(s, ops, i, k, "default");
    GrowsOver(s, ops, MadeBy(s, ops, i), k);
  }

  /** A conversion of an object module, repeated, is done again and gives the same namespace. */
  lemma OneNamespace(s: State, ops: seq<Op>, i: nat, k: nat)
    requires s.Valid() && s.nodeCache == map[] && s.esmCache == map[] && i < k < |ops|
    requires ops[i].Convert? && ops[i].mod.Object? && ops[k] == ops[i] && DoneAt(s, ops, i, ops[i])
    ensures ResultAt(s, ops, k).Some? && ResultAt(s, ops, k) == ResultAt(s, ops, i)
  {
    GrowsOver(s, ops, i, k);
    MadeByFirst(s, ops, i);
    MadeByFirst(s, ops, k);
    var a, b := MadeBy(s, ops, i), MadeBy(s, ops, k);
    assert a == b;
    ConversionResult(s, ops, i);
    ConversionResult(s, ops, k);
  }

  /** Namespaces with different makers are different objects. */
  lemma NamespacesApart(s: State, ops: seq<Op>, a: nat, b: nat)
    requires s.Valid() && s.nodeCache == map[] && s.esmCache == map[] && a < b < |ops| && ops[a].Convert?
      && DoneAt(s, ops, a, ops[a])
    requires ops[a].mod.Object? ==> forall e: nat :: e < a ==> !DoneAt(s, ops, e, ops[a])
    ensures |After(s, ops[..a]).heap| < |After(s, ops[..b]).heap|
  {
    MadeLater(s, ops, a, b);
  }

  // ---------------------------------------------------------------- every property of every object

  /** What a property is, but for the number of a getter. */
  datatype Given = Slot(value: Value) | Fixed(value: Value) | Getter(from: nat)

  ghost function GivenAt(h: Heap, x: nat, name: Name): Option<Given> {
    if x < |h| && name in h[x].props then
      match h[x].props[name]
      case Data(v, writable) => Some(if writable then Slot(v) else Fixed(v))
      case Live(from, _) => Some(Getter(from))
    else None
  }

  /** What an operation makes of one property, from the heap at its own call. A property that is there stays,
      but for assignments. One that is not there comes from a module that owns the name by a re-export to
      this object, from a new namespace, or from an assignment. */
  ghost function GivenBy(op: Op, s: State, x: nat, name: Name, g: Option<Given>): Option<Given>
    requires s.Valid()
  {
    if !InRange(op, s.heap) then g
    else match op
      case Convert(mod, node) =>
        if x != |s.heap| || (mod.Object? && mod.at in s.Cache(node)) then g
        else if name == "default" && DefaultRule(s.heap, s.clock, mod, node) then Some(Fixed(mod))
        else if HasNames(mod) && name in s.heap[mod.at].props then Some(Getter(mod.at))
        else None
      case Export(target, mod, second) =>
        if g.None? && IsTarget(x, target, second) && HasNames(mod) && name in s.heap[mod.at].props && name != "default"
        then Some(Getter(mod.at)) else g
      case Write(o, n, v) =>
        if o == x && n == name && CanWrite(s.heap, s.clock, o, name) then Some(Slot(v)) else g
      case New(_) => g
  }

  lemma ConvertGives(s: State, mod: Value, node: bool, x: nat, name: Name)
    requires s.Valid() && InHeap(mod, s.heap)
    ensures GivenAt(ConvertEffect(s, mod, node).0.heap, x, name)
         == GivenBy(Convert(mod, node), s, x, name, GivenAt(s.heap, x, name))
  {
    if x == |s.heap| { NewGives(s.heap, s.clock, mod, node, name); }
  }

  /** The names of a new namespace. */
  lemma NewGives(h: Heap, clock: nat, mod: Value, node: bool, name: Name)
    requires HeapOk(h, clock) && InHeap(mod, h)
    ensures GivenAt(Converted(h, clock, mod, node), |h|, name)
         == if name == "default" && DefaultRule(h, clock, mod, node) then Some(Fixed(mod))
            else if HasNames(mod) && name in h[mod.at].props then Some(Getter(mod.at)) else None
  {
    if HasNames(mod) {
      assert ItemOk(h, clock, mod.at);
      var start := Start(h, mod, DefaultRule(h, clock, mod, node));
      ExtendMeaning(start, mod.at, NamesOf(h, mod), false, clock);
      assert Added(start, NamesOf(h, mod), false, name) <==> name in h[mod.at].props && name !in start.props;
    }
  }

  lemma ExportGives(s: State, target: nat, mod: Value, second: Option<nat>, x: nat, name: Name)
    requires s.Valid() && target < |s.heap| && InHeap(mod, s.heap) && (second.Some? ==> second.value < |s.heap|)
    ensures GivenAt(ExportEffect(s, target, mod, second).heap, x, name)
         == GivenBy(Export(target, mod, second), s, x, name, GivenAt(s.heap, x, name))
  {
    if HasNames(mod) {
      assert ItemOk(s.heap, s.clock, mod.at);
      BothGain(s.heap, s.clock, target, mod, second);
      var g := ExportedBoth(s.heap, s.clock, target, mod, second);
      if x < |s.heap| && IsTarget(x, target, second) {
        assert Gains(s.heap[x], mod.at, NamesOf(s.heap, mod), g[x]);
        assert GainsName(s.heap[x], mod.at, NamesOf(s.heap, mod), g[x], name);
      }
    }
  }

  lemma EffectGives(op: Op, s: State, x: nat, name: Name)
    requires s.Valid()
    ensures GivenAt(Effect(op, s).0.heap, x, name) == GivenBy(op, s, x, name, GivenAt(s.heap, x, name))
  {
    if InRange(op, s.heap) {
      match op
      case Convert(mod, node) => ConvertGives(s, mod, node, x, name);
      case Export(target, mod, second) => ExportGives(s, target, mod, second, x, name);
      case Write(o, n, v) =>
      case New(proto) =>
    }
  }

  /** The history of one property, looking at nothing else of its object. */
  ghost function Resolution(s: State, ops: seq<Op>, x: nat, name: Name): Option<Given>
    requires s.Valid()
  {
    if |ops| == 0 then GivenAt(s.heap, x, name)
    else
      var before := ops[..|ops| - 1];
      GivenBy(ops[|ops| - 1], After(s, before), x, name, Resolution(s, before, x, name))
  }

  /** After any run, every property of every object is what its history says. */
  lemma {:induction false} RunResolves(s: State, ops: seq<Op>, x: nat, name: Name)
    requires s.Valid()
    ensures GivenAt(After(s, ops).heap, x, name) == Resolution(s, ops, x, name)
  {
    if |ops| > 0 {
      var before := ops[..|ops| - 1];
      RunResolves(s, before, x, name);
      EffectGives(ops[|ops| - 1], After(s, before), x, name);
    }
  }

  /** Whether operation `i` re-exports a name to `x` from a module that owns it then. */
  ghost predicate Offers(s: State, ops: seq<Op>, i: nat, x: nat, name: Name)
    requires s.Valid() && i < |ops|
  {
    OffersTo(ops[i], After(s, ops[..i]).heap, x, name)
  }

  ghost predicate OffersTo(op: Op, h: Heap, x: nat, name: Name) {
    && op.Export? && op.target < |h| && (op.second.Some? ==> op.second.value < |h|)
    && (x == op.target || op.second == Some(x))
    && (op.mod.Object? || op.mod.Function?) && op.mod.at < |h| && name in h[op.mod.at].props
  }

  predicate Assigns(op: Op, x: nat, name: Name) {
    op.Write? && op.o == x && op.name == name
  }

  /** Over any run, whatever the targets: a name that `x` did not have, and that no assignment put there,
      comes from the first re-export to `x` of a module that then owned it. */
  lemma ExportsOverRun(s: State, ops: seq<Op>, x: nat, name: Name, i: nat)
    requires s.Valid() && x < |s.heap| && name !in s.heap[x].props && i < |ops|
    requires name != "default" && Offers(s, ops, i, x, name)
    requires forall e: nat :: e < i ==> !Offers(s, ops, e, x, name)
    requires forall e: nat :: e < i ==> !Assigns(ops[e], x, name)
    ensures GivenAt(After(s, ops).heap, x, name) == Some(Getter(ops[i].mod.at))
  {
    NotOffered(s, ops, x, name, i);
    AfterStep(s, ops, i);
    EffectGives(ops[i], After(s, ops[..i]), x, name);
    GrowsOver(s, ops, i + 1, |ops|);
    assert ops[..|ops|] == ops;
    var h, g := After(s, ops[..i + 1]).heap, After(s, ops).heap;
    assert Kept(h[x].props[name], g[x].props[name]);
  }

  /** Without such a re-export or assignment there is no such name; `default` is not re-exported at all. */
  lemma NotOffered(s: State, ops: seq<Op>, x: nat, name: Name, i: nat)
    requires s.Valid() && x < |s.heap| && name !in s.heap[x].props && i <= |ops|
    requires name == "default" || forall e: nat :: e < i ==> !Offers(s, ops, e, x, name)
    requires forall e: nat :: e < i ==> !Assigns(ops[e], x, name)
    ensures GivenAt(After(s, ops[..i]).heap, x, name) == None
  {
    StaysMissing(s, ops, x, name, 0, i);
  }

  lemma StepMissing(op: Op, s: State, x: nat, name: Name)
    requires s.Valid() && x < |s.heap| && GivenAt(s.heap, x, name) == None
    requires name == "default" || !OffersTo(op, s.heap, x, name)
    requires !Assigns(op, x, name)
    ensures GivenAt(Effect(op, s).0.heap, x, name) == None
  {
    EffectGives(op, s, x, name);
  }

  lemma {:induction false} StaysMissing(s: State, ops: seq<Op>, x: nat, name: Name, a: nat, i: nat)
    requires s.Valid() && a <= i <= |ops| && x < |After(s, ops[..a]).heap|
    requires GivenAt(After(s, ops[..a]).heap, x, name) == None
    requires name == "default" || forall e: nat :: a <= e < i ==> !Offers(s, ops, e, x, name)
    requires forall e: nat :: a <= e < i ==> !Assigns(ops[e], x, name)
    ensures GivenAt(After(s, ops[..i]).heap, x, name) == None
  {
    if a < i {
      StaysMissing(s, ops, x, name, a, i - 1);
      GrowsOver(s, ops, a, i - 1);
      AfterStep(s, ops, i - 1);
      assert name == "default" || !Offers(s, ops, i - 1, x, name);
      StepMissing(ops[i - 1], After(s, ops[..i - 1]), x, name);
    }
  }

  /** The namespace has no other names: what the module lacked when it was made, and what is neither
      re-exported nor assigned to the namespace itself later, it never has. */
  lemma NoOtherNames(s: State, ops: seq<Op>, j: nat, k: nat, name: Name)
    requires s.Valid() && s.nodeCache == map[] && s.esmCache == map[] && j < k <= |ops| && ops[j].Convert?
    requires DoneAt(s, ops, j, ops[j])
    requires ops[j].mod.Object? ==> forall e: nat :: e < j ==> !DoneAt(s, ops, e, ops[j])
    requires name != "default" && name !in NamesOf(After(s, ops[..j]).heap, ops[j].mod)
    requires var ns := |After(s, ops[..j]).heap|;
      forall e: nat :: j < e < k ==> !Offers(s, ops, e, ns, name) && !Assigns(ops[e], ns, name)
    ensures GivenAt(After(s, ops[..k]).heap, |After(s, ops[..j]).heap|, name) == None
  {
    var past := After(s, ops[..j]);
    NotMadeBefore(s, ops, j);
    AfterStep(s, ops, j);
    if HasNames(ops[j].mod) { assert ItemOk(past.heap, past.clock, ops[j].mod.at); }
    EffectGives(ops[j], past, |past.heap|, name);
    MadeThen(s, ops, j);
    StaysMissing(s, ops, |past.heap|, name, j + 1, k);
  }

  /** The first conversion of an object does not find it in the cache. */
  lemma NotMadeBefore(s: State, ops: seq<Op>, j: nat)
    requires s.Valid() && s.nodeCache == map[] && s.esmCache == map[] && j < |ops| && ops[j].Convert?
    requires ops[j].mod.Object? ==> forall e: nat :: e < j ==> !DoneAt(s, ops, e, ops[j])
    ensures ops[j].mod.Object? ==> ops[j].mod.at !in After(s, ops[..j]).Cache(ops[j].node)
  {
    if ops[j].mod.Object? {
      CacheIsFirst(s, ops[..j], ops[j].mod.at, ops[j].node);
      FirstBefore(s, ops, j, ops[j]);
    }
  }
}
