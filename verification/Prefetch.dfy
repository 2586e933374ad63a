/** The prefetch cache of scripts/prefetch-deps.ts: building the work list, four workers on one
    queue, and the stage, extract, prune, stamp, remove, rename protocol that publishes a tree. */
module Prefetch {
  import opened Wrappers

  /** A directory: its files by relative path. */
  type Dir = map<string, string>

  /** The directories below `extracted/`, by name. */
  type FileSystem = map<string, Dir>

  const STAMP := ".identity"

  /** Where an item's archive is published and under which identity. */
  datatype Extract = Extract(name: string, value: string, remove: seq<string>)

  datatype Item = Item(url: string, extract: Option<Extract>)

  // ---------------------------------------------------------------- the work list

  ghost predicate DistinctUrls(items: seq<Item>) {
    forall i, j :: 0 <= i < j < |items| ==> items[i].url != items[j].url
  }

  /** No two items extract to the same place. */
  ghost predicate DistinctNames(items: seq<Item>) {
    forall i, j :: 0 <= i < j < |items| && items[i].extract.Some? && items[j].extract.Some? ==>
      items[i].extract.value.name != items[j].extract.value.name
  }

  ghost predicate Claims(items: seq<Item>, name: string) {
    exists i :: 0 <= i < |items| && items[i].extract.Some? && items[i].extract.value.name == name
  }

  ghost predicate Lists(items: seq<Item>, url: string) {
    exists i :: 0 <= i < |items| && items[i].url == url
  }

  /** An item as it is listed after others: it loses its extraction if one of them claims the name. */
  ghost function Admitted(item: Item, before: seq<Item>): Item {
    if item.extract.Some? && Claims(before, item.extract.value.name) then Item(item.url, None) else item
  }

  /** The module-level `items` map, in insertion order, and `extractNames`. */
  class WorkList {
    var items: seq<Item>
    var urls: set<string>
    var extractNames: set<string>

    ghost predicate Valid()
      reads this
    {
      && DistinctUrls(items) && DistinctNames(items)
      && (forall u :: u in urls <==> Lists(items, u))
      && (forall n :: n in extractNames <==> Claims(items, n))
    }

    constructor ()
      ensures Valid() && items == []
    {
      items, urls, extractNames := [], {}, {};
    }

    /** The first item wins, for its URL and for the directory it extracts to. */
    method Add(item: Item)
      modifies this
      requires Valid()
      ensures Valid()
      ensures Lists(old(items), item.url) ==> items == old(items)
      ensures !Lists(old(items), item.url) ==>
                items == old(items) + [Admitted(item, old(items))]
    {
      if item.url in urls { return; }
      var it := item;
      if item.extract.Some? {
        if item.extract.value.name in extractNames {
          it := Item(item.url, None);
        } else {
          extractNames := extractNames + {item.extract.value.name};
        }
      }
      AddKeeps(items, it);
      items := items + [it];
      urls := urls + {item.url};
    }
  }

  lemma AddKeeps(items: seq<Item>, it: Item)
    ensures forall u :: Lists(items + [it], u) <==> Lists(items, u) || u == it.url
    ensures forall n :: Claims(items + [it], n) <==>
      Claims(items, n) || (it.extract.Some? && n == it.extract.value.name)
    ensures DistinctUrls(items) && !Lists(items, it.url) ==> DistinctUrls(items + [it])
    ensures DistinctNames(items) && (it.extract.Some? ==> !Claims(items, it.extract.value.name)) ==>
      DistinctNames(items + [it])
  {
    var more := items + [it];
    assert more[|items|] == it;
    forall u | Lists(items, u) ensures Lists(more, u) {
      var i :| 0 <= i < |items| && items[i].url == u;
      assert more[i].url == u;
    }
    forall n | Claims(items, n) ensures Claims(more, n) {
      var i :| 0 <= i < |items| && items[i].extract.Some? && items[i].extract.value.name == n;
      assert more[i] == items[i];
    }
  }

  /** `all[i]` is the first of its URL. */
  ghost predicate FirstOf(all: seq<Item>, i: nat) {
    i < |all| && forall j :: 0 <= j < i ==> all[j].url != all[i].url
  }

  /** Item `k` of the list is the addition number `from[k]`, with its extraction unless an item before it extracts to
      the same place. */
  ghost predicate SelectedAt(all: seq<Item>, items: seq<Item>, from: seq<nat>, k: nat) {
    && k < |items| && k < |from| && FirstOf(all, from[k]) && items[k].url == all[from[k]].url
    && var extract := all[from[k]].extract;
       if extract.Some?
          && exists j :: 0 <= j < k && items[j].extract.Some? && items[j].extract.value.name == extract.value.name
       then items[k].extract == None else items[k].extract == extract
  }

  lemma AdmittedIsSelected(item: Item, items: seq<Item>, k: nat)
    requires k < |items| && items[k] == Admitted(item, items[..k])
    ensures items[k].url == item.url
    ensures if item.extract.Some?
               && exists j :: 0 <= j < k && items[j].extract.Some?
                              && items[j].extract.value.name == item.extract.value.name
            then items[k].extract == None else items[k].extract == item.extract
  {
    var before := items[..k];
    assert forall j :: 0 <= j < k ==> before[j] == items[j];
  }

  /** The list holds the first addition of every URL, in the order of addition. */
  ghost predicate Selected(all: seq<Item>, items: seq<Item>, from: seq<nat>) {
    && |from| == |items|
    && (forall k: nat :: k < |items| ==> SelectedAt(all, items, from, k))
    && (forall i, j :: 0 <= i < j < |from| ==> from[i] < from[j])
    && (forall i: nat :: FirstOf(all, i) ==> i in from)
  }

  lemma FirstOfMore(all: seq<Item>, item: Item, i: nat)
    ensures i < |all| ==> (FirstOf(all + [item], i) <==> FirstOf(all, i))
    ensures FirstOf(all + [item], |all|) <==> !Lists(all, item.url)
  {
    var more := all + [item];
    assert forall j :: 0 <= j < |all| ==> more[j] == all[j];
  }

  lemma SelectedMore(all: seq<Item>, items: seq<Item>, from: seq<nat>, item: Item)
    requires Selected(all, items, from) && (Lists(items, item.url) <==> Lists(all, item.url))
    ensures Lists(items, item.url) ==> Selected(all + [item], items, from)
    ensures !Lists(items, item.url) ==> Selected(all + [item], items + [Admitted(item, items)], from + [|all|])
  {
    var more := all + [item];
    forall i: nat ensures i < |all| ==> (FirstOf(more, i) <==> FirstOf(all, i)) { FirstOfMore(all, item, i); }
    FirstOfMore(all, item, 0);
    if Lists(items, item.url) {
      forall k: nat | k < |items| ensures SelectedAt(more, items, from, k) { assert SelectedAt(all, items, from, k); }
    } else {
      SelectedPush(all, items, from, item);
    }
  }

  lemma SelectedPush(all: seq<Item>, items: seq<Item>, from: seq<nat>, item: Item)
    requires Selected(all, items, from) && !Lists(all, item.url)
    requires forall i: nat :: i < |all| ==> (FirstOf(all + [item], i) <==> FirstOf(all, i))
    ensures Selected(all + [item], items + [Admitted(item, items)], from + [|all|])
  {
    var more, list, picks := all + [item], items + [Admitted(item, items)], from + [|all|];
    FirstOfMore(all, item, 0);
    forall k: nat | k < |list| ensures SelectedAt(more, list, picks, k) {
      if k < |items| {
        assert SelectedAt(all, items, from, k);
        assert more[from[k]] == all[from[k]] && forall j :: 0 <= j <= k ==> list[j] == items[j];
      } else {
        assert list[..k] == items;
        AdmittedIsSelected(item, list, k);
      }
    }
    forall k | 0 <= k < |from| ensures from[k] < |all| { assert SelectedAt(all, items, from, k); }
    forall i: nat | FirstOf(more, i) ensures i in picks {
      if i < |all| { assert i in from; } else { assert picks[|from|] == i; }
    }
  }

  /** Whatever is added in whatever order, the work list is free of conflicts, and holds the first addition of
      every URL, with its extraction unless an item before it claims the name. */
  method AddAll(all: seq<Item>) returns (items: seq<Item>)
    ensures DistinctUrls(items) && DistinctNames(items)
    ensures forall u :: Lists(items, u) <==> Lists(all, u)
    ensures exists from :: Selected(all, items, from)
  {
    var w := new WorkList();
    ghost var from: seq<nat> := [];
    for i := 0 to |all|
      invariant w.Valid() && fresh(w)
      invariant forall u :: Lists(w.items, u) <==> Lists(all[..i], u)
      invariant Selected(all[..i], w.items, from)
    {
      assert all[..i + 1] == all[..i] + [all[i]];
      AddKeeps(all[..i], all[i]);
      SelectedMore(all[..i], w.items, from, all[i]);
      ghost var before := w.items;
      w.Add(all[i]);
      if !Lists(before, all[i].url) {
        from := from + [i];
        AddKeeps(before, w.items[|before|]);
      }
    }
    assert all[..|all|] == all;
    items := w.items;
  }
}
