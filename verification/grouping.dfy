/** Grouping of an order's items by their `vendor` tag
    (controllers/marketplace-controller.js, the `items.reduce` building
    `groupedByVendor`, and the order in which `Object.keys` lists its keys).

    The `reduce` keys its accumulator object by `String(item.vendor)`, so a
    missing tag groups under "undefined". It throws on a nullish item, and on
    a tag naming a member every plain object inherits (its value is truthy
    and has no `push`). The model pairs that fold with a reference
    definition (distinct keys in first-appearance order, each with the items
    carrying it) and proves the two equal. The fold and its laws are stated
    for any key function; the gateway's is `VendorKey`. */
module Grouping {
  import opened JsValues

  /** One vendor group: the key and its items in input order. */
  datatype Group = Group(key: string, items: seq<JsValue>)

  /** The property key `acc[vendor]` uses: `String(item.vendor)`. */
  function VendorKey(item: JsValue): string {
    JsString(Lookup(item, "vendor"))
  }

  /** The members of `Object.prototype`: `acc[k]` is already truthy for these. */
  const InheritedKeys: set<string> := {
    "__proto__", "constructor", "hasOwnProperty", "isPrototypeOf",
    "propertyIsEnumerable", "toLocaleString", "toString", "valueOf",
    "__defineGetter__", "__defineSetter__", "__lookupGetter__", "__lookupSetter__"}

  /** The reduce step succeeds on this item. */
  predicate Groupable(key: JsValue -> string, item: JsValue) {
    !Nullish(item) && key(item) !in InheritedKeys
  }

  function Keys(gs: seq<Group>): (ks: seq<string>)
    ensures |ks| == |gs|
    ensures forall i :: 0 <= i < |gs| ==> ks[i] == gs[i].key
  {
    if |gs| == 0 then [] else [gs[0].key] + Keys(gs[1..])
  }

  predicate Distinct(ks: seq<string>) {
    forall i, j :: 0 <= i < j < |ks| ==> ks[i] != ks[j]
  }

  /** All items of all groups, group after group. */
  function Flatten(gs: seq<Group>): seq<JsValue> {
    if |gs| == 0 then [] else gs[0].items + Flatten(gs[1..])
  }

  // ---------------------------------------------------------------------------
  // The fold, as written

  /** One reduce step: append the item to the group with its key, opening a
      new group at the end when the key is new. */
  function Insert(gs: seq<Group>, k: string, item: JsValue): (r: seq<Group>)
    ensures Keys(r) == if k in Keys(gs) then Keys(gs) else Keys(gs) + [k]
    ensures multiset(Flatten(r)) == multiset(Flatten(gs)) + multiset{item}
  {
    if |gs| == 0 then
      [Group(k, [item])]
    else if gs[0].key == k then
      var r := [Group(k, gs[0].items + [item])] + gs[1..];
      assert r[1..] == gs[1..];
      r
    else
      var r := [gs[0]] + Insert(gs[1..], k, item);
      assert r[1..] == Insert(gs[1..], k, item);
      r
  }

  /** `items.reduce(step, acc)`. */
  function ReduceFrom(key: JsValue -> string, acc: seq<Group>, items: seq<JsValue>): Completion<seq<Group>>
    decreases |items|
  {
    if |items| == 0 then Returned(acc)
    else if Nullish(items[0]) then Threw(DestructureError("vendor", "item", items[0]))
    else if key(items[0]) in InheritedKeys then Threw(NotAFunction("acc[vendor].push"))
    else ReduceFrom(key, Insert(acc, key(items[0]), items[0]), items[1..])
  }

  /** `items.reduce(step, {})`: the vendor groups in key-insertion order. */
  function GroupByVendor(items: seq<JsValue>): Completion<seq<Group>> {
    ReduceFrom(VendorKey, [], items)
  }

  // ---------------------------------------------------------------------------
  // The reference partition

  /** The distinct keys of `items`, in order of first appearance. */
  function DistinctKeys(key: JsValue -> string, items: seq<JsValue>): (ks: seq<string>)
    ensures Distinct(ks)
    ensures forall k :: k in ks <==> exists i :: 0 <= i < |items| && key(items[i]) == k
  {
    if |items| == 0 then []
    else
      var p := items[..|items| - 1];
      var x := items[|items| - 1];
      var ks := DistinctKeys(key, p);
      assert forall i :: 0 <= i < |p| ==> p[i] == items[i];
      if key(x) in ks then ks else ks + [key(x)]
  }

  /** The items carrying key `k`, in input order. */
  function ItemsWithKey(key: JsValue -> string, items: seq<JsValue>, k: string): (r: seq<JsValue>)
    ensures forall y :: y in r ==> y in items && key(y) == k
  {
    if |items| == 0 then []
    else
      var p := items[..|items| - 1];
      var x := items[|items| - 1];
      assert forall y :: y in p ==> y in items;
      ItemsWithKey(key, p, k) + (if key(x) == k then [x] else [])
  }

  function GroupsFor(key: JsValue -> string, ks: seq<string>, items: seq<JsValue>): (gs: seq<Group>)
    ensures Keys(gs) == ks
  {
    if |ks| == 0 then [] else [Group(ks[0], ItemsWithKey(key, items, ks[0]))] + GroupsFor(key, ks[1..], items)
  }

  /** The partition the fold is meant to build. */
  function ReferenceGroups(key: JsValue -> string, items: seq<JsValue>): seq<Group> {
    GroupsFor(key, DistinctKeys(key, items), items)
  }

  /** The reference partition by vendor tag. */
  function VendorGroups(items: seq<JsValue>): seq<Group> {
    ReferenceGroups(VendorKey, items)
  }

  // ---------------------------------------------------------------------------
  // The fold builds the reference partition

  lemma ItemsAppend(key: JsValue -> string, p: seq<JsValue>, x: JsValue, k: string)
    ensures ItemsWithKey(key, p + [x], k) == ItemsWithKey(key, p, k) + (if key(x) == k then [x] else [])
  {
    assert (p + [x])[..|p|] == p;
  }

  lemma KeysAppend(key: JsValue -> string, p: seq<JsValue>, x: JsValue)
    ensures DistinctKeys(key, p + [x]) ==
      if key(x) in DistinctKeys(key, p) then DistinctKeys(key, p) else DistinctKeys(key, p) + [key(x)]
  {
    assert (p + [x])[..|p|] == p;
  }

  /** A key no item carries selects nothing. */
  lemma {:induction false} NoItemsWithKey(key: JsValue -> string, items: seq<JsValue>, k: string)
    requires forall i :: 0 <= i < |items| ==> key(items[i]) != k
    ensures ItemsWithKey(key, items, k) == []
    decreases |items|
  {
    if |items| > 0 {
      NoItemsWithKey(key, items[..|items| - 1], k);
    }
  }

  lemma {:induction false} GroupsForUnaffected(key: JsValue -> string, ks: seq<string>, p: seq<JsValue>, x: JsValue)
    requires key(x) !in ks
    ensures GroupsFor(key, ks, p + [x]) == GroupsFor(key, ks, p)
    decreases |ks|
  {
    if |ks| > 0 {
      ItemsAppend(key, p, x, ks[0]);
      assert ItemsWithKey(key, p + [x], ks[0]) == ItemsWithKey(key, p, ks[0]);
      GroupsForUnaffected(key, ks[1..], p, x);
    }
  }

  lemma DistinctTail(ks: seq<string>)
    requires |ks| > 0 && Distinct(ks)
    ensures Distinct(ks[1..])
  {
    forall i, j | 0 <= i < j < |ks| - 1
      ensures ks[1..][i] != ks[1..][j]
    {
      assert ks[1..][i] == ks[i + 1] && ks[1..][j] == ks[j + 1];
    }
  }

  /** A reduce step on an item whose key already has a group. */
  lemma {:induction false} InsertExisting(key: JsValue -> string, ks: seq<string>, p: seq<JsValue>, x: JsValue)
    requires Distinct(ks) && key(x) in ks
    ensures Insert(GroupsFor(key, ks, p), key(x), x) == GroupsFor(key, ks, p + [x])
    decreases |ks|
  {
    var k := key(x);
    var gs := GroupsFor(key, ks, p);
    assert gs[1..] == GroupsFor(key, ks[1..], p);
    ItemsAppend(key, p, x, ks[0]);
    if ks[0] == k {
      assert k !in ks[1..];
      GroupsForUnaffected(key, ks[1..], p, x);
    } else {
      assert ItemsWithKey(key, p + [x], ks[0]) == ItemsWithKey(key, p, ks[0]);
      DistinctTail(ks);
      InsertExisting(key, ks[1..], p, x);
    }
  }

  /** A reduce step on an item whose key is new: a group opens at the end. */
  lemma {:induction false} InsertNew(key: JsValue -> string, ks: seq<string>, p: seq<JsValue>, x: JsValue)
    requires key(x) !in ks && ItemsWithKey(key, p, key(x)) == []
    ensures Insert(GroupsFor(key, ks, p), key(x), x) == GroupsFor(key, ks + [key(x)], p + [x])
    decreases |ks|
  {
    var k := key(x);
    if |ks| == 0 {
      ItemsAppend(key, p, x, k);
      assert ItemsWithKey(key, p + [x], k) == [x];
      assert [k][1..] == [];
      assert GroupsFor(key, [k], p + [x]) == [Group(k, [x])];
    } else {
      var gs := GroupsFor(key, ks, p);
      var head := Group(ks[0], ItemsWithKey(key, p, ks[0]));
      assert gs == [head] + GroupsFor(key, ks[1..], p);
      assert gs[1..] == GroupsFor(key, ks[1..], p);
      assert Insert(gs, k, x) == [head] + Insert(gs[1..], k, x);
      InsertNew(key, ks[1..], p, x);
      ItemsAppend(key, p, x, ks[0]);
      assert ItemsWithKey(key, p + [x], ks[0]) == ItemsWithKey(key, p, ks[0]);
      assert (ks + [k])[1..] == ks[1..] + [k];
      assert GroupsFor(key, ks + [k], p + [x]) == [head] + GroupsFor(key, ks[1..] + [k], p + [x]);
    }
  }

  /** Adding one item to the reference partition is one reduce step. */
  lemma InsertExtends(key: JsValue -> string, p: seq<JsValue>, x: JsValue)
    ensures Insert(ReferenceGroups(key, p), key(x), x) == ReferenceGroups(key, p + [x])
  {
    KeysAppend(key, p, x);
    if key(x) in DistinctKeys(key, p) {
      InsertExisting(key, DistinctKeys(key, p), p, x);
    } else {
      NoItemsWithKey(key, p, key(x));
      InsertNew(key, DistinctKeys(key, p), p, x);
    }
  }

  lemma ShiftHead(p: seq<JsValue>, s: seq<JsValue>)
    requires |s| > 0
    ensures p + [s[0]] + s[1..] == p + s
  {
    assert s == [s[0]] + s[1..];
  }

  lemma {:induction false} ReduceFromReference(key: JsValue -> string, p: seq<JsValue>, s: seq<JsValue>)
    ensures ReduceFrom(key, ReferenceGroups(key, p), s).Returned? <==> forall i :: 0 <= i < |s| ==> Groupable(key, s[i])
    ensures ReduceFrom(key, ReferenceGroups(key, p), s).Returned? ==>
      ReduceFrom(key, ReferenceGroups(key, p), s).value == ReferenceGroups(key, p + s)
    decreases |s|
  {
    var r := ReduceFrom(key, ReferenceGroups(key, p), s);
    if |s| == 0 {
      assert p + s == p;
    } else if !Groupable(key, s[0]) {
      assert r.Threw?;
    } else {
      InsertExtends(key, p, s[0]);
      var q := p + [s[0]];
      assert r == ReduceFrom(key, ReferenceGroups(key, q), s[1..]);
      ReduceFromReference(key, q, s[1..]);
      ShiftHead(p, s);
      assert (forall i :: 0 <= i < |s| ==> Groupable(key, s[i]))
         <==> (forall i :: 0 <= i < |s[1..]| ==> Groupable(key, s[1..][i])) by {
        assert forall i :: 0 < i < |s| ==> s[i] == s[1..][i - 1];
      }
    }
  }

  /** The reduce succeeds exactly when every item is groupable, and then
      builds the reference partition. */
  lemma GroupByVendorIsReference(items: seq<JsValue>)
    ensures GroupByVendor(items).Returned? <==> forall i :: 0 <= i < |items| ==> Groupable(VendorKey, items[i])
    ensures GroupByVendor(items).Returned? ==> GroupByVendor(items).value == VendorGroups(items)
  {
    assert ReferenceGroups(VendorKey, []) == [];
    ReduceFromReference(VendorKey, [], items);
    assert [] + items == items;
  }

  // ---------------------------------------------------------------------------
  // Partition laws of the reference

  /** Every item lands in exactly one group: the groups' contents are a
      rearrangement of the input. */
  lemma {:induction false} ReferenceIsPermutation(key: JsValue -> string, items: seq<JsValue>)
    ensures multiset(Flatten(ReferenceGroups(key, items))) == multiset(items)
    decreases |items|
  {
    if |items| > 0 {
      var p := items[..|items| - 1];
      var x := items[|items| - 1];
      assert items == p + [x];
      ReferenceIsPermutation(key, p);
      InsertExtends(key, p, x);
    }
  }

  lemma {:induction false} GroupsForItems(key: JsValue -> string, ks: seq<string>, items: seq<JsValue>)
    ensures forall g :: g in GroupsFor(key, ks, items) ==> g.items == ItemsWithKey(key, items, g.key)
    decreases |ks|
  {
    if |ks| > 0 {
      GroupsForItems(key, ks[1..], items);
    }
  }

  /** The groups are keyed by the distinct keys of the input, each key once,
      and every group holds exactly the items carrying its key. */
  lemma ReferenceKeys(key: JsValue -> string, items: seq<JsValue>)
    ensures Keys(ReferenceGroups(key, items)) == DistinctKeys(key, items)
    ensures Distinct(Keys(ReferenceGroups(key, items)))
    ensures forall g :: g in ReferenceGroups(key, items) ==> g.items == ItemsWithKey(key, items, g.key)
    ensures forall g, y :: g in ReferenceGroups(key, items) && y in g.items ==> key(y) == g.key
  {
    GroupsForItems(key, DistinctKeys(key, items), items);
  }

  /** The `i`-th reference group is the `i`-th distinct key with its items. */
  lemma GroupsAt(key: JsValue -> string, items: seq<JsValue>)
    ensures |ReferenceGroups(key, items)| == |DistinctKeys(key, items)|
    ensures forall i :: 0 <= i < |DistinctKeys(key, items)| ==>
      ReferenceGroups(key, items)[i] == Group(DistinctKeys(key, items)[i], ItemsWithKey(key, items, DistinctKeys(key, items)[i]))
  {
    var gs := ReferenceGroups(key, items);
    ReferenceKeys(key, items);
    assert forall i :: 0 <= i < |gs| ==> gs[i] in gs && gs[i].key == Keys(gs)[i];
  }

  /** First-appearance order: the keys seen in any prefix of the input are a
      prefix of the final key order. */
  lemma {:induction false} KeysGrowByPrefix(key: JsValue -> string, items: seq<JsValue>, m: nat)
    requires m <= |items|
    ensures DistinctKeys(key, items[..m]) <= DistinctKeys(key, items)
    decreases |items| - m
  {
    if m < |items| {
      KeysGrowByPrefix(key, items, m + 1);
      KeysAppend(key, items[..m], items[m]);
      assert items[..m + 1] == items[..m] + [items[m]];
    } else {
      assert items[..m] == items;
    }
  }

  // ---------------------------------------------------------------------------
  // Object.keys order

  /** A canonical array index: decimal digits without a leading zero, below 2^32 - 1. */
  predicate IsArrayIndex(k: string) {
    |k| > 0 && AllDigits(k, 10) && (k[0] != '0' || |k| == 1) && DigitsValue(k, 10) < 0xFFFF_FFFF
  }

  function IndexValue(g: Group): nat {
    DigitsValue(g.key, 10)
  }

  /** Ascending by index value, each group against the next. */
  predicate SortedByIndex(gs: seq<Group>) {
    forall i :: 0 <= i < |gs| - 1 ==> IndexValue(gs[i]) <= IndexValue(gs[i + 1])
  }

  function InsertByIndex(g: Group, sorted: seq<Group>): (r: seq<Group>)
    requires SortedByIndex(sorted)
    ensures multiset(r) == multiset(sorted) + multiset{g}
    ensures SortedByIndex(r)
    ensures |r| > 0 && (r[0] == g || (|sorted| > 0 && r[0] == sorted[0]))
  {
    if |sorted| == 0 then [g]
    else if IndexValue(g) <= IndexValue(sorted[0]) then [g] + sorted
    else
      var rest := InsertByIndex(g, sorted[1..]);
      assert sorted == [sorted[0]] + sorted[1..];
      [sorted[0]] + rest
  }

  function SortByIndex(gs: seq<Group>): (r: seq<Group>)
    ensures multiset(r) == multiset(gs)
    ensures SortedByIndex(r)
  {
    if |gs| == 0 then []
    else
      assert gs == [gs[0]] + gs[1..];
      InsertByIndex(gs[0], SortByIndex(gs[1..]))
  }

  function IndexGroups(gs: seq<Group>): (r: seq<Group>)
    ensures forall g :: g in r <==> g in gs && IsArrayIndex(g.key)
    ensures (forall i :: 0 <= i < |gs| ==> !IsArrayIndex(gs[i].key)) ==> r == []
  {
    if |gs| == 0 then []
    else (if IsArrayIndex(gs[0].key) then [gs[0]] else []) + IndexGroups(gs[1..])
  }

  function NamedGroups(gs: seq<Group>): (r: seq<Group>)
    ensures forall g :: g in r <==> g in gs && !IsArrayIndex(g.key)
    ensures (forall i :: 0 <= i < |gs| ==> !IsArrayIndex(gs[i].key)) ==> r == gs
  {
    if |gs| == 0 then []
    else (if IsArrayIndex(gs[0].key) then [] else [gs[0]]) + NamedGroups(gs[1..])
  }

  lemma SortedIndexFirst(gs: seq<Group>)
    ensures forall g :: g in SortByIndex(IndexGroups(gs)) <==> g in gs && IsArrayIndex(g.key)
    ensures (exists i :: 0 <= i < |gs| && IsArrayIndex(gs[i].key)) ==>
      |SortByIndex(IndexGroups(gs))| > 0 && IsArrayIndex(SortByIndex(IndexGroups(gs))[0].key)
    ensures (forall i :: 0 <= i < |gs| ==> !IsArrayIndex(gs[i].key)) ==> SortByIndex(IndexGroups(gs)) == []
  {
    var index := SortByIndex(IndexGroups(gs));
    assert forall g :: g in index <==> g in multiset(IndexGroups(gs));
    if exists i :: 0 <= i < |gs| && IsArrayIndex(gs[i].key) {
      var i :| 0 <= i < |gs| && IsArrayIndex(gs[i].key);
      assert gs[i] in IndexGroups(gs);
      assert gs[i] in index;
      assert index[0] in index;
    }
  }

  /** `Object.keys(groupedByVendor)`: array-index keys first in ascending
      numeric order, then the other keys in insertion order. */
  function KeyOrder(gs: seq<Group>): (r: seq<Group>)
    ensures forall g :: g in r <==> g in gs
    ensures (exists i :: 0 <= i < |gs| && IsArrayIndex(gs[i].key)) ==> |r| > 0 && IsArrayIndex(r[0].key)
    ensures (forall i :: 0 <= i < |gs| ==> !IsArrayIndex(gs[i].key)) ==> r == gs
  {
    SortedIndexFirst(gs);
    SortByIndex(IndexGroups(gs)) + NamedGroups(gs)
  }
}
