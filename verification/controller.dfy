/** The order gateway's HTTP handlers (controllers/marketplace-controller.js):
    the vendor registry, `placeOrder` (serviceability gate, grouping by vendor,
    one adapter call per group, per-vendor results), `validateInventory` and
    `getProducts`.

    The handlers are stated over a `Backend`: what each adapter operation
    completes with. A fresh adapter instance is built for every use, so these
    completions do not depend on one another; `Live` wires in the adapter
    models. `placeOrder` also returns the trace of adapter calls it made, so
    that "no order is placed" and "serviceability is never asked" can be
    stated. */
module MarketplaceController {
  import opened JsValues
  import opened Grouping

  /** The two adapters the registry knows. */
  datatype Adapter = Ecom | Voucher

  const InvalidVendor := "Invalid vendor"
  const InternalError := "Internal Server Error"
  const NotServiceable := "City not serviceable for ecom vendor"
  const MissingParameters := "vendor and items are required"
  const VendorOrderFailed := "Vendor order failed"

  /** The registry's names. */
  const KnownKeys: set<string> := {"ecom", "voucher"}

  function VendorName(a: Adapter): string {
    match a
    case Ecom => "ecom"
    case Voucher => "voucher"
  }

  /** `getVendor(vendorName)`: strict equality with one of the two names. */
  function GetVendor(name: JsValue): (r: Completion<Adapter>)
    ensures r.Returned? <==> name.Str? && name.s in KnownKeys
    ensures r.Returned? ==> name == Str(VendorName(r.value))
    ensures r.Threw? ==> r.message == InvalidVendor
  {
    if name == Str("ecom") then Returned(Ecom)
    else if name == Str("voucher") then Returned(Voucher)
    else Threw(InvalidVendor)
  }

  /** The registry resolves each adapter's own name to that adapter. */
  lemma GetVendorByName(a: Adapter)
    ensures GetVendor(Str(VendorName(a))) == Returned(a)
    ensures VendorName(a) in KnownKeys
  {
  }

  /** The adapter a known key resolves to. */
  function AdapterFor(key: string): Adapter
    requires key in KnownKeys
  {
    if key == "ecom" then Ecom else Voucher
  }

  /** What each adapter operation completes with, on a fresh instance:
      - `isServiceable(city)` of the ecom adapter;
      - `placeOrder({ city, items })`;
      - `authorize()`;
      - `getProducts()` and `validateInventory(items)`, after `authorize()`
        returned on the same instance. */
  datatype Backend = Backend(
    isServiceable: JsValue -> Completion<bool>,
    placeOrder: (Adapter, JsValue, seq<JsValue>) -> Completion<JsValue>,
    authorize: Adapter -> Completion<()>,
    getProducts: Adapter -> Completion<JsValue>,
    validateInventory: (Adapter, JsValue) -> Completion<JsValue>)

  /** The response body shapes: `{ error }`, `{ orderResults }`, or an
      adapter's result passed through. */
  datatype Body = Error(error: string) | OrderResults(entries: seq<Entry>) | Json(value: JsValue)

  datatype Reply = Reply(status: nat, body: Body)

  /** `{ success: true, data }` or `{ success: false, error }`. */
  datatype VendorResult = Placed(data: JsValue) | Failed(error: string)

  /** `orderResults[vendorName]` */
  datatype Entry = Entry(vendor: string, result: VendorResult)

  /** An adapter call `placeOrder` makes. */
  datatype Call = ServiceabilityQuery(city: JsValue) | OrderCall(adapter: Adapter, city: JsValue, items: seq<JsValue>)

  /** A handler's reply and the adapter calls it made, in order. */
  datatype Run = Run(reply: Reply, calls: seq<Call>)

  const Failure := Reply(500, Error(InternalError))

  // ---------------------------------------------------------------------------
  // placeOrder

  /** `items.some(item => item.vendor === 'ecom')`: the first item that is
      nullish or tagged "ecom" decides; reading the tag of a nullish item throws. */
  function HasEcomItems(xs: seq<JsValue>): (r: Completion<bool>)
    ensures r == Returned(false) <==>
      forall i :: 0 <= i < |xs| ==> !Nullish(xs[i]) && Lookup(xs[i], "vendor") != Str("ecom")
    ensures r == Returned(true) <==>
      exists i :: 0 <= i < |xs| && Lookup(xs[i], "vendor") == Str("ecom")
        && forall j :: 0 <= j < i ==> !Nullish(xs[j])
  {
    if |xs| == 0 then Returned(false)
    else if Nullish(xs[0]) then Threw(ReadError(xs[0], "vendor"))
    else if Lookup(xs[0], "vendor") == Str("ecom") then Returned(true)
    else
      var r := HasEcomItems(xs[1..]);
      assert forall i :: 0 < i < |xs| ==> xs[i] == xs[1..][i - 1];
      assert r == Returned(true) ==>
        exists i :: 0 < i < |xs| && Lookup(xs[i], "vendor") == Str("ecom") && (forall j :: 0 <= j < i ==> !Nullish(xs[j]));
      r
  }

  /** `err.message || 'Vendor order failed'` and its success counterpart. */
  function Record(outcome: Completion<JsValue>): (r: VendorResult)
    ensures r.Placed? <==> outcome.Returned?
    ensures r.Placed? ==> r.data == outcome.value
    ensures r.Failed? ==> r.error != ""
    ensures outcome.Threw? && outcome.message == "" ==> r == Failed(VendorOrderFailed)
    ensures outcome.Threw? && outcome.message != "" ==> r == Failed(outcome.message)
  {
    match outcome
    case Returned(v) => Placed(v)
    case Threw(m) => Failed(if m == "" then VendorOrderFailed else m)
  }

  /** The dispatch loop's result: entries recorded, calls made, and whether
      `getVendor` threw, which ends the request. */
  datatype Dispatched = Dispatched(entries: seq<Entry>, calls: seq<Call>, aborted: bool)

  /** `for (const vendorName of keys)`: resolve the adapter outside the
      per-vendor `try`, place the group's order, record the outcome. */
  function Dispatch(b: Backend, city: JsValue, gs: seq<Group>): (d: Dispatched)
    ensures |d.calls| == |d.entries| <= |gs|
    ensures !d.aborted ==> |d.entries| == |gs|
  {
    if |gs| == 0 then Dispatched([], [], false)
    else match GetVendor(Str(gs[0].key))
      case Threw(_) => Dispatched([], [], true)
      case Returned(a) =>
        var rest := Dispatch(b, city, gs[1..]);
        Dispatched(
          [Entry(gs[0].key, Record(b.placeOrder(a, city, gs[0].items)))] + rest.entries,
          [OrderCall(a, city, gs[0].items)] + rest.calls,
          rest.aborted)
  }

  /** `placeOrder(req, res)`. */
  function PlaceOrder(b: Backend, body: JsValue): (r: Run)
    ensures r.reply.status in {200, 400, 500}
    ensures r.reply.status == 500 ==> r.reply.body == Error(InternalError)
    ensures r.reply.status == 400 ==>
      r.reply.body == Error(NotServiceable) && r.calls == [ServiceabilityQuery(Lookup(body, "city"))]
    ensures r.reply.status == 200 ==> r.reply.body.OrderResults?
  {
    if Nullish(body) || !Lookup(body, "items").Arr? then Run(Failure, [])
    else
      var city := Lookup(body, "city");
      var xs := Lookup(body, "items").elems;
      match HasEcomItems(xs)
      case Threw(_) => Run(Failure, [])
      case Returned(hasEcom) =>
        var queried := if hasEcom then [ServiceabilityQuery(city)] else [];
        var gate := if hasEcom then b.isServiceable(city) else Returned(true);
        if gate.Threw? then Run(Failure, queried)
        else if !gate.value then Run(Reply(400, Error(NotServiceable)), queried)
        else
          var orders := Orders(b, city, xs);
          Run(orders.reply, queried + orders.calls)
  }

  /** Past the gate: group the items, then place one order per group. */
  function Orders(b: Backend, city: JsValue, xs: seq<JsValue>): (r: Run)
    ensures r.reply.status in {200, 500}
    ensures r.reply.status == 500 ==> r.reply.body == Error(InternalError)
    ensures r.reply.status == 200 ==> r.reply.body.OrderResults?
    ensures forall c :: c in r.calls ==> c.OrderCall?
  {
    match GroupByVendor(xs)
    case Threw(_) => Run(Failure, [])
    case Returned(groups) =>
      var d := Dispatch(b, city, KeyOrder(groups));
      DispatchCallsAreOrders(b, city, KeyOrder(groups));
      if d.aborted then Run(Failure, d.calls)
      else Run(Reply(200, OrderResults(d.entries)), d.calls)
  }

  /** With every item routable, the orders are those of the reference groups. */
  lemma OrdersRoutable(b: Backend, city: JsValue, xs: seq<JsValue>)
    requires AllRoutable(xs)
    ensures Orders(b, city, xs) == Run(
      Reply(200, OrderResults(Dispatch(b, city, VendorGroups(xs)).entries)),
      Dispatch(b, city, VendorGroups(xs)).calls)
  {
    RoutableGroups(xs);
    KnownKeysKeepOrder(VendorGroups(xs));
    DispatchKnown(b, city, VendorGroups(xs));
  }

  // ---------------------------------------------------------------------------
  // placeOrder: dispatch laws

  /** With every key known, each group is placed once, in order, and its
      outcome recorded under its key. */
  lemma {:induction false} DispatchKnown(b: Backend, city: JsValue, gs: seq<Group>)
    requires forall i :: 0 <= i < |gs| ==> gs[i].key in KnownKeys
    ensures !Dispatch(b, city, gs).aborted
    ensures forall i :: 0 <= i < |gs| ==>
      Dispatch(b, city, gs).entries[i] == Entry(gs[i].key, Record(b.placeOrder(AdapterFor(gs[i].key), city, gs[i].items)))
    ensures forall i :: 0 <= i < |gs| ==>
      Dispatch(b, city, gs).calls[i] == OrderCall(AdapterFor(gs[i].key), city, gs[i].items)
    decreases |gs|
  {
    if |gs| > 0 {
      assert GetVendor(Str(gs[0].key)) == Returned(AdapterFor(gs[0].key));
      DispatchKnown(b, city, gs[1..]);
      var d := Dispatch(b, city, gs);
      var rest := Dispatch(b, city, gs[1..]);
      assert d.entries == [Entry(gs[0].key, Record(b.placeOrder(AdapterFor(gs[0].key), city, gs[0].items)))] + rest.entries;
      assert d.calls == [OrderCall(AdapterFor(gs[0].key), city, gs[0].items)] + rest.calls;
      forall i | 0 < i < |gs|
        ensures gs[i] == gs[1..][i - 1] && d.entries[i] == rest.entries[i - 1] && d.calls[i] == rest.calls[i - 1]
      {
      }
    }
  }

  /** At the first unknown key the request ends: the groups before it have
      been placed, no later group is. */
  lemma {:induction false} DispatchUnknown(b: Backend, city: JsValue, gs: seq<Group>, j: nat)
    requires j < |gs| && gs[j].key !in KnownKeys
    requires forall i :: 0 <= i < j ==> gs[i].key in KnownKeys
    ensures Dispatch(b, city, gs).aborted
    ensures |Dispatch(b, city, gs).calls| == j
    ensures forall i :: 0 <= i < j ==>
      Dispatch(b, city, gs).calls[i] == OrderCall(AdapterFor(gs[i].key), city, gs[i].items)
    decreases j
  {
    if j > 0 {
      assert GetVendor(Str(gs[0].key)) == Returned(AdapterFor(gs[0].key));
      assert forall i :: 0 < i < |gs| ==> gs[i] == gs[1..][i - 1];
      DispatchUnknown(b, city, gs[1..], j - 1);
    }
  }

  /** Some group carries an unknown key: the loop reaches one and aborts. */
  lemma SomeUnknownAborts(b: Backend, city: JsValue, gs: seq<Group>, g: Group)
    requires g in gs && g.key !in KnownKeys
    ensures Dispatch(b, city, gs).aborted
  {
    var j := FirstUnknown(gs, 0);
    DispatchUnknown(b, city, gs, j);
  }

  /** The position of the first group from `k` on whose key is unknown. */
  function FirstUnknown(gs: seq<Group>, k: nat): (j: nat)
    requires k <= |gs|
    requires exists i :: k <= i < |gs| && gs[i].key !in KnownKeys
    requires forall i :: 0 <= i < k ==> gs[i].key in KnownKeys
    ensures k <= j < |gs| && gs[j].key !in KnownKeys
    ensures forall i :: 0 <= i < j ==> gs[i].key in KnownKeys
    decreases |gs| - k
  {
    if gs[k].key !in KnownKeys then k else FirstUnknown(gs, k + 1)
  }

  // ---------------------------------------------------------------------------
  // placeOrder: the handler's laws

  /** The request body's `items` array, when it has one. */
  predicate HasItems(body: JsValue) {
    !Nullish(body) && Lookup(body, "items").Arr?
  }

  /** The ecom gate is passed: no item is tagged "ecom", or the city is serviceable. */
  predicate GatePassed(b: Backend, body: JsValue)
    requires HasItems(body)
  {
    var xs := Lookup(body, "items").elems;
    HasEcomItems(xs) == Returned(false)
    || (HasEcomItems(xs) == Returned(true) && b.isServiceable(Lookup(body, "city")) == Returned(true))
  }

  /** Every item groups without throwing, under a tag the registry knows. */
  predicate AllRoutable(xs: seq<JsValue>) {
    forall i :: 0 <= i < |xs| ==> Groupable(VendorKey, xs[i]) && VendorKey(xs[i]) in KnownKeys
  }

  /** The gate: when an item is tagged "ecom" and the city is reported not
      serviceable, the reply is 400 and no order is placed; 400 arises in no
      other way. */
  lemma GateBlocks(b: Backend, body: JsValue)
    ensures PlaceOrder(b, body).reply.status == 400 <==>
      HasItems(body) && HasEcomItems(Lookup(body, "items").elems) == Returned(true)
      && b.isServiceable(Lookup(body, "city")) == Returned(false)
    ensures PlaceOrder(b, body).reply.status == 400 ==>
      forall c :: c in PlaceOrder(b, body).calls ==> !c.OrderCall?
  {
  }

  /** Serviceability is asked exactly when some item is tagged "ecom" (before
      any nullish item); with no "ecom" tag it is never asked. */
  lemma ServiceabilityAskedOnlyForEcom(b: Backend, body: JsValue)
    ensures (exists c :: c in PlaceOrder(b, body).calls && c.ServiceabilityQuery?) <==>
      HasItems(body) && HasEcomItems(Lookup(body, "items").elems) == Returned(true)
    ensures HasItems(body) && (forall i :: 0 <= i < |Lookup(body, "items").elems| ==>
        Lookup(Lookup(body, "items").elems[i], "vendor") != Str("ecom")) ==>
      forall c :: c in PlaceOrder(b, body).calls ==> !c.ServiceabilityQuery?
  {
    if HasItems(body) && HasEcomItems(Lookup(body, "items").elems) == Returned(true) {
      assert PlaceOrder(b, body).calls[0] == ServiceabilityQuery(Lookup(body, "city"));
    }
  }

  lemma {:induction false} DispatchCallsAreOrders(b: Backend, city: JsValue, gs: seq<Group>)
    ensures forall c :: c in Dispatch(b, city, gs).calls ==> c.OrderCall?
    decreases |gs|
  {
    if |gs| > 0 {
      DispatchCallsAreOrders(b, city, gs[1..]);
    }
  }

  /** No registry name reads as an array index. */
  lemma NamesAreNotIndices()
    ensures forall k :: k in KnownKeys ==> !IsArrayIndex(k)
  {
    assert DigitValue('e') >= 10 && DigitValue('v') >= 10;
    assert !IsArrayIndex("ecom") && !IsArrayIndex("voucher");
  }

  /** The keys of `groupedByVendor` are the registry's names only: no array
      index among them, so `Object.keys` keeps insertion order. */
  lemma KnownKeysKeepOrder(gs: seq<Group>)
    requires forall i :: 0 <= i < |gs| ==> gs[i].key in KnownKeys
    ensures KeyOrder(gs) == gs
  {
    NamesAreNotIndices();
  }

  /** The vendor groups of routable items all carry known keys. */
  lemma RoutableGroups(xs: seq<JsValue>)
    requires AllRoutable(xs)
    ensures GroupByVendor(xs) == Returned(VendorGroups(xs))
    ensures forall i :: 0 <= i < |VendorGroups(xs)| ==> VendorGroups(xs)[i].key in KnownKeys
  {
    GroupByVendorIsReference(xs);
    ReferenceKeys(VendorKey, xs);
    var gs := VendorGroups(xs);
    forall i | 0 <= i < |gs|
      ensures gs[i].key in KnownKeys
    {
      assert Keys(gs)[i] in DistinctKeys(VendorKey, xs);
    }
  }

  /** `placeOrder` answers 200 exactly when the body has an `items` array,
      the ecom gate is passed and every item groups under a known tag. */
  lemma SucceedsExactly(b: Backend, body: JsValue)
    ensures PlaceOrder(b, body).reply.status == 200 <==>
      HasItems(body) && GatePassed(b, body) && AllRoutable(Lookup(body, "items").elems)
  {
    if HasItems(body) && GatePassed(b, body) {
      var xs := Lookup(body, "items").elems;
      var city := Lookup(body, "city");
      if AllRoutable(xs) {
        OrdersRoutable(b, city, xs);
      } else {
        NotRoutableFails(b, city, xs);
      }
    }
  }

  /** An item that does not group, or groups under an unknown tag, fails the orders. */
  lemma NotRoutableFails(b: Backend, city: JsValue, xs: seq<JsValue>)
    requires !AllRoutable(xs)
    ensures Orders(b, city, xs).reply == Failure
  {
    GroupByVendorIsReference(xs);
    if GroupByVendor(xs).Returned? {
      var i :| 0 <= i < |xs| && !(Groupable(VendorKey, xs[i]) && VendorKey(xs[i]) in KnownKeys);
      var gs := VendorGroups(xs);
      ReferenceKeys(VendorKey, xs);
      var k := VendorKey(xs[i]);
      assert k in DistinctKeys(VendorKey, xs);
      var j :| 0 <= j < |gs| && Keys(gs)[j] == k;
      assert gs[j] in KeyOrder(gs);
      SomeUnknownAborts(b, city, KeyOrder(gs), gs[j]);
    }
  }

  /** On success the results are keyed by the distinct vendor tags in order
      of first appearance; each entry records the outcome of one `placeOrder`
      call made with exactly the items carrying that tag, in input order, and
      those calls close the trace. */
  lemma ResultsPerVendor(b: Backend, body: JsValue)
    requires PlaceOrder(b, body).reply.status == 200
    ensures HasItems(body) && AllRoutable(Lookup(body, "items").elems)
    ensures var xs := Lookup(body, "items").elems;
      var entries := PlaceOrder(b, body).reply.body.entries;
      var keys := DistinctKeys(VendorKey, xs);
      |entries| == |keys|
      && forall i :: 0 <= i < |keys| ==> keys[i] in KnownKeys && entries[i] == Entry(keys[i],
        Record(b.placeOrder(AdapterFor(keys[i]), Lookup(body, "city"), ItemsWithKey(VendorKey, xs, keys[i]))))
    ensures ClosesWithOrders(PlaceOrder(b, body).calls, Lookup(body, "city"), Lookup(body, "items").elems)
  {
    SucceedsExactly(b, body);
    var xs := Lookup(body, "items").elems;
    var city := Lookup(body, "city");
    PassedRunsOrders(b, body);
    OrdersPerVendor(b, city, xs);
    var orders := Orders(b, city, xs);
    EndsWith(Queried(body), orders.calls);
    ClosingCalls(PlaceOrder(b, body).calls, orders.calls, city, xs);
  }

  /** `calls` ends with one order call per distinct tag of `xs`, in order of
      first appearance, each made with exactly the items carrying that tag. */
  predicate ClosesWithOrders(calls: seq<Call>, city: JsValue, xs: seq<JsValue>) {
    var keys := DistinctKeys(VendorKey, xs);
    |keys| <= |calls|
    && forall i :: 0 <= i < |keys| ==>
      keys[i] in KnownKeys
      && calls[|calls| - |keys| + i] == OrderCall(AdapterFor(keys[i]), city, ItemsWithKey(VendorKey, xs, keys[i]))
  }

  /** Calls that end with the order phase's calls close with its orders. */
  lemma ClosingCalls(calls: seq<Call>, orders: seq<Call>, city: JsValue, xs: seq<JsValue>)
    requires |orders| <= |calls| && calls[|calls| - |orders|..] == orders
    requires var keys := DistinctKeys(VendorKey, xs);
      |orders| == |keys|
      && forall i :: 0 <= i < |keys| ==>
        keys[i] in KnownKeys && orders[i] == OrderCall(AdapterFor(keys[i]), city, ItemsWithKey(VendorKey, xs, keys[i]))
    ensures ClosesWithOrders(calls, city, xs)
  {
    var keys := DistinctKeys(VendorKey, xs);
    forall i | 0 <= i < |keys|
      ensures keys[i] in KnownKeys
        && calls[|calls| - |keys| + i] == OrderCall(AdapterFor(keys[i]), city, ItemsWithKey(VendorKey, xs, keys[i]))
    {
      assert calls[|calls| - |orders|..][i] == orders[i];
    }
  }

  lemma EndsWith<T>(p: seq<T>, s: seq<T>)
    ensures (p + s)[|p + s| - |s|..] == s
  {
  }

  /** The order phase of routable items: one entry and one call per distinct
      tag, in order of first appearance, each with that tag's items. */
  lemma OrdersPerVendor(b: Backend, city: JsValue, xs: seq<JsValue>)
    requires AllRoutable(xs)
    ensures var r := Orders(b, city, xs);
      var keys := DistinctKeys(VendorKey, xs);
      r.reply.status == 200 && |r.reply.body.entries| == |keys| && |r.calls| == |keys|
      && forall i :: 0 <= i < |keys| ==>
        keys[i] in KnownKeys
        && r.reply.body.entries[i] == Entry(keys[i], Record(b.placeOrder(AdapterFor(keys[i]), city, ItemsWithKey(VendorKey, xs, keys[i]))))
        && r.calls[i] == OrderCall(AdapterFor(keys[i]), city, ItemsWithKey(VendorKey, xs, keys[i]))
  {
    var gs := VendorGroups(xs);
    OrdersRoutable(b, city, xs);
    RoutableGroups(xs);
    DispatchKnown(b, city, gs);
    GroupsAt(VendorKey, xs);
  }

  /** The calls `placeOrder` makes before the order phase. */
  function Queried(body: JsValue): seq<Call>
    requires HasItems(body)
  {
    if HasEcomItems(Lookup(body, "items").elems) == Returned(true) then [ServiceabilityQuery(Lookup(body, "city"))] else []
  }

  /** Past the gate, `placeOrder` replies as its order phase does. */
  lemma PassedRunsOrders(b: Backend, body: JsValue)
    requires HasItems(body) && GatePassed(b, body)
    ensures var orders := Orders(b, Lookup(body, "city"), Lookup(body, "items").elems);
      PlaceOrder(b, body) == Run(orders.reply, Queried(body) + orders.calls)
  {
  }

  /** One entry of a successful reply: the outcome of the order placed with
      the items carrying its vendor tag. */
  lemma EntryOf(b: Backend, body: JsValue, i: nat)
    requires PlaceOrder(b, body).reply.status == 200
    requires i < |PlaceOrder(b, body).reply.body.entries|
    ensures HasItems(body)
    ensures var e := PlaceOrder(b, body).reply.body.entries[i];
      e.vendor in KnownKeys
      && e.result == Record(b.placeOrder(AdapterFor(e.vendor), Lookup(body, "city"),
        ItemsWithKey(VendorKey, Lookup(body, "items").elems, e.vendor)))
  {
    ResultsPerVendor(b, body);
  }

  /** Failure isolation across vendors: backends that differ only in how one
      adapter's orders complete give the same status, make the same calls,
      and record the same result for every other vendor. */
  lemma FailureIsolated(b: Backend, other: Backend, a: Adapter, body: JsValue)
    requires other.isServiceable == b.isServiceable
    requires forall a', city, items :: a' != a ==> other.placeOrder(a', city, items) == b.placeOrder(a', city, items)
    ensures PlaceOrder(other, body).reply.status == PlaceOrder(b, body).reply.status
    ensures PlaceOrder(other, body).calls == PlaceOrder(b, body).calls
    ensures PlaceOrder(b, body).reply.status == 200 ==>
      var mine := PlaceOrder(b, body).reply.body.entries;
      var theirs := PlaceOrder(other, body).reply.body.entries;
      |theirs| == |mine|
      && forall i :: 0 <= i < |mine| ==>
        theirs[i].vendor == mine[i].vendor && (mine[i].vendor != VendorName(a) ==> theirs[i] == mine[i])
  {
    if HasItems(body) && GatePassed(b, body) {
      assert GatePassed(other, body);
      PassedRunsOrders(b, body);
      PassedRunsOrders(other, body);
      OrdersIsolated(b, other, a, Lookup(body, "city"), Lookup(body, "items").elems);
    } else {
      assert PlaceOrder(other, body) == PlaceOrder(b, body);
    }
  }

  lemma OrdersIsolated(b: Backend, other: Backend, a: Adapter, city: JsValue, xs: seq<JsValue>)
    requires forall a', city, items :: a' != a ==> other.placeOrder(a', city, items) == b.placeOrder(a', city, items)
    ensures Orders(other, city, xs).calls == Orders(b, city, xs).calls
    ensures Orders(other, city, xs).reply.status == Orders(b, city, xs).reply.status
    ensures Orders(b, city, xs).reply.status == 200 ==>
      var mine := Orders(b, city, xs).reply.body.entries;
      var theirs := Orders(other, city, xs).reply.body.entries;
      |theirs| == |mine|
      && forall i :: 0 <= i < |mine| ==>
        theirs[i].vendor == mine[i].vendor && (mine[i].vendor != VendorName(a) ==> theirs[i] == mine[i])
  {
    match GroupByVendor(xs)
    case Threw(_) =>
    case Returned(groups) =>
      SameCalls(b, other, a, city, KeyOrder(groups));
  }

  lemma {:induction false} SameCalls(b: Backend, other: Backend, a: Adapter, city: JsValue, gs: seq<Group>)
    requires forall a', city, items :: a' != a ==> other.placeOrder(a', city, items) == b.placeOrder(a', city, items)
    ensures Dispatch(other, city, gs).calls == Dispatch(b, city, gs).calls
    ensures Dispatch(other, city, gs).aborted == Dispatch(b, city, gs).aborted
    ensures forall i :: 0 <= i < |Dispatch(b, city, gs).entries| ==>
      Dispatch(other, city, gs).entries[i].vendor == Dispatch(b, city, gs).entries[i].vendor
      && (Dispatch(b, city, gs).entries[i].vendor != VendorName(a) ==>
        Dispatch(other, city, gs).entries[i] == Dispatch(b, city, gs).entries[i])
  {
    SameTrace(b, other, city, gs);
    SameOtherEntries(b, other, a, city, gs);
  }

  /** The calls and the abort of the dispatch loop do not depend on how orders complete. */
  lemma {:induction false} SameTrace(b: Backend, other: Backend, city: JsValue, gs: seq<Group>)
    ensures Dispatch(other, city, gs).calls == Dispatch(b, city, gs).calls
    ensures Dispatch(other, city, gs).aborted == Dispatch(b, city, gs).aborted
    decreases |gs|
  {
    if |gs| > 0 {
      SameTrace(b, other, city, gs[1..]);
    }
  }

  lemma {:induction false} SameOtherEntries(b: Backend, other: Backend, a: Adapter, city: JsValue, gs: seq<Group>)
    requires forall a', city, items :: a' != a ==> other.placeOrder(a', city, items) == b.placeOrder(a', city, items)
    ensures AgreeExcept(Dispatch(b, city, gs).entries, Dispatch(other, city, gs).entries, VendorName(a))
    decreases |gs|
  {
    if |gs| > 0 {
      SameOtherEntries(b, other, a, city, gs[1..]);
      match GetVendor(Str(gs[0].key))
      case Threw(_) =>
      case Returned(v) =>
        var mine := Entry(gs[0].key, Record(b.placeOrder(v, city, gs[0].items)));
        var theirs := Entry(gs[0].key, Record(other.placeOrder(v, city, gs[0].items)));
        if gs[0].key != VendorName(a) {
          assert v != a;
          assert theirs == mine;
        }
        AgreeCons(mine, theirs, Dispatch(b, city, gs[1..]).entries, Dispatch(other, city, gs[1..]).entries, VendorName(a));
    }
  }

  /** Entry lists of equal length, tag for tag, that differ only in entries tagged `name`. */
  predicate AgreeExcept(mine: seq<Entry>, theirs: seq<Entry>, name: string) {
    |theirs| == |mine|
    && forall i :: 0 <= i < |mine| ==>
      theirs[i].vendor == mine[i].vendor && (mine[i].vendor != name ==> theirs[i] == mine[i])
  }

  lemma AgreeCons(m: Entry, t: Entry, ms: seq<Entry>, ts: seq<Entry>, name: string)
    requires AgreeExcept(ms, ts, name)
    requires t.vendor == m.vendor && (m.vendor != name ==> t == m)
    ensures AgreeExcept([m] + ms, [t] + ts, name)
  {
    var mine, theirs := [m] + ms, [t] + ts;
    forall i | 0 < i < |mine|
      ensures mine[i] == ms[i - 1] && theirs[i] == ts[i - 1]
    {
    }
  }

  /** An item whose tag is missing or unknown ends the request with 500, once
      the gate is passed and every item groups. */
  lemma UnknownVendorAborts(b: Backend, body: JsValue, i: nat)
    requires HasItems(body) && GatePassed(b, body)
    requires forall j :: 0 <= j < |Lookup(body, "items").elems| ==> Groupable(VendorKey, Lookup(body, "items").elems[j])
    requires i < |Lookup(body, "items").elems| && VendorKey(Lookup(body, "items").elems[i]) !in KnownKeys
    ensures PlaceOrder(b, body).reply == Failure
  {
    SucceedsExactly(b, body);
  }

  /** A tag that reads as an array index ("0", "42") is listed first by
      `Object.keys`, so the request ends before any order is placed. */
  lemma IndexTagPlacesNothing(b: Backend, body: JsValue, i: nat)
    requires HasItems(body) && GatePassed(b, body)
    requires forall j :: 0 <= j < |Lookup(body, "items").elems| ==> Groupable(VendorKey, Lookup(body, "items").elems[j])
    requires i < |Lookup(body, "items").elems| && IsArrayIndex(VendorKey(Lookup(body, "items").elems[i]))
    ensures PlaceOrder(b, body).reply == Failure
    ensures forall c :: c in PlaceOrder(b, body).calls ==> !c.OrderCall?
  {
    var xs := Lookup(body, "items").elems;
    IndexTagStopsOrders(b, Lookup(body, "city"), xs, i);
  }

  lemma IndexTagStopsOrders(b: Backend, city: JsValue, xs: seq<JsValue>, i: nat)
    requires forall j :: 0 <= j < |xs| ==> Groupable(VendorKey, xs[j])
    requires i < |xs| && IsArrayIndex(VendorKey(xs[i]))
    ensures Orders(b, city, xs) == Run(Failure, [])
  {
    GroupByVendorIsReference(xs);
    ReferenceKeys(VendorKey, xs);
    var gs := VendorGroups(xs);
    var k := VendorKey(xs[i]);
    assert k in DistinctKeys(VendorKey, xs);
    var j :| 0 <= j < |gs| && Keys(gs)[j] == k;
    var ordered := KeyOrder(gs);
    assert IsArrayIndex(ordered[0].key);
    NamesAreNotIndices();
    DispatchUnknown(b, city, ordered, 0);
  }

  /** The gate compares `item.vendor === 'ecom'` but grouping keys on
      `String(item.vendor)`: an item tagged with the array `["ecom"]` is
      ordered from the ecom adapter without any serviceability query. */
  lemma ArrayTagSkipsGate(b: Backend, city: JsValue, item: JsValue, body: JsValue)
    requires item == Obj(map["vendor" := Arr([Str("ecom")])])
    requires body == Obj(map["city" := city, "items" := Arr([item])])
    ensures PlaceOrder(b, body) == Run(
      Reply(200, OrderResults([Entry("ecom", Record(b.placeOrder(Ecom, city, [item])))])),
      [OrderCall(Ecom, city, [item])])
  {
    var xs := [item];
    ArrayTagIsEcom(item);
    assert HasEcomItems(xs) == Returned(false);
    assert Lookup(body, "items").elems == xs && Lookup(body, "city") == city;
    assert Queried(body) == [];
    PassedRunsOrders(b, body);
    SingleEcomOrder(b, city, item);
  }

  /** The order phase for one item tagged "ecom". */
  lemma SingleEcomOrder(b: Backend, city: JsValue, item: JsValue)
    requires Groupable(VendorKey, item) && VendorKey(item) == "ecom"
    ensures Orders(b, city, [item]) == Run(
      Reply(200, OrderResults([Entry("ecom", Record(b.placeOrder(Ecom, city, [item])))])),
      [OrderCall(Ecom, city, [item])])
  {
    assert AllRoutable([item]);
    SingleGroup(item);
    SingleKeyOrders(b, city, [item], "ecom");
    assert AdapterFor("ecom") == Ecom;
  }

  /** The order phase for routable items that all carry one tag `k`. */
  lemma SingleKeyOrders(b: Backend, city: JsValue, xs: seq<JsValue>, k: string)
    requires AllRoutable(xs) && k in KnownKeys && DistinctKeys(VendorKey, xs) == [k]
    ensures Orders(b, city, xs) == Run(
      Reply(200, OrderResults([Entry(k, Record(b.placeOrder(AdapterFor(k), city, ItemsWithKey(VendorKey, xs, k))))])),
      [OrderCall(AdapterFor(k), city, ItemsWithKey(VendorKey, xs, k))])
  {
    OrdersPerVendor(b, city, xs);
    var r := Orders(b, city, xs);
    var keys := DistinctKeys(VendorKey, xs);
    var items := ItemsWithKey(VendorKey, xs, k);
    assert keys[0] == k;
    var es := r.reply.body.entries;
    assert |es| == 1 && es[0] == Entry(k, Record(b.placeOrder(AdapterFor(k), city, items)));
    assert es == [es[0]];
    assert |r.calls| == 1 && r.calls[0] == OrderCall(AdapterFor(k), city, items);
    assert r.calls == [r.calls[0]];
    assert r.reply == Reply(200, OrderResults(es));
  }

  lemma ArrayTagIsEcom(item: JsValue)
    requires item == Obj(map["vendor" := Arr([Str("ecom")])])
    ensures Groupable(VendorKey, item) && VendorKey(item) == "ecom"
    ensures Lookup(item, "vendor") != Str("ecom")
  {
    assert Join(Arr([Str("ecom")]), 1) == "";
  }

  lemma SingleGroup(item: JsValue)
    requires Groupable(VendorKey, item)
    ensures DistinctKeys(VendorKey, [item]) == [VendorKey(item)]
    ensures ItemsWithKey(VendorKey, [item], VendorKey(item)) == [item]
  {
  }

  // ---------------------------------------------------------------------------
  // validateInventory and getProducts

  /** `validateInventory(req, res)`. */
  function ValidateInventory(b: Backend, body: JsValue): (r: Reply)
    ensures r.status in {200, 400, 500}
    ensures r.status == 400 <==>
      !Nullish(body) && (!Truthy(Lookup(body, "vendor")) || !Truthy(Lookup(body, "items")))
    ensures r.status == 400 ==> r.body == Error(MissingParameters)
    ensures r.status == 200 <==>
      !Nullish(body) && GetVendor(Lookup(body, "vendor")).Returned? && Truthy(Lookup(body, "items"))
      && b.authorize(GetVendor(Lookup(body, "vendor")).value).Returned?
      && b.validateInventory(GetVendor(Lookup(body, "vendor")).value, Lookup(body, "items")).Returned?
    ensures r.status == 200 ==>
      r.body == Json(b.validateInventory(GetVendor(Lookup(body, "vendor")).value, Lookup(body, "items")).value)
    ensures r.status == 500 && !Nullish(body) ==>
      r.body.Error? && (r.body.error == InvalidVendor
        || (GetVendor(Lookup(body, "vendor")).Returned? && (
          Threw(r.body.error) == b.authorize(GetVendor(Lookup(body, "vendor")).value)
          || Threw(r.body.error) == b.validateInventory(GetVendor(Lookup(body, "vendor")).value, Lookup(body, "items")))))
  {
    if Nullish(body) then Reply(500, Error(DestructureError("vendor", "req.body", body)))
    else
      var name := Lookup(body, "vendor");
      var items := Lookup(body, "items");
      if !Truthy(name) || !Truthy(items) then Reply(400, Error(MissingParameters))
      else match GetVendor(name)
        case Threw(m) => Reply(500, Error(m))
        case Returned(a) =>
          match b.authorize(a)
          case Threw(m) => Reply(500, Error(m))
          case Returned(_) =>
            match b.validateInventory(a, items)
            case Threw(m) => Reply(500, Error(m))
            case Returned(v) => Reply(200, Json(v))
  }

  /** A missing `vendor` or `items` is answered 400 without consulting any
      adapter: every backend gives the same reply. */
  lemma MissingParametersConsultNoAdapter(b: Backend, other: Backend, body: JsValue)
    requires !Nullish(body) && (!Truthy(Lookup(body, "vendor")) || !Truthy(Lookup(body, "items")))
    ensures ValidateInventory(b, body) == ValidateInventory(other, body) == Reply(400, Error(MissingParameters))
  {
  }

  /** `getProducts(req, res)`, given `req.query.vendor`. */
  function GetProducts(b: Backend, vendor: JsValue): (r: Reply)
    ensures r.status in {200, 500}
    ensures r.status == 200 <==>
      GetVendor(vendor).Returned? && b.authorize(GetVendor(vendor).value).Returned? && b.getProducts(GetVendor(vendor).value).Returned?
    ensures r.status == 200 ==> r.body == Json(b.getProducts(GetVendor(vendor).value).value)
    ensures !GetVendor(vendor).Returned? ==> r == Reply(500, Error(InvalidVendor))
    ensures GetVendor(vendor).Returned? && b.authorize(GetVendor(vendor).value).Threw? ==>
      r == Reply(500, Error(b.authorize(GetVendor(vendor).value).message))
  {
    match GetVendor(vendor)
    case Threw(m) => Reply(500, Error(m))
    case Returned(a) =>
      match b.authorize(a)
      case Threw(m) => Reply(500, Error(m))
      case Returned(_) =>
        match b.getProducts(a)
        case Threw(m) => Reply(500, Error(m))
        case Returned(v) => Reply(200, Json(v))
  }
}
