/** The controller wired to the two adapter models: `getVendor` builds a fresh
    instance for every use, so each backend operation starts from a new ecom
    session (token `null`), and `getProducts`/`validateInventory` run on the
    instance `authorize()` has just prepared. */
module Live {
  import opened JsValues
  import opened Transport
  import opened Envelope
  import EcomVendor
  import VoucherVendor
  import opened MarketplaceController

  /** The replies of both vendors, and the voucher envelope's cipher. The ecom
      instance the serviceability gate builds makes its own token request,
      answered by `gateToken`; every other ecom instance is answered by
      `ecom.token`. */
  datatype Wiring = Wiring(ecom: EcomVendor.Net, gateToken: Response, cipher: Cipher, voucher: VoucherVendor.Net)

  /** A voucher result list as the JSON array the controller passes on. */
  function AsArray(r: Completion<seq<JsValue>>): Completion<JsValue> {
    match r
    case Returned(xs) => Returned(Arr(xs))
    case Threw(m) => Threw(m)
  }

  /** `{ valid, invalidProducts }` as a JSON object. */
  function AsStockReport(r: Completion<VoucherVendor.StockReport>): Completion<JsValue> {
    match r
    case Returned(report) => Returned(Obj(map[
      "valid" := Arr(report.valid),
      "invalidProducts" := Arr(report.invalidProducts)]))
    case Threw(m) => Threw(m)
  }

  /** The ecom instance after `authorize()` on a fresh one. */
  function Authorized(w: Wiring): EcomVendor.Session {
    EcomVendor.Authorize(EcomVendor.Fresh, w.ecom.token).session
  }

  function Forget(r: Completion<JsValue>): Completion<()> {
    match r
    case Returned(_) => Returned(())
    case Threw(m) => Threw(m)
  }

  /** `placeOrder({ city, items })` on a fresh instance of adapter `a`. */
  function OrderWith(w: Wiring, a: Adapter, city: JsValue, items: seq<JsValue>): Completion<JsValue> {
    match a
    case Ecom => EcomVendor.PlaceOrder(EcomVendor.Fresh, w.ecom, city, items).outcome
    case Voucher => AsArray(VoucherVendor.PlaceOrder(w.cipher, w.voucher, Arr(items)))
  }

  /** `authorize()` on a fresh instance. */
  function AuthorizeWith(w: Wiring, a: Adapter): Completion<()> {
    match a
    case Ecom => EcomVendor.Authorize(EcomVendor.Fresh, w.ecom.token).outcome
    case Voucher => Forget(VoucherVendor.Authorize(w.cipher, w.voucher.token))
  }

  /** `getProducts()` after `authorize()`; called with no arguments, so the
      voucher request carries no brand product code. */
  function ProductsWith(w: Wiring, a: Adapter): Completion<JsValue> {
    match a
    case Ecom => EcomVendor.GetProducts(Authorized(w), w.ecom).outcome
    case Voucher => AsArray(VoucherVendor.GetProducts(w.cipher, w.voucher, Undefined, Undefined))
  }

  /** `validateInventory(items)` after `authorize()`. */
  function InventoryWith(w: Wiring, a: Adapter, items: JsValue): Completion<JsValue> {
    match a
    case Ecom => EcomVendor.ValidateInventory(Authorized(w), w.ecom, items).outcome
    case Voucher => AsStockReport(VoucherVendor.ValidateInventory(w.cipher, w.voucher, items))
  }

  /** The adapters behind `getVendor`. */
  function Wire(w: Wiring): Backend {
    Backend(
      (city: JsValue) => EcomVendor.IsServiceable(EcomVendor.Fresh, w.ecom.(token := w.gateToken), city).outcome,
      (a: Adapter, city: JsValue, items: seq<JsValue>) => OrderWith(w, a, city, items),
      (a: Adapter) => AuthorizeWith(w, a),
      (a: Adapter) => ProductsWith(w, a),
      (a: Adapter, items: JsValue) => InventoryWith(w, a, items))
  }

  /** The gate fails closed: when the ecom vendor grants a token but the
      serviceability request itself fails, an order with an "ecom" item is
      refused with 400 and nothing is placed. */
  lemma UnreachableServiceabilityRefuses(w: Wiring, body: JsValue)
    requires HasItems(body) && HasEcomItems(Lookup(body, "items").elems) == Returned(true)
    requires EcomVendor.GrantsToken(w.gateToken) && w.ecom.serviceability(Lookup(body, "city")).TransportError?
    ensures PlaceOrder(Wire(w), body) == Run(Reply(400, Error(NotServiceable)), [ServiceabilityQuery(Lookup(body, "city"))])
  {
    GateBlocks(Wire(w), body);
  }

  /** A refused ecom authorization during the gate is not a "not serviceable"
      answer: the request fails with 500. */
  lemma RefusedTokenFailsGate(w: Wiring, body: JsValue)
    requires HasItems(body) && HasEcomItems(Lookup(body, "items").elems) == Returned(true)
    requires !EcomVendor.GrantsToken(w.gateToken)
    ensures PlaceOrder(Wire(w), body) == Run(Failure, [ServiceabilityQuery(Lookup(body, "city"))])
  {
  }

  /** The order-time ecom instance authorizes on its own: when its token
      request is refused, the ecom order fails with the authorization error,
      whatever the gate's instance was told. */
  lemma OrderTimeRefusal(w: Wiring, city: JsValue, items: seq<JsValue>)
    requires !EcomVendor.GrantsToken(w.ecom.token)
    ensures Record(Wire(w).placeOrder(Ecom, city, items)) == Failed(EcomVendor.AuthorizationFailed)
  {
    assert Wire(w).placeOrder(Ecom, city, items) == OrderWith(w, Ecom, city, items);
  }

  /** A failed ecom entry carries one of the ecom adapter's two fixed messages. */
  lemma EcomFailureMessages(w: Wiring, body: JsValue, i: nat)
    requires PlaceOrder(Wire(w), body).reply.status == 200
    requires i < |PlaceOrder(Wire(w), body).reply.body.entries|
    requires PlaceOrder(Wire(w), body).reply.body.entries[i].vendor == "ecom"
    requires PlaceOrder(Wire(w), body).reply.body.entries[i].result.Failed?
    ensures PlaceOrder(Wire(w), body).reply.body.entries[i].result.error
      in {EcomVendor.AuthorizationFailed, EcomVendor.OrderFailed}
  {
    EntryOf(Wire(w), body, i);
  }

  /** A placed voucher entry holds one result per orderable item of its group. */
  lemma VoucherEntryShape(w: Wiring, body: JsValue, i: nat)
    requires PlaceOrder(Wire(w), body).reply.status == 200
    requires i < |PlaceOrder(Wire(w), body).reply.body.entries|
    requires PlaceOrder(Wire(w), body).reply.body.entries[i].vendor == "voucher"
    requires PlaceOrder(Wire(w), body).reply.body.entries[i].result.Placed?
    ensures var group := Grouping.ItemsWithKey(Grouping.VendorKey, Lookup(body, "items").elems, "voucher");
      VoucherVendor.PlaceOrder(w.cipher, w.voucher, Arr(group)).Returned?
      && VoucherVendor.FilterOrderable(group).Returned?
      && PlaceOrder(Wire(w), body).reply.body.entries[i].result.data
        == Arr(VoucherVendor.PlaceOrder(w.cipher, w.voucher, Arr(group)).value)
      && |VoucherVendor.PlaceOrder(w.cipher, w.voucher, Arr(group)).value|
        == |VoucherVendor.FilterOrderable(group).value|
  {
    var e := PlaceOrder(Wire(w), body).reply.body.entries[i];
    var city := Lookup(body, "city");
    var group := Grouping.ItemsWithKey(Grouping.VendorKey, Lookup(body, "items").elems, "voucher");
    EntryOf(Wire(w), body, i);
    assert e.result == Record(Wire(w).placeOrder(Voucher, city, group));
    assert Wire(w).placeOrder(Voucher, city, group) == OrderWith(w, Voucher, city, group);
    VoucherPlaced(w, city, group);
  }

  lemma VoucherPlaced(w: Wiring, city: JsValue, group: seq<JsValue>)
    ensures OrderWith(w, Voucher, city, group).Returned? ==>
      VoucherVendor.PlaceOrder(w.cipher, w.voucher, Arr(group)).Returned?
      && VoucherVendor.FilterOrderable(group).Returned?
      && OrderWith(w, Voucher, city, group).value == Arr(VoucherVendor.PlaceOrder(w.cipher, w.voucher, Arr(group)).value)
      && |VoucherVendor.PlaceOrder(w.cipher, w.voucher, Arr(group)).value| == |VoucherVendor.FilterOrderable(group).value|
  {
    var outcome := VoucherVendor.PlaceOrder(w.cipher, w.voucher, Arr(group));
    if outcome.Returned? {
      assert Arr(group).elems == group;
    }
  }
}
