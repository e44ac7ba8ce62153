/** The ecom vendor adapter (services/ecom-vendor.js): a bearer token fetched
    lazily and kept in the adapter instance, a fail-closed serviceability
    check, product and inventory pass-throughs, and order placement that
    either returns the vendor's order details or throws one fixed message. */
module EcomVendor {
  import opened JsValues
  import opened Transport

  const AuthorizationFailed := "Ecom vendor authorization failed"
  const ProductsFailed := "Failed to get products from Ecom vendor"
  const InventoryFailed := "Inventory validation failed for Ecom vendor"
  const OrderFailed := "Failed to place order with Ecom vendor"

  /** The adapter instance's mutable state: its token, `null` until authorized. */
  datatype Session = Session(token: JsValue)

  /** A new instance, as `getVendor('ecom')` builds one. */
  const Fresh := Session(Null)

  /** What an adapter call produced, and the instance state it left behind. */
  datatype Step<+T> = Step(outcome: Completion<T>, session: Session)

  /** The vendor's replies to the requests an instance can make. The token
      request carries only the configured credentials, so its reply is a plain
      value; the others are functions of what is sent. */
  datatype Net = Net(
    token: Response,
    serviceability: JsValue -> Response,
    products: Response,
    inventory: JsValue -> Response,
    orders: JsValue -> Response)

  /** The token-request reply carries a usable token: `response.data && response.data.token`. */
  predicate GrantsToken(reply: Response) {
    reply.Ok? && Truthy(reply.data) && Truthy(Lookup(reply.data, "token"))
  }

  /** `authorize()`: store the reply's token, or throw one fixed message and
      leave the instance as it was. */
  function Authorize(s: Session, reply: Response): (r: Step<()>)
    ensures r.outcome.Returned? <==> GrantsToken(reply)
    ensures r.outcome.Returned? ==> r.session.token == Lookup(reply.data, "token") && Truthy(r.session.token)
    ensures r.outcome.Threw? ==> r.session == s && r.outcome.message == AuthorizationFailed
  {
    if GrantsToken(reply) then Step(Returned(()), Session(Lookup(reply.data, "token")))
    else Step(Threw(AuthorizationFailed), s)
  }

  /** `if (!this.token) await this.authorize()`: the guard every operation starts with. */
  function EnsureToken(s: Session, reply: Response): (r: Step<()>)
    ensures Truthy(s.token) ==> r == Step(Returned(()), s)
    ensures r.outcome.Returned? ==> Truthy(r.session.token)
    ensures r.outcome.Threw? ==> r.session == s && r.outcome.message == AuthorizationFailed
  {
    if Truthy(s.token) then Step(Returned(()), s) else Authorize(s, reply)
  }

  /** `isServiceable(city)`: true only when the vendor answers with
      `serviceable === true`; any failure of the request itself reads as false.
      Only a failed authorization escapes as an exception. */
  function IsServiceable(s: Session, net: Net, city: JsValue): (r: Step<bool>)
    ensures r.outcome == Returned(true) <==>
      EnsureToken(s, net.token).outcome.Returned? && net.serviceability(city).Ok?
      && Lookup(net.serviceability(city).data, "serviceable") == Bool(true)
    ensures r.outcome.Threw? ==> !Truthy(s.token) && !GrantsToken(net.token) && r.outcome.message == AuthorizationFailed
  {
    var auth := EnsureToken(s, net.token);
    if auth.outcome.Threw? then Step(Threw(auth.outcome.message), auth.session)
    else match net.serviceability(city)
      case TransportError(_) => Step(Returned(false), auth.session)
      case Ok(data) => Step(Returned(Lookup(data, "serviceable") == Bool(true)), auth.session)
  }

  /** `getProducts()`: the reply's `products`, or `[]` when that is falsy. */
  function GetProducts(s: Session, net: Net): (r: Step<JsValue>)
    ensures r.outcome.Returned? <==>
      (Truthy(s.token) || GrantsToken(net.token)) && net.products.Ok? && !Nullish(net.products.data)
    ensures r.outcome.Returned? && Truthy(Lookup(net.products.data, "products")) ==>
      r.outcome.value == Lookup(net.products.data, "products")
    ensures r.outcome.Returned? && !Truthy(Lookup(net.products.data, "products")) ==> r.outcome.value == Arr([])
    ensures r.outcome.Threw? ==> r.outcome.message in {AuthorizationFailed, ProductsFailed}
  {
    var auth := EnsureToken(s, net.token);
    if auth.outcome.Threw? then Step(Threw(auth.outcome.message), auth.session)
    else match net.products
      case TransportError(_) => Step(Threw(ProductsFailed), auth.session)
      case Ok(data) =>
        // `response.data.products` throws a TypeError on a nullish body; the catch rethrows
        if Nullish(data) then Step(Threw(ProductsFailed), auth.session)
        else Step(Returned(Or(Lookup(data, "products"), Arr([]))), auth.session)
  }

  /** A truthy `products` list in the vendor's reply is handed back as it is. */
  lemma ProductsPassThrough(s: Session, net: Net, products: JsValue)
    requires Truthy(s.token) || GrantsToken(net.token)
    requires net.products == Ok(Obj(map["products" := products])) && Truthy(products)
    ensures GetProducts(s, net) == Step(Returned(products), EnsureToken(s, net.token).session)
  {
  }

  /** Asking again on the instance `getProducts` leaves behind gives the same
      answer and needs no second token request. */
  lemma ProductsRepeat(s: Session, net: Net, reply: Response)
    requires GetProducts(s, net).outcome.Returned?
    ensures GetProducts(GetProducts(s, net).session, net.(token := reply)) == GetProducts(s, net)
  {
  }

  /** The body of the inventory request: `{ productIds }`. */
  function InventoryRequest(productIds: JsValue): JsValue {
    Obj(map["productIds" := productIds])
  }

  /** `validateInventory(productIds)`: the vendor's reply body passed through,
      `{}` when that is falsy. */
  function ValidateInventory(s: Session, net: Net, productIds: JsValue): (r: Step<JsValue>)
    ensures r.outcome.Returned? <==>
      (Truthy(s.token) || GrantsToken(net.token)) && net.inventory(InventoryRequest(productIds)).Ok?
    ensures r.outcome.Returned? ==> Truthy(r.outcome.value)
    ensures r.outcome.Returned? && Truthy(net.inventory(InventoryRequest(productIds)).data) ==>
      r.outcome.value == net.inventory(InventoryRequest(productIds)).data
    ensures r.outcome.Returned? && !Truthy(net.inventory(InventoryRequest(productIds)).data) ==>
      r.outcome.value == Obj(map[])
    ensures r.outcome.Threw? ==> r.outcome.message in {AuthorizationFailed, InventoryFailed}
  {
    var auth := EnsureToken(s, net.token);
    if auth.outcome.Threw? then Step(Threw(auth.outcome.message), auth.session)
    else match net.inventory(InventoryRequest(productIds))
      case TransportError(_) => Step(Threw(InventoryFailed), auth.session)
      case Ok(data) => Step(Returned(Or(data, Obj(map[]))), auth.session)
  }

  /** A truthy inventory reply is handed back as it is. */
  lemma InventoryPassThrough(s: Session, net: Net, productIds: JsValue, body: JsValue)
    requires Truthy(s.token) || GrantsToken(net.token)
    requires net.inventory(InventoryRequest(productIds)) == Ok(body) && Truthy(body)
    ensures ValidateInventory(s, net, productIds) == Step(Returned(body), EnsureToken(s, net.token).session)
  {
  }

  /** Asking again on the instance `validateInventory` leaves behind gives the
      same answer and needs no second token request. */
  lemma InventoryRepeat(s: Session, net: Net, productIds: JsValue, reply: Response)
    requires ValidateInventory(s, net, productIds).outcome.Returned?
    ensures ValidateInventory(ValidateInventory(s, net, productIds).session, net.(token := reply), productIds)
      == ValidateInventory(s, net, productIds)
  {
  }

  /** One order line: `{ productId, quantity, externalOrderId }` read off the item. */
  function OrderLine(item: JsValue): JsValue {
    Obj(map[
      "productId" := Lookup(item, "productId"),
      "quantity" := Lookup(item, "quantity"),
      "externalOrderId" := Lookup(item, "externalOrderId")])
  }

  /** `items.map(...)`: one order line per item, in item order. */
  function OrderLines(items: seq<JsValue>): (lines: seq<JsValue>)
    ensures |lines| == |items|
    ensures forall i :: 0 <= i < |items| ==>
      Lookup(lines[i], "productId") == Lookup(items[i], "productId")
      && Lookup(lines[i], "quantity") == Lookup(items[i], "quantity")
      && Lookup(lines[i], "externalOrderId") == Lookup(items[i], "externalOrderId")
    ensures forall i :: 0 <= i < |items| ==> lines[i].Obj? && lines[i].props.Keys == {"productId", "quantity", "externalOrderId"}
  {
    if |items| == 0 then [] else [OrderLine(items[0])] + OrderLines(items[1..])
  }

  /** The order request body: `{ city, items: <order lines> }`. */
  function OrderPayload(city: JsValue, items: seq<JsValue>): JsValue {
    Obj(map["city" := city, "items" := Arr(OrderLines(items))])
  }

  /** The vendor accepted the order: its reply body has a truthy `success`. */
  predicate Accepted(reply: Response) {
    reply.Ok? && !Nullish(reply.data) && Truthy(Lookup(reply.data, "success"))
  }

  /** `placeOrder({city, items})`: the reply's `orderDetails` when the vendor
      reports success; every other outcome after authorization throws one
      fixed message. */
  function PlaceOrder(s: Session, net: Net, city: JsValue, items: seq<JsValue>): (r: Step<JsValue>)
    ensures r.outcome.Returned? <==>
      EnsureToken(s, net.token).outcome.Returned? && (forall i :: 0 <= i < |items| ==> !Nullish(items[i]))
      && Accepted(net.orders(OrderPayload(city, items)))
    ensures r.outcome.Returned? ==> r.outcome.value == Lookup(net.orders(OrderPayload(city, items)).data, "orderDetails")
    ensures r.outcome.Threw? && EnsureToken(s, net.token).outcome.Returned? ==> r.outcome.message == OrderFailed
  {
    var auth := EnsureToken(s, net.token);
    if auth.outcome.Threw? then Step(Threw(auth.outcome.message), auth.session)
    // `item.productId` on a nullish item throws inside the try, before any request
    else if exists i :: 0 <= i < |items| && Nullish(items[i]) then Step(Threw(OrderFailed), auth.session)
    else
      var reply := net.orders(OrderPayload(city, items));
      if Accepted(reply) then Step(Returned(Lookup(reply.data, "orderDetails")), auth.session)
      else Step(Threw(OrderFailed), auth.session)
  }

  /** The adapter's operations, for statements about all of them at once. */
  datatype Op =
    | CheckServiceable(city: JsValue)
    | ListProducts
    | CheckInventory(productIds: JsValue)
    | Order(orderCity: JsValue, items: seq<JsValue>)

  function Perform(s: Session, net: Net, op: Op): Step<JsValue> {
    match op
    case CheckServiceable(city) =>
      var r := IsServiceable(s, net, city);
      Step(if r.outcome.Returned? then Returned(Bool(r.outcome.value)) else Threw(r.outcome.message), r.session)
    case ListProducts => GetProducts(s, net)
    case CheckInventory(ids) => ValidateInventory(s, net, ids)
    case Order(city, items) => PlaceOrder(s, net, city, items)
  }

  /** Once an instance holds a token, no operation authorizes again: the
      outcome does not depend on the token reply, and the token is kept. */
  lemma TokenReused(s: Session, net: Net, reply: Response, op: Op)
    requires Truthy(s.token)
    ensures Perform(s, net, op) == Perform(s, net.(token := reply), op)
    ensures Perform(s, net, op).session == s
  {
  }

  /** Without a token, a refused authorization ends every operation with the
      authorization error before any other request, leaving the instance untouched. */
  lemma AuthorizationGates(s: Session, net: Net, other: Net, op: Op)
    requires !Truthy(s.token) && !GrantsToken(net.token) && other.token == net.token
    ensures Perform(s, net, op) == Step(Threw(AuthorizationFailed), s)
    ensures Perform(s, other, op) == Perform(s, net, op)
  {
  }

  /** Any operation that completes normally leaves the instance holding a token. */
  lemma CompletionLeavesToken(s: Session, net: Net, op: Op)
    requires Perform(s, net, op).outcome.Returned?
    ensures Truthy(Perform(s, net, op).session.token)
  {
  }
}
