/** The voucher vendor adapter (services/voucher-vendor.js). Every operation
    authorizes afresh; every request body and every reply field goes through
    the encrypted envelope. Orders are pulled one item at a time, a failed pull
    becoming an inline error entry; stock is checked one item at a time and
    each item is classified valid or invalid. */
module VoucherVendor {
  import opened JsValues
  import opened Transport
  import opened Envelope

  const AuthorizationFailed := "Voucher vendor authorization failed"
  const NoItemsProvided := "No items provided for voucher placeOrder"
  const NoValidItems := "No valid items to place voucher order"

  /** The vendor's replies. The token request carries only configured
      credentials; `pull` and `stock` receive the position of the call within
      its loop and the encrypted payload sent, so every call may be answered
      differently. */
  datatype Net = Net(
    token: Response,
    brands: JsValue -> Response,
    pull: (nat, JsValue) -> Response,
    stock: (nat, JsValue) -> Response)

  /** The reply to the token request grants a token:
      `response.data.code === '0000' && response.data.status === 'success'`. */
  predicate TokenIssued(reply: Response) {
    reply.Ok? && Lookup(reply.data, "code") == Str("0000") && Lookup(reply.data, "status") == Str("success")
  }

  /** `authorize()`: the token is the deciphered, unparsed `data` of the reply;
      every failure, including a failed request, is rethrown as one message. */
  function Authorize(c: Cipher, reply: Response): (r: Completion<JsValue>)
    ensures r.Returned? <==> TokenIssued(reply)
    ensures r.Returned? ==> r.value == DecryptPayload(c, Lookup(reply.data, "data"), false)
    ensures r.Threw? ==> r.message == AuthorizationFailed
  {
    if TokenIssued(reply) then Returned(DecryptPayload(c, Lookup(reply.data, "data"), false))
    else Threw(AuthorizationFailed)
  }

  /** The decrypted, parsed `response.data?.data` of a reply. */
  function Decrypted(c: Cipher, data: JsValue): JsValue {
    DecryptPayload(c, Lookup(data, "data"), true)
  }

  // ---------------------------------------------------------------------------
  // getProducts

  /** The brand-list request body: `{}` without a brand product code, and the
      code with its `OttRequired` flag (default `'N'`) otherwise. */
  function ProductsRequest(brandProductCode: JsValue, ottRequired: JsValue): (r: JsValue)
    ensures !Truthy(brandProductCode) ==> r == Obj(map[])
    ensures Truthy(brandProductCode) ==> r.Obj? && r.props.Keys == {"BrandProductCode", "OttRequired"}
    ensures Truthy(brandProductCode) ==> Lookup(r, "BrandProductCode") == brandProductCode
    ensures Truthy(brandProductCode) && ottRequired.Undefined? ==> Lookup(r, "OttRequired") == Str("N")
    ensures Truthy(brandProductCode) && !ottRequired.Undefined? ==> Lookup(r, "OttRequired") == ottRequired
  {
    var ott := if ottRequired.Undefined? then Str("N") else ottRequired;
    if Truthy(brandProductCode) then Obj(map["BrandProductCode" := brandProductCode, "OttRequired" := ott])
    else Obj(map[])
  }

  /** `Array.isArray(d) ? d : [d]` */
  function AsList(d: JsValue): seq<JsValue> {
    if d.Arr? then d.elems else [d]
  }

  /** `getProducts(BrandProductCode, OttRequired)`. */
  function GetProducts(c: Cipher, net: Net, brandProductCode: JsValue, ottRequired: JsValue): (r: Completion<seq<JsValue>>)
    ensures !TokenIssued(net.token) ==> r == Threw(AuthorizationFailed)
    ensures TokenIssued(net.token) ==>
      var reply := net.brands(EncryptPayload(c, ProductsRequest(brandProductCode, ottRequired)));
      (r.Returned? <==> reply.Ok?)
      && (reply.TransportError? ==> r == Threw(reply.message))
    ensures r.Returned? ==>
      var reply := net.brands(EncryptPayload(c, ProductsRequest(brandProductCode, ottRequired)));
      reply.Ok? && (Decrypted(c, reply.data).Arr? ==> Arr(r.value) == Decrypted(c, reply.data))
      && (!Decrypted(c, reply.data).Arr? ==> r.value == [Decrypted(c, reply.data)])
  {
    match Authorize(c, net.token)
    case Threw(m) => Threw(m)
    case Returned(_) =>
      match net.brands(EncryptPayload(c, ProductsRequest(brandProductCode, ottRequired)))
      case TransportError(m) => Threw(m)
      case Ok(data) => Returned(AsList(Decrypted(c, data)))
  }

  /** The brand list survives the envelope: when the vendor answers with the
      enciphered JSON of a list, `getProducts` returns exactly that list. */
  lemma ProductsRoundTrip(c: Cipher, net: Net, brandProductCode: JsValue, ottRequired: JsValue, brands: seq<JsValue>)
    requires Deciphers(c) && ParsesBack(c) && Serialisable(Arr(brands)) && TokenIssued(net.token)
    requires net.brands(EncryptPayload(c, ProductsRequest(brandProductCode, ottRequired)))
      == Ok(Obj(map["data" := EncryptPayload(c, Arr(brands))]))
    ensures GetProducts(c, net, brandProductCode, ottRequired) == Returned(brands)
  {
    DecryptUndoesEncrypt(c, Arr(brands));
  }

  // ---------------------------------------------------------------------------
  // placeOrder

  /** The voucher order fields of one item, `mapToVoucherRequest(item)`. */
  datatype VoucherRequest = VoucherRequest(
    brandProductCode: JsValue,
    denomination: JsValue,
    quantity: JsValue,
    externalOrderId: JsValue)

  /** Lower-case spellings win for the denomination and the quantity; for the
      order id the capitalised spelling wins. */
  function MapToVoucherRequest(item: JsValue): (r: VoucherRequest)
    ensures r.brandProductCode == Lookup(item, "BrandProductCode")
    ensures Truthy(Lookup(item, "denomination")) ==> r.denomination == Lookup(item, "denomination")
    ensures !Truthy(Lookup(item, "denomination")) ==> r.denomination == Lookup(item, "Denomination")
    ensures Truthy(Lookup(item, "quantity")) ==> r.quantity == Lookup(item, "quantity")
    ensures !Truthy(Lookup(item, "quantity")) ==> r.quantity == Lookup(item, "Quantity")
    ensures Truthy(Lookup(item, "ExternalOrderId")) ==> r.externalOrderId == Lookup(item, "ExternalOrderId")
    ensures !Truthy(Lookup(item, "ExternalOrderId")) ==> r.externalOrderId == Lookup(item, "externalOrderId")
  {
    VoucherRequest(
      Lookup(item, "BrandProductCode"),
      Or(Lookup(item, "denomination"), Lookup(item, "Denomination")),
      Or(Lookup(item, "quantity"), Lookup(item, "Quantity")),
      Or(Lookup(item, "ExternalOrderId"), Lookup(item, "externalOrderId")))
  }

  /** The plaintext of one pull request. */
  function PullPayload(req: VoucherRequest): JsValue {
    Obj(map[
      "BrandProductCode" := req.brandProductCode,
      "Denomination" := req.denomination,
      "Quantity" := req.quantity,
      "ExternalOrderId" := req.externalOrderId])
  }

  /** An item is ordered when `(item.quantity || item.Quantity) > 0`. */
  predicate Orderable(item: JsValue) {
    GreaterThanZero(Or(Lookup(item, "quantity"), Lookup(item, "Quantity")))
  }

  /** `xs.filter(item => keep(item))` for a predicate that reads a property
      of the item: the first nullish item makes the callback throw. */
  function Keep(keep: JsValue -> bool, xs: seq<JsValue>): (r: Completion<seq<JsValue>>)
    ensures r.Returned? <==> forall i :: 0 <= i < |xs| ==> !Nullish(xs[i])
    ensures r.Returned? ==> |r.value| <= |xs|
    ensures r.Returned? ==> forall y :: y in r.value ==> y in xs && keep(y)
    ensures r.Returned? ==> forall i :: 0 <= i < |xs| && keep(xs[i]) ==> xs[i] in r.value
  {
    if |xs| == 0 then Returned([])
    else if Nullish(xs[0]) then Threw(ReadError(xs[0], "quantity"))
    else match Keep(keep, xs[1..])
      case Threw(m) => Threw(m)
      case Returned(rest) =>
        assert xs == [xs[0]] + xs[1..];
        Returned(if keep(xs[0]) then [xs[0]] + rest else rest)
  }

  /** The filter works item by item: filtering a concatenation concatenates
      the filtered parts, so kept items stay in input order. */
  lemma {:induction false} KeepAppend(keep: JsValue -> bool, a: seq<JsValue>, b: seq<JsValue>)
    requires Keep(keep, a).Returned? && Keep(keep, b).Returned?
    ensures Keep(keep, a + b) == Returned(Keep(keep, a).value + Keep(keep, b).value)
    decreases |a|
  {
    if |a| == 0 {
      assert a + b == b;
      assert Keep(keep, a).value == [];
      assert [] + Keep(keep, b).value == Keep(keep, b).value;
    } else {
      var x, tail := a[0], a[1..];
      assert a == [x] + tail;
      assert !Nullish(x) && Keep(keep, tail).Returned?;
      KeepAppend(keep, tail, b);
      KeepAppendCons(keep, x, tail, b);
    }
  }

  /** The inductive step of `KeepAppend`: one more item in front of `a`. */
  lemma KeepAppendCons(keep: JsValue -> bool, x: JsValue, tail: seq<JsValue>, b: seq<JsValue>)
    requires !Nullish(x) && Keep(keep, tail).Returned? && Keep(keep, b).Returned?
    requires Keep(keep, tail + b) == Returned(Keep(keep, tail).value + Keep(keep, b).value)
    ensures Keep(keep, [x] + tail + b) == Returned(Keep(keep, [x] + tail).value + Keep(keep, b).value)
  {
    var ra := Keep(keep, tail).value;
    var rb := Keep(keep, b).value;
    KeepCons(keep, x, tail);
    AppendAssociates([x], tail, b);
    KeepCons(keep, x, tail + b);
    if keep(x) {
      AppendAssociates([x], ra, rb);
    }
  }

  lemma AppendAssociates<T>(x: seq<T>, y: seq<T>, z: seq<T>)
    ensures x + (y + z) == (x + y) + z
  {
  }

  /** One step of the filter: a non-nullish head is kept or dropped by `keep`. */
  lemma KeepCons(keep: JsValue -> bool, x: JsValue, xs: seq<JsValue>)
    requires !Nullish(x) && Keep(keep, xs).Returned?
    ensures Keep(keep, [x] + xs) == Returned(if keep(x) then [x] + Keep(keep, xs).value else Keep(keep, xs).value)
  {
    assert ([x] + xs)[0] == x && ([x] + xs)[1..] == xs;
  }

  /** The filter throws at the first nullish item, with the error reading
      `quantity` off that item, whatever follows it. */
  lemma {:induction false} KeepThrowsAtFirstNullish(keep: JsValue -> bool, xs: seq<JsValue>, j: nat)
    requires j < |xs| && Nullish(xs[j])
    requires forall i :: 0 <= i < j ==> !Nullish(xs[i])
    ensures Keep(keep, xs) == Threw(ReadError(xs[j], "quantity"))
    decreases j
  {
    if j > 0 {
      assert forall i :: 0 <= i < j - 1 ==> xs[1..][i] == xs[i + 1];
      KeepThrowsAtFirstNullish(keep, xs[1..], j - 1);
    }
  }

  /** `items.filter(item => (item.quantity || item.Quantity) > 0)` */
  function FilterOrderable(xs: seq<JsValue>): Completion<seq<JsValue>> {
    Keep(Orderable, xs)
  }

  /** The inline entry recorded for an item whose pull failed. */
  function FailureEntry(item: JsValue, message: string): JsValue {
    Obj(map["error" := Bool(true), "sku" := Lookup(item, "sku"), "message" := Str(message)])
  }

  /** `Voucher error: ${ErrorMessage || 'Unknown error'}` */
  function VendorErrorMessage(reply: JsValue): string {
    "Voucher error: " + JsString(Or(Lookup(reply, "ErrorMessage"), Str("Unknown error")))
  }

  /** The entry for the `k`-th pulled item: the decrypted reply, or a failure
      entry when the request throws, when the reply cannot be read, or when
      it reports an `ErrorCode`. */
  function PullOne(c: Cipher, pull: (nat, JsValue) -> Response, k: nat, item: JsValue): (r: JsValue)
    ensures pull(k, EncryptPayload(c, PullPayload(MapToVoucherRequest(item)))).TransportError? ==>
      r == FailureEntry(item, pull(k, EncryptPayload(c, PullPayload(MapToVoucherRequest(item)))).message)
    ensures pull(k, EncryptPayload(c, PullPayload(MapToVoucherRequest(item)))).Ok? ==>
      var d := Decrypted(c, pull(k, EncryptPayload(c, PullPayload(MapToVoucherRequest(item)))).data);
      (Nullish(d) ==> r == FailureEntry(item, ReadError(d, "ErrorCode")))
      && (!Nullish(d) && Truthy(Lookup(d, "ErrorCode")) ==> r == FailureEntry(item, VendorErrorMessage(d)))
      && (!Nullish(d) && !Truthy(Lookup(d, "ErrorCode")) ==> r == d)
  {
    match pull(k, EncryptPayload(c, PullPayload(MapToVoucherRequest(item))))
    case TransportError(m) => FailureEntry(item, m)
    case Ok(data) =>
      var d := Decrypted(c, data);
      if Nullish(d) then FailureEntry(item, ReadError(d, "ErrorCode"))
      else if Truthy(Lookup(d, "ErrorCode")) then FailureEntry(item, VendorErrorMessage(d))
      else d
  }

  /** The pull loop from position `k` on, `acc` holding the entries so far. */
  function PullFrom(c: Cipher, pull: (nat, JsValue) -> Response, valid: seq<JsValue>, k: nat, acc: seq<JsValue>): (r: seq<JsValue>)
    requires k <= |valid| && |acc| == k
    ensures |r| == |valid|
    ensures r[..k] == acc
    ensures forall i :: k <= i < |valid| ==> r[i] == PullOne(c, pull, i, valid[i])
    decreases |valid| - k
  {
    if k == |valid| then acc
    else PullFrom(c, pull, valid, k + 1, acc + [PullOne(c, pull, k, valid[k])])
  }

  /** `placeOrder({ city, items })`: authorize, reject a missing or empty item
      list, keep the items with a positive quantity, reject when none is left,
      then pull each kept item in order. */
  function PlaceOrder(c: Cipher, net: Net, items: JsValue): (r: Completion<seq<JsValue>>)
    ensures !TokenIssued(net.token) ==> r == Threw(AuthorizationFailed)
    ensures TokenIssued(net.token) && (!Truthy(items) || items == Arr([])) ==> r == Threw(NoItemsProvided)
    ensures r.Returned? ==> TokenIssued(net.token) && items.Arr? && FilterOrderable(items.elems).Returned?
    ensures r.Returned? ==>
      var valid := FilterOrderable(items.elems).value;
      |valid| > 0 && |r.value| == |valid|
      && forall i :: 0 <= i < |valid| ==> r.value[i] == PullOne(c, net.pull, i, valid[i])
    ensures TokenIssued(net.token) && items.Arr? && FilterOrderable(items.elems) == Returned([]) && items != Arr([]) ==>
      r == Threw(NoValidItems)
    ensures (TokenIssued(net.token) && items.Arr? && FilterOrderable(items.elems).Returned?
      && |FilterOrderable(items.elems).value| > 0) ==> r.Returned?
    ensures TokenIssued(net.token) && items.Arr? && FilterOrderable(items.elems).Threw? ==>
      r == Threw(FilterOrderable(items.elems).message)
    ensures TokenIssued(net.token) && Truthy(items) && !items.Arr? && Lookup(items, "length") != Num(0) ==>
      r == Threw(NotAFunction("items.filter"))
  {
    match Authorize(c, net.token)
    case Threw(m) => Threw(m)
    case Returned(_) =>
      // `items.length === 0`: an empty array, or an object whose own `length` is 0
      if !Truthy(items) || (items.Arr? && |items.elems| == 0) || Lookup(items, "length") == Num(0) then Threw(NoItemsProvided)
      else if !items.Arr? then Threw(NotAFunction("items.filter"))
      else match FilterOrderable(items.elems)
        case Threw(m) => Threw(m)
        case Returned(valid) =>
          if |valid| == 0 then Threw(NoValidItems)
          else Returned(PullFrom(c, net.pull, valid, 0, []))
  }

  /** Every way `placeOrder` can end: with the pulled entries, or with one of
      its three messages, a `TypeError` from `items.filter` on a non-array, or
      the filter's own error on a nullish item. */
  lemma PlaceOrderOutcomes(c: Cipher, net: Net, items: JsValue)
    ensures var r := PlaceOrder(c, net, items);
      r.Returned?
      || r.message in {AuthorizationFailed, NoItemsProvided, NoValidItems, NotAFunction("items.filter")}
      || (items.Arr? && FilterOrderable(items.elems) == Threw(r.message))
  {
  }

  /** Failure isolation inside one order: when the vendor answers only the
      `j`-th pull differently, only the `j`-th entry can change. */
  lemma PullFailureIsolated(c: Cipher, net: Net, other: Net, items: JsValue, j: nat)
    requires other.token == net.token
    requires forall k: nat, p :: k != j ==> other.pull(k, p) == net.pull(k, p)
    requires PlaceOrder(c, net, items).Returned?
    ensures PlaceOrder(c, other, items).Returned?
    ensures |PlaceOrder(c, other, items).value| == |PlaceOrder(c, net, items).value|
    ensures forall i :: 0 <= i < |PlaceOrder(c, net, items).value| && i != j ==>
      PlaceOrder(c, other, items).value[i] == PlaceOrder(c, net, items).value[i]
  {
    var valid := FilterOrderable(items.elems).value;
    forall i | 0 <= i < |valid| && i != j
      ensures PullOne(c, other.pull, i, valid[i]) == PullOne(c, net.pull, i, valid[i])
    {
      var p := EncryptPayload(c, PullPayload(MapToVoucherRequest(valid[i])));
      assert other.pull(i, p) == net.pull(i, p);
    }
  }

  // ---------------------------------------------------------------------------
  // validateInventory

  /** An item's stock verdict, carrying the entry pushed onto its list. */
  datatype Verdict = InStock(entry: JsValue) | OutOfStock(entry: JsValue)

  /** The values `for (const item of items)` visits: array elements, or the
      characters of a string; anything else is not iterable. */
  function Iterate(items: JsValue): (r: Completion<seq<JsValue>>)
    ensures items.Arr? ==> r == Returned(items.elems)
    ensures items.Str? ==> r.Returned? && |r.value| == |items.s|
    ensures !items.Arr? && !items.Str? ==> r.Threw?
  {
    match items
    case Arr(xs) => Returned(xs)
    case Str(s) => Returned(Characters(s))
    case _ => Threw(NotIterable(items))
  }

  /** The `TypeError` message of `for…of` over a value that is not iterable. */
  function NotIterable(items: JsValue): string {
    if Nullish(items) then NullishName(items) + " is not iterable (cannot read property Symbol(Symbol.iterator))"
    else "items is not iterable"
  }

  /** The one-character strings of `s`, in order. */
  function Characters(s: string): (r: seq<JsValue>)
    ensures |r| == |s|
  {
    if |s| == 0 then [] else [Str([s[0]])] + Characters(s[1..])
  }

  /** The plaintext of one stock request. */
  function StockRequest(brandProductCode: JsValue, denomination: JsValue): JsValue {
    Obj(map["BrandProductCode" := brandProductCode, "Denomination" := denomination])
  }

  /** The positive integer `parseInt` reads from the reply's `AvailableQuantity`,
      when the reply is truthy, the field is truthy and that integer exists. */
  function AvailableQuantity(d: JsValue): Option<int> {
    var aq := Lookup(d, "AvailableQuantity");
    if Truthy(d) && Truthy(aq) then
      match ParseInt(JsString(aq))
      case Some(n) => if n > 0 then Some(n) else None
      case None => None
    else None
  }

  /** One stock check: the request for the `k`-th item and the classification
      of the decrypted reply. A failed request aborts the whole validation. */
  function Probe(c: Cipher, stock: (nat, JsValue) -> Response, k: nat, item: JsValue): (r: Completion<Verdict>)
    ensures r.Threw? <==> Nullish(item) || stock(k, EncryptPayload(c, StockRequest(Lookup(item, "BrandProductCode"), Lookup(item, "Denomination")))).TransportError?
    ensures r.Returned? ==>
      var d := Decrypted(c, stock(k, EncryptPayload(c, StockRequest(Lookup(item, "BrandProductCode"), Lookup(item, "Denomination")))).data);
      (r.value.InStock? <==> AvailableQuantity(d).Some?)
      && Lookup(r.value.entry, "BrandProductCode") == Lookup(item, "BrandProductCode")
      && Lookup(r.value.entry, "Denomination") == Lookup(item, "Denomination")
      && (r.value.InStock? ==> Lookup(r.value.entry, "availableQuantity") == Num(AvailableQuantity(d).value)
                               && AvailableQuantity(d).value > 0)
  {
    if Nullish(item) then Threw(DestructureError("BrandProductCode", "item", item))
    else
      var code := Lookup(item, "BrandProductCode");
      var denomination := Lookup(item, "Denomination");
      match stock(k, EncryptPayload(c, StockRequest(code, denomination)))
      case TransportError(m) => Threw(m)
      case Ok(data) => Returned(Classify(code, denomination, Decrypted(c, data)))
  }

  /** The verdict on the decrypted stock reply `d` for the product `code`, `denomination`. */
  function Classify(code: JsValue, denomination: JsValue, d: JsValue): (v: Verdict)
    ensures v.InStock? <==> AvailableQuantity(d).Some?
    ensures Lookup(v.entry, "BrandProductCode") == code && Lookup(v.entry, "Denomination") == denomination
    ensures v.InStock? ==>
      Lookup(v.entry, "availableQuantity") == Num(AvailableQuantity(d).value) && AvailableQuantity(d).value > 0
  {
    match AvailableQuantity(d)
    case Some(n) =>
      InStock(Obj(map[
        "BrandProductCode" := code,
        "Denomination" := denomination,
        "availableQuantity" := Num(n),
        "brandName" := Lookup(d, "BrandName")]))
    case None => OutOfStock(Obj(map["BrandProductCode" := code, "Denomination" := denomination]))
  }

  /** `{ valid, invalidProducts }` */
  datatype StockReport = StockReport(valid: seq<JsValue>, invalidProducts: seq<JsValue>)

  /** The validation loop from position `k` on, pushing onto the two lists;
      `check` is the per-item stock check. */
  function StockFrom(check: (nat, JsValue) -> Completion<Verdict>, xs: seq<JsValue>, k: nat, valid: seq<JsValue>, invalid: seq<JsValue>): Completion<StockReport>
    decreases |xs| - k
  {
    if k >= |xs| then Returned(StockReport(valid, invalid))
    else match check(k, xs[k])
      case Threw(m) => Threw(m)
      case Returned(InStock(e)) => StockFrom(check, xs, k + 1, valid + [e], invalid)
      case Returned(OutOfStock(e)) => StockFrom(check, xs, k + 1, valid, invalid + [e])
  }

  /** The stock check the adapter performs for each item. */
  function StockCheck(c: Cipher, stock: (nat, JsValue) -> Response): (nat, JsValue) -> Completion<Verdict> {
    (k: nat, item: JsValue) => Probe(c, stock, k, item)
  }

  /** `validateInventory(items)`. */
  function ValidateInventory(c: Cipher, net: Net, items: JsValue): (r: Completion<StockReport>)
    ensures !TokenIssued(net.token) ==> r == Threw(AuthorizationFailed)
    ensures r.Returned? ==> TokenIssued(net.token) && Iterate(items).Returned?
    ensures TokenIssued(net.token) && Iterate(items).Threw? ==> r == Threw(Iterate(items).message)
    ensures TokenIssued(net.token) && Iterate(items).Returned? ==>
      (r.Returned? <==> VerdictsFrom(StockCheck(c, net.stock), Iterate(items).value, 0).Returned?)
    ensures r.Returned? ==> |r.value.valid| + |r.value.invalidProducts| == |Iterate(items).value|
    ensures r.Returned? ==>
      var vs := VerdictsFrom(StockCheck(c, net.stock), Iterate(items).value, 0);
      vs.Returned? && r.value == StockReport(Valid(vs.value), Invalid(vs.value))
  {
    match Authorize(c, net.token)
    case Threw(m) => Threw(m)
    case Returned(_) =>
      match Iterate(items)
      case Threw(m) => Threw(m)
      case Returned(xs) =>
        StockLoopPartitions(StockCheck(c, net.stock), xs, 0, [], []);
        StockLoopIsSplit(StockCheck(c, net.stock), xs, 0, [], []);
        assert forall ys: seq<JsValue> :: [] + ys == ys;
        StockFrom(StockCheck(c, net.stock), xs, 0, [], [])
  }

  // Reference: all verdicts first, then split them.

  /** The verdicts from position `k` on; the first failed check ends the walk. */
  function VerdictsFrom(check: (nat, JsValue) -> Completion<Verdict>, xs: seq<JsValue>, k: nat): (r: Completion<seq<Verdict>>)
    ensures r.Returned? ==> |r.value| == |xs| - k || (k >= |xs| && r.value == [])
    ensures r.Returned? ==> forall i :: 0 <= i < |r.value| ==> k + i < |xs| && check(k + i, xs[k + i]) == Returned(r.value[i])
    decreases |xs| - k
  {
    if k >= |xs| then Returned([])
    else match check(k, xs[k])
      case Threw(m) => Threw(m)
      case Returned(v) =>
        match VerdictsFrom(check, xs, k + 1)
        case Threw(m) => Threw(m)
        case Returned(vs) => Returned([v] + vs)
  }

  function Valid(vs: seq<Verdict>): seq<JsValue> {
    if |vs| == 0 then []
    else (if vs[0].InStock? then [vs[0].entry] else []) + Valid(vs[1..])
  }

  function Invalid(vs: seq<Verdict>): seq<JsValue> {
    if |vs| == 0 then []
    else (if vs[0].OutOfStock? then [vs[0].entry] else []) + Invalid(vs[1..])
  }

  function Entries(vs: seq<Verdict>): seq<JsValue> {
    if |vs| == 0 then [] else [vs[0].entry] + Entries(vs[1..])
  }

  /** Every verdict lands on exactly one of the two lists. */
  lemma {:induction false} SplitCounts(vs: seq<Verdict>)
    ensures |Valid(vs)| + |Invalid(vs)| == |vs|
    ensures multiset(Valid(vs)) + multiset(Invalid(vs)) == multiset(Entries(vs))
  {
    if |vs| > 0 {
      SplitCounts(vs[1..]);
    }
  }

  lemma SplitStep(v: Verdict, vs: seq<Verdict>)
    ensures Valid([v] + vs) == (if v.InStock? then [v.entry] else []) + Valid(vs)
    ensures Invalid([v] + vs) == (if v.OutOfStock? then [v.entry] else []) + Invalid(vs)
  {
    assert ([v] + vs)[1..] == vs;
  }

  /** The push loop computes exactly the split of the reference verdicts. */
  lemma {:induction false} StockLoopIsSplit(check: (nat, JsValue) -> Completion<Verdict>, xs: seq<JsValue>, k: nat, valid: seq<JsValue>, invalid: seq<JsValue>)
    ensures StockFrom(check, xs, k, valid, invalid) ==
      match VerdictsFrom(check, xs, k)
      case Threw(m) => Threw(m)
      case Returned(vs) => Returned(StockReport(valid + Valid(vs), invalid + Invalid(vs)))
    decreases |xs| - k
  {
    if k >= |xs| {
      assert valid + [] == valid && invalid + [] == invalid;
    } else {
      var p := check(k, xs[k]);
      if p.Returned? {
        var v := p.value;
        var valid' := if v.InStock? then valid + [v.entry] else valid;
        var invalid' := if v.InStock? then invalid else invalid + [v.entry];
        assert StockFrom(check, xs, k, valid, invalid) == StockFrom(check, xs, k + 1, valid', invalid');
        StockLoopIsSplit(check, xs, k + 1, valid', invalid');
        var rest := VerdictsFrom(check, xs, k + 1);
        if rest.Returned? {
          SplitStep(v, rest.value);
          var vr, ir := Valid(rest.value), Invalid(rest.value);
          if v.InStock? {
            AppendAssociates(valid, [v.entry], vr);
            assert [] + ir == ir;
          } else {
            AppendAssociates(invalid, [v.entry], ir);
            assert [] + vr == vr;
          }
        }
      }
    }
  }

  /** The loop sends each visited item to exactly one list. */
  lemma StockLoopPartitions(check: (nat, JsValue) -> Completion<Verdict>, xs: seq<JsValue>, k: nat, valid: seq<JsValue>, invalid: seq<JsValue>)
    requires k <= |xs|
    ensures StockFrom(check, xs, k, valid, invalid).Returned? ==>
      |StockFrom(check, xs, k, valid, invalid).value.valid| + |StockFrom(check, xs, k, valid, invalid).value.invalidProducts|
        == |valid| + |invalid| + |xs| - k
  {
    StockLoopIsSplit(check, xs, k, valid, invalid);
    var vs := VerdictsFrom(check, xs, k);
    if vs.Returned? {
      SplitCounts(vs.value);
    }
  }

  /** A numeric `AvailableQuantity` is in stock exactly when it is positive.
      Below 10^21 the entry carries that very number; from 10^21 on `String`
      writes it in exponent notation and `parseInt` keeps only its first digit. */
  lemma NumericQuantity(d: JsValue, n: int)
    requires d.Obj? && Lookup(d, "AvailableQuantity") == Num(n)
    ensures AvailableQuantity(d).Some? <==> n > 0
    ensures 0 < n < ExponentThreshold ==> AvailableQuantity(d) == Some(n)
    ensures n >= ExponentThreshold ==> AvailableQuantity(d) == Some(FirstDigit(n))
  {
    ParseIntRoundTrip(n);
  }
}
