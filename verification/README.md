# Marketplace order gateway, modelled in Dafny

A model of the order gateway of the elixirclub marketplace API. The gateway takes a multi-vendor order, applies an ecom serviceability gate, groups the items by their `vendor` tag, and hands each group to one vendor adapter. It then reports a per-vendor success or failure.

There are two adapters:

- **ecom**: a bearer token fetched lazily, a fail-closed serviceability check, and order placement that returns the vendor's order details or throws one fixed message.
- **voucher**: authorizes on every call and sends every payload through an encrypted envelope. It pulls vouchers one item at a time, with a failed pull becoming an inline error entry, and classifies stock item by item.

Every network call is a parameter of the model, an oracle answering `Ok(body)` or `TransportError(message)`. The cipher and the JSON codec are oracles too. What remains is pure decision logic over sequences, and that is what the lemmas speak about.

The files:

- `js_values.dfy` (`JsValues`): the JavaScript semantics the decisions depend on:
  - truthiness, `||` and `?.` property reads;
  - `String(v)`;
  - `parseInt`;
  - the number coercion behind `x > 0`;
  - TypeError messages, and `Completion`, which stands for "returned a value" or "threw an Error with this message".
- `transport.dfy` (`Transport`): the oracle reply type.
- `envelope.dfy` (`Envelope`): `encryptPayload`/`decryptPayload` with their fail-soft shape (utils/encryption.js).
- `ecom_vendor.dfy` (`EcomVendor`): services/ecom-vendor.js. The instance's token is explicit state, threaded through every operation.
- `voucher_vendor.dfy` (`VoucherVendor`): services/voucher-vendor.js.
- `grouping.dfy` (`Grouping`): the `items.reduce` that builds `groupedByVendor`, and the order in which `Object.keys` lists its keys.
- `controller.dfy` (`MarketplaceController`): `getVendor` and the three handlers of controllers/marketplace-controller.js.
  - The handlers are stated over a `Backend`, meaning what each adapter operation completes with.
  - `placeOrder` also returns the trace of adapter calls it made.
- `live.dfy` (`Live`): the controller wired to the two adapter models, with a fresh instance per use, as `getVendor` builds them.

## Model

| member | source | states |
|---|---|---|
| `MarketplaceController.GetVendor` | controllers/marketplace-controller.js:4-8 | Resolves a name exactly when it is the string "ecom" or "voucher", and only to the adapter of that name. Every other value throws "Invalid vendor". |
| `MarketplaceController.GetVendorByName` | controllers/marketplace-controller.js:4-8 | Each adapter's own name resolves back to that adapter. |
| `MarketplaceController.HasEcomItems` | controllers/marketplace-controller.js:26 | `some` answers false iff no item is nullish and none is tagged "ecom". It answers true iff an "ecom" item comes before any nullish item. |
| `MarketplaceController.Record` | controllers/marketplace-controller.js:55-63 | An order that returned is recorded as placed with its data, and only such an order. One that threw with a non-empty message is recorded as failed with exactly that message; an empty message becomes "Vendor order failed". |
| `MarketplaceController.Dispatch` | controllers/marketplace-controller.js:47-64 | The loop makes one call per recorded entry and never more calls than groups. When it is not aborted, every group has an entry. |
| `MarketplaceController.PlaceOrder` | controllers/marketplace-controller.js:21-72 | The reply is 200, 400 or 500. A 500 always carries "Internal Server Error". A 400 carries the not-serviceable error and follows exactly one serviceability query. |
| `MarketplaceController.Orders` | controllers/marketplace-controller.js:36-66 | After the gate, only order calls are made, and the reply is 200 with results or 500. |
| `MarketplaceController.OrdersRoutable` | controllers/marketplace-controller.js:36-66 | When every item groups under a known tag, the dispatch runs over the reference partition, and the reply is 200 with its entries. |
| `MarketplaceController.DispatchKnown` | controllers/marketplace-controller.js:47-64 | With only known keys, each group is placed once, in key order, with its own items. The recorded entry is that call's outcome under that key. |
| `MarketplaceController.DispatchUnknown` | controllers/marketplace-controller.js:47-48 | At the first unknown key the request aborts. Exactly the groups before it have been placed, in order. |
| `MarketplaceController.SomeUnknownAborts` | controllers/marketplace-controller.js:47-48 | Any group with an unknown key aborts the dispatch. |
| `MarketplaceController.GateBlocks` | controllers/marketplace-controller.js:26-34 | The reply is 400 iff an "ecom" item is present and serviceability answers false. A 400 comes with no order call at all. |
| `MarketplaceController.ServiceabilityAskedOnlyForEcom` | controllers/marketplace-controller.js:26-34 | Serviceability is queried iff `some` finds an "ecom" item. With no "ecom" tag it is never queried. |
| `MarketplaceController.KnownKeysKeepOrder` | controllers/marketplace-controller.js:47 | With only registry names as keys, `Object.keys` keeps insertion order. |
| `MarketplaceController.NamesAreNotIndices` | controllers/marketplace-controller.js:47 | Neither registry name reads as an array index. |
| `MarketplaceController.RoutableGroups` | controllers/marketplace-controller.js:37-42 | When every item is routable, the reduce returns the reference partition, and all its keys are registry names. |
| `MarketplaceController.SucceedsExactly` | controllers/marketplace-controller.js:21-71 | The reply is 200 iff the body has an `items` array, the gate is passed, and every item groups under a known tag. |
| `MarketplaceController.NotRoutableFails` | controllers/marketplace-controller.js:37-48 | A nullish item, an inherited-name tag, or an unknown tag makes the order phase answer 500. |
| `MarketplaceController.ResultsPerVendor` | controllers/marketplace-controller.js:44-66 | On 200 the entries are keyed by the distinct tags in first-appearance order. Entry i records the order placed with exactly the items carrying tag i, in input order. These order calls close the trace. |
| `MarketplaceController.OrdersPerVendor` | controllers/marketplace-controller.js:36-66 | With routable items, the order phase answers 200 with one entry and one call per distinct tag, in order of first appearance. Each is made with exactly that tag's items. |
| `MarketplaceController.EntryOf` | controllers/marketplace-controller.js:44-64 | Each entry of a 200 reply is under a registry name and records the order placed with that name's items. |
| `MarketplaceController.FailureIsolated` | controllers/marketplace-controller.js:55-63 | Changing how one adapter's orders complete leaves the status and every call unchanged. It also leaves every other vendor's entry unchanged. |
| `MarketplaceController.OrdersIsolated` | controllers/marketplace-controller.js:44-64 | The same isolation for the order phase alone. |
| `MarketplaceController.SameCalls` | controllers/marketplace-controller.js:47-64 | The same isolation for the dispatch loop: calls, abort and the other vendors' entries do not depend on one adapter's outcomes. |
| `MarketplaceController.UnknownVendorAborts` | controllers/marketplace-controller.js:37-71 | Once the gate is passed and every item groups, a missing or unknown tag (a missing tag is "undefined") ends the request with 500 "Internal Server Error". |
| `MarketplaceController.IndexTagPlacesNothing` | controllers/marketplace-controller.js:37-48 | An array-index tag ends the request with 500 before any order call. |
| `MarketplaceController.IndexTagStopsOrders` | controllers/marketplace-controller.js:37-48 | The same statement for the order phase: it answers 500 with an empty trace. |
| `MarketplaceController.ArrayTagSkipsGate` | controllers/marketplace-controller.js:26-47 | An order with one item tagged `["ecom"]` is placed with the ecom adapter, with no serviceability query at all. The strict `=== 'ecom'` misses the tag that `String()` grouping maps to "ecom". |
| `MarketplaceController.ValidateInventory` | controllers/marketplace-controller.js:74-90 | The reply is 400 iff the body's `vendor` or `items` is falsy. It is 200 iff the name resolves and both `authorize` and `validateInventory` return, and then the body is that result. Every other 500 carries the thrown message. |
| `MarketplaceController.MissingParametersConsultNoAdapter` | controllers/marketplace-controller.js:78-80 | A missing parameter gets the same 400 from every backend, so no adapter is consulted. |
| `MarketplaceController.GetProducts` | controllers/marketplace-controller.js:10-19 | The reply is 200 iff the name resolves and `authorize` and `getProducts` return, and then the body is the products. An unknown name or a failed authorization is a 500 with its message. |
| `Grouping.Insert` | controllers/marketplace-controller.js:38-41 | One reduce step adds its key at the end iff the key is new. It adds exactly the item to the groups' contents. |
| `Grouping.DistinctKeys` | controllers/marketplace-controller.js:37-42 | The reference key list has no repeats, and it holds a key iff some item carries it. |
| `Grouping.ItemsWithKey` | controllers/marketplace-controller.js:37-42 | A reference group holds only input items carrying its key. |
| `Grouping.ReduceFromReference` | controllers/marketplace-controller.js:37-42 | From any reference prefix, the fold succeeds iff every remaining item groups. It then yields the reference partition of the whole input. |
| `Grouping.GroupByVendorIsReference` | controllers/marketplace-controller.js:37-42 | `items.reduce` returns iff every item is non-nullish with a non-inherited tag. It then returns the reference partition. |
| `Grouping.ReferenceIsPermutation` | controllers/marketplace-controller.js:37-42 | The groups' contents are a rearrangement of the input: each item lands in exactly one group. |
| `Grouping.ReferenceKeys` | controllers/marketplace-controller.js:37-42 | The group keys are the distinct tags, each once, and every group holds exactly the items with its tag. |
| `Grouping.GroupsAt` | controllers/marketplace-controller.js:37-42 | Group i is the i-th distinct tag with its items in input order. |
| `Grouping.KeysGrowByPrefix` | controllers/marketplace-controller.js:37-47 | The keys seen in any prefix of the input are a prefix of the key order (first-appearance order). |
| `Grouping.InsertByIndex` | controllers/marketplace-controller.js:47 | Inserting a group into an index-sorted list keeps it sorted and adds exactly that group. |
| `Grouping.SortByIndex` | controllers/marketplace-controller.js:47 | The result is sorted by index value and is a rearrangement of its input. |
| `Grouping.SortedIndexFirst` | controllers/marketplace-controller.js:47 | The sorted index keys are exactly the array-index keys. The first of them is an index whenever one exists, and the list is empty when none exists. |
| `Grouping.KeyOrder` | controllers/marketplace-controller.js:47 | `Object.keys` lists the same groups and puts an array-index key first whenever there is one. Without index keys it keeps insertion order. |
| `EcomVendor.Authorize` | services/ecom-vendor.js:13-29 | Succeeds iff the reply has a truthy `data.token`, and stores that token. Otherwise it throws "Ecom vendor authorization failed" and leaves the token as it was. |
| `EcomVendor.EnsureToken` | services/ecom-vendor.js:33 | A held token means no authorization and no change. After the guard returns, a token is held. |
| `EcomVendor.IsServiceable` | services/ecom-vendor.js:32-48 | True iff the token is obtained and the reply's `serviceable` is exactly `true`. A failed request reads as false. Only a failed authorization throws. |
| `EcomVendor.GetProducts` | services/ecom-vendor.js:51-64 | Returns iff a token is held or granted, the request succeeds and its body is not nullish. It then returns `products`, or `[]` when that is falsy. Every failure throws the authorization message or the fixed products message. |
| `EcomVendor.ProductsPassThrough` | services/ecom-vendor.js:52-59 | A truthy `products` in the reply comes back unchanged, on the instance the token guard leaves. |
| `EcomVendor.ProductsRepeat` | services/ecom-vendor.js:52-59 | Calling `getProducts` again on the instance it left gives the same result whatever a token request would now answer. |
| `EcomVendor.ValidateInventory` | services/ecom-vendor.js:67-82 | Returns iff a token is held or granted and the request succeeds. The result is then the reply body, or `{}` when that is falsy, so it is always truthy. Every failure throws the authorization message or the fixed inventory message. |
| `EcomVendor.InventoryPassThrough` | services/ecom-vendor.js:68-77 | A truthy inventory reply comes back unchanged, on the instance the token guard leaves. |
| `EcomVendor.InventoryRepeat` | services/ecom-vendor.js:68-77 | Calling `validateInventory` again on the instance it left gives the same result whatever a token request would now answer. |
| `EcomVendor.OrderLines` | services/ecom-vendor.js:89-96 | One order line per item, in order. Each line carries exactly `productId`, `quantity` and `externalOrderId`, read off its item. |
| `EcomVendor.PlaceOrder` | services/ecom-vendor.js:85-111 | Returns `orderDetails` iff the token is obtained, no item is nullish, and the vendor reports a truthy `success`. After authorization every other outcome throws "Failed to place order with Ecom vendor". |
| `EcomVendor.TokenReused` | services/ecom-vendor.js:33-86 | Once a token is held, no operation depends on the token reply, and every operation keeps the token. |
| `EcomVendor.AuthorizationGates` | services/ecom-vendor.js:13-33 | Without a token, a refused authorization ends every operation with the authorization error. The instance is untouched and no other request matters. |
| `EcomVendor.CompletionLeavesToken` | services/ecom-vendor.js:20-21 | Any operation that returns leaves the instance holding a token. |
| `VoucherVendor.Authorize` | services/voucher-vendor.js:15-35 | Succeeds iff the reply has code '0000' and status 'success', yielding the deciphered token. Everything else throws "Voucher vendor authorization failed". |
| `VoucherVendor.ProductsRequest` | services/voucher-vendor.js:41-44 | The brand request is `{}` without a brand product code. With one it is the code plus `OttRequired`, which defaults to 'N'. |
| `VoucherVendor.GetProducts` | services/voucher-vendor.js:38-63 | Without an issued token it throws the authorization message. With one, it returns iff the brand request succeeds, and a failed request rethrows that request's message. A decrypted array is returned as it is; any other decrypted value becomes a one-element list. |
| `VoucherVendor.ProductsRoundTrip` | services/voucher-vendor.js:47-62 | When the vendor answers with the encrypted JSON of a brand list, `getProducts` returns exactly that list, given the cipher and JSON assumptions. |
| `VoucherVendor.MapToVoucherRequest` | services/voucher-vendor.js:164-171 | `denomination` and `quantity` prefer the lower-case spelling. The order id prefers `ExternalOrderId`. |
| `VoucherVendor.Keep` | services/voucher-vendor.js:73 | The filter returns iff no item is nullish. It keeps exactly the items the predicate accepts and never grows the list. |
| `VoucherVendor.KeepAppend` | services/voucher-vendor.js:73 | Filtering distributes over concatenation, so kept items stay in input order. |
| `VoucherVendor.PullOne` | services/voucher-vendor.js:83-117 | A failed request, an unreadable reply, or a truthy `ErrorCode` gives `{error: true, sku, message}`. The message for an `ErrorCode` is "Voucher error: " + (ErrorMessage or 'Unknown error'). Otherwise the decrypted reply is returned. |
| `VoucherVendor.PullFrom` | services/voucher-vendor.js:79-120 | The loop yields one entry per kept item, in order. Entry i is the pull of item i. |
| `VoucherVendor.PlaceOrder` | services/voucher-vendor.js:66-121 | Authorization comes first. A falsy or empty item list throws "No items provided", a truthy non-array with a non-zero `length` throws the `items.filter` TypeError, and a nullish item rethrows the filter's error. With an issued token and an array whose filter keeps at least one item, it returns one entry per kept item, in order; when the filter keeps none it throws "No valid items". |
| `VoucherVendor.PlaceOrderOutcomes` | services/voucher-vendor.js:66-121 | `placeOrder` either returns or throws one of: the authorization message, "No items provided", "No valid items", the `items.filter` TypeError, or the filter's own error. |
| `VoucherVendor.KeepThrowsAtFirstNullish` | services/voucher-vendor.js:73 | The filter throws at the first nullish item, with the error of reading `quantity` off it, whatever follows. |
| `VoucherVendor.PullFailureIsolated` | services/voucher-vendor.js:94-117 | A different answer to the j-th pull changes only entry j. Later items are still pulled. |
| `VoucherVendor.Iterate` | services/voucher-vendor.js:130 | `for…of` visits exactly an array's elements, and one value per character of a string. Any other value throws. |
| `VoucherVendor.Probe` | services/voucher-vendor.js:130-157 | A stock check throws iff the item is nullish or the stock request fails. Otherwise the item is valid iff `parseInt(AvailableQuantity)` of the decrypted reply is a positive integer, and the valid entry carries that integer. Both kinds of entry carry the item's code and denomination. |
| `VoucherVendor.Classify` | services/voucher-vendor.js:148-157 | A decrypted stock reply is in stock iff its quantity reads as a positive integer, and the entry then carries that integer. Both kinds of entry carry the requested code and denomination. |
| `VoucherVendor.ValidateInventory` | services/voucher-vendor.js:124-161 | Authorization comes first, and a value `for…of` cannot visit rethrows its TypeError. Otherwise it returns iff every stock check returns. The two lists are then the in-order split of the per-item verdicts, and their lengths sum to the item count. |
| `VoucherVendor.VerdictsFrom` | services/voucher-vendor.js:130-158 | The reference verdict list has one verdict per item, each the check of that item at its position. |
| `VoucherVendor.SplitCounts` | services/voucher-vendor.js:148-157 | Splitting verdicts loses and duplicates nothing: lengths and contents add up. |
| `VoucherVendor.StockLoopIsSplit` | services/voucher-vendor.js:127-160 | The push loop computes exactly the split of the reference verdicts. |
| `VoucherVendor.StockLoopPartitions` | services/voucher-vendor.js:127-160 | From any point of the loop, each remaining item lands on exactly one list. |
| `VoucherVendor.NumericQuantity` | services/voucher-vendor.js:148-152 | A numeric `AvailableQuantity` is in stock iff it is positive. Below 10^21 the entry carries that very number. From 10^21 on, `String` writes it in exponent notation and the entry carries only its leading digit. |
| `JsValues.ParseIntRoundTrip` | services/voucher-vendor.js:148-152 | `parseInt(String(n))` is `n` when `n` is below 10^21 in magnitude. Beyond that, `String(n)` is in exponent form and `parseInt` reads only the signed leading digit. |
| `JsValues.LeadingDigits` | services/voucher-vendor.js:148 | `parseInt` consumes a maximal run of digits. |
| `Envelope.EncryptPayload` | utils/encryption.js:6-17 | A string is enciphered as it is. An object, array or `null` is enciphered as its JSON text. A boolean, number or `undefined` makes the cipher throw and comes back unchanged. |
| `Envelope.DecryptPayload` | utils/encryption.js:24-35 | Never throws. A result other than the input is the deciphered text, parsed when asked. When deciphering fails, or parsing is asked and fails, the input comes back unchanged. |
| `Envelope.DecryptUndoesEncrypt` | utils/encryption.js:6-35 | An object, array or `null` with no `undefined` inside survives encrypt-then-decrypt, assuming AES deciphers what it enciphered (`Deciphers`) and `JSON.parse` undoes `JSON.stringify` on such values (`ParsesBack`). |
| `Envelope.SealedString` | utils/encryption.js:6-35 | A string is not serialised. Decrypting it without parsing gives it back. With parsing (the default), a string that is not JSON comes back as the ciphertext itself, and one that is JSON comes back parsed. |
| `Live.UnreachableServiceabilityRefuses` | services/ecom-vendor.js:32-47 | The gate fails closed: a failed serviceability request gives 400 with no order placed. |
| `Live.RefusedTokenFailsGate` | services/ecom-vendor.js:13-33 | A refused ecom authorization during the gate gives 500 after the one query. |
| `Live.OrderTimeRefusal` | controllers/marketplace-controller.js:4-8 | `getVendor` builds a new ecom instance for the order, which authorizes on its own. When its token request is refused, the ecom entry fails with the authorization message, whatever the gate's instance was told. |
| `Live.EcomFailureMessages` | services/ecom-vendor.js:85-111 | A failed ecom entry carries one of the ecom adapter's two fixed messages. |
| `Live.VoucherEntryShape` | services/voucher-vendor.js:66-121 | A placed voucher entry is the adapter's result list for the voucher group, with one entry per orderable item. |

## Behaviours of the code worth knowing

- **Tag comparison.** The gate compares `item.vendor === 'ecom'` strictly, but grouping keys on `String(item.vendor)`. A tag that is the array `["ecom"]` therefore groups under `"ecom"` without triggering the gate (`MarketplaceController.ArrayTagSkipsGate`).
- **Inherited names.** A tag naming an `Object.prototype` member (`"constructor"`, `"toString"`, …) makes `acc[vendor].push` throw.
- **Array-index tags.** A tag that reads as an array index (`"0"`) is listed first by `Object.keys`. Its `getVendor` failure therefore ends the request before any order is placed.
- **Empty orders.** `placeOrder` answers 200 with empty results for an empty `items` list.
- **Missing tags.** An item without a `vendor` tag is grouped under `"undefined"`, and the request then fails with 500.
- **Unknown tags.** An unknown tag is found during dispatch. Groups listed before it have already been placed when the request fails.
- **Gate authorization.** A refused ecom authorization during the gate gives 500, not the "not serviceable" 400.
- **Ecom orders.** Ecom orders post `{city, items}`, each item mapped to `{productId, quantity, externalOrderId}`. No order id or transaction id is sent.
- **Ecom inventory.** Ecom inventory validation returns the vendor's reply body as it is, or `{}` when that body is falsy.
- **Ecom authorization.** Ecom authorization is a token request whose reply must carry a truthy `token`.
- **Large quantities.** `String` writes integers of 10^21 and more in exponent form, so `parseInt` reads only their leading digit.
- **Strings in the envelope.** `encryptPayload` enciphers a string without serialising it, so the default parsing `decryptPayload` hands back the ciphertext for a string that is not JSON.

## Left out

- AES-256-CBC and `JSON.parse`/`JSON.stringify`: the cipher and the codec are oracles. Their round trips are stated as assumptions (`Envelope.Deciphers`, `Envelope.ParsesBack`) and never proved.
- HTTP details: URLs, headers, credentials and status codes are left out. A non-2xx reply is a `TransportError` like any other axios rejection.
- Token replies: the ecom instance the serviceability gate builds is answered by `Live.Wiring.gateToken`. Every other fresh ecom instance is answered by the one reply in `Live.Wiring.ecom`, and every voucher token request by the one reply in `Live.Wiring.voucher`.
- Concurrency: `async`/`await` is sequential in the code and is modelled as recursion over sequences.
- Process and wiring: routes/marketplace-routes.js, server.js and dotenv are not modelled. Logging is not modelled either.
- services/base-vendor.js: its methods only throw "not implemented", and it is folded into the `Adapter` datatype.
- services/mock-ecom-vendor.js: a constant-returning test double that nothing imports.
- Numbers: only integers are modelled, and they are not rounded to doubles beyond 2^53. `Number(s)` reads fractions and exponent strings as NaN, and `parseInt` never meets a fraction it would truncate.
- Objects: objects are assumed not to override `toString`/`valueOf`. Built-in properties of strings and arrays are never read by `?.`.
- White space: the Unicode space separators beyond U+00A0, U+FEFF, U+2028 and U+2029 are not treated as white space.
- Thrown non-Errors: a thrown value that is not an Error (no `message`) is not modelled. Every failure carries a message string.
- VoucherVendor.Keep: the contract states membership and the length bound. It does not state the multiset inclusion; order and multiplicity follow from `KeepAppend` instead.
