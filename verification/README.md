# Storefront backend: a Dafny model of the request handlers

This project models the business rules of a small storefront REST backend.
Users place orders against *offers*. An offer is one manufacturer's priced,
stocked listing of a product, stored as a `ProductManufacturer` row. The
backend also keeps carts, payments, shipping records, addresses,
manufacturers, reviews and user accounts.

The relational store is one immutable `Store` value (`store.dfy`). It holds a
finite map per table plus one counter that supplies new row ids.
Each HTTP handler is a pure function:

- a write handler is `(Store, Caller, request fields) -> Outcome(store, code)`;
- a single-row read returns `Found(value)` or `Refused(code)`, and an admin
  listing returns `Found(ids)` or `Refused(Forbidden)`;
- a caller's own listing (orders, cart, addresses) returns a plain set of ids.

A `Caller` is the token identity together with its role claim. The role claim is
`Admin`, `User` or `Other`; a missing claim reads as "user".

The store invariant `Valid` covers:

- ids below the counter;
- offer prices positive and stocks not negative;
- the references between tables: offer to product and manufacturer, order to
  offer, shipping record to address, review to product (the delete guards keep
  most of them; see "Left out" for the two that hold only because product
  deletion is not modelled);
- the value ranges the handlers check;
- the at-most-one rules: one payment and one shipping record per order, one cart
  line per (user, offer), one review per (user, product), and e-mail addresses
  unique up to letter case, as the `email = %s` lookup compares them.

Every handler is proved to preserve `Valid`.

Request fields are `Option`s. Python's truthiness tests are modelled exactly:
`not x` is true for a missing field and for `0` or `""`, while `x is None` is
true only for a missing one. Each error path returns its own code and leaves the
store unchanged.

One module per route file: `Orders`, `Cart`, `Payments`, `ShippingRecords`,
`Offers`, `Addresses`, `Manufacturers`, `Reviews`, `Users`. In addition:

- `Ledger` accounts for stock across offers and orders. An offer's *supply* is
  its stock plus the units its non-cancelled orders hold. Placing an order
  conserves supply, and so does a user's cancellation. An admin's status change
  shifts it by exactly the change in what the order holds (nothing between two
  non-cancelled statuses); a delete lowers it by what the order held. The proofs are by
  induction over a recursive sum.
- `Scenarios` replays the sell-out-and-cancel sequence and the cart merge on a
  concrete store.

Behaviour worth noting:

- A user who tries to cancel an order that is already past Processing gets 400,
  not 403.
- The status value is validated before the order lookup. An invalid status on an
  unknown order is therefore 400, not 404.
- Cancelled, Shipped and Delivered are final for users only. An admin may set
  any of the five statuses on any order, including moving a Cancelled order
  back to Pending.
- A role claim other than "admin" or "user" is a third case. It is never
  treated as an admin. The order status update, which also compares against
  "user", answers 403 to it; everywhere else it has a user's rights
  (`Scenarios.OtherRoleReadsOwnOrder`).
- Two cart adds of 3 for the same offer merge into one line of 6 only when the
  stock is at least 6; otherwise the second add is 400, because the merged total
  is checked against the stock again.

Observations, proved as lemmas and kept as the code behaves:

- An admin can reopen a cancelled order, and the owner can then cancel it again.
  The order's quantity then goes back to stock twice, although it was taken
  only once (`Scenarios.AdminReopenAllowsDoubleRestore`).
- Deleting an order writes off the units it held (`Ledger.DeleteOrderWritesOffHeld`).
  The order's payment and shipping rows stay, and the joins hide them
  (`Payments.DeletedOrderHidesPayment`, `ShippingRecords.DeletedOrderHidesShipping`).
- Updating an address accepts an empty field that creating one refuses
  (`Addresses.UpdateAcceptsWhatCreateRefuses`).
- Deleting a user reports success even for an unknown id, and the model does not
  cascade: the user's rows stay and the admin listings that join on the user drop
  them (`Users.DeletedUserLeavesListings`).
- Deleting an offer checks only for orders. The model keeps the offer's cart
  lines, and no cart listing shows them any more
  (`Cart.DeletedOfferHidesCartLines`); what the database does with those lines
  depends on a foreign-key action that is not part of this model.

## Model

| member | source | states |
|---|---|---|
| Base.RoleOfClaim | routes/order.py:142-193 | the caller is treated as admin exactly when the claim is "admin", and as a user exactly when it is "user" or missing |
| Orders.ParseStatus | routes/order.py:151-154 | a status string is accepted exactly when it is, case-sensitively, the name of one of the five statuses, and then denotes that status |
| Orders.ParseStatusName | routes/order.py:151 | each of the five status names is accepted as its own status |
| Orders.OnlyCancelledLowersToCancelled | routes/order.py:175-176 | among the accepted names the case-insensitive comparison with "Cancelled" holds for Cancelled alone, so a user may request only cancellation |
| Orders.Restock | routes/order.py:186-187 | the cancellation restock moves only that offer's stock, by exactly the order quantity; every other offer and field is untouched |
| Orders.ListOrders | routes/order.py:22-27 | an admin lists every order; anyone else lists exactly their own orders |
| Orders.GetOrder | routes/order.py:43-52 | unknown id is 404; another user's order is 403 unless admin; otherwise the stored order |
| Orders.GetOrderAgreesWithListing | routes/order.py:22-50 | fetching an order by id succeeds exactly for the ids the caller's listing contains |
| Orders.CreateOrder | routes/order.py:61-100 | missing/zero offer id or quantity, or quantity ≤ 0, is 400; unknown offer 404; stock below quantity 400, each leaving the store unchanged; success inserts exactly one order (caller, offer, quantity, initial status) under a fresh id and lowers only that offer's stock by the quantity, so non-negative stock stays non-negative |
| Orders.DeleteOrder | routes/order.py:116-131 | admins only; unknown id 404; success removes exactly that order and changes nothing else, stock included |
| Orders.UpdateOrderStatus | routes/order.py:144-193 | empty or unknown status 400 before the lookup; unknown order 404; success exactly when the caller is admin, or a user cancelling their own Pending/Processing order; admin success only sets the status; user success sets Cancelled and gives the quantity back to the offer; a non-cancel request or another's order is 403 for users, a late cancel 400, any request 403 for other roles |
| Orders.CreateThenCancelRestoresStock | routes/order.py:183-187 | an order created and then cancelled by its owner leaves the offer table exactly as before the order |
| Orders.CancelledIsFinalForUsers | routes/order.py:179-180 | after a user's cancellation, a second user cancellation of the same order is refused with 400 and changes nothing |
| Orders.CreateOrderAddsOneOrder | routes/order.py:88-91 | a successful create adds exactly one order id and leaves every existing order unchanged |
| Orders.CreateOrderPreservesValid | routes/order.py:84-96 | order creation keeps the store invariant, in particular stock ≥ 0 |
| Orders.UpdateOrderStatusPreservesValid | routes/order.py:168-190 | status updates keep the store invariant |
| Orders.DeleteOrderPreservesValid | routes/order.py:129 | order deletion keeps the store invariant |
| Cart.ExistingLine | routes/cart.py:75-77 | the lookup finds a line of this user for this offer whenever one exists, and only such a line |
| Cart.CartItems | routes/cart.py:20-41 | the listing holds only the caller's lines, and all of them whose offer, product and manufacturer rows exist |
| Cart.CartItemsInValidStore | routes/cart.py:31-38 | in a valid store the listing is exactly the caller's lines whose offer still exists |
| Cart.AddToCart | routes/cart.py:52-93 | quantity defaults to 1; missing offer id or quantity ≤ 0 is 400, unknown offer 404, quantity above stock 400; success exactly when every check including the merged total passes; merges into the existing line (old + new) or inserts one new line; nothing but the cart and the counter changes |
| Cart.UpdateCartItem | routes/cart.py:107-140 | quantity must be positive (400); the line must exist and be the caller's (404); its offer must exist (404) and hold enough stock (400); success changes only that line's quantity |
| Cart.RemoveCartItem | routes/cart.py:157-166 | succeeds exactly on the caller's own line and removes only it; another user's line is 404 |
| Cart.ClearCart | routes/cart.py:182 | removes exactly the caller's lines and keeps everyone else's unchanged |
| Cart.ClearCartEmptiesListing | routes/cart.py:176-184 | after clearing, the caller's cart listing is empty and every other user's listing is unchanged |
| Cart.CartNeverTouchesStock | routes/cart.py:63-138 | no cart handler changes the offer table |
| Cart.AddToCartLeavesOneLine | routes/cart.py:74-90 | after a successful add the caller has exactly one line for the offer, holding the previous quantity plus the added one |
| Cart.DeletedOfferHidesCartLines | routes/product_manufacturer.py:209-216 | an offer delete leaves the offer's cart lines in the table unchanged, but no cart listing shows them |
| Cart.AddThenRemoveRestoresCart | routes/cart.py:157-164 | adding a new line and removing it gives back the original cart |
| Cart.AddToCartPreservesValid | routes/cart.py:79-90 | merging keeps at most one line per (user, offer) and the invariant |
| Cart.UpdateCartItemPreservesValid | routes/cart.py:134-138 | quantity updates keep the invariant |
| Cart.RemoveCartItemPreservesValid | routes/cart.py:164 | line removal keeps the invariant |
| Cart.ClearCartPreservesValid | routes/cart.py:182 | clearing keeps the invariant |
| Payments.CreatePayment | routes/payment.py:19-57 | missing order id, amount or method, or amount ≤ 0, is 400; unknown order 404; an order not the caller's is 403 even for admins; an existing payment 400; otherwise exactly one payment is inserted |
| Payments.GetPaymentForOrder | routes/payment.py:74-93 | unknown order 404, another's order 403 unless admin, no payment 404; a found payment belongs to the order and, with one payment per order, is the only one |
| Payments.ListPayments | routes/payment.py:106-131 | admins only; lists exactly the payments whose order and that order's user exist |
| Payments.UpdatePayment | routes/payment.py:145-184 | admins only; at least one field (400); unknown id 404; amount ≤ 0 is 400; success changes only the supplied fields of that payment and never its order |
| Payments.DeletePayment | routes/payment.py:198-215 | admins only; unknown id 404; success removes exactly that payment |
| Payments.SecondPaymentRefused | routes/payment.py:44-47 | paying a second time for the same order is 400 and changes nothing |
| Payments.CreateThenGetPayment | routes/payment.py:51-93 | the payment just created is what the owner then reads for the order |
| ShippingRecords.DeletedOrderHidesShipping | routes/shipping.py:83-118 | after an admin deletes an order its shipping record stays, but reading it is 404 and the admin listing omits it |
| Payments.DeletedOrderHidesPayment | routes/payment.py:74-91 | after an admin deletes an order its payment row stays, but reading it is 404 and the admin listing omits it |
| Payments.CreatePaymentPreservesValid | routes/payment.py:44-54 | payment creation keeps one payment per order and the invariant |
| Payments.UpdatePaymentPreservesValid | routes/payment.py:165-182 | payment updates keep one payment per order and the invariant |
| Payments.DeletePaymentPreservesValid | routes/payment.py:212 | payment deletion keeps the invariant |
| ShippingRecords.CreateShipping | routes/shipping.py:20-67 | admins only; missing order or address id 400; unknown order, then unknown address, 404; an existing record for the order 400; otherwise one record is inserted with status defaulting to "Pending" |
| ShippingRecords.GetShippingForOrder | routes/shipping.py:83-118 | unknown order 404, another's order 403 unless admin, no record 404; a found record belongs to the order and has an existing address, and is the only one when records are unique per order |
| ShippingRecords.UpdateShipping | routes/shipping.py:131-173 | admins only; at least one field (400); unknown id 404; success changes only the supplied date and status fields, never the order or the address, and no order status |
| ShippingRecords.DeleteShipping | routes/shipping.py:187-203 | admins only; unknown id 404; success removes exactly that record |
| ShippingRecords.ListShippings | routes/shipping.py:217-250 | admins only; lists exactly the records whose order, the order's user and the address exist |
| ShippingRecords.ListedShippingIsReadable | routes/shipping.py:83-118 | with one record per order, every record the admin listing shows is the one an admin reads for its order |
| ShippingRecords.ReadableShippingIsListed | routes/shipping.py:224-248 | a record an admin reads for an order whose user exists appears in the admin listing |
| ShippingRecords.SecondShippingRefused | routes/shipping.py:50-53 | a second shipping record for the same order is 400 and changes nothing |
| ShippingRecords.CreateThenGetShipping | routes/shipping.py:95-118 | in a valid store the record just created is what the order's owner then reads |
| ShippingRecords.CreateShippingPreservesValid | routes/shipping.py:50-65 | shipping creation keeps one record per order and the invariant |
| ShippingRecords.UpdateShippingPreservesValid | routes/shipping.py:153-171 | shipping updates keep one record per order and the invariant |
| ShippingRecords.DeleteShippingPreservesValid | routes/shipping.py:201 | shipping deletion keeps the invariant |
| Offers.CreateOffer | routes/product_manufacturer.py:81-122 | admins only; product, manufacturer and price required (400); price ≤ 0 or stock < 0 is 400, with stock defaulting to 0; unknown product, then unknown manufacturer, 404; otherwise exactly one offer is inserted |
| Offers.UpdateOffer | routes/product_manufacturer.py:137-181 | admins only; at least one field (400); unknown id 404; price ≤ 0 or stock < 0 is 400; success changes only the supplied price/stock of that offer |
| Offers.DeleteOffer | routes/product_manufacturer.py:196-218 | admins only; unknown id 404; an offer some order refers to is 400; otherwise exactly that offer is removed |
| Offers.OfferUpdateKeepsStockNonNegative | routes/product_manufacturer.py:161-171 | after any update request every offer's price is positive and its stock is not negative |
| Offers.DeleteOfferKeepsOrdersResolvable | routes/product_manufacturer.py:209-213 | an offer delete never leaves an order referring to a missing offer |
| Offers.CreateOfferPreservesValid | routes/product_manufacturer.py:93-119 | offer creation keeps the invariant |
| Offers.UpdateOfferPreservesValid | routes/product_manufacturer.py:158-179 | offer updates keep the invariant |
| Offers.DeleteOfferPreservesValid | routes/product_manufacturer.py:209-216 | the order guard keeps every order's offer present |
| Addresses.CreateAddress | routes/address.py:18-35 | succeeds exactly when all four fields are non-empty; the new address is owned by the caller |
| Addresses.ListAddresses | routes/address.py:50-56 | lists exactly the caller's addresses |
| Addresses.AddressAccess | routes/address.py:70-78 | unknown address 404; another's address 403 unless admin; otherwise allowed |
| Addresses.GetAddress | routes/address.py:70-79 | returns the stored address exactly to its owner or an admin, otherwise 404 or 403 |
| Addresses.UpdateAddress | routes/address.py:94-115 | owner or admin only; every omitted field keeps its old value, the owner never changes, no other address changes |
| Addresses.DeleteAddress | routes/address.py:130-148 | owner or admin only; an address a shipping record uses is 400; otherwise exactly that address is removed |
| Addresses.ListAllAddresses | routes/address.py:161-182 | admins only; lists exactly the addresses whose user exists |
| Addresses.CreateAddressExtendsAdminListing | routes/address.py:30-33 | a created address adds exactly its new id to the admin listing when its owner's user row exists, and nothing otherwise |
| Addresses.UpdateAcceptsWhatCreateRefuses | routes/address.py:104-107 | an empty country is refused on create but stored by update |
| Addresses.CreatedAddressIsOwned | routes/address.py:30-33 | a new address appears in its creator's listing, not in another user's, and another non-admin reading it is 403 |
| Addresses.CreateAddressPreservesValid | routes/address.py:30-33 | address creation keeps the invariant |
| Addresses.UpdateAddressPreservesValid | routes/address.py:109-113 | address updates keep the invariant |
| Addresses.DeleteAddressPreservesValid | routes/address.py:141-146 | the shipping guard keeps every shipping record's address present |
| Manufacturers.CreateManufacturer | routes/manufacturer.py:43-65 | admins only; empty name 400; rating, defaulting to 0, outside [0, 5] is 400; otherwise exactly one manufacturer is inserted |
| Manufacturers.UpdateManufacturer | routes/manufacturer.py:80-120 | admins only; at least one field (400); out-of-range rating 400 before the lookup; unknown id 404; success changes only the supplied fields |
| Manufacturers.DeleteManufacturer | routes/manufacturer.py:135-157 | admins only; unknown id 404; a manufacturer some offer uses is 400; otherwise exactly that manufacturer is removed |
| Manufacturers.RatingsStayInRange | routes/manufacturer.py:48-91 | after any create or update request every manufacturer rating lies in [0, 5] |
| Manufacturers.CreateManufacturerPreservesValid | routes/manufacturer.py:60-63 | manufacturer creation keeps the invariant |
| Manufacturers.UpdateManufacturerPreservesValid | routes/manufacturer.py:104-118 | manufacturer updates keep the invariant |
| Manufacturers.DeleteManufacturerPreservesValid | routes/manufacturer.py:148-155 | the offer guard keeps every offer's manufacturer present |
| Reviews.CreateReview | routes/review.py:82-114 | product or rating missing 400; rating outside [0, 5] 400; unknown product 404; a second review of the product by the caller 400; otherwise one review by the caller, with text defaulting to "" |
| Reviews.UpdateReview | routes/review.py:127-169 | rating or text required (400); out-of-range rating 400 before the lookup; unknown id 404; not author nor admin 403; success changes only rating/text, never author or product |
| Reviews.DeleteReview | routes/review.py:186-200 | unknown id 404; not author nor admin 403; otherwise exactly that review is removed |
| Reviews.ListAllReviews | routes/review.py:214-238 | admins only; lists exactly the reviews whose author and product exist |
| Reviews.CreateReviewExtendsAdminListing | routes/review.py:108-112 | a created review adds exactly its new id to the admin listing when its author's user row exists, and nothing otherwise |
| Reviews.SecondReviewRefused | routes/review.py:103-106 | reviewing the same product twice is 400 and changes nothing |
| Reviews.CreateThenDeleteReview | routes/review.py:186-198 | the author can delete the review just created, which restores the review table |
| Reviews.CreateReviewPreservesValid | routes/review.py:103-112 | review creation keeps one review per (user, product) and the invariant |
| Reviews.UpdateReviewPreservesValid | routes/review.py:156-167 | review updates keep one review per (user, product) and the invariant |
| Reviews.DeleteReviewPreservesValid | routes/review.py:198 | review deletion keeps the invariant |
| Users.ListUsers | routes/user.py:22-29 | admins only; lists every user |
| Users.DeleteUser | routes/user.py:41-49 | admins only; always reports success; the id is gone afterwards and nothing else changes |
| Users.UpdateUser | routes/user.py:67-128 | another's account without admin 403; role by non-admin 403; no non-empty field 400; unknown user 404; an e-mail another user has, compared ignoring letter case, 400; role other than user/admin 400; success changes exactly the supplied fields, the password through the hash |
| Users.NonAdminCannotChangeRoles | routes/user.py:67-72 | a non-admin never changes any stored role nor any account but their own |
| Users.UpdatedRoleIsKnown | routes/user.py:114-118 | a role written by an update is "user" or "admin" |
| Users.UpdateUserPreservesUniqueEmails | routes/user.py:95-103 | e-mail addresses stay unique across users, up to letter case |
| Users.CaseVariantEmailRefused | routes/user.py:95-100 | with "a@x.com" taken by user 1, user 2 changing their address to "A@x.com" is 400 and changes nothing |
| Users.DeletedUserLeavesListings | routes/user.py:41-49 | after an admin deletes a user, the user listing loses exactly that id, and the admin address, review, payment and shipping listings lose exactly the rows tied to that user |
| Users.UpdateUserPreservesValid | routes/user.py:91-126 | user updates keep the invariant |
| Users.DeleteUserPreservesValid | routes/user.py:46 | user deletion keeps the invariant |
| Ledger.CreateOrderConservesSupply | routes/order.py:84-96 | placing an order moves units from stock into the order: no offer's stock-plus-held total changes |
| Ledger.UserCancelConservesSupply | routes/order.py:183-187 | a user's cancellation moves the units back into stock: no offer's stock-plus-held total changes |
| Ledger.AdminStatusChangeShiftsSupply | routes/order.py:168-171 | an admin's status change shifts the total by exactly the change in what the order holds |
| Ledger.AdminLiveChangeConservesSupply | routes/order.py:168-171 | between non-cancelled statuses an admin's change conserves the total |
| Ledger.DeleteOrderWritesOffHeld | routes/order.py:129 | deleting an order lowers the total by what the order held, since no stock is given back |
| Scenarios.SellOutThenCancel | routes/order.py:84-96 | with 5 in stock, ordering 5 leaves 0, a further order of 1 is 400, and the owner's cancellation restores 5 |
| Scenarios.OnlyOwnerCancels | routes/order.py:174-193 | on any existing order, another user's cancel and an "Other" role's cancel are 403 and change nothing |
| Scenarios.OwnerOnlyCancels | routes/order.py:147-193 | the owner's request for Shipped is 403 and a lower-case "cancelled" is 400, both changing nothing |
| Scenarios.CartMergesAndRevalidates | routes/cart.py:79-90 | two adds of 2 merge into one line of 4; a third add of 2 exceeds the stock of 5 and is 400; stock never moves |
| Scenarios.AdminReopens | routes/order.py:168-171 | an admin moves any existing order to Pending whatever its status |
| Scenarios.AdminReopenAllowsDoubleRestore | routes/order.py:168-187 | cancel, admin reopen, cancel again returns the quantity to stock twice and raises the total by the quantity |
| Scenarios.OtherRoleReadsOwnOrder | routes/order.py:22-50 | a caller whose role claim is neither "admin" nor "user" still reads and lists its own order |
| Scenarios.MissingRoleClaimActsAsUser | routes/order.py:142-187 | a token without a role claim may cancel its own Pending order; a claim spelled "Admin" is refused with 403 |

## Left out

- HTTP, JWT and API-doc plumbing, and the database connection, are not modelled. The caller's id and role are inputs.
- Authentication is not part of this model: registration, login, password checking and token issuance. `UniqueEmails` is an invariant the store is assumed to start with; the model does not check it at registration.
- The password hash is a function parameter of `Users.UpdateUser`, because its hashing library is not part of this model.
- Product CRUD is not modelled. Products appear only as the set of ids that offer and review creation consult. The product delete handler (routes/product.py:64-82) removes a product without any guard, so the offer-to-product and review-to-product clauses of `Valid`, and with them `Cart.CartItemsInValidStore`, hold only because product deletion is not modelled.
- The read-only offer endpoints (list and get one), the manufacturer reads (list and get one) and the two public review reads (by product, by id) are not modelled. They are plain joins with no rule to state.
- Concurrency is not modelled. Each request is one atomic step, so the race between the stock read and the stock write in order creation does not arise.
- Listings are sets of ids. Projected columns and `ORDER BY` are not modelled.
- A `fetchone` that could match several rows returns the least id. Under `Valid` at most one row matches.
- Prices, amounts and ratings are reals. Floating-point and decimal rounding are not modelled.
- Dates are opaque strings. Timestamps set by the database are not modelled.
- Integers are unbounded. Column widths and overflow are not modelled.
- One counter supplies ids to every table, whereas the database keeps an AUTO_INCREMENT counter per table, so ids of different tables may coincide there but never do in the model. No contract relies on ids being distinct across tables.
- Quantities are integers. A fractional JSON quantity such as 1.5 passes the truthiness and `<= 0` checks of the order and cart handlers and reaches an INT column; the model cannot express that input.
- A request field sent as JSON `null` is treated like an absent one. In the handlers `data.get(key, default)` returns `None` for an explicit null rather than the default, so the model differs for these fields: the cart quantity (routes/cart.py:53) and the offer stock (routes/product_manufacturer.py:88) make the comparison with 0 raise, and the manufacturer rating (routes/manufacturer.py:48) makes the range check raise, each answering 500; the shipping status (routes/shipping.py:28) and the review text (routes/review.py:84) store NULL instead of "Pending" or ""; an address update (routes/address.py:104-107) overwrites a field with NULL where the model keeps the old value.
- A field of the wrong JSON type, a missing body and the other 500 paths are not modelled. On those paths the store is unchanged, because nothing was committed.
- A new order's initial status is not set by the insert; it comes from a schema default that is not part of this model. `Orders.InitialStatus` assumes it is Pending.
- The "no valid fields" branches in the offer and user updates are not modelled. Neither can be reached once the earlier checks have passed.
- Orders.DeleteOrder: cascades are not modelled, because the foreign-key actions are not part of this model. The order's payment and shipping record stay in place, and `Valid` does not require them to point at an existing order.
- Offers.DeleteOffer: cascades are not modelled, because the foreign-key actions are not part of this model; the offer's cart lines stay. Under a restricting key the database would refuse the delete with a 500, and under a cascading one the lines would go.
- Users.DeleteUser: cascades are not modelled either, for the same reason. The user's rows stay, and the listings that join on the user hide them.
- Users.UpdateUser: the e-mail clash compares addresses ignoring ASCII letter case, standing for the column's case-insensitive collation; the schema is not part of this model, and accent folding and trailing-space padding of the collation are not modelled. The same comparison defines `UniqueEmails`.
- Ledger.UserCancelConservesSupply requires the order's offer to exist. In a valid store the offer delete guard ensures this.
