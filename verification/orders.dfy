/** The order handlers: listing and fetching orders, inventory-aware order
    creation, the status machine with stock restore on user cancellation, and
    the admin-only delete (routes/order.py). */
module Orders {
  import opened Base
  import opened StoreModel

  /** The status a freshly inserted order has. The INSERT names no status column,
      so the value is the schema default, which is not part of this model; it is
      assumed to be Pending. */
  const InitialStatus: OrderStatus := Pending

  /** The status as its wire name. */
  function StatusName(st: OrderStatus): string
  {
    match st
    case Pending => "Pending"
    case Processing => "Processing"
    case Shipped => "Shipped"
    case Delivered => "Delivered"
    case Cancelled => "Cancelled"
  }

  /** Membership in the list of allowed status names, case-sensitively. */
  function ParseStatus(name: string): (r: Option<OrderStatus>)
    ensures forall st :: r == Some(st) <==> StatusName(st) == name
  {
    if name == "Pending" then Some(Pending)
    else if name == "Processing" then Some(Processing)
    else if name == "Shipped" then Some(Shipped)
    else if name == "Delivered" then Some(Delivered)
    else if name == "Cancelled" then Some(Cancelled)
    else None
  }

  /** Parsing inverts naming. */
  lemma ParseStatusName(st: OrderStatus)
    ensures ParseStatus(StatusName(st)) == Some(st)
  {
  }

  /** Among the five allowed names, only "Cancelled" lower-cases to "cancelled",
      so the handler's case-insensitive comparison accepts exactly that status. */
  lemma OnlyCancelledLowersToCancelled(st: OrderStatus)
    ensures Lower(StatusName(st)) == Lower("Cancelled") <==> st == Cancelled
  {
    var cancelled := Lower("Cancelled");
    assert cancelled[0] == 'c';
    match st
    case Pending =>
    case Processing =>
    case Shipped =>
    case Delivered =>
      assert Lower(StatusName(st))[0] == 'd';
    case Cancelled =>
  }

  /** The stages from which a user may still cancel. */
  predicate Cancellable(st: OrderStatus)
  {
    st == Pending || st == Processing
  }

  /** `UPDATE ProductManufacturer SET stock = stock + q`: a row that is missing is not touched. */
  function Restock(offers: map<Id, Offer>, p: Id, q: int): (m: map<Id, Offer>)
    ensures StockShifted(offers, m, p, q)
  {
    if p in offers then offers[p := offers[p].(stock := offers[p].stock + q)] else offers
  }

  /** GET /orders: an admin sees every order, anybody else only their own. */
  function ListOrders(s: Store, c: Caller): (ids: set<Id>)
    ensures IsAdmin(c) ==> ids == s.orders.Keys
    ensures forall k :: k in ids <==> k in s.orders && OwnerOrAdmin(c, s.orders[k].user)
  {
    if c.role == Admin then s.orders.Keys
    else set k | k in s.orders && s.orders[k].user == c.id
  }

  /** GET /orders/<id>: unknown id is 404, another user's order is 403 unless admin. */
  function GetOrder(s: Store, c: Caller, id: Id): (r: Answer<Order>)
    ensures id !in s.orders ==> r == Refused(NotFound)
    ensures id in s.orders && !OwnerOrAdmin(c, s.orders[id].user) ==> r == Refused(Forbidden)
    ensures r.Found? <==> id in s.orders && OwnerOrAdmin(c, s.orders[id].user)
    ensures r.Found? ==> r.value == s.orders[id]
  {
    if id !in s.orders then Refused(NotFound)
    else if c.role != Admin && s.orders[id].user != c.id then Refused(Forbidden)
    else Found(s.orders[id])
  }

  /** Fetching an order succeeds exactly for the orders the caller's listing shows. */
  lemma GetOrderAgreesWithListing(s: Store, c: Caller, id: Id)
    ensures GetOrder(s, c, id).Found? <==> id in ListOrders(s, c)
  {
  }

  /** The request passes every check of POST /orders. */
  predicate OrderAcceptable(s: Store, offerId: Option<Id>, quantity: Option<int>)
  {
    && TruthyInt(offerId) && TruthyInt(quantity) && quantity.value > 0
    && offerId.value in s.offers
    && s.offers[offerId.value].stock >= quantity.value
  }

  /** POST /orders: validate, look the offer up, check stock, then insert the order
      and lower the offer's stock, as one atomic step. */
  function CreateOrder(s: Store, c: Caller, offerId: Option<Id>, quantity: Option<int>): (r: Outcome)
    ensures !TruthyInt(offerId) || !TruthyInt(quantity) || quantity.value <= 0 ==> r == Outcome(s, BadRequest)
    ensures (TruthyInt(offerId) && TruthyInt(quantity) && quantity.value > 0 && offerId.value !in s.offers)
              ==> r == Outcome(s, NotFound)
    ensures (TruthyInt(offerId) && TruthyInt(quantity) && offerId.value in s.offers
             && s.offers[offerId.value].stock < quantity.value)
              ==> r == Outcome(s, BadRequest)
    ensures r.code == Created <==> OrderAcceptable(s, offerId, quantity)
    ensures r.code != Created ==> r.store == s
    ensures r.code == Created ==>
              && r.store.orders == s.orders[s.nextId := Order(c.id, offerId.value, quantity.value, InitialStatus)]
              && StockShifted(s.offers, r.store.offers, offerId.value, -quantity.value)
              && r.store.nextId > s.nextId
              && r.store.(orders := s.orders, offers := s.offers, nextId := s.nextId) == s
    ensures (forall k :: k in s.offers ==> s.offers[k].stock >= 0) ==>
              forall k :: k in r.store.offers ==> r.store.offers[k].stock >= 0
  {
    if !TruthyInt(offerId) || !TruthyInt(quantity) then Outcome(s, BadRequest)
    else if quantity.value <= 0 then Outcome(s, BadRequest)
    else if offerId.value !in s.offers then Outcome(s, NotFound)
    else
      var p, q := offerId.value, quantity.value;
      var offer := s.offers[p];
      if offer.stock < q then Outcome(s, BadRequest)
      else
        Outcome(s.(orders := s.orders[s.nextId := Order(c.id, p, q, InitialStatus)],
                   offers := s.offers[p := offer.(stock := offer.stock - q)],
                   nextId := s.nextId + 1),
                Created)
  }

  /** DELETE /orders/<id>: admins only; removes the row and does not give its
      quantity back to the offer. */
  function DeleteOrder(s: Store, c: Caller, id: Id): (r: Outcome)
    ensures !IsAdmin(c) ==> r == Outcome(s, Forbidden)
    ensures IsAdmin(c) && id !in s.orders ==> r == Outcome(s, NotFound)
    ensures r.code == Ok <==> IsAdmin(c) && id in s.orders
    ensures r.code == Ok ==> r.store.orders == s.orders - {id} && r.store.(orders := s.orders) == s
  {
    if c.role != Admin then Outcome(s, Forbidden)
    else if id !in s.orders then Outcome(s, NotFound)
    else Outcome(s.(orders := s.orders - {id}), Ok)
  }

  /** The transition PUT /orders/<id> accepts: admins set any recognised status;
      users only cancel their own order while it is Pending or Processing. */
  predicate StatusChangeAllowed(s: Store, c: Caller, id: Id, status: Option<string>)
  {
    && TruthyStr(status) && ParseStatus(status.value).Some? && id in s.orders
    && (|| c.role == Admin
        || (&& c.role == User
            && ParseStatus(status.value) == Some(Cancelled)
            && s.orders[id].user == c.id
            && Cancellable(s.orders[id].status)))
  }

  /** PUT /orders/<id>: validate the status, find the order, then apply the
      role-dependent rule; a user cancellation gives the quantity back. */
  function UpdateOrderStatus(s: Store, c: Caller, id: Id, status: Option<string>): (r: Outcome)
    ensures !TruthyStr(status) || ParseStatus(status.value).None? ==> r == Outcome(s, BadRequest)
    ensures TruthyStr(status) && ParseStatus(status.value).Some? && id !in s.orders ==> r == Outcome(s, NotFound)
    ensures r.code == Ok <==> StatusChangeAllowed(s, c, id, status)
    ensures r.code != Ok ==> r.store == s
    ensures r.code == Ok && IsAdmin(c) ==>
              r.store == s.(orders := s.orders[id := s.orders[id].(status := ParseStatus(status.value).value)])
    ensures r.code == Ok && c.role == User ==>
              && r.store.orders == s.orders[id := s.orders[id].(status := Cancelled)]
              && StockShifted(s.offers, r.store.offers, s.orders[id].offer, s.orders[id].quantity)
              && r.store.(orders := s.orders, offers := s.offers) == s
    ensures (TruthyStr(status) && ParseStatus(status.value).Some? && id in s.orders && c.role == Other)
              ==> r == Outcome(s, Forbidden)
    ensures (TruthyStr(status) && ParseStatus(status.value).Some? && id in s.orders && c.role == User
             && (ParseStatus(status.value) != Some(Cancelled) || s.orders[id].user != c.id))
              ==> r == Outcome(s, Forbidden)
    ensures (status == Some("Cancelled") && id in s.orders && c.role == User && s.orders[id].user == c.id
             && !Cancellable(s.orders[id].status))
              ==> r == Outcome(s, BadRequest)
  {
    if !TruthyStr(status) then Outcome(s, BadRequest)
    else match ParseStatus(status.value)
      case None => Outcome(s, BadRequest)
      case Some(st) =>
        if id !in s.orders then Outcome(s, NotFound)
        else
          var o := s.orders[id];
          if c.role == Admin then Outcome(s.(orders := s.orders[id := o.(status := st)]), Ok)
          else if c.role == User then
            OnlyCancelledLowersToCancelled(st);
            if Lower(status.value) != Lower("Cancelled") then Outcome(s, Forbidden)
            else if o.user != c.id then Outcome(s, Forbidden)
            else if !Cancellable(o.status) then Outcome(s, BadRequest)
            else
              Outcome(s.(orders := s.orders[id := o.(status := Cancelled)],
                         offers := Restock(s.offers, o.offer, o.quantity)),
                      Ok)
          else Outcome(s, Forbidden)
  }

  /** Creating an order and then cancelling it as its owner puts the offer table
      back exactly as it was. */
  lemma CreateThenCancelRestoresStock(s: Store, c: Caller, p: Id, q: int)
    requires c.role == User
    requires CreateOrder(s, c, Some(p), Some(q)).code == Created
    ensures var s1 := CreateOrder(s, c, Some(p), Some(q)).store;
            var r2 := UpdateOrderStatus(s1, c, s.nextId, Some("Cancelled"));
            r2.code == Ok && r2.store.offers == s.offers && r2.store.orders[s.nextId].status == Cancelled
  {
    var s1 := CreateOrder(s, c, Some(p), Some(q)).store;
    var o := Order(c.id, p, q, InitialStatus);
    assert s1.orders[s.nextId] == o;
    assert ParseStatus("Cancelled") == Some(Cancelled);
    assert StatusChangeAllowed(s1, c, s.nextId, Some("Cancelled"));
    var r2 := UpdateOrderStatus(s1, c, s.nextId, Some("Cancelled"));
    assert StockShifted(s1.offers, r2.store.offers, p, q);
    StockShiftUndone(s.offers, s1.offers, r2.store.offers, p, q);
  }

  /** Once a user has cancelled an order, cancelling it again is refused: Cancelled
      is terminal for users. */
  lemma CancelledIsFinalForUsers(s: Store, c: Caller, id: Id)
    requires c.role == User
    requires UpdateOrderStatus(s, c, id, Some("Cancelled")).code == Ok
    ensures var s1 := UpdateOrderStatus(s, c, id, Some("Cancelled")).store;
            UpdateOrderStatus(s1, c, id, Some("Cancelled")) == Outcome(s1, BadRequest)
  {
    assert ParseStatus("Cancelled") == Some(Cancelled);
  }

  /** Every successful order handler keeps the store invariant. */
  lemma CreateOrderPreservesValid(s: Store, c: Caller, offerId: Option<Id>, quantity: Option<int>)
    requires Valid(s)
    ensures Valid(CreateOrder(s, c, offerId, quantity).store)
  {
  }

  /** Rewriting order statuses and raising stock, with nothing else changed, keeps
      the store invariant. */
  lemma StatusRewritePreservesValid(s: Store, orders: map<Id, Order>, offers: map<Id, Offer>)
    requires Valid(s)
    requires orders.Keys == s.orders.Keys
    requires forall k :: k in s.orders ==> orders[k] == s.orders[k].(status := orders[k].status)
    requires offers.Keys == s.offers.Keys
    requires forall k :: k in s.offers ==>
               offers[k] == s.offers[k].(stock := offers[k].stock) && offers[k].stock >= s.offers[k].stock
    ensures Valid(s.(orders := orders, offers := offers))
  {
  }

  /** A user's successful cancellation rewrites one status and raises one stock. */
  lemma UserCancelPreservesValid(s: Store, c: Caller, id: Id, status: Option<string>)
    requires Valid(s) && c.role == User
    requires UpdateOrderStatus(s, c, id, status).code == Ok
    ensures Valid(UpdateOrderStatus(s, c, id, status).store)
  {
    var r := UpdateOrderStatus(s, c, id, status);
    var o := s.orders[id];
    assert o.offer in s.offers;
    assert StockShifted(s.offers, r.store.offers, o.offer, o.quantity);
    assert r.store == s.(orders := r.store.orders, offers := r.store.offers);
    StatusRewritePreservesValid(s, r.store.orders, r.store.offers);
  }

  /** An admin's successful change rewrites one status and nothing else. */
  lemma AdminRewritePreservesValid(s: Store, c: Caller, id: Id, status: Option<string>)
    requires Valid(s) && c.role == Admin
    requires UpdateOrderStatus(s, c, id, status).code == Ok
    ensures Valid(UpdateOrderStatus(s, c, id, status).store)
  {
    var r := UpdateOrderStatus(s, c, id, status);
    assert r.store == s.(orders := r.store.orders, offers := s.offers);
    StatusRewritePreservesValid(s, r.store.orders, s.offers);
  }

  lemma UpdateOrderStatusPreservesValid(s: Store, c: Caller, id: Id, status: Option<string>)
    requires Valid(s)
    ensures Valid(UpdateOrderStatus(s, c, id, status).store)
  {
    var r := UpdateOrderStatus(s, c, id, status);
    if r.code == Ok {
      if c.role == User {
        UserCancelPreservesValid(s, c, id, status);
      } else if c.role == Admin {
        AdminRewritePreservesValid(s, c, id, status);
      }
    }
  }

  lemma DeleteOrderPreservesValid(s: Store, c: Caller, id: Id)
    requires Valid(s)
    ensures Valid(DeleteOrder(s, c, id).store)
  {
  }

  /** A successful create adds exactly one order and no existing order changes. */
  lemma CreateOrderAddsOneOrder(s: Store, c: Caller, offerId: Option<Id>, quantity: Option<int>)
    requires Valid(s)
    requires CreateOrder(s, c, offerId, quantity).code == Created
    ensures var s1 := CreateOrder(s, c, offerId, quantity).store;
            && s.orders.Keys < s1.orders.Keys
            && |s1.orders| == |s.orders| + 1
            && (forall k :: k in s.orders ==> s1.orders[k] == s.orders[k])
  {
    var s1 := CreateOrder(s, c, offerId, quantity).store;
    assert s.nextId !in s.orders;
    assert s1.orders.Keys == s.orders.Keys + {s.nextId};
  }
}
