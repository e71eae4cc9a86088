/** Worked request sequences over small stores, and one sequence that shows how
    the status machine and the stock interact across roles. */
module Scenarios {
  import opened Base
  import opened StoreModel
  import opened Orders
  import Cart
  import Ledger

  /** One product (1), one manufacturer (2) and one offer (3) with 5 units in stock. */
  function Shop(): (s: Store)
    ensures Valid(s)
    ensures 3 in s.offers && s.offers[3].stock == 5
  {
    Store(map[], {1}, map[2 := Manufacturer("Acme", 4.0)], map[3 := Offer(1, 2, 10.0, 5)],
          map[], map[], map[], map[], map[], map[], 4)
  }

  /** Ordering all 5 units empties the stock; a further order for 1 unit is refused;
      the owner's cancellation brings the stock back to 5. */
  lemma SellOutThenCancel(alice: Caller)
    requires alice.role == User
    ensures var r1 := CreateOrder(Shop(), alice, Some(3), Some(5));
            && r1.code == Created
            && r1.store.offers[3].stock == 0
            && r1.store.orders[4] == Order(alice.id, 3, 5, Pending)
            && CreateOrder(r1.store, alice, Some(3), Some(1)) == Outcome(r1.store, BadRequest)
            && var r2 := UpdateOrderStatus(r1.store, alice, 4, Some("Cancelled"));
               && r2.code == Ok
               && r2.store.offers[3].stock == 5
               && r2.store.orders[4].status == Cancelled
  {
    var r1 := CreateOrder(Shop(), alice, Some(3), Some(5));
    assert ParseStatus("Cancelled") == Some(Cancelled);
    assert StatusChangeAllowed(r1.store, alice, 4, Some("Cancelled"));
  }

  /** On any existing order, another user cannot cancel it and an "Other" role
      cannot change it at all. */
  lemma OnlyOwnerCancels(s: Store, id: Id, alice: Caller, bob: Caller, guest: Caller)
    requires id in s.orders && s.orders[id].user == alice.id
    requires bob.role == User && bob.id != alice.id && guest.role == Other
    ensures UpdateOrderStatus(s, bob, id, Some("Cancelled")) == Outcome(s, Forbidden)
    ensures UpdateOrderStatus(s, guest, id, Some("Cancelled")) == Outcome(s, Forbidden)
  {
  }

  /** The owner of an order cannot ask for Shipped, and a lower-case status name
      is not a status at all. */
  lemma OwnerOnlyCancels(s: Store, id: Id, alice: Caller)
    requires id in s.orders && s.orders[id].user == alice.id && alice.role == User
    ensures UpdateOrderStatus(s, alice, id, Some("Shipped")) == Outcome(s, Forbidden)
    ensures UpdateOrderStatus(s, alice, id, Some("cancelled")) == Outcome(s, BadRequest)
  {
    assert ParseStatus("Shipped") == Some(Shipped);
    assert ParseStatus("cancelled") == None;
  }

  /** Two adds of 2 units merge into one line of 4; a third add of 2 would make 6,
      more than the 5 in stock, and is refused. The stock never moves. */
  lemma CartMergesAndRevalidates(alice: Caller)
    ensures var r1 := Cart.AddToCart(Shop(), alice, Some(3), Some(2));
            var r2 := Cart.AddToCart(r1.store, alice, Some(3), Some(2));
            && r1.code == Created && r2.code == Created
            && r2.store.cart == map[4 := CartLine(alice.id, 3, 4)]
            && Cart.AddToCart(r2.store, alice, Some(3), Some(2)) == Outcome(r2.store, BadRequest)
            && r2.store.offers == Shop().offers
  {
    var r1 := Cart.AddToCart(Shop(), alice, Some(3), Some(2));
    assert r1.store.cart == map[4 := CartLine(alice.id, 3, 2)];
    assert Cart.LinesFor(r1.store, alice.id, 3) == {4};
    assert Cart.ExistingLine(r1.store, alice.id, 3) == Some(4);
    var r2 := Cart.AddToCart(r1.store, alice, Some(3), Some(2));
    assert Cart.LinesFor(r2.store, alice.id, 3) == {4};
    assert Cart.ExistingLine(r2.store, alice.id, 3) == Some(4);
  }

  /** An admin sets any recognised status on an existing order, here reopening it. */
  lemma AdminReopens(s: Store, admin: Caller, id: Id)
    requires IsAdmin(admin) && id in s.orders
    ensures UpdateOrderStatus(s, admin, id, Some("Pending"))
              == Outcome(s.(orders := s.orders[id := s.orders[id].(status := Pending)]), Ok)
  {
    assert ParseStatus("Pending") == Some(Pending);
  }

  /** A user's cancellation, an admin's reopening to Pending and a second user
      cancellation give the order's quantity back twice, although it was taken
      from stock only once: the supply of the offer grows by the quantity. */
  lemma AdminReopenAllowsDoubleRestore(s: Store, user: Caller, admin: Caller, id: Id)
    requires id in s.orders && s.orders[id].offer in s.offers
    requires user.role == User && IsAdmin(admin)
    requires UpdateOrderStatus(s, user, id, Some("Cancelled")).code == Ok
    ensures var p := s.orders[id].offer;
            var q := s.orders[id].quantity;
            var s1 := UpdateOrderStatus(s, user, id, Some("Cancelled")).store;
            var s2 := UpdateOrderStatus(s1, admin, id, Some("Pending")).store;
            var r3 := UpdateOrderStatus(s2, user, id, Some("Cancelled"));
            && r3.code == Ok
            && p in r3.store.offers
            && r3.store.offers[p].stock == s.offers[p].stock + 2 * q
            && Ledger.Supply(r3.store, p) == Ledger.Supply(s, p) + q
  {
    var o := s.orders[id];
    var p, q := o.offer, o.quantity;
    var s1 := UpdateOrderStatus(s, user, id, Some("Cancelled")).store;
    assert StockShifted(s.offers, s1.offers, p, q);
    assert s1.orders[id] == o.(status := Cancelled);
    Ledger.UserCancelConservesSupply(s, user, id, Some("Cancelled"), p);
    AdminReopens(s1, admin, id);
    var s2 := UpdateOrderStatus(s1, admin, id, Some("Pending")).store;
    Ledger.CommittedReplace(s1.orders, id, o.(status := Pending), p);
    assert s2.orders[id] == o.(status := Pending) && s2.offers == s1.offers;
    assert ParseStatus("Cancelled") == Some(Cancelled);
    assert StatusChangeAllowed(s2, user, id, Some("Cancelled"));
    var r3 := UpdateOrderStatus(s2, user, id, Some("Cancelled"));
    assert StockShifted(s2.offers, r3.store.offers, p, q);
    Ledger.UserCancelConservesSupply(s2, user, id, Some("Cancelled"), p);
  }

  /** A token without a role claim acts as a user: its owner may cancel a Pending
      order. A claim spelled "Admin" is neither role and is refused. */
  lemma MissingRoleClaimActsAsUser(s: Store, uid: Id, id: Id)
    requires id in s.orders && s.orders[id].user == uid && s.orders[id].status == Pending
    requires s.orders[id].offer in s.offers
    ensures UpdateOrderStatus(s, Caller(uid, RoleOfClaim(None)), id, Some("Cancelled")).code == Ok
    ensures UpdateOrderStatus(s, Caller(uid, RoleOfClaim(Some("Admin"))), id, Some("Cancelled")) == Outcome(s, Forbidden)
  {
    assert ParseStatus("Cancelled") == Some(Cancelled);
    assert RoleOfClaim(Some("Admin")) == Other;
  }

  /** Outside the status update, an "Other" role has a user's rights: it reads and
      lists its own order, since those handlers compare the role with "admin" only. */
  lemma OtherRoleReadsOwnOrder(s: Store, uid: Id, id: Id)
    requires id in s.orders && s.orders[id].user == uid
    ensures GetOrder(s, Caller(uid, Other), id) == Found(s.orders[id])
    ensures id in ListOrders(s, Caller(uid, Other))
  {
  }
}
