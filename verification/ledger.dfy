/** Stock accounting across the offer and order tables. An offer's supply is its
    stock plus the units that its live (not cancelled) orders hold. Placing an
    order and a user's cancellation move units between the two without changing
    the supply. An admin's status change or delete can change it: that handler
    never touches stock. */
module Ledger {
  import opened Base
  import opened StoreModel
  import Orders

  /** Units of offer `p` that order `o` holds: its quantity unless it is cancelled. */
  function Held(o: Order, p: Id): int
  {
    if o.offer == p && o.status != Cancelled then o.quantity else 0
  }

  /** The units of offer `p` held by the orders whose ids are in `keys`. */
  function HeldOver(orders: map<Id, Order>, keys: set<Id>, p: Id): int
    requires keys <= orders.Keys
    decreases keys
  {
    if !NonEmpty(keys) then 0
    else
      var k := Least(keys);
      Held(orders[k], p) + HeldOver(orders, keys - {k}, p)
  }

  /** The sum does not depend on which id is taken out first. */
  lemma {:induction false} HeldOverPick(orders: map<Id, Order>, keys: set<Id>, p: Id, j: Id)
    requires keys <= orders.Keys && j in keys
    ensures HeldOver(orders, keys, p) == Held(orders[j], p) + HeldOver(orders, keys - {j}, p)
    decreases keys
  {
    assert NonEmpty(keys);
    var k := Least(keys);
    if k != j {
      HeldOverPick(orders, keys - {k}, p, j);
      HeldOverPick(orders, keys - {j}, p, k);
      assert keys - {k} - {j} == keys - {j} - {k};
    }
  }

  /** Two order tables whose orders hold the same units of `p` on `keys` give the same sum. */
  lemma {:induction false} HeldOverFrame(o1: map<Id, Order>, o2: map<Id, Order>, keys: set<Id>, p: Id)
    requires keys <= o1.Keys && keys <= o2.Keys
    requires forall k :: k in keys ==> Held(o1[k], p) == Held(o2[k], p)
    ensures HeldOver(o1, keys, p) == HeldOver(o2, keys, p)
    decreases keys
  {
    if NonEmpty(keys) {
      HeldOverFrame(o1, o2, keys - {Least(keys)}, p);
    }
  }

  /** Units of offer `p` held by all orders. */
  function Committed(orders: map<Id, Order>, p: Id): int
  {
    HeldOver(orders, orders.Keys, p)
  }

  /** Adding an order under a fresh id adds what it holds. */
  lemma CommittedInsert(orders: map<Id, Order>, n: Id, o: Order, p: Id)
    requires n !in orders
    ensures Committed(orders[n := o], p) == Committed(orders, p) + Held(o, p)
  {
    var orders' := orders[n := o];
    HeldOverPick(orders', orders'.Keys, p, n);
    assert orders'.Keys - {n} == orders.Keys;
    HeldOverFrame(orders', orders, orders.Keys, p);
  }

  /** Replacing one order changes the total by the difference of what the two hold. */
  lemma CommittedReplace(orders: map<Id, Order>, id: Id, o: Order, p: Id)
    requires id in orders
    ensures Committed(orders[id := o], p) == Committed(orders, p) - Held(orders[id], p) + Held(o, p)
  {
    var orders' := orders[id := o];
    assert orders'.Keys == orders.Keys;
    HeldOverPick(orders, orders.Keys, p, id);
    HeldOverPick(orders', orders.Keys, p, id);
    HeldOverFrame(orders', orders, orders.Keys - {id}, p);
  }

  /** Removing one order removes what it held. */
  lemma CommittedRemove(orders: map<Id, Order>, id: Id, p: Id)
    requires id in orders
    ensures Committed(orders - {id}, p) == Committed(orders, p) - Held(orders[id], p)
  {
    var orders' := orders - {id};
    assert orders'.Keys == orders.Keys - {id};
    HeldOverPick(orders, orders.Keys, p, id);
    HeldOverFrame(orders', orders, orders.Keys - {id}, p);
  }

  /** The stock of offer `p`, 0 for an unknown offer. */
  function StockOf(offers: map<Id, Offer>, p: Id): int
  {
    if p in offers then offers[p].stock else 0
  }

  /** Everything ever put into offer `p` and not since written off: stock plus live orders. */
  function Supply(s: Store, p: Id): int
  {
    StockOf(s.offers, p) + Committed(s.orders, p)
  }

  /** Placing an order moves units from stock into the order; no offer's supply changes. */
  lemma CreateOrderConservesSupply(s: Store, c: Caller, offerId: Option<Id>, quantity: Option<int>, p: Id)
    requires Valid(s)
    ensures Supply(Orders.CreateOrder(s, c, offerId, quantity).store, p) == Supply(s, p)
  {
    var r := Orders.CreateOrder(s, c, offerId, quantity);
    if r.code == Created {
      var o := Order(c.id, offerId.value, quantity.value, Orders.InitialStatus);
      assert s.nextId !in s.orders;
      CommittedInsert(s.orders, s.nextId, o, p);
      assert Held(o, p) == (if p == offerId.value then quantity.value else 0);
    }
  }

  /** A user's cancellation moves the order's units back into stock; no offer's
      supply changes. The order's offer must still exist, as the offer delete guard
      ensures. */
  lemma UserCancelConservesSupply(s: Store, c: Caller, id: Id, status: Option<string>, p: Id)
    requires id in s.orders ==> s.orders[id].offer in s.offers
    requires c.role == User
    ensures Supply(Orders.UpdateOrderStatus(s, c, id, status).store, p) == Supply(s, p)
  {
    var r := Orders.UpdateOrderStatus(s, c, id, status);
    if r.code == Ok {
      var o := s.orders[id];
      var s1 := r.store;
      assert Orders.Cancellable(o.status) && o.offer in s.offers;
      CommittedReplace(s.orders, id, o.(status := Cancelled), p);
      assert Held(o, p) == (if p == o.offer then o.quantity else 0);
      assert StockOf(s1.offers, p) == StockOf(s.offers, p) + (if p == o.offer then o.quantity else 0);
    }
  }

  /** An admin's status change touches no stock, so the supply of the order's offer
      moves by exactly the change in what the order holds: unchanged between live
      statuses, down by the quantity on cancelling, up by it on reopening a
      cancelled order. */
  lemma AdminStatusChangeShiftsSupply(s: Store, c: Caller, id: Id, status: Option<string>, p: Id)
    requires IsAdmin(c)
    requires Orders.UpdateOrderStatus(s, c, id, status).code == Ok
    ensures var s1 := Orders.UpdateOrderStatus(s, c, id, status).store;
            Supply(s1, p) == Supply(s, p) - Held(s.orders[id], p) + Held(s1.orders[id], p)
  {
    var s1 := Orders.UpdateOrderStatus(s, c, id, status).store;
    CommittedReplace(s.orders, id, s1.orders[id], p);
  }

  /** Between live statuses an admin conserves supply. */
  lemma AdminLiveChangeConservesSupply(s: Store, c: Caller, id: Id, status: Option<string>, p: Id)
    requires IsAdmin(c)
    requires Orders.UpdateOrderStatus(s, c, id, status).code == Ok
    requires s.orders[id].status != Cancelled && status != Some("Cancelled")
    ensures Supply(Orders.UpdateOrderStatus(s, c, id, status).store, p) == Supply(s, p)
  {
    AdminStatusChangeShiftsSupply(s, c, id, status, p);
  }

  /** Deleting a live order writes its units off: the stock is not given back. */
  lemma DeleteOrderWritesOffHeld(s: Store, c: Caller, id: Id, p: Id)
    requires Orders.DeleteOrder(s, c, id).code == Ok
    ensures Supply(Orders.DeleteOrder(s, c, id).store, p) == Supply(s, p) - Held(s.orders[id], p)
  {
    CommittedRemove(s.orders, id, p);
  }
}
