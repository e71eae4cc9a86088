/** The shipping handlers: at most one shipping record per order, created,
    changed, deleted and listed by admins only; read by the order's owner or an
    admin (routes/shipping.py). */
module ShippingRecords {
  import opened Base
  import opened StoreModel
  import Orders

  /** The order already has a shipping record. */
  predicate HasShipping(s: Store, orderId: Id)
  {
    exists k :: k in s.shippings && s.shippings[k].order == orderId
  }

  /** The default status of a new shipping record. */
  const DefaultShippingStatus: string := "Pending"

  /** POST /shippings: admins only; order and address must both exist, and the
      order must not have a shipping record yet. */
  function CreateShipping(s: Store, c: Caller, orderId: Option<Id>, addressId: Option<Id>,
                          shippingDate: Option<string>, estimatedDelivery: Option<string>,
                          status: Option<string>): (r: Outcome)
    ensures !IsAdmin(c) ==> r == Outcome(s, Forbidden)
    ensures (IsAdmin(c) && (!TruthyInt(orderId) || !TruthyInt(addressId))) ==> r == Outcome(s, BadRequest)
    ensures (IsAdmin(c) && TruthyInt(orderId) && TruthyInt(addressId) && orderId.value !in s.orders)
              ==> r == Outcome(s, NotFound)
    ensures (IsAdmin(c) && TruthyInt(orderId) && TruthyInt(addressId) && orderId.value in s.orders
             && addressId.value !in s.addresses)
              ==> r == Outcome(s, NotFound)
    ensures (IsAdmin(c) && TruthyInt(orderId) && TruthyInt(addressId) && orderId.value in s.orders
             && addressId.value in s.addresses && HasShipping(s, orderId.value))
              ==> r == Outcome(s, BadRequest)
    ensures r.code == Created <==>
              && IsAdmin(c) && TruthyInt(orderId) && TruthyInt(addressId)
              && orderId.value in s.orders && addressId.value in s.addresses
              && !HasShipping(s, orderId.value)
    ensures r.code != Created ==> r.store == s
    ensures r.code == Created ==>
              && r.store.shippings == s.shippings[s.nextId := Shipping(orderId.value, addressId.value, shippingDate,
                                                                       estimatedDelivery,
                                                                       OrElse(status, DefaultShippingStatus))]
              && r.store.nextId > s.nextId
              && r.store.(shippings := s.shippings, nextId := s.nextId) == s
  {
    if c.role != Admin then Outcome(s, Forbidden)
    else if !TruthyInt(orderId) || !TruthyInt(addressId) then Outcome(s, BadRequest)
    else if orderId.value !in s.orders then Outcome(s, NotFound)
    else if addressId.value !in s.addresses then Outcome(s, NotFound)
    else if HasShipping(s, orderId.value) then Outcome(s, BadRequest)
    else
      var record := Shipping(orderId.value, addressId.value, shippingDate, estimatedDelivery,
                             OrElse(status, DefaultShippingStatus));
      Outcome(s.(shippings := s.shippings[s.nextId := record], nextId := s.nextId + 1), Created)
  }

  /** Shipping records of one order that survive the join with their address. */
  function ShippingsFor(s: Store, orderId: Id): set<Id>
  {
    set k | k in s.shippings && s.shippings[k].order == orderId && s.shippings[k].address in s.addresses
  }

  /** GET /shippings/order/<id>: unknown order 404, someone else's order 403 unless
      admin, no record (joined with its address) 404. */
  function GetShippingForOrder(s: Store, c: Caller, orderId: Id): (r: Answer<Shipping>)
    ensures orderId !in s.orders ==> r == Refused(NotFound)
    ensures (orderId in s.orders && !OwnerOrAdmin(c, s.orders[orderId].user)) ==> r == Refused(Forbidden)
    ensures (orderId in s.orders && OwnerOrAdmin(c, s.orders[orderId].user) && !HasShipping(s, orderId))
              ==> r == Refused(NotFound)
    ensures r.Found? ==> orderId in s.orders && OwnerOrAdmin(c, s.orders[orderId].user)
    ensures r.Found? ==> r.value.order == orderId && r.value in s.shippings.Values && r.value.address in s.addresses
    ensures (orderId in s.orders && OwnerOrAdmin(c, s.orders[orderId].user) && ReferencesIntact(s)
             && HasShipping(s, orderId))
              ==> r.Found?
    ensures (r.Found? && OneShippingPerOrder(s)) ==>
              forall k :: k in s.shippings && s.shippings[k].order == orderId ==> s.shippings[k] == r.value
  {
    if orderId !in s.orders then Refused(NotFound)
    else if c.role != Admin && s.orders[orderId].user != c.id then Refused(Forbidden)
    else
      var found := ShippingsFor(s, orderId);
      if !NonEmpty(found) then
        assert ReferencesIntact(s) ==> !HasShipping(s, orderId) by {
          assert forall k :: k in s.shippings && s.shippings[k].order == orderId && s.shippings[k].address in s.addresses
                   ==> k in found;
        }
        Refused(NotFound)
      else Found(s.shippings[Least(found)])
  }

  /** PUT /shippings/<id>: admins only; at least one of the three fields; changes only
      the supplied dates and status, never the order, the address or any order's status. */
  function UpdateShipping(s: Store, c: Caller, id: Id, shippingDate: Option<string>,
                          estimatedDelivery: Option<string>, status: Option<string>): (r: Outcome)
    ensures !IsAdmin(c) ==> r == Outcome(s, Forbidden)
    ensures (IsAdmin(c) && shippingDate.None? && estimatedDelivery.None? && status.None?) ==> r == Outcome(s, BadRequest)
    ensures (IsAdmin(c) && (shippingDate.Some? || estimatedDelivery.Some? || status.Some?) && id !in s.shippings)
              ==> r == Outcome(s, NotFound)
    ensures r.code == Ok <==>
              IsAdmin(c) && (shippingDate.Some? || estimatedDelivery.Some? || status.Some?) && id in s.shippings
    ensures r.code != Ok ==> r.store == s
    ensures r.code == Ok ==>
              && r.store.(shippings := s.shippings) == s
              && r.store.shippings.Keys == s.shippings.Keys
              && (forall k :: k in s.shippings && k != id ==> r.store.shippings[k] == s.shippings[k])
              && r.store.shippings[id].order == s.shippings[id].order
              && r.store.shippings[id].address == s.shippings[id].address
              && r.store.shippings[id].shippingDate == (if shippingDate.Some? then shippingDate else s.shippings[id].shippingDate)
              && r.store.shippings[id].estimatedDelivery
                   == (if estimatedDelivery.Some? then estimatedDelivery else s.shippings[id].estimatedDelivery)
              && r.store.shippings[id].status == OrElse(status, s.shippings[id].status)
  {
    if c.role != Admin then Outcome(s, Forbidden)
    else if shippingDate.None? && estimatedDelivery.None? && status.None? then Outcome(s, BadRequest)
    else if id !in s.shippings then Outcome(s, NotFound)
    else
      var old_ := s.shippings[id];
      var updated := old_.(shippingDate := if shippingDate.Some? then shippingDate else old_.shippingDate,
                           estimatedDelivery := if estimatedDelivery.Some? then estimatedDelivery else old_.estimatedDelivery,
                           status := OrElse(status, old_.status));
      Outcome(s.(shippings := s.shippings[id := updated]), Ok)
  }

  /** DELETE /shippings/<id>: admins only; removes exactly that record. */
  function DeleteShipping(s: Store, c: Caller, id: Id): (r: Outcome)
    ensures !IsAdmin(c) ==> r == Outcome(s, Forbidden)
    ensures (IsAdmin(c) && id !in s.shippings) ==> r == Outcome(s, NotFound)
    ensures r.code == Ok <==> IsAdmin(c) && id in s.shippings
    ensures r.code == Ok ==> r.store == s.(shippings := s.shippings - {id})
  {
    if c.role != Admin then Outcome(s, Forbidden)
    else if id !in s.shippings then Outcome(s, NotFound)
    else Outcome(s.(shippings := s.shippings - {id}), Ok)
  }

  /** The shipping listing keeps records whose order, the order's user, and the
      address still exist (the inner joins of GET /shippings). */
  predicate ShippingListed(s: Store, k: Id)
  {
    && k in s.shippings
    && s.shippings[k].order in s.orders
    && s.orders[s.shippings[k].order].user in s.users
    && s.shippings[k].address in s.addresses
  }

  /** GET /shippings: admins only. */
  function ListShippings(s: Store, c: Caller): (r: Answer<set<Id>>)
    ensures r.Found? <==> IsAdmin(c)
    ensures r.Refused? ==> r.code == Forbidden
    ensures r.Found? ==> forall k :: k in r.value <==> ShippingListed(s, k)
  {
    if c.role != Admin then Refused(Forbidden)
    else Found(set k | k in s.shippings && ShippingListed(s, k))
  }

  /** A second shipping record for the same order is refused and changes nothing. */
  lemma SecondShippingRefused(s: Store, c: Caller, orderId: Option<Id>, addressId: Option<Id>,
                              shippingDate: Option<string>, estimatedDelivery: Option<string>, status: Option<string>,
                              addressId2: Option<Id>, status2: Option<string>)
    requires CreateShipping(s, c, orderId, addressId, shippingDate, estimatedDelivery, status).code == Created
    requires TruthyInt(addressId2) && addressId2.value in s.addresses
    ensures var s1 := CreateShipping(s, c, orderId, addressId, shippingDate, estimatedDelivery, status).store;
            CreateShipping(s1, c, orderId, addressId2, shippingDate, estimatedDelivery, status2) == Outcome(s1, BadRequest)
  {
    var s1 := CreateShipping(s, c, orderId, addressId, shippingDate, estimatedDelivery, status).store;
    assert s1.shippings[s.nextId].order == orderId.value;
    assert HasShipping(s1, orderId.value);
  }

  /** A shipping record just created is what the order's owner then reads back. */
  lemma CreateThenGetShipping(s: Store, admin: Caller, owner: Caller, orderId: Option<Id>, addressId: Option<Id>,
                              shippingDate: Option<string>, estimatedDelivery: Option<string>, status: Option<string>)
    requires Valid(s)
    requires CreateShipping(s, admin, orderId, addressId, shippingDate, estimatedDelivery, status).code == Created
    requires s.orders[orderId.value].user == owner.id
    ensures var s1 := CreateShipping(s, admin, orderId, addressId, shippingDate, estimatedDelivery, status).store;
            GetShippingForOrder(s1, owner, orderId.value)
              == Found(Shipping(orderId.value, addressId.value, shippingDate, estimatedDelivery,
                                OrElse(status, DefaultShippingStatus)))
  {
    var s1 := CreateShipping(s, admin, orderId, addressId, shippingDate, estimatedDelivery, status).store;
    assert s.nextId !in s.shippings;
    assert s.nextId in ShippingsFor(s1, orderId.value);
    assert forall k :: k in s1.shippings && s1.shippings[k].order == orderId.value ==> k == s.nextId;
    assert ShippingsFor(s1, orderId.value) == {s.nextId};
  }

  lemma CreateShippingPreservesValid(s: Store, c: Caller, orderId: Option<Id>, addressId: Option<Id>,
                                     shippingDate: Option<string>, estimatedDelivery: Option<string>,
                                     status: Option<string>)
    requires Valid(s)
    ensures Valid(CreateShipping(s, c, orderId, addressId, shippingDate, estimatedDelivery, status).store)
  {
  }

  lemma UpdateShippingPreservesValid(s: Store, c: Caller, id: Id, shippingDate: Option<string>,
                                     estimatedDelivery: Option<string>, status: Option<string>)
    requires Valid(s)
    ensures Valid(UpdateShipping(s, c, id, shippingDate, estimatedDelivery, status).store)
  {
    var r := UpdateShipping(s, c, id, shippingDate, estimatedDelivery, status);
    if r.code == Ok {
      assert OneShippingPerOrder(r.store);
    }
  }

  lemma DeleteShippingPreservesValid(s: Store, c: Caller, id: Id)
    requires Valid(s)
    ensures Valid(DeleteShipping(s, c, id).store)
  {
  }

  /** Every record the admin listing shows is the record an admin reads for its order. */
  lemma ListedShippingIsReadable(s: Store, admin: Caller, k: Id)
    requires IsAdmin(admin) && OneShippingPerOrder(s)
    requires k in ListShippings(s, admin).value
    ensures GetShippingForOrder(s, admin, s.shippings[k].order) == Found(s.shippings[k])
  {
    var found := ShippingsFor(s, s.shippings[k].order);
    assert k in found;
    assert forall j :: j in found ==> j == k;
    assert Least(found) == k;
  }

  /** Conversely, a record an admin reads for an order whose user still exists is
      shown by the admin listing. */
  lemma ReadableShippingIsListed(s: Store, admin: Caller, orderId: Id)
    requires IsAdmin(admin)
    requires GetShippingForOrder(s, admin, orderId).Found?
    requires s.orders[orderId].user in s.users
    ensures exists k :: k in ListShippings(s, admin).value && s.shippings[k] == GetShippingForOrder(s, admin, orderId).value
  {
    var k := Least(ShippingsFor(s, orderId));
    assert ShippingListed(s, k);
  }

  /** Deleting an order leaves its shipping record in place (the model does not
      cascade), but the owner's read for that order is then 404 and the admin
      listing drops the record. */
  lemma DeletedOrderHidesShipping(s: Store, admin: Caller, owner: Caller, orderId: Id, k: Id)
    requires IsAdmin(admin)
    requires orderId in s.orders && k in s.shippings && s.shippings[k].order == orderId
    ensures var s1 := Orders.DeleteOrder(s, admin, orderId).store;
            && k in s1.shippings
            && GetShippingForOrder(s1, owner, orderId) == Refused(NotFound)
            && k !in ListShippings(s1, admin).value
  {
  }
}
