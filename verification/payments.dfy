/** The payment handlers: at most one payment per order, created by the order's
    owner; reads for the owner or an admin; listing, update and delete for admins
    (routes/payment.py). */
module Payments {
  import opened Base
  import opened StoreModel
  import Orders

  /** Payments recorded for one order: `SELECT * FROM Payment WHERE order_id = ?`. */
  function PaymentsFor(s: Store, orderId: Id): set<Id>
  {
    set k | k in s.payments && s.payments[k].order == orderId
  }

  /** The order already has a payment. */
  predicate HasPayment(s: Store, orderId: Id)
  {
    exists k :: k in s.payments && s.payments[k].order == orderId
  }

  /** The fields POST /payments requires are present and the amount is positive. */
  predicate PaymentFieldsValid(orderId: Option<Id>, amount: Option<real>, payMethod: Option<string>)
  {
    TruthyInt(orderId) && amount.Some? && TruthyStr(payMethod) && amount.value > 0.0
  }

  /** POST /payments: only the order's owner may pay (admins included), and only once. */
  function CreatePayment(s: Store, c: Caller, orderId: Option<Id>, amount: Option<real>, payMethod: Option<string>): (r: Outcome)
    ensures !PaymentFieldsValid(orderId, amount, payMethod) ==> r == Outcome(s, BadRequest)
    ensures (PaymentFieldsValid(orderId, amount, payMethod) && orderId.value !in s.orders) ==> r == Outcome(s, NotFound)
    ensures (PaymentFieldsValid(orderId, amount, payMethod) && orderId.value in s.orders
             && s.orders[orderId.value].user != c.id)
              ==> r == Outcome(s, Forbidden)
    ensures (PaymentFieldsValid(orderId, amount, payMethod) && orderId.value in s.orders
             && s.orders[orderId.value].user == c.id && HasPayment(s, orderId.value))
              ==> r == Outcome(s, BadRequest)
    ensures r.code == Created <==>
              && PaymentFieldsValid(orderId, amount, payMethod)
              && orderId.value in s.orders && s.orders[orderId.value].user == c.id
              && !HasPayment(s, orderId.value)
    ensures r.code != Created ==> r.store == s
    ensures r.code == Created ==>
              && r.store.payments == s.payments[s.nextId := Payment(orderId.value, amount.value, payMethod.value)]
              && r.store.nextId > s.nextId
              && r.store.(payments := s.payments, nextId := s.nextId) == s
  {
    if !TruthyInt(orderId) || amount.None? || !TruthyStr(payMethod) then Outcome(s, BadRequest)
    else if amount.value <= 0.0 then Outcome(s, BadRequest)
    else if orderId.value !in s.orders then Outcome(s, NotFound)
    else if s.orders[orderId.value].user != c.id then Outcome(s, Forbidden)
    else if HasPayment(s, orderId.value) then Outcome(s, BadRequest)
    else
      Outcome(s.(payments := s.payments[s.nextId := Payment(orderId.value, amount.value, payMethod.value)],
                 nextId := s.nextId + 1),
              Created)
  }

  /** GET /payments/order/<id>: unknown order 404, someone else's order 403 unless
      admin, no payment 404. */
  function GetPaymentForOrder(s: Store, c: Caller, orderId: Id): (r: Answer<Payment>)
    ensures orderId !in s.orders ==> r == Refused(NotFound)
    ensures (orderId in s.orders && !OwnerOrAdmin(c, s.orders[orderId].user)) ==> r == Refused(Forbidden)
    ensures (orderId in s.orders && OwnerOrAdmin(c, s.orders[orderId].user) && !HasPayment(s, orderId))
              ==> r == Refused(NotFound)
    ensures r.Found? <==> orderId in s.orders && OwnerOrAdmin(c, s.orders[orderId].user) && HasPayment(s, orderId)
    ensures r.Found? ==> r.value.order == orderId && r.value in s.payments.Values
    ensures (r.Found? && OnePaymentPerOrder(s)) ==>
              forall k :: k in s.payments && s.payments[k].order == orderId ==> s.payments[k] == r.value
  {
    if orderId !in s.orders then Refused(NotFound)
    else if c.role != Admin && s.orders[orderId].user != c.id then Refused(Forbidden)
    else
      var found := PaymentsFor(s, orderId);
      if !NonEmpty(found) then
        assert !HasPayment(s, orderId) by {
          assert forall k :: k in s.payments && s.payments[k].order == orderId ==> k in found;
        }
        Refused(NotFound)
      else Found(s.payments[Least(found)])
  }

  /** The payment listing keeps payments whose order and the order's user still exist
      (the inner joins of GET /payments). */
  predicate PaymentListed(s: Store, k: Id)
  {
    k in s.payments && s.payments[k].order in s.orders && s.orders[s.payments[k].order].user in s.users
  }

  /** GET /payments: admins only. */
  function ListPayments(s: Store, c: Caller): (r: Answer<set<Id>>)
    ensures r.Found? <==> IsAdmin(c)
    ensures r.Refused? ==> r.code == Forbidden
    ensures r.Found? ==> forall k :: k in r.value <==> PaymentListed(s, k)
  {
    if c.role != Admin then Refused(Forbidden)
    else Found(set k | k in s.payments && PaymentListed(s, k))
  }

  /** PUT /payments/<id>: admins only; at least one field; only the supplied fields
      change and the payment never moves to another order. */
  function UpdatePayment(s: Store, c: Caller, id: Id, amount: Option<real>, payMethod: Option<string>): (r: Outcome)
    ensures !IsAdmin(c) ==> r == Outcome(s, Forbidden)
    ensures (IsAdmin(c) && amount.None? && payMethod.None?) ==> r == Outcome(s, BadRequest)
    ensures (IsAdmin(c) && (amount.Some? || payMethod.Some?) && id !in s.payments) ==> r == Outcome(s, NotFound)
    ensures (IsAdmin(c) && id in s.payments && amount.Some? && amount.value <= 0.0) ==> r == Outcome(s, BadRequest)
    ensures r.code == Ok <==>
              IsAdmin(c) && (amount.Some? || payMethod.Some?) && id in s.payments && (amount.Some? ==> amount.value > 0.0)
    ensures r.code != Ok ==> r.store == s
    ensures r.code == Ok ==>
              && r.store.(payments := s.payments) == s
              && r.store.payments.Keys == s.payments.Keys
              && (forall k :: k in s.payments && k != id ==> r.store.payments[k] == s.payments[k])
              && r.store.payments[id].order == s.payments[id].order
              && r.store.payments[id].amount == OrElse(amount, s.payments[id].amount)
              && r.store.payments[id].paymentMethod == OrElse(payMethod, s.payments[id].paymentMethod)
  {
    if c.role != Admin then Outcome(s, Forbidden)
    else if amount.None? && payMethod.None? then Outcome(s, BadRequest)
    else if id !in s.payments then Outcome(s, NotFound)
    else if amount.Some? && amount.value <= 0.0 then Outcome(s, BadRequest)
    else
      var old_ := s.payments[id];
      var updated := old_.(amount := OrElse(amount, old_.amount),
                           paymentMethod := OrElse(payMethod, old_.paymentMethod));
      Outcome(s.(payments := s.payments[id := updated]), Ok)
  }

  /** DELETE /payments/<id>: admins only; removes exactly that payment. */
  function DeletePayment(s: Store, c: Caller, id: Id): (r: Outcome)
    ensures !IsAdmin(c) ==> r == Outcome(s, Forbidden)
    ensures (IsAdmin(c) && id !in s.payments) ==> r == Outcome(s, NotFound)
    ensures r.code == Ok <==> IsAdmin(c) && id in s.payments
    ensures r.code == Ok ==> r.store == s.(payments := s.payments - {id})
  {
    if c.role != Admin then Outcome(s, Forbidden)
    else if id !in s.payments then Outcome(s, NotFound)
    else Outcome(s.(payments := s.payments - {id}), Ok)
  }

  /** Paying for the same order twice: the second request is refused and changes nothing. */
  lemma SecondPaymentRefused(s: Store, c: Caller, orderId: Option<Id>, amount: Option<real>, payMethod: Option<string>,
                             amount2: Option<real>, payMethod2: Option<string>)
    requires CreatePayment(s, c, orderId, amount, payMethod).code == Created
    requires PaymentFieldsValid(orderId, amount2, payMethod2)
    ensures var s1 := CreatePayment(s, c, orderId, amount, payMethod).store;
            CreatePayment(s1, c, orderId, amount2, payMethod2) == Outcome(s1, BadRequest)
  {
    var s1 := CreatePayment(s, c, orderId, amount, payMethod).store;
    assert s1.payments[s.nextId].order == orderId.value;
    assert HasPayment(s1, orderId.value);
  }

  /** A payment just created is the one the owner then reads back for the order. */
  lemma CreateThenGetPayment(s: Store, c: Caller, orderId: Option<Id>, amount: Option<real>, payMethod: Option<string>)
    requires Valid(s)
    requires CreatePayment(s, c, orderId, amount, payMethod).code == Created
    ensures var s1 := CreatePayment(s, c, orderId, amount, payMethod).store;
            GetPaymentForOrder(s1, c, orderId.value) == Found(Payment(orderId.value, amount.value, payMethod.value))
  {
    var s1 := CreatePayment(s, c, orderId, amount, payMethod).store;
    assert s1.payments[s.nextId].order == orderId.value;
    assert HasPayment(s1, orderId.value);
    assert forall k :: k in s1.payments && s1.payments[k].order == orderId.value ==> k == s.nextId;
  }

  /** Deleting an order leaves its payment row in place (the model does not cascade), but
      the owner's read for that order is then 404 and the admin listing drops it. */
  lemma DeletedOrderHidesPayment(s: Store, admin: Caller, owner: Caller, orderId: Id, k: Id)
    requires IsAdmin(admin)
    requires orderId in s.orders && k in s.payments && s.payments[k].order == orderId
    ensures var s1 := Orders.DeleteOrder(s, admin, orderId).store;
            && k in s1.payments
            && GetPaymentForOrder(s1, owner, orderId) == Refused(NotFound)
            && k !in ListPayments(s1, admin).value
  {
  }

  lemma CreatePaymentPreservesValid(s: Store, c: Caller, orderId: Option<Id>, amount: Option<real>, payMethod: Option<string>)
    requires Valid(s)
    ensures Valid(CreatePayment(s, c, orderId, amount, payMethod).store)
  {
  }

  lemma UpdatePaymentPreservesValid(s: Store, c: Caller, id: Id, amount: Option<real>, payMethod: Option<string>)
    requires Valid(s)
    ensures Valid(UpdatePayment(s, c, id, amount, payMethod).store)
  {
    var r := UpdatePayment(s, c, id, amount, payMethod);
    if r.code == Ok {
      assert OnePaymentPerOrder(r.store);
    }
  }

  lemma DeletePaymentPreservesValid(s: Store, c: Caller, id: Id)
    requires Valid(s)
    ensures Valid(DeletePayment(s, c, id).store)
  {
  }
}
