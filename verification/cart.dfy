/** The cart handlers: staging lines with the same availability checks as order
    creation but without ever reserving stock (routes/cart.py). */
module Cart {
  import opened Base
  import opened StoreModel
  import Offers

  /** The caller's lines for one offer: the rows of
      `SELECT cart_id, quantity FROM Cart WHERE user_id = ? AND product_manufacturer_id = ?`. */
  function LinesFor(s: Store, user: Id, offer: Id): set<Id>
  {
    set k | k in s.cart && s.cart[k].user == user && s.cart[k].offer == offer
  }

  /** The line `fetchone()` returns for (user, offer), if any. */
  function ExistingLine(s: Store, user: Id, offer: Id): (r: Option<Id>)
    ensures r.Some? ==> r.value in s.cart && s.cart[r.value].user == user && s.cart[r.value].offer == offer
    ensures r.None? ==> forall k :: k in s.cart ==> !(s.cart[k].user == user && s.cart[k].offer == offer)
  {
    var lines := LinesFor(s, user, offer);
    assert forall k :: k in s.cart && s.cart[k].user == user && s.cart[k].offer == offer ==> k in lines;
    if NonEmpty(lines) then Some(Least(lines)) else None
  }

  /** The offer survives the inner joins of the cart listing: it exists and so do
      its product and manufacturer. */
  predicate Joinable(s: Store, p: Id)
  {
    p in s.offers && s.offers[p].product in s.products && s.offers[p].manufacturer in s.manufacturers
  }

  /** GET /cart: the caller's lines whose offer, product and manufacturer rows exist. */
  function CartItems(s: Store, c: Caller): (ids: set<Id>)
    ensures forall k :: k in ids ==> k in s.cart && s.cart[k].user == c.id
    ensures forall k :: k in s.cart && s.cart[k].user == c.id && Joinable(s, s.cart[k].offer) ==> k in ids
    ensures forall k :: k in s.cart && !Joinable(s, s.cart[k].offer) ==> k !in ids
  {
    set k | k in s.cart && s.cart[k].user == c.id && Joinable(s, s.cart[k].offer)
  }

  /** In a valid store the joins drop nothing but lines whose offer has been deleted. */
  lemma CartItemsInValidStore(s: Store, c: Caller)
    requires Valid(s)
    ensures forall k :: k in CartItems(s, c) <==> k in s.cart && s.cart[k].user == c.id && s.cart[k].offer in s.offers
  {
  }

  /** The request passes every check of POST /cart. */
  predicate AddAcceptable(s: Store, c: Caller, offerId: Option<Id>, quantity: Option<int>)
  {
    var q := OrElse(quantity, 1);
    && TruthyInt(offerId) && q > 0
    && offerId.value in s.offers
    && q <= s.offers[offerId.value].stock
    && match ExistingLine(s, c.id, offerId.value)
       case None => true
       case Some(k) => s.cart[k].quantity + q <= s.offers[offerId.value].stock
  }

  /** POST /cart: quantity defaults to 1; a second add for the same offer merges
      into the existing line, re-validated against the current stock. */
  function AddToCart(s: Store, c: Caller, offerId: Option<Id>, quantity: Option<int>): (r: Outcome)
    ensures (!TruthyInt(offerId) || OrElse(quantity, 1) <= 0) ==> r == Outcome(s, BadRequest)
    ensures (TruthyInt(offerId) && OrElse(quantity, 1) > 0 && offerId.value !in s.offers)
              ==> r == Outcome(s, NotFound)
    ensures (TruthyInt(offerId) && offerId.value in s.offers && OrElse(quantity, 1) > s.offers[offerId.value].stock)
              ==> r == Outcome(s, BadRequest)
    ensures r.code == Created <==> AddAcceptable(s, c, offerId, quantity)
    ensures r.code != Created ==> r.store == s
    ensures r.store.(cart := s.cart, nextId := s.nextId) == s
    ensures (r.code == Created && ExistingLine(s, c.id, offerId.value).None?) ==>
              && r.store.cart == s.cart[s.nextId := CartLine(c.id, offerId.value, OrElse(quantity, 1))]
              && r.store.nextId > s.nextId
    ensures (r.code == Created && ExistingLine(s, c.id, offerId.value).Some?) ==>
              var k := ExistingLine(s, c.id, offerId.value).value;
              r.store.cart == s.cart[k := s.cart[k].(quantity := s.cart[k].quantity + OrElse(quantity, 1))]
  {
    var q := OrElse(quantity, 1);
    if !TruthyInt(offerId) || q <= 0 then Outcome(s, BadRequest)
    else if offerId.value !in s.offers then Outcome(s, NotFound)
    else
      var p := offerId.value;
      var stock := s.offers[p].stock;
      if q > stock then Outcome(s, BadRequest)
      else match ExistingLine(s, c.id, p)
        case Some(k) =>
          var merged := s.cart[k].quantity + q;
          if merged > stock then Outcome(s, BadRequest)
          else Outcome(s.(cart := s.cart[k := s.cart[k].(quantity := merged)]), Created)
        case None =>
          Outcome(s.(cart := s.cart[s.nextId := CartLine(c.id, p, q)], nextId := s.nextId + 1), Created)
  }

  /** PUT /cart/<id>: the line must be the caller's and the new quantity positive
      and within the offer's current stock; only that line's quantity changes. */
  function UpdateCartItem(s: Store, c: Caller, lineId: Id, quantity: Option<int>): (r: Outcome)
    ensures (!TruthyInt(quantity) || quantity.value <= 0) ==> r == Outcome(s, BadRequest)
    ensures (TruthyInt(quantity) && quantity.value > 0 && (lineId !in s.cart || s.cart[lineId].user != c.id))
              ==> r == Outcome(s, NotFound)
    ensures (TruthyInt(quantity) && quantity.value > 0 && lineId in s.cart && s.cart[lineId].user == c.id
             && s.cart[lineId].offer !in s.offers)
              ==> r == Outcome(s, NotFound)
    ensures r.code == Ok <==>
              && TruthyInt(quantity) && quantity.value > 0
              && lineId in s.cart && s.cart[lineId].user == c.id
              && s.cart[lineId].offer in s.offers
              && quantity.value <= s.offers[s.cart[lineId].offer].stock
    ensures r.code != Ok ==> r.store == s
    ensures r.code == Ok ==> r.store == s.(cart := s.cart[lineId := s.cart[lineId].(quantity := quantity.value)])
  {
    if !TruthyInt(quantity) || quantity.value <= 0 then Outcome(s, BadRequest)
    else if lineId !in s.cart || s.cart[lineId].user != c.id then Outcome(s, NotFound)
    else
      var p := s.cart[lineId].offer;
      if p !in s.offers then Outcome(s, NotFound)
      else if quantity.value > s.offers[p].stock then Outcome(s, BadRequest)
      else Outcome(s.(cart := s.cart[lineId := s.cart[lineId].(quantity := quantity.value)]), Ok)
  }

  /** DELETE /cart/<id>: only the caller's own line; another user's line is 404. */
  function RemoveCartItem(s: Store, c: Caller, lineId: Id): (r: Outcome)
    ensures r.code == Ok <==> lineId in s.cart && s.cart[lineId].user == c.id
    ensures r.code != Ok ==> r == Outcome(s, NotFound)
    ensures r.code == Ok ==> r.store == s.(cart := s.cart - {lineId})
  {
    if lineId !in s.cart || s.cart[lineId].user != c.id then Outcome(s, NotFound)
    else Outcome(s.(cart := s.cart - {lineId}), Ok)
  }

  /** DELETE /cart/clear: removes exactly the caller's lines. */
  function ClearCart(s: Store, c: Caller): (r: Outcome)
    ensures r.code == Ok
    ensures r.store.(cart := s.cart) == s
    ensures forall k :: k in r.store.cart <==> k in s.cart && s.cart[k].user != c.id
    ensures forall k :: k in r.store.cart ==> r.store.cart[k] == s.cart[k]
  {
    Outcome(s.(cart := map k | k in s.cart && s.cart[k].user != c.id :: s.cart[k]), Ok)
  }

  /** After clearing, the caller's cart listing is empty and everyone else's is unchanged. */
  lemma ClearCartEmptiesListing(s: Store, c: Caller, other: Caller)
    requires other.id != c.id
    ensures CartItems(ClearCart(s, c).store, c) == {}
    ensures CartItems(ClearCart(s, c).store, other) == CartItems(s, other)
  {
    var s1 := ClearCart(s, c).store;
    assert forall k :: k !in CartItems(s1, c);
    assert forall k :: k in CartItems(s1, other) <==> k in CartItems(s, other);
  }

  /** No cart handler ever writes the offer table: stock is consulted, never held. */
  lemma CartNeverTouchesStock(s: Store, c: Caller, offerId: Option<Id>, quantity: Option<int>, lineId: Id)
    ensures AddToCart(s, c, offerId, quantity).store.offers == s.offers
    ensures UpdateCartItem(s, c, lineId, quantity).store.offers == s.offers
    ensures RemoveCartItem(s, c, lineId).store.offers == s.offers
    ensures ClearCart(s, c).store.offers == s.offers
  {
  }

  /** After a successful add the caller has exactly one line for the offer, holding
      the previous quantity (if any) plus the added one. */
  lemma {:induction false} AddToCartLeavesOneLine(s: Store, c: Caller, offerId: Option<Id>, quantity: Option<int>)
    requires Valid(s)
    requires AddToCart(s, c, offerId, quantity).code == Created
    ensures var s1 := AddToCart(s, c, offerId, quantity).store;
            var p := offerId.value;
            exists k ::
              && LinesFor(s1, c.id, p) == {k}
              && s1.cart[k].quantity == OrElse(quantity, 1)
                   + (if ExistingLine(s, c.id, p).Some? then s.cart[ExistingLine(s, c.id, p).value].quantity else 0)
  {
    var s1 := AddToCart(s, c, offerId, quantity).store;
    var p := offerId.value;
    match ExistingLine(s, c.id, p)
    case Some(k) =>
      assert forall j :: j in LinesFor(s1, c.id, p) <==> j == k;
      assert LinesFor(s1, c.id, p) == {k};
    case None =>
      var k := s.nextId;
      assert forall j :: j in LinesFor(s1, c.id, p) <==> j == k;
      assert LinesFor(s1, c.id, p) == {k};
  }

  /** Adding a new line and removing it again gives back the original cart. */
  lemma AddThenRemoveRestoresCart(s: Store, c: Caller, p: Id, quantity: Option<int>)
    requires Valid(s)
    requires ExistingLine(s, c.id, p).None?
    requires AddToCart(s, c, Some(p), quantity).code == Created
    ensures var s1 := AddToCart(s, c, Some(p), quantity).store;
            var r2 := RemoveCartItem(s1, c, s.nextId);
            r2.code == Ok && r2.store.cart == s.cart
  {
    var s1 := AddToCart(s, c, Some(p), quantity).store;
    assert s.nextId !in s.cart;
    assert s1.cart - {s.nextId} == s.cart;
  }

  lemma AddToCartPreservesValid(s: Store, c: Caller, offerId: Option<Id>, quantity: Option<int>)
    requires Valid(s)
    ensures Valid(AddToCart(s, c, offerId, quantity).store)
  {
    var r := AddToCart(s, c, offerId, quantity);
    if r.code == Created {
      var p := offerId.value;
      match ExistingLine(s, c.id, p)
      case Some(k) =>
        assert OneCartLinePerOffer(r.store);
      case None =>
        assert OneCartLinePerOffer(r.store);
    }
  }

  lemma UpdateCartItemPreservesValid(s: Store, c: Caller, lineId: Id, quantity: Option<int>)
    requires Valid(s)
    ensures Valid(UpdateCartItem(s, c, lineId, quantity).store)
  {
  }

  lemma RemoveCartItemPreservesValid(s: Store, c: Caller, lineId: Id)
    requires Valid(s)
    ensures Valid(RemoveCartItem(s, c, lineId).store)
  {
  }

  lemma ClearCartPreservesValid(s: Store, c: Caller)
    requires Valid(s)
    ensures Valid(ClearCart(s, c).store)
  {
  }

  /** Deleting an offer checks only for orders: cart lines for it stay in the cart
      table, and no cart listing shows them any more. */
  lemma DeletedOfferHidesCartLines(s: Store, admin: Caller, c: Caller, id: Id, k: Id)
    requires Offers.DeleteOffer(s, admin, id).code == Ok
    requires k in s.cart && s.cart[k].offer == id
    ensures var s1 := Offers.DeleteOffer(s, admin, id).store;
            k in s1.cart && s1.cart[k] == s.cart[k] && k !in CartItems(s1, c)
  {
  }
}
