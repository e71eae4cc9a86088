/** The offer handlers: an offer (a `ProductManufacturer` row) is one
    manufacturer's priced, stocked listing of a product; only admins create,
    change or delete offers (routes/product_manufacturer.py). */
module Offers {
  import opened Base
  import opened StoreModel

  /** The price and stock an offer may hold. */
  predicate PriceStockValid(price: real, stock: int)
  {
    price > 0.0 && stock >= 0
  }

  /** Some order references the offer. */
  predicate OfferOrdered(s: Store, p: Id)
  {
    exists k :: k in s.orders && s.orders[k].offer == p
  }

  /** POST /product_manufacturers: admins only; product, manufacturer and price are
      required; stock defaults to 0; product then manufacturer must exist. */
  function CreateOffer(s: Store, c: Caller, product: Option<Id>, manufacturer: Option<Id>,
                       price: Option<real>, stock: Option<int>): (r: Outcome)
    ensures !IsAdmin(c) ==> r == Outcome(s, Forbidden)
    ensures (IsAdmin(c) && (!TruthyInt(product) || !TruthyInt(manufacturer) || price.None?)) ==> r == Outcome(s, BadRequest)
    ensures (IsAdmin(c) && price.Some? && !PriceStockValid(price.value, OrElse(stock, 0))) ==> r == Outcome(s, BadRequest)
    ensures (IsAdmin(c) && TruthyInt(product) && TruthyInt(manufacturer) && price.Some?
             && PriceStockValid(price.value, OrElse(stock, 0)) && product.value !in s.products)
              ==> r == Outcome(s, NotFound)
    ensures (IsAdmin(c) && TruthyInt(product) && TruthyInt(manufacturer) && price.Some?
             && PriceStockValid(price.value, OrElse(stock, 0)) && product.value in s.products
             && manufacturer.value !in s.manufacturers)
              ==> r == Outcome(s, NotFound)
    ensures r.code == Created <==>
              && IsAdmin(c) && TruthyInt(product) && TruthyInt(manufacturer) && price.Some?
              && PriceStockValid(price.value, OrElse(stock, 0))
              && product.value in s.products && manufacturer.value in s.manufacturers
    ensures r.code != Created ==> r.store == s
    ensures r.code == Created ==>
              && r.store.offers == s.offers[s.nextId := Offer(product.value, manufacturer.value, price.value, OrElse(stock, 0))]
              && r.store.nextId > s.nextId
              && r.store.(offers := s.offers, nextId := s.nextId) == s
  {
    var st := OrElse(stock, 0);
    if c.role != Admin then Outcome(s, Forbidden)
    else if !TruthyInt(product) || !TruthyInt(manufacturer) || price.None? then Outcome(s, BadRequest)
    else if price.value <= 0.0 then Outcome(s, BadRequest)
    else if st < 0 then Outcome(s, BadRequest)
    else if product.value !in s.products then Outcome(s, NotFound)
    else if manufacturer.value !in s.manufacturers then Outcome(s, NotFound)
    else
      Outcome(s.(offers := s.offers[s.nextId := Offer(product.value, manufacturer.value, price.value, st)],
                 nextId := s.nextId + 1),
              Created)
  }

  /** PUT /product_manufacturers/<id>: admins only; at least one of price and stock;
      a supplied price must be positive and a supplied stock not negative; only the
      supplied fields change, and the offer keeps its product and manufacturer. */
  function UpdateOffer(s: Store, c: Caller, id: Id, price: Option<real>, stock: Option<int>): (r: Outcome)
    ensures !IsAdmin(c) ==> r == Outcome(s, Forbidden)
    ensures (IsAdmin(c) && price.None? && stock.None?) ==> r == Outcome(s, BadRequest)
    ensures (IsAdmin(c) && (price.Some? || stock.Some?) && id !in s.offers) ==> r == Outcome(s, NotFound)
    ensures (IsAdmin(c) && id in s.offers && ((price.Some? && price.value <= 0.0) || (stock.Some? && stock.value < 0)))
              ==> r == Outcome(s, BadRequest)
    ensures r.code == Ok <==>
              && IsAdmin(c) && (price.Some? || stock.Some?) && id in s.offers
              && (price.Some? ==> price.value > 0.0) && (stock.Some? ==> stock.value >= 0)
    ensures r.code != Ok ==> r.store == s
    ensures r.code == Ok ==>
              && r.store.(offers := s.offers) == s
              && r.store.offers.Keys == s.offers.Keys
              && (forall k :: k in s.offers && k != id ==> r.store.offers[k] == s.offers[k])
              && r.store.offers[id].product == s.offers[id].product
              && r.store.offers[id].manufacturer == s.offers[id].manufacturer
              && r.store.offers[id].price == OrElse(price, s.offers[id].price)
              && r.store.offers[id].stock == OrElse(stock, s.offers[id].stock)
  {
    if c.role != Admin then Outcome(s, Forbidden)
    else if price.None? && stock.None? then Outcome(s, BadRequest)
    else if id !in s.offers then Outcome(s, NotFound)
    else if price.Some? && price.value <= 0.0 then Outcome(s, BadRequest)
    else if stock.Some? && stock.value < 0 then Outcome(s, BadRequest)
    else
      var old_ := s.offers[id];
      Outcome(s.(offers := s.offers[id := old_.(price := OrElse(price, old_.price), stock := OrElse(stock, old_.stock))]), Ok)
  }

  /** DELETE /product_manufacturers/<id>: admins only; refused while an order refers
      to the offer; otherwise exactly that offer is removed. */
  function DeleteOffer(s: Store, c: Caller, id: Id): (r: Outcome)
    ensures !IsAdmin(c) ==> r == Outcome(s, Forbidden)
    ensures (IsAdmin(c) && id !in s.offers) ==> r == Outcome(s, NotFound)
    ensures (IsAdmin(c) && id in s.offers && OfferOrdered(s, id)) ==> r == Outcome(s, BadRequest)
    ensures r.code == Ok <==> IsAdmin(c) && id in s.offers && !OfferOrdered(s, id)
    ensures r.code != Ok ==> r.store == s
    ensures r.code == Ok ==> r.store == s.(offers := s.offers - {id})
    ensures r.code == Ok ==> forall k :: k in s.orders ==> s.orders[k].offer != id
  {
    if c.role != Admin then Outcome(s, Forbidden)
    else if id !in s.offers then Outcome(s, NotFound)
    else if OfferOrdered(s, id) then Outcome(s, BadRequest)
    else Outcome(s.(offers := s.offers - {id}), Ok)
  }

  /** Whatever an admin does to an offer, every offer keeps a positive price and a
      stock that is not negative. */
  lemma OfferUpdateKeepsStockNonNegative(s: Store, c: Caller, id: Id, price: Option<real>, stock: Option<int>)
    requires OffersWellFormed(s)
    ensures OffersWellFormed(UpdateOffer(s, c, id, price, stock).store)
    ensures forall k :: k in UpdateOffer(s, c, id, price, stock).store.offers ==>
              UpdateOffer(s, c, id, price, stock).store.offers[k].stock >= 0
  {
  }

  /** An offer with an order on it cannot be deleted, so no order is ever left
      pointing at a missing offer by an offer delete. */
  lemma DeleteOfferKeepsOrdersResolvable(s: Store, c: Caller, id: Id)
    requires forall k :: k in s.orders ==> s.orders[k].offer in s.offers
    ensures var s1 := DeleteOffer(s, c, id).store;
            forall k :: k in s1.orders ==> s1.orders[k].offer in s1.offers
  {
  }

  lemma CreateOfferPreservesValid(s: Store, c: Caller, product: Option<Id>, manufacturer: Option<Id>,
                                  price: Option<real>, stock: Option<int>)
    requires Valid(s)
    ensures Valid(CreateOffer(s, c, product, manufacturer, price, stock).store)
  {
  }

  lemma UpdateOfferPreservesValid(s: Store, c: Caller, id: Id, price: Option<real>, stock: Option<int>)
    requires Valid(s)
    ensures Valid(UpdateOffer(s, c, id, price, stock).store)
  {
  }

  lemma DeleteOfferPreservesValid(s: Store, c: Caller, id: Id)
    requires Valid(s)
    ensures Valid(DeleteOffer(s, c, id).store)
  {
  }
}
