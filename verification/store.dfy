/** The relational store behind the storefront as one immutable record of
    finite maps, one per table, keyed by the table's AUTO_INCREMENT id, and the
    invariants the request handlers maintain between requests. */
module StoreModel {
  import opened Base

  /** A row of `User`. `password` holds the stored hash; `role` the stored role string. */
  datatype Account = Account(name: string, email: string, phone: Option<string>, password: string, role: string)

  /** A row of `Manufacturer`; the rating is a real in [0, 5]. */
  datatype Manufacturer = Manufacturer(name: string, rating: real)

  /** A row of `ProductManufacturer`: one manufacturer's priced, stocked listing of a product. */
  datatype Offer = Offer(product: Id, manufacturer: Id, price: real, stock: int)

  /** The five values of `Order.status` the handlers recognise. */
  datatype OrderStatus = Pending | Processing | Shipped | Delivered | Cancelled

  /** A row of `Order`: one user's purchase of `quantity` units of one offer. */
  datatype Order = Order(user: Id, offer: Id, quantity: int, status: OrderStatus)

  /** A row of `Cart`: a staged, not yet reserved, quantity of one offer for one user. */
  datatype CartLine = CartLine(user: Id, offer: Id, quantity: int)

  /** A row of `Payment`: the recorded fact that an order was paid. */
  datatype Payment = Payment(order: Id, amount: real, paymentMethod: string)

  /** A row of `Shipping`. Dates are opaque values; the status is free text,
      independent of the order's own status. */
  datatype Shipping = Shipping(order: Id, address: Id, shippingDate: Option<string>,
                               estimatedDelivery: Option<string>, status: string)

  /** A row of `Address`, owned by one user. */
  datatype Address = Address(user: Id, country: string, city: string, zip: string, line: string)

  /** A row of `Review`: one user's rating of one product. */
  datatype Review = Review(user: Id, product: Id, rating: real, text: string)

  /** The whole database. Products are only consulted (their ids), never changed
      here. `nextId` is the AUTO_INCREMENT counter the next inserted row receives. */
  datatype Store = Store(
    users: map<Id, Account>,
    products: set<Id>,
    manufacturers: map<Id, Manufacturer>,
    offers: map<Id, Offer>,
    orders: map<Id, Order>,
    cart: map<Id, CartLine>,
    payments: map<Id, Payment>,
    shippings: map<Id, Shipping>,
    addresses: map<Id, Address>,
    reviews: map<Id, Review>,
    nextId: Id)

  /** Result of a mutating handler: the store after the request and the status code. */
  datatype Outcome = Outcome(store: Store, code: Code)

  /** `m'` is `m` with exactly offer `p`'s stock moved by `delta`; every other offer,
      and every other field of `p`, is as before. */
  ghost predicate StockShifted(m: map<Id, Offer>, m': map<Id, Offer>, p: Id, delta: int)
  {
    && m'.Keys == m.Keys
    && (forall k :: k in m && k != p ==> m'[k] == m[k])
    && (p in m ==> m'[p] == m[p].(stock := m[p].stock + delta))
  }

  /** Shifting one offer's stock down and then up by the same amount gives back
      the original offer table. */
  lemma StockShiftUndone(m: map<Id, Offer>, m1: map<Id, Offer>, m2: map<Id, Offer>, p: Id, delta: int)
    requires StockShifted(m, m1, p, -delta)
    requires StockShifted(m1, m2, p, delta)
    ensures m2 == m
  {
    assert forall k :: k in m ==> m2[k] == m[k];
  }

  /** Every row of `m` has an id below the counter, so the counter is a fresh id. */
  ghost predicate Below<V>(m: map<Id, V>, n: Id)
  {
    forall k :: k in m ==> k < n
  }

  ghost predicate IdsBelowCounter(s: Store)
  {
    && Below(s.manufacturers, s.nextId)
    && Below(s.offers, s.nextId)
    && Below(s.orders, s.nextId)
    && Below(s.cart, s.nextId)
    && Below(s.payments, s.nextId)
    && Below(s.shippings, s.nextId)
    && Below(s.addresses, s.nextId)
    && Below(s.reviews, s.nextId)
  }

  /** Every offer has a positive price and a stock that is not negative. */
  ghost predicate OffersWellFormed(s: Store)
  {
    forall k :: k in s.offers ==> s.offers[k].price > 0.0 && s.offers[k].stock >= 0
  }

  /** The references that deletes are guarded against, or that nothing here deletes:
      offers point at existing products and manufacturers, orders at existing
      offers, shipping records at existing addresses, reviews at existing products. */
  ghost predicate ReferencesIntact(s: Store)
  {
    && (forall k :: k in s.offers ==>
          s.offers[k].product in s.products && s.offers[k].manufacturer in s.manufacturers)
    && (forall k :: k in s.orders ==> s.orders[k].offer in s.offers)
    && (forall k :: k in s.shippings ==> s.shippings[k].address in s.addresses)
    && (forall k :: k in s.reviews ==> s.reviews[k].product in s.products)
  }

  /** Ratings of manufacturers and reviews lie in the closed interval [0, 5]. */
  predicate RatingInRange(rating: real)
  {
    0.0 <= rating <= 5.0
  }

  /** The value checks every insert and update performs. */
  ghost predicate ValuesInRange(s: Store)
  {
    && (forall k :: k in s.orders ==> s.orders[k].quantity > 0)
    && (forall k :: k in s.cart ==> s.cart[k].quantity > 0)
    && (forall k :: k in s.payments ==> s.payments[k].amount > 0.0)
    && (forall k :: k in s.manufacturers ==> RatingInRange(s.manufacturers[k].rating))
    && (forall k :: k in s.reviews ==> RatingInRange(s.reviews[k].rating))
  }

  ghost predicate OnePaymentPerOrder(s: Store)
  {
    forall i, j :: i in s.payments && j in s.payments && s.payments[i].order == s.payments[j].order ==> i == j
  }

  ghost predicate OneShippingPerOrder(s: Store)
  {
    forall i, j :: i in s.shippings && j in s.shippings && s.shippings[i].order == s.shippings[j].order ==> i == j
  }

  ghost predicate OneCartLinePerOffer(s: Store)
  {
    forall i, j ::
      (i in s.cart && j in s.cart && s.cart[i].user == s.cart[j].user && s.cart[i].offer == s.cart[j].offer)
      ==> i == j
  }

  ghost predicate OneReviewPerProduct(s: Store)
  {
    forall i, j ::
      (i in s.reviews && j in s.reviews && s.reviews[i].user == s.reviews[j].user
       && s.reviews[i].product == s.reviews[j].product)
      ==> i == j
  }

  /** Two e-mail addresses the `email = %s` lookup treats as equal: the column's
      collation ignores letter case, modelled on ASCII letters. */
  predicate SameEmail(a: string, b: string)
  {
    Lower(a) == Lower(b)
  }

  /** No two users have e-mail addresses the lookup would treat as equal. */
  ghost predicate UniqueEmails(s: Store)
  {
    forall i, j :: i in s.users && j in s.users && SameEmail(s.users[i].email, s.users[j].email) ==> i == j
  }

  /** The at-most-one rules. */
  ghost predicate AtMostOne(s: Store)
  {
    && OnePaymentPerOrder(s)
    && OneShippingPerOrder(s)
    && OneCartLinePerOffer(s)
    && OneReviewPerProduct(s)
    && UniqueEmails(s)
  }

  /** The store invariant every handler preserves. */
  ghost predicate Valid(s: Store)
  {
    && IdsBelowCounter(s)
    && OffersWellFormed(s)
    && ReferencesIntact(s)
    && ValuesInRange(s)
    && AtMostOne(s)
  }

  /** The empty database. No handler starts from it; it shows that `Valid` can be
      met, so the preservation lemmas do not rest on an impossible invariant. */
  function EmptyStore(): (s: Store)
    ensures Valid(s)
  {
    Store(map[], {}, map[], map[], map[], map[], map[], map[], map[], map[], 1)
  }
}
