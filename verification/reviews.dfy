/** The review handlers: one review per (user, product), a rating in [0, 5],
    changes and deletes by the author or an admin (routes/review.py). */
module Reviews {
  import opened Base
  import opened StoreModel

  /** The user has already reviewed the product. */
  predicate HasReviewed(s: Store, user: Id, product: Id)
  {
    exists k :: k in s.reviews && s.reviews[k].user == user && s.reviews[k].product == product
  }

  /** POST /reviews: product and rating required (`is None`, not truthiness); the
      rating in range; the product must exist; one review per (caller, product). */
  function CreateReview(s: Store, c: Caller, product: Option<Id>, rating: Option<real>, text: Option<string>): (r: Outcome)
    ensures (product.None? || rating.None?) ==> r == Outcome(s, BadRequest)
    ensures (rating.Some? && !RatingInRange(rating.value)) ==> r == Outcome(s, BadRequest)
    ensures (product.Some? && rating.Some? && RatingInRange(rating.value) && product.value !in s.products)
              ==> r == Outcome(s, NotFound)
    ensures (product.Some? && rating.Some? && RatingInRange(rating.value) && product.value in s.products
             && HasReviewed(s, c.id, product.value))
              ==> r == Outcome(s, BadRequest)
    ensures r.code == Created <==>
              && product.Some? && rating.Some? && RatingInRange(rating.value)
              && product.value in s.products && !HasReviewed(s, c.id, product.value)
    ensures r.code != Created ==> r.store == s
    ensures r.code == Created ==>
              && r.store.reviews == s.reviews[s.nextId := Review(c.id, product.value, rating.value, OrElse(text, ""))]
              && r.store.nextId > s.nextId
              && r.store.(reviews := s.reviews, nextId := s.nextId) == s
  {
    if product.None? || rating.None? then Outcome(s, BadRequest)
    else if !(0.0 <= rating.value <= 5.0) then Outcome(s, BadRequest)
    else if product.value !in s.products then Outcome(s, NotFound)
    else if HasReviewed(s, c.id, product.value) then Outcome(s, BadRequest)
    else
      Outcome(s.(reviews := s.reviews[s.nextId := Review(c.id, product.value, rating.value, OrElse(text, ""))],
                 nextId := s.nextId + 1),
              Created)
  }

  /** PUT /reviews/<id>: rating or text required, the rating range-checked before
      the lookup, then author-or-admin; only rating and text change. */
  function UpdateReview(s: Store, c: Caller, id: Id, rating: Option<real>, text: Option<string>): (r: Outcome)
    ensures (rating.None? && text.None?) ==> r == Outcome(s, BadRequest)
    ensures (rating.Some? && !RatingInRange(rating.value)) ==> r == Outcome(s, BadRequest)
    ensures ((rating.Some? || text.Some?) && (rating.Some? ==> RatingInRange(rating.value)) && id !in s.reviews)
              ==> r == Outcome(s, NotFound)
    ensures ((rating.Some? || text.Some?) && (rating.Some? ==> RatingInRange(rating.value)) && id in s.reviews
             && !OwnerOrAdmin(c, s.reviews[id].user))
              ==> r == Outcome(s, Forbidden)
    ensures r.code == Ok <==>
              && (rating.Some? || text.Some?) && (rating.Some? ==> RatingInRange(rating.value))
              && id in s.reviews && OwnerOrAdmin(c, s.reviews[id].user)
    ensures r.code != Ok ==> r.store == s
    ensures r.code == Ok ==>
              && r.store.(reviews := s.reviews) == s
              && r.store.reviews == s.reviews[id := Review(s.reviews[id].user, s.reviews[id].product,
                                                           OrElse(rating, s.reviews[id].rating),
                                                           OrElse(text, s.reviews[id].text))]
  {
    if rating.None? && text.None? then Outcome(s, BadRequest)
    else if rating.Some? && !(0.0 <= rating.value <= 5.0) then Outcome(s, BadRequest)
    else if id !in s.reviews then Outcome(s, NotFound)
    else if s.reviews[id].user != c.id && c.role != Admin then Outcome(s, Forbidden)
    else
      var rv := s.reviews[id];
      Outcome(s.(reviews := s.reviews[id := rv.(rating := OrElse(rating, rv.rating), text := OrElse(text, rv.text))]), Ok)
  }

  /** DELETE /reviews/<id>: author or admin; removes exactly that review. */
  function DeleteReview(s: Store, c: Caller, id: Id): (r: Outcome)
    ensures id !in s.reviews ==> r == Outcome(s, NotFound)
    ensures (id in s.reviews && !OwnerOrAdmin(c, s.reviews[id].user)) ==> r == Outcome(s, Forbidden)
    ensures r.code == Ok <==> id in s.reviews && OwnerOrAdmin(c, s.reviews[id].user)
    ensures r.code == Ok ==> r.store == s.(reviews := s.reviews - {id})
  {
    if id !in s.reviews then Outcome(s, NotFound)
    else if s.reviews[id].user != c.id && c.role != Admin then Outcome(s, Forbidden)
    else Outcome(s.(reviews := s.reviews - {id}), Ok)
  }

  /** GET /reviews: admins only; reviews whose author and product both still exist. */
  function ListAllReviews(s: Store, c: Caller): (r: Answer<set<Id>>)
    ensures r.Found? <==> IsAdmin(c)
    ensures r.Refused? ==> r.code == Forbidden
    ensures r.Found? ==> forall k :: k in r.value <==> k in s.reviews && s.reviews[k].user in s.users
                                                       && s.reviews[k].product in s.products
  {
    if c.role != Admin then Refused(Forbidden)
    else Found(set k | k in s.reviews && s.reviews[k].user in s.users && s.reviews[k].product in s.products)
  }

  /** A second review of the same product by the same user is refused, whatever it says. */
  lemma SecondReviewRefused(s: Store, c: Caller, product: Option<Id>, rating: Option<real>, text: Option<string>,
                            rating2: Option<real>, text2: Option<string>)
    requires CreateReview(s, c, product, rating, text).code == Created
    requires rating2.Some? && RatingInRange(rating2.value)
    ensures var s1 := CreateReview(s, c, product, rating, text).store;
            CreateReview(s1, c, product, rating2, text2) == Outcome(s1, BadRequest)
  {
    var s1 := CreateReview(s, c, product, rating, text).store;
    assert s1.reviews[s.nextId].user == c.id && s1.reviews[s.nextId].product == product.value;
    assert HasReviewed(s1, c.id, product.value);
  }

  /** Once created, a review can be deleted by its author, which gives back the
      original review table. */
  lemma CreateThenDeleteReview(s: Store, c: Caller, product: Option<Id>, rating: Option<real>, text: Option<string>)
    requires Valid(s)
    requires CreateReview(s, c, product, rating, text).code == Created
    ensures var s1 := CreateReview(s, c, product, rating, text).store;
            var r2 := DeleteReview(s1, c, s.nextId);
            r2.code == Ok && r2.store.reviews == s.reviews
  {
    var s1 := CreateReview(s, c, product, rating, text).store;
    assert s.nextId !in s.reviews;
    assert s1.reviews - {s.nextId} == s.reviews;
  }

  lemma CreateReviewPreservesValid(s: Store, c: Caller, product: Option<Id>, rating: Option<real>, text: Option<string>)
    requires Valid(s)
    ensures Valid(CreateReview(s, c, product, rating, text).store)
  {
  }

  lemma UpdateReviewPreservesValid(s: Store, c: Caller, id: Id, rating: Option<real>, text: Option<string>)
    requires Valid(s)
    ensures Valid(UpdateReview(s, c, id, rating, text).store)
  {
    var r := UpdateReview(s, c, id, rating, text);
    if r.code == Ok {
      assert OneReviewPerProduct(r.store);
    }
  }

  lemma DeleteReviewPreservesValid(s: Store, c: Caller, id: Id)
    requires Valid(s)
    ensures Valid(DeleteReview(s, c, id).store)
  {
  }

  /** Creating a review adds exactly the new id to the admin listing when the
      caller's user row exists, and leaves the listing unchanged otherwise. */
  lemma CreateReviewExtendsAdminListing(s: Store, c: Caller, admin: Caller, product: Option<Id>,
                                        rating: Option<real>, text: Option<string>)
    requires Valid(s) && IsAdmin(admin)
    requires CreateReview(s, c, product, rating, text).code == Created
    ensures ListAllReviews(CreateReview(s, c, product, rating, text).store, admin).value
              == ListAllReviews(s, admin).value + (if c.id in s.users then {s.nextId} else {})
  {
    assert s.nextId !in s.reviews;
  }
}
