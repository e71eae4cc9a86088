/** The manufacturer handlers: admins only; a rating always lies in [0, 5], and
    a manufacturer that still has offers cannot be deleted (routes/manufacturer.py). */
module Manufacturers {
  import opened Base
  import opened StoreModel

  /** Some offer references the manufacturer. */
  predicate ManufacturerOffered(s: Store, id: Id)
  {
    exists k :: k in s.offers && s.offers[k].manufacturer == id
  }

  /** POST /manufacturers: admins only; a non-empty name; the rating defaults to 0. */
  function CreateManufacturer(s: Store, c: Caller, name: Option<string>, rating: Option<real>): (r: Outcome)
    ensures !IsAdmin(c) ==> r == Outcome(s, Forbidden)
    ensures (IsAdmin(c) && !TruthyStr(name)) ==> r == Outcome(s, BadRequest)
    ensures (IsAdmin(c) && !RatingInRange(OrElse(rating, 0.0))) ==> r == Outcome(s, BadRequest)
    ensures r.code == Created <==> IsAdmin(c) && TruthyStr(name) && RatingInRange(OrElse(rating, 0.0))
    ensures r.code != Created ==> r.store == s
    ensures r.code == Created ==>
              && r.store.manufacturers == s.manufacturers[s.nextId := Manufacturer(name.value, OrElse(rating, 0.0))]
              && r.store.nextId > s.nextId
              && r.store.(manufacturers := s.manufacturers, nextId := s.nextId) == s
  {
    var rt := OrElse(rating, 0.0);
    if c.role != Admin then Outcome(s, Forbidden)
    else if !TruthyStr(name) then Outcome(s, BadRequest)
    else if rt < 0.0 || rt > 5.0 then Outcome(s, BadRequest)
    else
      Outcome(s.(manufacturers := s.manufacturers[s.nextId := Manufacturer(name.value, rt)], nextId := s.nextId + 1),
              Created)
  }

  /** PUT /manufacturers/<id>: admins only; at least one of name and rating; a
      supplied rating is range-checked before the lookup; only supplied fields change. */
  function UpdateManufacturer(s: Store, c: Caller, id: Id, name: Option<string>, rating: Option<real>): (r: Outcome)
    ensures !IsAdmin(c) ==> r == Outcome(s, Forbidden)
    ensures (IsAdmin(c) && name.None? && rating.None?) ==> r == Outcome(s, BadRequest)
    ensures (IsAdmin(c) && rating.Some? && !RatingInRange(rating.value)) ==> r == Outcome(s, BadRequest)
    ensures (IsAdmin(c) && (name.Some? || rating.Some?) && (rating.Some? ==> RatingInRange(rating.value))
             && id !in s.manufacturers)
              ==> r == Outcome(s, NotFound)
    ensures r.code == Ok <==>
              && IsAdmin(c) && (name.Some? || rating.Some?) && (rating.Some? ==> RatingInRange(rating.value))
              && id in s.manufacturers
    ensures r.code != Ok ==> r.store == s
    ensures r.code == Ok ==>
              && r.store.(manufacturers := s.manufacturers) == s
              && r.store.manufacturers == s.manufacturers[id := Manufacturer(OrElse(name, s.manufacturers[id].name),
                                                                              OrElse(rating, s.manufacturers[id].rating))]
  {
    if c.role != Admin then Outcome(s, Forbidden)
    else if name.None? && rating.None? then Outcome(s, BadRequest)
    else if rating.Some? && (rating.value < 0.0 || rating.value > 5.0) then Outcome(s, BadRequest)
    else if id !in s.manufacturers then Outcome(s, NotFound)
    else
      var m := s.manufacturers[id];
      Outcome(s.(manufacturers := s.manufacturers[id := m.(name := OrElse(name, m.name), rating := OrElse(rating, m.rating))]), Ok)
  }

  /** DELETE /manufacturers/<id>: admins only; refused while an offer uses the
      manufacturer; otherwise exactly that manufacturer is removed. */
  function DeleteManufacturer(s: Store, c: Caller, id: Id): (r: Outcome)
    ensures !IsAdmin(c) ==> r == Outcome(s, Forbidden)
    ensures (IsAdmin(c) && id !in s.manufacturers) ==> r == Outcome(s, NotFound)
    ensures (IsAdmin(c) && id in s.manufacturers && ManufacturerOffered(s, id)) ==> r == Outcome(s, BadRequest)
    ensures r.code == Ok <==> IsAdmin(c) && id in s.manufacturers && !ManufacturerOffered(s, id)
    ensures r.code != Ok ==> r.store == s
    ensures r.code == Ok ==> r.store == s.(manufacturers := s.manufacturers - {id})
  {
    if c.role != Admin then Outcome(s, Forbidden)
    else if id !in s.manufacturers then Outcome(s, NotFound)
    else if ManufacturerOffered(s, id) then Outcome(s, BadRequest)
    else Outcome(s.(manufacturers := s.manufacturers - {id}), Ok)
  }

  /** Whatever the request, every stored manufacturer rating stays within [0, 5]. */
  lemma RatingsStayInRange(s: Store, c: Caller, id: Id, name: Option<string>, rating: Option<real>)
    requires forall k :: k in s.manufacturers ==> RatingInRange(s.manufacturers[k].rating)
    ensures var s1 := CreateManufacturer(s, c, name, rating).store;
            forall k :: k in s1.manufacturers ==> RatingInRange(s1.manufacturers[k].rating)
    ensures var s2 := UpdateManufacturer(s, c, id, name, rating).store;
            forall k :: k in s2.manufacturers ==> RatingInRange(s2.manufacturers[k].rating)
  {
  }

  lemma CreateManufacturerPreservesValid(s: Store, c: Caller, name: Option<string>, rating: Option<real>)
    requires Valid(s)
    ensures Valid(CreateManufacturer(s, c, name, rating).store)
  {
  }

  lemma UpdateManufacturerPreservesValid(s: Store, c: Caller, id: Id, name: Option<string>, rating: Option<real>)
    requires Valid(s)
    ensures Valid(UpdateManufacturer(s, c, id, name, rating).store)
  {
  }

  /** The offer guard is exactly what keeps every offer's manufacturer alive. */
  lemma DeleteManufacturerPreservesValid(s: Store, c: Caller, id: Id)
    requires Valid(s)
    ensures Valid(DeleteManufacturer(s, c, id).store)
  {
  }
}
