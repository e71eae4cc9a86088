/** The user-management handlers: listing and deleting users is for admins; a
    user may change their own account, and only admins may change someone
    else's or any role; e-mail addresses stay unique (routes/user.py). */
module Users {
  import opened Base
  import opened StoreModel
  import Addresses
  import Reviews
  import Payments
  import ShippingRecords

  /** The optional fields of PUT /users/<id>. */
  datatype UserPatch = UserPatch(name: Option<string>, email: Option<string>, phone: Option<string>,
                                 password: Option<string>, role: Option<string>)

  /** The `not any([...])` test: no field is present and non-empty. */
  predicate PatchEmpty(p: UserPatch)
  {
    !TruthyStr(p.name) && !TruthyStr(p.email) && !TruthyStr(p.phone) && !TruthyStr(p.password) && !TruthyStr(p.role)
  }

  /** Another user than `id` already has an address the lookup treats as this one. */
  predicate EmailTaken(s: Store, email: string, id: Id)
  {
    exists k :: k in s.users && k != id && SameEmail(s.users[k].email, email)
  }

  /** The two role strings an update may store. */
  predicate KnownRole(role: string)
  {
    role == "user" || role == "admin"
  }

  /** The account after applying the supplied fields; the password is stored
      through `hash`, the password-hashing function the handler calls. */
  function Patched(a: Account, p: UserPatch, hash: string -> string): (b: Account)
    ensures b.name == OrElse(p.name, a.name) && b.email == OrElse(p.email, a.email)
    ensures b.phone == (if p.phone.Some? then p.phone else a.phone)
    ensures b.password == (if p.password.Some? then hash(p.password.value) else a.password)
    ensures b.role == OrElse(p.role, a.role)
  {
    Account(OrElse(p.name, a.name), OrElse(p.email, a.email), if p.phone.Some? then p.phone else a.phone,
            if p.password.Some? then hash(p.password.value) else a.password, OrElse(p.role, a.role))
  }

  /** GET /users: admins only; every user. */
  function ListUsers(s: Store, c: Caller): (r: Answer<set<Id>>)
    ensures r.Found? <==> IsAdmin(c)
    ensures r.Refused? ==> r.code == Forbidden
    ensures r.Found? ==> forall k :: k in r.value <==> k in s.users
  {
    if c.role != Admin then Refused(Forbidden) else Found(s.users.Keys)
  }

  /** DELETE /users/<id>: admins only; no existence check, so success is reported
      even for an unknown id. The model does not cascade: the user's orders,
      addresses and reviews stay, and the listings that join on the user hide them. */
  function DeleteUser(s: Store, c: Caller, id: Id): (r: Outcome)
    ensures r.code == Ok <==> IsAdmin(c)
    ensures r.code != Ok ==> r == Outcome(s, Forbidden)
    ensures r.code == Ok ==> id !in r.store.users && r.store == s.(users := s.users - {id})
    ensures (r.code == Ok && id !in s.users) ==> r.store == s
  {
    if c.role != Admin then Outcome(s, Forbidden)
    else Outcome(s.(users := s.users - {id}), Ok)
  }

  /** PUT /users/<id>, checks in the handler's order: someone else's account
      without being admin (403); a role supplied by a non-admin (403); no non-empty
      field (400); unknown user (404); an e-mail another user has (400); a role
      other than "user" or "admin" (400). Otherwise exactly the supplied fields
      change. */
  function UpdateUser(s: Store, c: Caller, id: Id, p: UserPatch, hash: string -> string): (r: Outcome)
    ensures (!IsAdmin(c) && c.id != id) ==> r == Outcome(s, Forbidden)
    ensures (!IsAdmin(c) && p.role.Some?) ==> r == Outcome(s, Forbidden)
    ensures (OwnerOrAdmin(c, id) && (IsAdmin(c) || p.role.None?) && PatchEmpty(p)) ==> r == Outcome(s, BadRequest)
    ensures (OwnerOrAdmin(c, id) && (IsAdmin(c) || p.role.None?) && !PatchEmpty(p) && id !in s.users)
              ==> r == Outcome(s, NotFound)
    ensures (OwnerOrAdmin(c, id) && (IsAdmin(c) || p.role.None?) && !PatchEmpty(p) && id in s.users
             && p.email.Some? && EmailTaken(s, p.email.value, id))
              ==> r == Outcome(s, BadRequest)
    ensures (OwnerOrAdmin(c, id) && (IsAdmin(c) || p.role.None?) && !PatchEmpty(p) && id in s.users
             && p.role.Some? && !KnownRole(p.role.value))
              ==> r == Outcome(s, BadRequest)
    ensures r.code == Ok <==>
              && OwnerOrAdmin(c, id) && (IsAdmin(c) || p.role.None?) && !PatchEmpty(p) && id in s.users
              && (p.email.Some? ==> !EmailTaken(s, p.email.value, id))
              && (p.role.Some? ==> KnownRole(p.role.value))
    ensures r.code != Ok ==> r.store == s
    ensures r.code == Ok ==> r.store == s.(users := s.users[id := Patched(s.users[id], p, hash)])
  {
    if c.role != Admin && c.id != id then Outcome(s, Forbidden)
    else if c.role != Admin && p.role.Some? then Outcome(s, Forbidden)
    else if PatchEmpty(p) then Outcome(s, BadRequest)
    else if id !in s.users then Outcome(s, NotFound)
    else if p.email.Some? && EmailTaken(s, p.email.value, id) then Outcome(s, BadRequest)
    else if p.role.Some? && p.role.value != "user" && p.role.value != "admin" then Outcome(s, BadRequest)
    else Outcome(s.(users := s.users[id := Patched(s.users[id], p, hash)]), Ok)
  }

  /** A caller who is not an admin never changes anyone's stored role, and never
      changes any account but their own. */
  lemma NonAdminCannotChangeRoles(s: Store, c: Caller, id: Id, p: UserPatch, hash: string -> string)
    requires !IsAdmin(c)
    ensures var s1 := UpdateUser(s, c, id, p, hash).store;
            && s1.users.Keys == s.users.Keys
            && (forall k :: k in s.users ==> s1.users[k].role == s.users[k].role)
            && (forall k :: k in s.users && k != c.id ==> s1.users[k] == s.users[k])
  {
  }

  /** After a successful update every stored role an update wrote is "user" or "admin". */
  lemma UpdatedRoleIsKnown(s: Store, c: Caller, id: Id, p: UserPatch, hash: string -> string)
    requires UpdateUser(s, c, id, p, hash).code == Ok
    requires p.role.Some?
    ensures KnownRole(UpdateUser(s, c, id, p, hash).store.users[id].role)
  {
  }

  /** E-mail addresses stay unique across users through every update. */
  lemma UpdateUserPreservesUniqueEmails(s: Store, c: Caller, id: Id, p: UserPatch, hash: string -> string)
    requires UniqueEmails(s)
    ensures UniqueEmails(UpdateUser(s, c, id, p, hash).store)
  {
    var r := UpdateUser(s, c, id, p, hash);
    if r.code == Ok && p.email.Some? {
      assert forall k :: k in s.users && k != id ==> !SameEmail(s.users[k].email, p.email.value);
    }
  }

  lemma UpdateUserPreservesValid(s: Store, c: Caller, id: Id, p: UserPatch, hash: string -> string)
    requires Valid(s)
    ensures Valid(UpdateUser(s, c, id, p, hash).store)
  {
    UpdateUserPreservesUniqueEmails(s, c, id, p, hash);
  }

  lemma DeleteUserPreservesValid(s: Store, c: Caller, id: Id)
    requires Valid(s)
    ensures Valid(DeleteUser(s, c, id).store)
  {
  }

  /** The e-mail clash is case-insensitive: with "a@x.com" taken by user 1, user 2
      cannot change their address to "A@x.com". */
  lemma CaseVariantEmailRefused(s: Store, hash: string -> string)
    requires 1 in s.users && s.users[1].email == "a@x.com" && 2 in s.users
    ensures UpdateUser(s, Caller(2, User), 2, UserPatch(None, Some("A@x.com"), None, None, None), hash)
              == Outcome(s, BadRequest)
  {
    assert Lower("A@x.com") == Lower("a@x.com");
    assert SameEmail(s.users[1].email, "A@x.com");
  }

  /** After a user is deleted, the user is gone from the user listing and every
      admin listing that joins on the user drops exactly that user's rows. */
  lemma DeletedUserLeavesListings(s: Store, admin: Caller, id: Id)
    requires IsAdmin(admin)
    ensures var s1 := DeleteUser(s, admin, id).store;
            && ListUsers(s1, admin).value == ListUsers(s, admin).value - {id}
            && (forall k :: k in Addresses.ListAllAddresses(s1, admin).value
                  <==> k in Addresses.ListAllAddresses(s, admin).value && s.addresses[k].user != id)
            && (forall k :: k in Reviews.ListAllReviews(s1, admin).value
                  <==> k in Reviews.ListAllReviews(s, admin).value && s.reviews[k].user != id)
            && (forall k :: k in Payments.ListPayments(s1, admin).value
                  <==> k in Payments.ListPayments(s, admin).value && s.orders[s.payments[k].order].user != id)
            && (forall k :: k in ShippingRecords.ListShippings(s1, admin).value
                  <==> k in ShippingRecords.ListShippings(s, admin).value && s.orders[s.shippings[k].order].user != id)
  {
  }
}
