/** The address handlers: every address belongs to the user who created it;
    reads, updates and deletes are for the owner or an admin, and an address a
    shipping record uses cannot be deleted (routes/address.py). */
module Addresses {
  import opened Base
  import opened StoreModel

  /** Some shipping record references the address. */
  predicate AddressShipped(s: Store, id: Id)
  {
    exists k :: k in s.shippings && s.shippings[k].address == id
  }

  /** POST /addresses: all four fields must be non-empty; the owner is always the caller. */
  function CreateAddress(s: Store, c: Caller, country: Option<string>, city: Option<string>,
                         zip: Option<string>, line: Option<string>): (r: Outcome)
    ensures r.code == Created <==> TruthyStr(country) && TruthyStr(city) && TruthyStr(zip) && TruthyStr(line)
    ensures r.code != Created ==> r == Outcome(s, BadRequest)
    ensures r.code == Created ==>
              && r.store.addresses == s.addresses[s.nextId := Address(c.id, country.value, city.value, zip.value, line.value)]
              && r.store.addresses[s.nextId].user == c.id
              && r.store.nextId > s.nextId
              && r.store.(addresses := s.addresses, nextId := s.nextId) == s
  {
    if !TruthyStr(country) || !TruthyStr(city) || !TruthyStr(zip) || !TruthyStr(line) then Outcome(s, BadRequest)
    else
      Outcome(s.(addresses := s.addresses[s.nextId := Address(c.id, country.value, city.value, zip.value, line.value)],
                 nextId := s.nextId + 1),
              Created)
  }

  /** GET /addresses: exactly the caller's own addresses. */
  function ListAddresses(s: Store, c: Caller): (ids: set<Id>)
    ensures forall k :: k in ids <==> k in s.addresses && s.addresses[k].user == c.id
  {
    set k | k in s.addresses && s.addresses[k].user == c.id
  }

  /** The owner-or-admin check shared by get, update and delete of one address. */
  function AddressAccess(s: Store, c: Caller, id: Id): (r: Code)
    ensures r == Ok <==> id in s.addresses && OwnerOrAdmin(c, s.addresses[id].user)
    ensures r == NotFound <==> id !in s.addresses
    ensures r == Forbidden <==> id in s.addresses && !OwnerOrAdmin(c, s.addresses[id].user)
  {
    if id !in s.addresses then NotFound
    else if s.addresses[id].user != c.id && c.role != Admin then Forbidden
    else Ok
  }

  /** GET /addresses/<id>. */
  function GetAddress(s: Store, c: Caller, id: Id): (r: Answer<Address>)
    ensures r.Found? <==> id in s.addresses && OwnerOrAdmin(c, s.addresses[id].user)
    ensures id !in s.addresses ==> r == Refused(NotFound)
    ensures (id in s.addresses && !OwnerOrAdmin(c, s.addresses[id].user)) ==> r == Refused(Forbidden)
    ensures r.Found? ==> r.value == s.addresses[id]
  {
    var access := AddressAccess(s, c, id);
    if access != Ok then Refused(access) else Found(s.addresses[id])
  }

  /** PUT /addresses/<id>: every omitted field keeps its old value; the owner never
      changes. There is no requirement that any field be supplied, and a supplied
      field is not checked for emptiness. */
  function UpdateAddress(s: Store, c: Caller, id: Id, country: Option<string>, city: Option<string>,
                         zip: Option<string>, line: Option<string>): (r: Outcome)
    ensures r.code == Ok <==> id in s.addresses && OwnerOrAdmin(c, s.addresses[id].user)
    ensures r.code != Ok ==> r.store == s && r.code == AddressAccess(s, c, id)
    ensures r.code == Ok ==>
              && r.store.(addresses := s.addresses) == s
              && r.store.addresses.Keys == s.addresses.Keys
              && (forall k :: k in s.addresses && k != id ==> r.store.addresses[k] == s.addresses[k])
              && r.store.addresses[id].user == s.addresses[id].user
              && r.store.addresses[id].country == OrElse(country, s.addresses[id].country)
              && r.store.addresses[id].city == OrElse(city, s.addresses[id].city)
              && r.store.addresses[id].zip == OrElse(zip, s.addresses[id].zip)
              && r.store.addresses[id].line == OrElse(line, s.addresses[id].line)
  {
    var access := AddressAccess(s, c, id);
    if access != Ok then Outcome(s, access)
    else
      var a := s.addresses[id];
      var updated := Address(a.user, OrElse(country, a.country), OrElse(city, a.city), OrElse(zip, a.zip), OrElse(line, a.line));
      Outcome(s.(addresses := s.addresses[id := updated]), Ok)
  }

  /** DELETE /addresses/<id>: refused while a shipping record uses the address;
      otherwise exactly that address is removed. */
  function DeleteAddress(s: Store, c: Caller, id: Id): (r: Outcome)
    ensures id !in s.addresses ==> r == Outcome(s, NotFound)
    ensures (id in s.addresses && !OwnerOrAdmin(c, s.addresses[id].user)) ==> r == Outcome(s, Forbidden)
    ensures (id in s.addresses && OwnerOrAdmin(c, s.addresses[id].user) && AddressShipped(s, id))
              ==> r == Outcome(s, BadRequest)
    ensures r.code == Ok <==> id in s.addresses && OwnerOrAdmin(c, s.addresses[id].user) && !AddressShipped(s, id)
    ensures r.code != Ok ==> r.store == s
    ensures r.code == Ok ==> r.store == s.(addresses := s.addresses - {id})
  {
    var access := AddressAccess(s, c, id);
    if access != Ok then Outcome(s, access)
    else if AddressShipped(s, id) then Outcome(s, BadRequest)
    else Outcome(s.(addresses := s.addresses - {id}), Ok)
  }

  /** GET /addresses/all: admins only; addresses whose user row still exists. */
  function ListAllAddresses(s: Store, c: Caller): (r: Answer<set<Id>>)
    ensures r.Found? <==> IsAdmin(c)
    ensures r.Refused? ==> r.code == Forbidden
    ensures r.Found? ==> forall k :: k in r.value <==> k in s.addresses && s.addresses[k].user in s.users
  {
    if c.role != Admin then Refused(Forbidden)
    else Found(set k | k in s.addresses && s.addresses[k].user in s.users)
  }

  /** Create refuses an empty field that update then accepts: an owner can blank a
      field of an address they could not have created blank. */
  lemma UpdateAcceptsWhatCreateRefuses(s: Store, c: Caller, id: Id)
    requires id in s.addresses && s.addresses[id].user == c.id
    ensures CreateAddress(s, c, Some(""), Some(s.addresses[id].city), Some(s.addresses[id].zip),
                          Some(s.addresses[id].line)).code == BadRequest
    ensures var r := UpdateAddress(s, c, id, Some(""), None, None, None);
            r.code == Ok && r.store.addresses[id].country == ""
  {
  }

  /** The address a user just created is visible to that user, and to nobody else
      but admins. */
  lemma CreatedAddressIsOwned(s: Store, c: Caller, other: Caller, country: Option<string>, city: Option<string>,
                              zip: Option<string>, line: Option<string>)
    requires Valid(s)
    requires CreateAddress(s, c, country, city, zip, line).code == Created
    requires other.id != c.id && !IsAdmin(other)
    ensures var s1 := CreateAddress(s, c, country, city, zip, line).store;
            && s.nextId in ListAddresses(s1, c)
            && s.nextId !in ListAddresses(s1, other)
            && GetAddress(s1, other, s.nextId) == Refused(Forbidden)
  {
  }

  lemma CreateAddressPreservesValid(s: Store, c: Caller, country: Option<string>, city: Option<string>,
                                    zip: Option<string>, line: Option<string>)
    requires Valid(s)
    ensures Valid(CreateAddress(s, c, country, city, zip, line).store)
  {
  }

  lemma UpdateAddressPreservesValid(s: Store, c: Caller, id: Id, country: Option<string>, city: Option<string>,
                                    zip: Option<string>, line: Option<string>)
    requires Valid(s)
    ensures Valid(UpdateAddress(s, c, id, country, city, zip, line).store)
  {
  }

  /** The shipping guard is exactly what keeps every shipping record's address alive. */
  lemma DeleteAddressPreservesValid(s: Store, c: Caller, id: Id)
    requires Valid(s)
    ensures Valid(DeleteAddress(s, c, id).store)
  {
  }

  /** Creating an address adds exactly the new id to the admin listing when the
      caller's user row exists, and leaves the listing unchanged otherwise. */
  lemma CreateAddressExtendsAdminListing(s: Store, c: Caller, admin: Caller, country: Option<string>,
                                         city: Option<string>, zip: Option<string>, line: Option<string>)
    requires Valid(s) && IsAdmin(admin)
    requires CreateAddress(s, c, country, city, zip, line).code == Created
    ensures ListAllAddresses(CreateAddress(s, c, country, city, zip, line).store, admin).value
              == ListAllAddresses(s, admin).value + (if c.id in s.users then {s.nextId} else {})
  {
    assert s.nextId !in s.addresses;
  }
}
