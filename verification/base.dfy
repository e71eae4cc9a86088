/** Vocabulary shared by every request handler of the storefront backend:
    optional request fields, the caller's identity and role, the HTTP outcome
    codes, and the owner-or-admin access decision repeated in every route file. */
module Base {

  /** Row identifiers (AUTO_INCREMENT integer keys) and ids carried in requests. */
  type Id = int

  /** A JSON request field: `None` when the key is absent. */
  datatype Option<+T> = None | Some(value: T)

  /** `data.get(key, default)`: the supplied value, or the default when absent. */
  function OrElse<T>(o: Option<T>, default: T): T
  {
    match o
    case Some(v) => v
    case None => default
  }

  /** Python truthiness of an integer field: `not x` holds for a missing field and for 0. */
  predicate TruthyInt(o: Option<int>)
  {
    o.Some? && o.value != 0
  }

  /** Python truthiness of a string field: `not x` holds for a missing field and for "". */
  predicate TruthyStr(o: Option<string>)
  {
    o.Some? && o.value != ""
  }

  /** The role claim of the caller's token. A missing claim reads as "user";
      registration stores any role string unvalidated, which lands in `Other`. */
  datatype Role = Admin | User | Other

  /** The authenticated caller: token identity and role claim. */
  datatype Caller = Caller(id: Id, role: Role)

  /** `claims.get('role', 'user')` compared against the two role names the handlers know. */
  function RoleOfClaim(claim: Option<string>): (r: Role)
    ensures r == Admin <==> claim == Some("admin")
    ensures r == User <==> claim == None || claim == Some("user")
  {
    match claim
    case None => User
    case Some(name) => if name == "admin" then Admin else if name == "user" then User else Other
  }

  /** ASCII lower-casing of one character. */
  function LowerChar(ch: char): char
  {
    if 'A' <= ch <= 'Z' then (ch as int + 32) as char else ch
  }

  /** ASCII lower-casing, the part of `str.lower()` and of a
      case-insensitive collation that the handlers rely on. */
  function Lower(text: string): (r: string)
    ensures |r| == |text|
    ensures forall i :: 0 <= i < |text| ==> r[i] == LowerChar(text[i])
  {
    if text == "" then "" else [LowerChar(text[0])] + Lower(text[1..])
  }

  /** The status codes the modelled handlers return: 200, 201, 400, 403 and 404. */
  datatype Code = Ok | Created | BadRequest | Forbidden | NotFound

  /** Reply of a read-only handler: the data found, or an error code. */
  datatype Answer<+T> = Found(value: T) | Refused(code: Code)

  predicate IsAdmin(c: Caller)
  {
    c.role == Admin
  }

  /** The access rule for personally-scoped rows: admins bypass ownership. */
  predicate OwnerOrAdmin(c: Caller, owner: Id)
  {
    c.role == Admin || c.id == owner
  }

  /** The set holds at least one id; the executable form of "the query returned a row". */
  predicate NonEmpty(keys: set<Id>)
  {
    exists k :: k in keys
  }

  /** Some element of a non-empty id set is below or equal to all the others. */
  lemma {:induction false} LeastExists(keys: set<Id>)
    requires NonEmpty(keys)
    ensures exists k :: k in keys && forall j :: j in keys ==> k <= j
    decreases keys
  {
    var x :| x in keys;
    var rest := keys - {x};
    assert forall j :: j in keys ==> j == x || j in rest;
    if NonEmpty(rest) {
      LeastExists(rest);
      var m :| m in rest && forall j :: j in rest ==> m <= j;
      var least := if x <= m then x else m;
      assert least in keys && forall j :: j in keys ==> least <= j;
    } else {
      assert forall j :: j in keys ==> x <= j;
    }
  }

  /** The least id of a non-empty set; a deterministic stand-in for `fetchone()`
      on a query that could in principle match several rows. */
  function Least(keys: set<Id>): (k: Id)
    requires NonEmpty(keys)
    ensures k in keys
    ensures forall j :: j in keys ==> k <= j
  {
    LeastExists(keys);
    var k :| k in keys && forall j :: j in keys ==> k <= j;
    k
  }
}
