/** Vocabulary shared by every controller of the club backend: ids, roles,
    the authenticated caller, HTTP-style results, and the scalar-or-list
    normalisation that several handlers apply to request fields. */
module Common {

  /** Document ids (MongoDB ObjectIds) as they arrive in requests: strings. */
  type Id = string

  datatype Option<T> = None | Some(value: T)

  /** A handler either fails with an HTTP status code or succeeds with a payload. */
  datatype Result<T> = Ok(value: T) | Fail(code: int)

  const BadRequest: int := 400
  const Unauthorized: int := 401
  const Forbidden: int := 403
  const NotFound: int := 404
  /** An exception inside a handler (a TypeError on a missing reference, a
      failed schema validation) is caught and answered with 500. */
  const ServerError: int := 500

  datatype Role = Admin | Director | Trainer | Manager | Student | Parent | TechStaff | Client

  /** `userType` as the controllers see it: normally an array of role names,
      but a legacy record may hold one bare role name. */
  datatype UserType = RoleList(roles: seq<Role>) | RoleText(name: Role)

  /** `userType.includes(r)`. On a bare string `includes` is a substring test;
      no role name is a substring of another, so it is equality here. */
  predicate Includes(ut: UserType, r: Role)
  {
    match ut
    case RoleList(roles) => r in roles
    case RoleText(name) => name == r
  }

  /** The authenticated caller (`req.user`): its id, its role array
      `userType`, the single `role` string of the user schema, and the two
      contact fields copied into orders. */
  datatype Actor = Actor(id: Id, userType: UserType, role: Role, fullName: string, phoneNumber: string)

  predicate IsAdminOrDirector(a: Actor)
  {
    Includes(a.userType, Admin) || Includes(a.userType, Director)
  }

  /** A JavaScript truthiness test on an optional string field of a request:
      absent, `null` and `""` are all falsy. */
  predicate Given(s: Option<string>)
  {
    s.Some? && s.value != ""
  }

  /** `s || ""`: the string a request field gives, "" when omitted. */
  function OrEmpty(s: Option<string>): string
  {
    if s.Some? then s.value else ""
  }

  /** The `$gte`/`$lte` bounds of a date query; an omitted bound is no bound. */
  predicate Between(t: int, from: Option<int>, to: Option<int>)
  {
    (from.Some? ==> from.value <= t) && (to.Some? ==> t <= to.value)
  }

  /** A request field that may be absent, a single value, or an array. */
  datatype OneOrMany<T> = Missing | One(item: T) | Many(items: seq<T>)

  /** `Array.isArray(v) ? v : v ? [v] : []`. */
  function ToList<T>(v: OneOrMany<T>): seq<T>
  {
    match v
    case Missing => []
    case One(x) => [x]
    case Many(xs) => xs
  }

  /** The same normalisation on a string field, where a lone `""` is falsy
      and gives no item. */
  function StringList(v: OneOrMany<string>): (r: seq<string>)
    ensures v.One? ==> (r == [] <==> v.item == "")
    ensures !v.One? ==> r == ToList(v)
  {
    match v
    case One(x) => if x == "" then [] else [x]
    case _ => ToList(v)
  }

  /** Mongoose's `$addToSet`: append unless already present. */
  function AddToSet<T(==,!new)>(xs: seq<T>, x: T): (r: seq<T>)
    ensures x in r
    ensures forall y :: y in r <==> y in xs || y == x
    ensures x in xs ==> r == xs
    ensures |r| <= |xs| + 1
  {
    if x in xs then xs else xs + [x]
  }
}
