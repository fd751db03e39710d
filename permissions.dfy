/**
 * The request-level permission classes of the API: boolean decisions over the caller's
 * authentication state, role flags, staff flag, role assignments and the request method.
 */
module Permissions {
  import opened Wrappers

  /**
   * The caller as the permission checks see it: the authentication state, the staff flag,
   * the four role flags of the user model (all false by default) and the names of the roles
   * assigned to the user.
   */
  datatype User = User(
    isAuthenticated: bool,
    isStaff: bool,
    isLecturer: bool,
    isDro: bool,
    isFro: bool,
    isCo: bool,
    roleNames: seq<string>)

  /** An account fresh from the user model: authenticated, no flag set, no role assigned. */
  const DefaultUser: User := User(true, false, false, false, false, false, [])

  /** The user object of a request that carries no credentials. */
  const AnonymousUser: User := User(false, false, false, false, false, false, [])

  /** `request.user` is None when no user object is attached at all. */
  datatype Request = Request(user: Option<User>, verb: string)

  /** The methods that only read. */
  const SafeMethods: seq<string> := ["GET", "HEAD", "OPTIONS"]

  predicate IsSafe(verb: string)
  {
    verb in SafeMethods
  }

  /** The permission classes, with the `required_roles` each instance carries. */
  datatype Permission =
    | HasRole(requiredRoles: seq<string>)
    | IsAdminOrReadOnly
    | IsFRO(requiredRoles: seq<string>)
    | IsCO(requiredRoles: seq<string>)
    | IsDRO(requiredRoles: seq<string>)

  /** Two of the classes as declared: each sets `required_roles` to the empty list. */
  const HasRoleDeclared: Permission := HasRole([])
  const IsFRODeclared: Permission := IsFRO([])

  /** A present, authenticated caller. */
  predicate SignedIn(request: Request)
  {
    request.user.Some? && request.user.value.isAuthenticated
  }

  /** Some role assigned to the user is named in `required`. */
  predicate HoldsRoleIn(user: User, required: seq<string>)
  {
    exists i :: 0 <= i < |user.roleNames| && user.roleNames[i] in required
  }

  /** `has_permission(request, view)` of each class; `view` is passed and never consulted. */
  function HasPermission<V>(p: Permission, request: Request, view: V): (granted: bool)
    ensures p != IsAdminOrReadOnly && granted ==> SignedIn(request)
    ensures p == IsAdminOrReadOnly && IsSafe(request.verb) ==> granted
    ensures p == IsAdminOrReadOnly && !IsSafe(request.verb) && granted ==>
              request.user.Some? && request.user.value.isStaff
  {
    match p
    case HasRole(required) => SignedIn(request) && HoldsRoleIn(request.user.value, required)
    case IsAdminOrReadOnly => IsSafe(request.verb) || (request.user.Some? && request.user.value.isStaff)
    case IsFRO(_) => SignedIn(request) && request.user.value.isFro
    case IsCO(_) => SignedIn(request) && request.user.value.isCo
    case IsDRO(_) => SignedIn(request) && request.user.value.isDro
  }

  /** The flag each of the three role checks reads. */
  function RoleFlag(p: Permission, user: User): bool
    requires p.IsDRO? || p.IsFRO? || p.IsCO?
  {
    match p
    case IsDRO(_) => user.isDro
    case IsFRO(_) => user.isFro
    case IsCO(_) => user.isCo
  }

  // ---------------------------------------------------------------------------
  // Properties

  /** Every class denies a request with no user or an unauthenticated one, except for safe methods under IsAdminOrReadOnly. */
  lemma AnonymousDenied<V>(p: Permission, request: Request, view: V)
    requires !SignedIn(request)
    requires request.user.Some? ==> request.user.value == AnonymousUser
    requires p == IsAdminOrReadOnly ==> !IsSafe(request.verb)
    ensures !HasPermission(p, request, view)
  {
  }

  /** HasRole grants exactly the signed-in callers holding a role whose name is required. */
  lemma HasRoleDecision<V>(required: seq<string>, request: Request, view: V)
    ensures HasPermission(HasRole(required), request, view) <==>
              SignedIn(request) && exists r :: r in request.user.value.roleNames && r in required
  {
    if SignedIn(request) {
      var u := request.user.value;
      if exists r :: r in u.roleNames && r in required {
        var r :| r in u.roleNames && r in required;
        var i :| 0 <= i < |u.roleNames| && u.roleNames[i] == r;
        assert HoldsRoleIn(u, required);
      }
    }
  }

  /** With an empty list of required roles HasRole denies everyone. */
  lemma HasRoleEmptyDenies<V>(request: Request, view: V)
    ensures !HasPermission(HasRoleDeclared, request, view)
  {
  }

  /** Requiring more role names never takes a grant away. */
  lemma HasRoleMonotone<V>(required: seq<string>, more: seq<string>, request: Request, view: V)
    requires forall r :: r in required ==> r in more
    requires HasPermission(HasRole(required), request, view)
    ensures HasPermission(HasRole(more), request, view)
  {
    var u := request.user.value;
    var i :| 0 <= i < |u.roleNames| && u.roleNames[i] in required;
    assert u.roleNames[i] in more;
  }

  /** IsAdminOrReadOnly grants every safe method, even to a caller with no user or an anonymous one. */
  lemma SafeMethodsAlwaysGranted<V>(request: Request, view: V)
    requires IsSafe(request.verb)
    ensures HasPermission(IsAdminOrReadOnly, request, view)
  {
  }

  /** For any other method it grants exactly a present user with the staff flag. */
  lemma UnsafeMethodsNeedStaff<V>(request: Request, view: V)
    requires !IsSafe(request.verb)
    ensures HasPermission(IsAdminOrReadOnly, request, view) <==>
              request.user.Some? && request.user.value.isStaff
  {
  }

  /** Method names are compared exactly: a lower-case `get` is not a safe method. */
  lemma SafeMethodsAreExact()
    ensures IsSafe("GET") && IsSafe("HEAD") && IsSafe("OPTIONS")
    ensures !IsSafe("get") && !IsSafe("POST") && !IsSafe("PUT") && !IsSafe("PATCH") && !IsSafe("DELETE")
    ensures forall v :: IsSafe(v) <==> v == "GET" || v == "HEAD" || v == "OPTIONS"
  {
  }

  /** IsDRO, IsFRO and IsCO grant exactly a signed-in caller whose matching flag is set. */
  lemma RoleChecksReadTheirFlag<V>(p: Permission, request: Request, view: V)
    requires p.IsDRO? || p.IsFRO? || p.IsCO?
    ensures HasPermission(p, request, view) <==> SignedIn(request) && RoleFlag(p, request.user.value)
  {
  }

  /** The three role checks ignore the request method and the view: reads and writes get one decision. */
  lemma RoleChecksIgnoreMethodAndView<V, W>(p: Permission, request: Request, verb: string, view: V, view': W)
    requires p.IsDRO? || p.IsFRO? || p.IsCO?
    ensures HasPermission(p, request, view) == HasPermission(p, request.(verb := verb), view')
  {
  }

  /** A user with the default flags passes none of the three role checks. */
  lemma DefaultUserDenied<V>(p: Permission, verb: string, view: V)
    requires p.IsDRO? || p.IsFRO? || p.IsCO?
    ensures !HasPermission(p, Request(Some(DefaultUser), verb), view)
  {
  }

  /** IsFRO, IsCO and IsDRO override the role lookup: their `required_roles` has no effect on the decision. */
  lemma RequiredRolesIgnoredByRoleChecks<V>(required: seq<string>, other: seq<string>, request: Request, view: V)
    ensures HasPermission(IsFRO(required), request, view) == HasPermission(IsFRO(other), request, view)
    ensures HasPermission(IsCO(required), request, view) == HasPermission(IsCO(other), request, view)
    ensures HasPermission(IsDRO(required), request, view) == HasPermission(IsDRO(other), request, view)
  {
  }

  /** A role flag grants without any role assignment, and a role assignment is no substitute for the flag. */
  lemma FlagsAndRoleNamesAreIndependent<V>(view: V)
    ensures HasPermission(IsFRODeclared, Request(Some(DefaultUser.(isFro := true)), "POST"), view)
    ensures !HasPermission(IsFRODeclared, Request(Some(DefaultUser.(roleNames := ["FRO"])), "GET"), view)
    ensures HasPermission(HasRole(["FRO"]), Request(Some(DefaultUser.(roleNames := ["FRO"])), "GET"), view)
  {
    assert DefaultUser.(roleNames := ["FRO"]).roleNames[0] in ["FRO"];
  }
}
