/** `AdminApiInterceptor.preHandle`: before any admin handler runs, the
    caller's id is re-checked against the durable user table. A role claim
    carried by the login token plays no part in the decision. */
module AdminApiInterceptor {
  import opened Platform
  import opened UserRepository

  /** The fixed message of `UnauthorizedAdminAccessException`. */
  const UnauthorizedMessage: string := "관리자 권한이 필요합니다. 로그인 후 다시 시도해주세요."

  function UnauthorizedAdminAccessException(): (e: Exception)
    ensures e.kind == UnauthorizedAdminAccess && e.message == Some(UnauthorizedMessage)
  {
    Exception(UnauthorizedAdminAccess, Some(UnauthorizedMessage))
  }

  /** `Allow` is `preHandle` returning true; `Deny(ex)` is `preHandle` throwing `ex`. */
  datatype Decision = Allow | Deny(ex: Exception)

  /** The interceptor's decision for one request. */
  function PreHandle(users: seq<UserRow>, req: Request): (d: Decision)
    // allowed exactly when the "userId" attribute is a Long naming a stored ADMIN row
    ensures d.Allow? <==> exists i :: 0 <= i < |users| && users[i].role == Admin &&
                                      UserIdKey in req.attributes && req.attributes[UserIdKey] == LongAttr(users[i].id)
    // every denial raises the unauthorized exception with its fixed message, unless the cast itself failed
    ensures d.Deny? ==> (d.ex.kind == UnauthorizedAdminAccess <==> UserIdAttribute(req).Success?)
    ensures d.Deny? && d.ex.kind == UnauthorizedAdminAccess ==> d.ex == UnauthorizedAdminAccessException()
    ensures d.Deny? && d.ex.kind != UnauthorizedAdminAccess ==> d.ex.kind == ClassCast
  {
    match UserIdAttribute(req)
    case Failure(e) => Deny(e)
    case Success(userId) =>
      if !ExistsByIdAndRole(users, userId) then Deny(UnauthorizedAdminAccessException())
      else Allow
  }

  /** A request without a "userId" attribute is denied: the gate fails closed. */
  lemma MissingIdentityIsDenied(users: seq<UserRow>, req: Request)
    requires UserIdKey !in req.attributes
    ensures PreHandle(users, req) == Deny(UnauthorizedAdminAccessException())
  {
  }

  /** The decision reads only the "userId" attribute: overwriting any other
      attribute, such as a role claim copied from the token, changes nothing. */
  lemma DecisionIgnoresOtherAttributes(users: seq<UserRow>, req: Request, key: string, value: Attr)
    requires key != UserIdKey
    ensures PreHandle(users, req) == PreHandle(users, req.(attributes := req.attributes[key := value]))
  {
    var req' := req.(attributes := req.attributes[key := value]);
    assert UserIdKey in req.attributes <==> UserIdKey in req'.attributes;
    assert UserIdKey in req.attributes ==> req.attributes[UserIdKey] == req'.attributes[UserIdKey];
  }

  /** Two tables that agree on which ids are ADMIN give the same decision for every request. */
  lemma DecisionDependsOnlyOnStoredRole(users: seq<UserRow>, users': seq<UserRow>, req: Request)
    requires forall id :: ExistsByIdAndRole(users, Some(id)) == ExistsByIdAndRole(users', Some(id))
    ensures PreHandle(users, req) == PreHandle(users', req)
  {
    match UserIdAttribute(req)
    case Failure(_) =>
    case Success(userId) =>
      if userId.Some? {
        assert ExistsByIdAndRole(users, Some(userId.value)) == ExistsByIdAndRole(users', Some(userId.value));
      }
  }

  /** A caller whose token says ADMIN but whose stored role is USER is denied
      with the unauthorized exception. */
  lemma DemotedAdminIsDenied(users: seq<UserRow>, req: Request, i: nat)
    requires UniqueIds(users)
    requires i < |users| && users[i].role == User
    requires UserIdKey in req.attributes && req.attributes[UserIdKey] == LongAttr(users[i].id)
    requires "userRole" in req.attributes && req.attributes["userRole"] == TextAttr("ADMIN")
    ensures PreHandle(users, req) == Deny(UnauthorizedAdminAccessException())
  {
    StoredUserIsNotAdmin(users, i);
  }

  /** A caller whose stored role is ADMIN is let through. */
  lemma StoredAdminIsAllowed(users: seq<UserRow>, req: Request, i: nat)
    requires i < |users| && users[i].role == Admin
    requires UserIdKey in req.attributes && req.attributes[UserIdKey] == LongAttr(users[i].id)
    ensures PreHandle(users, req) == Allow
  {
  }
}
