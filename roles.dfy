/** The three authorisation gates (`adminMiddleware`, `customerMiddleware`,
    `ownerOrAdminMiddleware`). Each reads `req.user` (absent, or the context
    the authentication stage attached) and, for the ownership gate, the
    path parameters; each either calls `next()` or answers with an error.
    None of them writes to the request. */
module Roles {
  import opened JsValues

  /** What a gate does: pass the request on, or answer with a JSON error. */
  datatype GateOutcome = Next | Reject(status: int, message: string)

  const AuthRequiredMessage := "Authentication required"
  const AdminRequiredMessage := "Admin access required"
  const CustomerRequiredMessage := "Customer or admin access required"
  const NotOwnerMessage := "Access denied: You can only access your own resources"

  /** `req.params.<key>`: route parameters are strings when the route
      declares them and `undefined` otherwise. */
  function Param(params: map<string, string>, key: string): Value
  {
    if key in params then Str(params[key]) else Undefined
  }

  /** `req.params.userId || req.params.id`. */
  function OwnerParam(params: map<string, string>): (owner: Value)
    ensures owner == Undefined || owner.Str?
    ensures owner.Str? ==>
      ("userId" in params && owner.s == params["userId"]) || ("id" in params && owner.s == params["id"])
    ensures owner == Undefined <==> "id" !in params && ("userId" !in params || params["userId"] == "")
    ensures "userId" in params && params["userId"] != "" ==> owner == Str(params["userId"])
    ensures !("userId" in params && params["userId"] != "") ==> owner == Param(params, "id")
  {
    Or(Param(params, "userId"), Param(params, "id"))
  }

  /** `adminMiddleware`. */
  function AdminGate(user: Option<Obj>): (r: GateOutcome)
    ensures user.None? ==> r == Reject(401, AuthRequiredMessage)
    ensures user.Some? ==> (r.Next? <==> Get(user.value, "role") == Str("admin"))
    ensures user.Some? && r.Reject? ==> r == Reject(403, AdminRequiredMessage)
  {
    match user
    case None => Reject(401, AuthRequiredMessage)
    case Some(u) =>
      if !StrictEq(Get(u, "role"), Str("admin")) then Reject(403, AdminRequiredMessage)
      else Next
  }

  /** `customerMiddleware`. */
  function CustomerGate(user: Option<Obj>): (r: GateOutcome)
    ensures user.None? ==> r == Reject(401, AuthRequiredMessage)
    ensures user.Some? ==> (r.Next? <==> Get(user.value, "role") in {Str("customer"), Str("admin")})
    ensures user.Some? && r.Reject? ==> r == Reject(403, CustomerRequiredMessage)
  {
    match user
    case None => Reject(401, AuthRequiredMessage)
    case Some(u) =>
      if !StrictEq(Get(u, "role"), Str("customer")) && !StrictEq(Get(u, "role"), Str("admin"))
      then Reject(403, CustomerRequiredMessage)
      else Next
  }

  /** `ownerOrAdminMiddleware`. */
  function OwnerOrAdminGate(user: Option<Obj>, params: map<string, string>): (r: GateOutcome)
    ensures user.None? ==> r == Reject(401, AuthRequiredMessage)
    ensures user.Some? ==>
      (r.Next? <==> Get(user.value, "role") == Str("admin") || Get(user.value, "uid") == OwnerParam(params))
    ensures user.Some? && r.Reject? ==> r == Reject(403, NotOwnerMessage)
  {
    match user
    case None => Reject(401, AuthRequiredMessage)
    case Some(u) =>
      if StrictEq(Get(u, "role"), Str("admin")) then Next
      else if StrictEq(Get(u, "uid"), OwnerParam(params)) then Next
      else Reject(403, NotOwnerMessage)
  }

  /** Without a user context every gate answers 401 before looking at any
      role or parameter. */
  lemma GatesRequireUser(params: map<string, string>)
    ensures AdminGate(None) == Reject(401, AuthRequiredMessage)
    ensures CustomerGate(None) == Reject(401, AuthRequiredMessage)
    ensures OwnerOrAdminGate(None, params) == Reject(401, AuthRequiredMessage)
  {
  }

  /** The admin gate admits exactly the contexts whose role is "admin" and
      answers every other context with 403. */
  lemma AdminGateIff(u: Obj)
    ensures AdminGate(Some(u)).Next? <==> Get(u, "role") == Str("admin")
    ensures !AdminGate(Some(u)).Next? ==> AdminGate(Some(u)) == Reject(403, AdminRequiredMessage)
  {
  }

  /** The customer gate admits exactly the roles "customer" and "admin" and
      answers every other context with 403. */
  lemma CustomerGateIff(u: Obj)
    ensures CustomerGate(Some(u)).Next? <==> Get(u, "role") in {Str("customer"), Str("admin")}
    ensures !CustomerGate(Some(u)).Next? ==> CustomerGate(Some(u)) == Reject(403, CustomerRequiredMessage)
  {
  }

  /** The ownership gate admits exactly the admins and the contexts whose
      `uid` is strictly equal to the owner parameter; all others get 403. */
  lemma OwnerGateIff(u: Obj, params: map<string, string>)
    ensures OwnerOrAdminGate(Some(u), params).Next? <==>
      Get(u, "role") == Str("admin") || StrictEq(Get(u, "uid"), OwnerParam(params))
    ensures !OwnerOrAdminGate(Some(u), params).Next? ==>
      OwnerOrAdminGate(Some(u), params) == Reject(403, NotOwnerMessage)
  {
  }

  /** The owner is `userId` when that parameter is present and non-empty,
      and `id` otherwise. */
  lemma OwnerParamChoice(params: map<string, string>)
    ensures "userId" in params && params["userId"] != "" ==> OwnerParam(params) == Str(params["userId"])
    ensures !("userId" in params && params["userId"] != "") ==> OwnerParam(params) == Param(params, "id")
  {
  }

  /** Both disjuncts of the ownership gate on their own: an admin is
      admitted whatever the parameters, the owner whatever the role, and a
      context that is neither is refused. */
  lemma OwnerGateCases(u: Obj, params: map<string, string>, uid: string)
    requires Get(u, "uid") == Str(uid)
    ensures Get(u, "role") == Str("admin") ==> OwnerOrAdminGate(Some(u), params) == Next
    ensures OwnerParam(params) == Str(uid) ==> OwnerOrAdminGate(Some(u), params) == Next
    ensures Get(u, "role") != Str("admin") && OwnerParam(params) != Str(uid) ==>
      OwnerOrAdminGate(Some(u), params) == Reject(403, NotOwnerMessage)
  {
  }

  /** On a route with neither `:userId` nor `:id` the owner is `undefined`,
      so only a context whose own `uid` is `undefined` would pass as owner:
      a non-admin with a string uid is refused. */
  lemma OwnerGateWithoutParams(u: Obj, params: map<string, string>)
    requires "userId" !in params && "id" !in params
    requires Get(u, "uid").Str?
    requires Get(u, "role") != Str("admin")
    ensures OwnerOrAdminGate(Some(u), params) == Reject(403, NotOwnerMessage)
  {
  }

  /** Whatever the admin gate admits, the other two gates admit too. */
  lemma AdminMonotone(user: Option<Obj>, params: map<string, string>)
    requires AdminGate(user).Next?
    ensures CustomerGate(user).Next?
    ensures OwnerOrAdminGate(user, params).Next?
  {
  }
}
