/** A protected route as Express runs it: `authMiddleware` followed by the
    gates the route lists, each calling `next()` to hand over to the next
    one, the first error response ending the chain. No route of the
    repository mounts this chain today; this module states what it admits
    when one does. */
module Pipeline {
  import opened JsValues
  import opened Auth
  import opened Roles

  /** The gates a route can list after `authMiddleware`. */
  datatype Gate = AdminOnly | CustomerOrAdmin | OwnerOrAdmin

  /** The end of the chain: the route handler runs with `req.user`, or an
      error response was sent. */
  datatype Decision = Admitted(user: Obj) | Refused(status: int, message: string)

  function RunGate(g: Gate, user: Option<Obj>, params: map<string, string>): GateOutcome
  {
    match g
    case AdminOnly => AdminGate(user)
    case CustomerOrAdmin => CustomerGate(user)
    case OwnerOrAdmin => OwnerOrAdminGate(user, params)
  }

  /** The gates in route order; the first rejection is the response. */
  function RunGates(gates: seq<Gate>, user: Option<Obj>, params: map<string, string>): (r: GateOutcome)
    ensures r.Reject? ==> r.status in {401, 403}
    ensures user.None? && gates != [] ==> r == Reject(401, AuthRequiredMessage)
  {
    if gates == [] then Next
    else
      match RunGate(gates[0], user, params)
      case Reject(s, m) => Reject(s, m)
      case Next => RunGates(gates[1..], user, params)
  }

  /** The whole chain for one request. */
  function Run(header: Option<string>, verify: string -> Verification, readUser: string -> UserRead,
               params: map<string, string>, gates: seq<Gate>): (d: Decision)
    ensures d.Admitted? ==> Authenticate(header, verify, readUser) == Authorized(d.user)
    ensures d.Refused? ==> d.status in {401, 403, 404}
  {
    match Authenticate(header, verify, readUser)
    case Denied(s, m) => Refused(s, m)
    case Authorized(user) =>
      match RunGates(gates, Some(user), params)
      case Reject(s, m) => Refused(s, m)
      case Next => Admitted(user)
  }

  /** The listed gates pass exactly when every one of them admits. */
  lemma {:induction false} RunGatesAllAdmit(gates: seq<Gate>, user: Option<Obj>, params: map<string, string>)
    ensures RunGates(gates, user, params).Next? <==>
      forall k :: 0 <= k < |gates| ==> RunGate(gates[k], user, params).Next?
  {
    if gates != [] {
      RunGatesAllAdmit(gates[1..], user, params);
      if RunGate(gates[0], user, params).Next? {
        forall k | 0 <= k < |gates| ensures
          RunGate(gates[k], user, params).Next? <==>
            (k == 0 || RunGate(gates[1..][k - 1], user, params).Next?)
        {
        }
      }
    }
  }

  /** A rejection is the answer of the first gate that does not admit: all
      gates before it admitted. */
  lemma {:induction false} RunGatesFirstRejection(gates: seq<Gate>, user: Option<Obj>, params: map<string, string>)
    requires RunGates(gates, user, params).Reject?
    ensures exists k ::
      && 0 <= k < |gates|
      && RunGate(gates[k], user, params) == RunGates(gates, user, params)
      && (forall j :: 0 <= j < k ==> RunGate(gates[j], user, params).Next?)
  {
    if RunGate(gates[0], user, params).Next? {
      RunGatesFirstRejection(gates[1..], user, params);
      var k :|
        && 0 <= k < |gates[1..]|
        && RunGate(gates[1..][k], user, params) == RunGates(gates[1..], user, params)
        && (forall j :: 0 <= j < k ==> RunGate(gates[1..][j], user, params).Next?);
      assert RunGate(gates[k + 1], user, params) == RunGates(gates, user, params);
      forall j | 0 <= j < k + 1 ensures RunGate(gates[j], user, params).Next? {
        if j > 0 {
          assert gates[j] == gates[1..][j - 1];
        }
      }
    } else {
      assert RunGate(gates[0], user, params) == RunGates(gates, user, params);
    }
  }

  /** The core invariant: a request reaches its handler only with a
      presented token the verifier accepted, an existing and active record,
      and the approval of every gate the route lists; the handler sees the
      context the authentication stage built, unchanged by the gates. */
  lemma AdmittedOnlyIfAuthenticatedAndApproved(header: Option<string>, verify: string -> Verification,
                                               readUser: string -> UserRead,
                                               params: map<string, string>, gates: seq<Gate>)
    requires Run(header, verify, readUser, params, gates).Admitted?
    ensures var user := Run(header, verify, readUser, params, gates).user;
      && Authenticate(header, verify, readUser) == Authorized(user)
      && Truthy(Get(user, "isActive"))
      && forall k :: 0 <= k < |gates| ==> RunGate(gates[k], Some(user), params).Next?
  {
    AuthorizedContext(header, verify, readUser);
    RunGatesAllAdmit(gates, Some(Run(header, verify, readUser, params, gates).user), params);
  }

  /** Conversely, an authenticated request that every listed gate admits
      reaches the handler. */
  lemma AdmittedWhenApproved(header: Option<string>, verify: string -> Verification,
                             readUser: string -> UserRead,
                             params: map<string, string>, gates: seq<Gate>)
    requires Authenticate(header, verify, readUser).Authorized?
    requires forall k :: 0 <= k < |gates| ==>
      RunGate(gates[k], Some(Authenticate(header, verify, readUser).user), params).Next?
    ensures Run(header, verify, readUser, params, gates) ==
      Admitted(Authenticate(header, verify, readUser).user)
  {
    RunGatesAllAdmit(gates, Some(Authenticate(header, verify, readUser).user), params);
  }

  /** A denial by the authentication stage is final: no gate is evaluated,
      whichever gates the route lists. */
  lemma AuthDenialIsFinal(header: Option<string>, verify: string -> Verification,
                          readUser: string -> UserRead, params: map<string, string>,
                          gates: seq<Gate>, gates': seq<Gate>)
    requires Authenticate(header, verify, readUser).Denied?
    ensures Run(header, verify, readUser, params, gates) == Run(header, verify, readUser, params, gates')
    ensures Run(header, verify, readUser, params, gates).Refused?
  {
  }

  /** An account whose `isActive` is falsy never reaches a handler, whatever
      its role and whatever gates the route lists. */
  lemma InactiveNeverAdmitted(header: Option<string>, verify: string -> Verification,
                              readUser: string -> UserRead, params: map<string, string>, gates: seq<Gate>)
    requires PresentedToken(header).Some?
    requires verify(PresentedToken(header).value).Verified?
    requires readUser(verify(PresentedToken(header).value).claims.uid).UserDoc?
    requires !Truthy(Get(readUser(verify(PresentedToken(header).value).claims.uid).data, "isActive"))
    ensures Run(header, verify, readUser, params, gates) == Refused(403, InactiveMessage)
  {
    InactiveDenied(header, verify, readUser);
  }

  /** An active admin passes every list of gates. */
  lemma {:induction false} AdminPassesAllGates(gates: seq<Gate>, user: Obj, params: map<string, string>)
    requires Get(user, "role") == Str("admin")
    ensures RunGates(gates, Some(user), params) == Next
  {
    if gates != [] {
      AdminPassesAllGates(gates[1..], user, params);
    }
  }

  /** A customer hitting an admin-only route is refused with 403; an admin
      hitting it is admitted; a customer reaches an ownership-gated route
      addressed to their own id. */
  lemma RouteScenarios(user: Obj, uid: string, params: map<string, string>)
    requires Get(user, "uid") == Str(uid)
    ensures Get(user, "role") == Str("customer") ==>
      RunGates([AdminOnly], Some(user), params) == Reject(403, AdminRequiredMessage)
    ensures Get(user, "role") == Str("admin") ==> RunGates([AdminOnly], Some(user), params) == Next
    ensures Get(user, "role") == Str("customer") && params == map["id" := uid] ==>
      RunGates([CustomerOrAdmin, OwnerOrAdmin], Some(user), params) == Next
  {
    if Get(user, "role") == Str("customer") && params == map["id" := uid] {
      assert CustomerGate(Some(user)) == Next;
      assert [CustomerOrAdmin, OwnerOrAdmin][1..] == [OwnerOrAdmin];
      assert OwnerParam(params) == Str(uid);
      assert OwnerOrAdminGate(Some(user), params) == Next;
      assert [OwnerOrAdmin][1..] == [];
      assert RunGates([OwnerOrAdmin], Some(user), params) == Next;
    }
  }
}
