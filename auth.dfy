/** The authentication stage (`authMiddleware`): a chain of early exits over
    the `Authorization` header, the token verifier's answer, the user-record
    read and the record's `isActive` flag, ending in a denial or in the
    `req.user` context it attaches before calling `next()`.

    The Firebase token verifier and the Firestore read of `users/<uid>` are
    external services; they enter as the oracle functions `verify` and
    `readUser`, each called at most once. */
module Auth {
  import opened JsValues
  import opened JsStrings

  /** The fields of a decoded ID token that the middleware reads. */
  datatype Claims = Claims(uid: string, email: Value)

  /** What `verifyIdToken(token)` does: resolve to the decoded token, or
      reject with an error whose `code` the middleware inspects. */
  datatype Verification = Verified(claims: Claims) | VerifyFailed(code: Value)

  /** What reading `users/<uid>` does: a document with its data, no document,
      or a rejected read (its error `code`). */
  datatype UserRead = UserDoc(data: Obj) | NoUserDoc | ReadFailed(code: Value)

  /** The middleware's result: a JSON error response, or `next()` with
      `req.user` set to the context. */
  datatype AuthOutcome = Denied(status: int, message: string) | Authorized(user: Obj)

  const NoHeaderMessage := "No authorization header provided"
  const NoTokenMessage := "No token provided"
  const UnknownUserMessage := "User not found in database"
  const InactiveMessage := "User account is inactive"
  const ExpiredMessage := "Token expired"
  const RevokedMessage := "Token revoked"
  const InvalidMessage := "Invalid token"

  /** `header.split(' ')[1]`: the second space-separated field of the
      header, or `undefined` (None) when there is no space. */
  function Token(header: string): (t: Option<string>)
    ensures t.Some? <==> ' ' in header
    ensures t.Some? ==> ' ' !in t.value
  {
    var parts := Split(header, ' ');
    if |parts| >= 2 then Some(parts[1]) else None
  }

  /** The token the middleware goes on with, or None when it stops at one
      of the first two checks (header falsy, or token falsy). */
  function PresentedToken(header: Option<string>): (t: Option<string>)
    ensures t.Some? <==> header.Some? && ' ' in header.value && Token(header.value) != Some("")
    ensures t.Some? ==> t.value != "" && ' ' !in t.value && Token(header.value) == t
  {
    match header
    case None => None
    case Some(h) =>
      if h == "" then None
      else
        match Token(h)
        case None => None
        case Some(t) => if t == "" then None else Some(t)
  }

  /** The `catch` block: the two recognised error codes, else the
      fail-closed "Invalid token". */
  function CatchResponse(code: Value): (r: AuthOutcome)
    ensures r.Denied? && r.status == 401
    ensures r.message == ExpiredMessage <==> code == Str("auth/id-token-expired")
    ensures r.message == RevokedMessage <==> code == Str("auth/id-token-revoked")
    ensures r.message in {ExpiredMessage, RevokedMessage, InvalidMessage}
  {
    if StrictEq(code, Str("auth/id-token-expired")) then Denied(401, ExpiredMessage)
    else if StrictEq(code, Str("auth/id-token-revoked")) then Denied(401, RevokedMessage)
    else Denied(401, InvalidMessage)
  }

  /** The object literal `{uid, email, name, role, isActive, ...userData}`:
      the record is spread last, so every key it holds wins. */
  function Context(claims: Claims, record: Obj): (user: Obj)
    ensures user.Keys == record.Keys + {"uid", "email", "name", "role", "isActive"}
    ensures forall k :: k in record ==> user[k] == record[k]
  {
    map["uid" := Str(claims.uid),
        "email" := claims.email,
        "name" := Get(record, "name"),
        "role" := Get(record, "role"),
        "isActive" := Get(record, "isActive")]
    + record
  }

  /** `authMiddleware` as a function of the header and the two services. */
  function Authenticate(header: Option<string>, verify: string -> Verification,
                        readUser: string -> UserRead): (r: AuthOutcome)
    ensures r.Denied? ==> r.status in {401, 403, 404}
  {
    if header.None? || header.value == "" then Denied(401, NoHeaderMessage)
    else if PresentedToken(header).None? then Denied(401, NoTokenMessage)
    else
      match verify(PresentedToken(header).value)
      case VerifyFailed(code) => CatchResponse(code)
      case Verified(claims) =>
        match readUser(claims.uid)
        case ReadFailed(code) => CatchResponse(code)
        case NoUserDoc => Denied(404, UnknownUserMessage)
        case UserDoc(record) =>
          if !Truthy(Get(record, "isActive")) then Denied(403, InactiveMessage)
          else Authorized(Context(claims, record))
  }

  // ---------------------------------------------------------------------
  // Token extraction

  /** The token is the text between the first space and the next space (or
      the end of the header), whatever precedes the first space. */
  lemma TokenBetweenSpaces(h: string, i: nat, j: nat)
    requires i < j <= |h|
    requires h[i] == ' ' && ' ' !in h[..i]
    requires ' ' !in h[i + 1..j]
    requires j == |h| || h[j] == ' '
    ensures Token(h) == Some(h[i + 1..j])
  {
    var rest, m := h[i + 1..], j - i - 1;
    assert rest[..m] == h[i + 1..j];
    assert m == |rest| || rest[m] == ' ' by {
      if j < |h| {
        assert rest[m] == h[j];
      }
    }
    FirstPiece(rest, ' ', m);
    SplitAtFirst(h, ' ', i);
    assert Split(h, ' ')[1] == Split(rest, ' ')[0];
  }

  /** A header with no space yields no token (`split(' ')[1]` is undefined). */
  lemma NoSpaceNoToken(h: string)
    requires ' ' !in h
    ensures Token(h) == None
  {
    SplitUnique(h, ' ', [h]);
  }

  /** The scheme word is never inspected: `<anything> <token>` yields the
      same token for every scheme without a space. */
  lemma SchemeIgnored(scheme: string, t: string)
    requires ' ' !in scheme && ' ' !in t
    ensures Token(scheme + " " + t) == Some(t)
  {
    var h := scheme + " " + t;
    var i := |scheme|;
    assert h[..i] == scheme;
    assert h[i + 1..|h|] == t;
    TokenBetweenSpaces(h, i, |h|);
  }

  // ---------------------------------------------------------------------
  // The early exits

  /** A missing or empty header is refused with 401 before either service
      is consulted: the outcome is the same whatever they would answer. */
  lemma MissingHeaderDenied(header: Option<string>,
                            verify: string -> Verification, readUser: string -> UserRead,
                            verify': string -> Verification, readUser': string -> UserRead)
    requires header.None? || header.value == ""
    ensures Authenticate(header, verify, readUser) == Denied(401, NoHeaderMessage)
    ensures Authenticate(header, verify, readUser) == Authenticate(header, verify', readUser')
  {
  }

  /** A header whose second space-separated field is absent or empty (as in
      "Bearer" or "Bearer  x") is refused with 401 "No token provided",
      again without consulting either service. */
  lemma MissingTokenDenied(h: string,
                           verify: string -> Verification, readUser: string -> UserRead,
                           verify': string -> Verification, readUser': string -> UserRead)
    requires h != ""
    requires Token(h).None? || Token(h) == Some("")
    ensures Authenticate(Some(h), verify, readUser) == Denied(401, NoTokenMessage)
    ensures Authenticate(Some(h), verify, readUser) == Authenticate(Some(h), verify', readUser')
  {
  }

  lemma BareSchemeHasNoToken(verify: string -> Verification, readUser: string -> UserRead)
    ensures Authenticate(Some("Bearer"), verify, readUser) == Denied(401, NoTokenMessage)
    ensures Authenticate(Some("Bearer  x"), verify, readUser) == Denied(401, NoTokenMessage)
  {
    NoSpaceNoToken("Bearer");
    TokenBetweenSpaces("Bearer  x", 6, 7);
  }

  /** A verifier rejection maps to 401: "Token expired" and "Token revoked"
      for their two codes, "Invalid token" for every other code; the user
      store is not consulted. */
  lemma VerifierFailureDenied(header: Option<string>, verify: string -> Verification,
                              readUser: string -> UserRead, readUser': string -> UserRead)
    requires PresentedToken(header).Some?
    requires verify(PresentedToken(header).value).VerifyFailed?
    ensures var code := verify(PresentedToken(header).value).code;
      Authenticate(header, verify, readUser) ==
        if code == Str("auth/id-token-expired") then Denied(401, ExpiredMessage)
        else if code == Str("auth/id-token-revoked") then Denied(401, RevokedMessage)
        else Denied(401, InvalidMessage)
    ensures Authenticate(header, verify, readUser) == Authenticate(header, verify, readUser')
  {
  }

  /** A failing user-record read lands in the same `catch` and is reported
      as a token problem, never as a server error. */
  lemma ReadFailureDenied(header: Option<string>, verify: string -> Verification,
                          readUser: string -> UserRead)
    requires PresentedToken(header).Some?
    requires verify(PresentedToken(header).value).Verified?
    requires readUser(verify(PresentedToken(header).value).claims.uid).ReadFailed?
    ensures var code := readUser(verify(PresentedToken(header).value).claims.uid).code;
      Authenticate(header, verify, readUser) ==
        if code == Str("auth/id-token-expired") then Denied(401, ExpiredMessage)
        else if code == Str("auth/id-token-revoked") then Denied(401, RevokedMessage)
        else Denied(401, InvalidMessage)
  {
  }

  /** A verified subject without a user record is refused with 404 and no
      context is produced. */
  lemma UnknownUserDenied(header: Option<string>, verify: string -> Verification,
                          readUser: string -> UserRead)
    requires PresentedToken(header).Some?
    requires verify(PresentedToken(header).value).Verified?
    requires readUser(verify(PresentedToken(header).value).claims.uid).NoUserDoc?
    ensures Authenticate(header, verify, readUser) == Denied(404, UnknownUserMessage)
  {
  }

  /** A record whose `isActive` is falsy (false, missing, null, 0, "") is
      refused with 403 whatever its role. */
  lemma InactiveDenied(header: Option<string>, verify: string -> Verification,
                       readUser: string -> UserRead)
    requires PresentedToken(header).Some?
    requires verify(PresentedToken(header).value).Verified?
    requires readUser(verify(PresentedToken(header).value).claims.uid).UserDoc?
    requires !Truthy(Get(readUser(verify(PresentedToken(header).value).claims.uid).data, "isActive"))
    ensures Authenticate(header, verify, readUser) == Denied(403, InactiveMessage)
  {
  }

  // ---------------------------------------------------------------------
  // Success

  /** The request is authorised exactly when a non-empty token was
      presented, the verifier accepted it, the subject has a record, and
      the record's `isActive` is truthy. */
  lemma AuthorizedIff(header: Option<string>, verify: string -> Verification,
                      readUser: string -> UserRead)
    ensures Authenticate(header, verify, readUser).Authorized? <==>
      && PresentedToken(header).Some?
      && verify(PresentedToken(header).value).Verified?
      && readUser(verify(PresentedToken(header).value).claims.uid).UserDoc?
      && Truthy(Get(readUser(verify(PresentedToken(header).value).claims.uid).data, "isActive"))
  {
    if PresentedToken(header).Some? {
      assert header.Some? && header.value != "";
      var v := verify(PresentedToken(header).value);
      if v.VerifyFailed? {
        assert !CatchResponse(v.code).Authorized?;
      } else if readUser(v.claims.uid).ReadFailed? {
        assert !CatchResponse(readUser(v.claims.uid).code).Authorized?;
      }
    }
  }

  /** The context attached to `req.user`: name, role and isActive are the
      record's own; uid and email come from the token unless the record has
      those keys; every key of the record is present with the record's
      value; no key beyond the five and the record's is added. */
  lemma ContextMerge(claims: Claims, record: Obj)
    ensures var ctx := Context(claims, record);
      && ctx.Keys == {"uid", "email", "name", "role", "isActive"} + record.Keys
      && (forall k :: k in record ==> ctx[k] == record[k])
      && Get(ctx, "name") == Get(record, "name")
      && Get(ctx, "role") == Get(record, "role")
      && Get(ctx, "isActive") == Get(record, "isActive")
      && Get(ctx, "uid") == (if "uid" in record then record["uid"] else Str(claims.uid))
      && Get(ctx, "email") == (if "email" in record then record["email"] else claims.email)
  {
  }

  /** An authorised context is always an active one built from the
      verified claims and the stored record of the subject. */
  lemma AuthorizedContext(header: Option<string>, verify: string -> Verification,
                          readUser: string -> UserRead)
    requires Authenticate(header, verify, readUser).Authorized?
    ensures PresentedToken(header).Some?
    ensures var v := verify(PresentedToken(header).value);
      && v.Verified?
      && readUser(v.claims.uid).UserDoc?
      && Authenticate(header, verify, readUser).user == Context(v.claims, readUser(v.claims.uid).data)
      && Truthy(Get(Authenticate(header, verify, readUser).user, "isActive"))
  {
    AuthorizedIff(header, verify, readUser);
  }

  /** The outcome depends on nothing but the header, the verifier's answer
      for the presented token and the store's answer for the verified
      subject: nothing is retained between calls, so two runs that see the
      same answers end the same way. */
  lemma OnlyObservedAnswersMatter(header: Option<string>,
                                  verify: string -> Verification, readUser: string -> UserRead,
                                  verify': string -> Verification, readUser': string -> UserRead)
    requires PresentedToken(header).Some? ==>
      var t := PresentedToken(header).value;
      && verify(t) == verify'(t)
      && (verify(t).Verified? ==> readUser(verify(t).claims.uid) == readUser'(verify(t).claims.uid))
    ensures Authenticate(header, verify, readUser) == Authenticate(header, verify', readUser')
  {
  }
}
