/** The request gate in front of the API routes
    (backend/Middleware/AuthenticationMiddleware.cs): a decision from the
    request path and the client's session to forward, 401 or 403. It only
    reads the session, so it is a function of the session's contents. */
module AuthenticationMiddleware {
  import opened Wrappers
  import opened Sessions

  /** Call the next middleware, or stop with status 401 or 403. */
  datatype Outcome = Forward | Reject401 | Reject403

  const ApiSegment: string := "/api"
  const AuthSegment: string := "/api/auth"
  /** The role the 403 rule refuses. */
  const CustomerRole: string := "customer"

  /** Upper-cases ASCII letters and leaves every other character alone. */
  function FoldCase(c: char): char
  {
    if 'a' <= c <= 'z' then (c as int - 32) as char else c
  }

  /** Ordinal comparison ignoring case, restricted to ASCII letters. */
  predicate EqualsIgnoreCase(a: string, b: string)
  {
    |a| == |b| && forall i :: 0 <= i < |a| ==> FoldCase(a[i]) == FoldCase(b[i])
  }

  /** `PathString.StartsWithSegments(prefix)`: the path starts with `prefix`
      (ignoring case) and the prefix ends at the end of the path or at a `/`. */
  predicate StartsWithSegments(path: string, prefix: string)
  {
    && |prefix| <= |path|
    && EqualsIgnoreCase(path[..|prefix|], prefix)
    && (|path| == |prefix| || path[|prefix|] == '/')
  }

  /** The guard of AuthenticationMiddleware.cs:23: an API route outside `/api/auth`. */
  predicate IsGuarded(path: string)
  {
    StartsWithSegments(path, ApiSegment) && !StartsWithSegments(path, AuthSegment)
  }

  /** Both keys the 401 check at AuthenticationMiddleware.cs:26 asks for are set. */
  predicate HasSessionKeys(session: SessionData)
  {
    GetInt32(session, UserIdKey).Some? && GetString(session, SessionIdKey).Some?
  }

  /** The role test of AuthenticationMiddleware.cs:37-38 (ordinal `==`; a
      missing role is null and is not "customer"). */
  predicate IsCustomer(session: SessionData)
  {
    GetString(session, RoleKey) == Some(CustomerRole)
  }

  /** InvokeAsync (AuthenticationMiddleware.cs:17-49). */
  function Gate(path: string, session: SessionData): Outcome
  {
    if IsGuarded(path) then
      if !HasSessionKeys(session) then
        Reject401
      else if IsCustomer(session) then
        Reject403
      else
        Forward
    else
      Forward
  }

  /** The decision in one table: each outcome happens exactly under its own
      condition, and 401 is decided before the role is looked at. */
  lemma GateDecisionTable(path: string, session: SessionData)
    ensures Gate(path, session) == Forward <==>
              !IsGuarded(path) || (HasSessionKeys(session) && !IsCustomer(session))
    ensures Gate(path, session) == Reject401 <==> IsGuarded(path) && !HasSessionKeys(session)
    ensures Gate(path, session) == Reject403 <==>
              IsGuarded(path) && HasSessionKeys(session) && IsCustomer(session)
  {
  }

  /** A path outside the `/api` segment is forwarded whatever the session holds. */
  lemma NonApiPathsForwarded(path: string, session: SessionData)
    requires !StartsWithSegments(path, ApiSegment)
    ensures Gate(path, session) == Forward
  {
  }

  /** A path under the `/api/auth` segment is forwarded whatever the session
      holds, a customer's included. */
  lemma AuthPathsForwarded(path: string, session: SessionData)
    requires StartsWithSegments(path, AuthSegment)
    ensures Gate(path, session) == Forward
  {
  }

  /** A guarded path without `UserID` or without `SessionID` is answered 401,
      even for a customer session that would otherwise get 403. */
  lemma MissingKeyRejected401(path: string, session: SessionData)
    requires IsGuarded(path)
    requires UserIdKey !in session || SessionIdKey !in session
    ensures Gate(path, session) == Reject401
  {
  }

  /** With both keys set, a customer gets 403 on every guarded path. */
  lemma CustomerRejected403(path: string, session: SessionData)
    requires IsGuarded(path) && HasSessionKeys(session)
    requires RoleKey in session && session[RoleKey] == StringValue(CustomerRole)
    ensures Gate(path, session) == Reject403
  {
  }

  /** With both keys set, any other role, or none, is forwarded. */
  lemma OtherRolesForwarded(path: string, session: SessionData)
    requires HasSessionKeys(session)
    requires RoleKey !in session || session[RoleKey] != StringValue(CustomerRole)
    ensures Gate(path, session) == Forward
  {
  }

  /** Segment matching is segment-wise: whatever starts with the `/api/auth`
      segment also starts with the `/api` segment. */
  lemma AuthSegmentIsUnderApi(path: string)
    requires StartsWithSegments(path, AuthSegment)
    ensures StartsWithSegments(path, ApiSegment)
  {
  }

  /** The prefix must stop at a segment boundary: `/apix` is not under `/api`,
      while `/API/phones` is, since case is ignored. */
  lemma SegmentBoundaries()
    ensures !StartsWithSegments("/apix", ApiSegment)
    ensures StartsWithSegments("/API/phones", ApiSegment)
    ensures StartsWithSegments("/api", ApiSegment)
  {
  }

  /** The customer rule, meant for auth endpoints, never fires there (they are
      forwarded before it is reached) and does fire on every other API path:
      a customer session is refused `/api/phones`. */
  lemma CustomerRuleMissesAuthRoutes(path: string, session: SessionData)
    requires HasSessionKeys(session) && IsCustomer(session)
    ensures StartsWithSegments(path, AuthSegment) ==> Gate(path, session) == Forward
    ensures Gate("/api/phones", session) == Reject403
  {
  }

  /** `/api/phones`, the catalog route, is behind the gate. */
  lemma PhonesRouteIsGuarded()
    ensures IsGuarded("/api/phones")
  {
  }
}
