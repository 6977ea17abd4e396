/** How the account endpoints and the request gate behave together: what a
    client that registers, logs in and logs out meets at the gate. */
module Scenarios {
  import opened Wrappers
  import opened Sessions
  import opened AuthApi
  import opened AuthenticationMiddleware

  /** Login writes `UserID` and `Role` but never `SessionID`, and nothing else
      does either; so a session signed in by LoginUser is still refused with
      401 on every guarded path, `/api/phones` included. */
  lemma LoginSessionStillRejected(hash: Hasher, db: UserDb, user: UserModel, session: SessionData, path: string)
    requires WellFormed(db)
    requires SessionIdKey !in session
    requires IsGuarded(path)
    ensures SessionIdKey !in LoginStep(hash, db, user, session).state
    ensures Gate(path, LoginStep(hash, db, user, session).state) == Reject401
    ensures Gate("/api/phones", LoginStep(hash, db, user, session).state) == Reject401
  {
  }

  /** A customer registers, fails one login with a wrong password, logs in,
      tries the catalog and an auth route, and logs out twice. The answers are
      those of the code: the catalog is refused with 401 even right after a
      successful login, the auth route is forwarded, and both logouts answer
      Ok and leave an empty session. */
  method CustomerSession(hash: Hasher, password: string, wrong: string)
    returns (registered: Response, badLogin: Response, goodLogin: Response,
             catalog: Outcome, authRoute: Outcome, logout1: Response, logout2: Response,
             catalogAfterLogout: Outcome)
    requires hash(wrong) != hash(password)
    ensures registered == Ok && badLogin == Unauthorized && goodLogin == Ok
    ensures catalog == Reject401 && authRoute == Forward
    ensures logout1 == Ok && logout2 == Ok && catalogAfterLogout == Reject401
  {
    var auth := new AuthService(hash);
    var session := new Session();
    var customer := UserModel("a@x.com", CustomerRole, Some(password), "A", "X", "Street 1", "040");
    registered := auth.RegisterUser(customer);
    badLogin := auth.LoginUser(customer.(passwordHash := Some(wrong)), session);
    goodLogin := auth.LoginUser(customer, session);
    catalog := Gate("/api/phones", session.entries);
    authRoute := Gate("/api/auth/logout", session.entries);
    logout1 := LogoutUser(session);
    logout2 := LogoutUser(session);
    catalogAfterLogout := Gate("/api/phones", session.entries);
  }
}
