/** The account endpoints of the backend: registration, login and logout
    (backend/API/AuthAPI.cs). The SQLite `Users` table becomes a map from
    UserID to row; the client's session is a `Sessions.Session` object. */
module AuthApi {
  import opened Wrappers
  import opened Sessions

  /** The password digest: SHA-256 over the UTF-8 bytes, then Base64. Its
      internals are not modelled; every result below holds for any
      deterministic function, which is all a Dafny function value can be. */
  type Hasher = string -> string

  /** The request body of register and login (Shared.Models.UserModel). Both
      handlers read the password from the `PasswordHash` field; a null there
      is `None`. */
  datatype UserModel = UserModel(
    email: string,
    role: string,
    passwordHash: Option<string>,
    firstName: string,
    lastName: string,
    address: string,
    phoneNumber: string)

  /** One row of the `Users` table. */
  datatype UserRow = UserRow(
    userId: int,
    email: string,
    role: string,
    passwordHash: string,
    firstName: string,
    lastName: string,
    address: string,
    phoneNumber: string)

  /** The results the handlers return: `Results.Ok`, `Results.BadRequest`,
      `Results.Unauthorized` and `Results.Problem` (an exception caught). */
  datatype Response = Ok | BadRequest | Unauthorized | Problem

  /** The `Users` table by UserID, and the next UserID the database assigns. */
  datatype UserDb = UserDb(rows: map<int, UserRow>, nextUserId: int)

  /** Every row sits under its own UserID, all UserIDs were handed out
      before `nextUserId`, and no two rows share an email. */
  ghost predicate WellFormed(db: UserDb)
  {
    && db.nextUserId >= 1
    && (forall id :: id in db.rows ==> db.rows[id].userId == id && 1 <= id < db.nextUserId)
    && (forall id1, id2 :: id1 in db.rows && id2 in db.rows && db.rows[id1].email == db.rows[id2].email ==> id1 == id2)
  }

  /** `SELECT COUNT(1) FROM Users WHERE Email = @Email` is positive (exact,
      case-sensitive comparison). */
  predicate EmailExists(rows: map<int, UserRow>, email: string)
  {
    exists id :: id in rows && rows[id].email == email
  }

  /** The UserIDs of the rows that the `WHERE Email = @Email` queries select. */
  ghost function RowsWithEmail(rows: map<int, UserRow>, email: string): set<int>
  {
    set id | id in rows && rows[id].email == email
  }

  /** The row `SELECT UserID, PasswordHash, Role FROM Users WHERE Email = @Email`
      reads, or null when there is none. */
  ghost function FindByEmail(db: UserDb, email: string): (r: Option<UserRow>)
    requires WellFormed(db)
    ensures r.None? <==> !EmailExists(db.rows, email)
    ensures r.Some? ==> r.value.email == email && r.value.userId in db.rows && db.rows[r.value.userId] == r.value
  {
    if EmailExists(db.rows, email) then
      var id :| id in db.rows && db.rows[id].email == email;
      Some(db.rows[id])
    else
      None
  }

  /** HashPassword (AuthAPI.cs:130-135). */
  function HashPassword(hash: Hasher, password: string): string
  {
    hash(password)
  }

  /** VerifyPassword (AuthAPI.cs:138-142): recompute the digest and compare. */
  predicate VerifyPassword(hash: Hasher, enteredPassword: string, storedHash: string)
  {
    HashPassword(hash, enteredPassword) == storedHash
  }

  /** The row that registration stores for `user`: the submitted email, role
      and profile fields, with `digest` in place of the submitted password. */
  ghost predicate Records(row: UserRow, user: UserModel, digest: string)
  {
    && row.email == user.email
    && row.role == user.role
    && row.passwordHash == digest
    && row.firstName == user.firstName
    && row.lastName == user.lastName
    && row.address == user.address
    && row.phoneNumber == user.phoneNumber
  }

  /** `after` holds the rows of `before` unchanged plus the one row `id`. */
  ghost predicate AddsOnlyRow(before: map<int, UserRow>, after: map<int, UserRow>, id: int)
  {
    && id !in before
    && after.Keys == before.Keys + {id}
    && (forall k :: k in before ==> after[k] == before[k])
  }

  /** RegisterUser (AuthAPI.cs:27-73) as a function of the table. */
  ghost function RegisterStep(hash: Hasher, db: UserDb, user: UserModel): (s: Step<Response, UserDb>)
    requires WellFormed(db)
    ensures WellFormed(s.state)
    ensures s.response in {Ok, BadRequest, Problem}
    ensures s.response == BadRequest <==> EmailExists(db.rows, user.email)
    ensures s.response == Problem <==> !EmailExists(db.rows, user.email) && user.passwordHash.None?
    ensures s.response != Ok ==> s.state == db
    ensures s.response == Ok ==>
      && user.passwordHash.Some?
      && AddsOnlyRow(db.rows, s.state.rows, db.nextUserId)
      && Records(s.state.rows[db.nextUserId], user, HashPassword(hash, user.passwordHash.value))
      && RowsWithEmail(s.state.rows, user.email) == {db.nextUserId}
  {
    if EmailExists(db.rows, user.email) then
      Step(BadRequest, db)
    else
      match user.passwordHash
      case None =>
        // HashPassword(null) throws inside the try block
        Step(Problem, db)
      case Some(password) =>
        var id := db.nextUserId;
        var row := UserRow(id, user.email, user.role, HashPassword(hash, password),
                           user.firstName, user.lastName, user.address, user.phoneNumber);
        var rows := db.rows[id := row];
        assert forall x :: x in RowsWithEmail(rows, user.email) <==> x == id;
        Step(Ok, UserDb(rows, id + 1))
  }

  /** `after` is `before` with the login keys written and nothing else touched. */
  ghost predicate SignsIn(before: SessionData, after: SessionData, userId: int, role: string)
  {
    && GetInt32(after, UserIdKey) == Some(userId)
    && GetString(after, RoleKey) == Some(role)
    && after.Keys == before.Keys + {UserIdKey, RoleKey}
    && (forall k :: k in before && k != UserIdKey && k != RoleKey ==> after[k] == before[k])
  }

  /** LoginUser (AuthAPI.cs:76-113) as a function of the table and the session. */
  ghost function LoginStep(hash: Hasher, db: UserDb, user: UserModel, session: SessionData): (s: Step<Response, SessionData>)
    requires WellFormed(db)
    ensures s.response in {Ok, Unauthorized, Problem}
    ensures s.response != Ok ==> s.state == session
    ensures !EmailExists(db.rows, user.email) ==> s.response == Unauthorized
    ensures EmailExists(db.rows, user.email) ==>
      var row := FindByEmail(db, user.email).value;
      match user.passwordHash
      case None => s.response == Problem
      case Some(password) =>
        if VerifyPassword(hash, password, row.passwordHash) then
          s.response == Ok && SignsIn(session, s.state, row.userId, row.role)
        else
          s.response == Unauthorized
  {
    match FindByEmail(db, user.email)
    case None => Step(Unauthorized, session)
    case Some(row) =>
      match user.passwordHash
      case None =>
        // VerifyPassword(null, ...) throws inside the try block
        Step(Problem, session)
      case Some(password) =>
        if !VerifyPassword(hash, password, row.passwordHash) then
          Step(Unauthorized, session)
        else
          Step(Ok, session[UserIdKey := IntValue(row.userId)][RoleKey := StringValue(row.role)])
  }

  /** At most one row carries any given email, and one does exactly when the
      registration check finds it. */
  lemma {:induction false} EmailsUnique(db: UserDb, email: string)
    requires WellFormed(db)
    ensures |RowsWithEmail(db.rows, email)| <= 1
    ensures EmailExists(db.rows, email) <==> |RowsWithEmail(db.rows, email)| == 1
  {
    var ids := RowsWithEmail(db.rows, email);
    if EmailExists(db.rows, email) {
      var id :| id in db.rows && db.rows[id].email == email;
      assert forall x :: x in ids <==> x == id;
      assert ids == {id};
    } else {
      assert forall x :: x !in ids;
    }
  }

  /** A digest verifies against the password it was computed from. */
  lemma VerifyAcceptsOwnDigest(hash: Hasher, password: string)
    ensures VerifyPassword(hash, password, HashPassword(hash, password))
  {
  }

  /** Registering the same email twice: Ok, then BadRequest with the table
      left as the first call made it, holding exactly one row for the email. */
  lemma RegisterTwice(hash: Hasher, db: UserDb, user: UserModel, again: UserModel)
    requires WellFormed(db)
    requires !EmailExists(db.rows, user.email) && user.passwordHash.Some?
    requires again.email == user.email
    ensures var first := RegisterStep(hash, db, user);
            var second := RegisterStep(hash, first.state, again);
            && first.response == Ok
            && second.response == BadRequest
            && second.state == first.state
            && |RowsWithEmail(second.state.rows, user.email)| == 1
  {
  }

  /** Register followed by a login with the same email and password signs the
      client in as the new row, with the submitted role. */
  lemma RegisterThenLogin(hash: Hasher, db: UserDb, user: UserModel, session: SessionData)
    requires WellFormed(db)
    requires !EmailExists(db.rows, user.email) && user.passwordHash.Some?
    ensures var registered := RegisterStep(hash, db, user);
            var login := LoginStep(hash, registered.state, user, session);
            && registered.response == Ok
            && login.response == Ok
            && GetInt32(login.state, UserIdKey) == Some(db.nextUserId)
            && GetString(login.state, RoleKey) == Some(user.role)
  {
  }

  /** An unknown email and a wrong password get the same answer and leave the
      session as it was. */
  lemma LoginFailuresIndistinguishable(hash: Hasher, db: UserDb, unknown: UserModel, wrong: UserModel, session: SessionData)
    requires WellFormed(db)
    requires !EmailExists(db.rows, unknown.email)
    requires EmailExists(db.rows, wrong.email) && wrong.passwordHash.Some?
    requires !VerifyPassword(hash, wrong.passwordHash.value, FindByEmail(db, wrong.email).value.passwordHash)
    ensures LoginStep(hash, db, unknown, session) == LoginStep(hash, db, wrong, session) == Step(Unauthorized, session)
  {
  }

  /** No salt: two accounts registered with the same password store the same
      digest. */
  lemma UnsaltedDigests(hash: Hasher, db: UserDb, u1: UserModel, u2: UserModel)
    requires WellFormed(db)
    requires u1.email != u2.email && !EmailExists(db.rows, u1.email) && !EmailExists(db.rows, u2.email)
    requires u1.passwordHash.Some? && u1.passwordHash == u2.passwordHash
    ensures var s1 := RegisterStep(hash, db, u1);
            var s2 := RegisterStep(hash, s1.state, u2);
            && s2.response == Ok
            && s2.state.rows[db.nextUserId].passwordHash == s2.state.rows[db.nextUserId + 1].passwordHash
  {
  }

  /** The Users table and the digest function of the running backend. */
  class AuthService {
    const hash: Hasher
    var users: map<int, UserRow>
    var nextUserId: int

    ghost function Db(): UserDb
      reads this
    {
      UserDb(users, nextUserId)
    }

    ghost predicate Valid()
      reads this
    {
      WellFormed(Db())
    }

    /** An empty `Users` table. */
    constructor (hash: Hasher)
      ensures Valid()
      ensures this.hash == hash && users == map[]
    {
      this.hash := hash;
      users := map[];
      nextUserId := 1;
    }

    /** RegisterUser (AuthAPI.cs:27-73). It takes no session: registering
        never signs the client in. */
    method RegisterUser(user: UserModel) returns (r: Response)
      requires Valid()
      modifies this
      ensures Valid()
      ensures Step(r, Db()) == RegisterStep(hash, old(Db()), user)
    {
      var found := EmailExists(users, user.email);
      if found {
        return BadRequest;
      }
      if user.passwordHash.None? {
        // HashPassword(null) throws; the catch answers Problem
        return Problem;
      }
      var submitted := user;
      submitted := submitted.(passwordHash := Some(HashPassword(hash, submitted.passwordHash.value)));
      var row := UserRow(nextUserId, submitted.email, submitted.role, submitted.passwordHash.value,
                         submitted.firstName, submitted.lastName, submitted.address, submitted.phoneNumber);
      users := users[nextUserId := row];
      nextUserId := nextUserId + 1;
      r := Ok;
    }

    /** LoginUser (AuthAPI.cs:76-113). Only the session may change. */
    method LoginUser(user: UserModel, session: Session) returns (r: Response)
      requires Valid()
      modifies session
      ensures Step(r, session.entries) == LoginStep(hash, Db(), user, old(session.entries))
    {
      if !EmailExists(users, user.email) {
        return Unauthorized;
      }
      var id :| id in users && users[id].email == user.email;
      var storedHash := users[id].passwordHash;
      if user.passwordHash.None? {
        // VerifyPassword(null, ...) throws; the catch answers Problem
        return Problem;
      }
      if !VerifyPassword(hash, user.passwordHash.value, storedHash) {
        return Unauthorized;
      }
      var userId := users[id].userId;
      var role := users[id].role;
      session.SetInt32(UserIdKey, userId);
      session.SetString(RoleKey, role);
      r := Ok;
    }
  }

  /** LogoutUser (AuthAPI.cs:116-127): clears the whole session and always
      answers Ok. */
  method LogoutUser(session: Session) returns (r: Response)
    modifies session
    ensures r == Ok && session.entries == map[]
  {
    session.Clear();
    r := Ok;
  }
}
