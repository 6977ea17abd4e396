# Used-phones web shop: accounts, request gate and phone catalog, in Dafny

This project models three pieces of the backend of a small web shop for used
phones.

- **Account endpoints** (`backend/API/AuthAPI.cs`). Register, login and logout
  work over the `Users` table and the client's session. Registration refuses
  an email that is already stored. It stores a digest of the submitted
  password, never the password itself. Login answers the same `Unauthorized`
  for an unknown email and for a wrong password. On success it writes `UserID`
  and `Role` into the session. Logout clears the session.
- **Request gate** (`backend/Middleware/AuthenticationMiddleware.cs`). It
  decides, from the request path and the session, whether a request goes on,
  is refused with 401, or is refused with 403.
- **Phone catalog** (`backend/API/PhonesAPI.cs`). List, add, delete and
  partial update over the `Phones` table, with input checks and a field merge
  that uses null-coalescing.

Files, one module each:

- `Wrappers.dfy`: `Option` (a C# null), `Coalesce` (`??`), and `Step` (a
  handler's response together with the state it leaves).
- `Sessions.dfy`: the ASP.NET session as a `Session` class over a map.
- `AuthApi.dfy`: the `Users` table and the account handlers.
- `Middleware.dfy`: `StartsWithSegments` and the gate.
- `PhonesApi.dfy`: the `Phones` table and the catalog handlers.
- `Scenarios.dfy`: how the account handlers and the gate behave together.

Register, login and the three phone handlers that change the table appear
twice. A ghost `...Step` function computes the response and the new table or
session. Its `ensures` clauses and the lemmas next to it state the
properties. A class method (`AuthService`, `PhoneTable`) runs the handler's
branches and assignments in the same order as the C# code, and its `ensures`
ties its result and new state to the `...Step` function. Logout appears once:
its method's `ensures` give the new session directly. The SQLite tables become maps, from UserID to row and
from PhoneID to row. A counter stands in for the ids that the database hands
out.

The password digest (SHA-256 over the UTF-8 bytes, then Base64) is a
parameter `hash: string -> string`. Every result holds for any deterministic
digest function.

Path matching follows `PathString.StartsWithSegments` with its default
case-insensitive comparison. The prefix must end at the end of the path or
at a `/`. Case folding covers ASCII letters only.

### Where the code differs from the intended design

The model follows the code in each of these cases.

- Nothing in the code writes the `SessionID` session key. Login writes only
  `UserID` and `Role`, so every guarded `/api` route answers 401 even right
  after a successful login. A logged-in client never reaches "allowed".
  This is stated in `Scenarios.LoginSessionStillRejected` and
  `Scenarios.CustomerSession`.
- The `customer` rule is commented as guarding the auth endpoints. It sits
  inside the guard that excludes `/api/auth`, so it never fires there, and it
  refuses customers on every other `/api` route. This is stated in
  `AuthenticationMiddleware.CustomerRuleMissesAuthRoutes`.
- A duplicate registration answers `BadRequest`, not a separate conflict
  result.
- The `customer` role test is an ordinal, case-sensitive string comparison.
  Roles are strings, not an enumeration.

## Model

| member | source | states |
|---|---|---|
| `AuthApi.FindByEmail` | backend/API/AuthAPI.cs:84-93 | The login query finds no row exactly when the registration check finds no email. Otherwise it returns the stored row whose email is exactly the submitted one. |
| `AuthApi.EmailsUnique` | backend/API/AuthAPI.cs:36-46 | In a table that registration has built, at most one row has a given email. The `COUNT(1) > 0` check is true exactly when there is one. |
| `AuthApi.RegisterStep` | backend/API/AuthAPI.cs:27-73 | Duplicate email: BadRequest, table unchanged. New email with a null password: Problem, table unchanged. Otherwise: Ok, and exactly one row is added under a fresh UserID with every other row unchanged. The new row holds the digest of the submitted password and the submitted email, role and profile fields, and is the only row with that email. The table invariant holds afterwards. |
| `AuthApi.RegisterTwice` | backend/API/AuthAPI.cs:38-64 | Registering the same email twice gives Ok, then BadRequest. The second call leaves the table as the first call left it, with exactly one row for the email. |
| `AuthApi.UnsaltedDigests` | backend/API/AuthAPI.cs:130-135 | Two accounts registered with the same password store the same digest, because the digest has no salt. |
| `AuthApi.HashPassword` | backend/API/AuthAPI.cs:130-135 | The stored digest of a password is the digest function applied to it: no salt, nothing else enters. |
| `AuthApi.VerifyPassword` | backend/API/AuthAPI.cs:138-142 | A password is accepted exactly when its recomputed digest equals the stored digest, compared exactly. |
| `AuthApi.VerifyAcceptsOwnDigest` | backend/API/AuthAPI.cs:138-142 | A password verifies against the digest computed from it. |
| `AuthApi.LoginStep` | backend/API/AuthAPI.cs:76-113 | Unknown email: Unauthorized. Known email with a null password: Problem. Known email with a password whose digest differs from the stored one: Unauthorized. In all three cases the session is unchanged. Otherwise: Ok, the session's `UserID` is the stored UserID, its `Role` is the stored role, and no other key is added or changed. |
| `AuthApi.LoginFailuresIndistinguishable` | backend/API/AuthAPI.cs:89-97 | An unknown email and a known email with a wrong password get the identical result, Unauthorized with the session unchanged. |
| `AuthApi.RegisterThenLogin` | backend/API/AuthAPI.cs:49-103 | After a successful registration, logging in with the same email and password succeeds. The session then carries the new UserID and the submitted role. |
| `AuthApi.AuthService.RegisterUser` | backend/API/AuthAPI.cs:27-73 | The handler's branches produce exactly `RegisterStep`'s response and new table, and keep the table invariant. It takes no session, so it cannot touch one. |
| `AuthApi.AuthService.LoginUser` | backend/API/AuthAPI.cs:76-113 | The handler produces exactly `LoginStep`'s response and new session. It modifies only the session, so the `Users` table is unchanged. |
| `AuthApi.LogoutUser` | backend/API/AuthAPI.cs:116-127 | Always answers Ok and leaves the session empty, whatever the session held before. |
| `AuthenticationMiddleware.StartsWithSegments` | backend/Middleware/AuthenticationMiddleware.cs:23 | The path begins with the prefix, ignoring the case of ASCII letters, and the prefix ends at the end of the path or just before a `/`. |
| `AuthenticationMiddleware.Gate` | backend/Middleware/AuthenticationMiddleware.cs:17-49 | A path outside `/api`, or under `/api/auth`, is forwarded. Any other path is refused with 401 when `UserID` or `SessionID` is missing. That test comes before the role test. Otherwise a `customer` role gets 403 and every other role, or none, is forwarded. |
| `AuthenticationMiddleware.GateDecisionTable` | backend/Middleware/AuthenticationMiddleware.cs:17-49 | Each of forward, 401 and 403 happens exactly under its own condition. Forward: the path is not guarded, or both keys are set and the role is not `customer`. 401: guarded and a key is missing. 403: guarded, both keys set, and role `customer`. |
| `AuthenticationMiddleware.NonApiPathsForwarded` | backend/Middleware/AuthenticationMiddleware.cs:23-48 | A path outside the `/api` segment is forwarded whatever the session holds. |
| `AuthenticationMiddleware.AuthPathsForwarded` | backend/Middleware/AuthenticationMiddleware.cs:23-48 | A path under the `/api/auth` segment is forwarded whatever the session holds. |
| `AuthenticationMiddleware.MissingKeyRejected401` | backend/Middleware/AuthenticationMiddleware.cs:26-34 | A guarded path with `UserID` or `SessionID` missing gets 401. This holds for a customer session too, so 401 comes before 403. |
| `AuthenticationMiddleware.CustomerRejected403` | backend/Middleware/AuthenticationMiddleware.cs:36-44 | A guarded path with both keys set and role `customer` gets 403. |
| `AuthenticationMiddleware.OtherRolesForwarded` | backend/Middleware/AuthenticationMiddleware.cs:36-48 | With both keys set, any role other than `customer`, or no role at all, is forwarded. |
| `AuthenticationMiddleware.AuthSegmentIsUnderApi` | backend/Middleware/AuthenticationMiddleware.cs:23 | Every path under the `/api/auth` segment is also under the `/api` segment. |
| `AuthenticationMiddleware.SegmentBoundaries` | backend/Middleware/AuthenticationMiddleware.cs:23 | `/apix` is not under the `/api` segment. `/api` and `/API/phones` are. |
| `AuthenticationMiddleware.PhonesRouteIsGuarded` | backend/Middleware/AuthenticationMiddleware.cs:23 | `/api/phones`, the catalog route, is under `/api` and not under `/api/auth`, so the gate applies to it. |
| `AuthenticationMiddleware.CustomerRuleMissesAuthRoutes` | backend/Middleware/AuthenticationMiddleware.cs:36-44 | For a customer session with both keys set, every `/api/auth` path is forwarded, while `/api/phones` gets 403. |
| `Scenarios.LoginSessionStillRejected` | backend/Middleware/AuthenticationMiddleware.cs:26-34 | Start from a session without `SessionID`. Whatever login answers, the session still has no `SessionID` afterwards. So every guarded path, `/api/phones` included, gets 401. |
| `Scenarios.CustomerSession` | backend/API/AuthAPI.cs:27-127 | A customer registers (Ok) and logs in with a wrong password (Unauthorized), then with the right one (Ok). `/api/phones` then gets 401 and `/api/auth/logout` is forwarded. Two logouts in a row both answer Ok, and `/api/phones` still gets 401. |
| `PhonesApi.Merge` | backend/API/PhonesAPI.cs:216-221 | The merge never changes the PhoneID. |
| `PhonesApi.MergeFieldwise` | backend/API/PhonesAPI.cs:216-221 | For each of the six fields, the merged value is the update's value when it is given, and the stored value when the update has null there. |
| `PhonesApi.MergeNoChangeIsIdentity` | backend/API/PhonesAPI.cs:216-221 | An update with every field null leaves the phone as it was. |
| `PhonesApi.MergeIdempotent` | backend/API/PhonesAPI.cs:216-221 | Applying the same update twice gives the same phone as applying it once. |
| `PhonesApi.AddStep` | backend/API/PhonesAPI.cs:77-128 | Empty Brand or Model, Price <= 0, or StockQuantity <= 0: BadRequest, table unchanged. Otherwise: Created with the submitted phone under a PhoneID not previously in the table. That row is added, every other row is unchanged, and the returned phone is the stored row. |
| `PhonesApi.DeleteStep` | backend/API/PhonesAPI.cs:131-170 | id <= 0: BadRequest, table unchanged. Absent id: NotFound, table unchanged. Otherwise: Ok, exactly row id is removed, and every other row is unchanged. |
| `PhonesApi.UpdateStep` | backend/API/PhonesAPI.cs:176-254 | Null body: BadRequest. Absent id: NotFound. Merged Price <= 0 or merged StockQuantity < 0: BadRequest. In these three cases the table is unchanged. Otherwise: the answer carries the merged phone, only row id is replaced by it, and its PhoneID is still id. |
| `PhonesApi.NonPositiveUpdateIdNotFound` | backend/API/PhonesAPI.cs:193-200 | A partial update never refuses id <= 0 as such. Such an id is simply not found. |
| `PhonesApi.UpdateAcceptsWhatAddRefuses` | backend/API/PhonesAPI.cs:224-227 | Updates are checked more weakly than inserts. A stored phone can be updated to an empty Brand and zero stock, which AddPhone would refuse. |
| `PhonesApi.AddThenDelete` | backend/API/PhonesAPI.cs:95-162 | Deleting the phone that was just added answers Ok and restores the table's rows. |
| `PhonesApi.ListingSize` | backend/API/PhonesAPI.cs:50-65 | A list that holds each row of the table exactly once is as long as the table. |
| `PhonesApi.RowsBelowAreRows` | backend/API/PhonesAPI.cs:50-65 | Every row a rowid-order scan has read before a bound is a row of the table, stored under its PhoneID, below the bound. |
| `PhonesApi.RowsBelowAscending` | backend/API/PhonesAPI.cs:50-65 | A rowid-order scan reads rows in strictly ascending PhoneID order. |
| `PhonesApi.RowsBelowComplete` | backend/API/PhonesAPI.cs:50-65 | Every row with a positive PhoneID below the bound has been read by the scan. |
| `PhonesApi.ScanListsTable` | backend/API/PhonesAPI.cs:50-65 | On a well-formed table, the scan up to the next PhoneID lists the whole table, each row once, ascending, as many entries as rows. |
| `PhonesApi.PhoneTable.GetPhones` | backend/API/PhonesAPI.cs:33-74 | The list holds every row of the table exactly once, as stored, in ascending PhoneID order, and is as long as the table. |
| `PhonesApi.PhoneTable.AddPhone` | backend/API/PhonesAPI.cs:77-128 | The handler produces exactly `AddStep`'s response and new table, and keeps the table invariant. |
| `PhonesApi.PhoneTable.DeletePhone` | backend/API/PhonesAPI.cs:131-170 | The handler produces exactly `DeleteStep`'s response and new table, and keeps the table invariant. |
| `PhonesApi.PhoneTable.UpdatePhonePartial` | backend/API/PhonesAPI.cs:176-254 | The handler overwrites the fields one at a time, then checks them. It produces exactly `UpdateStep`'s response and new table, and keeps the table invariant. |

## Left out

- SQLite connections, commands, readers and async/await are left out. The tables are in-memory maps.
- Exceptions from the store are left out (the `catch` blocks that answer `Results.Problem`). Only one exception is modelled: a null password reaching `HashPassword`, which throws inside the `try` block in register and login.
- Response bodies and messages are left out. Each outcome is a datatype constructor.
- The SHA-256 and Base64 internals are left out. The digest is an arbitrary deterministic function, so nothing about collisions is claimed.
- The check-then-insert race between concurrent registrations is left out. The model is sequential. Any uniqueness constraint on `Email` would live in the database schema, which is not part of this model.
- `CreatedDate` (`CURRENT_TIMESTAMP`) is left out. It reads the wall clock.
- Null profile fields in a registration are left out. All four (`FirstName`, `LastName`, `Address`, `PhoneNumber`) may be null in the request. `Microsoft.Data.Sqlite` refuses a parameter whose value is null when the command runs, so the insert at `AuthAPI.cs:64` throws and the `catch` answers `Problem`. That path belongs to the store exceptions left out above. Profile fields are plain strings here.
- Null `Brand` and `Model` in AddPhone are represented by the empty string. Both are refused alike. Null `Description` and `Condition` are left out: the insert at `PhonesAPI.cs:109` then throws, because `Microsoft.Data.Sqlite` refuses a null parameter value, and the `catch` answers `Problem`. Description and condition are plain strings here.
- Price is stored in a SQLite `REAL` column (a double). The model keeps the exact `decimal` value, so rounding through the double is left out.
- The 32-bit casts of ids and stock (`(int)phoneId`, `GetInt32`) are left out. Ids come from an unbounded counter. The counter never reuses an id. SQLite without `AUTOINCREMENT` may reuse the largest deleted id, but the schema is not part of this model. The properties proved only need the new id to be absent from the table.
- PhonesApi.PhoneTable.GetPhones: rows are listed in ascending PhoneID order, the order of a scan of a rowid table. The query itself has no `ORDER BY`.
- The session stores bytes. Reading a key with the getter of the other type (`GetInt32` on a string value, or the reverse) reads as null here. The code shown never writes a key with one type and reads it with the other.
- Case-insensitive path matching folds ASCII letters only. Other characters are compared exactly.
- `UserModel.Password`, `UserModel.UserID` and `LoginResult.Token` are left out. No logic shown reads them.
- `frontend/Authentication/CustomAuthenticationStateProvider.cs`, `backend/Program.cs` and `frontend/Program.cs` are left out. They are framework wiring and browser storage. `backend/Program.cs` never maps the auth endpoints or registers the middleware, so each component is modelled on its own.
