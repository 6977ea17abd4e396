/** The per-client session dictionary of ASP.NET Core (`HttpContext.Session`),
    restricted to the calls the handlers and the middleware make on it:
    `SetInt32`, `SetString`, `Clear`, `GetInt32` and `GetString`. */
module Sessions {
  import opened Wrappers

  /** A value written into the session, tagged by the setter that wrote it. */
  datatype SessionValue = IntValue(n: int) | StringValue(s: string)

  /** The contents of one client's session. */
  type SessionData = map<string, SessionValue>

  /** The session keys the application uses: login writes `UserID` and
      `Role`; the request gate reads those and `SessionID`. */
  const UserIdKey: string := "UserID"
  const RoleKey: string := "Role"
  const SessionIdKey: string := "SessionID"

  /** `Session.GetInt32(key)`: null when the key is absent. */
  function GetInt32(session: SessionData, key: string): Option<int>
  {
    if key in session && session[key].IntValue? then Some(session[key].n) else None
  }

  /** `Session.GetString(key)`: null when the key is absent. */
  function GetString(session: SessionData, key: string): Option<string>
  {
    if key in session && session[key].StringValue? then Some(session[key].s) else None
  }

  /** The session object of one client; the handlers update it in place. */
  class Session {
    var entries: SessionData

    /** A client that has not stored anything yet. */
    constructor ()
      ensures entries == map[]
    {
      entries := map[];
    }

    method SetInt32(key: string, value: int)
      modifies this
      ensures entries == old(entries)[key := IntValue(value)]
    {
      entries := entries[key := IntValue(value)];
    }

    method SetString(key: string, value: string)
      modifies this
      ensures entries == old(entries)[key := StringValue(value)]
    {
      entries := entries[key := StringValue(value)];
    }

    /** Removes every key of this client's session. */
    method Clear()
      modifies this
      ensures entries == map[]
    {
      entries := map[];
    }
  }
}
