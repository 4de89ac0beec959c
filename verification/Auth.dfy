/** Login, refresh and logout (routers/auth.py) over the users and refresh_tokens
    tables.  Password checks are parameters; a request that raises before its commit
    writes nothing. */
module Auth {
  import opened Options

  type UserId = nat
  type Hash = nat  // of a raw refresh token
  type Time = int  // microseconds

  const MAX_FAILED_ATTEMPTS: int := 5
  const MINUTE: Time := 60_000_000
  const LOCKOUT: Time := 15 * MINUTE
  const REFRESH_LIFETIME: Time := 7 * 24 * 60 * MINUTE

  datatype User = User(active: bool, failedCount: int, lockedUntil: Option<Time>)

  datatype Token = Token(user: UserId, expires: Time, revoked: bool)

  datatype Db = Db(users: map<UserId, User>, tokens: map<Hash, Token>)

  datatype Outcome =
    | LoggedIn | Locked | InvalidCredentials | Disabled
    | Rotated | RevokedOrUnknown | Expired | UserGone
    | LoggedOut
    | KeyClash  // the new hash is not unique; nothing is committed

  /** `checked` is when the lockout was looked at, `now` when the attempt was recorded. */
  function Login(db: Db, u: UserId, passwordOk: bool, hash: Hash, checked: Time, now: Time): (Db, Outcome) {
    if u !in db.users then (db, InvalidCredentials) else
    var user := db.users[u];
    if user.lockedUntil.Some? && checked < user.lockedUntil.value then (db, Locked) else
    var count := if user.lockedUntil.Some? then 0 else user.failedCount;
    if !passwordOk then
      var lock := if count + 1 >= MAX_FAILED_ATTEMPTS then Some(now + LOCKOUT) else None;
      (db.(users := db.users[u := User(user.active, count + 1, lock)]), InvalidCredentials)
    else if !user.active then (db, Disabled)
    else if hash in db.tokens then (db, KeyClash)
    else (Db(db.users[u := User(true, 0, None)], db.tokens[hash := Token(u, now + REFRESH_LIFETIME, false)]), LoggedIn)
  }

  function Refresh(db: Db, presented: Hash, hash: Hash, now: Time): (Db, Outcome) {
    if presented !in db.tokens || db.tokens[presented].revoked then (db, RevokedOrUnknown) else
    var stored := db.tokens[presented];
    if stored.expires < now then (db, Expired)
    else if stored.user !in db.users || !db.users[stored.user].active then (db, UserGone)
    else if hash in db.tokens then (db, KeyClash)
    else (db.(tokens := db.tokens[presented := stored.(revoked := true)]
              [hash := Token(stored.user, now + REFRESH_LIFETIME, false)]),
          Rotated)
  }

  function Logout(db: Db, presented: Hash): (Db, Outcome) {
    (if presented in db.tokens && !db.tokens[presented].revoked
     then db.(tokens := db.tokens[presented := db.tokens[presented].(revoked := true)]) else db,
     LoggedOut)
  }

  class AuthService {
    var users: map<UserId, User>
    var tokens: map<Hash, Token>

    function Tables(): Db
      reads this
    {
      Db(users, tokens)
    }

    constructor (users: map<UserId, User>)
      ensures Tables() == Db(users, map[])
    {
      this.users, tokens := users, map[];
    }

    method LoginUser(u: UserId, passwordOk: bool, hash: Hash, checked: Time, now: Time) returns (outcome: Outcome)
      modifies this
      ensures (Tables(), outcome) == Login(old(Tables()), u, passwordOk, hash, checked, now)
    {
      if u !in users {
        return InvalidCredentials;
      }
      var user := users[u];  // the session's copy; written back on commit
      if user.lockedUntil.Some? {
        if checked < user.lockedUntil.value {
          return Locked;
        }
        user := user.(failedCount := 0, lockedUntil := None);
      }
      if !passwordOk {
        user := user.(failedCount := user.failedCount + 1);
        if user.failedCount >= MAX_FAILED_ATTEMPTS {
          user := user.(lockedUntil := Some(now + LOCKOUT));
        }
        users := users[u := user];
        return InvalidCredentials;
      }
      if !user.active {
        return Disabled;
      }
      user := user.(failedCount := 0, lockedUntil := None);
      if hash in tokens {
        return KeyClash;
      }
      tokens := tokens[hash := Token(u, now + REFRESH_LIFETIME, false)];
      users := users[u := user];
      outcome := LoggedIn;
    }

    method RefreshToken(presented: Hash, hash: Hash, now: Time) returns (outcome: Outcome)
      modifies this
      ensures (Tables(), outcome) == Refresh(old(Tables()), presented, hash, now)
    {
      if presented !in tokens || tokens[presented].revoked {
        return RevokedOrUnknown;
      }
      var stored := tokens[presented];
      if stored.expires < now {
        return Expired;
      }
      if stored.user !in users || !users[stored.user].active {
        return UserGone;
      }
      if hash in tokens {
        return KeyClash;
      }
      tokens := tokens[presented := stored.(revoked := true)];
      tokens := tokens[hash := Token(stored.user, now + REFRESH_LIFETIME, false)];
      outcome := Rotated;
    }

    method LogoutUser(presented: Hash) returns (outcome: Outcome)
      modifies this
      ensures (Tables(), outcome) == Logout(old(Tables()), presented)
    {
      if presented in tokens && !tokens[presented].revoked {
        tokens := tokens[presented := tokens[presented].(revoked := true)];
      }
      outcome := LoggedOut;
    }
  }

  // ----- runs -----

  datatype Request =
    | DoLogin(user: UserId, passwordOk: bool, hash: Hash, checked: Time, now: Time)
    | DoRefresh(presented: Hash, hash: Hash, now: Time)
    | DoLogout(presented: Hash, now: Time)

  function Handle(db: Db, r: Request): (Db, Outcome) {
    match r
    case DoLogin(u, ok, hash, checked, now) => Login(db, u, ok, hash, checked, now)
    case DoRefresh(presented, hash, now) => Refresh(db, presented, hash, now)
    case DoLogout(presented, _) => Logout(db, presented)
  }

  function Run(db: Db, rs: seq<Request>): Db {
    if rs == [] then db else Handle(Run(db, rs[..|rs| - 1]), rs[|rs| - 1]).0
  }

  /** One clock for all requests. */
  predicate Clocked(rs: seq<Request>) {
    && (forall i | 0 <= i < |rs| && rs[i].DoLogin? :: rs[i].checked <= rs[i].now)
    && (forall i, j | 0 <= i < j < |rs| :: rs[i].now <= if rs[j].DoLogin? then rs[j].checked else rs[j].now)
  }
}
