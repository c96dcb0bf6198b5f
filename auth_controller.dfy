/** The session lifecycle of the authentication controller: `login` issues an access token and a
    refresh token and records both in a per-user cache; `refreshToken` exchanges a registered,
    unexpired refresh token for a new access token unless the user's cache entry is revoked. */
module AuthController {
  import opened Js
  import opened RefreshTokens

  /** A signed JWT, identified with its claims `{ uuid, role }`, its issue time in whole seconds
      and its lifetime; the signature itself is not modelled. */
  datatype AccessToken = AccessToken(uuid: int, role: string, issuedAt: int, expiresIn: int)

  /** `jwt.sign({ uuid, role }, SECRET, { expiresIn })` at instant `now` (milliseconds). */
  function Sign(uuid: int, role: string, now: int, expiresIn: int): (t: AccessToken)
    ensures t.uuid == uuid && t.role == role && t.expiresIn == expiresIn
    ensures t.issuedAt * 1000 <= now < t.issuedAt * 1000 + 1000
  {
    AccessToken(uuid, role, now / 1000, expiresIn)
  }

  /** A user as the two handlers read it. */
  datatype Account = Account(id: int, username: string, role: string, passwordHash: string)

  /** `JWT_EXP` and `JWT_REFRESH_EXP`, in seconds. */
  datatype Config = Config(jwtExp: int, refreshExp: int)

  /** The cache entry stored under the key `jwt<id>`. */
  datatype CachedSession = CachedSession(accessToken: AccessToken, refreshToken: string, isRevoked: bool)

  /** Both stores the handlers touch: the refresh-token table and the per-user cache. */
  datatype Stores = Stores(tokens: map<string, RefreshRow>, cache: map<int, CachedSession>)

  /** The users table keeps ids and usernames unique. */
  ghost predicate Directory(users: seq<Account>) {
    forall i, j :: 0 <= i < j < |users| ==> users[i].id != users[j].id && users[i].username != users[j].username
  }

  /** `Users.findOne({ where: { username } })` */
  function FindByUsername(users: seq<Account>, name: string): (r: Option<Account>)
    ensures r.Some? ==> r.value in users && r.value.username == name
    ensures r.None? ==> forall a :: a in users ==> a.username != name
  {
    if users == [] then None
    else if users[0].username == name then Some(users[0])
    else FindByUsername(users[1..], name)
  }

  /** `refreshToken.getUser()`: the user the row belongs to. */
  function FindById(users: seq<Account>, id: int): (r: Option<Account>)
    ensures r.Some? ==> r.value in users && r.value.id == id
    ensures r.None? ==> forall a :: a in users ==> a.id != id
  {
    if users == [] then None
    else if users[0].id == id then Some(users[0])
    else FindById(users[1..], id)
  }

  /** In a table with unique ids, looking a user up by its own id finds that user. */
  lemma {:induction false} FindOwnId(users: seq<Account>, a: Account)
    requires Directory(users) && a in users
    ensures FindById(users, a.id) == Some(a)
  {
    var k :| 0 <= k < |users| && users[k] == a;
    assert FindById(users, a.id).Some?;
    var m :| 0 <= m < |users| && users[m] == FindById(users, a.id).value;
    assert forall i, j :: 0 <= i < |users| && 0 <= j < |users| && users[i].id == users[j].id ==> i == j;
  }

  /** What `login` answers. */
  datatype LoginReply =
    | BadCredentials                  // 401 'Bad Credentials'
    | LoginError                      // 500, from the error handler
    | LoggedIn(userId: int, accessToken: AccessToken, refreshToken: string)

  /** `login` on the stores: `username` is `req.body.username`, `None` when the body has none (the
      ORM refuses a `WHERE` on undefined and the error handler answers 500); `uuid` is the value
      `uuidv4()` yields for the new refresh token. */
  function LoginStep(s: Stores, users: seq<Account>, username: Option<string>, password: string,
                     matches: (string, string) -> bool, now: int, config: Config, uuid: string)
    : (r: (Stores, LoginReply))
    requires uuid !in s.tokens
    ensures r.1.BadCredentials? <==>
      && username.Some?
      && var found := FindByUsername(users, username.value);
      found.None? || !matches(found.value.passwordHash, password)
    ensures r.1.LoginError? <==>
      || username.None?
      || var found := FindByUsername(users, username.value);
         found.Some? && matches(found.value.passwordHash, password) && found.value.id == 0
    ensures !r.1.LoggedIn? ==> r.0 == s
    ensures r.1.LoggedIn? ==>
      var found := FindByUsername(users, username.value);
      && username.Some? && found.Some? && r.1.userId == found.value.id != 0
      && r.1.accessToken == Sign(found.value.id, found.value.role, now, config.jwtExp)
      && r.1.refreshToken == uuid
      && r.0.tokens == s.tokens[uuid := RefreshRow(r.1.userId, ExpiryAt(now, config.refreshExp))]
      && r.0.cache == s.cache[r.1.userId := CachedSession(r.1.accessToken, r.1.refreshToken, false)]
  {
    if username.None? then (s, LoginError)
    else match FindByUsername(users, username.value)
    case None => (s, BadCredentials)
    case Some(user) =>
      if !matches(user.passwordHash, password) then (s, BadCredentials)
      else
        var accessToken := Sign(user.id, user.role, now, config.jwtExp);
        var (rows, refreshToken) := Created(s.tokens, user.id, now, config.refreshExp, uuid);
        if refreshToken.None? then (s, LoginError)
        else
          var cache := s.cache[user.id := CachedSession(accessToken, refreshToken.value, false)];
          (Stores(rows, cache), LoggedIn(user.id, accessToken, refreshToken.value))
  }

  /** The `refreshToken` field of the request body. */
  datatype RequestToken = NullToken | Absent | Given(value: string)

  /** What `refreshToken` answers. */
  datatype RefreshReply =
    | TokenRequired                   // 403 'Refresh token is required'
    | NotRegistered                   // 403 'The refresh token is not registered'
    | TokenExpired                    // 403 'Refresh token is expired...'
    | TokenRevoked                    // 403 'The token is revoked'
    | RefreshError                    // 500, from the error handler
    | Refreshed(accessToken: AccessToken, refreshToken: string)

  function RefreshStatus(r: RefreshReply): int {
    match r
    case RefreshError => 500
    case Refreshed(_, _) => 200
    case _ => 403
  }

  /** The request carries a registered refresh token that has not expired. */
  predicate Live(s: Stores, request: RequestToken, now: int) {
    request.Given? && request.value in s.tokens && !IsExpired(s.tokens[request.value], now)
  }

  /** The user's cache entry exists and is marked revoked. */
  predicate Revoked(cache: map<int, CachedSession>, id: int) {
    id in cache && cache[id].isRevoked
  }

  /** `refreshToken` on the stores. */
  function RefreshStep(s: Stores, users: seq<Account>, request: RequestToken, now: int, config: Config)
    : (r: (Stores, RefreshReply))
    ensures r.1.TokenRequired? <==> request.NullToken?
    ensures r.1.NotRegistered? <==> request.Given? && request.value !in s.tokens
    ensures r.1.TokenExpired? <==> request.Given? && request.value in s.tokens && IsExpired(s.tokens[request.value], now)
    ensures r.1.TokenExpired? ==> r.0 == Stores(s.tokens - {request.value}, s.cache)
    ensures !r.1.TokenExpired? && !r.1.Refreshed? ==> r.0 == s
    ensures r.1.Refreshed? ==>
      && request.Given? && r.1.refreshToken == request.value
      && r.0.tokens == s.tokens
      && var u := r.1.accessToken.uuid;
      && (u !in s.cache || !s.cache[u].isRevoked)
      && r.0.cache == s.cache[u := CachedSession(r.1.accessToken, request.value, false)]
    ensures r.1.RefreshError? <==>
      request.Absent? || (Live(s, request, now) && FindById(users, s.tokens[request.value].userId).None?)
    ensures r.1.TokenRevoked? <==>
      && Live(s, request, now)
      && var owner := FindById(users, s.tokens[request.value].userId);
      owner.Some? && Revoked(s.cache, owner.value.id)
    ensures r.1.Refreshed? <==>
      && Live(s, request, now)
      && var owner := FindById(users, s.tokens[request.value].userId);
      owner.Some? && !Revoked(s.cache, owner.value.id)
    ensures r.1.Refreshed? ==>
      var owner := FindById(users, s.tokens[request.value].userId).value;
      && r.1.accessToken == Sign(owner.id, owner.role, now, config.jwtExp)
      && r.0.cache == s.cache[owner.id := CachedSession(r.1.accessToken, request.value, false)]
  {
    match request
    case NullToken => (s, TokenRequired)
    case Absent => (s, RefreshError)
    case Given(token) =>
      if token !in s.tokens then (s, NotRegistered)
      else
        var row := s.tokens[token];
        if IsExpired(row, now) then (Stores(s.tokens - {token}, s.cache), TokenExpired)
        else match FindById(users, row.userId)
          case None => (s, RefreshError)
          case Some(user) =>
            var accessToken := Sign(user.id, user.role, now, config.jwtExp);
            if user.id in s.cache && s.cache[user.id].isRevoked then (s, TokenRevoked)
            else (Stores(s.tokens, s.cache[user.id := CachedSession(accessToken, token, false)]),
                  Refreshed(accessToken, token))
  }

  /** An expired token is gone after the first attempt: the same value is then "not registered". */
  lemma ExpiredThenNotRegistered(s: Stores, users: seq<Account>, token: string, now: int, later: int, config: Config)
    requires RefreshStep(s, users, Given(token), now, config).1.TokenExpired?
    ensures RefreshStep(RefreshStep(s, users, Given(token), now, config).0, users, Given(token), later, config).1
            == NotRegistered
  {
  }

  /** A successful login followed, before the refresh token's expiry, by a refresh with the token it
      returned yields a new access token and the same refresh token, however the cache stood before
      the login: the login cleared any earlier revocation. */
  lemma LoginThenRefresh(s: Stores, users: seq<Account>, username: string, password: string,
                         matches: (string, string) -> bool, now: int, later: int, config: Config, uuid: string)
    requires Directory(users) && uuid !in s.tokens
    requires LoginStep(s, users, Some(username), password, matches, now, config, uuid).1.LoggedIn?
    requires later <= now + 1000 * config.refreshExp
    ensures
      var (s1, login) := LoginStep(s, users, Some(username), password, matches, now, config, uuid);
      var user := FindByUsername(users, username).value;
      RefreshStep(s1, users, Given(login.refreshToken), later, config)
      == (Stores(s1.tokens, s1.cache[user.id := CachedSession(Sign(user.id, user.role, later, config.jwtExp), uuid, false)]),
          Refreshed(Sign(user.id, user.role, later, config.jwtExp), uuid))
  {
    var user := FindByUsername(users, username).value;
    FindOwnId(users, user);
  }

  /** The two stores of the authentication controller. */
  class AuthService {
    const table: RefreshTokenTable
    var cache: map<int, CachedSession>

    ghost predicate Valid()
      reads this, table
    {
      table.Valid()
    }

    function State(): Stores
      reads this, table
    {
      Stores(table.rows, cache)
    }

    constructor ()
      ensures Valid() && fresh(table) && State() == Stores(map[], map[])
    {
      table := new RefreshTokenTable();
      cache := map[];
    }

    /** `login`: `matches` is the password comparison, `uuid` the fresh refresh-token value. */
    method Login(users: seq<Account>, username: Option<string>, password: string,
                 matches: (string, string) -> bool, now: int, config: Config, uuid: string)
      returns (reply: LoginReply)
      requires Valid() && uuid !in table.rows
      modifies this, table
      ensures Valid()
      ensures (State(), reply) == LoginStep(old(State()), users, username, password, matches, now, config, uuid)
    {
      if username.None? {
        return LoginError;
      }
      var user := FindByUsername(users, username.value);
      if user.None? || !matches(user.value.passwordHash, password) {
        return BadCredentials;
      }
      var u := user.value;
      var accessToken := Sign(u.id, u.role, now, config.jwtExp);
      var refreshToken := table.CreateToken(u.id, now, config.refreshExp, uuid);
      if refreshToken.None? {
        return LoginError;
      }
      cache := cache[u.id := CachedSession(accessToken, refreshToken.value, false)];
      reply := LoggedIn(u.id, accessToken, refreshToken.value);
    }

    /** `refreshToken` */
    method Refresh(users: seq<Account>, request: RequestToken, now: int, config: Config)
      returns (reply: RefreshReply)
      requires Valid()
      modifies this, table
      ensures Valid()
      ensures (State(), reply) == RefreshStep(old(State()), users, request, now, config)
    {
      if request.NullToken? {
        return TokenRequired;
      }
      if request.Absent? {
        return RefreshError;
      }
      var row := table.FindByToken(request.value);
      if row.None? {
        return NotRegistered;
      }
      if IsExpired(row.value, now) {
        table.Destroy(request.value);
        return TokenExpired;
      }
      var user := FindById(users, row.value.userId);
      if user.None? {
        return RefreshError;
      }
      var u := user.value;
      var newAccessToken := Sign(u.id, u.role, now, config.jwtExp);
      if u.id in cache && cache[u.id].isRevoked {
        return TokenRevoked;
      }
      cache := cache[u.id := CachedSession(newAccessToken, request.value, false)];
      reply := Refreshed(newAccessToken, request.value);
    }
  }
}
