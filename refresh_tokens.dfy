/** The refresh-token table (model `RefreshTokens`): one row per issued token, holding
    the owning user's id and an expiry instant in milliseconds since the epoch. */
module RefreshTokens {
  import opened Js

  /** A row of the table; the token value itself is the row's key in `RefreshTokenTable.rows`. */
  datatype RefreshRow = RefreshRow(userId: int, expiryDate: int)

  /** `isExpired`: the expiry instant lies strictly before `now`. */
  predicate IsExpired(row: RefreshRow, now: int): (expired: bool)
    ensures now <= row.expiryDate ==> !expired
    ensures now > row.expiryDate ==> expired
  {
    row.expiryDate < now
  }

  /** The expiry `createToken` stamps: `now` advanced by `refreshExpSeconds` whole seconds. */
  function ExpiryAt(now: int, refreshExpSeconds: int): int {
    now + 1000 * refreshExpSeconds
  }

  /** A token created at `createdAt` is usable up to and including its expiry instant and
      expired at every later instant. */
  lemma TokenLifetime(userId: int, createdAt: int, refreshExpSeconds: int, now: int)
    ensures IsExpired(RefreshRow(userId, ExpiryAt(createdAt, refreshExpSeconds)), now)
            <==> now > createdAt + 1000 * refreshExpSeconds
  {
  }

  /** `createToken` on the rows alone: the new rows and the token returned, or `None` when it throws
      because the user has no id. */
  function Created(rows: map<string, RefreshRow>, userId: int, now: int, refreshExpSeconds: int, uuid: string)
    : (r: (map<string, RefreshRow>, Option<string>))
    ensures userId == 0 ==> r == (rows, None)
    ensures userId != 0 ==> r.1 == Some(uuid) && uuid in r.0
    ensures userId != 0 ==> r.0[uuid].userId == userId && r.0[uuid].expiryDate == now + 1000 * refreshExpSeconds
    ensures userId != 0 ==> forall t :: t != uuid ==> (t in r.0 <==> t in rows) && (t in rows ==> r.0[t] == rows[t])
  {
    if userId == 0 then (rows, None)
    else (rows[uuid := RefreshRow(userId, ExpiryAt(now, refreshExpSeconds))], Some(uuid))
  }

  /** Every row names a user: `userId` is declared not null, and `createToken` refuses a user without an id. */
  ghost predicate RowsOwned(rows: map<string, RefreshRow>) {
    forall t :: t in rows ==> rows[t].userId != 0
  }

  class RefreshTokenTable {
    var rows: map<string, RefreshRow>

    ghost predicate Valid()
      reads this
    {
      RowsOwned(rows)
    }

    constructor ()
      ensures Valid() && rows == map[]
    {
      rows := map[];
    }

    /** `findOne({ where: { token } })` */
    function FindByToken(token: string): (r: Option<RefreshRow>)
      reads this
      ensures r.Some? <==> token in rows
      ensures r.Some? ==> r.value == rows[token]
    {
      if token in rows then Some(rows[token]) else None
    }

    /** `RefreshTokens.createToken(user)`: throws (`None`) when the user's id is falsy; otherwise inserts
        a row for the user that expires `refreshExpSeconds` after `now` and returns its token, a fresh
        v4 uuid supplied by the caller. */
    method CreateToken(userId: int, now: int, refreshExpSeconds: int, uuid: string) returns (token: Option<string>)
      requires Valid()
      requires uuid !in rows
      modifies this
      ensures Valid()
      ensures (rows, token) == Created(old(rows), userId, now, refreshExpSeconds, uuid)
    {
      if userId == 0 {
        return None;
      }
      var expiredAt := now + 1000 * refreshExpSeconds;
      rows := rows[uuid := RefreshRow(userId, expiredAt)];
      token := Some(uuid);
    }

    /** `refreshToken.destroy()` */
    method Destroy(token: string)
      requires Valid()
      modifies this
      ensures Valid()
      ensures rows == old(rows) - {token}
    {
      rows := rows - {token};
    }
  }
}
