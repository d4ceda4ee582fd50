/** Refresh tokens: database rows and a Redis blacklist, as the object the handlers use.
    Tokens stand for their hashes (the hash is taken to be injective). */
module TokenStore {

  import opened Wrappers

  datatype Claims = Claims(user: string, tenant: string)

  /** `login` numbers the sign-in a row descends from and `parent` is the token it replaced; the
      program stores neither, they only let us speak about chains. */
  datatype Row = Row(claims: Claims, expiresAt: int, revoked: bool, login: nat, parent: Option<string>)

  // ----- The SQL statements and Redis commands, one atomic step each -----

  predicate Unrevoked(rows: map<string, Row>, token: string) {
    token in rows && !rows[token].revoked
  }

  /** `UPDATE ... SET revoked_at WHERE token_hash = token AND revoked_at IS NULL`. */
  function RevokeRow(rows: map<string, Row>, token: string): map<string, Row> {
    if Unrevoked(rows, token) then rows[token := rows[token].(revoked := true)] else rows
  }

  /** `SELECT ... WHERE revoked_at IS NULL AND expires_at > NOW()`. */
  function ActiveClaims(rows: map<string, Row>, token: string, now: int): Option<Claims> {
    if Unrevoked(rows, token) && rows[token].expiresAt > now then Some(rows[token].claims) else None
  }

  /** A blacklist entry disappears when its time is over. */
  predicate Listed(blacklist: map<string, int>, token: string, now: int) {
    token in blacklist && now < blacklist[token]
  }

  /** The time left is computed when the clock says `readAt`; the entry counts it from `setAt`, when the command arrives. */
  function AddListed(blacklist: map<string, int>, token: string, expiresAt: int, readAt: int, setAt: int): map<string, int> {
    if expiresAt - readAt > 0 then blacklist[token := setAt + (expiresAt - readAt)] else blacklist
  }

  /** The table after a token was traded for another. */
  function RotatedRows(rows: map<string, Row>, oldToken: string, newToken: string, ttl: int, now: int): map<string, Row>
    requires oldToken in rows
  {
    var row := rows[oldToken];
    RevokeRow(rows, oldToken)[newToken := Row(row.claims, now + ttl, false, row.login, Some(oldToken))]
  }

  class Store {
    var rows: map<string, Row>
    var blacklist: map<string, int>
    /** Sign-ins so far. */
    var logins: nat

    /** Redis never knows more than the database. */
    ghost predicate Valid() reads this {
      && (forall t | t in blacklist :: t in rows && rows[t].revoked && blacklist[t] == rows[t].expiresAt)
      && (forall t | t in rows :: rows[t].login < logins)
    }

    constructor ()
      ensures Valid() && rows == map[] && blacklist == map[]
    {
      rows := map[];
      blacklist := map[];
      logins := 0;
    }

    /** A new sign-in. The token is random, so no row has it yet. */
    method Create(claims: Claims, token: string, ttl: int, now: int)
      requires Valid() && token !in rows
      modifies this
      ensures Valid()
      ensures rows == old(rows)[token := Row(claims, now + ttl, false, old(logins), None)]
      ensures blacklist == old(blacklist) && logins == old(logins) + 1
      ensures forall t: int :: ActiveClaims(rows, token, t) == if t < now + ttl then Some(claims) else None
    {
      rows := rows[token := Row(claims, now + ttl, false, logins, None)];
      logins := logins + 1;
    }

    /** Trades an unrevoked token for a new one with the same claims; afterwards the old one is dead
        in the database and, while it has time left, in Redis. Expiry is not looked at. */
    method Rotate(oldToken: string, newToken: string, ttl: int, now: int) returns (ok: bool)
      requires Valid() && newToken !in rows
      modifies this
      ensures Valid() && logins == old(logins)
      ensures ok <==> old(Unrevoked(rows, oldToken))
      ensures !ok ==> rows == old(rows) && blacklist == old(blacklist)
      ensures ok ==>
        && ActiveClaims(rows, oldToken, now) == None
        && rows == RotatedRows(old(rows), oldToken, newToken, ttl, now)
        && blacklist == AddListed(old(blacklist), oldToken, old(rows[oldToken].expiresAt), now, now)
      ensures ok ==> forall t: int :: ActiveClaims(rows, newToken, t) == if t < now + ttl then Some(old(rows[oldToken].claims)) else None
      ensures ok ==> forall t: int :: ActiveClaims(rows, oldToken, t) == None
      ensures ok ==> forall x: string, t: int | x != oldToken && x != newToken :: ActiveClaims(rows, x, t) == ActiveClaims(old(rows), x, t)
      ensures ok ==> forall t: int :: Listed(blacklist, oldToken, t) <==> now < old(rows[oldToken].expiresAt) && t < old(rows[oldToken].expiresAt)
    {
      if oldToken !in rows || rows[oldToken].revoked {
        return false;
      }
      var row := rows[oldToken];
      rows := rows[oldToken := row.(revoked := true)];
      var remaining := row.expiresAt - now;
      if remaining > 0 {
        blacklist := blacklist[oldToken := now + remaining];
      }
      rows := rows[newToken := Row(row.claims, now + ttl, false, row.login, Some(oldToken))];
      ok := true;
    }

    method Revoke(token: string, now: int) returns (ok: bool)
      requires Valid()
      modifies this
      ensures Valid() && logins == old(logins)
      ensures ok <==> old(Unrevoked(rows, token))
      ensures rows == RevokeRow(old(rows), token)
      ensures blacklist == if ok then AddListed(old(blacklist), token, rows[token].expiresAt, now, now) else old(blacklist)
      ensures forall t: int :: ActiveClaims(rows, token, t) == None
      ensures forall x: string, t: int | x != token :: ActiveClaims(rows, x, t) == ActiveClaims(old(rows), x, t)
      ensures ok ==> forall t: int :: Listed(blacklist, token, t) <==> now < old(rows[token].expiresAt) && t < old(rows[token].expiresAt)
    {
      if token !in rows || rows[token].revoked {
        return false;
      }
      rows := rows[token := rows[token].(revoked := true)];
      var remaining := rows[token].expiresAt - now;
      if remaining > 0 {
        blacklist := blacklist[token := now + remaining];
      }
      ok := true;
    }

    /** The order of the handler: ask Redis, ask the database, rotate. On a consistent store the Redis answer
        adds nothing: acceptance is exactly an active row. */
    method Refresh(token: string, newToken: string, ttl: int, now: int) returns (claims: Option<Claims>)
      requires Valid() && newToken !in rows
      modifies this
      ensures Valid()
      ensures claims == old(ActiveClaims(rows, token, now))
      ensures claims == if old(token in rows && !rows[token].revoked && now < rows[token].expiresAt) then Some(old(rows[token].claims)) else None
      ensures claims.Some? ==> forall t: int :: ActiveClaims(rows, newToken, t) == if t < now + ttl then claims else None
      ensures claims.Some? ==>
        && rows == RotatedRows(old(rows), token, newToken, ttl, now)
        && blacklist == AddListed(old(blacklist), token, old(rows[token].expiresAt), now, now)
      ensures claims.None? ==> rows == old(rows) && blacklist == old(blacklist)
      ensures ActiveClaims(rows, token, now) == None
    {
      if Listed(blacklist, token, now) {
        return None;
      }
      claims := ActiveClaims(rows, token, now);
      if claims.None? {
        return;
      }
      var _ := Rotate(token, newToken, ttl, now);
    }
  }
}
