/**
 Sessions and refresh-token rotation of auth_manager.py: the revoked_token table, the
 grace window of a rotated refresh token, reuse detection, logout and the table's cleanup.

 Time is real, as time.time() is; expiry and grace columns are whole seconds. Tokens are
 unforgeable: a presented token is one that was issued. jti and sid are fresh numbers.
 */
module AuthManager {
  import opened Options

  const ACCESS_SECONDS := 15 * 60
  const REFRESH_SECONDS := 30 * 86400
  const GRACE_SECONDS := 60

  datatype Kind = Access | Refresh

  /** `sid` is None for tokens issued without a session. */
  datatype Token = Token(jti: nat, sid: Option<nat>, kind: Kind, identity: string, exp: int)

  /** A row of revoked_token; its key is a jti, or a sid for a revoked session. */
  datatype Row = Row(exp: int, grace: Option<int>)

  datatype Store = Store(now: real, rows: map<nat, Row>, issued: set<Token>, nextId: nat)

  function Second(now: real): int {
    now.Floor
  }

  /** Section 4.1.4 of RFC 7519: not accepted on or after exp. */
  predicate Expired(t: Token, now: real) {
    t.exp as real <= now
  }

  /** The grace window of row `row` is over, or it never had one. */
  predicate Over(row: Row, now: real) {
    row.grace.None? || now > row.grace.value as real
  }

  /** What token_is_revoked answers. */
  predicate Refused(s: Store, t: Token) {
    || (t.jti in s.rows && Over(s.rows[t.jti], s.now))
    || (t.sid.Some? && t.sid.value in s.rows)
  }

  predicate Accepted(s: Store, t: Token) {
    t in s.issued && !Expired(t, s.now) && !Refused(s, t)
  }

  /** A rotated refresh token used after its grace window. */
  predicate Reused(s: Store, t: Token) {
    && t.jti in s.rows && s.rows[t.jti].grace.Some? && Over(s.rows[t.jti], s.now)
    && t.sid.Some? && t.kind == Refresh
  }

  /** _add_revoked: an existing row stays. */
  function AddRow(rows: map<nat, Row>, key: nat, row: Row): map<nat, Row> {
    if key in rows then rows else rows[key := row]
  }

  function RevokeSession(s: Store, sid: nat): Store {
    s.(rows := AddRow(s.rows, sid, Row((s.now + REFRESH_SECONDS as real).Floor, None)))
  }

  function RevokeToken(s: Store, t: Token): Store {
    s.(rows := s.rows[t.jti := if t.jti in s.rows then s.rows[t.jti].(grace := None) else Row(t.exp, None)])
  }

  function Clean(s: Store): Store {
    s.(rows := map k | k in s.rows && s.rows[k].exp >= Second(s.now) :: s.rows[k])
  }

  /** The blocklist check of any request: a reuse revokes the session. */
  function Check(s: Store, t: Token): Store {
    if Reused(s, t) then RevokeSession(s, t.sid.value) else s
  }

  function Issue(s: Store, identity: string, sid: nat): Store {
    s.(issued := s.issued + {Token(s.nextId, Some(sid), Access, identity, Second(s.now) + ACCESS_SECONDS),
                             Token(s.nextId + 1, Some(sid), Refresh, identity, Second(s.now) + REFRESH_SECONDS)},
       nextId := s.nextId + 2)
  }

  function Login(s: Store, identity: string): Store {
    Issue(s.(nextId := s.nextId + 1), identity, s.nextId)
  }

  predicate Presented(s: Store, t: Token) {
    t in s.issued && !Expired(t, s.now)
  }

  function Use(s: Store, t: Token): Store {
    if Presented(s, t) then Check(s, t) else s
  }

  function Rotate(s: Store, t: Token): Store {
    if !Presented(s, t) || t.kind != Refresh then s
    else if Refused(s, t) then Check(s, t)
    else
      var r := s.(rows := AddRow(s.rows, t.jti, Row(t.exp, Some(Second(s.now) + GRACE_SECONDS))));
      if t.sid.Some? then Issue(r, t.identity, t.sid.value) else Login(r, t.identity)
  }

  function Logout(s: Store, t: Token): Store {
    if !Presented(s, t) || t.kind != Refresh then s
    else if Refused(s, t) then Check(s, t)
    else
      var r := RevokeToken(s, t);
      Clean(if t.sid.Some? then RevokeSession(r, t.sid.value) else r)
  }

  class TokenStore {
    var now: real
    var rows: map<nat, Row>
    var issued: set<Token>
    var nextId: nat

    function Snapshot(): Store
      reads this
    {
      Store(now, rows, issued, nextId)
    }

    constructor (now: real, legacy: set<Token>, nextId: nat)
      ensures Snapshot() == Store(now, map[], legacy, nextId)
    {
      this.now, rows, issued, this.nextId := now, map[], legacy, nextId;
    }

    method AddRevoked(key: nat, exp: int, grace: Option<int>) returns (added: bool)
      modifies this`rows
      ensures added == (key !in old(rows))
      ensures rows == AddRow(old(rows), key, Row(exp, grace))
    {
      if key in rows {
        return false; // already revoked: the first row stays
      }
      rows := rows[key := Row(exp, grace)];
      return true;
    }

    method RevokeSessionOf(sid: nat)
      modifies this`rows
      ensures Snapshot() == RevokeSession(old(Snapshot()), sid)
    {
      var _ := AddRevoked(sid, (now + REFRESH_SECONDS as real).Floor, None);
    }

    method RevokeTokenNow(t: Token)
      modifies this`rows
      ensures Snapshot() == RevokeToken(old(Snapshot()), t)
    {
      if t.jti in rows {
        if rows[t.jti].grace.Some? {
          rows := rows[t.jti := rows[t.jti].(grace := None)];
        }
        return;
      }
      var _ := AddRevoked(t.jti, t.exp, None);
    }

    /** token_is_revoked: a loop with a flag over the rows of the token and its session */
    method IsRevoked(t: Token) returns (revoked: bool)
      requires t.sid != Some(t.jti)
      modifies this`rows
      ensures revoked == Refused(old(Snapshot()), t)
      ensures Snapshot() == Check(old(Snapshot()), t)
    {
      var keys := if t.sid.Some? then [t.jti, t.sid.value] else [t.jti];
      var found := rows; // what the query returned, before the loop adds a row
      revoked := false;
      for i := 0 to |keys|
        invariant revoked == (|| (i > 0 && t.jti in found && Over(found[t.jti], now))
                              || (i > 1 && keys[1] in found))
        invariant Snapshot() == if i > 0 then Check(old(Snapshot()), t) else old(Snapshot())
      {
        if keys[i] in found {
          var row := found[keys[i]];
          if keys[i] == t.jti && row.grace.Some? {
            if now <= row.grace.value as real {
              continue; // still inside its grace window
            }
            if t.sid.Some? && t.kind == Refresh {
              RevokeSessionOf(t.sid.value);
            }
          }
          revoked := true;
        }
      }
    }

    method IssueTokens(identity: string, sid: nat)
      modifies this`issued, this`nextId
      ensures Snapshot() == Issue(old(Snapshot()), identity, sid)
    {
      var access := Token(nextId, Some(sid), Access, identity, Second(now) + ACCESS_SECONDS);
      var refresh := Token(nextId + 1, Some(sid), Refresh, identity, Second(now) + REFRESH_SECONDS);
      issued := issued + {access, refresh};
      nextId := nextId + 2;
    }

    /** refresh_token, check and issue in one step; false where it answers 401 */
    method RefreshToken(t: Token) returns (granted: bool)
      requires t.sid != Some(t.jti)
      modifies this`rows, this`issued, this`nextId
      ensures granted == (t.kind == Refresh && Accepted(old(Snapshot()), t))
      ensures Snapshot() == Rotate(old(Snapshot()), t)
    {
      if t !in issued || t.exp as real <= now || t.kind != Refresh {
        return false;
      }
      var revoked := IsRevoked(t);
      if revoked {
        return false;
      }
      var sid := nextId;
      if t.sid.Some? {
        sid := t.sid.value;
      } else {
        nextId := nextId + 1; // a token without a session gets a new one
      }
      var _ := AddRevoked(t.jti, t.exp, Some(Second(now) + GRACE_SECONDS));
      IssueTokens(t.identity, sid);
      return true;
    }

    method CleanDatabase()
      modifies this`rows
      ensures Snapshot() == Clean(old(Snapshot()))
    {
      rows := map k | k in rows && !(rows[k].exp < Second(now)) :: rows[k];
    }

    method LogoutUser(t: Token) returns (granted: bool)
      requires t.sid != Some(t.jti)
      modifies this`rows
      ensures granted == (t.kind == Refresh && Accepted(old(Snapshot()), t))
      ensures Snapshot() == Logout(old(Snapshot()), t)
    {
      if t !in issued || t.exp as real <= now || t.kind != Refresh {
        return false;
      }
      var revoked := IsRevoked(t);
      if revoked {
        return false;
      }
      RevokeTokenNow(t);
      if t.sid.Some? {
        RevokeSessionOf(t.sid.value);
      }
      CleanDatabase();
      return true;
    }
  }
}
