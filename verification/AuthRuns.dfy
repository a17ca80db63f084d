/** Whole runs of logins, refreshes, logouts, uses and cleanups in any order. */
module AuthRuns {
  import opened Options
  import opened AuthManager

  datatype Event =
    | Pass(seconds: real)
    | LogIn(identity: string)
    | Request(token: Token)
    | RefreshWith(token: Token)
    | LogOut(token: Token)
    | CleanUp

  function Step(s: Store, e: Event): Store {
    match e
    case Pass(d) => if d < 0.0 then s else s.(now := s.now + d)
    case LogIn(identity) => Login(s, identity)
    case Request(t) => Use(s, t)
    case RefreshWith(t) => Rotate(s, t)
    case LogOut(t) => Logout(s, t)
    case CleanUp => Clean(s)
  }

  function Run(s: Store, es: seq<Event>): Store
    decreases |es|
  {
    if es == [] then s else Run(Step(s, es[0]), es[1..])
  }

  // ---------------------------------------------------------------- the invariant

  /** A session's row outlives every token of the session; a token's row has its exp. */
  predicate TokenOk(s: Store, t: Token) {
    t in s.issued ==>
      && t.jti < s.nextId
      && (t.jti in s.rows ==> s.rows[t.jti].exp == t.exp)
      && (t.sid.Some? ==>
            && t.sid.value < s.nextId && t.sid.value != t.jti
            && t.exp <= Second(s.now) + REFRESH_SECONDS
            && (t.sid.value in s.rows ==> t.exp <= s.rows[t.sid.value].exp))
  }

  predicate Apart(s: Store, t: Token, u: Token) {
    t in s.issued && u in s.issued ==> (t.jti == u.jti ==> t == u) && (u.sid.Some? ==> t.jti != u.sid.value)
  }

  ghost predicate Inv(s: Store) {
    && (forall t :: TokenOk(s, t))
    && (forall t, u :: Apart(s, t, u))
    && (forall k :: k in s.rows ==> k < s.nextId)
  }

  /** A start with tokens that have no session. */
  ghost predicate Start(s: Store) {
    && s.rows == map[]
    && (forall t :: t in s.issued ==> t.sid.None? && t.jti < s.nextId)
    && (forall t, u :: t in s.issued && u in s.issued && t.jti == u.jti ==> t == u)
  }

  lemma StartOk(s: Store)
    requires Start(s)
    ensures Inv(s)
  {
  }

  lemma FloorMonotone(a: real, b: real)
    requires a <= b
    ensures a.Floor <= b.Floor
  {
  }

  lemma FloorShift(a: real, n: int)
    ensures (a + n as real).Floor == a.Floor + n
  {
  }

  lemma IssueKeeps(s: Store, identity: string, sid: nat)
    requires Inv(s) && sid < s.nextId && sid !in s.rows
    requires forall t :: t in s.issued ==> t.jti != sid
    ensures Inv(Issue(s, identity, sid))
  {
    var d := Issue(s, identity, sid);
    forall t
      ensures TokenOk(d, t)
    {
      assert TokenOk(s, t);
    }
    forall t, u
      ensures Apart(d, t, u)
    {
      assert Apart(s, t, u) && TokenOk(s, t) && TokenOk(s, u);
    }
  }

  lemma LoginKeeps(s: Store, identity: string)
    requires Inv(s)
    ensures Inv(Login(s, identity))
  {
    var d := s.(nextId := s.nextId + 1);
    forall t ensures TokenOk(d, t) && (t in s.issued ==> t.jti != s.nextId) {
      assert TokenOk(s, t);
    }
    forall t, u ensures Apart(d, t, u) {
      assert Apart(s, t, u);
    }
    IssueKeeps(d, identity, s.nextId);
  }

  /** Steps that only change rows: a token's row with its exp, a session's long enough. */
  lemma RowsKeep(s: Store, d: Store)
    requires Inv(s) && d == s.(rows := d.rows)
    requires forall k :: k in d.rows ==> k < s.nextId
    requires forall t :: t in s.issued ==> t.jti in d.rows ==> d.rows[t.jti].exp == t.exp
    requires forall t :: t in s.issued && t.sid.Some? && t.sid.value in d.rows ==> t.exp <= d.rows[t.sid.value].exp
    ensures Inv(d)
  {
    forall t ensures TokenOk(d, t) {
      assert TokenOk(s, t);
    }
    forall t, u ensures Apart(d, t, u) {
      assert Apart(s, t, u);
    }
  }

  lemma RevokeSessionKeeps(s: Store, t: Token)
    requires Inv(s) && t in s.issued && t.sid.Some?
    ensures Inv(RevokeSession(s, t.sid.value))
  {
    var d := RevokeSession(s, t.sid.value);
    FloorShift(s.now, REFRESH_SECONDS);
    assert TokenOk(s, t);
    forall u | u in s.issued
      ensures u.jti in d.rows ==> d.rows[u.jti].exp == u.exp
      ensures u.sid.Some? && u.sid.value in d.rows ==> u.exp <= d.rows[u.sid.value].exp
    {
      assert TokenOk(s, u) && Apart(s, u, t);
    }
    RowsKeep(s, d);
  }

  /** A row for the token itself, with or without a grace window. */
  lemma TokenRowKeeps(s: Store, d: Store, t: Token)
    requires Inv(s) && t in s.issued && d == s.(rows := d.rows)
    requires t.jti in d.rows && d.rows[t.jti].exp == t.exp && d.rows == s.rows[t.jti := d.rows[t.jti]]
    ensures Inv(d)
  {
    assert TokenOk(s, t);
    forall u | u in s.issued
      ensures u.jti in d.rows ==> d.rows[u.jti].exp == u.exp
      ensures u.sid.Some? && u.sid.value in d.rows ==> u.exp <= d.rows[u.sid.value].exp
    {
      assert TokenOk(s, u) && Apart(s, u, t) && Apart(s, t, u);
    }
    RowsKeep(s, d);
  }

  lemma CleanKeeps(s: Store)
    requires Inv(s)
    ensures Inv(Clean(s))
  {
    forall t | t in s.issued ensures TokenOk(s, t) {}
    RowsKeep(s, Clean(s));
  }

  lemma RotateKeeps(s: Store, t: Token)
    requires Inv(s) && t.kind == Refresh && Accepted(s, t)
    ensures Inv(Rotate(s, t))
  {
    var r := s.(rows := AddRow(s.rows, t.jti, Row(t.exp, Some(Second(s.now) + GRACE_SECONDS))));
    assert TokenOk(s, t);
    assert r.rows == s.rows[t.jti := r.rows[t.jti]];
    TokenRowKeeps(s, r, t);
    if t.sid.Some? {
      forall u | u in r.issued
        ensures u.jti != t.sid.value
      {
        assert Apart(s, u, t);
      }
      IssueKeeps(r, t.identity, t.sid.value);
    } else {
      LoginKeeps(r, t.identity);
    }
  }

  lemma LogoutKeeps(s: Store, t: Token)
    requires Inv(s) && t.kind == Refresh && Accepted(s, t)
    ensures Inv(Logout(s, t))
  {
    var r := RevokeToken(s, t);
    assert TokenOk(s, t);
    TokenRowKeeps(s, r, t);
    if t.sid.Some? {
      RevokeSessionKeeps(r, t);
      CleanKeeps(RevokeSession(r, t.sid.value));
    } else {
      CleanKeeps(r);
    }
  }

  lemma StepKeeps(s: Store, e: Event)
    requires Inv(s)
    ensures Inv(Step(s, e)) && s.now <= Step(s, e).now && s.issued <= Step(s, e).issued
  {
    match e
    case Pass(seconds) =>
      var d := Step(s, e);
      FloorMonotone(s.now, d.now);
      forall t ensures TokenOk(d, t) { assert TokenOk(s, t); }
      forall t, u ensures Apart(d, t, u) { assert Apart(s, t, u); }
    case LogIn(identity) => LoginKeeps(s, identity);
    case CleanUp => CleanKeeps(s);
    case Request(t) => if Presented(s, t) && Reused(s, t) { RevokeSessionKeeps(s, t); }
    case RefreshWith(t) =>
      if Presented(s, t) && t.kind == Refresh {
        if !Refused(s, t) { RotateKeeps(s, t); } else if Reused(s, t) { RevokeSessionKeeps(s, t); }
      }
    case LogOut(t) =>
      if Presented(s, t) && t.kind == Refresh {
        if !Refused(s, t) { LogoutKeeps(s, t); } else if Reused(s, t) { RevokeSessionKeeps(s, t); }
      }
  }

  lemma {:induction false} RunKeeps(s: Store, es: seq<Event>)
    requires Inv(s)
    ensures Inv(Run(s, es)) && s.now <= Run(s, es).now && s.issued <= Run(s, es).issued
    decreases |es|
  {
    if es != [] {
      StepKeeps(s, es[0]);
      RunKeeps(Step(s, es[0]), es[1..]);
    }
  }

  // ---------------------------------------------------------------- what users get

  /** `a` and `r` are new tokens of one session for `identity`, good for a quarter of an hour and for 30 days. */
  predicate NewPair(s: Store, d: Store, identity: string, sid: nat, a: Token, r: Token) {
    && d.issued == s.issued + {a, r}
    && a.kind == Access && r.kind == Refresh && a.identity == r.identity == identity
    && a.sid == r.sid == Some(sid) && a.jti != r.jti && a.jti >= s.nextId && r.jti >= s.nextId
    && a.exp == s.now.Floor + 900 && r.exp == s.now.Floor + 2592000
  }

  ghost predicate NewSession(s: Store, sid: nat) {
    sid >= s.nextId && forall t :: t in s.issued ==> t.sid != Some(sid)
  }

  lemma NewPairWorks(s: Store, d: Store, identity: string, sid: nat, a: Token, r: Token)
    requires Inv(s) && NewPair(s, d, identity, sid, a, r) && d.now == s.now && sid !in d.rows
    requires forall k :: k in d.rows ==> k < s.nextId
    ensures Accepted(d, a) && Accepted(d, r) && a !in s.issued && r !in s.issued
  {
    assert TokenOk(s, a) && TokenOk(s, r);
  }

  /** A login issues the two tokens of a session nobody had, and nothing else. */
  lemma LoginGives(s: Store, identity: string) returns (a: Token, r: Token, sid: nat)
    requires Inv(s)
    ensures var d := Step(s, LogIn(identity));
      && NewPair(s, d, identity, sid, a, r) && Accepted(d, a) && Accepted(d, r)
      && d.rows == s.rows && d.now == s.now && NewSession(s, sid)
  {
    var d := Step(s, LogIn(identity));
    sid := s.nextId;
    a := Token(s.nextId + 1, Some(sid), Access, identity, s.now.Floor + 900);
    r := Token(s.nextId + 2, Some(sid), Refresh, identity, s.now.Floor + 2592000);
    NewPairWorks(s, d, identity, sid, a, r);
    forall t | t in s.issued ensures t.sid != Some(sid) { assert TokenOk(s, t); }
  }

  /**
   An accepted refresh token gives two new tokens of its identity and its session, or of a new session if it had
   none; both work at once. The token itself gets a row, for a minute from now unless it has one already.
   */
  lemma RefreshGives(s: Store, t: Token) returns (a: Token, r: Token, sid: nat)
    requires Inv(s) && t.kind == Refresh && Accepted(s, t)
    ensures var d := Step(s, RefreshWith(t));
      && NewPair(s, d, t.identity, sid, a, r) && Accepted(d, a) && Accepted(d, r)
      && (if t.sid.Some? then t.sid == Some(sid) else NewSession(s, sid))
      && d.now == s.now && d.rows.Keys == s.rows.Keys + {t.jti}
      && (if t.jti in s.rows then d.rows == s.rows else d.rows[t.jti] == Row(t.exp, Some(s.now.Floor + 60)))
  {
    var d := Step(s, RefreshWith(t));
    assert TokenOk(s, t);
    var next := if t.sid.Some? then s.nextId else s.nextId + 1;
    sid := if t.sid.Some? then t.sid.value else s.nextId;
    a := Token(next, Some(sid), Access, t.identity, s.now.Floor + 900);
    r := Token(next + 1, Some(sid), Refresh, t.identity, s.now.Floor + 2592000);
    assert sid != t.jti;
    NewPairWorks(s, d, t.identity, sid, a, r);
    forall u | u in s.issued ensures t.sid.None? ==> u.sid != Some(sid) { assert TokenOk(s, u); }
  }

  /** Nothing else issues a token: no refused refresh, no use, no logout, no clean-up. */
  lemma OnlyThoseIssue(s: Store, e: Event)
    requires Inv(s)
    ensures Step(s, e).issued != s.issued <==>
      e.LogIn? || (e.RefreshWith? && e.token.kind == Refresh && Accepted(s, e.token))
  {
    if e.LogIn? {
      var a, r, sid := LoginGives(s, e.identity);
    } else if e.RefreshWith? && e.token.kind == Refresh && Accepted(s, e.token) {
      var a, r, sid := RefreshGives(s, e.token);
      assert TokenOk(s, a);
    }
  }

  /** A use changes one thing: a refresh token reused after its grace window gets its session a row, for 30 days. */
  lemma UseMeans(s: Store, t: Token)
    ensures var d := Step(s, Request(t));
      if && t in s.issued && s.now < t.exp as real && t.kind == Refresh && t.sid.Some? && t.sid.value !in s.rows
         && t.jti in s.rows && s.rows[t.jti].grace.Some? && s.rows[t.jti].grace.value as real < s.now
      then d == s.(rows := s.rows[t.sid.value := Row(s.now.Floor + 2592000, None)])
      else d == s
  {
    FloorShift(s.now, 2592000);
  }

  /** A refused refresh token has this effect whatever it is presented for. */
  lemma RefusedCalls(s: Store, t: Token)
    requires Presented(s, t) && t.kind == Refresh && Refused(s, t)
    ensures Step(s, RefreshWith(t)) == Step(s, Request(t)) && Step(s, LogOut(t)) == Step(s, Request(t))
  {
  }

  /** An accepted logout drops expired rows, and gives the token and its session rows without a grace window. */
  lemma LogoutMeans(s: Store, t: Token, k: nat)
    requires Inv(s) && t.kind == Refresh && Accepted(s, t)
    ensures var d := Step(s, LogOut(t));
      && d == s.(rows := d.rows)
      && (k == t.jti ==> k in d.rows && d.rows[k] == Row(t.exp, None))
      && (Some(k) == t.sid ==> k in d.rows && d.rows[k] == Row(s.now.Floor + 2592000, None))
      && (k != t.jti && Some(k) != t.sid ==>
            (k in d.rows <==> k in s.rows && s.now.Floor <= s.rows[k].exp) && (k in d.rows ==> d.rows[k] == s.rows[k]))
  {
    FloorShift(s.now, 2592000);
    FloorMonotone(s.now, t.exp as real);
    assert TokenOk(s, t);
  }

  /** A clean-up drops exactly the rows that have expired, a logout too; nothing else drops a row. */
  lemma DroppedRows(s: Store, e: Event, k: nat)
    requires Inv(s) && k in s.rows
    ensures k !in Step(s, e).rows <==>
      && s.rows[k].exp < s.now.Floor
      && (e.CleanUp? || (e.LogOut? && e.token.kind == Refresh && Accepted(s, e.token)))
  {
    if e.LogOut? && e.token.kind == Refresh && Accepted(s, e.token) {
      assert TokenOk(s, e.token);
    }
  }

  // ---------------------------------------------------------------- revocation is permanent

  lemma RefusedStep(s: Store, e: Event, t: Token)
    requires Inv(s) && t in s.issued && Refused(s, t) && !Expired(t, Step(s, e).now)
    ensures Refused(Step(s, e), t)
  {
    assert TokenOk(s, t);
    FloorShift(s.now, REFRESH_SECONDS);
    match e
    case RefreshWith(u) => assert Apart(s, t, u) && Apart(s, u, t);
    case LogOut(u) => assert Apart(s, t, u) && Apart(s, u, t) && TokenOk(s, u);
    case Request(u) => assert Apart(s, t, u) && Apart(s, u, t);
    case _ =>
  }

  /** Once an unexpired token is refused it is refused until it expires, whatever is cleaned up. */
  lemma {:induction false} RevocationIsPermanent(s: Store, es: seq<Event>, t: Token)
    requires Inv(s) && t in s.issued && Refused(s, t) && !Expired(t, Run(s, es).now)
    ensures Refused(Run(s, es), t)
    decreases |es|
  {
    if es != [] {
      StepKeeps(s, es[0]);
      RunKeeps(Step(s, es[0]), es[1..]);
      RefusedStep(s, es[0], t);
      RevocationIsPermanent(Step(s, es[0]), es[1..], t);
    }
  }

  // ---------------------------------------------------------------- the grace window

  /** `t` was rotated and works at most until `limit`. */
  predicate Rotated(s: Store, t: Token, limit: int) {
    t.jti in s.rows && (s.rows[t.jti].grace.Some? ==> s.rows[t.jti].grace.value <= limit)
  }

  lemma RotatedStep(s: Store, e: Event, t: Token, limit: int)
    requires Inv(s) && t in s.issued && Rotated(s, t, limit) && !Expired(t, Step(s, e).now)
    ensures Rotated(Step(s, e), t, limit)
  {
    assert TokenOk(s, t);
    match e
    case RefreshWith(u) => assert Apart(s, t, u) && Apart(s, u, t);
    case LogOut(u) => assert Apart(s, t, u) && Apart(s, u, t) && TokenOk(s, u);
    case Request(u) => assert Apart(s, t, u) && Apart(s, u, t);
    case _ =>
  }

  lemma {:induction false} RotatedRun(s: Store, es: seq<Event>, t: Token, limit: int)
    requires Inv(s) && t in s.issued && Rotated(s, t, limit) && !Expired(t, Run(s, es).now)
    ensures Rotated(Run(s, es), t, limit)
    decreases |es|
  {
    if es != [] {
      StepKeeps(s, es[0]);
      RunKeeps(Step(s, es[0]), es[1..]);
      RotatedStep(s, es[0], t, limit);
      RotatedRun(Step(s, es[0]), es[1..], t, limit);
    }
  }

  /** When the grace window of a refresh token that is rotated now ends: the first row wins. */
  function WindowEnd(s: Store, t: Token): int {
    if t.jti in s.rows && s.rows[t.jti].grace.Some? then s.rows[t.jti].grace.value else Second(s.now) + GRACE_SECONDS
  }

  /**
   A rotated refresh token is accepted only up to the grace window after its first
   rotation, however often it is used in between: later rotations never extend it.
   */
  lemma GraceEnds(s: Store, t: Token, es: seq<Event>)
    requires Inv(s) && t.kind == Refresh && Accepted(s, t) && Accepted(Run(Rotate(s, t), es), t)
    ensures Run(Rotate(s, t), es).now <= WindowEnd(s, t) as real
  {
    StepKeeps(s, RefreshWith(t));
    RotatedRun(Rotate(s, t), es, t, WindowEnd(s, t));
  }

  /** Until then, as long as only time passes, it is accepted: exactly so. */
  lemma GraceExact(s: Store, t: Token, seconds: real)
    requires Inv(s) && t.kind == Refresh && Accepted(s, t) && seconds >= 0.0
    ensures Accepted(Step(Rotate(s, t), Pass(seconds)), t) <==>
              s.now + seconds <= WindowEnd(s, t) as real && s.now + seconds < t.exp as real
  {
    assert TokenOk(s, t);
  }

  // ---------------------------------------------------------------- dead sessions

  /** The session's row is there, or every token it ever had has expired. */
  ghost predicate SessionDead(s: Store, sid: nat) {
    sid in s.rows || forall t :: t in s.issued && t.sid == Some(sid) ==> Expired(t, s.now)
  }

  ghost predicate SameTokens(s: Store, d: Store, sid: nat) {
    forall t :: t in d.issued && t.sid == Some(sid) ==> t in s.issued
  }

  lemma DeadStep(s: Store, e: Event, sid: nat)
    requires Inv(s) && SessionDead(s, sid) && sid < s.nextId
    ensures SessionDead(Step(s, e), sid) && SameTokens(s, Step(s, e), sid)
  {
    var d := Step(s, e);
    if sid in s.rows && sid !in d.rows {
      forall t | t in d.issued && t.sid == Some(sid)
        ensures Expired(t, d.now)
      {
        assert TokenOk(s, t);
      }
    }
  }

  lemma {:induction false} DeadRun(s: Store, es: seq<Event>, sid: nat)
    requires Inv(s) && SessionDead(s, sid) && sid < s.nextId
    ensures SessionDead(Run(s, es), sid) && SameTokens(s, Run(s, es), sid)
    decreases |es|
  {
    if es != [] {
      StepKeeps(s, es[0]);
      NextIdGrows(s, es[0]);
      DeadStep(s, es[0], sid);
      DeadRun(Step(s, es[0]), es[1..], sid);
    }
  }

  lemma NextIdGrows(s: Store, e: Event)
    ensures s.nextId <= Step(s, e).nextId
  {
  }

  /**
   A rotated refresh token used after its window kills its session: no token of it is ever
   accepted again and none is issued. Tokens of other sessions keep their status.
   */
  lemma ReuseKillsSession(s: Store, t: Token, es: seq<Event>, u: Token)
    requires Inv(s) && Presented(s, t) && Reused(s, t)
    ensures var d := Use(s, t);
      && (u.sid == t.sid ==> !Accepted(Run(d, es), u) && (u in Run(d, es).issued ==> u in s.issued))
      && (u in s.issued && u.sid != t.sid ==> (Refused(d, u) <==> Refused(s, u)))
  {
    var d := Use(s, t);
    StepKeeps(s, Request(t));
    assert TokenOk(s, t) && Apart(s, u, t);
    DeadRun(d, es, t.sid.value);
  }

  /** Logout does the same to the session of its token, and kills a token without one. */
  lemma LogoutKillsSession(s: Store, t: Token, es: seq<Event>, u: Token)
    requires Inv(s) && t.kind == Refresh && Accepted(s, t)
    ensures var d := Logout(s, t);
      && !Accepted(Run(d, es), t)
      && (u.sid.Some? && u.sid == t.sid ==> !Accepted(Run(d, es), u) && (u in Run(d, es).issued ==> u in s.issued))
      && (u in s.issued && u != t && (u.sid.None? || u.sid != t.sid) && !Expired(u, s.now) ==>
            (Refused(d, u) <==> Refused(s, u)))
  {
    var d := Logout(s, t);
    StepKeeps(s, LogOut(t));
    RunKeeps(d, es);
    assert TokenOk(s, t) && TokenOk(s, u) && Apart(s, u, t) && Apart(s, t, u);
    FloorShift(s.now, REFRESH_SECONDS);
    if t.sid.Some? {
      DeadRun(d, es, t.sid.value);
    }
    if !Expired(t, Run(d, es).now) {
      RevocationIsPermanent(d, es, t);
    }
  }
}
