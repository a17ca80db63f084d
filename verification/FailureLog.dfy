/**
 The lockout of the login helper (motuz_auth_helper.FailureLog): attempts per user, pruned and
 bounded each time the state file is read and written.
 */
module FailureLog {
  type User = string
  type Time = real

  /** The times of each user's attempts that have not succeeded. */
  type State = map<User, seq<Time>>

  datatype Config = Config(maxFailures: nat, window: Time)

  const MAX_TRACKED_USERS := 10000

  /** [t for t in times if now - t < window] */
  function Within(times: seq<Time>, now: Time, window: Time): seq<Time> {
    if times == [] then []
    else (if now - times[0] < window then [times[0]] else []) + Within(times[1..], now, window)
  }

  /** The state after reading: old attempts dropped, and users without any. */
  function Read(state: State, now: Time, window: Time): State {
    map user | user in state && Within(state[user], now, window) != [] :: Within(state[user], now, window)
  }

  function Times(state: State, user: User): seq<Time> {
    if user in state then state[user] else []
  }

  /** begin's change; False for a user who is locked out. */
  function Begun(c: Config, state: State, user: User, now: Time): (State, bool) {
    var times := Times(state, user);
    if |times| >= c.maxFailures then (state, false) else (state[user := times + [now]], true)
  }

  function Latest(times: seq<Time>): Time
    requires times != []
  {
    if |times| == 1 then times[0]
    else
      var rest := Latest(times[1..]);
      if times[0] > rest then times[0] else rest
  }

  lemma {:induction false} LatestIs(times: seq<Time>)
    requires times != []
    ensures Latest(times) in times && forall t :: t in times ==> t <= Latest(times)
  {
    if |times| > 1 {
      LatestIs(times[1..]);
      assert times == [times[0]] + times[1..];
    }
  }

  /** `evicted` are the users whose latest attempt is longest ago, as many as are too many. */
  ghost predicate EvictOk(state: State, evicted: set<User>) {
    && evicted <= state.Keys
    && |evicted| == (if |state| > MAX_TRACKED_USERS then |state| - MAX_TRACKED_USERS else 0)
    && (forall user :: user in state ==> state[user] != [])
    && forall e, user :: e in evicted && user in state && user !in evicted ==> Latest(state[e]) <= Latest(state[user])
  }

  /**
   Users are only evicted beyond 10000, down to just so many, and none for whom there is a kept user
   without an attempt at least as late as every one of theirs.
   */
  lemma EvictionMeans(state: State, evicted: set<User>, e: User, user: User)
    requires EvictOk(state, evicted) && e in evicted && user in state && user !in evicted
    ensures |state| > 10000 && |state| - |evicted| == 10000 && e in state
    ensures exists t :: t in state[user] && forall s :: s in state[e] ==> s <= t
  {
    LatestIs(state[e]);
    LatestIs(state[user]);
    assert |evicted| > 0;
    hide Latest;
  }

  /** No evicted user has an attempt later than the latest of one who is kept. */
  ghost predicate Apart(state: State, evicted: set<User>, kept: set<User>) {
    && (forall user :: user in state ==> state[user] != []) && evicted + kept <= state.Keys
    && forall e, user :: e in evicted && user in kept ==> Latest(state[e]) <= Latest(state[user])
  }

  lemma NoneApart(state: State)
    requires forall user :: user in state ==> state[user] != []
    ensures Apart(state, {}, state.Keys)
  {
  }

  lemma OneMoreApart(state: State, evicted: set<User>, kept: set<User>, oldest: User)
    requires Apart(state, evicted, kept) && oldest in kept
    requires forall user :: user in kept ==> Latest(state[oldest]) <= Latest(state[user])
    ensures Apart(state, evicted + {oldest}, kept - {oldest})
  {
    hide Latest;
  }

  lemma ApartIs(state: State, evicted: set<User>, kept: set<User>)
    requires Apart(state, evicted, kept) && kept == state.Keys - evicted
    ensures forall e, user :: e in evicted && user in state && user !in evicted ==>
      Latest(state[e]) <= Latest(state[user])
  {
    hide Latest;
  }

  class Log {
    const config: Config
    var state: State

    constructor (maxFailures: nat, window: Time)
      ensures config == Config(maxFailures, window) && state == map[]
    {
      config, state := Config(maxFailures, window), map[];
    }

    /** The users too many, the longest ago first. */
    method Oldest() returns (evicted: set<User>)
      requires forall user :: user in state ==> state[user] != []
      ensures EvictOk(state, evicted)
    {
      hide Latest, Apart;
      evicted := {};
      var kept := state.Keys;
      NoneApart(state);
      while |kept| > MAX_TRACKED_USERS
        invariant evicted <= state.Keys && kept == state.Keys - evicted
        invariant |evicted| + |kept| == |state| && (|evicted| == 0 || |kept| >= MAX_TRACKED_USERS)
        invariant Apart(state, evicted, kept)
        decreases |kept|
      {
        var user := OldestOf(kept);
        OneMoreApart(state, evicted, kept, user);
        kept, evicted := kept - {user}, evicted + {user};
      }
      ApartIs(state, evicted, kept);
    }

    method OldestOf(users: set<User>) returns (oldest: User)
      requires users != {} && users <= state.Keys && forall user :: user in users ==> state[user] != []
      ensures oldest in users && forall user :: user in users ==> Latest(state[oldest]) <= Latest(state[user])
    {
      oldest :| oldest in users;
      var left := users - {oldest};
      while left != {}
        invariant left <= users && oldest in users
        invariant forall user :: user in users && user !in left ==> Latest(state[oldest]) <= Latest(state[user])
        decreases |left|
      {
        var user :| user in left;
        left := left - {user};
        if Latest(state[user]) < Latest(state[oldest]) { oldest := user; }
      }
    }

    /** Records an attempt as failed; the users evicted come back beside the answer. */
    method Begin(user: User, now: Time) returns (ok: bool, evicted: set<User>)
      modifies this
      ensures var (r, allowed) := Begun(config, Read(old(state), now, config.window), user, now);
        ok == allowed && EvictOk(r, evicted) && state == r - evicted
    {
      state := Read(state, now, config.window);
      var times := Times(state, user);
      ok := |times| < config.maxFailures;
      if ok { state := state[user := times + [now]]; }
      evicted := Oldest();
      state := state - evicted;
    }

    method Succeeded(user: User, now: Time) returns (evicted: set<User>)
      modifies this
      ensures var r := Read(old(state), now, config.window) - {user}; EvictOk(r, evicted) && state == r - evicted
    {
      state := Read(state, now, config.window) - {user};
      evicted := Oldest();
      state := state - evicted;
    }
  }

  // ---------------------------------------------------------------- the full history

  /** What the helper was asked, with the users evicted by each write of the file. */
  datatype Event =
    | Attempt(user: User, at: Time, evicted: set<User>)
    | Success(user: User, at: Time, evicted: set<User>)

  function Changed(c: Config, state: State, e: Event): State {
    var read := Read(state, e.at, c.window);
    match e
    case Attempt(user, at, _) => Begun(c, read, user, at).0
    case Success(user, _, _) => read - {user}
  }

  function Accepts(c: Config, state: State, user: User, now: Time): bool {
    Begun(c, Read(state, now, c.window), user, now).1
  }

  function After(c: Config, events: seq<Event>): State {
    if events == [] then map[]
    else
      var e := events[|events| - 1];
      Changed(c, After(c, events[..|events| - 1]), e) - e.evicted
  }

  /** All attempts of `user` that were let through, since the last success or eviction. */
  function Full(c: Config, events: seq<Event>, user: User): seq<Time> {
    if events == [] then []
    else
      var front, e := events[..|events| - 1], events[|events| - 1];
      var before := Full(c, front, user);
      if user in e.evicted || (e.Success? && e.user == user) then []
      else if e.Attempt? && e.user == user && Accepts(c, After(c, front), user, e.at) then before + [e.at]
      else before
  }

  function Count(times: seq<Time>, now: Time, window: Time): nat {
    if times == [] then 0 else (if now - times[0] < window then 1 else 0) + Count(times[1..], now, window)
  }

  predicate Rising(events: seq<Event>, last: Time) {
    && (forall i :: 0 <= i < |events| ==> events[i].at <= last)
    && forall i, j :: 0 <= i < j < |events| ==> events[i].at <= events[j].at
  }

  /** The evictions are those the bound asks for. */
  ghost predicate Evicts(c: Config, events: seq<Event>) {
    events == [] || (Evicts(c, events[..|events| - 1])
      && EvictOk(Changed(c, After(c, events[..|events| - 1]), events[|events| - 1]), events[|events| - 1].evicted))
  }

  lemma {:induction false} WithinCounts(times: seq<Time>, now: Time, window: Time)
    ensures |Within(times, now, window)| == Count(times, now, window)
  {
    if times != [] { WithinCounts(times[1..], now, window); }
  }

  /** What left the window at one time is out of it at any later time. */
  lemma {:induction false} WithinTwice(times: seq<Time>, now: Time, later: Time, window: Time)
    requires now <= later
    ensures Within(Within(times, now, window), later, window) == Within(times, later, window)
  {
    if times != [] {
      WithinTwice(times[1..], now, later, window);
      var rest := Within(times[1..], now, window);
      if now - times[0] < window {
        assert Within(times, now, window)[1..] == rest;
      } else {
        assert Within(times, now, window) == rest;
      }
    }
  }

  lemma {:induction false} WithinAppend(times: seq<Time>, t: Time, now: Time, window: Time)
    ensures Within(times + [t], now, window) == Within(times, now, window) + if now - t < window then [t] else []
  {
    if times == [] {
      assert [t] == [] + [t] && [t][1..] == [];
    } else {
      WithinAppend(times[1..], t, now, window);
      assert (times + [t])[1..] == times[1..] + [t];
    }
  }

  /** The state holds of each user what the full list still has in the window. */
  predicate InStep(c: Config, events: seq<Event>, last: Time, user: User) {
    Within(Times(After(c, events), user), last, c.window) == Within(Full(c, events, user), last, c.window)
  }

  lemma ReadTimes(state: State, now: Time, window: Time, user: User)
    ensures Times(Read(state, now, window), user) == Within(Times(state, user), now, window)
  {
  }

  /** The times of one user after an event. */
  lemma AfterTimes(c: Config, events: seq<Event>, user: User)
    requires events != []
    ensures var front, e := events[..|events| - 1], events[|events| - 1];
      var read := Within(Times(After(c, front), user), e.at, c.window);
      Times(After(c, events), user) ==
        if user in e.evicted || (e.Success? && e.user == user) then []
        else if e.Attempt? && e.user == user && Accepts(c, After(c, front), user, e.at) then read + [e.at]
        else read
  {
    var front, e := events[..|events| - 1], events[|events| - 1];
    ReadTimes(After(c, front), e.at, c.window, user);
    hide Within, Read;
  }

  lemma {:induction false} AlwaysInStep(c: Config, events: seq<Event>, last: Time, user: User)
    requires Rising(events, last)
    ensures InStep(c, events, last, user)
  {
    if events != [] {
      var front, e := events[..|events| - 1], events[|events| - 1];
      AlwaysInStep(c, front, e.at, user);
      AfterTimes(c, events, user);
      var times, full := Times(After(c, front), user), Full(c, front, user);
      var read := Within(times, e.at, c.window);
      WithinTwice(times, e.at, last, c.window);
      WithinTwice(full, e.at, last, c.window);
      WithinAppend(read, e.at, last, c.window);
      WithinAppend(full, e.at, last, c.window);
      hide Within, After, Accepts;
    }
  }

  /**
   Whatever happened before, in non-decreasing time: an attempt is let through exactly if fewer than
   the allowed number of attempts let through since the user's last success or eviction lie in the
   window; and no more users are tracked than the bound, once it has been reached.
   */
  lemma LocksOutByTheFullLog(c: Config, events: seq<Event>, user: User, now: Time)
    requires Rising(events, now)
    ensures Accepts(c, After(c, events), user, now) <==> Count(Full(c, events, user), now, c.window) < c.maxFailures
    ensures Evicts(c, events) ==> |After(c, events)| <= MAX_TRACKED_USERS
  {
    AlwaysInStep(c, events, now, user);
    ReadTimes(After(c, events), now, c.window, user);
    WithinCounts(Full(c, events, user), now, c.window);
    if events != [] && Evicts(c, events) { Bounded(c, events); }
    hide Within, After, Full, Count, Read;
  }

  lemma Bounded(c: Config, events: seq<Event>)
    requires events != [] && Evicts(c, events)
    ensures |After(c, events)| <= MAX_TRACKED_USERS
  {
    var e := events[|events| - 1];
    var changed := Changed(c, After(c, events[..|events| - 1]), e);
    var kept := changed - e.evicted;
    assert kept.Keys == changed.Keys - e.evicted;
    assert |kept| == |kept.Keys| && |changed| == |changed.Keys|;
    assert |changed.Keys - e.evicted| == |changed.Keys| - |e.evicted|;
    hide Changed;
  }
}
