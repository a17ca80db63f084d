/**
 What one turn of the reaper and of the dispatcher does, by row, job, clock, listing and answer:
 when an instance is terminated, an attempt started, a job failed, and what stays as it is.
 */
module Ec2Turns {
  import opened Options
  import opened Ec2Launcher
  import C = Ec2Config
  import W = WorkerManager
  import R = WorkerRuns
  import opened Ec2Runs

  /** The job's row has not ended and its user's job is in progress. */
  predicate Wanted(db: W.Db, j: W.JobRef) {
    j in db.remote && !db.remote[j].phase.Done? && j in db.jobs && db.jobs[j].state.Progress?
  }

  predicate Waits(db: W.Db, j: W.JobRef) {
    Wanted(db, j) && db.remote[j].phase.Queued?
  }

  /** The job has failed now, and its row has ended; no other job or row changed. */
  predicate JobFailed(db: W.Db, d: W.Db, j: W.JobRef) {
    && j in db.jobs && j in db.remote
    && d.jobs == db.jobs[j := db.jobs[j].(state := W.Failed)]
    && d.remote == db.remote[j := db.remote[j].(phase := W.Done, broker := None)]
    && d.mail == db.mail + multiset{j}
  }

  /** Jobs, rows of jobs and mails are as before. */
  predicate JobsStay(db: W.Db, d: W.Db) {
    d.jobs == db.jobs && d.remote == db.remote && d.mail == db.mail && d.now == db.now
  }

  lemma FailIs(db: W.Db, j: W.JobRef)
    requires Wanted(db, j)
    ensures JobFailed(db, W.FailRemote(db, j), j)
  {
    var d := W.FailRemote(db, j);
    assert W.Told(db, {j}) == {j};
    assert d.jobs == db.jobs[j := db.jobs[j].(state := W.Failed)];
    assert d.remote == db.remote[j := db.remote[j].(phase := W.Done, broker := None)];
  }

  lemma DropIs(db: W.Db, token: Option<nat>)
    ensures JobsStay(db, W.ExpireBootstrap(db, token))
  {
  }

  /** Failing a job after its token was dropped. */
  lemma DropThenFail(db: W.Db, token: Option<nat>, j: W.JobRef)
    requires Wanted(db, j)
    ensures var e := W.ExpireBootstrap(db, token); Wanted(e, j) && JobFailed(db, W.FailRemote(e, j), j)
  {
    FailIs(W.ExpireBootstrap(db, token), j);
    hide W.FailRemote;
  }

  // ---------------------------------------------------------------- rows with an instance

  /** The state the turn goes by: as listed, terminated if unlisted for ten minutes, else as last seen. */
  predicate Meets(c: Cloud, k: Attempt, world: World, s: InstanceState) {
    && k in c.rows && c.rows[k].instance.Some? && c.rows[k].state.Seen?
    && var row := c.rows[k];
       if row.instance.value in world.byId then s == world.byId[row.instance.value].state
       else if row.launchedAt.None? || c.db.now - row.launchedAt.value > 600 then s.Terminated?
       else row.state == Seen(s)
  }

  predicate HasEnded(s: InstanceState) {
    s.ShuttingDown? || s.Terminated?
  }

  /** Why a living instance of an open job is given up: it stopped, ran too long, or did not take the job in time. */
  predicate GivenUp(c: Cloud, k: Attempt, s: InstanceState)
    requires k in c.rows && k.job in c.db.remote
  {
    var row := c.rows[k];
    var runtime := c.db.now - match row.launchedAt case Some(at) => at case None => row.createdAt;
    || s.Stopping? || s.Stopped? || runtime > c.settings.maxRuntime
    || (c.db.remote[k.job].phase.Queued? && runtime > c.settings.bootTimeout)
  }

  /**
   A living instance is terminated exactly if its job is over or it is given up; the row then takes
   the state EC2 answers with, if any. An open job fails exactly if its instance is given up.
   */
  lemma AliveTurn(c: Cloud, k: Attempt, world: World, s: InstanceState)
    requires Meets(c, k, world, s) && !HasEnded(s)
    ensures var d := ReapRow(c, k, world);
      var over := !Wanted(c.db, k.job) || GivenUp(c, k, s);
      var answer := if k in world.terminations then world.terminations[k] else None;
      && d.rows == c.rows[k := c.rows[k].(state := Seen(if over && answer.Some? then answer.value else s))]
      && d.settings == c.settings
      && (if Wanted(c.db, k.job) && GivenUp(c, k, s) then JobFailed(c.db, d.db, k.job) else d.db == c.db)
  {
    assert Wanted(c.db, k.job) ==> k.job in c.db.remote;
    hide GivenUp, Wanted, JobFailed, ReapAlive, Refresh, ReapEnded;
    var r := Refresh(c, k, world);
    MetRow(c, k, world, s);
    assert ReapRow(c, k, world) == ReapAlive(r, k, world);
    AliveRow(r, k, world, s);
    if k.job in c.db.remote { SameReasons(c, r, k, s); }
  }

  lemma MetRow(c: Cloud, k: Attempt, world: World, s: InstanceState)
    requires Meets(c, k, world, s)
    ensures var r := Refresh(c, k, world);
      && r.rows == c.rows[k := c.rows[k].(state := Seen(s))] && r.db == c.db && r.settings == c.settings
      && (Active(r.rows[k]) <==> !HasEnded(s))
  {
  }

  lemma SameReasons(c: Cloud, r: Cloud, k: Attempt, s: InstanceState)
    requires k in c.rows && k.job in c.db.remote && r.rows == c.rows[k := c.rows[k].(state := Seen(s))]
    requires r.db == c.db && r.settings == c.settings
    ensures GivenUp(c, k, s) <==> GivenUp(r, k, s)
  {
  }

  /** The same for a row whose state is up to date. */
  lemma AliveRow(c: Cloud, k: Attempt, world: World, s: InstanceState)
    requires k in c.rows && c.rows[k].state == Seen(s) && c.rows[k].instance.Some?
    ensures var d := ReapAlive(c, k, world);
      var over := !Wanted(c.db, k.job) || GivenUp(c, k, s);
      var answer := if k in world.terminations then world.terminations[k] else None;
      && d.rows == c.rows[k := c.rows[k].(state := Seen(if over && answer.Some? then answer.value else s))]
      && d.settings == c.settings
      && (if Wanted(c.db, k.job) && GivenUp(c, k, s) then JobFailed(c.db, d.db, k.job) else d.db == c.db)
  {
    hide Wanted, GivenUp, Fails, JobOpen, JobFailed, W.FailRemote, W.ExpireBootstrap;
    ReasonsAre(c, k, s);
    if Wanted(c.db, k.job) { DropThenFail(c.db, c.rows[k].token, k.job); }
  }

  lemma ReasonsAre(c: Cloud, k: Attempt, s: InstanceState)
    requires k in c.rows && c.rows[k].state == Seen(s)
    ensures Wanted(c.db, k.job) <==> JobOpen(c.db, k.job)
    ensures Wanted(c.db, k.job) ==> k.job in c.db.remote && (GivenUp(c, k, s) <==> Fails(c, k))
  {
  }

  /** The row's listed instance ended because its type had no capacity, and there is another one to try. */
  predicate AnotherType(c: Cloud, k: Attempt, world: World)
    requires k in c.rows && c.rows[k].instance.Some?
  {
    && c.rows[k].instance.value in world.byId && world.byId[c.rows[k].instance.value].capacity
    && C.Fallback(c.settings.types, c.rows[k].instanceType).Some?
  }

  /** The second attempt can be made. */
  predicate SecondOpen(c: Cloud, k: Attempt) {
    k.job in c.db.jobs && c.db.jobs[k.job].cloudToCloud && Attempt(k.job, 2) !in c.rows
  }

  /** The row a launch begins with. */
  function NewRow(instanceType: string, now: int): Row {
    Row(instanceType, Launching, None, None, now, None)
  }

  /** The cloud in which attempt `n` of the job is started. */
  function WithRow(c: Cloud, j: W.JobRef, n: nat, instanceType: string): Cloud {
    c.(rows := c.rows[Attempt(j, n) := NewRow(instanceType, c.db.now)])
  }

  /**
   An instance that has ended: its token dies. An open job falls back once, for a queued first attempt
   without capacity, to another type; else it fails. A job that is over is left alone.
   */
  lemma EndedTurn(c: Cloud, k: Attempt, world: World, s: InstanceState)
    requires Meets(c, k, world, s) && HasEnded(s)
    ensures var d, seen := ReapRow(c, k, world), c.rows[k := c.rows[k].(state := Seen(s))];
      if !Wanted(c.db, k.job) then d.rows == seen && d.db == W.ExpireBootstrap(c.db, c.rows[k].token)
      else if Waits(c.db, k.job) && k.number == 1 && AnotherType(c, k, world) && SecondOpen(c, k) then (
        exists f: Cloud ::
          && f.rows == seen && f.settings == c.settings && f.db == W.ExpireBootstrap(c.db, c.rows[k].token)
          && d == Start(WithRow(f, k.job, 2, C.Fallback(c.settings.types, c.rows[k].instanceType).value),
                        Attempt(k.job, 2), world))
      else d.rows == seen && JobFailed(c.db, d.db, k.job)
  {
    hide Refresh, ReapAlive, ReapEnded, Wanted, Waits, Start, W.ExpireBootstrap, C.Fallback, JobFailed;
    var r := Refresh(c, k, world);
    MetRow(c, k, world, s);
    assert ReapRow(c, k, world) == ReapEnded(r, k, world);
    EndedRow(r, k, world);
    SameFallback(c, r, k, world, s);
  }

  lemma SameFallback(c: Cloud, r: Cloud, k: Attempt, world: World, s: InstanceState)
    requires k in c.rows && c.rows[k].instance.Some? && r.rows == c.rows[k := c.rows[k].(state := Seen(s))]
    requires r.db == c.db && r.settings == c.settings
    ensures AnotherType(r, k, world) <==> AnotherType(c, k, world)
    ensures k.number == 1 ==> (SecondOpen(r, k) <==> SecondOpen(c, k))
  {
  }

  /** The same for a row whose state is up to date. */
  lemma EndedRow(c: Cloud, k: Attempt, world: World)
    requires k in c.rows && c.rows[k].instance.Some?
    ensures var d, f := ReapEnded(c, k, world), c.(db := W.ExpireBootstrap(c.db, c.rows[k].token));
      if !Wanted(c.db, k.job) then d == f
      else if Waits(c.db, k.job) && k.number == 1 && AnotherType(c, k, world) && SecondOpen(c, k) then (
        d == Start(WithRow(f, k.job, 2, C.Fallback(c.settings.types, c.rows[k].instanceType).value),
                   Attempt(k.job, 2), world))
      else d.rows == c.rows && JobFailed(c.db, d.db, k.job)
  {
    hide Start, C.Fallback;
    if Wanted(c.db, k.job) {
      DropThenFail(c.db, c.rows[k].token, k.job);
      FailTwice(W.ExpireBootstrap(c.db, c.rows[k].token), k.job);
    }
    hide W.FailRemote, W.ExpireBootstrap;
  }

  lemma FailTwice(db: W.Db, j: W.JobRef)
    ensures W.FailRemote(W.FailRemote(db, j), j) == W.FailRemote(db, j)
  {
  }

  // ---------------------------------------------------------------- rows without one

  /** A listed instance that carries the row's client token is taken over, and its turn is that of any other. */
  lemma FoundTurn(c: Cloud, k: Attempt, world: World)
    requires k in c.rows && c.rows[k].state.Launching? && k in world.byToken && world.byToken[k] in world.byId
    ensures var i := world.byId[world.byToken[k]];
      var taken := c.rows[k].(instance := Some(i.id), state := Seen(i.state), launchedAt := Some(i.launchedAt));
      exists f: Cloud ::
        f.rows == c.rows[k := taken] && f.db == c.db && f.settings == c.settings
        && ReapRow(c, k, world) == ReapRow(f, k, world)
  {
    assert ReapRow(c, k, world) == ReapRow(Adopt(c, k, world.byId[world.byToken[k]]), k, world);
  }

  /** An unconfirmed launch: given up with its job, failed after the boot timeout, tried again after two minutes. */
  lemma UnconfirmedTurn(c: Cloud, k: Attempt, world: World)
    requires k in c.rows && c.rows[k].state.Launching? && !(k in world.byToken && world.byToken[k] in world.byId)
    ensures var d, age := ReapRow(c, k, world), c.db.now - c.rows[k].createdAt;
      var failed := c.rows[k := c.rows[k].(state := Failed)];
      if !Wanted(c.db, k.job) then d.rows == failed && d.db == W.ExpireBootstrap(c.db, c.rows[k].token)
      else if age > c.settings.bootTimeout then d.rows == failed && JobFailed(c.db, d.db, k.job)
      else if age > 120 then d == Start(c, k, world)
      else d == c
  {
    if Wanted(c.db, k.job) { DropThenFail(c.db, c.rows[k].token, k.job); }
    hide W.FailRemote, W.ExpireBootstrap, Start, JobFailed;
  }

  // ---------------------------------------------------------------- starting

  /** A bootstrap token for the job can be had. */
  predicate TokenHad(c: Cloud, j: W.JobRef) {
    && c.settings.pool != "central" && 30 <= c.settings.bootTimeout <= 86400
    && j in c.db.remote && c.db.remote[j].pool == c.settings.pool && c.db.remote[j].phase.Queued?
  }

  /** The tokens before RunInstances is called: the old one dead, a new one for the job as long as the boot timeout. */
  predicate TokensTurn(c: Cloud, d: Cloud, k: Attempt)
    requires k in c.rows
  {
    var db := W.ExpireBootstrap(c.db, c.rows[k].token);
    && d.settings == c.settings
    && d.db == db.(nextId := db.nextId + 1, bootstraps := db.bootstraps[db.nextId :=
         W.Bootstrap(c.settings.pool, Some(k.job), db.now + c.settings.bootTimeout, None, None)])
    && d.rows == c.rows[k := c.rows[k].(token := Some(db.nextId))]
  }

  /** The instance EC2 answers with, if any. */
  function Given(reply: RunReply): Option<Instance> {
    match reply
    case Started(i) => Some(i)
    case Mismatch(found) => found
    case _ => None
  }

  predicate Unclear(reply: RunReply) {
    reply.Transient? || reply == Mismatch(None)
  }

  /** Starting a row: what the token and EC2's answer make of it. */
  lemma StartTurn(c: Cloud, k: Attempt, world: World) returns (t: Cloud)
    requires k in c.rows
    ensures var d := Start(c, k, world); var reply := if k in world.replies then world.replies[k] else Transient;
      if !TokenHad(c, k.job)
      then d.rows == c.rows[k := c.rows[k].(state := Failed)] && JobsStay(c.db, d.db)
      else (
        && TokensTurn(c, t, k) && JobsStay(c.db, t.db)
        && match Given(reply)
           case Some(i) =>
             && d.db == t.db && d.settings == t.settings
             && d.rows == t.rows[k := t.rows[k].(
                  instance := Some(i.id), state := Seen(i.state), launchedAt := Some(i.launchedAt))]
           case None => if Unclear(reply) then d == t else d == LaunchFailed(t, k, reply.NoCapacity?, world))
  {
    t := Issue(c, k);
    DropIs(c.db, c.rows[k].token);
    hide LaunchFailed, W.ExpireBootstrap;
  }

  /** A launch that failed: once, for want of capacity, another type is tried; else an open job fails. */
  lemma FailedTurn(c: Cloud, k: Attempt, capacity: bool, world: World)
    requires k in c.rows && Wanted(c.db, k.job)
    ensures var d, failed := LaunchFailed(c, k, capacity, world), c.rows[k := c.rows[k].(state := Failed)];
      var next := C.Fallback(c.settings.types, c.rows[k].instanceType);
      if capacity && k.number == 1 && next.Some? && Waits(c.db, k.job) && SecondOpen(c, k) then (
        var f := c.(rows := failed, db := W.ExpireBootstrap(c.db, c.rows[k].token));
        d == Start(WithRow(f, k.job, 2, next.value), Attempt(k.job, 2), world))
      else d.rows == failed && JobFailed(c.db, d.db, k.job)
  {
    var db := W.ExpireBootstrap(c.db, c.rows[k].token);
    DropThenFail(c.db, c.rows[k].token, k.job);
    FailTwice(db, k.job);
    hide W.FailRemote, W.ExpireBootstrap, Start, C.Fallback, JobFailed;
  }

  // ---------------------------------------------------------------- dispatching

  /** Slots taken: active rows, and listed instances that are alive and have no row. */
  function Taken(c: Cloud, world: World): nat {
    var active := set a | a in c.rows
      && (c.rows[a].state.Launching? || (c.rows[a].state.Seen? && !HasEnded(c.rows[a].state.instance)));
    var strays := set i | i in world.byId && !HasEnded(world.byId[i].state)
      && forall a :: a in c.rows ==> c.rows[a].instance != Some(i);
    |active| + |strays|
  }

  lemma TakenIs(c: Cloud, world: World)
    ensures Taken(c, world) == ActiveCount(c, world)
  {
    assert ActiveRows(c.rows) == set a | a in c.rows
      && (c.rows[a].state.Launching? || (c.rows[a].state.Seen? && !HasEnded(c.rows[a].state.instance)));
    assert Strays(c.rows, world.byId) == set i | i in world.byId && !HasEnded(world.byId[i].state)
      && forall a :: a in c.rows ==> c.rows[a].instance != Some(i);
  }

  /**
   A queued job is launched exactly if a slot is free, it has no row, and it waits: with the type the
   table has for its size. One that is not from cloud to cloud fails instead.
   */
  lemma DispatchTurn(c: Cloud, j: W.JobRef, world: World)
    ensures var d := DispatchJob(c, j, world);
      var size := if j in c.db.remote then c.db.remote[j].sourceBytes else None;
      var instanceType := if c.settings.types == [] then "" else C.Chosen(c.settings.types, size);
      var hasRow := exists k :: k in c.rows && k.job == j;
      if Taken(c, world) >= c.settings.maxWorkers || hasRow || !Waits(c.db, j) then d == c
      else if c.db.jobs[j].cloudToCloud then d == Start(WithRow(c, j, 1, instanceType), Attempt(j, 1), world)
      else d.rows == c.rows && JobFailed(c.db, d.db, j)
  {
    TakenIs(c, world);
    if Waits(c.db, j) { FailIs(c.db, j); }
    hide W.FailRemote, Start, Taken, ActiveCount, JobFailed;
  }

  // ---------------------------------------------------------------- whole passes

  /** Someone has seen to the job: it has a row, it does not wait, or no slot is left for it. */
  predicate Served(c: Cloud, j: W.JobRef, world: World) {
    Attempt(j, 1) in c.rows || Attempt(j, 2) in c.rows || !Waits(c.db, j) || Taken(c, world) >= c.settings.maxWorkers
  }

  /** It is, whatever becomes of the slots. */
  predicate Settled(c: Cloud, j: W.JobRef) {
    Attempt(j, 1) in c.rows || Attempt(j, 2) in c.rows || !Waits(c.db, j)
  }

  lemma SettledStays(c: Cloud, d: Cloud, i: W.JobRef, j: W.JobRef)
    requires Inv(c) && OnlyJob(c, d, i) && j in c.db.remote && Settled(c, j)
    ensures Settled(d, j)
  {
    assert R.JobEvolves(c.db, d.db, j);
    if R.Closed(c.db, j) { R.ClosedStays(c.db, d.db, j); }
    hide R.Inv, R.Evolves, AttemptOk, JobInv, SameRow;
  }

  lemma JobRemains(c: Cloud, d: Cloud, i: W.JobRef, j: W.JobRef)
    requires OnlyJob(c, d, i) && j in c.db.remote
    ensures j in d.db.remote
  {
    assert R.JobEvolves(c.db, d.db, j);
  }

  lemma TurnSettles(c: Cloud, j: W.JobRef, world: World)
    requires Inv(c) && j in c.db.remote && Taken(c, world) < c.settings.maxWorkers
    ensures Settled(DispatchJob(c, j, world), j)
  {
    DispatchTurn(c, j, world);
    if k :| k in c.rows && k.job == j {
      assert AttemptOk(c, k);
    } else if Waits(c.db, j) && c.db.jobs[j].cloudToCloud {
      var size := c.db.remote[j].sourceBytes;
      var instanceType := if c.settings.types == [] then "" else C.Chosen(c.settings.types, size);
      StartSpares(WithRow(c, j, 1, instanceType), Attempt(j, 1), world);
    }
    hide Start, Taken, Inv;
  }

  /**
   A pass of the dispatcher stops only for want of slots: after it every queued job has a row, no longer
   waits, or no slot is free.
   */
  lemma {:induction false} DispatchServes(c: Cloud, queued: seq<W.JobRef>, world: World)
    requires Inv(c) && forall j :: j in queued ==> j in c.db.remote
    ensures var d := DispatchAll(c, queued, world);
      && (forall j :: j in queued ==> Served(d, j, world))
      && (forall j :: j in c.db.remote && Settled(c, j) ==> Settled(d, j))
    decreases |queued|
  {
    TakenIs(c, world);
    hide Taken, Inv, ActiveCount, DispatchJob;
    if queued != [] && Taken(c, world) < c.settings.maxWorkers {
      var i := queued[0];
      var u := DispatchJob(c, i, world);
      DispatchOk(c, i, world);
      OnlyJobSettings(c, u, i);
      TurnSettles(c, i, world);
      forall j | j in c.db.remote
        ensures j in u.db.remote && (Settled(c, j) ==> Settled(u, j))
      {
        JobRemains(c, u, i, j);
        if Settled(c, j) { SettledStays(c, u, i, j); }
      }
      DispatchServes(u, queued[1..], world);
      assert queued == [i] + queued[1..];
    }
  }

  /** The row was as at the start of the pass when its turn came, and is as its turn left it. */
  ghost predicate HadItsTurn(c: Cloud, d: Cloud, k: Attempt, world: World) {
    exists at: Cloud :: k in c.rows && k in at.rows && at.rows[k] == c.rows[k] && Reapable(at, k)
      && k in d.rows && k in ReapRow(at, k, world).rows && d.rows[k] == ReapRow(at, k, world).rows[k]
  }

  /** A pass of the reaper gives every open row it found one turn, and changes no other of them in it. */
  lemma {:induction false} ReapServes(c: Cloud, ks: seq<Attempt>, world: World)
    requires forall n :: 0 <= n < |ks| ==> Reapable(c, ks[n])
    requires forall m, n :: 0 <= m < n < |ks| ==> ks[m] != ks[n]
    ensures var d := ReapAll(c, ks, world);
      && (forall k :: k in ks ==> HadItsTurn(c, d, k, world))
      && (forall k :: k in c.rows && k !in ks ==> k in d.rows && d.rows[k] == c.rows[k])
    decreases |ks|
  {
    hide ReapRow;
    if ks != [] {
      var u, rest := ReapRow(c, ks[0], world), ks[1..];
      ReapSpares(c, ks[0], world);
      assert forall n :: 0 <= n < |rest| ==> rest[n] == ks[n + 1];
      ReapServes(u, rest, world);
      var d := ReapAll(u, rest, world);
      forall k | k in ks
        ensures HadItsTurn(c, d, k, world)
      {
        if k == ks[0] {
          assert k !in rest;
        } else {
          assert k in rest && HadItsTurn(u, d, k, world);
        }
      }
      assert ks == [ks[0]] + rest;
    }
  }
}
