/**
 Whole runs of the EC2 launcher and reaper over the remote-job protocol: passes of
 dispatch and reap, with the steps of users and workers anywhere between their turns.
 */
module Ec2Runs {
  import opened Options
  import opened Ec2Launcher
  import C = Ec2Config
  import W = WorkerManager
  import R = WorkerRuns

  datatype Event =
    | Protocol(step: R.Event)
    | Dispatch(job: W.JobRef, world: World)
    | Reap(row: Attempt, world: World)

  predicate Possible(c: Cloud, e: Event) {
    e.Reap? ==> e.row in c.rows && Open(c.rows[e.row]) && HasInstance(c, e.row)
  }

  function Step(c: Cloud, e: Event): Cloud
    requires Possible(c, e)
  {
    match e
    case Protocol(step) => c.(db := R.Step(c.db, step))
    case Dispatch(j, world) => if j in c.db.remote then DispatchJob(c, j, world) else c
    case Reap(k, world) => ReapRow(c, k, world)
  }

  // ---------------------------------------------------------------- the environment

  /** The answer to RunInstances, or the lookup after a mismatch, is an instance that is shutting down. */
  predicate Leaving(world: World, k: Attempt) {
    match ReplyTo(world, k)
    case Started(i) => i.state.ShuttingDown?
    case Mismatch(Some(i)) => i.state.ShuttingDown?
    case _ => false
  }

  /** An instance once reported as ended is never listed as alive again. */
  predicate StaysEnded(c: Cloud, k: Attempt, world: World) {
    k in c.rows && c.rows[k].instance.Some? ==>
      var i := c.rows[k].instance.value;
      i in c.ended && i in world.byId ==> !Alive(world.byId[i].state)
  }

  predicate Consistent(world: World, k: Attempt) {
    Listed(world, k) ==> world.byId[world.byToken[k]].id == world.byToken[k]
  }

  /** EC2's listing is one answer, and takes no instance back from the dead. */
  predicate Sane(c: Cloud, e: Event) {
    e.Reap? ==> StaysEnded(c, e.row, e.world) && Consistent(e.world, e.row)
  }

  /** No first attempt meets an instance that is already shutting down. */
  predicate NoneLeaving(e: Event) {
    && (e.Dispatch? ==> !Leaving(e.world, Attempt(e.job, 1)))
    && (e.Reap? && e.row.number == 1 ==> !Leaving(e.world, e.row))
  }

  predicate Fair(c: Cloud, e: Event) {
    Sane(c, e) && NoneLeaving(e)
  }

  // ---------------------------------------------------------------- the invariant

  predicate Ended(row: Row) {
    row.state.Seen? && !Alive(row.state.instance)
  }

  /** The reaper's bookkeeping of a row it will look at again. */
  predicate Noted(c: Cloud, k: Attempt) {
    k in c.rows ==>
      && (c.rows[k].state.Seen? ==> c.rows[k].instance.Some?)
      && (c.rows[k].state == Seen(ShuttingDown) ==> c.rows[k].instance.value in c.ended)
  }

  predicate AttemptOk(c: Cloud, k: Attempt) {
    k in c.rows ==> (k.number == 1 || k.number == 2) && k.job in c.db.remote
  }

  /** A second attempt exists only beside a first one that is over. */
  predicate Single(c: Cloud, j: W.JobRef) {
    Attempt(j, 2) in c.rows ==> Attempt(j, 1) in c.rows && !Active(c.rows[Attempt(j, 1)])
  }

  predicate JobInv(c: Cloud, j: W.JobRef) {
    && Single(c, j)
    && Noted(c, Attempt(j, 1)) && Noted(c, Attempt(j, 2))
  }

  ghost predicate Inv(c: Cloud) {
    && R.Inv(c.db)
    && (forall k :: AttemptOk(c, k))
    && (forall j :: JobInv(c, j))
  }

  /** A first attempt resting in shutting-down has a closed job or a second attempt. */
  predicate Rested(c: Cloud, j: W.JobRef) {
    Attempt(j, 1) in c.rows && c.rows[Attempt(j, 1)].state == Seen(ShuttingDown) ==>
      R.Closed(c.db, j) || Attempt(j, 2) in c.rows
  }

  ghost predicate AllRested(c: Cloud) {
    forall j :: Rested(c, j)
  }

  // ---------------------------------------------------------------- steps on one job

  predicate SameRow(c: Cloud, d: Cloud, k: Attempt) {
    (k in c.rows <==> k in d.rows) && (k in c.rows ==> d.rows[k] == c.rows[k])
  }

  /** Only rows of job `j` changed, and the protocol's tables moved on. */
  ghost predicate OnlyJob(c: Cloud, d: Cloud, j: W.JobRef) {
    && d.settings == c.settings && c.ended <= d.ended
    && R.Inv(d.db) && R.Evolves(c.db, d.db)
    && (forall k: Attempt :: k.job != j ==> SameRow(c, d, k))
    && (forall k :: k in c.rows ==> k in d.rows)
    && (forall k :: AttemptOk(d, k))
  }

  lemma OnlyJobTransitive(c: Cloud, d: Cloud, e: Cloud, j: W.JobRef)
    requires OnlyJob(c, d, j) && OnlyJob(d, e, j)
    ensures OnlyJob(c, e, j)
  {
    R.EvolvesTransitive(c.db, d.db, e.db);
    forall k: Attempt | k.job != j
      ensures SameRow(c, e, k)
    {
      assert SameRow(c, d, k) && SameRow(d, e, k);
    }
  }

  /** One protocol step together with a change to one row of the job. */
  lemma OneRow(c: Cloud, d: Cloud, k: Attempt, step: R.Event)
    requires R.Inv(c.db) && (forall a :: AttemptOk(c, a)) && (k.number == 1 || k.number == 2) && k.job in c.db.remote
    requires d == c.(db := R.Step(c.db, step), rows := d.rows, ended := d.ended) && c.ended <= d.ended
    requires k in d.rows && d.rows == c.rows[k := d.rows[k]]
    ensures OnlyJob(c, d, k.job)
  {
    R.StepKeeps(c.db, step);
    forall a
      ensures AttemptOk(d, a)
    {
      assert AttemptOk(c, a);
      assert R.JobEvolves(c.db, d.db, a.job);
    }
  }

  lemma DbOnly(c: Cloud, d: Cloud, j: W.JobRef, step: R.Event)
    requires R.Inv(c.db) && (forall a :: AttemptOk(c, a))
    requires d == c.(db := R.Step(c.db, step))
    ensures OnlyJob(c, d, j)
  {
    R.StepKeeps(c.db, step);
    forall a
      ensures AttemptOk(d, a)
    {
      assert AttemptOk(c, a);
      assert R.JobEvolves(c.db, d.db, a.job);
    }
  }

  lemma FailCloses(db: W.Db, j: W.JobRef)
    requires j in db.remote
    ensures W.FailRemote(db, j) == R.Step(db, R.FailBy(j))
    ensures j in W.FailRemote(db, j).remote && R.Closed(W.FailRemote(db, j), j)
  {
  }

  /** Failing the job on top of a step on its rows. */
  lemma ThenFail(c: Cloud, d: Cloud, j: W.JobRef)
    requires OnlyJob(c, d, j) && j in d.db.remote
    ensures var f := d.(db := W.FailRemote(d.db, j)); OnlyJob(c, f, j) && R.Closed(f.db, j)
  {
    var f := d.(db := W.FailRemote(d.db, j));
    FailCloses(d.db, j);
    DbOnly(d, f, j, R.FailBy(j));
    OnlyJobTransitive(c, d, f, j);
  }

  /** What launching leaves: noted rows, the first attempt over if there is a second. */
  predicate Fresh(c: Cloud, d: Cloud, k: Attempt, world: World) {
    && k in d.rows && Single(d, k.job) && Noted(d, k)
    && (k.number == 1 && Attempt(k.job, 2) in d.rows ==> Noted(d, Attempt(k.job, 2)))
    && (k.number == 2 ==> SameRow(c, d, Attempt(k.job, 1)))
    && (k.number == 1 && !Leaving(world, k) ==> d.rows[k].state != Seen(ShuttingDown))
  }

  /** What starting attempt `k` needs: it is the first with no second, or the second of a first that is over. */
  predicate Ready(c: Cloud, k: Attempt) {
    && (k.number == 1 || k.number == 2) && k.job in c.db.remote
    && (k.number == 1 ==> Attempt(k.job, 2) !in c.rows)
    && (k.number == 2 ==> Attempt(k.job, 1) in c.rows && !Active(c.rows[Attempt(k.job, 1)]))
  }

  lemma LaunchOk(c: Cloud, j: W.JobRef, n: nat, instanceType: string, world: World)
    requires R.Inv(c.db) && (forall a :: AttemptOk(c, a)) && Ready(c, Attempt(j, n))
    ensures var d := Launch(c, j, n, instanceType, world);
      && OnlyJob(c, d, j)
      && (if Launches(c, j, n) then Fresh(c, d, Attempt(j, n), world) else d.rows == c.rows)
    decreases if n == 1 then 1 else 0, 3
  {
    var k := Attempt(j, n);
    DbOnly(c, c, j, R.Broker(j, 0, false));
    if Startable(c.db, j) {
      if !c.db.jobs[j].cloudToCloud {
        ThenFail(c, c, j);
      } else if k !in c.rows {
        var l := c.(rows := c.rows[k := Row(instanceType, Launching, None, None, c.db.now, None)]);
        OneRow(c, l, k, R.Broker(j, 0, false));
        StartOk(l, k, world);
        OnlyJobTransitive(c, l, Start(l, k, world), j);
      }
    }
  }

  lemma StartOk(c: Cloud, k: Attempt, world: World)
    requires R.Inv(c.db) && (forall a :: AttemptOk(c, a)) && Ready(c, k)
    requires k in c.rows && c.rows[k].state == Launching
    ensures OnlyJob(c, Start(c, k, world), k.job) && Fresh(c, Start(c, k, world), k, world)
    decreases if k.number == 1 then 1 else 0, 2
  {
    var db := W.ExpireBootstrap(c.db, c.rows[k].token);
    var e := c.(db := db);
    DbOnly(c, e, k.job, R.DropToken(c.rows[k].token));
    if !W.BootstrapAllowed(db, c.settings.pool, Some(k.job), c.settings.bootTimeout) {
      OneRow(e, Start(c, k, world), k, R.Broker(k.job, 0, false));
      OnlyJobTransitive(c, e, Start(c, k, world), k.job);
    } else {
      var t := c.(db := W.CreateBootstrap(db, c.settings.pool, Some(k.job), c.settings.bootTimeout),
                  rows := c.rows[k := c.rows[k].(token := Some(db.nextId))]);
      OneRow(e, t, k, R.NewToken(c.settings.pool, Some(k.job), c.settings.bootTimeout));
      OnlyJobTransitive(c, e, t, k.job);
      match ReplyTo(world, k) {
        case Started(i) => AdoptOk(c, t, k, i, world);
        case Mismatch(Some(i)) => AdoptOk(c, t, k, i, world);
        case NoCapacity => StartFails(c, t, k, true, world);
        case Refused => StartFails(c, t, k, false, world);
        case NotPrepared => StartFails(c, t, k, false, world);
        case _ =>
      }
    }
  }

  lemma AdoptOk(c: Cloud, t: Cloud, k: Attempt, i: Instance, world: World)
    requires OnlyJob(c, t, k.job) && Ready(t, k) && k in t.rows && (i.state.ShuttingDown? ==> Leaving(world, k))
    requires forall a :: a != k ==> SameRow(c, t, a)
    ensures OnlyJob(c, Adopt(t, k, i), k.job) && Fresh(c, Adopt(t, k, i), k, world)
  {
    OneRow(t, Adopt(t, k, i), k, R.Broker(k.job, 0, false));
    OnlyJobTransitive(c, t, Adopt(t, k, i), k.job);
    assert SameRow(c, t, Attempt(k.job, 1)) || k.number == 1;
  }

  lemma StartFails(c: Cloud, t: Cloud, k: Attempt, capacity: bool, world: World)
    requires OnlyJob(c, t, k.job) && Ready(t, k) && k in t.rows
    requires forall a :: a != k ==> SameRow(c, t, a)
    ensures var d := LaunchFailed(t, k, capacity, world); OnlyJob(c, d, k.job) && Fresh(c, d, k, world)
    decreases if k.number == 1 then 1 else 0, 1
  {
    LaunchFailedOk(t, k, capacity, world);
    OnlyJobTransitive(c, t, LaunchFailed(t, k, capacity, world), k.job);
    assert SameRow(c, t, Attempt(k.job, 1)) || k.number == 1;
  }

  lemma LaunchFailedOk(c: Cloud, k: Attempt, capacity: bool, world: World)
    requires R.Inv(c.db) && (forall a :: AttemptOk(c, a)) && Ready(c, k) && k in c.rows
    ensures var d := LaunchFailed(c, k, capacity, world); OnlyJob(c, d, k.job) && Fresh(c, d, k, world)
    decreases if k.number == 1 then 1 else 0, 0
  {
    var f := c.(rows := c.rows[k := c.rows[k].(state := Failed)], db := W.ExpireBootstrap(c.db, c.rows[k].token));
    OneRow(c, f, k, R.DropToken(c.rows[k].token));
    assert R.JobEvolves(c.db, f.db, k.job);
    var next := C.Fallback(c.settings.types, c.rows[k].instanceType);
    if capacity && k.number == 1 && next.Some? {
      var l := Launch(f, k.job, 2, next.value, world);
      LaunchOk(f, k.job, 2, next.value, world);
      OnlyJobTransitive(c, f, l, k.job);
      assert SameRow(f, l, k);
      assert R.JobEvolves(c.db, l.db, k.job);
      if !Launches(f, k.job, 2) {
        ThenFail(c, l, k.job);
      }
    } else {
      ThenFail(c, f, k.job);
    }
  }

  // ---------------------------------------------------------------- every step

  lemma Restore(c: Cloud, d: Cloud, j: W.JobRef)
    requires Inv(c) && OnlyJob(c, d, j) && JobInv(d, j)
    ensures Inv(d)
    ensures AllRested(c) && Rested(d, j) ==> AllRested(d)
  {
    forall i
      ensures JobInv(d, i) && (Rested(c, i) && Rested(d, j) ==> Rested(d, i))
    {
      if i != j {
        assert JobInv(c, i) && SameRow(c, d, Attempt(i, 1)) && SameRow(c, d, Attempt(i, 2));
        if Attempt(i, 1) in c.rows || Attempt(i, 2) in c.rows {
          assert AttemptOk(c, Attempt(i, 1)) && AttemptOk(c, Attempt(i, 2));
          if R.Closed(c.db, i) { R.ClosedStays(c.db, d.db, i); }
        }
      }
    }
  }

  lemma FreshIsInv(c: Cloud, d: Cloud, k: Attempt, world: World)
    requires Fresh(c, d, k, world) && (k.number == 1 || k.number == 2) && OnlyJob(c, d, k.job)
    requires k.number == 2 ==> Noted(c, Attempt(k.job, 1))
    ensures JobInv(d, k.job) && ((k.number == 1 ==> !Leaving(world, k)) ==> Rested(d, k.job))
  {
  }

  lemma ReapLaunchingOk(c: Cloud, k: Attempt, world: World)
    requires Inv(c) && k in c.rows && c.rows[k].state == Launching
    ensures var d := ReapLaunching(c, k, world);
      && OnlyJob(c, d, k.job) && JobInv(d, k.job)
      && ((k.number == 1 ==> !Leaving(world, k)) ==> Rested(d, k.job))
  {
    var d := ReapLaunching(c, k, world);
    assert AttemptOk(c, k) && JobInv(c, k.job);
    if !JobOpen(c.db, k.job) {
      OneRow(c, d, k, R.DropToken(c.rows[k].token));
    } else if c.db.now - c.rows[k].createdAt > c.settings.bootTimeout {
      LaunchFailedOk(c, k, false, world);
      FreshIsInv(c, d, k, world);
    } else if c.db.now - c.rows[k].createdAt > RETRY_AFTER {
      StartOk(c, k, world);
      FreshIsInv(c, d, k, world);
    } else {
      DbOnly(c, d, k.job, R.Broker(k.job, 0, false));
    }
  }

  /** A row with an instance, as the reaper meets it: its own attempt's partner is in order. */
  predicate Seeable(c: Cloud, k: Attempt, world: World) {
    && k in c.rows && c.rows[k].instance.Some? && c.rows[k].state.Seen?
    && (k.number == 1 || k.number == 2) && k.job in c.db.remote
    && Noted(c, k)
    && (k.number == 1 && Attempt(k.job, 2) in c.rows ==>
          Ended(c.rows[k]) && StaysEnded(c, k, world) && Noted(c, Attempt(k.job, 2)))
    && (k.number == 2 ==>
          Attempt(k.job, 1) in c.rows && !Active(c.rows[Attempt(k.job, 1)]) && Noted(c, Attempt(k.job, 1)))
    && (c.rows[k].state == Seen(Terminated) ==> c.rows[k].instance.value in c.ended)
  }

  lemma ReapAliveOk(c: Cloud, k: Attempt, world: World)
    requires R.Inv(c.db) && (forall a :: AttemptOk(c, a))
    requires Seeable(c, k, world) && Active(c.rows[k])
    ensures var d := ReapAlive(c, k, world);
      && OnlyJob(c, d, k.job) && JobInv(d, k.job) && Rested(d, k.job) && (forall a :: a != k ==> SameRow(c, d, a))
  {
    var none := R.Broker(k.job, 0, false);
    if !JobOpen(c.db, k.job) || !Fails(c, k) { AliveInv(c, c, k, world); }
    hide R.Inv, R.Closed, AttemptOk, JobInv, OnlyJob, SameRow, Active, Fails, Terminate, Seeable, R.Evolves;
    hide W.FailRemote, W.ExpireBootstrap, Rested;
    SameRowsAll(c);
    DbOnly(c, c, k.job, none);
    if !JobOpen(c.db, k.job) {
      TerminateOk(c, k, world, none);
      AliveInv(c, Terminate(c, k, world), k, world);
    } else if Fails(c, k) {
      AliveFails(c, k, world, none);
    }
  }

  lemma SameRowsAll(c: Cloud)
    ensures forall a :: SameRow(c, c, a)
  {
  }

  /** Once its job is closed, or as long as its row is active, the job's rows are in order. */
  lemma AliveInv(c: Cloud, d: Cloud, k: Attempt, world: World)
    requires Seeable(c, k, world) && Active(c.rows[k])
    requires (d == c) || (d.rows == Terminate(c, k, world).rows && d.ended == Terminate(c, k, world).ended)
    requires d != c ==> R.Closed(d.db, k.job)
    ensures JobInv(d, k.job) && Rested(d, k.job)
  {
  }

  lemma OnlyJobIs(c: Cloud, d: Cloud, j: W.JobRef)
    requires OnlyJob(c, d, j)
    ensures R.Inv(d.db) && (forall a :: AttemptOk(d, a)) && d.settings == c.settings
    ensures j in c.db.remote ==> j in d.db.remote
  {
    assert R.JobEvolves(c.db, d.db, j);
  }

  lemma TerminateOk(c: Cloud, k: Attempt, world: World, none: R.Event)
    requires R.Inv(c.db) && (forall a :: AttemptOk(c, a)) && none == R.Broker(k.job, 0, false)
    requires Seeable(c, k, world) && Active(c.rows[k])
    ensures var t := Terminate(c, k, world);
      && OnlyJob(c, t, k.job) && t.db == c.db && t.settings == c.settings && (forall a :: a != k ==> SameRow(c, t, a))
      && (!JobOpen(c.db, k.job) ==> R.Closed(t.db, k.job))
  {
    hide R.Inv, AttemptOk, OnlyJob, Active;
    DbOnly(c, c, k.job, none);
    OneRow(c, Terminate(c, k, world), k, none);
  }

  lemma AliveFails(c: Cloud, k: Attempt, world: World, none: R.Event)
    requires R.Inv(c.db) && (forall a :: AttemptOk(c, a)) && none == R.Broker(k.job, 0, false)
    requires Seeable(c, k, world) && Active(c.rows[k]) && JobOpen(c.db, k.job)
    ensures var t := Terminate(c, k, world); var e := t.(db := W.ExpireBootstrap(t.db, c.rows[k].token));
      var d := e.(db := W.FailRemote(e.db, k.job));
      && OnlyJob(c, d, k.job) && JobInv(d, k.job) && Rested(d, k.job) && (forall a :: a != k ==> SameRow(c, d, a))
  {
    var t := Terminate(c, k, world);
    var e := t.(db := W.ExpireBootstrap(t.db, c.rows[k].token));
    var d := e.(db := W.FailRemote(e.db, k.job));
    TerminateOk(c, k, world, none);
    OnlyJobIs(c, t, k.job);
    hide R.Inv, R.Closed, AttemptOk, OnlyJob, SameRow, Active, Terminate, R.Evolves, JobInv;
    hide W.FailRemote, W.ExpireBootstrap, Rested;
    DbOnly(t, e, k.job, R.DropToken(c.rows[k].token));
    OnlyJobTransitive(c, t, e, k.job);
    ThenFail(c, e, k.job);
    AliveInv(c, d, k, world);
  }

  lemma ReapEndedOk(c: Cloud, k: Attempt, world: World)
    requires R.Inv(c.db) && (forall a :: AttemptOk(c, a))
    requires k in c.rows && c.rows[k].instance.Some? && Ended(c.rows[k]) && k.job in c.db.remote
    requires k.number == 1 || k.number == 2
    requires Noted(c, Attempt(k.job, 1)) && Noted(c, Attempt(k.job, 2)) && Single(c, k.job)
    ensures var d := ReapEnded(c, k, world);
      OnlyJob(c, d, k.job) && JobInv(d, k.job) && Rested(d, k.job)
  {
    var d := ReapEnded(c, k, world);
    var e := c.(db := W.ExpireBootstrap(c.db, c.rows[k].token));
    DbOnly(c, e, k.job, R.DropToken(c.rows[k].token));
    assert R.JobEvolves(c.db, e.db, k.job);
    if JobOpen(c.db, k.job) {
      var next := C.Fallback(c.settings.types, c.rows[k].instanceType);
      if c.db.remote[k.job].phase == W.Queued && LacksCapacity(c, k, world) && k.number == 1 && next.Some? {
        var l := Launch(e, k.job, 2, next.value, world);
        LaunchOk(e, k.job, 2, next.value, world);
        OnlyJobTransitive(c, e, l, k.job);
        assert R.JobEvolves(c.db, l.db, k.job);
        if Launches(e, k.job, 2) {
          assert SameRow(e, l, k);
        } else {
          ThenFail(c, l, k.job);
        }
      } else {
        ThenFail(c, e, k.job);
      }
    } else if R.Closed(c.db, k.job) {
      R.ClosedStays(c.db, e.db, k.job);
    }
  }

  lemma RefreshOk(c: Cloud, k: Attempt, world: World)
    requires R.Inv(c.db) && (forall a :: AttemptOk(c, a)) && Seeable(c, k, world)
    ensures var r := Refresh(c, k, world);
      && OnlyJob(c, r, k.job) && (forall a :: a != k ==> SameRow(c, r, a)) && r.db == c.db
      && k in r.rows && r.rows[k].state.Seen? && r.rows[k].instance == c.rows[k].instance
      && Noted(r, k) && (Ended(c.rows[k]) && StaysEnded(c, k, world) ==> Ended(r.rows[k]))
  {
    OneRow(c, Refresh(c, k, world), k, R.Broker(k.job, 0, false));
  }

  lemma ReapSeenOk(c: Cloud, k: Attempt, world: World)
    requires R.Inv(c.db) && (forall a :: AttemptOk(c, a)) && Seeable(c, k, world)
    ensures var d := ReapSeen(c, k, world);
      OnlyJob(c, d, k.job) && JobInv(d, k.job) && Rested(d, k.job)
  {
    var r := Refresh(c, k, world);
    RefreshOk(c, k, world);
    assert SameRow(c, r, Attempt(k.job, 3 - k.number));
    if Active(r.rows[k]) {
      ReapAliveOk(r, k, world);
    } else {
      ReapEndedOk(r, k, world);
    }
    OnlyJobTransitive(c, r, ReapSeen(c, k, world), k.job);
  }

  lemma ReapOk(c: Cloud, k: Attempt, world: World)
    requires Inv(c) && k in c.rows && Open(c.rows[k]) && HasInstance(c, k)
    requires Sane(c, Reap(k, world))
    ensures var d := ReapRow(c, k, world);
      && OnlyJob(c, d, k.job) && Inv(d)
      && (AllRested(c) && (k.number == 1 ==> !Leaving(world, k)) ==> AllRested(d))
  {
    assert AttemptOk(c, k) && JobInv(c, k.job);
    var d := ReapRow(c, k, world);
    if c.rows[k].state != Launching {
      ReapSeenOk(c, k, world);
    } else if !Listed(world, k) {
      ReapLaunchingOk(c, k, world);
    } else {
      var i := world.byId[world.byToken[k]];
      var a := Adopt(c, k, i);
      OneRow(c, a, k, R.Broker(k.job, 0, false));
      ReapSeenOk(a, k, world);
      OnlyJobTransitive(c, a, d, k.job);
    }
    Restore(c, d, k.job);
  }

  lemma DispatchOk(c: Cloud, j: W.JobRef, world: World)
    requires Inv(c) && j in c.db.remote
    ensures var d := DispatchJob(c, j, world);
      && OnlyJob(c, d, j) && Inv(d)
      && (AllRested(c) && !Leaving(world, Attempt(j, 1)) ==> AllRested(d))
  {
    var d := DispatchJob(c, j, world);
    DbOnly(c, c, j, R.Broker(j, 0, false));
    if ActiveCount(c, world) < c.settings.maxWorkers && !HasRow(c, j) {
      LaunchOk(c, j, 1, TypeFor(c, j), world);
      if Launches(c, j, 1) {
        FreshIsInv(c, d, Attempt(j, 1), world);
      } else {
        assert JobInv(c, j) && Rested(d, j);
      }
      Restore(c, d, j);
    }
  }

  // ---------------------------------------------------------------- counting

  function ActiveOf(c: Cloud, j: W.JobRef): set<Attempt> {
    set k | k in {Attempt(j, 1), Attempt(j, 2)} && k in c.rows && Active(c.rows[k])
  }

  function ActiveOthers(c: Cloud, j: W.JobRef): set<Attempt> {
    set k | k in c.rows && k.job != j && Active(c.rows[k])
  }

  lemma ActiveSplit(c: Cloud, j: W.JobRef)
    requires Inv(c)
    ensures |ActiveRows(c.rows)| == |ActiveOf(c, j)| + |ActiveOthers(c, j)|
    ensures |ActiveOf(c, j)| <= 1
  {
    forall k | k in c.rows && k.job == j
      ensures k in {Attempt(j, 1), Attempt(j, 2)}
    {
      assert AttemptOk(c, k);
    }
    assert ActiveRows(c.rows) == ActiveOf(c, j) + ActiveOthers(c, j);
    assert JobInv(c, j);
    assert ActiveOf(c, j) <= {Attempt(j, 1)} || ActiveOf(c, j) <= {Attempt(j, 2)};
    if x :| x in ActiveOf(c, j) {
      assert ActiveOf(c, j) == {x};
    }
  }

  /** A step on one job adds at most one active row, and none if the job had one. */
  lemma CountStep(c: Cloud, d: Cloud, j: W.JobRef)
    requires Inv(c) && Inv(d) && OnlyJob(c, d, j)
    ensures |ActiveRows(d.rows)| <= |ActiveRows(c.rows)| + 1
    ensures ActiveOf(c, j) != {} ==> |ActiveRows(d.rows)| <= |ActiveRows(c.rows)|
  {
    ActiveSplit(c, j);
    ActiveSplit(d, j);
    forall k: Attempt | k.job != j
      ensures k in ActiveOthers(c, j) <==> k in ActiveOthers(d, j)
    {
      assert SameRow(c, d, k);
    }
    assert ActiveOthers(c, j) == ActiveOthers(d, j);
    if x :| x in ActiveOf(c, j) {
      assert |ActiveOf(c, j)| > 0;
    }
  }

  /** An attempt that RunInstances leaves on its slot. */
  predicate KeepsSlot(world: World, k: Attempt) {
    match ReplyTo(world, k)
    case Started(i) => Alive(i.state)
    case Mismatch(Some(i)) => Alive(i.state)
    case Mismatch(None) => true
    case Transient => true
    case _ => false
  }

  predicate TokenAllowed(c: Cloud, j: W.JobRef) {
    W.BootstrapAllowed(c.db, c.settings.pool, Some(j), c.settings.bootTimeout)
  }

  /** The row's turn starts a second attempt although the row gave its slot back before. */
  predicate LateFallback(c: Cloud, k: Attempt, world: World) {
    k in c.rows && c.rows[k].state == Seen(ShuttingDown) && AddsAttempt(c, k, world)
  }

  predicate AddsAttempt(c: Cloud, k: Attempt, world: World)
    requires k in c.rows
  {
    && k.number == 1 && Attempt(k.job, 2) !in c.rows
    && Startable(c.db, k.job) && c.db.jobs[k.job].cloudToCloud
    && LacksCapacity(c, k, world) && C.Fallback(c.settings.types, c.rows[k].instanceType).Some?
    && Issues(c, k) && KeepsSlot(world, Attempt(k.job, 2))
  }

  /** A second launch adds its own row only, and when that row is active. */
  lemma SecondLaunch(c: Cloud, j: W.JobRef, instanceType: string, world: World)
    ensures var d := Launch(c, j, 2, instanceType, world); var k := Attempt(j, 2);
      if !Launches(c, j, 2) then d.rows == c.rows
      else (
        && k in d.rows && d.rows == c.rows[k := d.rows[k]]
        && (Active(d.rows[k]) <==> TokenAllowed(c, j) && KeepsSlot(world, k)))
  {
    hide W.CreateBootstrap, W.FailRemote;
  }

  /** The turn of a row in shutting-down takes a slot exactly if it is a late fallback. */
  lemma RestingRowExact(c: Cloud, k: Attempt, world: World)
    requires k in c.rows && HasInstance(c, k) && c.rows[k].state == Seen(ShuttingDown)
    requires c.rows[k].instance.value in c.ended && StaysEnded(c, k, world)
    ensures var d := ReapRow(c, k, world);
      ActiveRows(d.rows) == ActiveRows(c.rows) + if LateFallback(c, k, world) then {Attempt(k.job, 2)} else {}
  {
    var r := Refresh(c, k, world);
    var e := r.(db := W.ExpireBootstrap(r.db, r.rows[k].token));
    var next := C.Fallback(r.settings.types, r.rows[k].instanceType);
    assert r.db == c.db && r.rows == c.rows[k := r.rows[k]] && !Active(r.rows[k]);
    assert ActiveRows(r.rows) == ActiveRows(c.rows);
    assert ReapRow(c, k, world) == ReapEnded(r, k, world);
    hide Refresh, ReapRow, ReapEnded, Launch, Active, StaysEnded;
    EndedExact(r, k, world);
  }

  /** What an ended row's turn adds. */
  lemma EndedExact(c: Cloud, k: Attempt, world: World)
    requires k in c.rows && !Active(c.rows[k])
    ensures var d := ReapEnded(c, k, world);
      ActiveRows(d.rows) == ActiveRows(c.rows) + if AddsAttempt(c, k, world) then {Attempt(k.job, 2)} else {}
  {
    var e := c.(db := W.ExpireBootstrap(c.db, c.rows[k].token));
    var next := C.Fallback(c.settings.types, c.rows[k].instanceType);
    if next.Some? {
      SecondLaunch(e, k.job, next.value, world);
    }
    hide Launch, W.FailRemote, KeepsSlot, Active, C.Fallback, LacksCapacity, W.BootstrapAllowed;
  }

  lemma ProtocolOk(c: Cloud, step: R.Event)
    requires Inv(c)
    ensures var d := Step(c, Protocol(step)); Inv(d) && d.rows == c.rows && (AllRested(c) ==> AllRested(d))
  {
    var d := Step(c, Protocol(step));
    DbOnly(c, d, W.JobRef(W.Copy, 0), step);
    forall i
      ensures JobInv(d, i) && (Rested(c, i) ==> Rested(d, i))
    {
      assert JobInv(c, i);
      if Attempt(i, 1) in c.rows || Attempt(i, 2) in c.rows {
        assert AttemptOk(c, Attempt(i, 1)) && AttemptOk(c, Attempt(i, 2));
        if R.Closed(c.db, i) { R.ClosedStays(c.db, d.db, i); }
      }
    }
  }

  predicate IsLate(c: Cloud, e: Event) {
    e.Reap? && LateFallback(c, e.row, e.world)
  }

  lemma OnlyJobSettings(c: Cloud, d: Cloud, j: W.JobRef)
    requires OnlyJob(c, d, j)
    ensures d.settings == c.settings
  {
  }

  lemma DispatchBounded(c: Cloud, j: W.JobRef, world: World)
    requires Inv(c) && j in c.db.remote
    ensures var d := DispatchJob(c, j, world);
      && Inv(d) && d.settings == c.settings && Within(c, d)
      && (AllRested(c) && !Leaving(world, Attempt(j, 1)) ==> AllRested(d))
  {
    var d := DispatchJob(c, j, world);
    DispatchOk(c, j, world);
    hide Inv, AllRested, OnlyJob, Leaving, ActiveRows, Launch, HasRow;
    OnlyJobSettings(c, d, j);
    CountStep(c, d, j);
  }

  lemma ReapExact(c: Cloud, k: Attempt, world: World)
    requires Inv(c) && Possible(c, Reap(k, world)) && Sane(c, Reap(k, world))
    ensures var d := ReapRow(c, k, world);
      && Inv(d) && d.settings == c.settings
      && (AllRested(c) && (k.number == 1 ==> !Leaving(world, k)) ==> AllRested(d))
      && (LateFallback(c, k, world) ==> |ActiveRows(d.rows)| == |ActiveRows(c.rows)| + 1)
      && (!LateFallback(c, k, world) ==> |ActiveRows(d.rows)| <= |ActiveRows(c.rows)|)
  {
    var d := ReapRow(c, k, world);
    assert AttemptOk(c, k) && JobInv(c, k.job);
    ReapOk(c, k, world);
    if Active(c.rows[k]) {
      assert k in ActiveOf(c, k.job);
    } else {
      RestingRowExact(c, k, world);
    }
    hide Inv, AllRested, OnlyJob, Leaving, ReapRow, AddsAttempt, AttemptOk, JobInv;
    OnlyJobSettings(c, d, k.job);
    CountStep(c, d, k.job);
  }

  /** Whatever EC2 answers, a late fallback is the one step that launches without a free slot. */
  lemma StepExact(c: Cloud, e: Event)
    requires Inv(c) && Possible(c, e) && Sane(c, e)
    ensures var d := Step(c, e);
      && Inv(d) && d.settings == c.settings && (AllRested(c) && Fair(c, e) ==> AllRested(d))
      && (IsLate(c, e) ==> |ActiveRows(d.rows)| == |ActiveRows(c.rows)| + 1)
      && (!IsLate(c, e) ==> Within(c, d))
  {
    hide Inv, AllRested, Leaving, Sane, ReapRow, DispatchJob, LateFallback, R.Step;
    match e
    case Protocol(step) => ProtocolOk(c, step);
    case Dispatch(j, world) => if j in c.db.remote { DispatchBounded(c, j, world); }
    case Reap(k, world) => ReapExact(c, k, world);
  }

  /** No more active rows than before, or than the limit. */
  predicate Within(c: Cloud, d: Cloud) {
    |ActiveRows(d.rows)| <= |ActiveRows(c.rows)| || |ActiveRows(d.rows)| <= c.settings.maxWorkers
  }

  // ---------------------------------------------------------------- main results

  /** Every turn of the run is possible, and EC2's listings are sound. */
  predicate SaneRun(c: Cloud, es: seq<Event>)
    decreases |es|
  {
    es == [] || (Possible(c, es[0]) && Sane(c, es[0]) && SaneRun(Step(c, es[0]), es[1..]))
  }

  /** EC2 behaves as the launcher supposes. */
  predicate FairRun(c: Cloud, es: seq<Event>) {
    SaneRun(c, es) && forall n :: 0 <= n < |es| ==> NoneLeaving(es[n])
  }

  function Run(c: Cloud, es: seq<Event>): Cloud
    requires SaneRun(c, es)
    decreases |es|
  {
    if es == [] then c else Run(Step(c, es[0]), es[1..])
  }

  function Begin(settings: Settings, cfg: W.Config): Cloud {
    Cloud(settings, W.Init(cfg), map[], {})
  }

  predicate Full(c: Cloud) {
    |ActiveRows(c.rows)| >= c.settings.maxWorkers
  }

  predicate NeverOver(c: Cloud, es: seq<Event>)
    requires SaneRun(c, es)
    decreases |es|
  {
    |ActiveRows(c.rows)| <= c.settings.maxWorkers && (es != [] ==> NeverOver(Step(c, es[0]), es[1..]))
  }

  /** No turn of the run is a late fallback while every slot is taken. */
  predicate NeverLateWhenFull(c: Cloud, es: seq<Event>)
    requires SaneRun(c, es)
    decreases |es|
  {
    es != [] ==> !(Full(c) && IsLate(c, es[0])) && NeverLateWhenFull(Step(c, es[0]), es[1..])
  }

  /** A run keeps the limit throughout exactly if it has no such turn, whatever EC2 answers. */
  lemma {:induction false} LimitExact(c: Cloud, es: seq<Event>)
    requires Inv(c) && SaneRun(c, es) && |ActiveRows(c.rows)| <= c.settings.maxWorkers
    ensures NeverOver(c, es) <==> NeverLateWhenFull(c, es)
    decreases |es|
  {
    if es != [] {
      StepExact(c, es[0]);
      if !(Full(c) && IsLate(c, es[0])) {
        LimitExact(Step(c, es[0]), es[1..]);
      } else {
        assert |ActiveRows(Step(c, es[0]).rows)| > c.settings.maxWorkers;
      }
    }
  }

  lemma StepBounded(c: Cloud, e: Event)
    requires Inv(c) && AllRested(c) && Possible(c, e) && Fair(c, e)
    ensures var d := Step(c, e); Inv(d) && AllRested(d) && d.settings == c.settings && Within(c, d)
  {
    StepExact(c, e);
    if e.Reap? {
      assert Rested(c, e.row.job);
    }
  }

  lemma {:induction false} RunBounded(c: Cloud, es: seq<Event>)
    requires Inv(c) && AllRested(c) && FairRun(c, es) && |ActiveRows(c.rows)| <= c.settings.maxWorkers
    ensures Inv(Run(c, es)) && |ActiveRows(Run(c, es).rows)| <= c.settings.maxWorkers
    decreases |es|
  {
    if es != [] {
      StepBounded(c, es[0]);
      RunBounded(Step(c, es[0]), es[1..]);
    }
  }

  /**
   In every fair run the rows that may cost money never exceed the limit, although a
   fallback launch never looks at it; a job has at most two attempts, and at most one of
   them is active.
   */
  lemma AtMostMaxWorkers(settings: Settings, cfg: W.Config, es: seq<Event>)
    requires FairRun(Begin(settings, cfg), es)
    ensures var c := Run(Begin(settings, cfg), es);
      && |ActiveRows(c.rows)| <= settings.maxWorkers
      && (forall k :: k in c.rows ==> k.number == 1 || k.number == 2)
      && (forall k, l :: k in ActiveRows(c.rows) && l in ActiveRows(c.rows) && k.job == l.job ==> k == l)
  {
    var c := Begin(settings, cfg);
    assert ActiveRows(c.rows) == {};
    RunBounded(c, es);
    var d := Run(c, es);
    forall k | k in d.rows
      ensures (k.number == 1 || k.number == 2) && JobInv(d, k.job)
    {
      assert AttemptOk(d, k);
    }
  }

  /** EC2 is fair at each turn of a reaper pass. */
  predicate FairPass(c: Cloud, ks: seq<Attempt>, world: World)
    decreases |ks|
  {
    ks == [] ||
    (if Reapable(c, ks[0])
     then Fair(c, Reap(ks[0], world)) && FairPass(ReapRow(c, ks[0], world), ks[1..], world)
     else FairPass(c, ks[1..], world))
  }

  /** Whole passes, as the launcher's methods make them, keep the invariant and the limit too. */
  lemma {:induction false} ReapPassBounded(c: Cloud, ks: seq<Attempt>, world: World)
    requires Inv(c) && AllRested(c) && FairPass(c, ks, world)
    ensures var d := ReapAll(c, ks, world); Inv(d) && AllRested(d) && d.settings == c.settings && Within(c, d)
    decreases |ks|
  {
    if ks != [] {
      if Reapable(c, ks[0]) {
        StepBounded(c, Reap(ks[0], world));
        ReapPassBounded(ReapRow(c, ks[0], world), ks[1..], world);
      } else {
        ReapPassBounded(c, ks[1..], world);
      }
    }
  }

  /** A dispatcher's pass keeps the limit whatever EC2 answers. */
  lemma {:induction false} DispatchPassBounded(c: Cloud, queued: seq<W.JobRef>, world: World)
    requires Inv(c) && forall j :: j in queued ==> j in c.db.remote
    ensures var d := DispatchAll(c, queued, world);
      && Inv(d) && d.settings == c.settings && Within(c, d)
      && (AllRested(c) && (forall j :: j in queued ==> !Leaving(world, Attempt(j, 1))) ==> AllRested(d))
    decreases |queued|
  {
    if queued != [] && ActiveCount(c, world) < c.settings.maxWorkers {
      var d := DispatchJob(c, queued[0], world);
      DispatchOk(c, queued[0], world);
      StepExact(c, Dispatch(queued[0], world));
      forall j | j in queued[1..]
        ensures j in d.db.remote
      {
        assert R.JobEvolves(c.db, d.db, j);
      }
      DispatchPassBounded(d, queued[1..], world);
    }
  }
}
