/**
 Whether the reaper follows a job up to its end: what leaves a queued job without any row
 the reaper looks at, and what a second look at an ended first attempt does to its fallback.
 */
module Ec2FollowUp {
  import opened Options
  import opened Ec2Launcher
  import opened Ec2Runs
  import opened Ec2Overrun
  import C = Ec2Config
  import W = WorkerManager
  import R = WorkerRuns

  /** A queued job of the launcher's pool that its user has not ended. */
  predicate Waiting(c: Cloud, j: W.JobRef) {
    Startable(c.db, j) && c.db.remote[j].pool == c.settings.pool
  }

  predicate IsOpen(c: Cloud, k: Attempt) {
    k in c.rows && Open(c.rows[k])
  }

  /** Dispatch skips the job, for it has a row, and the reaper does, for none of its rows is open. */
  predicate LeftBehind(c: Cloud, j: W.JobRef) {
    && (Attempt(j, 1) in c.rows || Attempt(j, 2) in c.rows)
    && !IsOpen(c, Attempt(j, 1)) && !IsOpen(c, Attempt(j, 2))
  }

  predicate Stranded(c: Cloud, j: W.JobRef) {
    Waiting(c, j) && LeftBehind(c, j)
  }

  ghost predicate NoneStranded(c: Cloud) {
    forall j :: !Stranded(c, j)
  }

  /** The launcher can issue bootstrap tokens for the jobs of its pool. */
  predicate IssuesTokens(settings: Settings) {
    settings.pool != "central" && 30 <= settings.bootTimeout <= 24 * 3600
  }

  // ---------------------------------------------------------------- which answers strand a job

  /** The answer to RunInstances, or the lookup after a mismatch, is a terminated instance. */
  predicate Gone(world: World, k: Attempt) {
    match ReplyTo(world, k)
    case Started(i) => i.state.Terminated?
    case Mismatch(Some(i)) => i.state.Terminated?
    case _ => false
  }

  predicate StartLoses(c: Cloud, k: Attempt, world: World)
    requires k in c.rows
  {
    || (Gone(world, k) && (k.number == 2 ==> !IsOpen(c, Attempt(k.job, 1))))
    || (k.number == 1 && ReplyTo(world, k).NoCapacity? && FallsBack(c, k) && Gone(world, Attempt(k.job, 2)))
  }

  /** A second attempt of an open queued job would be launched. */
  predicate FallsBack(c: Cloud, k: Attempt)
    requires k in c.rows
  {
    && C.Fallback(c.settings.types, c.rows[k].instanceType).Some?
    && k.job in c.db.jobs && c.db.jobs[k.job].cloudToCloud && Attempt(k.job, 2) !in c.rows
  }

  lemma FailEnds(c: Cloud, j: W.JobRef)
    ensures !Waiting(c.(db := W.FailRemote(c.db, j)), j)
  {
  }

  lemma IssueKeeps(c: Cloud, k: Attempt)
    requires k in c.rows && Waiting(c, k.job) && IssuesTokens(c.settings)
    ensures var t := Issue(c, k);
      && Issues(c, k) && Waiting(t, k.job) && t.settings == c.settings && t.db.jobs == c.db.jobs
      && k in t.rows && t.rows == c.rows[k := c.rows[k].(token := t.rows[k].token)]
  {
  }

  lemma AdoptStrands(c: Cloud, k: Attempt, i: Instance)
    requires k in c.rows && Waiting(c, k.job) && (k.number == 1 ==> Attempt(k.job, 2) !in c.rows)
    requires k.number == 1 || k.number == 2
    ensures Stranded(Adopt(c, k, i), k.job) <==>
      i.state.Terminated? && (k.number == 2 ==> !IsOpen(c, Attempt(k.job, 1)))
  {
  }

  lemma SecondStrands(c: Cloud, k: Attempt, world: World)
    requires k in c.rows && c.rows[k].state.Launching? && Waiting(c, k.job) && IssuesTokens(c.settings) && k.number == 2
    ensures Stranded(Start(c, k, world), k.job) <==> StartLoses(c, k, world)
  {
    var t := Issue(c, k);
    IssueKeeps(c, k);
    match ReplyTo(world, k) {
      case Started(i) => AdoptStrands(t, k, i);
      case Mismatch(Some(i)) => AdoptStrands(t, k, i);
      case NoCapacity => FailedEnds(t, k, true, world);
      case Refused => FailedEnds(t, k, false, world);
      case NotPrepared => FailedEnds(t, k, false, world);
      case _ =>
    }
  }

  lemma FailedEnds(c: Cloud, k: Attempt, capacity: bool, world: World)
    requires k in c.rows && (capacity && k.number == 1 ==> !FallsBack(c, k))
    ensures !Waiting(LaunchFailed(c, k, capacity, world), k.job)
  {
    hide W.FailRemote, Waiting, Start;
    var f := c.(rows := c.rows[k := c.rows[k].(state := Failed)], db := W.ExpireBootstrap(c.db, c.rows[k].token));
    FailEnds(f, k.job);
    var next := C.Fallback(c.settings.types, c.rows[k].instanceType);
    if next.Some? {
      FailEnds(Launch(f, k.job, 2, next.value, world), k.job);
    }
  }

  lemma FirstFallsBack(c: Cloud, k: Attempt, world: World)
    requires k in c.rows && Waiting(c, k.job) && IssuesTokens(c.settings) && k.number == 1 && FallsBack(c, k)
    ensures Stranded(LaunchFailed(c, k, true, world), k.job) <==> Gone(world, Attempt(k.job, 2))
  {
    var f := c.(rows := c.rows[k := c.rows[k].(state := Failed)], db := W.ExpireBootstrap(c.db, c.rows[k].token));
    SecondLaunchStrands(f, k.job, C.Fallback(c.settings.types, c.rows[k].instanceType).value, world);
  }

  lemma SecondLaunchStrands(c: Cloud, j: W.JobRef, instanceType: string, world: World)
    requires Waiting(c, j) && IssuesTokens(c.settings) && Launches(c, j, 2)
    ensures Stranded(Launch(c, j, 2, instanceType, world), j) <==>
      Gone(world, Attempt(j, 2)) && !IsOpen(c, Attempt(j, 1))
  {
    var k := Attempt(j, 2);
    var l := c.(rows := c.rows[k := Row(instanceType, Launching, None, None, c.db.now, None)]);
    SecondStrands(l, k, world);
  }

  /** Starting a row strands its job exactly if the last answer is a terminated instance and no row is left open. */
  lemma StartStrands(c: Cloud, k: Attempt, world: World)
    requires k in c.rows && c.rows[k].state.Launching? && Waiting(c, k.job) && IssuesTokens(c.settings)
    requires k.number == 2 || (k.number == 1 && Attempt(k.job, 2) !in c.rows)
    ensures Stranded(Start(c, k, world), k.job) <==> StartLoses(c, k, world)
  {
    hide Issue, Issues, Adopt, LaunchFailed, C.Fallback;
    if k.number == 2 {
      SecondStrands(c, k, world);
    } else {
      var t := Issue(c, k);
      IssueKeeps(c, k);
      match ReplyTo(world, k) {
        case Started(i) => AdoptStrands(t, k, i);
        case Mismatch(Some(i)) => AdoptStrands(t, k, i);
        case NoCapacity =>
          if FallsBack(t, k) {
            FirstFallsBack(t, k, world);
          } else {
            FailedEnds(t, k, true, world);
          }
        case Refused => FailedEnds(t, k, false, world);
        case NotPrepared => FailedEnds(t, k, false, world);
        case _ =>
      }
    }
  }

  // ---------------------------------------------------------------- which steps strand a job

  /** The cloud in which dispatch starts the job's first attempt. */
  function Placed(c: Cloud, j: W.JobRef): Cloud {
    c.(rows := c.rows[Attempt(j, 1) := Row(TypeFor(c, j), Launching, None, None, c.db.now, None)])
  }

  predicate DispatchLoses(c: Cloud, j: W.JobRef, world: World) {
    && ActiveCount(c, world) < c.settings.maxWorkers && !HasRow(c, j) && Waiting(c, j)
    && c.db.jobs[j].cloudToCloud && StartLoses(Placed(c, j), Attempt(j, 1), world)
  }

  predicate LaunchingLoses(c: Cloud, k: Attempt, world: World)
    requires k in c.rows
  {
    var age := c.db.now - c.rows[k].createdAt;
    Waiting(c, k.job) && RETRY_AFTER < age <= c.settings.bootTimeout && StartLoses(c, k, world)
  }

  predicate SeenLoses(c: Cloud, k: Attempt, world: World)
    requires k in c.rows && c.rows[k].instance.Some?
  {
    && Waiting(c, k.job) && k.number == 1 && Refresh(c, k, world).rows[k].state == Seen(Terminated)
    && LacksCapacity(c, k, world) && FallsBack(c, k) && Gone(world, Attempt(k.job, 2))
  }

  /** The step's last answer for its job is a terminated instance, and the job's other row is not open. */
  predicate Loses(c: Cloud, e: Event)
    requires Possible(c, e)
  {
    match e
    case Protocol(_) => false
    case Dispatch(j, world) => DispatchLoses(c, j, world)
    case Reap(k, world) =>
      if c.rows[k].state != Launching then SeenLoses(c, k, world)
      else if !Listed(world, k) then LaunchingLoses(c, k, world)
      else SeenLoses(Adopt(c, k, world.byId[world.byToken[k]]), k, world)
  }

  lemma DispatchStrands(c: Cloud, j: W.JobRef, world: World)
    requires Inv(c) && j in c.db.remote && IssuesTokens(c.settings)
    ensures Stranded(DispatchJob(c, j, world), j) <==> Stranded(c, j) || DispatchLoses(c, j, world)
  {
    DispatchOk(c, j, world);
    hide R.Inv, AllRested, W.FailRemote, Start, StartLoses;
    if ActiveCount(c, world) < c.settings.maxWorkers && !HasRow(c, j) {
      if !Waiting(c, j) {
        if Waiting(DispatchJob(c, j, world), j) { WaitedBefore(c, DispatchJob(c, j, world), j); }
      } else if c.db.jobs[j].cloudToCloud {
        assert DispatchJob(c, j, world) == Start(Placed(c, j), Attempt(j, 1), world);
        StartStrands(Placed(c, j), Attempt(j, 1), world);
      } else {
        FailEnds(c, j);
      }
    }
  }

  lemma AliveFollowed(c: Cloud, k: Attempt, world: World)
    requires k in c.rows && c.rows[k].instance.Some? && Active(c.rows[k]) && (k.number == 1 || k.number == 2)
    requires Waiting(c, k.job)
    ensures !Stranded(ReapAlive(c, k, world), k.job)
  {
    hide W.FailRemote, W.ExpireBootstrap, Terminate;
    if Fails(c, k) {
      var t := Terminate(c, k, world);
      FailEnds(t.(db := W.ExpireBootstrap(t.db, c.rows[k].token)), k.job);
    }
  }

  lemma EndedStrands(c: Cloud, k: Attempt, world: World)
    requires k in c.rows && Ended(c.rows[k]) && Waiting(c, k.job) && IssuesTokens(c.settings)
    ensures Stranded(ReapEnded(c, k, world), k.job) <==>
      && k.number == 1 && c.rows[k].state == Seen(Terminated)
      && LacksCapacity(c, k, world) && FallsBack(c, k) && Gone(world, Attempt(k.job, 2))
  {
    hide W.FailRemote, Gone, Launch;
    var e := c.(db := W.ExpireBootstrap(c.db, c.rows[k].token));
    var next := C.Fallback(c.settings.types, c.rows[k].instanceType);
    FailEnds(e, k.job);
    if next.Some? {
      FailEnds(Launch(e, k.job, 2, next.value, world), k.job);
      if Launches(e, k.job, 2) {
        SecondLaunchStrands(e, k.job, next.value, world);
      }
    }
  }

  lemma SeenStrands(c: Cloud, k: Attempt, world: World)
    requires k in c.rows && c.rows[k].state.Seen? && c.rows[k].instance.Some? && (k.number == 1 || k.number == 2)
    requires Waiting(c, k.job) && IssuesTokens(c.settings)
    ensures Stranded(ReapSeen(c, k, world), k.job) <==> SeenLoses(c, k, world)
  {
    hide ReapAlive, ReapEnded, Gone;
    var r := Refresh(c, k, world);
    if Active(r.rows[k]) {
      AliveFollowed(r, k, world);
    } else {
      EndedStrands(r, k, world);
    }
  }

  lemma LaunchingStrands(c: Cloud, k: Attempt, world: World)
    requires k in c.rows && c.rows[k].state.Launching? && Waiting(c, k.job) && IssuesTokens(c.settings)
    requires k.number == 2 || (k.number == 1 && Attempt(k.job, 2) !in c.rows)
    ensures Stranded(ReapLaunching(c, k, world), k.job) <==> LaunchingLoses(c, k, world)
  {
    hide Start, LaunchFailed, StartLoses;
    FailedEnds(c, k, false, world);
    StartStrands(c, k, world);
  }

  /** A job that waits after a step waited before it, if it was in the table. */
  lemma WaitedBefore(c: Cloud, d: Cloud, j: W.JobRef)
    requires R.Inv(c.db) && R.Evolves(c.db, d.db) && d.settings == c.settings
    requires j in c.db.remote && Waiting(d, j)
    ensures Waiting(c, j)
  {
    if R.Closed(c.db, j) {
      R.ClosedStays(c.db, d.db, j);
    }
    assert R.JobEvolves(c.db, d.db, j);
  }

  /** Jobs a step does not concern are no more stranded after it than before. */
  lemma OthersFollowed(c: Cloud, d: Cloud, j: W.JobRef)
    requires Inv(c) && R.Evolves(c.db, d.db) && d.settings == c.settings && Stranded(d, j)
    requires SameRow(c, d, Attempt(j, 1)) && SameRow(c, d, Attempt(j, 2))
    ensures Stranded(c, j)
  {
    hide R.Inv, R.Evolves, Waiting;
    assert AttemptOk(c, Attempt(j, 1)) && AttemptOk(c, Attempt(j, 2));
    WaitedBefore(c, d, j);
  }

  lemma ReapStrands(c: Cloud, k: Attempt, world: World)
    requires Inv(c) && Possible(c, Reap(k, world)) && Sane(c, Reap(k, world)) && IssuesTokens(c.settings)
    ensures Stranded(ReapRow(c, k, world), k.job) <==> Loses(c, Reap(k, world))
  {
    var d := ReapRow(c, k, world);
    assert AttemptOk(c, k) && JobInv(c, k.job);
    ReapOk(c, k, world);
    if Waiting(c, k.job) {
      hide R.Inv, Waiting, Stranded, SeenLoses, LaunchingLoses, ReapSeen, ReapLaunching;
      hide JobInv, OnlyJob, Noted, AttemptOk;
      if c.rows[k].state != Launching {
        SeenStrands(c, k, world);
      } else if !Listed(world, k) {
        LaunchingStrands(c, k, world);
      } else {
        SeenStrands(Adopt(c, k, world.byId[world.byToken[k]]), k, world);
      }
    } else if Waiting(d, k.job) {
      WaitedBefore(c, d, k.job);
    }
  }

  lemma NotQueuedNotLost(c: Cloud, j: W.JobRef, world: World)
    ensures DispatchLoses(c, j, world) ==> j in c.db.remote
  {
  }

  /**
   Exactly these steps strand a job: those in which the last answer for it is an instance
   that is terminated, with no other row of it left open.
   */
  lemma StepStrands(c: Cloud, e: Event, j: W.JobRef)
    requires Inv(c) && Possible(c, e) && Sane(c, e) && IssuesTokens(c.settings) && !Stranded(c, j)
    ensures Stranded(Step(c, e), j) <==> Loses(c, e) && Concerns(e, j)
  {
    var d := Step(c, e);
    hide R.Inv, Waiting, Stranded, DispatchJob, ReapRow, DispatchLoses, R.Step, JobInv, AllRested;
    match e
    case Protocol(step) =>
      R.StepKeeps(c.db, step);
      if Stranded(d, j) { OthersFollowed(c, d, j); }
    case Dispatch(i, world) =>
      if i in c.db.remote {
        DispatchOk(c, i, world);
        if i == j {
          DispatchStrands(c, j, world);
        } else if Stranded(d, j) {
          assert SameRow(c, d, Attempt(j, 1)) && SameRow(c, d, Attempt(j, 2));
          OthersFollowed(c, d, j);
        }
      } else {
        NotQueuedNotLost(c, i, world);
      }
    case Reap(k, world) =>
      ReapOk(c, k, world);
      if k.job == j {
        ReapStrands(c, k, world);
      } else if Stranded(d, j) {
        assert SameRow(c, d, Attempt(j, 1)) && SameRow(c, d, Attempt(j, 2));
        OthersFollowed(c, d, j);
      }
  }

  predicate Concerns(e: Event, j: W.JobRef) {
    match e
    case Protocol(_) => false
    case Dispatch(i, _) => i == j
    case Reap(k, _) => k.job == j
  }

  // ---------------------------------------------------------------- whole runs

  ghost predicate AlwaysFollowed(c: Cloud, es: seq<Event>)
    requires SaneRun(c, es)
    decreases |es|
  {
    NoneStranded(c) && (es != [] ==> AlwaysFollowed(Step(c, es[0]), es[1..]))
  }

  predicate NeverLoses(c: Cloud, es: seq<Event>)
    requires SaneRun(c, es)
    decreases |es|
  {
    es != [] ==> !Loses(c, es[0]) && NeverLoses(Step(c, es[0]), es[1..])
  }

  lemma StepFollowed(c: Cloud, e: Event)
    requires Inv(c) && Possible(c, e) && Sane(c, e) && IssuesTokens(c.settings) && NoneStranded(c)
    ensures NoneStranded(Step(c, e)) <==> !Loses(c, e)
  {
    hide Stranded, Step, Inv, Sane, IssuesTokens, DispatchLoses, SeenLoses, LaunchingLoses;
    forall j
      ensures Stranded(Step(c, e), j) <==> Loses(c, e) && Concerns(e, j)
    {
      StepStrands(c, e, j);
    }
    if Loses(c, e) {
      assert Stranded(Step(c, e), if e.Reap? then e.row.job else e.job);
    }
  }

  /**
   In a run, at every moment each queued job of the pool that has a row has an open one, so
   the reaper ends or retries it, if and only if no step is one of those.
   */
  lemma {:induction false} FollowedExact(c: Cloud, es: seq<Event>)
    requires Inv(c) && SaneRun(c, es) && IssuesTokens(c.settings) && NoneStranded(c)
    ensures AlwaysFollowed(c, es) <==> NeverLoses(c, es)
    decreases |es|
  {
    if es != [] {
      StepFollowed(c, es[0]);
      StepExact(c, es[0]);
      if !Loses(c, es[0]) {
        FollowedExact(Step(c, es[0]), es[1..]);
      } else {
        assert !NoneStranded(Step(c, es[0]));
      }
    }
  }

  predicate SameRows(c: Cloud, d: Cloud, j: W.JobRef) {
    SameRow(c, d, Attempt(j, 1)) && SameRow(c, d, Attempt(j, 2))
  }

  lemma LeftBehindStep(c: Cloud, e: Event, j: W.JobRef)
    requires Inv(c) && Possible(c, e) && Sane(c, e) && LeftBehind(c, j)
    ensures SameRows(c, Step(c, e), j)
  {
    assert AttemptOk(c, Attempt(j, 1)) && AttemptOk(c, Attempt(j, 2));
    hide R.Inv, Launch, ReapRow, R.Step, JobInv, AllRested;
    match e
    case Protocol(step) =>
    case Dispatch(i, world) =>
      if i in c.db.remote {
        DispatchOk(c, i, world);
        assert i == j ==> HasRow(c, i);
      }
    case Reap(k, world) =>
      ReapOk(c, k, world);
      assert AttemptOk(c, k);
  }

  /**
   A job left behind stays so in every run: its rows never change again and none is added,
   so a stranded job is stranded as long as it waits.
   */
  lemma {:induction false} LeftBehindForGood(c: Cloud, es: seq<Event>, j: W.JobRef)
    requires Inv(c) && SaneRun(c, es) && LeftBehind(c, j)
    ensures SameRows(c, Run(c, es), j)
    ensures Stranded(Run(c, es), j) <==> Waiting(Run(c, es), j)
    decreases |es|
  {
    if es != [] {
      LeftBehindStep(c, es[0], j);
      StepExact(c, es[0]);
      LeftBehindForGood(Step(c, es[0]), es[1..], j);
    }
  }

  // ---------------------------------------------------------------- a fallback's first attempt

  /**
   A turn that starts the fallback of an instance it has seen leaves the first attempt's
   row open exactly if the listing has the instance as shutting down, not as terminated.
   */
  lemma FallbackTurn(c: Cloud, k: Attempt, world: World)
    requires k in c.rows && c.rows[k].state.Seen? && c.rows[k].instance.Some? && k.number == 1
    requires Attempt(k.job, 2) !in c.rows && Attempt(k.job, 2) in ReapSeen(c, k, world).rows
    ensures var d := ReapSeen(c, k, world); var i := c.rows[k].instance.value;
      && i in world.byId && k in d.rows && d.rows[k].state == Seen(world.byId[i].state)
      && !Alive(world.byId[i].state) && (IsOpen(d, k) <==> world.byId[i].state.ShuttingDown?)
  {
    ReapSeenSpares(c, k, world);
    var r := Refresh(c, k, world);
    hide Refresh, ReapAlive, ReapEnded, Spares;
    RefreshState(c, k, world);
    if Active(r.rows[k]) {
      AliveAddsNone(r, k, world);
    } else {
      EndedKeepsRow(r, k, world);
    }
  }

  lemma RefreshState(c: Cloud, k: Attempt, world: World)
    requires k in c.rows && c.rows[k].instance.Some?
    ensures var r := Refresh(c, k, world); var i := c.rows[k].instance.value;
      && r.rows.Keys == c.rows.Keys && r.rows[k].instance == c.rows[k].instance
      && (i in world.byId ==> r.rows[k].state == Seen(world.byId[i].state))
  {
  }

  lemma AliveAddsNone(c: Cloud, k: Attempt, world: World)
    requires k in c.rows && c.rows[k].instance.Some?
    ensures ReapAlive(c, k, world).rows.Keys == c.rows.Keys
  {
    hide W.FailRemote, W.ExpireBootstrap, Fails;
  }

  lemma EndedKeepsRow(c: Cloud, k: Attempt, world: World)
    requires k in c.rows
    ensures var d := ReapEnded(c, k, world);
      && k in d.rows && (k.number == 1 ==> d.rows[k] == c.rows[k])
      && (LacksCapacity(c, k, world) || d.rows == c.rows)
  {
    hide W.FailRemote, W.ExpireBootstrap, Launch, C.Fallback;
    var e := c.(db := W.ExpireBootstrap(c.db, c.rows[k].token));
    var next := C.Fallback(c.settings.types, c.rows[k].instanceType);
    if next.Some? {
      LaunchSpares(e, k.job, 2, next.value, world, k);
    }
  }

  lemma FailsOpenJob(db: W.Db, j: W.JobRef)
    requires JobOpen(db, j)
    ensures var f := W.FailRemote(db, j);
      && j in f.jobs && f.jobs[j].state.Failed? && j in f.remote && !JobOpen(f, j) && W.FailRemote(f, j) == f
  {
  }

  /** The next turn of such a row finds the second attempt in its way, and fails the job. */
  lemma SecondLookFails(c: Cloud, k: Attempt, world: World)
    requires k in c.rows && HasInstance(c, k) && c.rows[k].state == Seen(ShuttingDown) && k.number == 1
    requires c.rows[k].instance.value in c.ended && StaysEnded(c, k, world)
    requires Attempt(k.job, 2) in c.rows && JobOpen(c.db, k.job)
    ensures var d := ReapRow(c, k, world);
      && k.job in d.db.jobs && d.db.jobs[k.job].state.Failed? && !JobOpen(d.db, k.job)
      && Attempt(k.job, 2) in d.rows && d.rows[Attempt(k.job, 2)] == c.rows[Attempt(k.job, 2)]
  {
    hide W.FailRemote, ReapEnded;
    var r := Refresh(c, k, world);
    assert ReapRow(c, k, world) == ReapEnded(r, k, world);
    EndedWithSecond(r, k, world);
  }

  lemma EndedWithSecond(c: Cloud, k: Attempt, world: World)
    requires k in c.rows && k.number == 1 && Attempt(k.job, 2) in c.rows && JobOpen(c.db, k.job)
    ensures var d := ReapEnded(c, k, world);
      k.job in d.db.jobs && d.db.jobs[k.job].state.Failed? && !JobOpen(d.db, k.job) && d.rows == c.rows
  {
    hide W.FailRemote, LacksCapacity, C.Fallback;
    var e := c.(db := W.ExpireBootstrap(c.db, c.rows[k].token));
    assert JobOpen(e.db, k.job);
    FailsOpenJob(e.db, k.job);
  }

  /** Only its own turn changes a row beside a second attempt. */
  lemma RowUntouched(c: Cloud, e: Event, k: Attempt)
    requires Inv(c) && Possible(c, e) && Sane(c, e) && !(e.Reap? && e.row == k)
    requires k in c.rows && Attempt(k.job, 2) in c.rows
    ensures var d := Step(c, e);
      k in d.rows && d.rows[k] == c.rows[k] && Attempt(k.job, 2) in d.rows && c.ended <= d.ended
  {
    hide R.Inv, Launch, ReapRow, R.Step, JobInv, AllRested;
    match e
    case Protocol(step) =>
    case Dispatch(i, world) =>
      if i in c.db.remote {
        DispatchOk(c, i, world);
        assert i == k.job ==> HasRow(c, i);
        assert i != k.job ==> SameRow(c, Step(c, e), k);
      }
    case Reap(a, world) =>
      ReapOk(c, a, world);
      ReapSpares(c, a, world);
  }

  lemma {:induction false} RowUntouchedByRun(c: Cloud, es: seq<Event>, k: Attempt)
    requires Inv(c) && SaneRun(c, es) && k in c.rows && Attempt(k.job, 2) in c.rows
    requires !IsOpen(c, k) || forall e :: e in es && e.Reap? ==> e.row != k
    ensures var d := Run(c, es);
      Inv(d) && k in d.rows && d.rows[k] == c.rows[k] && Attempt(k.job, 2) in d.rows && c.ended <= d.ended
    decreases |es|
  {
    if es != [] {
      RowUntouched(c, es[0], k);
      StepExact(c, es[0]);
      RowUntouchedByRun(Step(c, es[0]), es[1..], k);
    }
  }

  /**
   So a fallback started for an instance that was seen as shutting down is given up: whatever
   happens in between, the first attempt's next turn fails a job that is still open. If it was
   seen as terminated, the first attempt never has another turn.
   */
  lemma FallbackOutlives(c: Cloud, es: seq<Event>, k: Attempt, world: World)
    requires Inv(c) && SaneRun(c, es) && k in c.rows && c.rows[k].state.Seen? && k.number == 1
    requires !Active(c.rows[k]) && Attempt(k.job, 2) in c.rows
    requires forall e :: e in es && e.Reap? ==> e.row != k
    requires Sane(Run(c, es), Reap(k, world)) && JobOpen(Run(c, es).db, k.job)
    ensures var d := Run(c, es); var turn := Reap(k, world);
      && (Possible(d, turn) <==> c.rows[k].state == Seen(ShuttingDown))
      && (Possible(d, turn) ==>
            var f := Step(d, turn); !JobOpen(f.db, k.job) && k.job in f.db.jobs && f.db.jobs[k.job].state.Failed?)
  {
    var d := Run(c, es);
    RowUntouchedByRun(c, es, k);
    assert JobInv(d, k.job);
    hide Inv, ReapRow;
    if c.rows[k].state == Seen(ShuttingDown) {
      SecondLookFails(d, k, world);
    }
  }

  // ---------------------------------------------------------------- two short runs

  const GONE := World(map[], map[], map[Attempt(A, 1) := Mismatch(Some(Instance(7, Terminated, 0, true)))], map[])

  /** The lookup after a mismatch finds a terminated instance: the job stays queued and nobody looks at it. */
  lemma JobStranded()
    ensures var turn := Reap(Attempt(A, 1), GONE); var c := FirstJob();
      Possible(c, turn) && Sane(c, turn) && !Stranded(c, A) && Stranded(Step(c, turn), A)
  {
    var c := FirstJob();
    FirstJobLaunching();
    hide FirstJob;
    LaunchingStrands(c, Attempt(A, 1), GONE);
  }

  /** Listed by its client token, out of capacity and on its way out. */
  const LEAVING := World(map[7 := VANISHING], map[Attempt(A, 1) := 7], map[], map[])

  /** Two looks at one such instance: the first starts the fallback, the second fails its job. */
  lemma FallbackGivenUp()
    ensures var turn := Reap(Attempt(A, 1), LEAVING); var c := FirstJob();
      && Possible(c, turn) && Sane(c, turn)
      && var d := Step(c, turn);
      && Attempt(A, 2) in d.rows && Active(d.rows[Attempt(A, 2)]) && JobOpen(d.db, A)
      && Possible(d, turn) && Sane(d, turn)
      && var e := Step(d, turn);
      && A in e.db.jobs && e.db.jobs[A].state.Failed?
  {
    var c := FirstJob();
    FirstJobLaunching();
    hide FirstJob;
    FirstLook(c);
    hide ReapRow;
    SecondLookFails(ReapRow(c, Attempt(A, 1), LEAVING), Attempt(A, 1), LEAVING);
  }

  lemma FirstLook(c: Cloud)
    requires FirstLaunching(c)
    ensures var d := ReapRow(c, Attempt(A, 1), LEAVING); var k := Attempt(A, 1);
      && k in d.rows && d.rows[k].state == Seen(ShuttingDown) && d.rows[k].instance == Some(7) && 7 in d.ended
      && Attempt(A, 2) in d.rows && Active(d.rows[Attempt(A, 2)]) && JobOpen(d.db, A)
  {
    var k := Attempt(A, 1);
    var a := Adopt(c, k, VANISHING);
    var r := Refresh(a, k, LEAVING);
    var e := r.(db := W.ExpireBootstrap(r.db, r.rows[k].token));
    TableHasFallback();
    hide C.Fallback;
    var next := C.Fallback(r.settings.types, r.rows[k].instanceType);
    assert ReapRow(c, k, LEAVING) == ReapEnded(r, k, LEAVING);
    assert Launches(e, A, 2);
    LaunchUnconfirmed(e, A, 2, next.value, LEAVING);
  }
}
