/**
 The one way to exceed the limit on EC2 workers: how a row comes to rest in shutting-down
 with its job open, and a run with two active rows under a limit of one.
 */
module Ec2Overrun {
  import opened Options
  import opened Ec2Launcher
  import opened Ec2Runs
  import C = Ec2Config
  import W = WorkerManager
  import R = WorkerRuns

  /**
   Starting the first attempt of a queued job leaves it at rest, with the job open and no
   second attempt, exactly if the answer is an instance that is already shutting down.
   */
  lemma StartRestsExact(c: Cloud, j: W.JobRef, world: World)
    requires Attempt(j, 1) in c.rows && c.rows[Attempt(j, 1)].state == Launching && Attempt(j, 2) !in c.rows
    requires Startable(c.db, j) && TokenAllowed(c, j)
    ensures var d := Start(c, Attempt(j, 1), world);
      && (Rested(d, j) <==> !Leaving(world, Attempt(j, 1)))
      && (!Rested(d, j) ==> Startable(d.db, j) && ActiveRows(d.rows) == ActiveRows(c.rows) - {Attempt(j, 1)})
  {
    hide R.Closed, ActiveRows, LaunchFailed, Adopt;
    var k := Attempt(j, 1);
    var t := Issue(c, k);
    match ReplyTo(world, k) {
      case Started(i) => AdoptRests(c, t, k, i);
      case Mismatch(Some(i)) => AdoptRests(c, t, k, i);
      case NoCapacity => FailedRests(t, k, true, world);
      case Refused => FailedRests(t, k, false, world);
      case NotPrepared => FailedRests(t, k, false, world);
      case _ =>
    }
  }

  lemma AdoptRests(c: Cloud, t: Cloud, k: Attempt, i: Instance)
    requires k.number == 1 && k in t.rows && t.rows.Keys == c.rows.Keys && Attempt(k.job, 2) !in t.rows
    requires Startable(t.db, k.job) && forall a :: a != k ==> SameRow(c, t, a)
    ensures var d := Adopt(t, k, i);
      && (Rested(d, k.job) <==> !i.state.ShuttingDown?)
      && (i.state.ShuttingDown? ==> Startable(d.db, k.job) && ActiveRows(d.rows) == ActiveRows(c.rows) - {k})
  {
    var d := Adopt(t, k, i);
    forall a
      ensures i.state.ShuttingDown? ==> (a in ActiveRows(d.rows) <==> a in ActiveRows(c.rows) - {k})
    {
      assert a != k ==> SameRow(c, t, a);
    }
  }

  lemma FailedRests(c: Cloud, k: Attempt, capacity: bool, world: World)
    requires k.number == 1 && k in c.rows
    ensures Rested(LaunchFailed(c, k, capacity, world), k.job)
  {
    hide Launch, R.Closed, W.FailRemote, W.ExpireBootstrap;
    var f := c.(rows := c.rows[k := c.rows[k].(state := Failed)], db := W.ExpireBootstrap(c.db, c.rows[k].token));
    var next := C.Fallback(c.settings.types, c.rows[k].instanceType);
    if capacity && next.Some? {
      LaunchSpares(f, k.job, 2, next.value, world, k);
    }
  }

  /** A launch whose outcome is not known yet. */
  lemma LaunchUnconfirmed(c: Cloud, j: W.JobRef, n: nat, instanceType: string, world: World)
    requires Launches(c, j, n) && ReplyTo(world, Attempt(j, n)) == Transient
    requires W.BootstrapAllowed(c.db, c.settings.pool, Some(j), c.settings.bootTimeout)
    ensures Launch(c, j, n, instanceType, world) == c.(
      db := W.CreateBootstrap(c.db, c.settings.pool, Some(j), c.settings.bootTimeout),
      rows := c.rows[Attempt(j, n) := Row(instanceType, Launching, None, Some(c.db.nextId), c.db.now, None)])
  {
    var k := Attempt(j, n);
    var l := c.(rows := c.rows[k := Row(instanceType, Launching, None, None, c.db.now, None)]);
    assert Launch(c, j, n, instanceType, world) == Start(l, k, world);
  }

  // ---------------------------------------------------------------- a run that exceeds the limit

  const A := W.JobRef(W.Copy, 1)
  const B := W.JobRef(W.Copy, 2)
  const VANISHING := Instance(7, ShuttingDown, 0, true)

  function OneSlot(): Settings {
    Settings("aws", [C.Rule(Some(10), "c7gn.large"), C.Rule(None, "c7gn.4xlarge")], 1, 86400, 1200)
  }

  const SILENT := World(map[], map[], map[], map[])
  const LOST := World(map[], map[], map[Attempt(A, 1) := Mismatch(Some(VANISHING))], map[])
  const SEEN := World(map[7 := VANISHING], map[], map[], map[])

  function Queued(): Cloud {
    var queued := R.Step(R.Step(W.Init(W.Config(60, 3600)), R.Create(A, true)), R.Queue(A, "aws", None));
    Cloud(OneSlot(), queued, map[], {})
  }

  /** The first job's launch stays unconfirmed; its retry finds the instance already going away. */
  function FirstJob(): Cloud {
    var c := Step(Queued(), Dispatch(A, SILENT));
    c.(db := R.Step(c.db, R.Tick(121)))
  }

  function Rests(): Cloud {
    var c := FirstJob();
    if Possible(c, Reap(Attempt(A, 1), LOST)) then Step(c, Reap(Attempt(A, 1), LOST)) else c
  }

  function SecondQueued(): Cloud {
    var c := Rests();
    c.(db := R.Step(R.Step(c.db, R.Create(B, true)), R.Queue(B, "aws", None)))
  }

  function SecondJob(): Cloud {
    Step(SecondQueued(), Dispatch(B, SILENT))
  }

  /** The first job's only attempt is unconfirmed, and long enough for a retry. */
  predicate FirstLaunching(c: Cloud) {
    && ActiveRows(c.rows) == {Attempt(A, 1)} && c.rows.Keys == {Attempt(A, 1)}
    && c.rows[Attempt(A, 1)].state == Launching && c.rows[Attempt(A, 1)].createdAt == 0
    && c.rows[Attempt(A, 1)].instanceType == "c7gn.4xlarge"
    && c.settings == OneSlot() && Startable(c.db, A) && c.db.jobs[A].cloudToCloud
    && c.db.remote[A].pool == "aws" && c.db.now == 121 && c.db.used == {A} && c.db.remote.Keys == {A}
  }

  predicate FirstResting(c: Cloud) {
    && ActiveRows(c.rows) == {} && c.rows.Keys == {Attempt(A, 1)} && !Rested(c, A)
    && 7 in c.ended && c.rows[Attempt(A, 1)].instance == Some(7) && c.rows[Attempt(A, 1)].instanceType == "c7gn.4xlarge"
    && c.settings == OneSlot() && Startable(c.db, A) && c.db.jobs[A].cloudToCloud
    && c.db.remote[A].pool == "aws" && c.db.used == {A} && c.db.remote.Keys == {A}
  }

  lemma FirstLaunches()
    ensures var c := Queued();
      && Step(c, Dispatch(A, SILENT)) == Launch(c, A, 1, "c7gn.4xlarge", SILENT)
      && Launches(c, A, 1) && TokenAllowed(c, A)
      && c.db.now == 0 && c.db.used == {A} && c.db.remote.Keys == {A} && c.db.remote[A].pool == "aws"
  {
    hide Launch;
    var c := Queued();
    assert c.db.remote == map[A := W.RemoteJob(0, "aws", None, W.Queued, None, None, false)];
    assert ActiveRows(c.rows) == {} && Strays(c.rows, SILENT.byId) == {};
  }

  lemma FirstJobLaunching()
    ensures FirstLaunching(FirstJob())
  {
    var c := Queued();
    FirstLaunches();
    LaunchUnconfirmed(c, A, 1, "c7gn.4xlarge", SILENT);
    assert c.rows == map[] && c.settings == OneSlot();
    hide Queued, Step, Launch;
  }

  /** The retry adopts the ending instance; nothing but the row and the tokens changes. */
  lemma FirstRetried(c: Cloud)
    requires FirstLaunching(c)
    ensures var d := Start(c, Attempt(A, 1), LOST);
      && d.rows.Keys == c.rows.Keys && d.settings == c.settings
      && d.db.remote == c.db.remote && d.db.jobs == c.db.jobs && d.db.used == c.db.used
      && 7 in d.ended && d.rows[Attempt(A, 1)].instance == Some(7)
      && d.rows[Attempt(A, 1)].instanceType == c.rows[Attempt(A, 1)].instanceType
  {
    hide ActiveRows;
  }

  lemma FirstJobRests()
    ensures FirstResting(Rests())
  {
    var c := FirstJob();
    FirstJobLaunching();
    hide FirstJob;
    FirstRetried(c);
    StartRestsExact(c, A, LOST);
    assert ReapRow(c, Attempt(A, 1), LOST) == Start(c, Attempt(A, 1), LOST);
    hide Start, ReapRow, ActiveRows, Rested;
    assert Rests() == Start(c, Attempt(A, 1), LOST);
  }

  /** The first job's row rests, open and without a second attempt. */
  predicate FirstRests(c: Cloud) {
    && Attempt(A, 1) in c.rows && Attempt(A, 2) !in c.rows && !Rested(c, A)
    && 7 in c.ended && c.rows[Attempt(A, 1)].instance == Some(7) && c.rows[Attempt(A, 1)].instanceType == "c7gn.4xlarge"
    && c.settings == OneSlot() && Startable(c.db, A) && c.db.jobs[A].cloudToCloud && c.db.remote[A].pool == "aws"
  }

  predicate SecondWaits(c: Cloud) {
    && FirstRests(c) && ActiveRows(c.rows) == {} && c.rows.Keys == {Attempt(A, 1)}
    && Startable(c.db, B) && c.db.jobs[B].cloudToCloud && c.db.remote[B].pool == "aws"
    && c.db.remote[B].sourceBytes == None
  }

  lemma SecondJobWaits()
    ensures SecondWaits(SecondQueued())
  {
    FirstJobRests();
    hide Rests;
  }

  lemma SecondLaunches(c: Cloud)
    requires SecondWaits(c)
    ensures Step(c, Dispatch(B, SILENT)) == Launch(c, B, 1, "c7gn.4xlarge", SILENT)
  {
    assert TypeFor(c, B) == "c7gn.4xlarge";
    assert Strays(c.rows, SILENT.byId) == {};
    assert !HasRow(c, B);
  }

  lemma SecondTakesSlot(c: Cloud)
    requires SecondWaits(c)
    ensures var d := Step(c, Dispatch(B, SILENT)); FirstRests(d) && ActiveRows(d.rows) == {Attempt(B, 1)}
  {
    SecondLaunches(c);
    LaunchUnconfirmed(c, B, 1, "c7gn.4xlarge", SILENT);
    hide Step, Launch;
    var d := Step(c, Dispatch(B, SILENT));
    assert ActiveRows(d.rows) == ActiveRows(c.rows) + {Attempt(B, 1)};
  }

  lemma TableHasFallback()
    ensures C.Fallback(OneSlot().types, "c7gn.4xlarge").Some?
  {
    C.FallbackIsAnother(OneSlot().types, "c7gn.4xlarge");
    assert OneSlot().types[0].instanceType == "c7gn.large";
  }

  lemma FallbackTakesSlotToo(c: Cloud)
    requires FirstRests(c) && ActiveRows(c.rows) == {Attempt(B, 1)}
    ensures ActiveRows(ReapRow(c, Attempt(A, 1), SEEN).rows) == {Attempt(B, 1), Attempt(A, 2)}
  {
    TableHasFallback();
    hide C.Fallback;
    RestingRowExact(c, Attempt(A, 1), SEEN);
  }

  /** With one slot, that lookup and a listing later two instances are being paid for. */
  lemma LimitExceeded()
    ensures var c := SecondJob();
      && Possible(c, Reap(Attempt(A, 1), SEEN)) && Sane(c, Reap(Attempt(A, 1), SEEN))
      && |ActiveRows(Step(c, Reap(Attempt(A, 1), SEEN)).rows)| > c.settings.maxWorkers
  {
    hide Rests, SecondQueued, ReapRow, DispatchJob;
    SecondJobWaits();
    SecondTakesSlot(SecondQueued());
    FallbackTakesSlotToo(SecondJob());
  }
}
