/**
 The temporary EC2 workers of ec2_launcher.py: one row per launch attempt of an instance
 for one queued job, at most `maxWorkers` rows that may still cost money, one fallback to
 another instance type, and a reaper that ends rows and fails jobs.

 EC2 is the environment: what it lists, and how it answers RunInstances and
 TerminateInstances, are parameters. The functions give the state after each call; class
 `Launcher` makes the calls against a worker manager and is proved against them.
 */
module Ec2Launcher {
  import opened Options
  import C = Ec2Config
  import W = WorkerManager

  datatype InstanceState = Pending | Running | Stopping | Stopped | ShuttingDown | Terminated

  /** Launching: RunInstances not confirmed. Seen: EC2's state as last seen. Failed: no instance. */
  datatype RowState = Launching | Seen(instance: InstanceState) | Failed

  /** Rows are unique by job and attempt, and so are RunInstances' client tokens. */
  datatype Attempt = Attempt(job: W.JobRef, number: nat)

  datatype Row = Row(
    instanceType: string, state: RowState, instance: Option<nat>, token: Option<nat>,
    createdAt: int, launchedAt: Option<int>)

  datatype Settings = Settings(
    pool: string, types: seq<C.Rule>, maxWorkers: nat, maxRuntime: int, bootTimeout: int)

  /** `capacity`: EC2's state reason says that the type had no capacity. */
  datatype Instance = Instance(id: nat, state: InstanceState, launchedAt: int, capacity: bool)

  datatype RunReply =
    | Started(instance: Instance)
    | Mismatch(found: Option<Instance>)  // the client token was used before; what a lookup by it finds
    | NoCapacity
    | Transient                          // also a network error: the reaper tries again
    | Refused
    | NotPrepared                        // the user data could not be built, nothing was sent

  /** One pass over EC2: the listing taken at its start, and the answers during it. */
  datatype World = World(
    byId: map<nat, Instance>, byToken: map<Attempt, nat>,
    replies: map<Attempt, RunReply>, terminations: map<Attempt, Option<InstanceState>>)

  /** `ended`: instances EC2 has ever reported as shutting down or terminated. */
  datatype Cloud = Cloud(settings: Settings, db: W.Db, rows: map<Attempt, Row>, ended: set<nat>)

  const RETRY_AFTER := 120
  const GONE_AFTER := 600

  predicate Alive(s: InstanceState) {
    s == Pending || s == Running || s == Stopping || s == Stopped
  }

  /** Rows that count against the limit. */
  predicate Active(row: Row) {
    row.state == Launching || (row.state.Seen? && Alive(row.state.instance))
  }

  /** Rows the reaper looks at. */
  predicate Open(row: Row) {
    Active(row) || row.state == Seen(ShuttingDown)
  }

  function ActiveRows(rows: map<Attempt, Row>): set<Attempt> {
    set k | k in rows && Active(rows[k])
  }

  function KnownInstances(rows: map<Attempt, Row>): set<nat> {
    set k | k in rows && rows[k].instance.Some? :: rows[k].instance.value
  }

  /** Listed instances that are alive and belong to no row. */
  function Strays(rows: map<Attempt, Row>, byId: map<nat, Instance>): set<nat> {
    (set i | i in byId && Alive(byId[i].state)) - KnownInstances(rows)
  }

  /** _active_count */
  function ActiveCount(c: Cloud, world: World): nat {
    |ActiveRows(c.rows)| + |Strays(c.rows, world.byId)|
  }

  function ReplyTo(world: World, k: Attempt): RunReply {
    if k in world.replies then world.replies[k] else Transient
  }

  // ---------------------------------------------------------------- launching

  predicate Startable(db: W.Db, j: W.JobRef) {
    && j in db.remote && db.remote[j].phase == W.Queued
    && j in db.jobs && db.jobs[j].state == W.Progress
  }

  /** launch returns a row. */
  predicate Launches(c: Cloud, j: W.JobRef, n: nat) {
    Startable(c.db, j) && c.db.jobs[j].cloudToCloud && Attempt(j, n) !in c.rows
  }

  function Launch(c: Cloud, j: W.JobRef, n: nat, instanceType: string, world: World): Cloud
    decreases if n == 1 then 1 else 0, 2
  {
    if !Startable(c.db, j) then c
    else if !c.db.jobs[j].cloudToCloud then c.(db := W.FailRemote(c.db, j))
    else if Attempt(j, n) in c.rows then c
    else Start(c.(rows := c.rows[Attempt(j, n) := Row(instanceType, Launching, None, None, c.db.now, None)]),
               Attempt(j, n), world)
  }

  function Adopt(c: Cloud, k: Attempt, i: Instance): Cloud
    requires k in c.rows
  {
    c.(rows := c.rows[k := c.rows[k].(instance := Some(i.id), state := Seen(i.state),
                launchedAt := Some(i.launchedAt))],
       ended := c.ended + if Alive(i.state) then {} else {i.id})
  }

  /** A new bootstrap token for the attempt; the one of an earlier try dies. */
  function Issue(c: Cloud, k: Attempt): Cloud
    requires k in c.rows
  {
    var db := W.ExpireBootstrap(c.db, c.rows[k].token);
    if W.BootstrapAllowed(db, c.settings.pool, Some(k.job), c.settings.bootTimeout) then
      c.(db := W.CreateBootstrap(db, c.settings.pool, Some(k.job), c.settings.bootTimeout),
         rows := c.rows[k := c.rows[k].(token := Some(db.nextId))])
    else c.(db := db, rows := c.rows[k := c.rows[k].(state := Failed)])
  }

  predicate Issues(c: Cloud, k: Attempt)
    requires k in c.rows
  {
    W.BootstrapAllowed(W.ExpireBootstrap(c.db, c.rows[k].token), c.settings.pool, Some(k.job), c.settings.bootTimeout)
  }

  function Start(c: Cloud, k: Attempt, world: World): Cloud
    requires k in c.rows
    decreases if k.number == 1 then 1 else 0, 1
  {
    var t := Issue(c, k);
    if !Issues(c, k) then t else
      match ReplyTo(world, k)
      case Started(i) => Adopt(t, k, i)
      case Mismatch(Some(i)) => Adopt(t, k, i)
      case Mismatch(None) => t
      case Transient => t
      case NoCapacity => LaunchFailed(t, k, true, world)
      case Refused => LaunchFailed(t, k, false, world)
      case NotPrepared => LaunchFailed(t, k, false, world)
  }

  function LaunchFailed(c: Cloud, k: Attempt, capacity: bool, world: World): Cloud
    requires k in c.rows
    decreases if k.number == 1 then 1 else 0, 0
  {
    var f := c.(rows := c.rows[k := c.rows[k].(state := Failed)], db := W.ExpireBootstrap(c.db, c.rows[k].token));
    var next := C.Fallback(c.settings.types, c.rows[k].instanceType);
    if capacity && k.number == 1 && next.Some? then
      var l := Launch(f, k.job, 2, next.value, world);
      if Launches(f, k.job, 2) then l else l.(db := W.FailRemote(l.db, k.job))
    else f.(db := W.FailRemote(f.db, k.job))
  }

  predicate HasRow(c: Cloud, j: W.JobRef) {
    exists k :: k in c.rows && k.job == j
  }

  function TypeFor(c: Cloud, j: W.JobRef): string {
    if c.settings.types == [] then ""
    else C.Chosen(c.settings.types, if j in c.db.remote then c.db.remote[j].sourceBytes else None)
  }

  /** One turn of dispatch's loop; the loop ends at the first turn without a free slot. */
  function DispatchJob(c: Cloud, j: W.JobRef, world: World): Cloud {
    if ActiveCount(c, world) >= c.settings.maxWorkers || HasRow(c, j) then c
    else Launch(c, j, 1, TypeFor(c, j), world)
  }

  function DispatchAll(c: Cloud, queued: seq<W.JobRef>, world: World): Cloud
    decreases |queued|
  {
    if queued == [] || ActiveCount(c, world) >= c.settings.maxWorkers then c
    else DispatchAll(DispatchJob(c, queued[0], world), queued[1..], world)
  }

  // ---------------------------------------------------------------- reaping

  predicate JobOpen(db: W.Db, j: W.JobRef) {
    j in db.remote && db.remote[j].phase != W.Done && j in db.jobs && db.jobs[j].state == W.Progress
  }

  /** A launching row whose instance is not listed. */
  function ReapLaunching(c: Cloud, k: Attempt, world: World): Cloud
    requires k in c.rows
  {
    var row := c.rows[k];
    if !JobOpen(c.db, k.job)
    then c.(rows := c.rows[k := row.(state := Failed)], db := W.ExpireBootstrap(c.db, row.token))
    else if c.db.now - row.createdAt > c.settings.bootTimeout then LaunchFailed(c, k, false, world)
    else if c.db.now - row.createdAt > RETRY_AFTER then Start(c, k, world)
    else c
  }

  /** The row's state brought up to date with the listing. */
  function Refresh(c: Cloud, k: Attempt, world: World): Cloud
    requires k in c.rows && c.rows[k].instance.Some?
  {
    var row := c.rows[k];
    var i := row.instance.value;
    if i in world.byId then
      c.(rows := c.rows[k := row.(state := Seen(world.byId[i].state))],
         ended := c.ended + if Alive(world.byId[i].state) then {} else {i})
    else if row.launchedAt.None? || c.db.now - row.launchedAt.value > GONE_AFTER then
      c.(rows := c.rows[k := row.(state := Seen(Terminated))])
    else c
  }

  function Runtime(c: Cloud, row: Row): int {
    c.db.now - if row.launchedAt.Some? then row.launchedAt.value else row.createdAt
  }

  /** Why a living instance is terminated although its job is open. */
  predicate Fails(c: Cloud, k: Attempt)
    requires k in c.rows && JobOpen(c.db, k.job)
  {
    var row := c.rows[k];
    || row.state == Seen(Stopping) || row.state == Seen(Stopped)
    || Runtime(c, row) > c.settings.maxRuntime
    || (c.db.remote[k.job].phase == W.Queued && Runtime(c, row) > c.settings.bootTimeout)
  }

  function Terminate(c: Cloud, k: Attempt, world: World): Cloud
    requires k in c.rows && c.rows[k].instance.Some?
  {
    if k in world.terminations && world.terminations[k].Some? then
      var s := world.terminations[k].value;
      c.(rows := c.rows[k := c.rows[k].(state := Seen(s))],
         ended := c.ended + if Alive(s) then {} else {c.rows[k].instance.value})
    else c
  }

  function ReapAlive(c: Cloud, k: Attempt, world: World): Cloud
    requires k in c.rows && c.rows[k].instance.Some?
  {
    if !JobOpen(c.db, k.job) then Terminate(c, k, world)
    else if Fails(c, k) then
      var t := Terminate(c, k, world);
      t.(db := W.FailRemote(W.ExpireBootstrap(t.db, c.rows[k].token), k.job))
    else c
  }

  predicate LacksCapacity(c: Cloud, k: Attempt, world: World)
    requires k in c.rows
  {
    && c.rows[k].instance.Some? && c.rows[k].instance.value in world.byId
    && world.byId[c.rows[k].instance.value].capacity
  }

  function ReapEnded(c: Cloud, k: Attempt, world: World): Cloud
    requires k in c.rows
  {
    var e := c.(db := W.ExpireBootstrap(c.db, c.rows[k].token));
    if !JobOpen(c.db, k.job) then e
    else
      var next := C.Fallback(c.settings.types, c.rows[k].instanceType);
      if c.db.remote[k.job].phase == W.Queued && LacksCapacity(c, k, world) && k.number == 1 && next.Some? then
        var l := Launch(e, k.job, 2, next.value, world);
        if Launches(e, k.job, 2) then l else l.(db := W.FailRemote(l.db, k.job))
      else e.(db := W.FailRemote(e.db, k.job))
  }

  function ReapSeen(c: Cloud, k: Attempt, world: World): Cloud
    requires k in c.rows && c.rows[k].instance.Some?
  {
    var r := Refresh(c, k, world);
    if Active(r.rows[k]) then ReapAlive(r, k, world) else ReapEnded(r, k, world)
  }

  predicate Listed(world: World, k: Attempt) {
    k in world.byToken && world.byToken[k] in world.byId
  }

  /** A row in a state other than launching or failed has an instance. */
  predicate HasInstance(c: Cloud, k: Attempt) {
    k in c.rows && c.rows[k].state.Seen? ==> c.rows[k].instance.Some?
  }

  /** _reap_row */
  function ReapRow(c: Cloud, k: Attempt, world: World): Cloud
    requires k in c.rows && HasInstance(c, k) && c.rows[k].state != Failed
  {
    if c.rows[k].state != Launching then ReapSeen(c, k, world)
    else if !Listed(world, k) then ReapLaunching(c, k, world)
    else ReapSeen(Adopt(c, k, world.byId[world.byToken[k]]), k, world)
  }

  predicate Reapable(c: Cloud, k: Attempt) {
    k in c.rows && Open(c.rows[k]) && HasInstance(c, k)
  }

  /** The loop of reap over the open rows it found; no turn touches another turn's row (ReapSpares). */
  function ReapAll(c: Cloud, ks: seq<Attempt>, world: World): Cloud
    decreases |ks|
  {
    if ks == [] then c
    else ReapAll(if Reapable(c, ks[0]) then ReapRow(c, ks[0], world) else c, ks[1..], world)
  }

  // ---------------------------------------------------------------- frames

  /** Rows other than `k` that `c` already had. */
  predicate Spares(c: Cloud, d: Cloud, k: Attempt) {
    k in d.rows && forall a :: a in c.rows && a != k ==> a in d.rows && d.rows[a] == c.rows[a]
  }

  lemma LaunchSpares(c: Cloud, j: W.JobRef, n: nat, instanceType: string, world: World, k: Attempt)
    requires k in c.rows
    ensures Spares(c, Launch(c, j, n, instanceType, world), k)
    ensures k != Attempt(j, n) ==> Launch(c, j, n, instanceType, world).rows[k] == c.rows[k]
    decreases if n == 1 then 1 else 0, 2
  {
    var a := Attempt(j, n);
    if Startable(c.db, j) && c.db.jobs[j].cloudToCloud && a !in c.rows {
      StartSpares(c.(rows := c.rows[a := Row(instanceType, Launching, None, None, c.db.now, None)]), a, world);
    }
  }

  lemma StartSpares(c: Cloud, k: Attempt, world: World)
    requires k in c.rows
    ensures Spares(c, Start(c, k, world), k)
    decreases if k.number == 1 then 1 else 0, 1
  {
    LaunchFailedSpares(Issue(c, k), k, ReplyTo(world, k) == NoCapacity, world);
  }

  lemma LaunchFailedSpares(c: Cloud, k: Attempt, capacity: bool, world: World)
    requires k in c.rows
    ensures Spares(c, LaunchFailed(c, k, capacity, world), k)
    decreases if k.number == 1 then 1 else 0, 0
  {
    var f := c.(rows := c.rows[k := c.rows[k].(state := Failed)], db := W.ExpireBootstrap(c.db, c.rows[k].token));
    var next := C.Fallback(c.settings.types, c.rows[k].instanceType);
    if capacity && k.number == 1 && next.Some? {
      LaunchSpares(f, k.job, 2, next.value, world, k);
    }
  }

  lemma ReapAliveSpares(c: Cloud, k: Attempt, world: World)
    requires k in c.rows && c.rows[k].instance.Some?
    ensures Spares(c, ReapAlive(c, k, world), k)
  {
    hide W.FailRemote, W.ExpireBootstrap, Fails;
  }

  lemma ReapEndedSpares(c: Cloud, k: Attempt, world: World)
    requires k in c.rows
    ensures Spares(c, ReapEnded(c, k, world), k)
  {
    hide W.FailRemote, W.ExpireBootstrap, Launch, LacksCapacity, C.Fallback;
    var e := c.(db := W.ExpireBootstrap(c.db, c.rows[k].token));
    var next := C.Fallback(c.settings.types, c.rows[k].instanceType);
    if next.Some? { LaunchSpares(e, k.job, 2, next.value, world, k); }
  }

  lemma ReapSeenSpares(c: Cloud, k: Attempt, world: World)
    requires k in c.rows && c.rows[k].instance.Some?
    ensures Spares(c, ReapSeen(c, k, world), k)
  {
    hide ReapAlive, ReapEnded;
    var r := Refresh(c, k, world);
    if Active(r.rows[k]) {
      ReapAliveSpares(r, k, world);
    } else {
      ReapEndedSpares(r, k, world);
    }
  }

  lemma ReapSpares(c: Cloud, k: Attempt, world: World)
    requires Reapable(c, k)
    ensures Spares(c, ReapRow(c, k, world), k)
  {
    if c.rows[k].state != Launching {
      ReapSeenSpares(c, k, world);
    } else if Listed(world, k) {
      ReapSeenSpares(Adopt(c, k, world.byId[world.byToken[k]]), k, world);
    } else {
      LaunchFailedSpares(c, k, false, world);
      StartSpares(c, k, world);
    }
  }

  // ---------------------------------------------------------------- the launcher

  class Launcher {
    const settings: Settings
    const manager: W.Manager
    var rows: map<Attempt, Row>
    ghost var ended: set<nat>

    ghost function Snapshot(): Cloud
      reads this, manager
    {
      Cloud(settings, manager.Snapshot(), rows, ended)
    }

    constructor (settings: Settings, manager: W.Manager)
      ensures this.settings == settings && this.manager == manager
      ensures Snapshot() == Cloud(settings, manager.Snapshot(), map[], {})
    {
      this.settings := settings;
      this.manager := manager;
      rows := map[];
      ended := {};
    }

    method Note(i: nat, s: InstanceState)
      modifies this`ended
      ensures ended == old(ended) + if Alive(s) then {} else {i}
    {
      ended := ended + if Alive(s) then {} else {i};
    }

    /** launch; false where the original returns None */
    method LaunchFor(j: W.JobRef, n: nat, instanceType: string, world: World) returns (launched: bool)
      modifies this, manager
      ensures launched == Launches(old(Snapshot()), j, n)
      ensures Snapshot() == Launch(old(Snapshot()), j, n, instanceType, world)
      decreases if n == 1 then 1 else 0, 2
    {
      var k := Attempt(j, n);
      if j !in manager.jobs || manager.jobs[j].state != W.Progress
         || j !in manager.remote || manager.remote[j].phase != W.Queued {
        return false;
      }
      if !manager.jobs[j].cloudToCloud {
        manager.FailRemoteJob(j);
        return false;
      }
      if k in rows {
        return false; // this attempt exists already
      }
      rows := rows[k := Row(instanceType, Launching, None, None, manager.now, None)];
      StartRow(k, world);
      return true;
    }

    method AdoptInstance(k: Attempt, i: Instance)
      requires k in rows
      modifies this
      ensures Snapshot() == Adopt(old(Snapshot()), k, i)
    {
      rows := rows[k := rows[k].(instance := Some(i.id), state := Seen(i.state), launchedAt := Some(i.launchedAt))];
      Note(i.id, i.state);
    }

    method IssueToken(k: Attempt) returns (issued: bool)
      requires k in rows
      modifies this`rows, manager
      ensures issued == Issues(old(Snapshot()), k)
      ensures Snapshot() == Issue(old(Snapshot()), k)
    {
      manager.ExpireBootstrapToken(rows[k].token); // of an earlier try
      var token := manager.CreateBootstrapToken(settings.pool, Some(k.job), settings.bootTimeout);
      issued := token.Some?;
      rows := rows[k := if issued then rows[k].(token := token) else rows[k].(state := Failed)];
    }

    /** _start */
    method StartRow(k: Attempt, world: World)
      requires k in rows
      modifies this, manager
      ensures Snapshot() == Start(old(Snapshot()), k, world)
      decreases if k.number == 1 then 1 else 0, 1
    {
      hide LaunchFailed, Adopt, Launch;
      var issued := IssueToken(k);
      if !issued {
        return;
      }
      match ReplyTo(world, k) {
        case Started(i) => AdoptInstance(k, i);
        case Mismatch(found) =>
          if found.Some? {
            AdoptInstance(k, found.value);
          }
        case Transient =>
        case NoCapacity => FailLaunch(k, true, world);
        case Refused => FailLaunch(k, false, world);
        case NotPrepared => FailLaunch(k, false, world);
      }
    }

    /** _launch_failed */
    method FailLaunch(k: Attempt, capacity: bool, world: World)
      requires k in rows
      modifies this, manager
      ensures Snapshot() == LaunchFailed(old(Snapshot()), k, capacity, world)
      decreases if k.number == 1 then 1 else 0, 0
    {
      rows := rows[k := rows[k].(state := Failed)];
      manager.ExpireBootstrapToken(rows[k].token);
      if capacity && k.number == 1 {
        var next := C.FallbackInstanceType(settings.types, rows[k].instanceType);
        if next.Some? {
          var launched := LaunchFor(k.job, 2, next.value, world);
          if launched {
            return;
          }
        }
      }
      manager.FailRemoteJob(k.job);
    }

    /** dispatch's loop over the queued jobs of the pool */
    method Dispatch(queued: seq<W.JobRef>, world: World)
      modifies this, manager
      ensures Snapshot() == DispatchAll(old(Snapshot()), queued, world)
    {
      hide Launch, Launches, C.Chosen, W.FailRemote;
      for n := 0 to |queued|
        invariant DispatchAll(Snapshot(), queued[n..], world) == DispatchAll(old(Snapshot()), queued, world)
      {
        var j := queued[n];
        assert queued[n..][1..] == queued[n+1..];
        if |ActiveRows(rows)| + |Strays(rows, world.byId)| >= settings.maxWorkers {
          return;
        }
        if exists k :: k in rows && k.job == j {
          continue; // never launched twice from here
        }
        var instanceType := "";
        if settings.types != [] {
          instanceType := C.ChooseInstanceType(settings.types,
            if j in manager.remote then manager.remote[j].sourceBytes else None);
        }
        var _ := LaunchFor(j, 1, instanceType, world);
      }
    }

    predicate IsOpen(j: W.JobRef)
      reads this, manager
    {
      j in manager.remote && manager.remote[j].phase != W.Done
      && j in manager.jobs && manager.jobs[j].state == W.Progress
    }

    method ReapLaunchingRow(k: Attempt, world: World)
      requires k in rows
      modifies this, manager
      ensures Snapshot() == ReapLaunching(old(Snapshot()), k, world)
    {
      var age := manager.now - rows[k].createdAt;
      if !IsOpen(k.job) {
        rows := rows[k := rows[k].(state := Failed)];
        manager.ExpireBootstrapToken(rows[k].token);
      } else if age > settings.bootTimeout {
        FailLaunch(k, false, world);
      } else if age > RETRY_AFTER {
        StartRow(k, world);
      }
    }

    method RefreshRow(k: Attempt, world: World)
      requires k in rows && rows[k].instance.Some?
      modifies this
      ensures Snapshot() == Refresh(old(Snapshot()), k, world)
    {
      var i := rows[k].instance.value;
      if i in world.byId {
        rows := rows[k := rows[k].(state := Seen(world.byId[i].state))];
        Note(i, world.byId[i].state);
      } else if rows[k].launchedAt.None? || manager.now - rows[k].launchedAt.value > GONE_AFTER {
        rows := rows[k := rows[k].(state := Seen(Terminated))]; // no longer listed by EC2
      }
    }

    /** The living half of _reap_row */
    method ReapAliveRow(k: Attempt, world: World)
      requires k in rows && rows[k].instance.Some?
      modifies this, manager
      ensures Snapshot() == ReapAlive(old(Snapshot()), k, world)
    {
      var runtime := manager.now - if rows[k].launchedAt.Some? then rows[k].launchedAt.value else rows[k].createdAt;
      var terminate, failure := false, false;
      if !IsOpen(k.job) {
        terminate := true;
      } else if rows[k].state == Seen(Stopping) || rows[k].state == Seen(Stopped) {
        terminate, failure := true, true;
      } else if runtime > settings.maxRuntime {
        terminate, failure := true, true;
      } else if manager.remote[k.job].phase == W.Queued && runtime > settings.bootTimeout {
        terminate, failure := true, true;
      }
      if terminate {
        var token := rows[k].token;
        TerminateRow(k, world);
        if failure {
          manager.ExpireBootstrapToken(token);
          manager.FailRemoteJob(k.job);
        }
      }
    }

    method TerminateRow(k: Attempt, world: World)
      requires k in rows && rows[k].instance.Some?
      modifies this
      ensures Snapshot() == Terminate(old(Snapshot()), k, world)
    {
      if k in world.terminations && world.terminations[k].Some? {
        rows := rows[k := rows[k].(state := Seen(world.terminations[k].value))];
        Note(rows[k].instance.value, world.terminations[k].value);
      }
    }

    /** The other half: the instance is shutting down or terminated */
    method ReapEndedRow(k: Attempt, world: World)
      requires k in rows
      modifies this, manager
      ensures Snapshot() == ReapEnded(old(Snapshot()), k, world)
    {
      manager.ExpireBootstrapToken(rows[k].token);
      if !IsOpen(k.job) {
        return;
      }
      if manager.remote[k.job].phase == W.Queued {
        var capacity := rows[k].instance.Some? && rows[k].instance.value in world.byId
                        && world.byId[rows[k].instance.value].capacity;
        if capacity && k.number == 1 {
          var next := C.FallbackInstanceType(settings.types, rows[k].instanceType);
          if next.Some? {
            var launched := LaunchFor(k.job, 2, next.value, world);
            if launched {
              return;
            }
          }
        }
      }
      manager.FailRemoteJob(k.job);
    }

    /** _reap_row */
    method ReapOne(k: Attempt, world: World)
      requires Reapable(Snapshot(), k)
      modifies this, manager
      ensures Snapshot() == ReapRow(old(Snapshot()), k, world)
    {
      if rows[k].state == Launching {
        if !Listed(world, k) {
          ReapLaunchingRow(k, world);
          return;
        }
        AdoptInstance(k, world.byId[world.byToken[k]]);
      }
      RefreshRow(k, world);
      if Active(rows[k]) {
        ReapAliveRow(k, world);
      } else {
        ReapEndedRow(k, world);
      }
    }

    /** The loop of reap; `open` are the open rows the query found. */
    method Reap(open: seq<Attempt>, world: World)
      requires forall n :: 0 <= n < |open| ==> Reapable(Snapshot(), open[n])
      requires forall m, n :: 0 <= m < n < |open| ==> open[m] != open[n]
      modifies this, manager
      ensures Snapshot() == ReapAll(old(Snapshot()), open, world)
    {
      for n := 0 to |open|
        invariant ReapAll(Snapshot(), open[n..], world) == ReapAll(old(Snapshot()), open, world)
        invariant forall m :: n <= m < |open| ==> Reapable(Snapshot(), open[m])
      {
        assert open[n..][1..] == open[n+1..];
        ReapSpares(Snapshot(), open[n], world);
        ReapOne(open[n], world);
      }
    }
  }
}
