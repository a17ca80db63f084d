/**
 Whole runs of the remote-job protocol: any interleaving of users, workers (which may
 retry, go silent or present old tickets), lease sweeps, administrators and the clock.
 */
module WorkerRuns {
  import opened Options
  import opened WorkerManager

  datatype Event =
    | Tick(seconds: nat)
    | Create(job: JobRef, cloudToCloud: bool)
    | Queue(job: JobRef, pool: string, sourceBytes: Option<nat>)
    | QueueFailed(job: JobRef)
    | Delete(job: JobRef)
    | NewWorker(pool: string)
    | NewToken(pool: string, bound: Option<JobRef>, ttl: int)
    | SignIn(token: nat)
    | DropToken(dropped: Option<nat>)
    | Pick(worker: nat, kinds: set<JobKind>, skip: set<JobRef>, job: JobRef)
    | Cas(worker: nat, job: JobRef, prepared: bool)
    | Report(worker: nat, job: JobRef, ticket: nat)
    | Finish(worker: nat, job: JobRef, ticket: nat, reported: JobState, trees: bool)
    | Broker(job: JobRef, secret: nat, connected: bool)
    | SweepLeases(skip: set<JobRef>)
    | RevokeBy(worker: nat)
    | StopFirst(job: JobRef)
    | StopReads(job: JobRef)
    | StopWrites(job: JobRef)
    | FailBy(job: JobRef)

  function Step(db: Db, e: Event): Db {
    match e
    case Tick(seconds) => db.(now := db.now + seconds)
    case Create(j, c) => CreateJob(db, j, c)
    case Queue(j, pool, size) => QueueJob(db, j, pool, size)
    case QueueFailed(j) => QueueFails(db, j)
    case Delete(j) => db.(jobs := db.jobs - {j})
    case NewWorker(pool) => AddWorker(db, pool)
    case NewToken(pool, bound, ttl) => CreateBootstrap(db, pool, bound, ttl)
    case SignIn(t) => Exchange(db, t)
    case DropToken(t) => ExpireBootstrap(db, t)
    case Pick(w, kinds, skip, j) => Select(db, w, kinds, skip, j)
    case Cas(w, j, prepared) => TryClaim(db, w, j, prepared)
    case Report(w, j, t) => ProgressCall(db, w, j, t)
    case Finish(w, j, t, state, trees) => FinishCall(db, w, j, t, state, trees)
    case Broker(j, s, connected) => db
    case SweepLeases(skip) => Sweep(db, skip)
    case RevokeBy(w) => Revoke(db, w)
    case StopFirst(j) => RequestStop(db, j)
    case StopReads(j) => ReadForStop(db, j)
    case StopWrites(j) => WriteStop(db, j)
    case FailBy(j) => FailRemote(db, j)
  }

  function Run(db: Db, es: seq<Event>): Db
    decreases |es|
  {
    if es == [] then db else Run(Step(db, es[0]), es[1..])
  }

  /** A worker's call on behalf of job `j` that the server grants. */
  predicate Accepts(db: Db, e: Event, j: JobRef) {
    match e
    case Report(w, k, t) => k == j && TicketReply(db, w, k, t) == Granted
    case Finish(w, k, t, state, trees) => k == j && FinishReply(db, w, k, t, state, trees) == Granted
    case Broker(k, s, connected) => k == j && BrokerGranted(db, k, s, connected)
    case _ => false
  }

  // ---------------------------------------------------------------- the invariant

  predicate Unfinished(state: JobState) {
    state == Progress || state == Stopped
  }

  predicate ClaimOk(db: Db, j: JobRef, row: RemoteJob, claim: Claim) {
    && claim.worker in db.workers
    && db.workers[claim.worker].pool == row.pool
    && (db.workers[claim.worker].bound.Some? ==> db.workers[claim.worker].bound.value == j)
    && claim.claimedAt <= db.now
    && claim.ticketEnds == claim.claimedAt + db.cfg.ticketSeconds
    && claim.leaseEnds <= db.now + db.cfg.leaseSeconds
    && (row.phase == Done && db.workers[claim.worker].ephemeral && db.workers[claim.worker].bound.Some? ==>
          db.workers[claim.worker].revokedAt.Some?)
  }

  predicate RowOk(db: Db, j: JobRef, row: RemoteJob) {
    && row.id < db.nextId
    && (row.phase == Running <==> row.broker.Some?)
    && (row.phase == Running ==> row.claim.Some?)
    && (row.phase == Queued ==> row.claim.None? && !row.stopRequested)
    && (row.claim.Some? ==> ClaimOk(db, j, row, row.claim.value))
  }

  /**
   What holds of every job: one mail exactly when its remote run finished or failed, even if a late
   stop has hidden that; a job that is over without a row could not be queued.
   */
  predicate JobOk(db: Db, j: JobRef) {
    && (j in db.jobs || j in db.remote ==> j in db.used)
    && (j in db.jobs && db.jobs[j].creating ==> Unfinished(db.jobs[j].state) && j !in db.remote)
    && (j in db.mail ==> j in db.remote && db.mail[j] == 1)
    && (j in db.remote ==> RowOk(db, j, db.remote[j]))
    && (j in db.jobs && j in db.remote ==> (j in db.mail <==> !Unfinished(db.jobs[j].state) || j in db.overwritten))
    && (j in db.jobs && j !in db.remote && !Unfinished(db.jobs[j].state) ==> db.jobs[j].state == Failed)
    && OverwrittenOk(db, j)
  }

  predicate OverwrittenOk(db: Db, j: JobRef) {
    j in db.overwritten ==>
      && j in db.used && (j in db.remote ==> db.remote[j].phase == Done)
      && (j in db.jobs ==> db.jobs[j].state == Stopped && !db.jobs[j].creating)
  }

  /** While its row has not ended, a job is in progress or stopped. */
  predicate OpenOk(db: Db, j: JobRef) {
    j in db.remote && j in db.jobs && db.remote[j].phase != Done ==> Unfinished(db.jobs[j].state)
  }

  predicate SelectOk(db: Db, w: nat, j: JobRef) {
    (w, j) in db.selected ==>
      && w in db.workers && j in db.remote && db.workers[w].pool == db.remote[j].pool
      && (db.workers[w].bound.Some? ==> db.workers[w].bound.value == j)
  }

  /** An exchanged bootstrap token made the one worker that carries its number. */
  predicate TokenOk(db: Db, t: nat) {
    && (t in db.workers || t in db.bootstraps ==> t < db.nextId)
    && (t in db.bootstraps && db.bootstraps[t].worker.Some? ==>
          var w := db.bootstraps[t].worker.value;
          && db.bootstraps[t].usedAt.Some? && w in db.workers && w < db.nextId
          && db.workers[w].token == Some(t)
          && db.workers[w].pool == db.bootstraps[t].pool && db.workers[w].bound == db.bootstraps[t].bound)
  }

  ghost predicate Base(db: Db) {
    && (forall j :: JobOk(db, j))
    && (forall w, j :: SelectOk(db, w, j))
    && (forall t :: TokenOk(db, t))
  }

  ghost predicate Inv(db: Db) {
    Base(db) && forall j :: OpenOk(db, j)
  }

  // ---------------------------------------------------------------- what a run never undoes

  function Rank(p: Phase): nat {
    match p case Queued => 0 case Running => 1 case Done => 2
  }

  predicate SameClaim(a: Claim, b: Claim) {
    b.(leaseEnds := a.leaseEnds) == a
  }

  predicate RowEvolves(a: RemoteJob, b: RemoteJob, now: int) {
    && a.id == b.id && a.pool == b.pool && a.sourceBytes == b.sourceBytes && Rank(a.phase) <= Rank(b.phase)
    && (a.claim.Some? ==> b.claim.Some? && SameClaim(a.claim.value, b.claim.value))
    && (a.phase == Done ==> a == b) && (a.stopRequested ==> b.stopRequested)
    && (a.claim.Some? && Overdue(a.claim.value, now) ==> b.claim == a.claim)
  }

  predicate JobEvolves(a: Db, b: Db, j: JobRef) {
    && (j in a.used || j in a.jobs ==> j in b.used)
    && a.mail[j] <= b.mail[j]
    && (j in a.remote ==> j in b.remote && RowEvolves(a.remote[j], b.remote[j], a.now))
    && (j in a.used && j !in a.jobs ==> j !in b.jobs)
    && (j in a.jobs && j in b.jobs && !a.jobs[j].creating ==>
          && !b.jobs[j].creating && (j in b.remote ==> j in a.remote)
          && (a.jobs[j].state != Progress ==> b.jobs[j] == a.jobs[j] || Hidden(a, b, j)))
  }

  /** A late stop replaced the job's final state. */
  predicate Hidden(a: Db, b: Db, j: JobRef)
    requires j in a.jobs && j in b.jobs
  {
    Final(a, j) && j in b.overwritten && b.jobs[j] == a.jobs[j].(state := Stopped)
  }

  predicate WorkerEvolves(a: Db, b: Db, w: nat) {
    w in a.workers ==>
      && w in b.workers && a.workers[w].(revokedAt := b.workers[w].revokedAt) == b.workers[w]
      && (a.workers[w].revokedAt.Some? ==> a.workers[w] == b.workers[w])
  }

  predicate TokenEvolves(a: Db, b: Db, t: nat) {
    t in a.bootstraps ==>
      && t in b.bootstraps && b.bootstraps[t].expiresAt <= a.bootstraps[t].expiresAt
      && (a.bootstraps[t].usedAt.Some? ==> b.bootstraps[t] == a.bootstraps[t])
  }

  ghost predicate Evolves(a: Db, b: Db) {
    && a.cfg == b.cfg && a.now <= b.now && a.nextId <= b.nextId && a.overwritten <= b.overwritten
    && (forall j :: JobEvolves(a, b, j))
    && (forall w :: WorkerEvolves(a, b, w))
    && (forall t :: TokenEvolves(a, b, t))
  }

  lemma EvolvesTransitive(a: Db, b: Db, c: Db)
    requires Evolves(a, b) && Evolves(b, c)
    ensures Evolves(a, c)
  {
    forall j
      ensures JobEvolves(a, c, j)
    {
      assert JobEvolves(a, b, j) && JobEvolves(b, c, j);
    }
    forall w
      ensures WorkerEvolves(a, c, w)
    {
      assert WorkerEvolves(a, b, w) && WorkerEvolves(b, c, w);
    }
    forall t
      ensures TokenEvolves(a, c, t)
    {
      assert TokenEvolves(a, b, t) && TokenEvolves(b, c, t);
    }
  }

  // ---------------------------------------------------------------- every step

  /** Steps that leave the workers' identities, the tokens and the SELECTs alone. */
  lemma TokensKeep(a: Db, b: Db)
    requires Base(a)
    requires forall w :: WorkerEvolves(a, b, w)
    requires b.workers.Keys == a.workers.Keys && b.bootstraps == a.bootstraps && a.nextId <= b.nextId
    requires b.selected <= a.selected
    requires forall j :: j in a.remote ==> j in b.remote && a.remote[j].pool == b.remote[j].pool
    ensures (forall w, j :: SelectOk(b, w, j)) && (forall t :: TokenOk(b, t))
  {
    forall w, j
      ensures SelectOk(b, w, j)
    {
      assert SelectOk(a, w, j) && WorkerEvolves(a, b, w);
    }
    forall t
      ensures TokenOk(b, t)
    {
      assert TokenOk(a, t);
      if t in a.bootstraps && a.bootstraps[t].worker.Some? {
        assert WorkerEvolves(a, b, a.bootstraps[t].worker.value);
      }
    }
  }

  /** Ending rows restores the invariant once the jobs of those rows are settled. */
  lemma EndKeeps(db: Db, hit: set<JobRef>)
    requires Base(db) && forall j :: j !in hit ==> OpenOk(db, j)
    requires forall r :: r in hit ==> r in db.remote && db.remote[r].phase != Done
    ensures Inv(EndAll(db, hit)) && Evolves(db, EndAll(db, hit))
  {
    var d := EndAll(db, hit);
    forall w
      ensures WorkerEvolves(db, d, w)
    {
    }
    forall j
      ensures JobOk(d, j) && OpenOk(d, j) && JobEvolves(db, d, j)
    {
      assert JobOk(db, j);
      assert j !in hit ==> OpenOk(db, j);
    }
    TokensKeep(db, d);
  }

  /** The state between telling the users of the jobs `hit` and ending their rows. */
  function Settled(db: Db, hit: set<JobRef>): Db {
    var told := Told(db, hit);
    db.(jobs := map j | j in db.jobs :: if j in told then db.jobs[j].(state := Failed) else db.jobs[j],
        mail := db.mail + multiset(told))
  }

  lemma SettleKeeps(db: Db, hit: set<JobRef>)
    requires Inv(db)
    requires forall r :: r in hit ==> r in db.remote && db.remote[r].phase != Done
    ensures var d := Settled(db, hit);
      Base(d) && Evolves(db, d) && forall j :: j !in hit ==> OpenOk(d, j)
  {
    var d := Settled(db, hit);
    forall j
      ensures JobOk(d, j) && JobEvolves(db, d, j) && (j !in hit ==> OpenOk(d, j))
    {
      assert JobOk(db, j) && OpenOk(db, j);
      assert d.mail[j] == db.mail[j] + if j in Told(db, hit) then 1 else 0;
    }
    assert forall w :: WorkerEvolves(db, d, w);
    TokensKeep(db, d);
  }

  lemma ExpireKeeps(db: Db, hit: set<JobRef>)
    requires Inv(db)
    requires forall r :: r in hit ==> r in db.remote && db.remote[r].phase != Done
    ensures Inv(ExpireAll(db, hit)) && Evolves(db, ExpireAll(db, hit))
  {
    SettleKeeps(db, hit);
    EndKeeps(Settled(db, hit), hit);
    EvolvesTransitive(db, Settled(db, hit), ExpireAll(db, hit));
  }

  /** `d` differs from `db` in one job and its row. */
  ghost predicate OneJob(db: Db, d: Db, j: JobRef) {
    && db == d.(jobs := db.jobs, remote := db.remote, used := db.used, selected := db.selected,
                nextId := db.nextId, mail := db.mail, stopping := db.stopping, overwritten := db.overwritten)
    && db.nextId <= d.nextId && d.selected <= db.selected && db.overwritten <= d.overwritten <= db.overwritten + {j}
    && forall k :: k != j ==>
      && (k in db.jobs <==> k in d.jobs) && (k in db.jobs ==> d.jobs[k] == db.jobs[k])
      && (k in db.remote <==> k in d.remote) && (k in db.remote ==> d.remote[k] == db.remote[k])
      && (k in db.used <==> k in d.used) && d.mail[k] == db.mail[k]
  }

  /** Steps on one job and its row. */
  lemma JobKeeps(db: Db, d: Db, j: JobRef)
    requires Inv(db) && OneJob(db, d, j)
    requires JobOk(d, j) && JobEvolves(db, d, j)
    ensures Base(d) && Evolves(db, d) && forall k :: k != j ==> OpenOk(d, k)
  {
    forall k
      ensures JobOk(d, k) && JobEvolves(db, d, k) && (k != j ==> OpenOk(d, k))
    {
      assert JobOk(db, k) && OpenOk(db, k);
    }
    assert forall w :: WorkerEvolves(db, d, w);
    assert JobEvolves(db, d, j);
    TokensKeep(db, d);
  }

  /** What a step on one job has to keep of it. */
  ghost predicate StepOk(db: Db, d: Db, j: JobRef) {
    JobOk(d, j) && OpenOk(d, j) && JobEvolves(db, d, j) && OneJob(db, d, j)
  }

  /** A row's own conditions do not depend on jobs or mail. */
  lemma RowStays(db: Db, d: Db, j: JobRef)
    requires OneJob(db, d, j) && JobOk(db, j)
    ensures j in db.remote ==> RowOk(d, j, db.remote[j])
  {
  }

  lemma CreateOk(db: Db, j: JobRef, cloudToCloud: bool)
    requires JobOk(db, j) && OpenOk(db, j)
    ensures StepOk(db, CreateJob(db, j, cloudToCloud), j)
  {
    hide RowOk;
    RowStays(db, CreateJob(db, j, cloudToCloud), j);
  }

  lemma SameOk(db: Db, j: JobRef)
    requires JobOk(db, j) && OpenOk(db, j)
    ensures StepOk(db, db, j)
  {
    hide RowOk;
  }

  lemma QueueOk(db: Db, j: JobRef, pool: string, sourceBytes: Option<nat>)
    requires JobOk(db, j) && OpenOk(db, j)
    ensures StepOk(db, QueueJob(db, j, pool, sourceBytes), j)
  {
    hide StepOk;
    if j !in db.jobs || !db.jobs[j].creating || j in db.remote {
      SameOk(db, j);
    } else {
      QueueNew(db, j, pool, sourceBytes);
    }
  }

  lemma QueueNew(db: Db, j: JobRef, pool: string, sourceBytes: Option<nat>)
    requires JobOk(db, j) && j in db.jobs && db.jobs[j].creating && j !in db.remote
    ensures StepOk(db, QueueJob(db, j, pool, sourceBytes), j)
  {
    var d, row := QueueJob(db, j, pool, sourceBytes),
      RemoteJob(db.nextId, pool, sourceBytes, Queued, None, None, false);
    assert d.remote[j] == row && d.jobs[j] == db.jobs[j].(creating := false) && RowOk(d, j, row);
    hide RowOk;
  }

  lemma QueueFailsOk(db: Db, j: JobRef)
    requires JobOk(db, j) && OpenOk(db, j)
    ensures StepOk(db, QueueFails(db, j), j)
  {
    hide RowOk;
    RowStays(db, QueueFails(db, j), j);
  }

  lemma DeleteOk(db: Db, j: JobRef)
    requires JobOk(db, j) && OpenOk(db, j)
    ensures StepOk(db, db.(jobs := db.jobs - {j}), j)
  {
    hide RowOk;
    RowStays(db, db.(jobs := db.jobs - {j}), j);
  }

  lemma RequestStopOk(db: Db, j: JobRef)
    requires JobOk(db, j) && OpenOk(db, j)
    ensures StepOk(db, RequestStop(db, j), j)
  {
    hide StepOk;
    if j in db.remote && db.remote[j].phase != Done { RowChanges(db, RequestStop(db, j), j); } else { SameOk(db, j); }
  }

  /** A queued row is ended, or a running one asked to stop. */
  lemma RowChanges(db: Db, d: Db, j: JobRef)
    requires JobOk(db, j) && OpenOk(db, j) && j in db.remote && db.remote[j].phase != Done
    requires d == db.(remote := db.remote[j :=
      if db.remote[j].phase == Queued then db.remote[j].(phase := Done) else db.remote[j].(stopRequested := true)])
    ensures StepOk(db, d, j)
  {
    assert RowOk(db, j, db.remote[j]) && RowOk(d, j, d.remote[j]);
    assert RowEvolves(db.remote[j], d.remote[j], db.now);
    hide RowOk, RowEvolves;
  }

  lemma StopReadsOk(db: Db, j: JobRef)
    requires JobOk(db, j) && OpenOk(db, j)
    ensures StepOk(db, ReadForStop(db, j), j)
  {
    hide JobOk, OpenOk, StepOk;
    PendingOnly(db, ReadForStop(db, j), j);
  }

  lemma StopWritesOk(db: Db, j: JobRef)
    requires JobOk(db, j) && OpenOk(db, j)
    ensures StepOk(db, WriteStop(db, j), j)
  {
    hide JobOk, OpenOk, StepOk;
    var d := WriteStop(db, j);
    if j in db.stopping && j in db.jobs {
      StopReplaces(db, d, j);
    } else {
      PendingOnly(db, d, j);
    }
  }

  /** Only which stops are pending changes. */
  lemma PendingOnly(db: Db, d: Db, j: JobRef)
    requires JobOk(db, j) && OpenOk(db, j) && d == db.(stopping := d.stopping)
    ensures StepOk(db, d, j)
  {
    assert j in db.remote ==> RowOk(d, j, db.remote[j]);
    hide RowOk;
  }

  lemma StopReplaces(db: Db, d: Db, j: JobRef)
    requires JobOk(db, j) && OpenOk(db, j) && j in db.jobs
    requires d == db.(stopping := d.stopping, jobs := db.jobs[j := db.jobs[j].(state := Stopped)],
                      overwritten := db.overwritten + if Final(db, j) then {j} else {})
    ensures StepOk(db, d, j)
  {
    assert j in db.remote ==> RowOk(d, j, db.remote[j]) && RowEvolves(db.remote[j], db.remote[j], db.now);
    hide RowOk, RowEvolves;
  }

  lemma OneJobKeeps(db: Db, e: Event)
    requires Inv(db)
    requires e.Create? || e.Queue? || e.QueueFailed? || e.Delete? || e.StopFirst? || e.StopReads? || e.StopWrites?
    ensures Inv(Step(db, e)) && Evolves(db, Step(db, e))
  {
    hide CreateJob, QueueJob, QueueFails, RequestStop, ReadForStop, WriteStop;
    hide JobOk, OpenOk, JobEvolves, OneJob, Evolves;
    assert JobOk(db, e.job) && OpenOk(db, e.job);
    match e {
      case Create(j, c) => CreateOk(db, j, c);
      case Queue(j, pool, size) => QueueOk(db, j, pool, size);
      case QueueFailed(j) => QueueFailsOk(db, j);
      case Delete(j) => DeleteOk(db, j);
      case StopFirst(j) => RequestStopOk(db, j);
      case StopReads(j) => StopReadsOk(db, j);
      case StopWrites(j) => StopWritesOk(db, j);
    }
    JobKeeps(db, Step(db, e), e.job);
  }

  lemma TickKeeps(db: Db, seconds: nat)
    requires Inv(db)
    ensures var d := db.(now := db.now + seconds); Inv(d) && Evolves(db, d)
  {
    var d := db.(now := db.now + seconds);
    forall j
      ensures JobOk(d, j) && OpenOk(d, j) && JobEvolves(db, d, j)
    {
      assert JobOk(db, j) && OpenOk(db, j);
    }
    assert forall w :: WorkerEvolves(db, d, w);
    TokensKeep(db, d);
  }

  /** Steps on the worker and bootstrap tables, or a claimer's SELECT. */
  predicate OfWorkers(e: Event) {
    e.NewWorker? || e.NewToken? || e.SignIn? || e.DropToken? || e.Pick?
  }

  /** Jobs and rows stay, and workers keep what they are; a new one has a new number. */
  ghost predicate WorkersOnly(db: Db, d: Db) {
    && d.jobs == db.jobs && d.remote == db.remote && d.used == db.used && d.mail == db.mail
    && d.now == db.now && d.cfg == db.cfg && db.nextId <= d.nextId && d.overwritten == db.overwritten
    && forall w :: w in db.workers ==> w in d.workers && d.workers[w] == db.workers[w]
  }

  lemma WorkersStay(db: Db, e: Event)
    requires TokenOk(db, db.nextId) && OfWorkers(e)
    ensures WorkersOnly(db, Step(db, e))
  {
    hide TokenOk, WorkersOnly, Exchange, AddWorker, CreateBootstrap, ExpireBootstrap, Select;
    match e
    case SignIn(t) => SignInStays(db, t);
    case NewWorker(pool) => NewWorkerStays(db, pool);
    case _ => TokensOnly(db, e);
  }

  lemma NewWorkerStays(db: Db, pool: string)
    requires TokenOk(db, db.nextId)
    ensures WorkersOnly(db, AddWorker(db, pool))
  {
  }

  lemma TokensOnly(db: Db, e: Event)
    requires e.NewToken? || e.DropToken? || e.Pick?
    ensures WorkersOnly(db, Step(db, e))
  {
    hide BootstrapAllowed, Picks, Live;
  }

  lemma SignInStays(db: Db, t: nat)
    requires TokenOk(db, db.nextId)
    ensures WorkersOnly(db, Exchange(db, t))
  {
  }

  lemma WorkersTokens(db: Db, e: Event, n: nat)
    requires TokenOk(db, n) && TokenOk(db, db.nextId) && OfWorkers(e)
    ensures TokenOk(Step(db, e), n) && TokenEvolves(db, Step(db, e), n)
  {
  }

  lemma WorkersJobs(db: Db, d: Db, j: JobRef)
    requires JobOk(db, j) && OpenOk(db, j) && WorkersOnly(db, d)
    ensures JobOk(d, j) && OpenOk(d, j) && JobEvolves(db, d, j)
  {
  }

  lemma WorkersSelects(db: Db, e: Event, w: nat, j: JobRef)
    requires SelectOk(db, w, j) && TokenOk(db, db.nextId) && OfWorkers(e)
    ensures SelectOk(Step(db, e), w, j)
  {
  }

  lemma WorkersKeep(db: Db, e: Event)
    requires Inv(db) && OfWorkers(e)
    ensures Inv(Step(db, e)) && Evolves(db, Step(db, e))
  {
    var d := Step(db, e);
    assert TokenOk(db, db.nextId);
    WorkersStay(db, e);
    hide Step, TokenOk, TokenEvolves, JobOk, OpenOk, JobEvolves, SelectOk;
    forall n ensures WorkerEvolves(db, d, n) && TokenOk(d, n) && TokenEvolves(db, d, n) {
      assert TokenOk(db, n);
      WorkersTokens(db, e, n);
    }
    forall j ensures JobOk(d, j) && OpenOk(d, j) && JobEvolves(db, d, j) {
      assert JobOk(db, j) && OpenOk(db, j);
      WorkersJobs(db, d, j);
    }
    forall w, j ensures SelectOk(d, w, j) {
      assert SelectOk(db, w, j);
      WorkersSelects(db, e, w, j);
    }
  }

  lemma ClaimKeeps(db: Db, w: nat, j: JobRef, prepared: bool)
    requires Inv(db)
    ensures Inv(TryClaim(db, w, j, prepared)) && Evolves(db, TryClaim(db, w, j, prepared))
  {
    var free := db.(selected := db.selected - {(w, j)});
    assert JobOk(db, j) && OpenOk(db, j) && SelectOk(db, w, j);
    if Claimable(db, w, j) {
      var c := Claimed(free, w, j);
      JobKeeps(db, c, j);
      if j !in db.jobs || db.jobs[j].state != Progress {
        EndKeeps(c, {j});
        EvolvesTransitive(db, c, EndAll(c, {j}));
      } else if !prepared {
        ExpireKeeps(c, {j});
        EvolvesTransitive(db, c, ExpireAll(c, {j}));
      }
    } else {
      JobKeeps(db, free, j);
    }
  }

  lemma ProgressKeeps(db: Db, w: nat, j: JobRef, ticket: nat)
    requires Inv(db)
    ensures Inv(ProgressCall(db, w, j, ticket)) && Evolves(db, ProgressCall(db, w, j, ticket))
  {
    assert JobOk(db, j) && OpenOk(db, j);
    match TicketReply(db, w, j, ticket)
    case Lapsed => ExpireKeeps(db, {j});
    case _ => JobKeeps(db, ProgressCall(db, w, j, ticket), j);
  }

  lemma ReportedOk(db: Db, j: JobRef, reported: JobState)
    requires JobOk(db, j) && OpenOk(db, j) && j in db.jobs && j in db.remote && db.remote[j].phase == Running
    requires reported != Progress
    ensures var d := Reported(db, j, reported); JobOk(d, j) && JobEvolves(db, d, j) && OneJob(db, d, j)
  {
    hide RowOk;
    RowStays(db, Reported(db, j, reported), j);
  }

  lemma FinishKeeps(db: Db, w: nat, j: JobRef, ticket: nat, reported: JobState, trees: bool)
    requires Inv(db)
    ensures var d := FinishCall(db, w, j, ticket, reported, trees); Inv(d) && Evolves(db, d)
  {
    assert JobOk(db, j) && OpenOk(db, j);
    hide Inv, Base, Evolves, JobOk, OpenOk, JobEvolves, OneJob, EndAll, ExpireAll;
    match FinishReply(db, w, j, ticket, reported, trees)
    case Granted =>
      if j !in db.jobs {
        InvIs(db);
        EndKeeps(db, {j});
      } else {
        var d := Reported(db, j, reported);
        ReportedOk(db, j, reported);
        JobKeeps(db, d, j);
        EndKeeps(d, {j});
        EvolvesTransitive(db, d, EndAll(d, {j}));
      }
    case Lapsed => ExpireKeeps(db, {j});
    case _ => StaysKept(db);
  }

  lemma InvIs(db: Db)
    requires Inv(db)
    ensures Base(db) && forall j :: OpenOk(db, j)
  {
  }

  lemma StaysKept(db: Db)
    requires Inv(db)
    ensures Evolves(db, db)
  {
    forall j ensures JobEvolves(db, db, j) { assert JobOk(db, j); }
    assert forall w :: WorkerEvolves(db, db, w);
    assert forall t :: TokenEvolves(db, db, t);
  }

  lemma RevokeKeeps(db: Db, w: nat)
    requires Inv(db)
    ensures Inv(Revoke(db, w)) && Evolves(db, Revoke(db, w))
  {
    if w !in db.workers {
      TickKeeps(db, 0);
      assert db.(now := db.now + 0) == db;
    } else {
      var d := db.(workers := db.workers[w :=
        if db.workers[w].revokedAt.None? then db.workers[w].(revokedAt := Some(db.now)) else db.workers[w]]);
      forall j
        ensures JobOk(d, j) && OpenOk(d, j) && JobEvolves(db, d, j)
      {
        assert JobOk(db, j) && OpenOk(db, j);
      }
      assert forall v :: WorkerEvolves(db, d, v);
      TokensKeep(db, d);
      ExpireKeeps(d, RunningOf(d, w));
      EvolvesTransitive(db, d, ExpireAll(d, RunningOf(d, w)));
      assert RunningOf(d, w) == RunningOf(db, w);
    }
  }

  lemma StepKeeps(db: Db, e: Event)
    requires Inv(db)
    ensures Inv(Step(db, e)) && Evolves(db, Step(db, e))
  {
    hide Inv, Evolves, OverdueRows;
    match e
    case Tick(seconds) => TickKeeps(db, seconds);
    case Cas(w, j, prepared) => ClaimKeeps(db, w, j, prepared);
    case Report(w, j, t) => ProgressKeeps(db, w, j, t);
    case Finish(w, j, t, state, trees) => FinishKeeps(db, w, j, t, state, trees);
    case SweepLeases(skip) => SweepKeeps(db, skip);
    case RevokeBy(w) => RevokeKeeps(db, w);
    case FailBy(j) => FailKeeps(db, j);
    case Broker(_, _, _) => StaysKept(db);
    case NewWorker(_) => WorkersKeep(db, e);
    case NewToken(_, _, _) => WorkersKeep(db, e);
    case SignIn(_) => WorkersKeep(db, e);
    case DropToken(_) => WorkersKeep(db, e);
    case Pick(_, _, _, _) => WorkersKeep(db, e);
    case _ => OneJobKeeps(db, e);
  }

  lemma SweepKeeps(db: Db, skip: set<JobRef>)
    requires Inv(db)
    ensures Inv(Sweep(db, skip)) && Evolves(db, Sweep(db, skip))
  {
    hide Inv, Evolves, ExpireAll;
    ExpireKeeps(db, OverdueRows(db) - skip);
  }

  lemma FailKeeps(db: Db, j: JobRef)
    requires Inv(db)
    ensures Inv(FailRemote(db, j)) && Evolves(db, FailRemote(db, j))
  {
    hide Inv, Evolves, ExpireAll;
    if j in db.remote && db.remote[j].phase != Done { ExpireKeeps(db, {j}); } else { StaysKept(db); }
  }

  lemma {:induction false} RunKeeps(db: Db, es: seq<Event>)
    requires Inv(db)
    ensures Inv(Run(db, es)) && Evolves(db, Run(db, es))
    decreases |es|
  {
    if es == [] {
      TickKeeps(db, 0);
      assert db.(now := db.now + 0) == db;
    } else {
      StepKeeps(db, es[0]);
      RunKeeps(Step(db, es[0]), es[1..]);
      EvolvesTransitive(db, Step(db, es[0]), Run(db, es));
    }
  }

  lemma Reaches(cfg: Config, es: seq<Event>)
    ensures Inv(Run(Init(cfg), es))
  {
    RunKeeps(Init(cfg), es);
  }

  // ---------------------------------------------------------------- main results

  /**
   A remote job only moves from queued to running to done, and who claimed it, when, and
   under which ticket is decided at most once; an ended row never changes again.
   */
  lemma JobsOnlyAdvance(cfg: Config, es: seq<Event>, more: seq<Event>, j: JobRef)
    requires j in Run(Init(cfg), es).remote
    ensures var a := Run(Init(cfg), es); var b := Run(a, more);
      && j in b.remote && Rank(a.remote[j].phase) <= Rank(b.remote[j].phase)
      && (a.remote[j].claim.Some? ==>
            && b.remote[j].claim.Some?
            && b.remote[j].claim.value.(leaseEnds := a.remote[j].claim.value.leaseEnds) == a.remote[j].claim.value)
      && (a.remote[j].phase == Done ==> b.remote[j] == a.remote[j])
  {
    var a := Run(Init(cfg), es);
    Reaches(cfg, es);
    RunKeeps(a, more);
    assert JobEvolves(a, Run(a, more), j);
  }

  /** Once queued, a job that is over keeps its state, unless a late stop replaces it. */
  lemma SettledStaysSettled(cfg: Config, es: seq<Event>, more: seq<Event>, j: JobRef)
    requires var a := Run(Init(cfg), es); j in a.jobs && !a.jobs[j].creating && a.jobs[j].state != Progress
    requires j in Run(Run(Init(cfg), es), more).jobs
    ensures var a := Run(Init(cfg), es); var b := Run(a, more);
      && (b.jobs[j].state == a.jobs[j].state || b.jobs[j].state == Stopped)
      && (b.jobs[j].state != a.jobs[j].state <==> a.jobs[j].state != Stopped && j in b.overwritten)
  {
    var a := Run(Init(cfg), es);
    Reaches(cfg, es);
    RunKeeps(a, more);
    assert JobEvolves(a, Run(a, more), j) && JobOk(a, j) && JobOk(Run(a, more), j);
  }

  lemma ExpireSparesSettled(db: Db, hit: set<JobRef>, j: JobRef)
    requires j in db.jobs && db.jobs[j].state != Progress
    ensures j in ExpireAll(db, hit).jobs && ExpireAll(db, hit).jobs[j] == db.jobs[j]
  {
  }

  lemma EndSparesJobs(db: Db, hit: set<JobRef>)
    ensures EndAll(db, hit).jobs == db.jobs
  {
  }

  lemma ClaimSparesSettled(db: Db, w: nat, k: JobRef, prepared: bool, j: JobRef)
    requires j in db.jobs && j !in db.remote && db.jobs[j].state != Progress
    ensures j in TryClaim(db, w, k, prepared).jobs && TryClaim(db, w, k, prepared).jobs[j] == db.jobs[j]
  {
    if Claimable(db, w, k) {
      var c := Claimed(db.(selected := db.selected - {(w, k)}), w, k);
      ExpireSparesSettled(c, {k}, j);
      EndSparesJobs(c, {k});
    }
  }

  lemma FinishSparesOthers(db: Db, w: nat, k: JobRef, t: nat, state: JobState, trees: bool, j: JobRef)
    requires j in db.jobs && j !in db.remote && db.jobs[j].state != Progress
    ensures var d := FinishCall(db, w, k, t, state, trees); j in d.jobs && d.jobs[j] == db.jobs[j]
  {
    ExpireSparesSettled(db, {k}, j);
    hide ExpireAll, EndAll, Told;
    forall d: Db, hit ensures EndAll(d, hit).jobs == d.jobs { EndSparesJobs(d, hit); }
  }

  /** Steps that end rows spare the jobs that are over and have none. */
  lemma EndingSparesSettled(db: Db, e: Event, j: JobRef)
    requires j in db.jobs && j !in db.remote && db.jobs[j].state != Progress
    requires e.Cas? || e.Report? || e.Finish? || e.SweepLeases? || e.RevokeBy? || e.FailBy?
    ensures j in Step(db, e).jobs && Step(db, e).jobs[j] == db.jobs[j]
  {
    hide ExpireAll, EndAll, Told, TryClaim, FinishCall, OverdueRows, RunningOf;
    match e
    case Cas(w, k, prepared) => ClaimSparesSettled(db, w, k, prepared, j);
    case Report(w, k, t) => ExpireSparesSettled(db, {k}, j);
    case Finish(w, k, t, state, trees) => FinishSparesOthers(db, w, k, t, state, trees, j);
    case SweepLeases(skip) => ExpireSparesSettled(db, OverdueRows(db) - skip, j);
    case RevokeBy(w) =>
      if w in db.workers {
        var stamped := db.(workers := db.workers[w :=
          if db.workers[w].revokedAt.None? then db.workers[w].(revokedAt := Some(db.now)) else db.workers[w]]);
        ExpireSparesSettled(stamped, RunningOf(db, w), j);
      }
    case FailBy(k) => ExpireSparesSettled(db, {k}, j);
  }

  /** No step but a queueing failure and a late stop changes a settled job that has no row. */
  lemma UnqueuedUntouched(db: Db, e: Event, j: JobRef)
    requires j in db.jobs && j in db.used && j !in db.remote && db.jobs[j].state != Progress
    requires j in Step(db, e).jobs && e != QueueFailed(j) && e != StopWrites(j)
    ensures Step(db, e).jobs[j].state == db.jobs[j].state
  {
    hide TryClaim, ProgressCall, FinishCall, Sweep, Revoke, FailRemote;
    hide Select, CreateBootstrap, Exchange, ExpireBootstrap, AddWorker;
    if OfWorkers(e) {
      JobsStay(db, e);
    } else if e.Cas? || e.Report? || e.Finish? || e.SweepLeases? || e.RevokeBy? || e.FailBy? {
      EndingSparesSettled(db, e, j);
    }
  }

  lemma JobsStay(db: Db, e: Event)
    requires OfWorkers(e)
    ensures Step(db, e).jobs == db.jobs
  {
    hide BootstrapAllowed, Picks;
  }

  /** A late stop is the one step that hides a job's end. */
  lemma OnlyStopsHide(db: Db, e: Event, j: JobRef)
    requires j in Step(db, e).overwritten && j !in db.overwritten
    ensures e == StopWrites(j) && j in db.stopping && Final(db, j)
  {
    hide ExpireAll, EndAll, Told;
    forall d: Db, hit ensures EndAll(d, hit).overwritten == ExpireAll(d, hit).overwritten == d.overwritten {
      EndingHidesNone(d, hit);
    }
  }

  lemma EndingHidesNone(db: Db, hit: set<JobRef>)
    ensures EndAll(db, hit).overwritten == db.overwritten && ExpireAll(db, hit).overwritten == db.overwritten
  {
  }

  /**
   Two steps undo the state of a job that is over: the failure to queue a job its user stopped
   while create_for was still routing it, and the UPDATE of a stop whose SELECT came before the end.
   */
  lemma OnlyTheseOverwrite(cfg: Config, es: seq<Event>, e: Event, j: JobRef)
    requires var a := Run(Init(cfg), es); j in a.jobs && a.jobs[j].state != Progress && j in Step(a, e).jobs
    ensures var a := Run(Init(cfg), es);
      Step(a, e).jobs[j].state != a.jobs[j].state <==>
      (e == QueueFailed(j) && a.jobs[j].creating) || (e == StopWrites(j) && j in a.stopping && Final(a, j))
  {
    var a := Run(Init(cfg), es);
    Reaches(cfg, es);
    StepKeeps(a, e);
    assert JobOk(a, j) && OpenOk(a, j) && JobEvolves(a, Step(a, e), j);
    if e != QueueFailed(j) && e != StopWrites(j) {
      if a.jobs[j].creating {
        UnqueuedUntouched(a, e, j);
      } else if j in Step(a, e).overwritten && j !in a.overwritten {
        OnlyStopsHide(a, e, j);
      }
    }
  }

  lemma StoppedJobFails(cfg: Config, j: JobRef)
    ensures var a := Run(Init(cfg), [Create(j, true), StopReads(j), StopWrites(j)]);
      && j in a.jobs && a.jobs[j].state == Stopped
      && j in Step(a, QueueFailed(j)).jobs && Step(a, QueueFailed(j)).jobs[j].state == Failed
  {
    RunThree(Init(cfg), Create(j, true), StopReads(j), StopWrites(j));
  }

  lemma RunThree(db: Db, e: Event, f: Event, g: Event)
    ensures Run(db, [e, f, g]) == Step(Step(Step(db, e), f), g)
  {
    hide Step;
    assert [e, f, g][1..] == [f, g] && [f, g][1..] == [g] && [g][1..] == [];
    assert Run(Step(db, e), [f, g]) == Run(Step(Step(db, e), f), [g]);
    assert Run(Step(Step(db, e), f), [g]) == Run(Step(Step(Step(db, e), f), g), []);
  }

  /**
   In every run a job has at most one mail, and one exactly when its remote run failed or
   finished unstopped, whether or not a late stop hides it.
   */
  lemma OneMailPerJob(cfg: Config, es: seq<Event>, j: JobRef)
    ensures var a := Run(Init(cfg), es);
      && a.mail[j] <= 1
      && (j in a.jobs && j in a.remote ==>
            (a.mail[j] == 1 <==> !Unfinished(a.jobs[j].state) || j in a.overwritten))
  {
    Reaches(cfg, es);
    assert JobOk(Run(Init(cfg), es), j);
  }

  /**
   Taking the SELECT and the UPDATE of a stop's second step as one is right exactly for a job that
   is still in progress or stopped when it is written. Else its end is hidden: one its user was
   mailed if the job has a row, the failure to queue it if it has none.
   */
  lemma LateStopExact(cfg: Config, es: seq<Event>, j: JobRef)
    requires var a := Run(Init(cfg), es); j in a.stopping && j in a.jobs
    ensures var a := Run(Init(cfg), es);
      && (WriteStop(a, j).jobs == MarkStopped(a, j).jobs <==> Unfinished(a.jobs[j].state))
      && (!Unfinished(a.jobs[j].state) <==>
            if j in a.remote then a.mail[j] == 1 && j !in a.overwritten else a.jobs[j].state == Failed)
      && (!Unfinished(a.jobs[j].state) <==> j in WriteStop(a, j).overwritten && j !in a.overwritten)
  {
    var a := Run(Init(cfg), es);
    Reaches(cfg, es);
    assert JobOk(a, j);
    assert WriteStop(a, j).jobs[j].state == Stopped;
    assert a.jobs[j].state == Stopped ==> a.jobs[j := a.jobs[j]] == a.jobs;
  }

  /** The failure to queue a job, hidden. */
  lemma StopHidesQueueFailure(cfg: Config, j: JobRef)
    ensures var a := Run(Init(cfg), [Create(j, true), StopReads(j), QueueFailed(j)]);
      && j in a.jobs && a.jobs[j].state == Failed
      && j in Step(a, StopWrites(j)).jobs && Step(a, StopWrites(j)).jobs[j].state == Stopped && a.mail[j] == 0
  {
    RunThree(Init(cfg), Create(j, true), StopReads(j), QueueFailed(j));
  }

  // ---------------------------------------------------------------- a lease swept during a stop

  const ONE := JobRef(Copy, 1)

  const CLAIM := Claim(1, 0, 60, 3600, 2)

  /** The job waits, and there is one worker. */
  predicate OneWaits(db: Db) {
    && db == Init(Config(60, 3600)).(
         nextId := 2, used := {ONE}, jobs := db.jobs, remote := db.remote, workers := db.workers)
    && db.jobs == map[ONE := Job(Progress, false, true)]
    && db.remote == map[ONE := RemoteJob(0, "aws", None, Queued, None, None, false)]
    && db.workers == map[1 := Worker("aws", false, None, None, None)]
  }

  /** It runs, and its user has asked for a stop. */
  predicate OneRuns(db: Db) {
    && db.jobs == map[ONE := Job(Progress, false, true)] && db.now == 0
    && db.stopping == multiset{} && db.mail == multiset{}
    && db.remote == map[ONE := RemoteJob(0, "aws", None, Running, Some(CLAIM), Some(3), true)]
  }

  lemma ReachesWaiting()
    ensures OneWaits(Run(Init(Config(60, 3600)), [Create(ONE, true), Queue(ONE, "aws", None), NewWorker("aws")]))
  {
    RunThree(Init(Config(60, 3600)), Create(ONE, true), Queue(ONE, "aws", None), NewWorker("aws"));
  }

  lemma ReachesRunning(db: Db)
    requires OneWaits(db)
    ensures OneRuns(Run(db, [Pick(1, {Copy}, {}, ONE), Cas(1, ONE, true), StopFirst(ONE)]))
  {
    hide Run, EndAll, ExpireAll;
    RunThree(db, Pick(1, {Copy}, {}, ONE), Cas(1, ONE, true), StopFirst(ONE));
    assert Picks(db, 1, {Copy}, {}, ONE);
  }

  lemma SweepTells(db: Db)
    requires OneRuns(db)
    ensures var a := Run(db, [StopReads(ONE), Tick(61), SweepLeases({})]);
      ONE in a.jobs && a.jobs[ONE].state == Failed && a.mail[ONE] == 1 && ONE in a.stopping
  {
    hide Run, Sweep, OneRuns, OverdueRows, InProgress;
    var late := ReadForStop(db, ONE).(now := 61);
    ReadAndLate(db);
    RunThree(db, StopReads(ONE), Tick(61), SweepLeases({}));
    SweepFails(late, ONE);
  }

  lemma ReadAndLate(db: Db)
    requires OneRuns(db)
    ensures var late := ReadForStop(db, ONE).(now := 61);
      && Step(Step(db, StopReads(ONE)), Tick(61)) == late && InProgress(late, ONE) && ONE in OverdueRows(late)
      && late.mail[ONE] == 0 && ONE in late.stopping
  {
  }

  lemma SweepFails(db: Db, j: JobRef)
    requires InProgress(db, j) && j in OverdueRows(db)
    ensures var a := Sweep(db, {});
      j in a.jobs && a.jobs[j].state == Failed && a.mail[j] == db.mail[j] + 1 && a.stopping == db.stopping
  {
    assert j in Told(db, OverdueRows(db) - {});
  }

  lemma {:induction false} RunTwo(db: Db, es: seq<Event>, more: seq<Event>)
    ensures Run(db, es + more) == Run(Run(db, es), more)
    decreases |es|
  {
    hide Step;
    if es == [] {
      assert es + more == more;
    } else {
      assert (es + more)[1..] == es[1..] + more;
      RunTwo(Step(db, es[0]), es[1..], more);
    }
  }

  const SWEPT_RUN := [Create(ONE, true), Queue(ONE, "aws", None), NewWorker("aws")]
    + [Pick(1, {Copy}, {}, ONE), Cas(1, ONE, true), StopFirst(ONE)]
    + [StopReads(ONE), Tick(61), SweepLeases({})]

  /** The user is told that the job failed, and the stop's UPDATE then makes it STOPPED. */
  lemma StopHidesMailedFailure()
    ensures var a := Run(Init(Config(60, 3600)), SWEPT_RUN); var b := Step(a, StopWrites(ONE));
      && ONE in a.jobs && a.jobs[ONE].state == Failed && a.mail[ONE] == 1
      && ONE in b.jobs && b.jobs[ONE].state == Stopped && b.mail[ONE] == 1
  {
    hide Run, Step, Init, OneWaits, OneRuns;
    var start, first := Init(Config(60, 3600)), [Create(ONE, true), Queue(ONE, "aws", None), NewWorker("aws")];
    var second := [Pick(1, {Copy}, {}, ONE), Cas(1, ONE, true), StopFirst(ONE)];
    ReachesWaiting();
    ReachesRunning(Run(start, first));
    SweepTells(Run(Run(start, first), second));
    RunTwo(start, first, second);
    RunTwo(start, first + second, [StopReads(ONE), Tick(61), SweepLeases({})]);
    WriteHides(Run(start, SWEPT_RUN));
  }

  lemma WriteHides(a: Db)
    requires ONE in a.jobs && ONE in a.stopping
    ensures var b := Step(a, StopWrites(ONE)); ONE in b.jobs && b.jobs[ONE].state == Stopped && b.mail == a.mail
  {
  }

  /** A claimed job nobody may report on any more. */
  predicate Dead(db: Db, j: JobRef) {
    && j in db.remote && db.remote[j].claim.Some?
    && var claim := db.remote[j].claim.value;
       db.remote[j].phase == Done || Overdue(claim, db.now) || !Live(db, claim.worker)
  }

  lemma DeadStaysDead(a: Db, b: Db, j: JobRef)
    requires Inv(a) && Evolves(a, b) && Dead(a, j)
    ensures Dead(b, j)
  {
    assert JobOk(a, j) && JobEvolves(a, b, j);
    assert WorkerEvolves(a, b, a.remote[j].claim.value.worker);
  }

  /**
   An expired lease is never revived: once a job's lease or ticket ran out, it ended, or
   its worker was revoked, no later progress, finish or broker call for it is granted,
   whether or not a sweep has run. And its broker token exists exactly while it runs.
   */
  lemma NeverRevived(cfg: Config, es: seq<Event>, more: seq<Event>, e: Event, j: JobRef)
    requires Dead(Run(Init(cfg), es), j)
    ensures !Accepts(Run(Run(Init(cfg), es), more), e, j)
    ensures var b := Run(Run(Init(cfg), es), more);
      j in b.remote && (b.remote[j].broker.Some? <==> b.remote[j].phase == Running)
  {
    var a := Run(Init(cfg), es);
    Reaches(cfg, es);
    RunKeeps(a, more);
    DeadStaysDead(a, Run(a, more), j);
    assert JobOk(Run(a, more), j);
  }

  /** Every granted call comes from the claiming worker, within the ticket's lifetime. */
  lemma GrantedInTime(cfg: Config, es: seq<Event>, e: Event, j: JobRef)
    requires Accepts(Run(Init(cfg), es), e, j)
    ensures var a := Run(Init(cfg), es);
      && j in a.remote && a.remote[j].claim.Some? && Live(a, a.remote[j].claim.value.worker)
      && (!e.Broker? ==> e.worker == a.remote[j].claim.value.worker)
      && a.remote[j].claim.value.claimedAt <= a.now
      && a.now <= a.remote[j].claim.value.claimedAt + cfg.ticketSeconds
      && a.workers[a.remote[j].claim.value.worker].pool == a.remote[j].pool
  {
    Reaches(cfg, es);
    RunKeeps(Init(cfg), es);
    assert JobOk(Run(Init(cfg), es), j);
  }

  /**
   A bootstrap token signs in at most one worker, which runs at most the job it is bound
   to and is revoked when that job ends; a used or expired token stays so.
   */
  lemma BootstrapTokens(cfg: Config, es: seq<Event>, more: seq<Event>, t: nat, u: nat, j: JobRef, k: JobRef)
    ensures var a := Run(Init(cfg), es); var b := Run(a, more);
      && (t in a.bootstraps && !Exchangeable(a, t) ==> !Exchangeable(b, t))
      && (t in a.bootstraps && u in a.bootstraps && t != u && a.bootstraps[t].worker.Some? ==>
            a.bootstraps[t].worker != a.bootstraps[u].worker)
      && (j in a.remote && a.remote[j].claim.Some? && a.remote[j].claim.value.worker in a.workers
            && a.workers[a.remote[j].claim.value.worker].bound.Some? ==>
            && (k in a.remote && a.remote[k].claim.Some? && k != j ==>
                  a.remote[k].claim.value.worker != a.remote[j].claim.value.worker)
            && (a.workers[a.remote[j].claim.value.worker].ephemeral && a.remote[j].phase == Done ==>
                  !Live(a, a.remote[j].claim.value.worker)))
  {
    var a := Run(Init(cfg), es);
    Reaches(cfg, es);
    RunKeeps(a, more);
    assert TokenOk(a, t) && TokenOk(a, u) && TokenEvolves(a, Run(a, more), t);
    assert JobOk(a, j) && JobOk(a, k);
  }

  /** No open user job behind the row: ended, stopped, failed or deleted. */
  predicate Closed(db: Db, j: JobRef) {
    !(j in db.remote && db.remote[j].phase != Done && j in db.jobs && db.jobs[j].state == Progress)
  }

  /** A queued job that closed never opens again. */
  lemma ClosedStays(a: Db, b: Db, j: JobRef)
    requires Inv(a) && Evolves(a, b) && j in a.remote && Closed(a, j)
    ensures j in b.remote && Closed(b, j)
  {
    assert JobOk(a, j) && JobEvolves(a, b, j);
  }
}
