/**
 The remote-job protocol of worker_manager.py: jobs queued for pools of remote workers,
 claimed under a lease, reported on with a ticket, stopped, expired and revoked.

 `Db` is one committed state of the tables the protocol touches. The functions give the
 state each call leaves behind; class `Manager` performs the calls on mutable tables, in
 the order of the original statements, and is proved against those functions.
 WorkerRuns.dfy proves what every run keeps.
 */
module WorkerManager {
  import opened Options

  datatype JobKind = Copy | Hashsum
  datatype JobRef = JobRef(kind: JobKind, id: nat)

  /** progress_state of the job the user sees. */
  datatype JobState = Progress | Success | Failed | Unset | Stopped

  /** `creating`: create_for has stored the job and has not yet queued it. */
  datatype Job = Job(state: JobState, creating: bool, cloudToCloud: bool)

  datatype Phase = Queued | Running | Done

  /** The columns the compare-and-set of a claim writes together. */
  datatype Claim = Claim(worker: nat, claimedAt: int, leaseEnds: int, ticketEnds: int, ticket: nat)

  datatype RemoteJob = RemoteJob(
    id: nat, pool: string, sourceBytes: Option<nat>, phase: Phase, claim: Option<Claim>, broker: Option<nat>,
    stopRequested: bool)

  /** `token`: the bootstrap token an ephemeral worker came from, which its name holds. */
  datatype Worker = Worker(pool: string, ephemeral: bool, bound: Option<JobRef>,
      token: Option<nat>, revokedAt: Option<int>)

  datatype Bootstrap = Bootstrap(
    pool: string, bound: Option<JobRef>, expiresAt: int, usedAt: Option<int>, worker: Option<nat>)

  datatype Config = Config(leaseSeconds: nat, ticketSeconds: nat)

  /**
   `remote` is keyed by the job, which the table declares unique; ids, tickets and broker
   secrets are fresh numbers. `used` are all job ids ever given out, `selected` the rows
   claimers have picked but not yet compared-and-set, `mail` the notifications sent, `stopping`
   the stops that have read PROGRESS and not yet written STOPPED, `overwritten` the jobs whose
   final state such a write replaced.
   */
  datatype Db = Db(
    cfg: Config, now: int, nextId: nat, used: set<JobRef>,
    jobs: map<JobRef, Job>, remote: map<JobRef, RemoteJob>,
    workers: map<nat, Worker>, bootstraps: map<nat, Bootstrap>,
    selected: set<(nat, JobRef)>, mail: multiset<JobRef>,
    stopping: multiset<JobRef>, overwritten: set<JobRef>)

  datatype Reply = Granted | BadRequest | Unauthorized | Forbidden | Gone | Lapsed

  function Init(cfg: Config): Db {
    Db(cfg, 0, 0, {}, map[], map[], map[], map[], {}, multiset{}, multiset{}, {})
  }

  // ---------------------------------------------------------------- ending jobs

  /** The ephemeral workers that exist for one of the jobs `hit` and ran it. */
  predicate Retires(db: Db, w: nat, hit: set<JobRef>)
    requires w in db.workers
  {
    var worker := db.workers[w];
    && worker.ephemeral && worker.revokedAt.None?
    && worker.bound.Some? && worker.bound.value in hit && worker.bound.value in db.remote
    && db.remote[worker.bound.value].claim.Some?
    && db.remote[worker.bound.value].claim.value.worker == w
  }

  function Ended(row: RemoteJob): RemoteJob {
    row.(phase := Done, broker := None)
  }

  /** `hit` end: their broker tokens die and their ephemeral workers are revoked. */
  function EndAll(db: Db, hit: set<JobRef>): Db {
    db.(remote := map r | r in db.remote :: if r in hit then Ended(db.remote[r]) else db.remote[r],
        workers := map w | w in db.workers ::
          if Retires(db, w, hit) then db.workers[w].(revokedAt := Some(db.now)) else db.workers[w])
  }

  /** The jobs among `hit` whose failure the user is told about. */
  function Told(db: Db, hit: set<JobRef>): set<JobRef> {
    set r | r in hit && r in db.jobs && db.jobs[r].state == Progress
  }

  function ExpireAll(db: Db, hit: set<JobRef>): Db {
    var told := Told(db, hit);
    EndAll(db.(jobs := map j | j in db.jobs :: if j in told then db.jobs[j].(state := Failed) else db.jobs[j],
               mail := db.mail + multiset(told)), hit)
  }

  /** fail_remote_job: nothing for an ended job. */
  function FailRemote(db: Db, r: JobRef): Db {
    if r in db.remote && db.remote[r].phase != Done then ExpireAll(db, {r}) else db
  }

  predicate Overdue(claim: Claim, now: int) {
    claim.leaseEnds < now || claim.ticketEnds < now
  }

  function OverdueRows(db: Db): set<JobRef> {
    set r | r in db.remote && db.remote[r].phase == Running
            && db.remote[r].claim.Some? && Overdue(db.remote[r].claim.value, db.now)
  }

  /** expire_leases; `skip` are rows another transaction holds (SKIP LOCKED). */
  function Sweep(db: Db, skip: set<JobRef>): Db {
    ExpireAll(db, OverdueRows(db) - skip)
  }

  function RunningOf(db: Db, w: nat): set<JobRef> {
    set r | r in db.remote && db.remote[r].phase == Running
            && db.remote[r].claim.Some? && db.remote[r].claim.value.worker == w
  }

  function Revoke(db: Db, w: nat): Db {
    if w !in db.workers then db else
      var stamped := db.(workers := db.workers[w :=
        if db.workers[w].revokedAt.None? then db.workers[w].(revokedAt := Some(db.now)) else db.workers[w]]);
      ExpireAll(stamped, RunningOf(db, w))
  }

  // ---------------------------------------------------------------- queueing and stopping

  function CreateJob(db: Db, j: JobRef, cloudToCloud: bool): Db {
    if j in db.used then db else
      db.(used := db.used + {j}, jobs := db.jobs[j := Job(Progress, true, cloudToCloud)])
  }

  function QueueJob(db: Db, j: JobRef, pool: string, sourceBytes: Option<nat>): Db {
    if j !in db.jobs || !db.jobs[j].creating || j in db.remote then db else
      db.(jobs := db.jobs[j := db.jobs[j].(creating := false)],
          remote := db.remote[j := RemoteJob(db.nextId, pool, sourceBytes, Queued, None, None, false)],
          nextId := db.nextId + 1)
  }

  /** The except branch of create_for: the job fails whatever happened to it meanwhile. */
  function QueueFails(db: Db, j: JobRef): Db {
    if j !in db.jobs || !db.jobs[j].creating then db else
      db.(jobs := db.jobs[j := db.jobs[j].(state := Failed, creating := false)])
  }

  function RequestStop(db: Db, j: JobRef): Db {
    if j !in db.remote then db
    else if db.remote[j].phase == Queued then db.(remote := db.remote[j := db.remote[j].(phase := Done)])
    else if db.remote[j].phase == Running then db.(remote := db.remote[j := db.remote[j].(stopRequested := true)])
    else db
  }

  predicate InProgress(db: Db, j: JobRef) {
    j in db.jobs && db.jobs[j].state == Progress
  }

  /** A job that is over, and not because it was stopped. */
  predicate Final(db: Db, j: JobRef) {
    j in db.jobs && db.jobs[j].state != Progress && db.jobs[j].state != Stopped
  }

  /** The second step of copy_job_manager.stop and hashsum_job_manager.stop begins: its SELECT. */
  function ReadForStop(db: Db, j: JobRef): Db {
    if InProgress(db, j) then db.(stopping := db.stopping + multiset{j}) else db
  }

  /** The UPDATE of a stop whose SELECT found the job in progress, whatever became of it since. */
  function WriteStop(db: Db, j: JobRef): Db {
    if j !in db.stopping then db
    else
      var done := db.(stopping := db.stopping - multiset{j});
      if j !in db.jobs then done
      else done.(jobs := db.jobs[j := db.jobs[j].(state := Stopped)],
                 overwritten := db.overwritten + if Final(db, j) then {j} else {})
  }

  /** Both without a step of anyone else in between. */
  function MarkStopped(db: Db, j: JobRef): Db {
    if InProgress(db, j) then db.(jobs := db.jobs[j := db.jobs[j].(state := Stopped)]) else db
  }

  lemma StopAtOnce(db: Db, j: JobRef)
    ensures var d := ReadForStop(db, j);
      if InProgress(db, j) then j in d.stopping && WriteStop(d, j) == MarkStopped(db, j)
      else d == db == MarkStopped(db, j)
  {
    assert db.stopping + multiset{j} - multiset{j} == db.stopping;
  }

  // ---------------------------------------------------------------- claiming

  predicate Live(db: Db, w: nat) {
    w in db.workers && db.workers[w].revokedAt.None?
  }

  predicate Candidate(db: Db, w: nat, kinds: set<JobKind>, j: JobRef)
    requires w in db.workers
  {
    && j in db.remote && db.remote[j].phase == Queued
    && db.remote[j].pool == db.workers[w].pool && j.kind in kinds
    && (db.workers[w].bound.Some? ==> db.workers[w].bound.value == j)
  }

  /** The row the SELECT of _try_claim returns: the oldest candidate nobody has locked. */
  predicate Picks(db: Db, w: nat, kinds: set<JobKind>, skip: set<JobRef>, j: JobRef)
    requires w in db.workers
  {
    && Candidate(db, w, kinds, j) && j !in skip
    && forall o :: o in db.remote && Candidate(db, w, kinds, o) && o !in skip ==> db.remote[j].id <= db.remote[o].id
  }

  function Select(db: Db, w: nat, kinds: set<JobKind>, skip: set<JobRef>, j: JobRef): Db {
    if Live(db, w) && Picks(db, w, kinds, skip, j) then db.(selected := db.selected + {(w, j)}) else db
  }

  /** The row after the compare-and-set. */
  function Claimed(db: Db, w: nat, j: JobRef): Db
    requires j in db.remote
  {
    db.(remote := db.remote[j := db.remote[j].(
          phase := Running,
          claim := Some(Claim(w, db.now, db.now + db.cfg.leaseSeconds, db.now + db.cfg.ticketSeconds, db.nextId)),
          broker := Some(db.nextId + 1),
          stopRequested := false)],
        nextId := db.nextId + 2)
  }

  predicate Claimable(db: Db, w: nat, j: JobRef) {
    (w, j) in db.selected && j in db.remote && db.remote[j].phase == Queued
  }

  /** The compare-and-set and what follows it; `prepared`: build_ticket succeeds. */
  function TryClaim(db: Db, w: nat, j: JobRef, prepared: bool): Db {
    var free := db.(selected := db.selected - {(w, j)});
    if !Claimable(db, w, j) then free else
      var c := Claimed(free, w, j);
      if j !in db.jobs || db.jobs[j].state != Progress then EndAll(c, {j})
      else if !prepared then ExpireAll(c, {j})
      else c
  }

  predicate ClaimGranted(db: Db, w: nat, j: JobRef, prepared: bool) {
    Claimable(db, w, j) && j in db.jobs && db.jobs[j].state == Progress && prepared
  }

  // ---------------------------------------------------------------- ticket calls

  /** authenticate, then _ticket. */
  function TicketReply(db: Db, w: nat, j: JobRef, ticket: nat): Reply {
    if !Live(db, w) then Unauthorized
    else if j !in db.remote || db.remote[j].claim.None?
         || db.remote[j].claim.value.worker != w || db.remote[j].claim.value.ticket != ticket then Forbidden
    else if db.remote[j].phase != Running then Gone
    else if Overdue(db.remote[j].claim.value, db.now) then Lapsed
    else Granted
  }

  function ProgressCall(db: Db, w: nat, j: JobRef, ticket: nat): Db {
    match TicketReply(db, w, j, ticket)
    case Granted =>
      var claim := db.remote[j].claim.value.(leaseEnds := db.now + db.cfg.leaseSeconds);
      db.(remote := db.remote[j := db.remote[j].(claim := Some(claim))])
    case Lapsed => ExpireAll(db, {j})
    case _ => db
  }

  predicate TellsToStop(db: Db, j: JobRef)
    requires j in db.remote
  {
    db.remote[j].stopRequested || j !in db.jobs || db.jobs[j].state == Stopped
  }

  function FinalState(stopped: bool, reported: JobState): JobState {
    if stopped then Stopped else if reported == Stopped then Failed else reported
  }

  function FinishReply(db: Db, w: nat, j: JobRef, ticket: nat, reported: JobState, trees: bool): Reply {
    if reported == Progress then BadRequest
    else
      var reply := TicketReply(db, w, j, ticket);
      if reply == Granted && j.kind == Hashsum && !trees then BadRequest else reply
  }

  /** The job of a granted report takes its final state, and its user a mail unless it was stopped. */
  function Reported(db: Db, j: JobRef, reported: JobState): Db
    requires j in db.jobs && j in db.remote
  {
    var final := FinalState(db.remote[j].stopRequested || db.jobs[j].state == Stopped, reported);
    db.(jobs := db.jobs[j := db.jobs[j].(state := final)],
        mail := if final == Stopped then db.mail else db.mail + multiset{j})
  }

  /** `trees`: a hashsum report's trees are lists (or absent). */
  function FinishCall(db: Db, w: nat, j: JobRef, ticket: nat, reported: JobState, trees: bool): Db {
    match FinishReply(db, w, j, ticket, reported, trees)
    case Granted =>
      EndAll(if j in db.jobs then Reported(db, j, reported) else db, {j})
    case Lapsed => ExpireAll(db, {j})
    case _ => db
  }

  /** handle_worker_token_request; `connected`: the job has an OAuth connection on that side. */
  predicate BrokerGranted(db: Db, j: JobRef, secret: nat, connected: bool) {
    && j in db.remote && db.remote[j].broker == Some(secret) && db.remote[j].phase == Running
    && db.remote[j].claim.Some? && !Overdue(db.remote[j].claim.value, db.now)
    && Live(db, db.remote[j].claim.value.worker)
    && j in db.jobs && connected
  }

  // ---------------------------------------------------------------- bootstrap tokens

  predicate BootstrapAllowed(db: Db, pool: string, bound: Option<JobRef>, ttl: int) {
    && pool != "central" && 30 <= ttl <= 24 * 3600
    && (bound.Some? ==> && bound.value in db.remote && db.remote[bound.value].pool == pool
                        && db.remote[bound.value].phase == Queued)
  }

  /** create_bootstrap_token; the new token's id is the old nextId. */
  function CreateBootstrap(db: Db, pool: string, bound: Option<JobRef>, ttl: int): Db {
    if !BootstrapAllowed(db, pool, bound, ttl) then db else
      db.(bootstraps := db.bootstraps[db.nextId := Bootstrap(pool, bound, db.now + ttl, None, None)],
          nextId := db.nextId + 1)
  }

  predicate Exchangeable(db: Db, t: nat) {
    t in db.bootstraps && db.bootstraps[t].usedAt.None? && db.now < db.bootstraps[t].expiresAt
  }

  function Exchange(db: Db, t: nat): Db {
    if !Exchangeable(db, t) then db else
      var token := db.bootstraps[t];
      db.(workers := db.workers[db.nextId := Worker(token.pool, true, token.bound, Some(t), None)],
          bootstraps := db.bootstraps[t := token.(usedAt := Some(db.now), worker := Some(db.nextId))],
          nextId := db.nextId + 1)
  }

  function ExpireBootstrap(db: Db, t: Option<nat>): Db {
    if t.Some? && Exchangeable(db, t.value)
    then db.(bootstraps := db.bootstraps[t.value := db.bootstraps[t.value].(expiresAt := db.now)]) else db
  }

  function AddWorker(db: Db, pool: string): Db {
    if pool == "central" then db else
      db.(workers := db.workers[db.nextId := Worker(pool, false, None, None, None)], nextId := db.nextId + 1)
  }

  // ---------------------------------------------------------------- the manager

  lemma ExpireNone(db: Db)
    ensures ExpireAll(db, {}) == db
  {
    var e := ExpireAll(db, {});
    assert Told(db, {}) == {};
    assert e.jobs == db.jobs && e.remote == db.remote && e.workers == db.workers;
    assert e.mail == db.mail;
  }

  /** One worker is retired by at most one of two disjoint batches, and stays so. */
  lemma RetiresOneMore(db: Db, done: set<JobRef>, r: JobRef, w: nat)
    requires r !in done && w in db.workers
    ensures var a := ExpireAll(db, done);
      && w in a.workers
      && (if Retires(a, w, {r}) then a.workers[w].(revokedAt := Some(db.now)) else a.workers[w])
         == (if Retires(db, w, done + {r}) then db.workers[w].(revokedAt := Some(db.now)) else db.workers[w])
  {
  }

  /** What ExpireAll makes of one job and one row. */
  lemma ExpireIs(db: Db, hit: set<JobRef>)
    ensures var a := ExpireAll(db, hit);
      && a.jobs.Keys == db.jobs.Keys && a.remote.Keys == db.remote.Keys && a.workers.Keys == db.workers.Keys
      && a.mail == db.mail + multiset(Told(db, hit))
      && a == db.(jobs := a.jobs, remote := a.remote, workers := a.workers, mail := a.mail)
      && (forall j :: j in db.jobs ==>
            a.jobs[j] == if j in Told(db, hit) then db.jobs[j].(state := Failed) else db.jobs[j])
      && (forall j :: j in db.remote ==> a.remote[j] == if j in hit then Ended(db.remote[j]) else db.remote[j])
  {
    hide Ended, Retires;
  }

  lemma ToldOneMore(db: Db, done: set<JobRef>, r: JobRef)
    requires r !in done
    ensures var a := ExpireAll(db, done);
      && Told(db, done + {r}) == Told(db, done) + Told(a, {r})
      && Told(db, done) !! Told(a, {r})
      && ExpireAll(a, {r}).mail == ExpireAll(db, done + {r}).mail
  {
    var a := ExpireAll(db, done);
    ExpireIs(db, done);
    ExpireIs(a, {r});
    ExpireIs(db, done + {r});
    hide ExpireAll;
    assert Told(a, {r}) == if r in db.jobs && db.jobs[r].state == Progress then {r} else {};
    assert Told(db, done + {r}) == Told(db, done) + Told(a, {r});
    hide Told;
    assert multiset(Told(db, done) + Told(a, {r})) == multiset(Told(db, done)) + multiset(Told(a, {r}));
  }

  lemma WorkersOneMore(db: Db, done: set<JobRef>, r: JobRef)
    requires r !in done
    ensures ExpireAll(ExpireAll(db, done), {r}).workers == ExpireAll(db, done + {r}).workers
  {
    hide Told, Retires, Ended;
    var b, c := ExpireAll(ExpireAll(db, done), {r}), ExpireAll(db, done + {r});
    forall w | w in db.workers
      ensures b.workers[w] == c.workers[w]
    {
      RetiresOneMore(db, done, r, w);
      WorkerIs(db, done + {r}, w);
      WorkerIs(ExpireAll(db, done), {r}, w);
    }
    assert b.workers.Keys == c.workers.Keys;
  }

  lemma WorkerIs(db: Db, hit: set<JobRef>, w: nat)
    requires w in db.workers
    ensures w in ExpireAll(db, hit).workers
    ensures ExpireAll(db, hit).workers[w] ==
      if Retires(db, w, hit) then db.workers[w].(revokedAt := Some(db.now)) else db.workers[w]
  {
  }

  /** Ending the rows one after the other gives what ending them all at once gives. */
  lemma ExpireOneMore(db: Db, done: set<JobRef>, r: JobRef)
    requires r !in done
    ensures ExpireAll(ExpireAll(db, done), {r}) == ExpireAll(db, done + {r})
  {
    hide ExpireAll, Told;
    var a := ExpireAll(db, done);
    var b, c := ExpireAll(a, {r}), ExpireAll(db, done + {r});
    ToldOneMore(db, done, r);
    WorkersOneMore(db, done, r);
    ExpireIs(db, done);
    ExpireIs(a, {r});
    ExpireIs(db, done + {r});
    assert b.jobs == c.jobs;
    assert b.remote == c.remote;
  }

  class Manager {
    const cfg: Config
    var now: int
    var nextId: nat
    var used: set<JobRef>
    var jobs: map<JobRef, Job>
    var remote: map<JobRef, RemoteJob>
    var workers: map<nat, Worker>
    var bootstraps: map<nat, Bootstrap>
    var selected: set<(nat, JobRef)>
    var mail: multiset<JobRef>
    var stopping: multiset<JobRef>
    var overwritten: set<JobRef>

    function Snapshot(): Db
      reads this
    {
      Db(cfg, now, nextId, used, jobs, remote, workers, bootstraps, selected, mail, stopping, overwritten)
    }

    constructor (cfg: Config)
      ensures Snapshot() == Init(cfg)
    {
      this.cfg := cfg;
      now, nextId, used, selected, mail := 0, 0, {}, {}, multiset{};
      stopping, overwritten := multiset{}, {};
      jobs, remote, workers, bootstraps := map[], map[], map[], map[];
    }

    /** _end */
    method End(r: JobRef)
      requires r in remote
      modifies this`remote, this`workers
      ensures Snapshot() == EndAll(old(Snapshot()), {r})
    {
      ghost var before := Snapshot();
      var row := remote[r];
      remote := remote[r := row.(phase := Done, broker := None)];
      if row.claim.Some? && row.claim.value.worker in workers {
        var w := row.claim.value.worker;
        if workers[w].ephemeral && workers[w].revokedAt.None? && workers[w].bound == Some(r) {
          workers := workers[w := workers[w].(revokedAt := Some(now))];
        }
      }
      assert remote == EndAll(before, {r}).remote;
      assert workers == EndAll(before, {r}).workers;
    }

    /** _expire, and the notification it returns sent */
    method Expire(r: JobRef)
      requires r in remote
      modifies this`remote, this`workers, this`jobs, this`mail
      ensures Snapshot() == ExpireAll(old(Snapshot()), {r})
    {
      ghost var before := Snapshot();
      if r in jobs && jobs[r].state == Progress {
        jobs := jobs[r := jobs[r].(state := Failed)];
        mail := mail + multiset{r};
        assert Told(before, {r}) == {r};
      } else {
        assert Told(before, {r}) == {};
      }
      assert jobs == ExpireAll(before, {r}).jobs;
      End(r);
    }

    method ExpireRows(rows: set<JobRef>)
      requires rows <= remote.Keys
      modifies this`remote, this`workers, this`jobs, this`mail
      ensures Snapshot() == ExpireAll(old(Snapshot()), rows)
    {
      hide ExpireAll;
      ghost var before := Snapshot();
      var todo := rows;
      ghost var done: set<JobRef> := {};
      ExpireNone(before);
      while todo != {}
        invariant todo !! done && todo + done == rows
        invariant remote.Keys == before.remote.Keys
        invariant Snapshot() == ExpireAll(before, done)
        decreases todo
      {
        var r :| r in todo;
        ExpireIs(Snapshot(), {r});
        Expire(r);
        ExpireOneMore(before, done, r);
        todo, done := todo - {r}, done + {r};
      }
      assert done == rows;
    }

    method ExpireLeases(skip: set<JobRef>)
      modifies this`remote, this`workers, this`jobs, this`mail
      ensures Snapshot() == Sweep(old(Snapshot()), skip)
    {
      var rows := OverdueRows(Snapshot()) - skip;
      ExpireRows(rows);
    }

    method RevokeWorker(w: nat)
      requires w in workers
      modifies this`remote, this`workers, this`jobs, this`mail
      ensures Snapshot() == Revoke(old(Snapshot()), w)
    {
      var running := RunningOf(Snapshot(), w);
      if workers[w].revokedAt.None? {
        workers := workers[w := workers[w].(revokedAt := Some(now))];
      }
      assert workers == old(workers)[w := workers[w]];
      ExpireRows(running);
    }

    method FailRemoteJob(r: JobRef)
      modifies this`remote, this`workers, this`jobs, this`mail
      ensures Snapshot() == FailRemote(old(Snapshot()), r)
    {
      if r !in remote || remote[r].phase == Done {
        return;
      }
      Expire(r);
    }

    /** request_stop; false if the job runs with Celery */
    method RequestStopOf(j: JobRef) returns (isRemote: bool)
      modifies this`remote
      ensures isRemote == (j in old(remote))
      ensures Snapshot() == RequestStop(old(Snapshot()), j)
    {
      if j !in remote {
        return false;
      }
      if remote[j].phase == Queued {
        remote := remote[j := remote[j].(phase := Done)];
      } else if remote[j].phase == Running {
        remote := remote[j := remote[j].(stopRequested := true)];
      }
      return true;
    }

    method ReadJobForStop(j: JobRef) returns (found: bool)
      modifies this`stopping
      ensures found == InProgress(old(Snapshot()), j)
      ensures Snapshot() == ReadForStop(old(Snapshot()), j)
    {
      found := j in jobs && jobs[j].state == Progress;
      if found {
        stopping := stopping + multiset{j};
      }
    }

    method WriteStopped(j: JobRef)
      requires j in stopping
      modifies this`stopping, this`jobs, this`overwritten
      ensures Snapshot() == WriteStop(old(Snapshot()), j)
    {
      stopping := stopping - multiset{j};
      if j in jobs {
        if jobs[j].state != Progress && jobs[j].state != Stopped {
          overwritten := overwritten + {j};
        }
        jobs := jobs[j := jobs[j].(state := Stopped)];
      }
    }

    /** copy_job_manager.stop of a remote job, when nothing happens between its steps */
    method Stop(j: JobRef)
      modifies this`remote, this`jobs, this`stopping, this`overwritten
      ensures Snapshot() == MarkStopped(RequestStop(old(Snapshot()), j), j)
    {
      hide RequestStop, ReadForStop, WriteStop, MarkStopped;
      var _ := RequestStopOf(j);
      StopAtOnce(Snapshot(), j);
      var found := ReadJobForStop(j);
      if found {
        WriteStopped(j);
      }
    }

    method QueueJobFor(j: JobRef, pool: string, sourceBytes: Option<nat>)
      requires j in jobs && jobs[j].creating && j !in remote
      modifies this`remote, this`jobs, this`nextId
      ensures Snapshot() == QueueJob(old(Snapshot()), j, pool, sourceBytes)
    {
      remote := remote[j := RemoteJob(nextId, pool, sourceBytes, Queued, None, None, false)];
      nextId := nextId + 1;
      jobs := jobs[j := jobs[j].(creating := false)];
    }

    /** The SELECT of _try_claim: a search for the oldest candidate. */
    method SelectQueued(w: nat, kinds: set<JobKind>, skip: set<JobRef>) returns (found: Option<JobRef>)
      requires Live(Snapshot(), w)
      modifies this`selected
      ensures found.None? ==> unchanged(this)
      ensures found.None? ==> forall j :: j in remote && Candidate(old(Snapshot()), w, kinds, j) ==> j in skip
      ensures found.Some? ==> Picks(old(Snapshot()), w, kinds, skip, found.value)
      ensures found.Some? ==> Snapshot() == Select(old(Snapshot()), w, kinds, skip, found.value)
    {
      found := None;
      var db := Snapshot();
      var todo := remote.Keys;
      while todo != {}
        invariant todo <= remote.Keys
        invariant found.Some? ==> Candidate(db, w, kinds, found.value) && found.value !in skip
        invariant forall o ::
          (o in remote && o !in todo && Candidate(db, w, kinds, o) && o !in skip ==>
             found.Some? && remote[found.value].id <= remote[o].id)
        decreases todo
      {
        var o :| o in todo;
        todo := todo - {o};
        if Candidate(db, w, kinds, o) && o !in skip
           && (found.None? || remote[o].id < remote[found.value].id) {
          found := Some(o);
        }
      }
      if found.Some? {
        selected := selected + {(w, found.value)};
      }
    }

    /** The compare-and-set of _try_claim; returns whether the worker got its ticket. */
    method ClaimSelected(w: nat, j: JobRef, prepared: bool) returns (granted: bool)
      modifies this`selected, this`remote, this`nextId, this`workers, this`jobs, this`mail
      ensures granted == ClaimGranted(old(Snapshot()), w, j, prepared)
      ensures Snapshot() == TryClaim(old(Snapshot()), w, j, prepared)
    {
      hide ExpireAll, EndAll;
      var found := (w, j) in selected;
      selected := selected - {(w, j)};
      if !found || j !in remote || remote[j].phase != Queued {
        return false; // rowcount is 0: another claimer won
      }
      var claim := Claim(w, now, now + cfg.leaseSeconds, now + cfg.ticketSeconds, nextId);
      ghost var free := Snapshot();
      remote := remote[j := remote[j].(
        phase := Running, claim := Some(claim), broker := Some(nextId + 1), stopRequested := false)];
      nextId := nextId + 2;
      assert Snapshot() == Claimed(free, w, j);
      if j !in jobs || jobs[j].state != Progress {
        End(j);
        return false;
      }
      if !prepared {
        Expire(j);
        return false;
      }
      return true;
    }

    method Ticket(w: nat, j: JobRef, ticket: nat) returns (reply: Reply)
      modifies this`remote, this`workers, this`jobs, this`mail
      ensures reply == TicketReply(old(Snapshot()), w, j, ticket)
      ensures Snapshot() == if reply == Lapsed then ExpireAll(old(Snapshot()), {j}) else old(Snapshot())
    {
      if w !in workers || workers[w].revokedAt.Some? {
        return Unauthorized;
      }
      if j !in remote || remote[j].claim.None? || remote[j].claim.value.worker != w
         || remote[j].claim.value.ticket != ticket {
        return Forbidden;
      }
      if remote[j].phase != Running {
        return Gone;
      }
      if remote[j].claim.value.leaseEnds < now || remote[j].claim.value.ticketEnds < now {
        Expire(j);
        return Lapsed;
      }
      return Granted;
    }

    /** progress: renews the lease; `stop` tells the worker to stop its rclone */
    method ReportProgress(w: nat, j: JobRef, ticket: nat) returns (reply: Reply, stop: bool)
      modifies this`remote, this`workers, this`jobs, this`mail
      ensures reply == TicketReply(old(Snapshot()), w, j, ticket)
      ensures Snapshot() == ProgressCall(old(Snapshot()), w, j, ticket)
      ensures reply == Granted ==> stop == TellsToStop(old(Snapshot()), j)
    {
      reply := Ticket(w, j, ticket);
      stop := false;
      if reply == Granted {
        var claim := remote[j].claim.value.(leaseEnds := now + cfg.leaseSeconds);
        remote := remote[j := remote[j].(claim := Some(claim))];
        stop := remote[j].stopRequested || j !in jobs || jobs[j].state == Stopped;
      }
    }

    method ReportFinish(w: nat, j: JobRef, ticket: nat, reported: JobState, trees: bool) returns (reply: Reply)
      modifies this`remote, this`workers, this`jobs, this`mail
      ensures reply == FinishReply(old(Snapshot()), w, j, ticket, reported, trees)
      ensures Snapshot() == FinishCall(old(Snapshot()), w, j, ticket, reported, trees)
    {
      hide EndAll, ExpireAll, Reported;
      if reported == Progress {
        return BadRequest;
      }
      reply := Ticket(w, j, ticket);
      if reply != Granted {
        return;
      }
      if j.kind == Hashsum && !trees {
        return BadRequest;
      }
      if j in jobs {
        SettleReported(j, reported);
      }
      End(j);
    }

    method SettleReported(j: JobRef, reported: JobState)
      requires j in jobs && j in remote
      modifies this`jobs, this`mail
      ensures Snapshot() == Reported(old(Snapshot()), j, reported)
    {
      var stopped := remote[j].stopRequested || jobs[j].state == Stopped;
      var final := reported;
      if stopped {
        final := Stopped;
      } else if reported == Stopped {
        final := Failed; // the worker stopped without being asked
      }
      jobs := jobs[j := jobs[j].(state := final)];
      if final != Stopped {
        mail := mail + multiset{j};
      }
    }

    method CreateBootstrapToken(pool: string, bound: Option<JobRef>, ttl: int) returns (token: Option<nat>)
      modifies this`bootstraps, this`nextId
      ensures token == if BootstrapAllowed(old(Snapshot()), pool, bound, ttl) then Some(old(nextId)) else None
      ensures Snapshot() == CreateBootstrap(old(Snapshot()), pool, bound, ttl)
    {
      if pool == "central" || ttl < 30 || 24 * 3600 < ttl {
        return None;
      }
      if bound.Some? && (bound.value !in remote || remote[bound.value].pool != pool
                         || remote[bound.value].phase != Queued) {
        return None;
      }
      token := Some(nextId);
      bootstraps := bootstraps[nextId := Bootstrap(pool, bound, now + ttl, None, None)];
      nextId := nextId + 1;
    }

    method ExchangeBootstrapToken(t: nat) returns (worker: Option<nat>)
      modifies this`bootstraps, this`workers, this`nextId
      ensures worker == if Exchangeable(old(Snapshot()), t) then Some(old(nextId)) else None
      ensures Snapshot() == Exchange(old(Snapshot()), t)
    {
      if t !in bootstraps || bootstraps[t].usedAt.Some? || bootstraps[t].expiresAt <= now {
        return None;
      }
      workers := workers[nextId := Worker(bootstraps[t].pool, true, bootstraps[t].bound, Some(t), None)];
      bootstraps := bootstraps[t := bootstraps[t].(usedAt := Some(now), worker := Some(nextId))];
      worker := Some(nextId);
      nextId := nextId + 1;
    }

    /** expire_bootstrap_token: an unused token dies with its instance */
    method ExpireBootstrapToken(t: Option<nat>)
      modifies this`bootstraps
      ensures Snapshot() == ExpireBootstrap(old(Snapshot()), t)
    {
      if t.Some? && t.value in bootstraps {
        var token := bootstraps[t.value];
        if token.usedAt.None? && token.expiresAt > now {
          bootstraps := bootstraps[t.value := token.(expiresAt := now)];
        }
      }
    }
  }
}
