/**
 What each call of the remote-job protocol does to the job, its row, its mail and its worker,
 and which finish a job's final state comes from.
 */
module WorkerCalls {
  import opened Options
  import opened WorkerManager
  import opened WorkerRuns

  // ---------------------------------------------------------------- single calls

  /** Nothing changes but the job, its row, its mail and the ephemeral worker that exists for it. */
  ghost predicate OnlyThis(db: Db, d: Db, j: JobRef) {
    && d == db.(jobs := d.jobs, remote := d.remote, workers := d.workers, mail := d.mail)
    && d.jobs.Keys == db.jobs.Keys && d.remote.Keys == db.remote.Keys && d.workers.Keys == db.workers.Keys
    && (forall k :: k in db.jobs && k != j ==> d.jobs[k] == db.jobs[k])
    && (forall k :: k in db.remote && k != j ==> d.remote[k] == db.remote[k])
    && (forall k :: k != j ==> d.mail[k] == db.mail[k])
  }

  /** Of the workers only an ephemeral one bound to this job that holds its claim is revoked, now. */
  ghost predicate RevokesItsWorker(db: Db, d: Db, j: JobRef) {
    forall w :: w in db.workers && w in d.workers ==>
      d.workers[w] == db.workers[w].(revokedAt :=
        if && j in db.remote && db.remote[j].claim.Some? && db.remote[j].claim.value.worker == w
           && db.workers[w].ephemeral && db.workers[w].bound == Some(j) && db.workers[w].revokedAt.None?
        then Some(db.now) else db.workers[w].revokedAt)
  }

  predicate RowEnds(db: Db, d: Db, j: JobRef) {
    j in db.remote && j in d.remote && d.remote[j] == db.remote[j].(phase := Done, broker := None)
  }

  /** If it is hit, a job in PROGRESS fails with a mail; any other keeps its state, without one. */
  predicate JobFails(db: Db, d: Db, j: JobRef, hit: bool) {
    var fails := hit && j in db.jobs && db.jobs[j].state.Progress?;
    && (j in db.jobs ==> j in d.jobs && d.jobs[j] == if fails then db.jobs[j].(state := Failed) else db.jobs[j])
    && d.mail[j] == db.mail[j] + if fails then 1 else 0
  }

  /** When a call with a ticket is granted, and why it is refused otherwise. */
  lemma TicketExact(db: Db, w: nat, j: JobRef, ticket: nat)
    ensures var reply := TicketReply(db, w, j, ticket);
      var live := w in db.workers && db.workers[w].revokedAt.None?;
      var mine := && j in db.remote && db.remote[j].claim.Some? && db.remote[j].claim.value.worker == w
                  && db.remote[j].claim.value.ticket == ticket;
      && (reply.Unauthorized? <==> !live)
      && (reply.Forbidden? <==> live && !mine)
      && (reply.Gone? <==> live && mine && db.remote[j].phase != Running)
      && (reply.Granted? <==> (
            && live && mine && db.remote[j].phase == Running
            && db.now <= db.remote[j].claim.value.leaseEnds && db.now <= db.remote[j].claim.value.ticketEnds))
      && !reply.BadRequest?
  {
  }

  lemma EndIs(db: Db, j: JobRef)
    requires j in db.remote
    ensures var d := EndAll(db, {j});
      OnlyThis(db, d, j) && RevokesItsWorker(db, d, j) && RowEnds(db, d, j) && d.jobs == db.jobs && d.mail == db.mail
  {
  }

  /** A job that expires: one in PROGRESS fails with a mail, any other keeps its state. */
  lemma ExpireOne(db: Db, j: JobRef)
    requires j in db.remote
    ensures var d := ExpireAll(db, {j});
      && OnlyThis(db, d, j) && RevokesItsWorker(db, d, j) && RowEnds(db, d, j)
      && JobFails(db, d, j, true)
  {
    hide EndAll, RevokesItsWorker;
    var told := Told(db, {j});
    var fails := j in db.jobs && db.jobs[j].state.Progress?;
    assert told == if fails then {j} else {};
    var settled := db.(jobs := map k | k in db.jobs :: if k in told then db.jobs[k].(state := Failed) else db.jobs[k],
                       mail := db.mail + multiset(told));
    assert ExpireAll(db, {j}) == EndAll(settled, {j});
    hide ExpireAll, Told;
    EndIs(settled, j);
    RevokesSame(db, settled, EndAll(settled, {j}), j);
  }

  lemma RevokesSame(a: Db, b: Db, d: Db, j: JobRef)
    requires RevokesItsWorker(b, d, j) && a.workers == b.workers && a.remote == b.remote && a.now == b.now
    ensures RevokesItsWorker(a, d, j)
  {
  }

  /** A granted progress report renews the lease and nothing else; a late one expires the job. */
  lemma ProgressEffect(db: Db, w: nat, j: JobRef, ticket: nat)
    ensures var d, reply := Step(db, Report(w, j, ticket)), TicketReply(db, w, j, ticket);
      match reply
      case Granted => d == db.(remote := db.remote[j := db.remote[j].(
          claim := Some(db.remote[j].claim.value.(leaseEnds := db.now + db.cfg.leaseSeconds)))])
      case Lapsed => d == Step(db, FailBy(j))
      case _ => d == db
  {
  }

  /** The worker is told to stop exactly if its user asked for it, the job was stopped, or is gone. */
  lemma StopTold(db: Db, j: JobRef)
    requires j in db.remote
    ensures !TellsToStop(db, j) <==>
      && !db.remote[j].stopRequested && j in db.jobs && !db.jobs[j].state.Stopped?
  {
  }

  /** The state a granted finish leaves, and the mail. */
  lemma FinishEffect(db: Db, w: nat, j: JobRef, ticket: nat, reported: JobState, trees: bool)
    requires FinishReply(db, w, j, ticket, reported, trees).Granted?
    ensures var d := Step(db, Finish(w, j, ticket, reported, trees));
      && TicketReply(db, w, j, ticket).Granted? && !reported.Progress? && (j.kind.Hashsum? ==> trees)
      && OnlyThis(db, d, j) && RevokesItsWorker(db, d, j) && RowEnds(db, d, j)
      && (j in db.jobs && (db.remote[j].stopRequested || db.jobs[j].state.Stopped?) ==>
            d.jobs[j] == db.jobs[j].(state := Stopped) && d.mail[j] == db.mail[j])
      && (j in db.jobs && !db.remote[j].stopRequested && !db.jobs[j].state.Stopped? && !reported.Stopped? ==>
            d.jobs[j] == db.jobs[j].(state := reported) && d.mail[j] == db.mail[j] + 1)
      && (j in db.jobs && !db.remote[j].stopRequested && !db.jobs[j].state.Stopped? && reported.Stopped? ==>
            d.jobs[j] == db.jobs[j].(state := Failed) && d.mail[j] == db.mail[j] + 1)
      && (j !in db.jobs ==> d.mail[j] == db.mail[j])
  {
    hide EndAll, RevokesItsWorker, Reported;
    var settled := if j in db.jobs then Reported(db, j, reported) else db;
    assert Step(db, Finish(w, j, ticket, reported, trees)) == EndAll(settled, {j}) && j in db.remote;
    hide Step, TicketReply;
    if j in db.jobs { ReportedIs(db, j, reported); }
    EndIs(settled, j);
    RevokesSame(db, settled, EndAll(settled, {j}), j);
  }

  lemma ReportedIs(db: Db, j: JobRef, reported: JobState)
    requires j in db.jobs && j in db.remote
    ensures var d := Reported(db, j, reported);
      var stopped := db.remote[j].stopRequested || db.jobs[j].state.Stopped?;
      && d == db.(jobs := db.jobs[j := d.jobs[j]], mail := d.mail) && (forall k :: k != j ==> d.mail[k] == db.mail[k])
      && d.jobs[j] == db.jobs[j].(state :=
           if stopped then Stopped else if reported.Stopped? then Failed else reported)
      && d.mail[j] == db.mail[j] + if stopped then 0 else 1
  {
  }

  /** A finish that is not granted expires an overdue job, and else does nothing. */
  lemma FinishRefused(db: Db, w: nat, j: JobRef, ticket: nat, reported: JobState, trees: bool)
    ensures var d := Step(db, Finish(w, j, ticket, reported, trees));
      var reply := FinishReply(db, w, j, ticket, reported, trees);
      && (reply.Lapsed? ==> d == Step(db, FailBy(j)))
      && (!reply.Granted? && !reply.Lapsed? ==> d == db)
      && (reply.Granted? <==>
            TicketReply(db, w, j, ticket).Granted? && !reported.Progress? && (j.kind.Hashsum? ==> trees))
  {
    hide EndAll, ExpireAll, Reported, TicketReply, Overdue;
    LapsedRuns(db, w, j, ticket);
  }

  lemma LapsedRuns(db: Db, w: nat, j: JobRef, ticket: nat)
    ensures TicketReply(db, w, j, ticket).Lapsed? ==> j in db.remote && db.remote[j].phase == Running
  {
  }

  /** Failing a job by name ends an open row, and the job if it is in PROGRESS. */
  lemma FailEffect(db: Db, j: JobRef)
    ensures var d := Step(db, FailBy(j));
      if j in db.remote && db.remote[j].phase != Done
      then (
        && OnlyThis(db, d, j) && RevokesItsWorker(db, d, j) && RowEnds(db, d, j)
        && JobFails(db, d, j, true))
      else d == db
  {
    if j in db.remote && db.remote[j].phase != Done { ExpireOne(db, j); }
    hide ExpireAll;
  }

  /** What a sweep and a revocation do to one job, whichever others they hit. */
  predicate ExpiresIf(db: Db, d: Db, j: JobRef, hit: bool) {
    && (j in d.jobs <==> j in db.jobs) && (j in d.remote <==> j in db.remote)
    && (j in db.remote ==> d.remote[j] == if hit then db.remote[j].(phase := Done, broker := None) else db.remote[j])
    && JobFails(db, d, j, hit)
  }

  lemma ExpireEach(db: Db, hit: set<JobRef>, j: JobRef)
    ensures ExpiresIf(db, ExpireAll(db, hit), j, j in hit)
  {
    ExpireIs(db, hit);
    hide ExpireAll;
  }

  lemma SweepEffect(db: Db, skip: set<JobRef>, j: JobRef)
    ensures ExpiresIf(db, Step(db, SweepLeases(skip)), j,
      && j in db.remote && j !in skip && db.remote[j].phase == Running && db.remote[j].claim.Some?
      && (db.remote[j].claim.value.leaseEnds < db.now || db.remote[j].claim.value.ticketEnds < db.now))
  {
    ExpireEach(db, OverdueRows(db) - skip, j);
    hide ExpireAll;
  }

  lemma RevokeEffect(db: Db, w: nat, j: JobRef)
    requires w in db.workers
    ensures var d := Step(db, RevokeBy(w));
      && ExpiresIf(db, d, j,
           && j in db.remote && db.remote[j].phase == Running && db.remote[j].claim.Some?
           && db.remote[j].claim.value.worker == w)
      && w in d.workers && d.workers[w].revokedAt ==
           if db.workers[w].revokedAt.Some? then db.workers[w].revokedAt else Some(db.now)
  {
    var stamped := db.(workers := db.workers[w :=
      if db.workers[w].revokedAt.None? then db.workers[w].(revokedAt := Some(db.now)) else db.workers[w]]);
    ExpireEach(stamped, RunningOf(db, w), j);
    WorkerIs(stamped, RunningOf(db, w), w);
    hide ExpireAll;
  }

  // ---------------------------------------------------------------- claiming

  /** A claimer selects the oldest unlocked row that is queued, of its pool and kinds, and its own if it is bound. */
  lemma PickEffect(db: Db, w: nat, kinds: set<JobKind>, skip: set<JobRef>, j: JobRef)
    requires (w, j) !in db.selected
    ensures var d := Step(db, Pick(w, kinds, skip, j));
      && d == db.(selected := d.selected) && d.selected - {(w, j)} == db.selected
      && ((w, j) in d.selected <==> (
            && w in db.workers && db.workers[w].revokedAt.None? && Offered(db, db.workers[w], kinds, skip, j)
            && forall o :: Offered(db, db.workers[w], kinds, skip, o) ==> db.remote[j].id <= db.remote[o].id))
  {
    if Live(db, w) {
      forall o
        ensures Offered(db, db.workers[w], kinds, skip, o) <==> Candidate(db, w, kinds, o) && o !in skip
      {
      }
    }
  }

  predicate Offered(db: Db, worker: Worker, kinds: set<JobKind>, skip: set<JobRef>, j: JobRef) {
    && j in db.remote && j !in skip && db.remote[j].phase == Queued && db.remote[j].pool == worker.pool
    && j.kind in kinds && (worker.bound.None? || worker.bound == Some(j))
  }

  /** What the compare-and-set writes: worker, times, a new ticket and a new broker token. */
  predicate ClaimWritten(db: Db, row: RemoteJob, before: RemoteJob, w: nat) {
    && row.phase == Running && row.claim.Some? && row.broker.Some? && !row.stopRequested
    && row.id == before.id && row.pool == before.pool && row.sourceBytes == before.sourceBytes
    && row.claim.value.worker == w && row.claim.value.claimedAt == db.now
    && row.claim.value.leaseEnds == db.now + db.cfg.leaseSeconds
    && row.claim.value.ticketEnds == db.now + db.cfg.ticketSeconds
    && row.claim.value.ticket >= db.nextId && row.broker.value >= db.nextId
    && row.claim.value.ticket != row.broker.value
  }

  /** A claim of a row that is still queued, for a job in PROGRESS whose ticket can be built. */
  lemma ClaimEffect(db: Db, w: nat, j: JobRef)
    requires (w, j) in db.selected && j in db.remote && db.remote[j].phase == Queued && InProgress(db, j)
    ensures var d := Step(db, Cas(w, j, true));
      && ClaimGranted(db, w, j, true)
      && d == db.(selected := db.selected - {(w, j)}, remote := d.remote, nextId := d.nextId) && db.nextId < d.nextId
      && d.remote.Keys == db.remote.Keys && ClaimWritten(db, d.remote[j], db.remote[j], w)
      && d.remote[j].claim.value.ticket < d.nextId && d.remote[j].broker.value < d.nextId
      && forall k :: k in db.remote && k != j ==> d.remote[k] == db.remote[k]
  {
  }

  /** Any other claim: none of a row that is no longer queued, and a row that ends at once. */
  lemma ClaimFails(db: Db, w: nat, j: JobRef, prepared: bool)
    requires !((w, j) in db.selected && j in db.remote && db.remote[j].phase == Queued && InProgress(db, j) && prepared)
    ensures !ClaimGranted(db, w, j, prepared)
    ensures var d := Step(db, Cas(w, j, prepared));
      if (w, j) in db.selected && j in db.remote && db.remote[j].phase == Queued
      then (
        && j in d.remote && d.remote[j].phase == Done && d.remote[j].broker.None?
        && JobFails(db, d, j, InProgress(db, j)))
      else d == db.(selected := db.selected - {(w, j)})
  {
    if Claimable(db, w, j) {
      var c := Claimed(db.(selected := db.selected - {(w, j)}), w, j);
      EndIs(c, j);
      ExpireOne(c, j);
      hide EndAll, ExpireAll;
    }
  }

  // ---------------------------------------------------------------- stopping

  /** A stop drops a queued row, marks a running one, and leaves every other. */
  lemma StopEffect(db: Db, j: JobRef)
    ensures var d := Step(db, StopFirst(j));
      && d == db.(remote := d.remote) && d.remote.Keys == db.remote.Keys
      && (forall k :: k in db.remote && k != j ==> d.remote[k] == db.remote[k])
      && (j in db.remote ==> d.remote[j] == match db.remote[j].phase
            case Queued => db.remote[j].(phase := Done)
            case Running => db.remote[j].(stopRequested := true)
            case Done => db.remote[j])
  {
  }

  /** Its second step reads PROGRESS, or is over; what it writes then is STOPPED, if the job is still there. */
  lemma StopEndEffect(db: Db, j: JobRef)
    ensures Step(db, StopReads(j)) ==
      if j in db.jobs && db.jobs[j].state.Progress? then db.(stopping := db.stopping + multiset{j}) else db
    ensures var d := Step(db, StopWrites(j));
      if j in db.stopping
      then (
        && d == db.(stopping := db.stopping - multiset{j}, jobs := d.jobs, overwritten := d.overwritten)
        && d.jobs == (if j in db.jobs then db.jobs[j := db.jobs[j].(state := Stopped)] else db.jobs)
        && (var final := j in db.jobs && !db.jobs[j].state.Progress? && !db.jobs[j].state.Stopped?;
            j in d.overwritten <==> j in db.overwritten || final))
      else d == db
  {
  }

  /** The row is running and its user has asked for a stop, or it has ended. */
  predicate StopAsked(db: Db, j: JobRef) {
    j in db.remote && (db.remote[j].phase == Running ==> db.remote[j].stopRequested) && db.remote[j].phase != Queued
  }

  lemma StopAskedStays(a: Db, b: Db, j: JobRef)
    requires Inv(a) && Evolves(a, b) && StopAsked(a, j)
    ensures StopAsked(b, j)
  {
    assert JobOk(a, j) && JobEvolves(a, b, j);
  }

  /**
   From the first step of a stop on no worker begins the job any more, every report of the one that
   has it is answered with stop, and a finish that is granted leaves it STOPPED, without a mail.
   */
  lemma StopReachesWorker(cfg: Config, es: seq<Event>, more: seq<Event>, e: Event, j: JobRef)
    requires j in Run(Init(cfg), es).remote
    ensures var b := Run(Step(Run(Init(cfg), es), StopFirst(j)), more);
      && j in b.remote && b.remote[j].phase != Queued
      && (Accepts(b, e, j) && e.Report? ==> TellsToStop(b, j))
      && (Accepts(b, e, j) && e.Finish? && j in b.jobs ==>
            j in Step(b, e).jobs && Step(b, e).jobs[j].state == Stopped && Step(b, e).mail[j] == b.mail[j])
  {
    var a := Run(Init(cfg), es);
    Reaches(cfg, es);
    StepKeeps(a, StopFirst(j));
    var s := Step(a, StopFirst(j));
    StopEffect(a, j);
    RunKeeps(s, more);
    StopAskedStays(s, Run(s, more), j);
    var b := Run(s, more);
    if e.Finish? && Accepts(b, e, j) && j in b.jobs {
      FinishEffect(b, e.worker, j, e.ticket, e.reported, e.trees);
    }
    hide Run, Step, Inv, Evolves;
  }

  // ---------------------------------------------------------------- queueing and tokens

  /** What creating, queueing and failing to queue a job leave. */
  lemma QueueEffect(db: Db, j: JobRef, cloudToCloud: bool, pool: string, size: Option<nat>)
    ensures Step(db, Create(j, cloudToCloud)) ==
      if j in db.used then db else db.(used := db.used + {j}, jobs := db.jobs[j := Job(Progress, true, cloudToCloud)])
    ensures var d := Step(db, Queue(j, pool, size));
      if j in db.jobs && db.jobs[j].creating && j !in db.remote
      then (
        && d == db.(jobs := db.jobs[j := Job(db.jobs[j].state, false, db.jobs[j].cloudToCloud)],
                    remote := d.remote, nextId := db.nextId + 1)
        && d.remote == db.remote[j := RemoteJob(db.nextId, pool, size, Queued, None, None, false)])
      else d == db
    ensures var d := Step(db, QueueFailed(j));
      if j in db.jobs && db.jobs[j].creating
      then d == db.(jobs := db.jobs[j := Job(Failed, false, db.jobs[j].cloudToCloud)])
      else d == db
  {
  }

  /** A bootstrap token: who gets one, how long it lives, and that it dies by use or by hand. */
  lemma TokenEffect(db: Db, pool: string, bound: Option<JobRef>, ttl: int)
    ensures var d := Step(db, NewToken(pool, bound, ttl));
      if && pool != "central" && 30 <= ttl <= 86400
         && (bound.Some? ==> (
              && bound.value in db.remote && db.remote[bound.value].pool == pool
              && db.remote[bound.value].phase == Queued))
      then d == db.(bootstraps := db.bootstraps[db.nextId := Bootstrap(pool, bound, db.now + ttl, None, None)],
                    nextId := db.nextId + 1)
      else d == db
  {
  }

  /** Signing in with a token that is unused and not over makes one ephemeral worker; dropping it makes it over. */
  lemma SignInEffect(db: Db, t: nat)
    ensures var d := Step(db, SignIn(t)); var token := if t in db.bootstraps then Some(db.bootstraps[t]) else None;
      if token.Some? && token.value.usedAt.None? && db.now < token.value.expiresAt
      then (
        && d == db.(workers := d.workers, bootstraps := d.bootstraps, nextId := db.nextId + 1)
        && d.workers == db.workers[db.nextId := Worker(token.value.pool, true, token.value.bound, Some(t), None)]
        && d.bootstraps == db.bootstraps[t := token.value.(usedAt := Some(db.now), worker := Some(db.nextId))]
        && Step(db, DropToken(Some(t))) == db.(bootstraps := db.bootstraps[t := token.value.(expiresAt := db.now)]))
      else d == db && Step(db, DropToken(Some(t))) == db
    ensures Step(db, DropToken(None)) == db
  {
  }

  /** Who gets an OAuth token: whoever has the broker token of a running row whose lease, ticket and worker are good. */
  lemma BrokerExact(db: Db, j: JobRef, secret: nat, connected: bool)
    ensures BrokerGranted(db, j, secret, connected) <==> (
      && j in db.jobs && connected
      && j in db.remote && db.remote[j].phase == Running && db.remote[j].broker == Some(secret)
      && db.remote[j].claim.Some? && db.now <= db.remote[j].claim.value.leaseEnds
      && db.now <= db.remote[j].claim.value.ticketEnds && db.remote[j].claim.value.worker in db.workers
      && db.workers[db.remote[j].claim.value.worker].revokedAt.None?)
  {
  }

  /** A worker that is set up by hand: of any pool but the central one, and bound to no job. */
  lemma WorkerEffect(db: Db, pool: string)
    ensures var d := Step(db, NewWorker(pool));
      d == if pool == "central" then db
           else db.(workers := db.workers[db.nextId := Worker(pool, false, None, None, None)], nextId := db.nextId + 1)
  {
  }

  // ---------------------------------------------------------------- where a final state comes from

  /** The step is a granted finish that reports `state` for a job nobody stopped. */
  predicate Reports(db: Db, e: Event, j: JobRef, state: JobState) {
    && e.Finish? && e.reported == state && Accepts(db, e, j) && j in db.jobs && j in db.remote
    && !db.remote[j].stopRequested && !db.jobs[j].state.Stopped?
  }

  /** Some step of the run is one. */
  predicate ReportedIn(db: Db, es: seq<Event>, j: JobRef, state: JobState)
    decreases |es|
  {
    es != [] && (Reports(db, es[0], j, state) || ReportedIn(Step(db, es[0]), es[1..], j, state))
  }

  predicate IsState(db: Db, j: JobRef, state: JobState) {
    j in db.jobs && db.jobs[j].state == state
  }

  /** A job never changes its state to SUCCESS or UNSET but by such a report. */
  lemma StateFrom(db: Db, e: Event, j: JobRef, state: JobState)
    requires Inv(db) && (state.Success? || state.Unset?) && IsState(Step(db, e), j, state)
    ensures IsState(db, j, state) || Reports(db, e, j, state)
  {
    hide EndAll, ExpireAll, TryClaim, FinishCall, ProgressCall, Sweep, Revoke, FailRemote;
    hide CreateJob, QueueJob, QueueFails, RequestStop, ReadForStop, WriteStop;
    hide Select, CreateBootstrap, Exchange, ExpireBootstrap, AddWorker, Inv, Evolves;
    match e
    case Cas(w, k, prepared) => ClaimStates(db, w, k, prepared, j);
    case Report(w, k, t) => ProgressStates(db, w, k, t, j);
    case Finish(w, k, t, reported, trees) => FinishStates(db, w, k, t, reported, trees, j);
    case SweepLeases(skip) => SweepEffect(db, skip, j);
    case RevokeBy(w) => if w in db.workers { RevokeEffect(db, w, j); } else { RevokeNobody(db, w); }
    case FailBy(k) => FailStates(db, k, j);
    case Tick(_) =>
    case Broker(_, _, _) =>
    case Create(_, _) => UserStates(db, e, j);
    case Queue(_, _, _) => UserStates(db, e, j);
    case QueueFailed(_) => UserStates(db, e, j);
    case Delete(_) => UserStates(db, e, j);
    case StopFirst(_) => UserStates(db, e, j);
    case StopReads(_) => UserStates(db, e, j);
    case StopWrites(_) => UserStates(db, e, j);
    case _ => JobsStay(db, e);
  }

  /** What users do makes no job SUCCESS or UNSET. */
  lemma UserStates(db: Db, e: Event, j: JobRef)
    requires e.Create? || e.Queue? || e.QueueFailed? || e.Delete? || e.StopFirst? || e.StopReads? || e.StopWrites?
    ensures var d := Step(db, e);
      j in d.jobs ==> (
        || (j in db.jobs && d.jobs[j].state == db.jobs[j].state)
        || d.jobs[j].state.Progress? || d.jobs[j].state.Failed? || d.jobs[j].state.Stopped?)
  {
  }

  /** The job is as before, or has failed. */
  predicate SameOrFailed(db: Db, d: Db, j: JobRef) {
    j in d.jobs ==> j in db.jobs && (d.jobs[j] == db.jobs[j] || d.jobs[j].state.Failed?)
  }

  lemma RevokeNobody(db: Db, w: nat)
    requires w !in db.workers
    ensures Revoke(db, w) == db
  {
  }

  lemma FailStates(db: Db, k: JobRef, j: JobRef)
    ensures SameOrFailed(db, FailRemote(db, k), j)
  {
    FailEffect(db, k);
    hide FailRemote;
  }

  lemma ClaimStates(db: Db, w: nat, k: JobRef, prepared: bool, j: JobRef)
    ensures SameOrFailed(db, TryClaim(db, w, k, prepared), j)
  {
    if Claimable(db, w, k) {
      var c := Claimed(db.(selected := db.selected - {(w, k)}), w, k);
      EndIs(c, k);
      ExpireOne(c, k);
    }
    hide EndAll, ExpireAll;
  }

  lemma ProgressStates(db: Db, w: nat, k: JobRef, ticket: nat, j: JobRef)
    ensures SameOrFailed(db, ProgressCall(db, w, k, ticket), j)
  {
    if k in db.remote { ExpireOne(db, k); }
    hide ExpireAll;
  }

  lemma FinishStates(db: Db, w: nat, k: JobRef, ticket: nat, reported: JobState, trees: bool, j: JobRef)
    ensures var d := FinishCall(db, w, k, ticket, reported, trees);
      SameOrFailed(db, d, j) || (j in d.jobs && j in db.jobs && (d.jobs[j].state.Stopped? ||
        Reports(db, Finish(w, k, ticket, reported, trees), j, d.jobs[j].state)))
  {
    hide EndAll, ExpireAll, FinishCall, FailRemote, FinishReply, TicketReply, RevokesItsWorker;
    var e := Finish(w, k, ticket, reported, trees);
    assert Step(db, e) == FinishCall(db, w, k, ticket, reported, trees) && Step(db, FailBy(k)) == FailRemote(db, k);
    if FinishReply(db, w, k, ticket, reported, trees).Granted? {
      FinishEffect(db, w, k, ticket, reported, trees);
      if k == j { GrantedFinish(db, e, j); }
    } else {
      FinishRefused(db, w, k, ticket, reported, trees);
      FailStates(db, k, j);
    }
    hide Step;
  }

  lemma GrantedFinish(db: Db, e: Event, j: JobRef)
    requires e.Finish? && e.job == j && FinishReply(db, e.worker, j, e.ticket, e.reported, e.trees).Granted?
    ensures Accepts(db, e, j) && j in db.remote
  {
  }

  lemma ReportSets(db: Db, e: Event, j: JobRef, state: JobState)
    requires Reports(db, e, j, state) && (state.Success? || state.Unset?)
    ensures IsState(Step(db, e), j, state)
  {
    FinishEffect(db, e.worker, j, e.ticket, e.reported, e.trees);
    hide Step;
  }

  /** Only a late stop takes such a state away, and it is never given back. */
  lemma StateKept(db: Db, e: Event, j: JobRef, state: JobState)
    requires Inv(db) && (state.Success? || state.Unset?) && IsState(db, j, state) && j in Step(db, e).jobs
    ensures IsState(Step(db, e), j, state) || j in Step(db, e).overwritten
  {
    StepKeeps(db, e);
    assert JobOk(db, j) && JobEvolves(db, Step(db, e), j);
  }

  lemma OverwrittenStays(db: Db, es: seq<Event>, j: JobRef)
    requires Inv(db) && j in db.overwritten
    ensures j in Run(db, es).overwritten && (j in Run(db, es).jobs ==> Run(db, es).jobs[j].state == Stopped)
  {
    RunKeeps(db, es);
    assert JobOk(Run(db, es), j);
  }

  lemma {:induction false} StateHistory(db: Db, es: seq<Event>, j: JobRef, state: JobState)
    requires Inv(db) && (state.Success? || state.Unset?) && j in Run(db, es).jobs && (j in db.used ==> j in db.jobs)
    ensures IsState(Run(db, es), j, state) <==>
      (IsState(db, j, state) || ReportedIn(db, es, j, state)) && j !in Run(db, es).overwritten
    decreases |es|
  {
    if es == [] {
      assert JobOk(db, j);
    } else {
      var d := Step(db, es[0]);
      StepKeeps(db, es[0]);
      RunKeeps(d, es[1..]);
      assert JobEvolves(d, Run(db, es), j) && JobEvolves(db, d, j);
      StateHistory(d, es[1..], j, state);
      if IsState(d, j, state) { StateFrom(db, es[0], j, state); }
      if Reports(db, es[0], j, state) { ReportSets(db, es[0], j, state); }
      if IsState(db, j, state) && j in d.jobs { StateKept(db, es[0], j, state); }
      if j in d.overwritten { OverwrittenStays(d, es[1..], j); }
      hide Step, Inv, Evolves;
    }
  }

  /**
   In every run a job is SUCCESS (or UNSET) exactly if a granted finish reported it so while nobody had
   stopped the job, and no late stop has replaced that since.
   */
  lemma SuccessWasReported(cfg: Config, es: seq<Event>, j: JobRef, state: JobState)
    requires j in Run(Init(cfg), es).jobs && (state.Success? || state.Unset?)
    ensures Run(Init(cfg), es).jobs[j].state == state <==>
      ReportedIn(Init(cfg), es, j, state) && j !in Run(Init(cfg), es).overwritten
  {
    Reaches(cfg, []);
    StateHistory(Init(cfg), es, j, state);
  }
}
