/**
 Scheduled copies (schedule_manager.py): claiming a due schedule by compare-and-set of its next
 run, running it once, and the runner's tick.
 */
module ScheduleManager {
  import opened Options
  import opened Schedule

  type Id = nat
  type JobId = nat

  const MAX_RUNS_PER_TICK := 200

  datatype Row = Row(spec: Spec, enabled: bool, nextAt: Moment,
      lastRun: Option<Moment>, lastJob: Option<JobId>, skipped: nat)

  /** A copy job of a schedule; it runs while its state is PROGRESS. */
  datatype Job = Job(schedule: Id, running: bool)

  datatype Db = Db(rows: map<Id, Row>, jobs: map<JobId, Job>, nextId: Id, nextJob: JobId) {
    function With(id: Id, row: Row): Db {
      this.(rows := rows[id := row])
    }
  }

  datatype Outcome = Started | SkippedRun | Refused

  predicate Due(row: Row, now: Moment) {
    row.enabled && !now.Before(row.nextAt)
  }

  /** Earlier in the order of next run and id. */
  predicate Sooner(db: Db, a: Id, b: Id)
    requires a in db.rows && b in db.rows
  {
    db.rows[a].nextAt.Before(db.rows[b].nextAt) || (db.rows[a].nextAt == db.rows[b].nextAt && a < b)
  }

  /** The first due schedule with an id below n. */
  function FirstDue(db: Db, now: Moment, n: Id): (first: Option<Id>)
    ensures first.Some? ==> first.value < n && first.value in db.rows && Due(db.rows[first.value], now)
  {
    if n == 0 then None
    else
      var before := FirstDue(db, now, n - 1);
      if n - 1 !in db.rows || !Due(db.rows[n-1], now) then before
      else if before.None? || Sooner(db, n - 1, before.value) then Some(n - 1)
      else before
  }

  /** The rest of _claim: `seen` is the next run that was selected. True if this runner won it. */
  function TryClaim(db: Db, id: Id, seen: Moment, now: Moment): (Db, bool) {
    if id !in db.rows then (db, false)
    else
      var row := db.rows[id];
      if !row.spec.Valid() then (db.With(id, row.(enabled := false)), false)
      else if row.nextAt == seen && row.enabled then
        (db.With(id, row.(nextAt := NextRun(row.spec, now), lastRun := Some(now))), true)
      else (db, false)
  }

  // ---------------------------------------------------------------- running a claimed schedule

  predicate Running(db: Db, j: JobId) {
    j in db.jobs && db.jobs[j].running
  }

  predicate PreviousRunning(db: Db, row: Row) {
    row.lastJob.Some? && Running(db, row.lastJob.value)
  }

  function Skip(db: Db, id: Id): Db
    requires id in db.rows
  {
    db.With(id, db.rows[id].(skipped := db.rows[id].skipped + 1))
  }

  /** create_for has committed its job. */
  function MakeJob(db: Db, id: Id): Db {
    db.(jobs := db.jobs[db.nextJob := Job(id, true)], nextJob := db.nextJob + 1)
  }

  function EndJob(db: Db, j: JobId): Db {
    if j in db.jobs then db.(jobs := db.jobs[j := db.jobs[j].(running := false)]) else db
  }

  function SetLast(db: Db, id: Id, j: Option<JobId>): Db
    requires id in db.rows
  {
    if j.None? then db else db.With(id, db.rows[id].(lastJob := j))
  }

  function Pause(db: Db, id: Id): Db
    requires id in db.rows
  {
    db.With(id, db.rows[id].(enabled := false))
  }

  /** The newest job of the schedule above `last`, below n. */
  function Newest(db: Db, id: Id, last: Option<JobId>, n: JobId): (j: Option<JobId>)
    ensures j.Some? ==> j.value in db.jobs && db.jobs[j.value].schedule == id && (last.Some? ==> last.value < j.value)
  {
    if n == 0 then None
    else if n - 1 in db.jobs && db.jobs[n-1].schedule == id && (last.Some? ==> last.value < n - 1) then Some(n - 1)
    else Newest(db, id, last, n - 1)
  }

  /** How create_for ends: a job, a refusal (perhaps for a new AWS fee), or another exception. */
  datatype Created = Made | NotMade(unconfirmed: bool) | Crashed(made: bool)

  /** run_claimed without another step in between. */
  function RunClaimed(db: Db, id: Id, created: Created): (Db, Outcome)
    requires id in db.rows
  {
    var row, job := db.rows[id], db.nextJob;
    if PreviousRunning(db, row) then (Skip(db, id), SkippedRun)
    else
      match created
      case Made => (SetLast(MakeJob(db, id), id, Some(job)), Started)
      case NotMade(unconfirmed) => (if unconfirmed then Pause(db, id) else db, Refused)
      case Crashed(made) =>
        var failed := if made then EndJob(MakeJob(db, id), job) else db;
        (SetLast(failed, id, Newest(failed, id, row.lastJob, failed.nextJob)), Refused)
  }

  /** tick: at most n claims, each run at once. */
  function Tick(db: Db, now: Moment, create: Id -> Created, n: nat): (Db, seq<(Id, Outcome)>)
    decreases n
  {
    var first := FirstDue(db, now, db.nextId);
    if n == 0 || first.None? then (db, [])
    else
      var (claimed, won) := TryClaim(db, first.value, db.rows[first.value].nextAt, now);
      if !won then Tick(claimed, now, create, n - 1)
      else
        var (ran, outcome) := RunClaimed(claimed, first.value, create(first.value));
        var (last, outcomes) := Tick(ran, now, create, n - 1);
        (last, [(first.value, outcome)] + outcomes)
  }

  /** update_schedule: resuming continues at the next time after now. */
  function Update(db: Db, id: Id, enabled: bool, now: Moment): Db
    requires id in db.rows
  {
    var row := db.rows[id];
    if enabled && !row.enabled then
      (if row.spec.Valid() then db.With(id, row.(nextAt := NextRun(row.spec, now), enabled := true)) else db)
    else db.With(id, row.(enabled := enabled))
  }

  /** create, without a first run. */
  function Create(db: Db, spec: Spec, now: Moment): Db {
    db.(rows := db.rows[db.nextId := Row(spec, true, NextRun(spec, now), None, None, 0)], nextId := db.nextId + 1)
  }

  // ---------------------------------------------------------------- the runner

  class Runner {
    var rows: map<Id, Row>
    var jobs: map<JobId, Job>
    var nextId: Id
    var nextJob: JobId

    ghost function Snapshot(): Db
      reads this
    {
      Db(rows, jobs, nextId, nextJob)
    }

    method SelectDue(now: Moment) returns (first: Option<Id>)
      ensures first == FirstDue(Snapshot(), now, nextId)
    {
      first := None;
      for n := 0 to nextId
        invariant first == FirstDue(Snapshot(), now, n)
      {
        if n in rows && Due(rows[n], now) {
          if first.None? || rows[n].nextAt.Before(rows[first.value].nextAt)
            || (rows[n].nextAt == rows[first.value].nextAt && n < first.value) {
            first := Some(n);
          }
        }
      }
    }

    method Claim(id: Id, seen: Moment, now: Moment) returns (won: bool)
      modifies this
      ensures (Snapshot(), won) == TryClaim(old(Snapshot()), id, seen, now)
    {
      if id !in rows { return false; }
      var row := rows[id];
      if !row.spec.Valid() {
        rows := rows[id := row.(enabled := false)];
        return false;
      }
      won := row.nextAt == seen && row.enabled;
      if won { rows := rows[id := row.(nextAt := NextRun(row.spec, now), lastRun := Some(now))]; }
    }

    method NewestJob(id: Id, last: Option<JobId>) returns (j: Option<JobId>)
      ensures j == Newest(Snapshot(), id, last, nextJob)
    {
      var n := nextJob;
      while n > 0
        invariant Newest(Snapshot(), id, last, nextJob) == Newest(Snapshot(), id, last, n)
      {
        n := n - 1;
        if n in jobs && jobs[n].schedule == id && (last.None? || last.value < n) { return Some(n); }
      }
      j := None;
    }

    method RunOnce(id: Id, created: Created) returns (outcome: Outcome)
      requires id in rows
      modifies this
      ensures (Snapshot(), outcome) == RunClaimed(old(Snapshot()), id, created)
      ensures var last := old(rows[id].lastJob);
        outcome.SkippedRun? <==> last.Some? && last.value in old(jobs) && old(jobs)[last.value].running
      ensures outcome.SkippedRun? ==> jobs == old(jobs)
    {
      var row := rows[id];
      if row.lastJob.Some? && row.lastJob.value in jobs && jobs[row.lastJob.value].running {
        rows := rows[id := row.(skipped := row.skipped + 1)];
        return SkippedRun;
      }
      match created
      case Made =>
        var job := nextJob;
        jobs, nextJob := jobs[job := Job(id, true)], nextJob + 1;
        rows := rows[id := row.(lastJob := Some(job))];
        outcome := Started;
      case NotMade(unconfirmed) =>
        if unconfirmed { rows := rows[id := row.(enabled := false)]; }
        outcome := Refused;
      case Crashed(made) =>
        if made {
          jobs, nextJob := jobs[nextJob := Job(id, true)], nextJob + 1;
          jobs := jobs[nextJob - 1 := jobs[nextJob - 1].(running := false)];
        }
        var newest := NewestJob(id, row.lastJob);
        if newest.Some? { rows := rows[id := row.(lastJob := newest)]; }
        outcome := Refused;
    }

    method TickOnce(now: Moment, create: Id -> Created) returns (outcomes: seq<(Id, Outcome)>)
      modifies this
      ensures (Snapshot(), outcomes) == Tick(old(Snapshot()), now, create, MAX_RUNS_PER_TICK)
    {
      outcomes := [];
      ghost var all := Tick(Snapshot(), now, create, MAX_RUNS_PER_TICK);
      var n := MAX_RUNS_PER_TICK;
      assert [] + all.1 == all.1;
      while n > 0
        invariant 0 <= n
        invariant all == (var rest := Tick(Snapshot(), now, create, n); (rest.0, outcomes + rest.1))
      {
        var first := SelectDue(now);
        if first.None? {
          assert outcomes + [] == outcomes;
          return;
        }
        n := n - 1;
        var won := Claim(first.value, rows[first.value].nextAt, now);
        if !won { continue; }
        var outcome := RunOnce(first.value, create(first.value));
        ghost var rest := Tick(Snapshot(), now, create, n);
        assert outcomes + ([(first.value, outcome)] + rest.1) == outcomes + [(first.value, outcome)] + rest.1;
        outcomes := outcomes + [(first.value, outcome)];
      }
      assert outcomes + [] == outcomes;
    }

    method UpdateEnabled(id: Id, enabled: bool, now: Moment)
      requires id in rows
      modifies this
      ensures Snapshot() == Update(old(Snapshot()), id, enabled, now)
    {
      var row := rows[id];
      if enabled && !row.enabled {
        if !row.spec.Valid() { return; } // spec_of raises
        row := row.(nextAt := NextRun(row.spec, now));
      }
      rows := rows[id := row.(enabled := enabled)];
    }
  }

  // ---------------------------------------------------------------- single calls

  /** The job is the newest one of the schedule, and newer than `last`. */
  predicate IsNewest(jobs: map<JobId, Job>, id: Id, last: Option<JobId>, j: JobId) {
    && j in jobs && jobs[j].schedule == id && (last.Some? ==> last.value < j)
    && forall k :: k in jobs && jobs[k].schedule == id ==> k <= j
  }

  /**
   A claimed run is skipped exactly if the last job still runs, and then only counted. Else a job that is
   made is noted, unless create_for raised after it: then it has failed, and the newest job is noted. A
   schedule is paused exactly for a refusal that asks for a new confirmation.
   */
  lemma RunMeans(db: Db, id: Id, created: Created)
    requires id in db.rows && forall j :: j in db.jobs ==> j < db.nextJob
    ensures var (d, outcome) := RunClaimed(db, id, created);
      var row, last := db.rows[id], db.rows[id].lastJob;
      if last.Some? && last.value in db.jobs && db.jobs[last.value].running
      then outcome.SkippedRun? && d == db.(rows := db.rows[id := row.(skipped := row.skipped + 1)])
      else match created
        case Made => outcome.Started? && d == db.(
          jobs := db.jobs[db.nextJob := Job(id, true)], nextJob := db.nextJob + 1,
          rows := db.rows[id := row.(lastJob := Some(db.nextJob))])
        case NotMade(unconfirmed) => outcome.Refused? && d == db.(
          rows := db.rows[id := if unconfirmed then row.(enabled := false) else row])
        case Crashed(made) => (
          && outcome.Refused? && id in d.rows && d.rows == db.rows[id := row.(lastJob := d.rows[id].lastJob)]
          && d == db.(rows := d.rows, jobs := if made then db.jobs[db.nextJob := Job(id, false)] else db.jobs,
                      nextJob := if made then db.nextJob + 1 else db.nextJob)
          && (d.rows[id].lastJob == last || d.rows[id].lastJob.Some?)
          && (forall j: JobId :: IsNewest(d.jobs, id, last, j) ==> d.rows[id].lastJob == Some(j))
          && ((forall j: JobId :: !IsNewest(d.jobs, id, last, j)) ==> d.rows[id].lastJob == last))
  {
    if created.Crashed? {
      var failed := if created.made then EndJob(MakeJob(db, id), db.nextJob) else db;
      assert failed.jobs == if created.made then db.jobs[db.nextJob := Job(id, false)] else db.jobs;
      NewestIs(failed, id, db.rows[id].lastJob, failed.nextJob);
    }
    assert db.rows[id := db.rows[id]] == db.rows;
    hide Newest;
  }

  lemma {:induction false} NewestIs(db: Db, id: Id, last: Option<JobId>, n: JobId)
    requires forall j :: j in db.jobs && db.jobs[j].schedule == id && n <= j ==> last.Some? && j <= last.value
    ensures var newest := Newest(db, id, last, n);
      && (newest.Some? ==> IsNewest(db.jobs, id, last, newest.value))
      && (newest.None? ==> forall j: JobId :: !IsNewest(db.jobs, id, last, j))
  {
    if n > 0 && !(n - 1 in db.jobs && db.jobs[n-1].schedule == id && (last.Some? ==> last.value < n - 1)) {
      NewestIs(db, id, last, n - 1);
    }
  }

  /** A claim wins exactly an enabled schedule whose next run is still the one seen; an invalid one is paused. */
  lemma ClaimMeans(db: Db, id: Id, seen: Moment, now: Moment)
    ensures var (d, won) := TryClaim(db, id, seen, now);
      && (won <==> id in db.rows && db.rows[id].spec.Valid() && db.rows[id].enabled && db.rows[id].nextAt == seen)
      && (won ==> d == db.(rows := db.rows[id := db.rows[id].(
            nextAt := NextRun(db.rows[id].spec, now), lastRun := Some(now))]))
      && (!won ==> d == if id in db.rows && !db.rows[id].spec.Valid()
                        then db.(rows := db.rows[id := db.rows[id].(enabled := false)]) else db)
  {
    hide NextRun;
  }

  /** Pausing and resuming: only a paused schedule that is resumed gets a new next run, the first after now. */
  lemma ToggleMeans(db: Db, id: Id, enabled: bool, now: Moment)
    requires id in db.rows
    ensures var d, row := Update(db, id, enabled, now), db.rows[id];
      d == if enabled && !row.enabled && !row.spec.Valid() then db
           else db.(rows := db.rows[id := row.(
             enabled := enabled, nextAt := if enabled && !row.enabled then NextRun(row.spec, now) else row.nextAt)])
  {
    hide NextRun;
  }

  /** The first one in the order of next run and id is selected, of those that are enabled and due. */
  predicate IsFirstDue(db: Db, now: Moment, n: Id, first: Id) {
    && IsDue(db, now, n, first)
    && forall id :: id in db.rows && IsDue(db, now, n, id) && id != first ==>
         && db.rows[first].nextAt.At() <= db.rows[id].nextAt.At()
         && (db.rows[first].nextAt == db.rows[id].nextAt ==> first < id)
  }

  predicate IsDue(db: Db, now: Moment, n: Id, id: Id) {
    id in db.rows && id < n && db.rows[id].enabled && db.rows[id].nextAt.At() <= now.At()
  }

  lemma DueIs(db: Db, now: Moment, id: Id)
    requires Wf(db) && now.Valid() && id in db.rows
    ensures Due(db.rows[id], now) <==> db.rows[id].enabled && db.rows[id].nextAt.At() <= now.At()
  {
    BeforeIsEarlier(now, db.rows[id].nextAt);
    hide Moment.Before, Moment.At;
  }

  lemma SoonerIs(db: Db, a: Id, b: Id)
    requires Wf(db) && a in db.rows && b in db.rows
    ensures Sooner(db, a, b) <==>
      db.rows[a].nextAt.At() < db.rows[b].nextAt.At() || (db.rows[a].nextAt.At() == db.rows[b].nextAt.At() && a < b)
    ensures db.rows[a].nextAt.At() == db.rows[b].nextAt.At() <==> db.rows[a].nextAt == db.rows[b].nextAt
  {
    BeforeIsEarlier(db.rows[a].nextAt, db.rows[b].nextAt);
    hide Moment.Before, Moment.At;
  }

  lemma {:induction false} FirstDueMeans(db: Db, now: Moment, n: Id)
    requires Wf(db) && now.Valid()
    ensures var first := FirstDue(db, now, n);
      if first.Some? then IsFirstDue(db, now, n, first.value) else forall id :: id in db.rows ==> !IsDue(db, now, n, id)
  {
    hide Wf, Due, Sooner, Moment.Valid, Moment.At;
    if n > 0 {
      FirstDueMeans(db, now, n - 1);
      if n - 1 in db.rows {
        DueIs(db, now, n - 1);
        var before := FirstDue(db, now, n - 1);
        if before.Some? { SoonerIs(db, n - 1, before.value); }
        forall id | id in db.rows && id < n - 1
          ensures IsDue(db, now, n, id) <==> IsDue(db, now, n - 1, id)
          ensures db.rows[id].nextAt == db.rows[n-1].nextAt ==> db.rows[id].nextAt.At() == db.rows[n-1].nextAt.At()
        {
        }
      }
    }
  }

  // ---------------------------------------------------------------- one tick

  lemma {:induction false} FirstDueIs(db: Db, now: Moment, n: Id)
    ensures FirstDue(db, now, n).None? ==> forall id :: id in db.rows && id < n ==> !Due(db.rows[id], now)
  {
    if n > 0 { FirstDueIs(db, now, n - 1); }
  }

  /** Ids are below the next one, schedules are valid, and the next runs are moments. */
  predicate Wf(db: Db) {
    forall id :: id in db.rows ==> id < db.nextId && db.rows[id].spec.Valid() && db.rows[id].nextAt.Valid()
  }

  /** Running a schedule moves neither its next run nor any other schedule. */
  lemma RunKeepsNext(db: Db, id: Id, created: Created)
    requires id in db.rows
    ensures var r := RunClaimed(db, id, created).0;
      && r.rows.Keys == db.rows.Keys && r.nextId == db.nextId
      && r.rows[id].nextAt == db.rows[id].nextAt && r.rows[id].spec == db.rows[id].spec
      && (r.rows[id].enabled ==> db.rows[id].enabled)
      && forall k :: k in db.rows && k != id ==> r.rows[k] == db.rows[k]
  {
    hide Newest, PreviousRunning;
  }

  /** What one turn of the loop does to the schedule it wins: it is no longer due. */
  predicate Turned(db: Db, after: Db, id: Id, now: Moment) {
    && Wf(after) && after.nextId == db.nextId && after.rows.Keys == db.rows.Keys
    && id in after.rows && !Due(after.rows[id], now)
    && forall k :: k in db.rows && k != id ==> after.rows[k] == db.rows[k]
  }

  lemma TurnMovesOn(db: Db, now: Moment, id: Id, created: Created)
    requires Wf(db) && now.Valid() && id in db.rows && Due(db.rows[id], now)
    ensures var (claimed, won) := TryClaim(db, id, db.rows[id].nextAt, now);
      won && id in claimed.rows && Turned(db, RunClaimed(claimed, id, created).0, id, now)
  {
    var row := db.rows[id];
    var claimed := TryClaim(db, id, row.nextAt, now).0;
    NextRunIsFirst(row.spec, now);
    BeforeIsEarlier(now, NextRun(row.spec, now));
    RunKeepsNext(claimed, id, created);
    hide NextRun, RunClaimed, Moment.Before, Moment.Valid, Moment.At, Spec.Valid, Spec.Matches;
    assert claimed.rows[id].nextAt == NextRun(row.spec, now);
  }

  predicate Listed(outcomes: seq<(Id, Outcome)>, id: Id) {
    exists i :: 0 <= i < |outcomes| && outcomes[i].0 == id
  }

  /** Only due schedules ran, each once, the others stayed, and none is left due before `n` ran. */
  predicate TickOk(db: Db, now: Moment, last: Db, outcomes: seq<(Id, Outcome)>, n: nat) {
    && last.rows.Keys == db.rows.Keys && last.nextId == db.nextId && |outcomes| <= n
    && (forall i, j :: 0 <= i < j < |outcomes| ==> outcomes[i].0 != outcomes[j].0)
    && (forall id :: id in db.rows && Listed(outcomes, id) ==> Due(db.rows[id], now))
    && (forall id :: id in db.rows && !Listed(outcomes, id) ==> last.rows[id] == db.rows[id])
    && (|outcomes| < n ==> forall id :: id in last.rows ==> !Due(last.rows[id], now))
  }

  lemma ListedFirst(id: Id, outcome: Outcome, rest: seq<(Id, Outcome)>)
    ensures forall k :: Listed([(id, outcome)] + rest, k) <==> k == id || Listed(rest, k)
  {
    var all := [(id, outcome)] + rest;
    assert all[0].0 == id && forall i :: 0 <= i < |rest| ==> all[i + 1] == rest[i];
    forall k
      ensures Listed(all, k) <==> k == id || Listed(rest, k)
    {
      if Listed(rest, k) {
        var i :| 0 <= i < |rest| && rest[i].0 == k;
        assert all[i + 1].0 == k;
      }
    }
  }

  lemma FirstIsNew(id: Id, outcome: Outcome, rest: seq<(Id, Outcome)>)
    requires !Listed(rest, id) && forall i, j :: 0 <= i < j < |rest| ==> rest[i].0 != rest[j].0
    ensures var all := [(id, outcome)] + rest; forall i, j :: 0 <= i < j < |all| ==> all[i].0 != all[j].0
  {
    var all := [(id, outcome)] + rest;
    forall i, j | 0 <= i < j < |all|
      ensures all[i].0 != all[j].0
    {
      assert all[j] == rest[j - 1];
      if i > 0 { assert all[i] == rest[i - 1]; }
    }
  }

  lemma TickOneMore(db: Db, ran: Db, now: Moment, id: Id, outcome: Outcome, last: Db, rest: seq<(Id, Outcome)>, n: nat)
    requires n > 0 && id in db.rows && Due(db.rows[id], now) && Turned(db, ran, id, now)
    requires TickOk(ran, now, last, rest, n - 1)
    ensures TickOk(db, now, last, [(id, outcome)] + rest, n)
  {
    hide Due, Wf, Listed;
    assert !Listed(rest, id);
    ListedFirst(id, outcome, rest);
    FirstIsNew(id, outcome, rest);
  }

  /**
   A tick without other runners: only due schedules run, each at most once, all others stay as they
   are, and unless 200 ran no schedule is left due.
   */
  lemma {:induction false} TickRunsDueOnce(db: Db, now: Moment, create: Id -> Created, n: nat)
    requires Wf(db) && now.Valid()
    ensures var (last, outcomes) := Tick(db, now, create, n); TickOk(db, now, last, outcomes, n)
    decreases n
  {
    hide TryClaim, RunClaimed, Due;
    var first := FirstDue(db, now, db.nextId);
    FirstDueIs(db, now, db.nextId);
    if n > 0 && first.Some? {
      var id := first.value;
      TurnMovesOn(db, now, id, create(id));
      var (ran, outcome) := RunClaimed(TryClaim(db, id, db.rows[id].nextAt, now).0, id, create(id));
      TickRunsDueOnce(ran, now, create, n - 1);
      var (last, rest) := Tick(ran, now, create, n - 1);
      TickOneMore(db, ran, now, id, outcome, last, rest, n);
      hide TickOk;
    } else {
      assert forall id :: !Listed([], id);
    }
  }
}
