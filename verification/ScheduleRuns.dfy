/**
 Any number of runners and users, step by step: what every run of scheduled copies keeps, and when
 two jobs of one schedule cannot run at once.
 */
module ScheduleRuns {
  import opened Options
  import opened Schedule
  import opened ScheduleManager

  type RunnerId = nat

  /**
   Where a runner is: selecting and claiming are two steps, and so are making a job and noting it.
   `last` is the last job when the runner began. A request that creates a schedule with its first run
   makes a job too, without a claim, and notes it later; `now` is when it began.
   */
  datatype Phase =
    | Idle
    | Selected(id: Id, seen: Moment, now: Moment)
    | Claimed(id: Id, win: nat)
    | Creating(id: Id, win: nat, last: Option<JobId>, job: Option<JobId>)
    | First(id: Id, made: JobId, now: Moment)
  {
    predicate Open() {
      Claimed? || Creating?
    }

    predicate AtWork() {
      Open() || First?
    }

    predicate Making() {
      Creating? || First?
    }

    /** The job made and not noted yet. */
    function Job(): Option<JobId> {
      if Creating? then job else if First? then Some(made) else None
    }
  }

  /** A due time won by a runner, whose tick began at `now`. */
  datatype Win = Win(id: Id, due: Moment, now: Moment, runner: RunnerId)

  datatype World = World(db: Db, clock: Moment, phases: map<RunnerId, Phase>, wins: seq<Win>,
                         outcomes: map<nat, Outcome>, maker: map<JobId, RunnerId>)
  {
    function At(r: RunnerId): Phase {
      if r in phases then phases[r] else Idle
    }

    function Put(r: RunnerId, phase: Phase): World {
      this.(phases := phases[r := phase])
    }
  }

  datatype How = WithJob | NoJob(unconfirmed: bool) | Broken

  datatype Event =
    | Advance(to: Moment)
    | NewSchedule(spec: Spec)
    | Toggle(id: Id, enabled: bool)
    | Remove(id: Id)
    | Select(r: RunnerId, id: Id, now: Moment)
    | Claim(r: RunnerId)
    | Begin(r: RunnerId)
    | Make(r: RunnerId)
    | Finish(r: RunnerId, how: How)
    | FirstRun(r: RunnerId, spec: Spec)
    | NoteFirst(r: RunnerId)
    | FirstFails(r: RunnerId)
    | JobEnds(j: JobId)

  /** What can happen; a schedule is not removed while a runner runs it. */
  ghost predicate Can(w: World, e: Event) {
    match e
    case Advance(to) => to.Valid() && w.clock.At() <= to.At()
    case NewSchedule(spec) => spec.Valid()
    case Toggle(id, _) => id in w.db.rows
    case Remove(id) => forall r :: w.At(r).AtWork() ==> w.At(r).id != id
    case Select(r, id, now) => w.At(r).Idle? && id in w.db.rows && Due(w.db.rows[id], now)
      && now.Valid() && now.At() <= w.clock.At()
    case Claim(r) => w.At(r).Selected?
    case Begin(r) => w.At(r).Claimed? && w.At(r).id in w.db.rows
    case Make(r) => w.At(r).Creating? && w.At(r).job.None?
    case Finish(r, how) => w.At(r).Creating? && w.At(r).id in w.db.rows
      && (how.WithJob? ==> w.At(r).job.Some?) && (how.NoJob? ==> w.At(r).job.None?)
    case FirstRun(r, spec) => w.At(r).Idle? && spec.Valid()
    case NoteFirst(r) => w.At(r).First?
    case FirstFails(r) => w.At(r).First?
    case JobEnds(j) => true
  }

  function Step(w: World, e: Event): World {
    match e
    case Advance(to) => w.(clock := to)
    case NewSchedule(spec) => w.(db := Create(w.db, spec, w.clock))
    case Toggle(id, enabled) => if id in w.db.rows then w.(db := Update(w.db, id, enabled, w.clock)) else w
    case Remove(id) => w.(db := w.db.(rows := w.db.rows - {id}))
    case Select(r, id, now) => if id in w.db.rows then w.Put(r, Selected(id, w.db.rows[id].nextAt, now)) else w
    case Claim(r) => if w.At(r).Selected? then DoClaim(w, r) else w
    case Begin(r) => if w.At(r).Claimed? && w.At(r).id in w.db.rows then DoBegin(w, r) else w
    case Make(r) => if w.At(r).Creating? then DoMake(w, r) else w
    case Finish(r, how) => if w.At(r).Creating? && w.At(r).id in w.db.rows then DoFinish(w, r, how) else w
    case FirstRun(r, spec) => DoFirst(w, r, spec)
    case NoteFirst(r) => if w.At(r).First? && w.At(r).id in w.db.rows then DoNote(w, r) else w
    case FirstFails(r) => if w.At(r).First? then w.(db := EndJob(w.db, w.At(r).made)).Put(r, Idle) else w
    case JobEnds(j) => w.(db := EndJob(w.db, j))
  }

  /** The schedule and its first job are committed together. */
  function DoFirst(w: World, r: RunnerId, spec: Spec): World {
    var id, j := w.db.nextId, w.db.nextJob;
    w.(db := MakeJob(Create(w.db, spec, w.clock), id), maker := w.maker[j := r]).Put(r, First(id, j, w.clock))
  }

  function DoNote(w: World, r: RunnerId): World
    requires w.At(r).First? && w.At(r).id in w.db.rows
  {
    var p := w.At(r);
    var row := w.db.rows[p.id].(lastRun := Some(p.now), lastJob := Some(p.made));
    w.(db := w.db.With(p.id, row)).Put(r, Idle)
  }

  function DoClaim(w: World, r: RunnerId): World
    requires w.At(r).Selected?
  {
    var p := w.At(r);
    var (db, won) := TryClaim(w.db, p.id, p.seen, p.now);
    if won then w.(db := db, wins := w.wins + [Win(p.id, p.seen, p.now, r)]).Put(r, Claimed(p.id, |w.wins|))
    else w.(db := db).Put(r, Idle)
  }

  function DoBegin(w: World, r: RunnerId): World
    requires w.At(r).Claimed? && w.At(r).id in w.db.rows
  {
    var p := w.At(r);
    if PreviousRunning(w.db, w.db.rows[p.id]) then
      w.(db := Skip(w.db, p.id), outcomes := w.outcomes[p.win := SkippedRun]).Put(r, Idle)
    else w.Put(r, Creating(p.id, p.win, w.db.rows[p.id].lastJob, None))
  }

  function DoMake(w: World, r: RunnerId): World
    requires w.At(r).Creating?
  {
    var p, j := w.At(r), w.db.nextJob;
    w.(db := MakeJob(w.db, p.id), maker := w.maker[j := r]).Put(r, p.(job := Some(j)))
  }

  function DoFinish(w: World, r: RunnerId, how: How): World
    requires w.At(r).Creating? && w.At(r).id in w.db.rows
  {
    var p := w.At(r);
    var db := match how
      case WithJob => SetLast(w.db, p.id, p.job)
      case NoJob(unconfirmed) => if unconfirmed then Pause(w.db, p.id) else w.db
      case Broken =>
        var failed := if p.job.Some? then EndJob(w.db, p.job.value) else w.db;
        SetLast(failed, p.id, Newest(failed, p.id, p.last, failed.nextJob));
    w.(db := db, outcomes := w.outcomes[p.win := if how.WithJob? then Started else Refused]).Put(r, Idle)
  }

  /** A sequence of events that can happen, and where it leads. */
  ghost predicate Run(w: World, es: seq<Event>)
    decreases |es|
  {
    es == [] || (Can(w, es[0]) && Run(Step(w, es[0]), es[1..]))
  }

  function After(w: World, es: seq<Event>): World
    decreases |es|
  {
    if es == [] then w else After(Step(w, es[0]), es[1..])
  }

  // ---------------------------------------------------------------- what every run keeps

  /** A next run is never later than the next one from now. */
  predicate RowOk(w: World, id: Id) {
    id in w.db.rows ==> w.db.rows[id].nextAt.At() <= NextRun(w.db.rows[id].spec, w.clock).At()
  }

  predicate PhaseOk(w: World, r: RunnerId) {
    match w.At(r)
    case Idle => true
    case Selected(id, seen, now) => id < w.db.nextId && now.Valid() && seen.At() <= now.At() <= w.clock.At()
    case Claimed(id, win) => Holds(w, r, id, win)
    case Creating(id, win, _, _) => Holds(w, r, id, win)
    case First(id, _, _) => id in w.db.rows
  }

  /** The runner has won a due time of this schedule and not yet said what came of it. */
  predicate Holds(w: World, r: RunnerId, id: Id, win: nat) {
    win < |w.wins| && w.wins[win].id == id && w.wins[win].runner == r && win !in w.outcomes && id in w.db.rows
  }

  /** A won time was due, its schedule has moved on, and it has an outcome or a runner at it. */
  predicate WinOk(w: World, k: nat)
    requires k < |w.wins|
  {
    var win := w.wins[k];
    && win.due.At() <= win.now.At() <= w.clock.At() && win.id < w.db.nextId
    && (win.id in w.db.rows ==> win.now.At() < w.db.rows[win.id].nextAt.At())
    && (k in w.outcomes || (w.At(win.runner).Open() && w.At(win.runner).win == k))
  }

  predicate PairOk(wins: seq<Win>, i: nat, k: nat)
    requires i < k < |wins|
  {
    wins[i].id == wins[k].id ==> wins[i].now.At() < wins[k].due.At()
  }

  ghost predicate Inv(w: World) {
    && Wf(w.db) && w.clock.Valid()
    && (forall id :: RowOk(w, id))
    && (forall r :: PhaseOk(w, r))
    && (forall k: nat :: k < |w.wins| ==> WinOk(w, k))
    && (forall k :: k in w.outcomes ==> k < |w.wins|)
    && (forall i: nat, k: nat :: i < k < |w.wins| ==> PairOk(w.wins, i, k))
  }

  function Start(clock: Moment): World {
    World(Db(map[], map[], 0, 0), clock, map[], [], map[], map[])
  }

  /** How one step may change a schedule's next run: never back, and on if its due time is won. */
  ghost predicate Evolves(w: World, v: World) {
    && w.clock.At() <= v.clock.At() && w.db.nextId <= v.db.nextId
    && (forall id :: id in v.db.rows && id < w.db.nextId ==>
          id in w.db.rows && v.db.rows[id].spec == w.db.rows[id].spec
          && w.db.rows[id].nextAt.At() <= v.db.rows[id].nextAt.At())
    && w.wins <= v.wins
    && (forall k :: k in w.outcomes ==> k in v.outcomes && v.outcomes[k] == w.outcomes[k])
  }

  // ---------------------------------------------------------------- the steps

  lemma NextIsLater(spec: Spec, now: Moment)
    requires spec.Valid() && now.Valid()
    ensures NextRun(spec, now).Valid() && now.At() < NextRun(spec, now).At()
  {
    NextRunIsFirst(spec, now);
  }

  lemma DueMeans(row: Row, now: Moment)
    requires now.Valid() && row.nextAt.Valid()
    ensures Due(row, now) ==> row.nextAt.At() <= now.At()
  {
    BeforeIsEarlier(now, row.nextAt);
  }

  lemma AdvanceOk(w: World, e: Event)
    requires Inv(w) && e.Advance? && Can(w, e)
    ensures Inv(Step(w, e)) && Evolves(w, Step(w, e))
  {
    var v := Step(w, e);
    forall id
      ensures RowOk(v, id)
    {
      assert RowOk(w, id);
      if id in w.db.rows { NextRunRises(w.db.rows[id].spec, w.clock, v.clock); }
    }
    hide NextRun, Moment.At, Moment.Valid, Spec.Valid, Spec.Matches;
    forall r ensures PhaseOk(v, r) { assert PhaseOk(w, r); }
    forall k: nat | k < |v.wins| ensures WinOk(v, k) { assert WinOk(w, k); }
    forall i: nat, k: nat | i < k < |v.wins| ensures PairOk(v.wins, i, k) { assert PairOk(w.wins, i, k); }
  }

  /** Steps that change rows, but neither runners nor wins. */
  lemma RowsChange(w: World, v: World)
    requires Inv(w) && RowsMove(w, v)
    ensures Inv(v) && Evolves(w, v)
  {
    hide NextRun, Moment.At, Moment.Valid, Spec.Valid, Spec.Matches, RowOk, Wf;
    forall r ensures PhaseOk(v, r) { assert PhaseOk(w, r) && w.At(r) == v.At(r); }
    forall k: nat | k < |v.wins| ensures WinOk(v, k) { assert WinOk(w, k); }
    forall i: nat, k: nat | i < k < |v.wins| ensures PairOk(v.wins, i, k) { assert PairOk(w.wins, i, k); }
  }

  lemma OpenHasRow(w: World)
    requires Inv(w)
    ensures forall r :: w.At(r).AtWork() ==> w.At(r).id in w.db.rows
  {
    hide NextRun, Moment.At, Moment.Valid, Spec.Valid, Spec.Matches, RowOk, Wf;
    forall r | w.At(r).AtWork() ensures w.At(r).id in w.db.rows { assert PhaseOk(w, r); }
  }

  /** What RowsChange asks for. */
  ghost predicate RowsMove(w: World, v: World) {
    && v == w.(db := v.db) && Wf(v.db) && w.db.nextId <= v.db.nextId
    && (forall id :: id in v.db.rows && id < w.db.nextId ==>
          id in w.db.rows && v.db.rows[id].spec == w.db.rows[id].spec
          && w.db.rows[id].nextAt.At() <= v.db.rows[id].nextAt.At())
    && (forall id :: RowOk(v, id))
    && (forall r :: w.At(r).AtWork() ==> w.At(r).id in v.db.rows)
  }

  /** A row like the one before, or of a new schedule, whose next run is the next one from now. */
  lemma OneRowMoves(w: World, db: Db, id: Id, row: Row)
    requires Inv(w) && db == w.db.(rows := w.db.rows[id := row], nextId := db.nextId)
    requires w.db.nextId <= db.nextId && id < db.nextId
    requires row.spec.Valid() && row.nextAt.Valid() && row.nextAt.At() <= NextRun(row.spec, w.clock).At()
    requires if id in w.db.rows then row.spec == w.db.rows[id].spec && w.db.rows[id].nextAt.At() <= row.nextAt.At()
      else w.db.nextId <= id
    ensures RowsMove(w, w.(db := db))
  {
    hide NextRun, Moment.At, Moment.Valid, Spec.Valid, Spec.Matches;
    OpenHasRow(w);
    var v := w.(db := db);
    forall k ensures RowOk(v, k) { assert RowOk(w, k); }
  }

  lemma NewOk(w: World, spec: Spec)
    requires Inv(w) && spec.Valid()
    ensures RowsMove(w, w.(db := Create(w.db, spec, w.clock)))
  {
    NextIsLater(spec, w.clock);
    hide NextRun, Moment.At, Moment.Valid, Spec.Valid, Spec.Matches, RowOk, RowsMove;
    var row := Row(spec, true, NextRun(spec, w.clock), None, None, 0);
    OneRowMoves(w, Create(w.db, spec, w.clock), w.db.nextId, row);
  }

  lemma ToggleOk(w: World, id: Id, enabled: bool)
    requires Inv(w) && id in w.db.rows
    ensures RowsMove(w, w.(db := Update(w.db, id, enabled, w.clock)))
  {
    var db := Update(w.db, id, enabled, w.clock);
    assert RowOk(w, id);
    NextIsLater(w.db.rows[id].spec, w.clock);
    hide NextRun, Moment.At, Moment.Valid, Spec.Valid, Spec.Matches, RowOk, RowsMove;
    OneRowMoves(w, db, id, db.rows[id]);
  }

  lemma FewerRowsOk(w: World, e: Event)
    requires Inv(w) && Can(w, e) && (e.Remove? || e.JobEnds?)
    ensures RowsMove(w, Step(w, e))
  {
    hide NextRun, Moment.At, Moment.Valid, Spec.Valid, Spec.Matches;
    OpenHasRow(w);
    var v := Step(w, e);
    assert e.JobEnds? ==> v.db.rows == w.db.rows;
    forall k ensures RowOk(v, k) { assert RowOk(w, k); }
  }

  lemma UserOk(w: World, e: Event)
    requires Inv(w) && Can(w, e) && (e.NewSchedule? || e.Toggle? || e.Remove? || e.JobEnds?)
    ensures Inv(Step(w, e)) && Evolves(w, Step(w, e))
  {
    match e {
      case NewSchedule(spec) => NewOk(w, spec);
      case Toggle(id, enabled) => ToggleOk(w, id, enabled);
      case _ => FewerRowsOk(w, e);
    }
    hide Inv, Evolves, Create, Update, EndJob, RowsMove;
    RowsChange(w, Step(w, e));
  }

  lemma SelectOk(w: World, e: Event)
    requires Inv(w) && e.Select? && Can(w, e)
    ensures Inv(Step(w, e)) && Evolves(w, Step(w, e))
  {
    var v := Step(w, e);
    DueMeans(w.db.rows[e.id], e.now);
    hide NextRun, Moment.At, Moment.Valid, Spec.Valid, Spec.Matches, Due;
    forall id ensures RowOk(v, id) { assert RowOk(w, id); }
    forall r ensures PhaseOk(v, r) { assert PhaseOk(w, r); }
    forall k: nat | k < |v.wins| ensures WinOk(v, k) { assert WinOk(w, k); }
    forall i: nat, k: nat | i < k < |v.wins| ensures PairOk(v.wins, i, k) { assert PairOk(w.wins, i, k); }
  }

  /** What a won claim changes: one row's next run, one phase, one win more. */
  ghost predicate Wins(w: World, v: World, r: RunnerId) {
    var p := w.At(r);
    && p.Selected? && p.id in w.db.rows && w.db.rows[p.id].nextAt == p.seen && Wf(v.db)
    && v.clock == w.clock && v.outcomes == w.outcomes && v.wins == w.wins + [Win(p.id, p.seen, p.now, r)]
    && v.phases == w.phases[r := Claimed(p.id, |w.wins|)] && v.db.nextId == w.db.nextId
    && v.db.rows.Keys == w.db.rows.Keys && v.db.rows[p.id].spec == w.db.rows[p.id].spec
    && (forall id :: id in v.db.rows && id != p.id ==> v.db.rows[id] == w.db.rows[id])
    && p.now.At() < v.db.rows[p.id].nextAt.At() && RowOk(v, p.id)
  }

  lemma ClaimWins(w: World, r: RunnerId)
    requires Inv(w) && w.At(r).Selected? && TryClaim(w.db, w.At(r).id, w.At(r).seen, w.At(r).now).1
    ensures Wins(w, DoClaim(w, r), r)
  {
    hide NextRun, Moment.At, Moment.Valid, Spec.Valid, Spec.Matches, Due, WinOk, RowOk;
    var p, v := w.At(r), DoClaim(w, r);
    var spec := w.db.rows[p.id].spec;
    assert PhaseOk(w, r);
    NextIsLater(spec, p.now);
    NextRunRises(spec, p.now, w.clock);
    assert v.db.rows[p.id].nextAt == NextRun(spec, p.now);
    MovedRowOk(v, p.id, p.now);
  }

  lemma MovedRowOk(v: World, id: Id, now: Moment)
    requires id in v.db.rows && v.db.rows[id].nextAt == NextRun(v.db.rows[id].spec, now)
    requires NextRun(v.db.rows[id].spec, now).At() <= NextRun(v.db.rows[id].spec, v.clock).At()
    ensures RowOk(v, id)
  {
  }

  lemma WinsPhases(w: World, v: World, r: RunnerId, q: RunnerId)
    requires Wins(w, v, r) && PhaseOk(w, q) && forall k :: k in w.outcomes ==> k < |w.wins|
    ensures PhaseOk(v, q)
  {
    hide NextRun, Moment.At, Moment.Valid, Spec.Valid, Spec.Matches, RowOk, Wf;
  }

  lemma WinsWins(w: World, v: World, r: RunnerId, k: nat)
    requires Wins(w, v, r) && PhaseOk(w, r) && k < |v.wins| && (k < |w.wins| ==> WinOk(w, k))
    ensures WinOk(v, k)
  {
    hide NextRun, Moment.At, Moment.Valid, Spec.Valid, Spec.Matches, RowOk, Wf;
  }

  lemma ClaimWon(w: World, r: RunnerId)
    requires Inv(w) && w.At(r).Selected? && TryClaim(w.db, w.At(r).id, w.At(r).seen, w.At(r).now).1
    ensures Inv(DoClaim(w, r)) && Evolves(w, DoClaim(w, r))
    ensures w.db.rows[w.At(r).id].nextAt.At() < DoClaim(w, r).db.rows[w.At(r).id].nextAt.At()
  {
    var p, v := w.At(r), DoClaim(w, r);
    ClaimWins(w, r);
    assert PhaseOk(w, r) && p.seen.At() <= p.now.At();
    hide DoClaim, TryClaim, NextRun, Moment.At, Moment.Valid, Spec.Valid, Spec.Matches, PhaseOk, WinOk, Wf;
    forall id ensures RowOk(v, id) { assert RowOk(w, id); }
    hide RowOk;
    forall q ensures PhaseOk(v, q) { WinsPhases(w, v, r, q); }
    forall k: nat | k < |v.wins| ensures WinOk(v, k) { WinsWins(w, v, r, k); }
    forall i: nat, k: nat | i < k < |v.wins|
      ensures PairOk(v.wins, i, k)
    {
      if k < |w.wins| { assert PairOk(w.wins, i, k); } else { WinBefore(w, p.id, i); }
    }
  }

  lemma WinBefore(w: World, id: Id, i: nat)
    requires i < |w.wins| && WinOk(w, i) && id in w.db.rows
    ensures w.wins[i].id == id ==> w.wins[i].now.At() < w.db.rows[id].nextAt.At()
  {
  }

  lemma ClaimOk(w: World, e: Event)
    requires Inv(w) && e.Claim? && Can(w, e)
    ensures Inv(Step(w, e)) && Evolves(w, Step(w, e))
  {
    var p, v := w.At(e.r), Step(w, e);
    if TryClaim(w.db, p.id, p.seen, p.now).1 {
      ClaimWon(w, e.r);
    } else {
      hide NextRun, Moment.At, Moment.Valid, Spec.Valid, Spec.Matches, Due;
      assert v.db == w.db;
      forall id ensures RowOk(v, id) { assert RowOk(w, id); }
      forall q ensures PhaseOk(v, q) { assert PhaseOk(w, q); }
      forall k: nat | k < |v.wins| ensures WinOk(v, k) { assert WinOk(w, k) && PhaseOk(w, e.r); }
      forall i: nat, k: nat | i < k < |v.wins| ensures PairOk(v.wins, i, k) { assert PairOk(w.wins, i, k); }
    }
  }

  /** The steps of run_claimed: they move no next run, and the last of them says what came of the win. */
  predicate Runs(w: World, v: World, r: RunnerId) {
    && w.At(r).Open() && v.wins == w.wins && v.clock == w.clock && v.db.nextId == w.db.nextId
    && v.phases == w.phases[r := v.At(r)] && r in v.phases
    && v.db.rows.Keys == w.db.rows.Keys
    && (forall id :: id in v.db.rows ==>
          v.db.rows[id].nextAt == w.db.rows[id].nextAt && v.db.rows[id].spec == w.db.rows[id].spec)
    && (if v.At(r).Open() then StillOpen(w, v, r) else Settles(w, v, r))
  }

  predicate StillOpen(w: World, v: World, r: RunnerId)
    requires w.At(r).Open() && v.At(r).Open()
  {
    v.At(r).win == w.At(r).win && v.At(r).id == w.At(r).id && v.outcomes == w.outcomes
  }

  predicate Settles(w: World, v: World, r: RunnerId)
    requires w.At(r).Open()
  {
    && v.At(r).Idle? && v.outcomes.Keys == w.outcomes.Keys + {w.At(r).win}
    && forall k :: k in w.outcomes && k != w.At(r).win ==> v.outcomes[k] == w.outcomes[k]
  }

  lemma RunsOk(w: World, v: World, r: RunnerId)
    requires Inv(w) && Runs(w, v, r)
    ensures Inv(v) && Evolves(w, v)
  {
    hide NextRun, Moment.At, Moment.Valid, Spec.Valid, Spec.Matches, Due, PhaseOk, WinOk;
    assert PhaseOk(w, r);
    forall id ensures RowOk(v, id) { assert RowOk(w, id); }
    hide RowOk;
    forall q ensures PhaseOk(v, q) { RunsPhases(w, v, r, q); }
    forall k: nat | k < |v.wins| ensures WinOk(v, k) { RunsWins(w, v, r, k); }
    forall i: nat, k: nat | i < k < |v.wins| ensures PairOk(v.wins, i, k) { assert PairOk(w.wins, i, k); }
    RunsOutcomes(w, v, r);
  }

  lemma RunsPhases(w: World, v: World, r: RunnerId, q: RunnerId)
    requires Runs(w, v, r) && PhaseOk(w, q) && PhaseOk(w, r)
    ensures PhaseOk(v, q)
  {
    hide Moment.At, Moment.Valid;
  }

  lemma RunsWins(w: World, v: World, r: RunnerId, k: nat)
    requires Runs(w, v, r) && PhaseOk(w, r) && k < |w.wins| && WinOk(w, k)
    ensures WinOk(v, k)
  {
    hide Moment.At, Moment.Valid;
  }

  /** An outcome is only written for a win that had none. */
  lemma RunsOutcomes(w: World, v: World, r: RunnerId)
    requires Runs(w, v, r) && PhaseOk(w, r) && forall k :: k in w.outcomes ==> k < |w.wins|
    ensures forall k :: k in v.outcomes ==> k < |v.wins|
    ensures forall k :: k in w.outcomes ==> k in v.outcomes && v.outcomes[k] == w.outcomes[k]
  {
    hide Moment.At, Moment.Valid;
  }

  lemma RunnerOk(w: World, e: Event)
    requires Inv(w) && Can(w, e) && (e.Begin? || e.Make? || e.Finish?)
    ensures Inv(Step(w, e)) && Evolves(w, Step(w, e))
  {
    hide Inv, Runs, Evolves, DoBegin, DoMake, DoFinish;
    match e {
      case Begin(r) => BeginRuns(w, r);
      case Make(r) => MakeRuns(w, r);
      case Finish(r, how) => FinishRuns(w, r, how);
    }
    RunsOk(w, Step(w, e), e.r);
  }

  lemma BeginRuns(w: World, r: RunnerId)
    requires w.At(r).Claimed? && w.At(r).id in w.db.rows
    ensures Runs(w, DoBegin(w, r), r)
  {
    hide PreviousRunning;
  }

  lemma MakeRuns(w: World, r: RunnerId)
    requires w.At(r).Creating?
    ensures Runs(w, DoMake(w, r), r)
  {
  }

  lemma FinishRuns(w: World, r: RunnerId, how: How)
    requires w.At(r).Creating? && w.At(r).id in w.db.rows
    ensures Runs(w, DoFinish(w, r, how), r)
  {
    hide Newest;
  }

  /** A request without a claim begins or ends its first run: no next run moves, no win changes. */
  ghost predicate Requests(w: World, v: World, r: RunnerId) {
    && !w.At(r).Open() && v.phases == w.phases[r := v.At(r)] && r in v.phases && v.wins == w.wins && v.clock == w.clock
    && v.outcomes == w.outcomes && Wf(v.db) && v.db.nextId == w.db.nextId && v.db.rows.Keys == w.db.rows.Keys
    && (forall id :: id in v.db.rows ==>
          v.db.rows[id].nextAt == w.db.rows[id].nextAt && v.db.rows[id].spec == w.db.rows[id].spec)
    && (v.At(r).Idle? || (v.At(r).First? && v.At(r).id in v.db.rows))
  }

  lemma RequestsOk(w: World, v: World, r: RunnerId)
    requires Inv(w) && Requests(w, v, r)
    ensures Inv(v) && Evolves(w, v)
  {
    hide NextRun, Moment.At, Moment.Valid, Spec.Valid, Spec.Matches, Due, Wf;
    forall id ensures RowOk(v, id) { assert RowOk(w, id); }
    hide RowOk;
    forall q ensures PhaseOk(v, q) { assert PhaseOk(w, q); }
    forall k: nat | k < |v.wins| ensures WinOk(v, k) { assert WinOk(w, k); }
    forall i: nat, k: nat | i < k < |v.wins| ensures PairOk(v.wins, i, k) { assert PairOk(w.wins, i, k); }
  }

  lemma FirstOk(w: World, e: Event)
    requires Inv(w) && Can(w, e) && e.FirstRun?
    ensures Inv(Step(w, e)) && Evolves(w, Step(w, e))
  {
    FirstRunOk(w, e.r, e.spec);
  }

  lemma FirstRunOk(w: World, r: RunnerId, spec: Spec)
    requires Inv(w) && w.At(r).Idle? && spec.Valid()
    ensures Inv(DoFirst(w, r, spec)) && Evolves(w, DoFirst(w, r, spec))
  {
    var u := w.(db := Create(w.db, spec, w.clock));
    NewOk(w, spec);
    RowsChange(w, u);
    hide NextRun, Moment.At, Moment.Valid, Spec.Valid, Spec.Matches, Due, RowOk, WinOk, PairOk;
    assert u.db.nextId == w.db.nextId + 1;
    RequestsOk(u, DoFirst(w, r, spec), r);
    hide PhaseOk;
  }

  lemma LeaveFirstOk(w: World, e: Event)
    requires Inv(w) && Can(w, e) && (e.NoteFirst? || e.FirstFails?)
    ensures Inv(Step(w, e)) && Evolves(w, Step(w, e))
  {
    assert PhaseOk(w, e.r);
    hide NextRun, Moment.At, Moment.Valid, Spec.Valid, Spec.Matches, Due, RowOk, WinOk, PairOk;
    RequestsOk(w, Step(w, e), e.r);
  }

  lemma StepKeeps(w: World, e: Event)
    requires Inv(w) && Can(w, e)
    ensures Inv(Step(w, e)) && Evolves(w, Step(w, e))
  {
    hide Inv, Evolves, Step, Can;
    match e
    case Advance(_) => AdvanceOk(w, e);
    case NewSchedule(_) => UserOk(w, e);
    case Toggle(_, _) => UserOk(w, e);
    case Remove(_) => UserOk(w, e);
    case JobEnds(_) => UserOk(w, e);
    case Select(_, _, _) => SelectOk(w, e);
    case Claim(_) => ClaimOk(w, e);
    case Begin(_) => RunnerOk(w, e);
    case Make(_) => RunnerOk(w, e);
    case Finish(_, _) => RunnerOk(w, e);
    case FirstRun(_, _) => FirstOk(w, e);
    case NoteFirst(_) => LeaveFirstOk(w, e);
    case FirstFails(_) => LeaveFirstOk(w, e);
  }

  lemma {:induction false} RunKeeps(w: World, es: seq<Event>)
    requires Inv(w) && Run(w, es)
    ensures Inv(After(w, es)) && Evolves(w, After(w, es))
    decreases |es|
  {
    hide Inv, Step, Can;
    if es != [] {
      StepKeeps(w, es[0]);
      RunKeeps(Step(w, es[0]), es[1..]);
    }
  }

  /** Users pause and resume at once: a resumed schedule runs next at its first time after the clock. */
  lemma ToggleStep(w: World, id: Id, enabled: bool)
    requires Inv(w) && id in w.db.rows
    ensures var d, row := Step(w, Toggle(id, enabled)).db, w.db.rows[id];
      d == w.db.(rows := w.db.rows[id := row.(
        enabled := enabled, nextAt := if enabled && !row.enabled then NextRun(row.spec, w.clock) else row.nextAt)])
  {
    ToggleMeans(w.db, id, enabled, w.clock);
    hide NextRun, Update, Moment.At, Moment.Valid, Spec.Valid;
  }

  lemma StartOk(clock: Moment)
    requires clock.Valid()
    ensures Inv(Start(clock))
  {
  }

  /**
   However the runners interleave, and whenever users pause and resume: the due times won for a
   schedule rise strictly, each even above the time at which the tick of the win before it began. So a
   due time is won once, and a schedule once in a tick.
   */
  lemma DueTimesRise(clock: Moment, es: seq<Event>, i: nat, k: nat)
    requires clock.Valid() && Run(Start(clock), es)
    requires var wins := After(Start(clock), es).wins; i < k < |wins| && wins[i].id == wins[k].id
    ensures var wins := After(Start(clock), es).wins;
      wins[i].due.At() <= wins[i].now.At() < wins[k].due.At() <= wins[k].now.At()
  {
    StartOk(clock);
    RunKeeps(Start(clock), es);
    var w := After(Start(clock), es);
    hide After, Run;
    assert PairOk(w.wins, i, k) && WinOk(w, i) && WinOk(w, k);
  }

  /** A schedule's next run never moves back, and a won claim moves it on. */
  lemma NextRunMovesOn(w: World, e: Event, id: Id)
    requires Inv(w) && Can(w, e) && id in w.db.rows && id in Step(w, e).db.rows
    ensures w.db.rows[id].nextAt.At() <= Step(w, e).db.rows[id].nextAt.At()
    ensures e.Claim? && |Step(w, e).wins| > |w.wins| && w.At(e.r).id == id ==>
      w.db.rows[id].nextAt.At() < Step(w, e).db.rows[id].nextAt.At()
  {
    StepKeeps(w, e);
    if e.Claim? && TryClaim(w.db, w.At(e.r).id, w.At(e.r).seen, w.At(e.r).now).1 { ClaimWon(w, e.r); }
    hide NextRun, Moment.At, Inv;
  }

  /**
   Every won due time has exactly one outcome, which never changes, or a runner still at it; with
   all runners idle every one has its outcome.
   */
  lemma EveryWinEnds(clock: Moment, es: seq<Event>, more: seq<Event>, k: nat)
    requires clock.Valid() && Run(Start(clock), es) && Run(After(Start(clock), es), more)
    requires k < |After(Start(clock), es).wins|
    ensures var w, v := After(Start(clock), es), After(After(Start(clock), es), more);
      && (k in w.outcomes ==> k in v.outcomes && v.outcomes[k] == w.outcomes[k])
      && (k !in w.outcomes <==> w.At(w.wins[k].runner).Open() && w.At(w.wins[k].runner).win == k)
      && ((forall r :: w.At(r).Idle?) ==> k in w.outcomes)
  {
    var w := After(Start(clock), es);
    StartOk(clock);
    RunKeeps(Start(clock), es);
    RunKeeps(w, more);
    assert WinOk(w, k) && PhaseOk(w, w.wins[k].runner);
    hide After, Run, Inv, Moment.At;
  }

  // ---------------------------------------------------------------- one job at a time

  /** If the step wins a due time, no other runner is still at that schedule. */
  ghost predicate Clear(w: World, e: Event) {
    e.Claim? && w.At(e.r).Selected? && TryClaim(w.db, w.At(e.r).id, w.At(e.r).seen, w.At(e.r).now).1 ==>
      forall q :: w.At(q).AtWork() ==> w.At(q).id != w.At(e.r).id
  }

  ghost predicate ClaimsClear(w: World, es: seq<Event>)
    decreases |es|
  {
    es != [] ==> Clear(w, es[0]) && ClaimsClear(Step(w, es[0]), es[1..])
  }

  predicate Apart(w: World, r: RunnerId, q: RunnerId) {
    r != q && w.At(r).AtWork() && w.At(q).AtWork() ==> w.At(r).id != w.At(q).id
  }

  /** A running job is its schedule's last one, or the runner that made it has not noted it yet. */
  predicate JobOk(w: World, j: JobId) {
    Running(w.db, j) ==>
      var id := w.db.jobs[j].schedule;
      j < w.db.nextJob && id < w.db.nextId
      && (id in w.db.rows ==> w.db.rows[id].lastJob == Some(j) || MadeBy(w, j, id))
  }

  predicate MadeBy(w: World, j: JobId, id: Id) {
    j in w.maker && w.At(w.maker[j]).Making() && w.At(w.maker[j]).id == id && w.At(w.maker[j]).Job() == Some(j)
  }

  /** While a runner makes a job for a schedule no other job of it runs. */
  predicate Alone(w: World, r: RunnerId, j: JobId) {
    w.At(r).Making() && Running(w.db, j) && w.db.jobs[j].schedule == w.At(r).id ==> w.At(r).Job() == Some(j)
  }

  predicate NotBoth(w: World, j: JobId, k: JobId) {
    Running(w.db, j) && Running(w.db, k) && w.db.jobs[j].schedule == w.db.jobs[k].schedule ==> j == k
  }

  ghost predicate OneEach(w: World) {
    && (forall r, q :: Apart(w, r, q))
    && (forall j :: JobOk(w, j))
    && (forall r, j :: Alone(w, r, j))
    && (forall j, k :: NotBoth(w, j, k))
  }

  /** Jobs and their schedules' last jobs stay, except that jobs may end; no runner starts. */
  ghost predicate Calm(w: World, v: World) {
    && v.maker == w.maker && v.db.nextJob == w.db.nextJob && w.db.nextId <= v.db.nextId
    && (forall j :: Running(v.db, j) ==> Running(w.db, j) && v.db.jobs[j] == w.db.jobs[j])
    && (forall id :: id in v.db.rows && id < w.db.nextId ==>
          id in w.db.rows && v.db.rows[id].lastJob == w.db.rows[id].lastJob)
  }

  /** The runner is where it was, or has stopped without being at a job. */
  predicate Rests(w: World, v: World, r: RunnerId) {
    v.At(r) == w.At(r) || (!v.At(r).AtWork() && !w.At(r).Making())
  }

  lemma CalmOk(w: World, v: World)
    requires OneEach(w) && Calm(w, v) && forall r :: Rests(w, v, r)
    ensures OneEach(v)
  {
    hide Running;
    forall r, q ensures Apart(v, r, q) { assert Apart(w, r, q) && Rests(w, v, r) && Rests(w, v, q); }
    forall j
      ensures JobOk(v, j)
    {
      assert JobOk(w, j);
      if j in w.maker { assert Rests(w, v, w.maker[j]); }
    }
    forall r, j ensures Alone(v, r, j) { assert Alone(w, r, j) && Rests(w, v, r); }
    forall j, k ensures NotBoth(v, j, k) { assert NotBoth(w, j, k); }
  }

  lemma CalmSteps(w: World, e: Event)
    requires Inv(w) && Can(w, e) && OneEach(w)
    requires e.Advance? || e.NewSchedule? || e.Toggle? || e.Remove? || e.JobEnds? || e.Select?
    ensures OneEach(Step(w, e))
  {
    hide NextRun, Moment.At, Moment.Valid, Spec.Valid, Spec.Matches, Due, OneEach;
    var v := Step(w, e);
    forall r ensures Rests(w, v, r) { }
    CalmOk(w, v);
  }

  lemma ClaimOne(w: World, r: RunnerId)
    requires Inv(w) && OneEach(w) && w.At(r).Selected? && Clear(w, Claim(r))
    ensures OneEach(DoClaim(w, r))
  {
    var p, v := w.At(r), DoClaim(w, r);
    hide Inv, NextRun, Moment.At, Moment.Valid, Spec.Valid, Spec.Matches;
    if TryClaim(w.db, p.id, p.seen, p.now).1 {
      forall q, s
        ensures Apart(v, q, s)
      {
        assert Apart(w, q, s);
        assert (q != r ==> v.At(q) == w.At(q)) && (s != r ==> v.At(s) == w.At(s));
      }
      forall j ensures JobOk(v, j) { assert JobOk(w, j); }
      forall q, j ensures Alone(v, q, j) { assert Alone(w, q, j); }
      forall j, k ensures NotBoth(v, j, k) { assert NotBoth(w, j, k); }
    } else {
      assert v.db == w.db;
      hide OneEach;
      forall q ensures Rests(w, v, q) { }
      CalmOk(w, v);
    }
  }

  lemma BeginOne(w: World, r: RunnerId)
    requires Inv(w) && OneEach(w) && w.At(r).Claimed? && w.At(r).id in w.db.rows
    ensures OneEach(DoBegin(w, r))
  {
    var p, v := w.At(r), DoBegin(w, r);
    hide NextRun, Moment.At, Moment.Valid, Spec.Valid, Spec.Matches, Inv;
    if PreviousRunning(w.db, w.db.rows[p.id]) {
      hide OneEach;
      forall q ensures Rests(w, v, q) { }
      CalmOk(w, v);
    } else {
      forall q, s ensures Apart(v, q, s) { assert Apart(w, q, s); }
      forall j ensures JobOk(v, j) { assert JobOk(w, j); }
      forall q, j
        ensures Alone(v, q, j)
      {
        assert Alone(w, q, j) && JobOk(w, j);
        if j in w.maker { assert Apart(w, r, w.maker[j]); }
      }
      forall j, k ensures NotBoth(v, j, k) { assert NotBoth(w, j, k); }
    }
  }

  lemma MakeOne(w: World, r: RunnerId)
    requires Inv(w) && OneEach(w) && w.At(r).Creating? && w.At(r).job.None?
    ensures OneEach(DoMake(w, r))
  {
    var p, v, new' := w.At(r), DoMake(w, r), w.db.nextJob;
    assert PhaseOk(w, r) && WinOk(w, p.win);
    assert p.id < w.db.nextId;
    hide NextRun, Moment.At, Moment.Valid, Spec.Valid, Spec.Matches, Inv, PhaseOk, WinOk;
    forall q, s ensures Apart(v, q, s) { assert Apart(w, q, s); }
    forall j
      ensures Running(v.db, j) <==> j == new' || Running(w.db, j)
      ensures JobOk(v, j)
    {
      assert JobOk(w, j);
    }
    forall q, j ensures Alone(v, q, j) { assert Alone(w, q, j) && Apart(w, q, r) && JobOk(w, j); }
    forall j, k
      ensures NotBoth(v, j, k)
    {
      assert NotBoth(w, j, k) && Alone(w, r, j) && Alone(w, r, k) && JobOk(w, j) && JobOk(w, k);
    }
  }

  /** Only the runner's own job ends, and only its schedule's last job changes. */
  ghost predicate Notes(w: World, v: World, r: RunnerId) {
    && w.At(r).Making() && v.phases == w.phases[r := Idle] && v.maker == w.maker
    && v.db.nextId == w.db.nextId && v.db.nextJob == w.db.nextJob && v.db.rows.Keys == w.db.rows.Keys
    && (forall j :: Running(v.db, j) ==> Running(w.db, j) && v.db.jobs[j] == w.db.jobs[j])
    && (forall id :: id in v.db.rows && id != w.At(r).id ==> v.db.rows[id].lastJob == w.db.rows[id].lastJob)
    && (forall j :: w.At(r).Job() == Some(j) && Running(v.db, j) && w.At(r).id in v.db.rows ==>
          v.db.rows[w.At(r).id].lastJob == Some(j))
  }

  lemma NotesOne(w: World, v: World, r: RunnerId)
    requires OneEach(w) && Notes(w, v, r)
    ensures OneEach(v)
  {
    hide Running;
    forall q, s ensures Apart(v, q, s) { assert Apart(w, q, s); }
    forall j
      ensures JobOk(v, j)
    {
      assert JobOk(w, j) && Alone(w, r, j);
      if j in w.maker && w.maker[j] != r { assert v.At(w.maker[j]) == w.At(w.maker[j]); }
    }
    forall q, j ensures Alone(v, q, j) { assert Alone(w, q, j); }
    forall j, k ensures NotBoth(v, j, k) { assert NotBoth(w, j, k); }
  }

  lemma FinishOne(w: World, r: RunnerId, how: How)
    requires OneEach(w) && Can(w, Finish(r, how))
    ensures OneEach(DoFinish(w, r, how))
  {
    hide Newest, OneEach;
    assert Notes(w, DoFinish(w, r, how), r);
    NotesOne(w, DoFinish(w, r, how), r);
  }

  /** Nobody is at a schedule that is new, and no job is of it. */
  lemma FirstOne(w: World, r: RunnerId, spec: Spec)
    requires Inv(w) && OneEach(w) && w.At(r).Idle?
    ensures OneEach(DoFirst(w, r, spec))
  {
    var v, id, new' := DoFirst(w, r, spec), w.db.nextId, w.db.nextJob;
    OpenHasRow(w);
    assert forall q :: w.At(q).AtWork() ==> w.At(q).id < id;
    assert forall q :: q != r ==> v.At(q) == w.At(q);
    hide NextRun, Moment.At, Moment.Valid, Spec.Valid, Spec.Matches, Inv;
    forall q, s ensures Apart(v, q, s) { assert Apart(w, q, s); }
    forall j
      ensures Running(v.db, j) <==> j == new' || Running(w.db, j)
      ensures JobOk(v, j)
    {
      assert JobOk(w, j);
    }
    forall q, j ensures Alone(v, q, j) { assert Alone(w, q, j) && JobOk(w, j); }
    forall j, k
      ensures NotBoth(v, j, k)
    {
      assert NotBoth(w, j, k) && JobOk(w, j) && JobOk(w, k);
    }
  }

  lemma LeaveFirstOne(w: World, e: Event)
    requires Inv(w) && OneEach(w) && Can(w, e) && (e.NoteFirst? || e.FirstFails?)
    ensures OneEach(Step(w, e))
  {
    assert PhaseOk(w, e.r);
    hide OneEach, Inv;
    assert Notes(w, Step(w, e), e.r);
    NotesOne(w, Step(w, e), e.r);
  }

  lemma StepKeepsOne(w: World, e: Event)
    requires Inv(w) && Can(w, e) && OneEach(w) && Clear(w, e)
    ensures OneEach(Step(w, e))
  {
    hide Inv, OneEach, Clear, DoClaim, DoBegin, DoMake, DoFinish, Create, Update, EndJob, Due;
    match e
    case Claim(r) => ClaimOne(w, r);
    case Begin(r) => BeginOne(w, r);
    case Make(r) => MakeOne(w, r);
    case Finish(r, how) => FinishOne(w, r, how);
    case FirstRun(r, spec) => FirstOne(w, r, spec);
    case NoteFirst(r) => LeaveFirstOne(w, e);
    case FirstFails(r) => LeaveFirstOne(w, e);
    case _ => CalmSteps(w, e);
  }

  lemma {:induction false} ClearKeepsOne(w: World, es: seq<Event>)
    requires Inv(w) && OneEach(w) && Run(w, es) && ClaimsClear(w, es)
    ensures OneEach(After(w, es))
    decreases |es|
  {
    hide Inv, OneEach, Step, Can, Clear;
    if es != [] {
      StepKeeps(w, es[0]);
      StepKeepsOne(w, es[0]);
      ClearKeepsOne(Step(w, es[0]), es[1..]);
    }
  }

  /** If no due time is won while another runner is at the schedule, two jobs of it never run at once. */
  lemma OneJobAtATime(clock: Moment, es: seq<Event>, j: JobId, k: JobId)
    requires clock.Valid() && Run(Start(clock), es) && ClaimsClear(Start(clock), es)
    requires var db := After(Start(clock), es).db; Running(db, j) && Running(db, k) && j != k
    ensures var db := After(Start(clock), es).db; db.jobs[j].schedule != db.jobs[k].schedule
  {
    var w := After(Start(clock), es);
    StartOk(clock);
    assert OneEach(Start(clock));
    ClearKeepsOne(Start(clock), es);
    assert NotBoth(w, j, k);
  }

  // ---------------------------------------------------------------- when claims are clear

  /** Every claimed schedule is run before its next run is due. */
  ghost predicate OnTime(w: World) {
    forall r :: w.At(r).AtWork() && w.At(r).id in w.db.rows ==> w.clock.At() < w.db.rows[w.At(r).id].nextAt.At()
  }

  /** So it is at each claim. */
  ghost predicate Prompt(w: World, es: seq<Event>)
    decreases |es|
  {
    es != [] ==> (es[0].Claim? ==> OnTime(w)) && Prompt(Step(w, es[0]), es[1..])
  }

  lemma OnTimeClear(w: World, e: Event)
    requires Inv(w) && Can(w, e) && (e.Claim? ==> OnTime(w))
    ensures Clear(w, e)
  {
    if e.Claim? && TryClaim(w.db, w.At(e.r).id, w.At(e.r).seen, w.At(e.r).now).1 {
      assert PhaseOk(w, e.r);
      hide NextRun, Moment.At, Moment.Valid, Spec.Valid, Spec.Matches;
      forall q | w.At(q).AtWork()
        ensures w.At(q).id != w.At(e.r).id
      {
        assert PhaseOk(w, q);
      }
    }
  }

  /** If every run is over before its schedule's next time, claims are clear. */
  lemma {:induction false} PromptClear(w: World, es: seq<Event>)
    requires Inv(w) && Run(w, es) && Prompt(w, es)
    ensures ClaimsClear(w, es)
    decreases |es|
  {
    hide Inv, Step, Can, OnTime, Clear;
    if es != [] {
      OnTimeClear(w, es[0]);
      StepKeeps(w, es[0]);
      PromptClear(Step(w, es[0]), es[1..]);
    }
  }

  /** The runner has won a due time and not made its job yet. */
  predicate Unmade(w: World, r: RunnerId, id: Id) {
    w.At(r).Open() && w.At(r).id == id && w.At(r).Job().None?
  }

  /** Its job, or that of a request's first run, is running and not noted. */
  predicate Unnoted(w: World, r: RunnerId, id: Id) {
    && w.At(r).Making() && w.At(r).id == id && w.At(r).Job().Some? && Running(w.db, w.At(r).Job().value)
    && w.db.jobs[w.At(r).Job().value].schedule == id && w.At(r).Job().value < w.db.nextJob
    && (id in w.db.rows ==> w.db.rows[id].lastJob != w.At(r).Job())
  }

  /** Nothing keeps a runner at work from going on, once its schedule's last job has ended. */
  lemma Begun(start: World, es: seq<Event>, r: RunnerId, id: Id) returns (more: seq<Event>)
    requires Run(start, es) && Unmade(After(start, es), r, id) && id in After(start, es).db.rows
    requires !PreviousRunning(After(start, es).db, After(start, es).db.rows[id])
    ensures var w, v := After(start, es), After(start, more);
      && Run(start, more) && v.db == w.db && v.At(r).Creating? && Unmade(v, r, id)
      && forall q :: q != r ==> v.At(q) == w.At(q)
  {
    hide Run, After;
    more := es;
    if After(start, es).At(r).Claimed? {
      RunAppend(start, es, Begin(r));
      more := es + [Begin(r)];
    }
  }

  lemma LastEnds(w: World, id: Id) returns (es: seq<Event>)
    requires id in w.db.rows
    ensures Run(w, es)
    ensures var v := After(w, es);
      && (forall q :: v.At(q) == w.At(q)) && v.db.rows == w.db.rows && v.db.nextJob == w.db.nextJob
      && !PreviousRunning(v.db, v.db.rows[id])
      && (forall j :: j in w.db.jobs && w.db.rows[id].lastJob != Some(j) ==>
            j in v.db.jobs && v.db.jobs[j] == w.db.jobs[j])
  {
    es := [];
    var last := w.db.rows[id].lastJob;
    if last.Some? {
      RunAppend(w, es, JobEnds(last.value));
      es := es + [JobEnds(last.value)];
    }
  }

  /** A runner whose job is not made yet makes it, and no other job ends. */
  lemma Makes(start: World, es: seq<Event>, r: RunnerId, id: Id) returns (more: seq<Event>)
    requires Run(start, es) && Unmade(After(start, es), r, id) && After(start, es).At(r).Creating?
    ensures Run(start, more)
    ensures var w, v := After(start, es), After(start, more);
      && v.db == MakeJob(w.db, id) && forall q :: q != r ==> v.At(q) == w.At(q)
  {
    hide Run, After;
    RunAppend(start, es, Make(r));
    more := es + [Make(r)];
  }

  /** Two jobs of the schedule run. */
  predicate TwoRun(db: Db, id: Id, j: JobId, k: JobId) {
    j != k && Running(db, j) && Running(db, k) && db.jobs[j].schedule == db.jobs[k].schedule == id
  }

  /**
   Otherwise they can, from every such state: when a runner at work for a schedule has not made its job
   and another one has not either, or its job runs and is not noted, both jobs can come to run.
   */
  lemma TwoAtWorkOverlap(w: World, q: RunnerId, r: RunnerId, id: Id) returns (es: seq<Event>, j: JobId, k: JobId)
    requires q != r && (Unmade(w, q, id) || Unnoted(w, q, id)) && Unmade(w, r, id) && id in w.db.rows
    ensures Run(w, es) && TwoRun(After(w, es).db, id, j, k)
  {
    hide Run, After, Step, Can, PreviousRunning, Running;
    var ended := LastEnds(w, id);
    var begun := Begun(w, ended, r, id);
    if Unmade(w, q, id) {
      es := BothMake(w, begun, q, r, id);
      j, k := w.db.nextJob, w.db.nextJob + 1;
    } else {
      StaysUnnoted(w, After(w, begun), q, id);
      es := OneMakes(w, begun, q, r, id);
      j, k := w.At(q).Job().value, w.db.nextJob;
    }
  }

  lemma StaysUnnoted(w: World, v: World, q: RunnerId, id: Id)
    requires Unnoted(w, q, id) && id in w.db.rows && v.At(q) == w.At(q) && v.db.nextJob == w.db.nextJob
    requires v.db.rows == w.db.rows
    requires forall j :: j in w.db.jobs && w.db.rows[id].lastJob != Some(j) ==>
      j in v.db.jobs && v.db.jobs[j] == w.db.jobs[j]
    ensures Unnoted(v, q, id)
  {
  }

  lemma BothMake(start: World, es: seq<Event>, q: RunnerId, r: RunnerId, id: Id) returns (more: seq<Event>)
    requires q != r && Run(start, es) && id in After(start, es).db.rows
    requires !PreviousRunning(After(start, es).db, After(start, es).db.rows[id])
    requires Unmade(After(start, es), q, id) && Unmade(After(start, es), r, id) && After(start, es).At(r).Creating?
    ensures var n := After(start, es).db.nextJob; Run(start, more) && TwoRun(After(start, more).db, id, n, n + 1)
  {
    hide Run, After, Step, Can, PreviousRunning, Running, TwoRun;
    var both := Begun(start, es, q, id);
    var one := Makes(start, both, q, id);
    more := Makes(start, one, r, id);
    MadeRuns(After(start, both).db, id);
  }

  lemma OneMakes(start: World, es: seq<Event>, q: RunnerId, r: RunnerId, id: Id) returns (more: seq<Event>)
    requires q != r && Run(start, es) && Unnoted(After(start, es), q, id)
    requires Unmade(After(start, es), r, id) && After(start, es).At(r).Creating?
    ensures var w := After(start, es);
      Run(start, more) && TwoRun(After(start, more).db, id, w.At(q).Job().value, w.db.nextJob)
  {
    hide Run, After, Step, Can;
    more := Makes(start, es, r, id);
    MadeBeside(After(start, es).db, id, After(start, es).At(q).Job().value);
  }

  lemma MadeRuns(db: Db, id: Id)
    ensures TwoRun(MakeJob(MakeJob(db, id), id), id, db.nextJob, db.nextJob + 1)
  {
  }

  lemma MadeBeside(db: Db, id: Id, j: JobId)
    requires Running(db, j) && db.jobs[j].schedule == id && j < db.nextJob
    ensures TwoRun(MakeJob(db, id), id, j, db.nextJob)
  {
  }

  /** So from every claim that is won beside such a runner or request. */
  lemma UnclearClaimOverlaps(w: World, q: RunnerId, r: RunnerId) returns (es: seq<Event>, j: JobId, k: JobId)
    requires Inv(w) && w.At(r).Selected? && TryClaim(w.db, w.At(r).id, w.At(r).seen, w.At(r).now).1
    requires Unmade(w, q, w.At(r).id) || Unnoted(w, q, w.At(r).id)
    ensures Run(w, es) && TwoRun(After(w, es).db, w.At(r).id, j, k)
  {
    var id := w.At(r).id;
    RunAppend(w, [], Claim(r));
    assert [] + [Claim(r)] == [Claim(r)];
    var v := Step(w, Claim(r));
    assert After(w, [Claim(r)]) == v && Run(w, [Claim(r)]);
    assert v.db.jobs == w.db.jobs && v.db.nextJob == w.db.nextJob && v.db.rows.Keys == w.db.rows.Keys;
    assert v.db.rows[id].lastJob == w.db.rows[id].lastJob;
    var rest;
    rest, j, k := TwoAtWorkOverlap(v, q, r, id);
    es := [Claim(r)] + rest;
    assert es[1..] == rest && es[0] == Claim(r);
    hide Step, Inv;
  }

  // ---------------------------------------------------------------- the runner's own code

  /** The steps of running a claimed schedule, after the first. */
  function Rest(r: RunnerId, created: Created): seq<Event> {
    match created
    case Made => [Make(r), Finish(r, WithJob)]
    case NotMade(unconfirmed) => [Finish(r, NoJob(unconfirmed))]
    case Crashed(made) => if made then [Make(r), Finish(r, Broken)] else [Finish(r, Broken)]
  }

  /** run_claimed, as a runner's steps with nobody else in between. */
  function ClaimedSteps(w: World, r: RunnerId, created: Created): seq<Event> {
    if w.At(r).Claimed? && w.At(r).id in w.db.rows && PreviousRunning(w.db, w.db.rows[w.At(r).id]) then [Begin(r)]
    else [Begin(r)] + Rest(r, created)
  }

  /** What is left of the world when only this runner has worked. */
  ghost predicate OnlyRunner(w: World, v: World, r: RunnerId) {
    v == w.(db := v.db, phases := v.phases, wins := v.wins, outcomes := v.outcomes, maker := v.maker)
    && forall q :: q != r ==> v.At(q) == w.At(q)
  }

  lemma RunOne(w: World, e: Event)
    requires Can(w, e)
    ensures Run(w, [e]) && After(w, [e]) == Step(w, e)
  {
    assert [e][1..] == [];
    hide Can, Step;
    assert After(Step(w, e), []) == Step(w, e);
  }

  lemma RunTwo(w: World, e: Event, f: Event)
    requires Can(w, e) && Can(Step(w, e), f)
    ensures Run(w, [e, f]) && After(w, [e, f]) == Step(Step(w, e), f)
  {
    assert [e, f][1..] == [f];
    RunOne(Step(w, e), f);
    hide Can, Step;
  }

  lemma {:induction false} RunBoth(w: World, es: seq<Event>, more: seq<Event>)
    requires Run(w, es) && Run(After(w, es), more)
    ensures Run(w, es + more) && After(w, es + more) == After(After(w, es), more)
    decreases |es|
  {
    hide Can, Step;
    if es == [] {
      assert es + more == more;
    } else {
      assert (es + more)[1..] == es[1..] + more;
      RunBoth(Step(w, es[0]), es[1..], more);
    }
  }

  /** The runner is at the schedule with its job not made, and its last job is the one it began with. */
  predicate JustBegun(w: World, r: RunnerId, id: Id, win: nat) {
    id in w.db.rows && w.At(r) == Creating(id, win, w.db.rows[id].lastJob, None)
  }

  lemma RestIs(w: World, r: RunnerId, id: Id, win: nat, created: Created)
    requires JustBegun(w, r, id, win) && !PreviousRunning(w.db, w.db.rows[id])
    ensures var v, ran := After(w, Rest(r, created)), RunClaimed(w.db, id, created);
      && Run(w, Rest(r, created)) && v.db == ran.0 && v.At(r).Idle? && OnlyRunner(w, v, r)
      && v.outcomes == w.outcomes[win := ran.1] && v.wins == w.wins
  {
    hide Newest, PreviousRunning;
    var m := Step(w, Make(r));
    match created
    case Made => RunTwo(w, Make(r), Finish(r, WithJob));
    case NotMade(unconfirmed) => RunOne(w, Finish(r, NoJob(unconfirmed)));
    case Crashed(made) => if made { RunTwo(w, Make(r), Finish(r, Broken)); } else { RunOne(w, Finish(r, Broken)); }
  }

  /** The method of the runner is such a run, so that everything proved of runs holds for it. */
  lemma RunClaimedIsRun(w: World, r: RunnerId, created: Created)
    requires w.At(r).Claimed? && w.At(r).id in w.db.rows
    ensures var es := ClaimedSteps(w, r, created); var v, ran := After(w, es), RunClaimed(w.db, w.At(r).id, created);
      && Run(w, es) && v.db == ran.0 && v.At(r).Idle? && OnlyRunner(w, v, r)
      && v.outcomes == w.outcomes[w.At(r).win := ran.1] && v.wins == w.wins
  {
    var id, win := w.At(r).id, w.At(r).win;
    RunOne(w, Begin(r));
    if !PreviousRunning(w.db, w.db.rows[id]) {
      var b := Step(w, Begin(r));
      assert b.db == w.db && JustBegun(b, r, id, win);
      RestIs(b, r, id, win, created);
      RunBoth(w, [Begin(r)], Rest(r, created));
    }
    hide Run, After, Newest, PreviousRunning, Rest;
  }

  /** A turn of the loop of tick that wins a schedule: select, claim, and run. */
  lemma TurnIsRun(w: World, r: RunnerId, id: Id, now: Moment, created: Created) returns (es: seq<Event>)
    requires w.At(r).Idle? && id in w.db.rows && Due(w.db.rows[id], now) && now.Valid() && now.At() <= w.clock.At()
    requires w.db.rows[id].spec.Valid()
    ensures var claimed := TryClaim(w.db, id, w.db.rows[id].nextAt, now).0;
      && id in claimed.rows && Run(w, es)
      && var v, ran := After(w, es), RunClaimed(claimed, id, created);
         && v.clock == w.clock && |v.wins| == |w.wins| + 1 && w.wins <= v.wins
         && v.db == ran.0 && v.At(r).Idle? && OnlyRunner(w, v, r)
         && v.wins == w.wins + [Win(id, w.db.rows[id].nextAt, now, r)] && v.outcomes == w.outcomes[|w.wins| := ran.1]
  {
    var u := Step(w, Select(r, id, now));
    RunTwo(w, Select(r, id, now), Claim(r));
    var c := Step(u, Claim(r));
    assert c.At(r) == Claimed(id, |w.wins|);
    RunClaimedIsRun(c, r, created);
    hide Run, After, RunClaimed, Step;
    RunBoth(w, [Select(r, id, now), Claim(r)], ClaimedSteps(c, r, created));
    es := [Select(r, id, now), Claim(r)] + ClaimedSteps(c, r, created);
  }

  /** What a tick's run leaves: its wins with their outcomes, in order, behind those there were. */
  ghost predicate Ticked(w: World, v: World, r: RunnerId, outcomes: seq<(Id, Outcome)>) {
    && v.At(r).Idle? && OnlyRunner(w, v, r) && w.wins <= v.wins && |v.wins| == |w.wins| + |outcomes|
    && (forall k :: k in w.outcomes && k < |w.wins| ==> k in v.outcomes && v.outcomes[k] == w.outcomes[k])
    && forall i :: 0 <= i < |outcomes| ==> (
         && v.wins[|w.wins| + i].id == outcomes[i].0 && v.wins[|w.wins| + i].runner == r
         && |w.wins| + i in v.outcomes && v.outcomes[|w.wins| + i] == outcomes[i].1)
  }

  lemma TickedNext(w: World, u: World, v: World, r: RunnerId, id: Id, outcome: Outcome, rest: seq<(Id, Outcome)>)
    requires OnlyRunner(w, u, r) && Ticked(u, v, r, rest)
    requires |u.wins| == |w.wins| + 1 && w.wins <= u.wins && u.wins[|w.wins|].id == id && u.wins[|w.wins|].runner == r
    requires u.outcomes == w.outcomes[|w.wins| := outcome]
    ensures Ticked(w, v, r, [(id, outcome)] + rest)
  {
    var all := [(id, outcome)] + rest;
    assert forall q :: q != r ==> v.At(q) == w.At(q);
    forall i | 0 <= i < |all|
      ensures v.wins[|w.wins| + i].id == all[i].0 && v.wins[|w.wins| + i].runner == r
      ensures |w.wins| + i in v.outcomes && v.outcomes[|w.wins| + i] == all[i].1
    {
      if i > 0 {
        assert all[i] == rest[i - 1] && |w.wins| + i == |u.wins| + (i - 1);
      } else {
        assert v.wins[|w.wins|] == u.wins[|w.wins|];
      }
    }
  }

  lemma RunNone(w: World)
    ensures Run(w, []) && After(w, []) == w
  {
  }

  /** A turn that wins nothing: an invalid schedule is paused. */
  lemma PauseIsRun(w: World, r: RunnerId, id: Id, now: Moment)
    requires w.At(r).Idle? && id in w.db.rows && Due(w.db.rows[id], now) && now.Valid() && now.At() <= w.clock.At()
    requires !w.db.rows[id].spec.Valid()
    ensures var es := [Select(r, id, now), Claim(r)]; var v := After(w, es);
      && Run(w, es) && v.clock == w.clock && v.db == TryClaim(w.db, id, w.db.rows[id].nextAt, now).0 && v.At(r).Idle?
      && OnlyRunner(w, v, r) && v.wins == w.wins && v.outcomes == w.outcomes
      && v.db == w.db.With(id, w.db.rows[id].(enabled := false))
  {
    RunTwo(w, Select(r, id, now), Claim(r));
    hide Run, After;
  }

  lemma TickedSame(w: World, u: World, v: World, r: RunnerId, outcomes: seq<(Id, Outcome)>)
    requires OnlyRunner(w, u, r) && Ticked(u, v, r, outcomes) && u.wins == w.wins && u.outcomes == w.outcomes
    ensures Ticked(w, v, r, outcomes)
  {
    assert forall q :: q != r ==> v.At(q) == w.At(q);
  }

  /** A whole tick is a run too, whatever the schedules are. */
  lemma {:induction false} TickIsRun(w: World, r: RunnerId, now: Moment, create: Id -> Created, n: nat)
    returns (es: seq<Event>)
    requires w.At(r).Idle? && now.Valid() && now.At() <= w.clock.At()
    ensures var (last, outcomes) := Tick(w.db, now, create, n);
      Run(w, es) && After(w, es).db == last && Ticked(w, After(w, es), r, outcomes)
    decreases n
  {
    hide Run, After, Due, NextRun, TryClaim, RunClaimed, Ticked, OnlyRunner;
    hide Spec.Valid, World.At, Moment.At, Moment.Valid;
    es := [];
    var first := FirstDue(w.db, now, w.db.nextId);
    if n > 0 && first.Some? {
      var id := first.value;
      var (claimed, won) := TryClaim(w.db, id, w.db.rows[id].nextAt, now);
      DueWins(w.db, id, now);
      if won {
        var turn := TurnIsRun(w, r, id, now, create(id));
        var u := After(w, turn);
        var rest := TickIsRun(u, r, now, create, n - 1);
        RunBoth(w, turn, rest);
        var outcome := RunClaimed(claimed, id, create(id)).1;
        TickedNext(w, u, After(u, rest), r, id, outcome, Tick(u.db, now, create, n - 1).1);
        es := turn + rest;
      } else {
        PauseIsRun(w, r, id, now);
        var pause := [Select(r, id, now), Claim(r)];
        var u := After(w, pause);
        var rest := TickIsRun(u, r, now, create, n - 1);
        RunBoth(w, pause, rest);
        TickedSame(w, u, After(u, rest), r, Tick(u.db, now, create, n - 1).1);
        es := pause + rest;
      }
    } else {
      RunNone(w);
      TickedNone(w, r);
    }
  }

  lemma DueWins(db: Db, id: Id, now: Moment)
    requires id in db.rows && Due(db.rows[id], now)
    ensures TryClaim(db, id, db.rows[id].nextAt, now).1 <==> db.rows[id].spec.Valid()
  {
  }

  lemma TickedNone(w: World, r: RunnerId)
    requires w.At(r).Idle?
    ensures Ticked(w, w, r, [])
  {
  }

  // ---------------------------------------------------------------- a run that is not over in time

  function Hour(h: int): Moment {
    Moment(Date(2026, 1, 1), h, 0, 0, 0)
  }

  lemma Hours(h: int, k: int)
    requires 0 <= h <= k < 24
    ensures Hour(h).Valid() && Hour(h).At() <= Hour(k).At() && !Hour(k).Before(Hour(h))
    ensures h < 23 ==> NextRun(Hourly(0), Hour(h)) == Hour(h + 1)
  {
    hide Date.Ordinal;
  }

  lemma {:induction false} RunAppend(w: World, es: seq<Event>, e: Event)
    requires Run(w, es) && Can(After(w, es), e)
    ensures Run(w, es + [e]) && After(w, es + [e]) == Step(After(w, es), e)
    decreases |es|
  {
    hide Can, Step;
    if es == [] {
      assert es + [e] == [e] && [e][1..] == [];
    } else {
      assert (es + [e])[1..] == es[1..] + [e];
      RunAppend(Step(w, es[0]), es[1..], e);
    }
  }

  /** An hourly schedule that has not noted a job, in the hour before its next run. */
  predicate Waiting(w: World, h: int) {
    && 0 <= h < 22 && w.clock == Hour(h) && 0 in w.db.rows
    && w.db.rows[0].spec == Hourly(0) && w.db.rows[0].enabled && w.db.rows[0].nextAt == Hour(h + 1)
    && w.db.rows[0].lastJob == None
  }

  /** A runner that wins the next hour makes a job and does not note it. */
  lemma SlowRunner(start: World, es: seq<Event>, h: int, r: RunnerId) returns (more: seq<Event>)
    requires Run(start, es) && Waiting(After(start, es), h) && After(start, es).At(r).Idle?
    ensures var w, v := After(start, es), After(start, more);
      && Run(start, more) && (h < 21 ==> Waiting(v, h + 1))
      && v.db.jobs == w.db.jobs[w.db.nextJob := Job(0, true)] && v.db.nextJob == w.db.nextJob + 1
      && forall q :: q != r ==> v.At(q) == w.At(q)
  {
    Hours(h, h + 1);
    Hours(h + 1, h + 1);
    hide Moment.Valid, Moment.At, Moment.Before, NextRun, Run, After;
    var w0 := After(start, es);
    RunAppend(start, es, Advance(Hour(h + 1)));
    more := es + [Advance(Hour(h + 1))];
    var w1 := After(start, more);
    RunAppend(start, more, Select(r, 0, Hour(h + 1)));
    more := more + [Select(r, 0, Hour(h + 1))];
    var w2 := After(start, more);
    assert w2.At(r) == Selected(0, Hour(h + 1), Hour(h + 1));
    RunAppend(start, more, Claim(r));
    more := more + [Claim(r)];
    var w3 := After(start, more);
    assert Hourly(0).Valid();
    assert w3.At(r).Claimed? && w3.db.rows[0].nextAt == Hour(h + 2) && w3.db.rows[0].lastJob == None;
    RunAppend(start, more, Begin(r));
    more := more + [Begin(r)];
    var w4 := After(start, more);
    assert w4.db == w3.db && w4.At(r).Creating?;
    RunAppend(start, more, Make(r));
    more := more + [Make(r)];
  }

  /**
   Such a state is reached: a run of an hourly schedule that is not over after an hour does not keep
   the next one from starting its job.
   */
  lemma LateRunOverlaps() returns (es: seq<Event>)
    ensures Run(Start(Hour(9)), es)
    ensures var db := After(Start(Hour(9)), es).db; Running(db, 0) && Running(db, 1) && db.jobs[0] == db.jobs[1]
  {
    var start := Start(Hour(9));
    Hours(9, 9);
    es := [];
    RunAppend(start, es, NewSchedule(Hourly(0)));
    es := [NewSchedule(Hourly(0))];
    assert [] + es == es;
    assert es[1..] == [] && After(start, es) == Step(start, es[0]);
    es := SlowRunner(start, es, 9, 0);
    es := SlowRunner(start, es, 10, 1);
  }
}
