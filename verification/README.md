# Motuz: a Dafny model of its protocols and algorithms

Motuz copies and checks files between local paths and clouds for the users of a server. This
project models the parts of its back end whose correctness is a matter of whole runs or of all
inputs, and proves it in Dafny 4.11:

- **Remote jobs** (`WorkerManager`, `WorkerCalls`, `WorkerRuns`). Jobs are queued for worker machines, which claim
  them with a select and a compare-and-set, report progress under a lease and a ticket, and finish
  them; leases expire, workers are revoked, users stop jobs in three steps. `Manager` is the server's
  code over its tables; a run is any interleaving of users, workers that may retry, go silent or
  present old tickets, sweeps that skip locked rows, and the clock.
- **EC2 workers** (`Ec2Config`, `Ec2Launcher`, `Ec2Turns`, `Ec2Runs`, `Ec2Overrun`, `Ec2FollowUp`). A
  launcher starts one instance per job with a limit on active rows and one fallback attempt, and a reaper follows the
  instances. EC2 answers as it likes within a `World` per turn.
- **Sessions** (`AuthManager`, `AuthRuns`). Refresh tokens are rotated with a grace window; reuse
  after it kills the session; a clean-up drops rows of the revocation table.
- **Integrity checks** (`FileTree`, `FileTreeBuild`, `FileTreeDiff`, `FileTreeOrder`, `JobRunner`,
  `JobVerdict`). Two lists of names and hashes become trees, equal branches are dropped, and files
  without a CRC32C are compared by MD5.
- **The text pager** (`Utf8`, `FileView`, `FileViewPaging`). Chunks of a file, forward, backward and
  following a growing file, aligned to lines and to UTF-8 characters.
- **rclone's memory budget** (`SizeText`, `RcloneTuning`, `RcloneFit`, `RcloneOverrides`,
  `RcloneSettings`). Sizes as text, the estimate, presets fitted to a server, a server's defaults.
- **Scheduled copies** (`Schedule`, `ScheduleManager`, `ScheduleRuns`). Calendar arithmetic and
  runners that claim due schedules by compare-and-set, and requests that start a schedule's first run.
- **The overwrite registry** (`Destinations`, `OverwritePolicy`) and **two limiters** (`RateLimit`,
  `FailureLog`), whose compacted state has to agree with the full history.

Code that changes state is a class or a method with loops, proved equal to a specification function
over values; the properties are lemmas about these functions and about runs of them. Databases are
maps of rows and a transaction is one step, but a claim is two (the SELECT and the compare-and-set), and
so is the end of a stop (the SELECT and the UPDATE). Clocks do not go back, and secrets are numbers nobody
else has.

## What does not hold

Each of these is a lemma with a concrete input or run, beside the exact condition.

- Two steps undo the state of a job that is over, and no others (`WorkerRuns.OnlyTheseOverwrite`). A job the
  user stopped while it was still being queued becomes FAILED if queueing fails
  (`WorkerRuns.StoppedJobFails`). And a stop whose SELECT found the job in PROGRESS writes STOPPED over
  whatever became of it: over an end its user was mailed if the job has a row, over the failure to queue
  it if it has none (`WorkerRuns.LateStopExact`, `WorkerRuns.StopHidesMailedFailure`,
  `WorkerRuns.StopHidesQueueFailure`).
- The limit on EC2 workers. Whatever EC2 answers, the one step that exceeds it is a late fallback with
  every slot taken, and a run keeps the limit if and only if it has none (`Ec2Runs.LimitExact`): a
  queued job's first row rests in shutting-down without a second attempt and is then listed as out of
  capacity. Starting an attempt leaves its row so exactly if the answer to RunInstances, or the lookup
  after an `IdempotentParameterMismatch`, is an instance already shutting down
  (`Ec2Overrun.StartRestsExact`). Without such answers for first attempts the limit holds
  (`Ec2Runs.AtMostMaxWorkers`); with one, two instances can run with a limit of one
  (`Ec2Overrun.LimitExceeded`).
- The reaper loses sight of a queued job whose last answer was a terminated instance: no row of it is
  open any more, and none is added (`Ec2FollowUp.JobStranded`, `Ec2FollowUp.LeftBehindForGood`).
  Exactly these steps do that (`Ec2FollowUp.StepStrands`, `Ec2FollowUp.FollowedExact`).
- Motuz's README.md (lines 2151 to 2153) promises that the next type is tried once when an instance ends
  for want of capacity. If the reaper sees that instance as shutting down, its next look at it fails the
  job although the second attempt is on its way; if it sees it as terminated there is no next look
  (`Ec2FollowUp.FallbackOutlives`, `Ec2FollowUp.FallbackGivenUp`).
- A file `a` beside `a/b` ends the building of a tree, and differences behind it go unseen
  (`FileTreeBuild.TruncationHidesFiles`). It ends early exactly if some name is a folder of another or
  is given twice (`FileTreeBuild.GenerateSpec`).
- `a.t` sorts before `a/x` although the folder `a` sorts before `a.t`; equal files can then be listed
  as differing (`FileTreeOrder.DotBeforeSlash`), though nothing that differs is hidden
  (`FileTreeOrder.NoneHidden`) and the verdict stays right (`FileTreeBuild.Verdict`). The titles the
  merge relies on ascend if and only if the names of a list sort like their paths
  (`FileTreeOrder.GenerateAscends`), and then the difference is exact (`FileTreeOrder.ExactDifference`).
  Against such a side an equal file is listed if and only if on its own side a name sorts before it whose
  path comes behind (`FileTreeOrder.EqualFileListed`), so the order is needed (`FileTreeOrder.OrderNeeded`).
- A chunk read forward can split a line that is not longer than `length`, if and only if the backend does
  not know the file's size and the line is its last, as long as `length`, and ends inside a character
  (`FileViewPaging.ForwardSplitsExact`, `FileViewPaging.ShortLineSplit`).
- A size that prints with more than 7 digits does not parse: a job accepted with a cutoff of
  `100.001M` is refused when it runs (`RcloneOverrides.AcceptedThenRefused`).
- The default number of checkers can exceed a cap below 64 (`RcloneSettings.CheckersLifted`).
- Two jobs of a schedule can run at once (`ScheduleRuns.LateRunOverlaps`), as they can from any claim
  that is won while another runner or the schedule's first run is at work and its job is not made yet, or
  runs and is not noted (`ScheduleRuns.UnclearClaimOverlaps`, `ScheduleRuns.TwoAtWorkOverlap`). They cannot
  if no due time is won while anyone else is at the schedule (`ScheduleRuns.OneJobAtATime`), for instance
  because everyone is done before the next run is due (`ScheduleRuns.PromptClear`).

## Model

| member | source | states |
|---|---|---|
| WorkerManager.Manager.End | src/backend/api/managers/worker_manager.py:508-518 | the row is DONE, its broker token gone, and the ephemeral worker bound to it and holding its claim revoked; nothing else changes |
| WorkerManager.Manager.Expire | src/backend/api/managers/worker_manager.py:521-535 | besides ending the row, a job in PROGRESS fails and its user gets one mail |
| WorkerManager.Manager.ExpireRows | src/backend/api/managers/worker_manager.py:538-559 | ending rows one after the other, in any order, is ending them all at once |
| WorkerManager.ExpireOneMore | src/backend/api/managers/worker_manager.py:521-559 | rows and jobs do not depend on the order in which rows expire, nor do the mails and the workers revoked |
| WorkerManager.Manager.ExpireLeases | src/backend/api/managers/worker_manager.py:538-559 | a sweep ends exactly the running rows past their lease or ticket, except those another transaction holds |
| WorkerManager.Manager.RevokeWorker | src/backend/api/managers/worker_manager.py:309-322 | the worker is revoked, once, and its running jobs fail |
| WorkerManager.Manager.FailRemoteJob | src/backend/api/managers/worker_manager.py:474-482 | an open row expires; an ended one is left alone |
| WorkerManager.Manager.RequestStopOf | src/backend/api/managers/worker_manager.py:414-431 | a queued row ends, a running one is asked to stop; whether there was a row at all |
| WorkerManager.Manager.Stop | src/backend/api/managers/copy_job_manager.py:215-231 | what a stop of a remote job does when nothing happens between its three steps: the row first, then a job still in PROGRESS becomes STOPPED |
| WorkerManager.Manager.ReadJobForStop | src/backend/api/managers/copy_job_manager.py:226-227 | the SELECT of a stop's second step: whether the job is in PROGRESS |
| WorkerManager.Manager.WriteStopped | src/backend/api/managers/copy_job_manager.py:228-229 | its UPDATE: the job becomes STOPPED, whatever became of it since |
| WorkerManager.Manager.QueueJobFor | src/backend/api/managers/worker_manager.py:369-384 | a job being created gets one queued row of its pool |
| WorkerManager.Manager.SelectQueued | src/backend/api/managers/worker_manager.py:598-610 | the first queued row of the worker's pool and kinds, of its own job if it is bound, skipping locked rows; none only if there is none |
| WorkerManager.Manager.ClaimSelected | src/backend/api/managers/worker_manager.py:612-657 | the compare-and-set wins only a row that is still queued; a job that ended meanwhile or a ticket that cannot be built ends the row |
| WorkerManager.Manager.Ticket | src/backend/api/managers/worker_manager.py:733-753 | which calls are granted, refused, or end a row whose lease or ticket has passed |
| WorkerManager.Manager.ReportProgress | src/backend/api/managers/worker_manager.py:768-802 | a granted report extends the lease, and tells the worker to stop exactly if it was asked to or the job is over |
| WorkerManager.Manager.ReportFinish | src/backend/api/managers/worker_manager.py:805-861 | a granted report settles the job, mails unless it was stopped, and ends the row |
| WorkerManager.Manager.CreateBootstrapToken | src/backend/api/managers/worker_manager.py:334-366 | a token exactly for a pool that is not central, a lifetime in bounds and, if bound, a queued job of that pool |
| WorkerManager.Manager.ExchangeBootstrapToken | src/backend/api/managers/worker_manager.py:255-287 | an unused token in time makes one ephemeral worker with its pool and job |
| WorkerManager.Manager.ExpireBootstrapToken | src/backend/api/managers/worker_manager.py:494-502 | an unused token dies now |
| WorkerCalls.TicketExact | src/backend/api/managers/worker_manager.py:733-753 | a call with a ticket is granted exactly to the live worker whose claim and ticket the running row holds, in time; which refusal any other gets |
| WorkerCalls.ProgressEffect | src/backend/api/managers/worker_manager.py:768-802 | a granted report sets the lease's end to now and the lease time and changes nothing else; a late one expires the job, any other nothing |
| WorkerCalls.StopTold | src/backend/api/managers/worker_manager.py:798-799 | a worker is told to stop exactly if a stop was requested, the job was stopped, or it is gone |
| WorkerCalls.FinishEffect | src/backend/api/managers/worker_manager.py:805-861 | after a granted finish the job is in the reported state, STOPPED if a stop was asked for or it was stopped, FAILED for a stop nobody asked for; one mail unless it is STOPPED; the row is DONE without its broker token; nothing of other jobs changes |
| WorkerCalls.FinishRefused | src/backend/api/managers/worker_manager.py:805-822 | which finishes are granted, and that any other expires a late job or does nothing |
| WorkerCalls.FailEffect | src/backend/api/managers/worker_manager.py:474-482 | failing a job ends an open row, and fails the job with a mail if it is in PROGRESS |
| WorkerCalls.SweepEffect | src/backend/api/managers/worker_manager.py:538-559 | a sweep does that to each running row past its lease or ticket that is not locked, and to no other |
| WorkerCalls.RevokeEffect | src/backend/api/managers/worker_manager.py:309-322 | so does a revocation to each running row of the worker; the first revocation's time stays |
| WorkerCalls.PickEffect | src/backend/api/managers/worker_manager.py:598-610 | a live worker selects a row exactly if it is the lowest-id unlocked queued one of its pool, its kinds and, if bound, its job |
| WorkerCalls.ClaimEffect | src/backend/api/managers/worker_manager.py:612-657 | a won claim writes worker, times, a fresh ticket and a fresh broker token, and nothing else |
| WorkerCalls.ClaimFails | src/backend/api/managers/worker_manager.py:612-657 | any other claim leaves the row alone, or ends it, failing a job in PROGRESS whose ticket could not be built |
| WorkerCalls.StopEffect | src/backend/api/managers/worker_manager.py:414-431 | a stop ends a queued row, marks a running one, leaves an ended one |
| WorkerCalls.StopEndEffect | src/backend/api/managers/copy_job_manager.py:226-229 | its second step reads PROGRESS or does nothing, and writes STOPPED whatever is there then |
| WorkerCalls.StopReachesWorker | src/backend/api/managers/worker_manager.py:798-830 | in every run from a stop on no worker begins the job, every granted report of it is told to stop, and a granted finish leaves it STOPPED without a mail |
| WorkerCalls.QueueEffect | src/backend/api/managers/copy_job_manager.py:145-171 | what creating, queueing and failing to queue a job leave |
| WorkerCalls.BrokerExact | src/backend/api/managers/worker_manager.py:866-911 | who gets an OAuth token |
| WorkerCalls.TokenEffect | src/backend/api/managers/worker_manager.py:334-366 | which bootstrap tokens are made, and with which lifetime and job |
| WorkerCalls.SignInEffect | src/backend/api/managers/worker_manager.py:255-287 | signing in uses an unused token in time up and makes one ephemeral worker of its pool and job; dropping it ends it now |
| WorkerCalls.SuccessWasReported | src/backend/api/managers/worker_manager.py:823-830 | in every run a job is SUCCESS (or UNSET) if and only if a granted finish reported that for a job nobody had stopped and no late stop replaced it |
| WorkerRuns.StepKeeps | src/backend/api/managers/worker_manager.py:309-322 | every step of every party keeps the invariant of jobs, rows, workers and tokens, and undoes nothing but what a late stop hides |
| WorkerRuns.RunKeeps | src/backend/api/managers/worker_manager.py:508-657 | so does every run |
| WorkerRuns.JobsOnlyAdvance | src/backend/api/managers/worker_manager.py:598-657 | in every run a row only moves from QUEUED to RUNNING to DONE, gets its worker and ticket once, and never changes once it is DONE |
| WorkerRuns.SettledStaysSettled | src/backend/api/managers/worker_manager.py:805-861 | in every run a queued job that is over keeps its state, unless it was not stopped and a late stop made it STOPPED |
| WorkerRuns.OnlyTheseOverwrite | src/backend/api/managers/copy_job_manager.py:158-172 | a step changes the state of a job that is over if and only if it is the failure to queue a job still being created, or the UPDATE of a stop that read PROGRESS, for a job that was not stopped |
| WorkerRuns.StoppedJobFails | src/backend/api/managers/copy_job_manager.py:167-171 | a job created and stopped becomes FAILED when queueing fails |
| WorkerRuns.LateStopExact | src/backend/api/managers/copy_job_manager.py:226-229 | in every run a stop's UPDATE does what it would have done at once if and only if the job is still in progress or stopped; else its user was mailed the end it hides, or the job could not be queued |
| WorkerRuns.StopHidesMailedFailure | src/backend/api/managers/copy_job_manager.py:226-229 | a run in which a lease is swept between the two: a STOPPED job whose user was mailed that it failed |
| WorkerRuns.StopHidesQueueFailure | src/backend/api/managers/copy_job_manager.py:167-171 | a run in which queueing fails between the two: a STOPPED job that was never queued, and no mail |
| WorkerRuns.OneMailPerJob | src/backend/api/managers/worker_manager.py:521-535 | in every run a job has at most one mail, and one exactly if its remote run failed or finished without having been stopped, even if a late stop hides that |
| WorkerRuns.NeverRevived | src/backend/api/managers/worker_manager.py:733-753 | once a lease or ticket is past, the row done or the worker revoked, no later progress, finish or broker call of that job is granted, swept or not; a broker token exists exactly while the row runs |
| WorkerRuns.GrantedInTime | src/backend/api/managers/worker_manager.py:866-911 | every granted call is for the claiming, unrevoked worker of the row's pool, within the ticket's lifetime |
| WorkerRuns.BootstrapTokens | src/backend/api/managers/worker_manager.py:255-287 | a used or expired token stays so, two tokens never make one worker, a bound worker claims one job at most and is revoked when it ends |
| WorkerRuns.ClosedStays | src/backend/api/managers/worker_manager.py:414-431 | a job with no open user job behind its row never opens again |
| Ec2Config.ParseInstanceTypes | src/backend/api/utils/ec2_config.py:116-140 | rules come back exactly for valid entries: limits ascend and only the last entry has none |
| Ec2Config.ChooseInstanceType | src/backend/api/utils/ec2_config.py:143-149 | the type of the first rule above the size, else of the last one |
| Ec2Config.ChosenInTable | src/backend/api/utils/ec2_config.py:143-149 | in a table it is the rule whose range of sizes holds the source |
| Ec2Config.FallbackInstanceType | src/backend/api/utils/ec2_config.py:152-167 | the next type of the table without repetitions, or the previous one |
| Ec2Config.FallbackIsAnother | src/backend/api/utils/ec2_config.py:152-167 | it is another type of the table, and missing exactly if the table has no other |
| Ec2Launcher.Launcher.LaunchFor | src/backend/api/managers/ec2_launcher.py:309-334 | a row for a queued job without that attempt, started at once; a job with other connections than cloud to cloud fails |
| Ec2Launcher.Launcher.IssueToken | src/backend/api/managers/ec2_launcher.py:342-351 | the token of an earlier try dies and a new one is issued, or the row fails |
| Ec2Launcher.Launcher.StartRow | src/backend/api/managers/ec2_launcher.py:337-388 | what each answer of EC2 makes of the row: adopted, unconfirmed, or failed with or without a fallback |
| Ec2Launcher.Launcher.AdoptInstance | src/backend/api/managers/ec2_launcher.py:391-394 | the row takes the instance's id, state and launch time |
| Ec2Launcher.Launcher.FailLaunch | src/backend/api/managers/ec2_launcher.py:409-424 | the row fails; only a first attempt without capacity falls back, else the job fails |
| Ec2Launcher.Launcher.Dispatch | src/backend/api/managers/ec2_launcher.py:272-296 | queued jobs are launched in order until no slot is free, counting strays |
| Ec2Launcher.Launcher.ReapLaunchingRow | src/backend/api/managers/ec2_launcher.py:514-532 | an unconfirmed row is given up, failed or retried by its age |
| Ec2Launcher.Launcher.RefreshRow | src/backend/api/managers/ec2_launcher.py:534-540 | the row's state follows the listing; an instance that is gone long enough is terminated |
| Ec2Launcher.Launcher.ReapAliveRow | src/backend/api/managers/ec2_launcher.py:546-574 | when a living instance is terminated, and when its job fails with it |
| Ec2Launcher.Launcher.ReapEndedRow | src/backend/api/managers/ec2_launcher.py:576-602 | an ended instance falls back once for want of capacity, else fails an open job |
| Ec2Launcher.Launcher.ReapOne | src/backend/api/managers/ec2_launcher.py:506-602 | which of these a row's turn is: unconfirmed, alive or ended, after the listing |
| Ec2Launcher.Launcher.Reap | src/backend/api/managers/ec2_launcher.py:464-503 | every row that is still open at its turn is looked at once |
| Ec2Turns.AliveTurn | src/backend/api/managers/ec2_launcher.py:546-574 | at the turn of a living instance the row takes EC2's answer to its termination if and only if its job is over, or it stopped, ran past the maximum, or did not take the job within the boot timeout, else the state listed; an open job fails exactly in the last three cases |
| Ec2Turns.EndedTurn | src/backend/api/managers/ec2_launcher.py:576-602 | at the turn of an ended instance an open job falls back once, queued, first and without capacity, to another type, else fails; one that is over is left alone |
| Ec2Turns.FoundTurn | src/backend/api/managers/ec2_launcher.py:532-534 | an unconfirmed row whose client token is listed takes the instance over and has the turn of any other |
| Ec2Turns.UnconfirmedTurn | src/backend/api/managers/ec2_launcher.py:514-532 | an unconfirmed row fails with its job, fails its job after the boot timeout, is started again after two minutes, else stays |
| Ec2Turns.StartTurn | src/backend/api/managers/ec2_launcher.py:337-388 | what a refused token and each answer of EC2 make of a row, its token and its job |
| Ec2Turns.FailedTurn | src/backend/api/managers/ec2_launcher.py:409-424 | a failed launch tries another type once for want of capacity, else fails the open job |
| Ec2Turns.DispatchTurn | src/backend/api/managers/ec2_launcher.py:272-334 | a queued job is launched, with the type of its size, if and only if a slot is free, counting strays, it has no row, and it waits; one with a local path fails |
| Ec2Turns.DispatchServes | src/backend/api/managers/ec2_launcher.py:272-296 | after a pass every queued job has a row, no longer waits, or no slot is free |
| Ec2Turns.ReapServes | src/backend/api/managers/ec2_launcher.py:464-503 | a pass gives every open row it found one turn and changes no other row it had |
| Ec2Runs.RestingRowExact | src/backend/api/managers/ec2_launcher.py:576-602 | the turn of a row in shutting-down adds an active row, its job's second attempt, if and only if the job is queued and in progress from cloud to cloud, has no second attempt, lacks capacity, has another type to fall back on, may get a token, and the answer leaves the attempt on its slot; no other row's activity changes |
| Ec2Runs.StepExact | src/backend/api/managers/ec2_launcher.py:409-424 | whatever EC2 answers, every step keeps the invariant, and exactly such a turn adds an active row without looking for a free slot |
| Ec2Runs.LimitExact | src/backend/api/managers/ec2_launcher.py:272-334 | a run keeps the limit throughout if and only if no step of it is such a turn with every slot taken |
| Ec2Runs.StepBounded | src/backend/api/managers/ec2_launcher.py:409-424 | as long as no first attempt is answered with an instance that is shutting down, no step, the fallback that counts nothing included, lifts the active rows above the limit |
| Ec2Runs.AtMostMaxWorkers | src/backend/api/managers/ec2_launcher.py:272-334 | in every run without such an answer the active rows never exceed the limit, a job has at most two attempts, and at most one of them is active |
| Ec2Runs.ReapPassBounded | src/backend/api/managers/ec2_launcher.py:464-503 | a whole reaper pass without such an answer keeps the invariant and the limit |
| Ec2Runs.DispatchPassBounded | src/backend/api/managers/ec2_launcher.py:272-296 | a whole pass of the dispatcher keeps them whatever EC2 answers |
| Ec2Overrun.StartRestsExact | src/backend/api/managers/ec2_launcher.py:337-388 | starting a first attempt leaves its row at rest, with its job open, no second attempt and its slot given back, if and only if the answer is an instance that is shutting down |
| Ec2Overrun.LimitExceeded | src/backend/api/managers/ec2_launcher.py:363-369 | a run with a limit of one that ends with two active rows |
| Ec2FollowUp.StartStrands | src/backend/api/managers/ec2_launcher.py:337-388 | starting a row leaves its queued job without any open row if and only if the last answer for it is a terminated instance and its other row is not open |
| Ec2FollowUp.StepStrands | src/backend/api/managers/ec2_launcher.py:391-394 | exactly the steps that end with such an answer strand a job, and no other job |
| Ec2FollowUp.FollowedExact | src/backend/api/managers/ec2_launcher.py:464-503 | in a run every queued job of the pool that has a row has an open one at every moment, so that the reaper looks at it, if and only if no step is one of these |
| Ec2FollowUp.LeftBehindForGood | src/backend/api/managers/ec2_launcher.py:272-296 | a job that has rows but no open one never gets another row or a change of one in any run; it is stranded for as long as it waits |
| Ec2FollowUp.JobStranded | src/backend/api/managers/ec2_launcher.py:363-369 | a run in which a lookup finds a terminated instance and the job stays queued |
| Ec2FollowUp.FallbackTurn | src/backend/api/managers/ec2_launcher.py:534-594 | a turn that starts the fallback of an instance leaves its first row open if and only if the listing has the instance as shutting down |
| Ec2FollowUp.SecondLookFails | src/backend/api/managers/ec2_launcher.py:584-602 | a turn of a first row in shutting-down with a second attempt fails the open job and leaves the second attempt's row |
| Ec2FollowUp.FallbackOutlives | src/backend/api/managers/ec2_launcher.py:576-602 | after any run the first attempt of a fallback has another turn if and only if it was seen as shutting down, and that turn fails a job that is still open |
| Ec2FollowUp.FallbackGivenUp | src/backend/api/managers/ec2_launcher.py:584-602 | two looks at one instance in shutting-down: the first starts the fallback, the second fails its job |
| AuthManager.TokenStore.AddRevoked | src/backend/api/managers/auth_manager.py:178-194 | the first row of a token or session wins |
| AuthManager.TokenStore.IsRevoked | src/backend/api/managers/auth_manager.py:219-244 | a token is refused by its own row after the grace window, by its session's row, or as a legacy row; reuse adds the session's row |
| AuthManager.TokenStore.RefreshToken | src/backend/api/managers/auth_manager.py:148-161 | an accepted refresh token is revoked with a grace window and new tokens of its session are issued; any other is refused |
| AuthManager.TokenStore.LogoutUser | src/backend/api/managers/auth_manager.py:164-175 | an accepted refresh token and its session are revoked |
| AuthManager.TokenStore.CleanDatabase | src/backend/api/managers/auth_manager.py:247-257 | exactly the rows whose expiry has passed are dropped |
| AuthRuns.StepKeeps | src/backend/api/managers/auth_manager.py:178-215 | every step keeps the invariant: a session's row bounds the expiry of every token of the session that was issued |
| AuthRuns.LoginGives | src/backend/api/managers/auth_manager.py:127-143 | a login issues an access token for 900 seconds and a refresh token for 30 days, of a new session and the identity, both accepted at once, and nothing else |
| AuthRuns.RefreshGives | src/backend/api/managers/auth_manager.py:148-161 | an accepted refresh token issues exactly such a pair for its identity and its session, or a new one if it had none, both accepted at once; its own row gives it a minute unless it has one |
| AuthRuns.OnlyThoseIssue | src/backend/api/managers/auth_manager.py:77-82 | no other call issues a token |
| AuthRuns.UseMeans | src/backend/api/managers/auth_manager.py:219-244 | a use changes something exactly if a rotated refresh token with a session comes after its window: the session gets a row for 30 days |
| AuthRuns.RefusedCalls | src/backend/api/managers/auth_manager.py:219-244 | so it does whatever a refused refresh token is presented for |
| AuthRuns.LogoutMeans | src/backend/api/managers/auth_manager.py:164-175 | after a logout the token and its session have rows without a window, and expired rows are gone |
| AuthRuns.DroppedRows | src/backend/api/managers/auth_manager.py:247-257 | only a clean-up and a logout drop rows, and exactly those whose expiry is past |
| AuthRuns.RevocationIsPermanent | src/backend/api/managers/auth_manager.py:219-257 | in every run an unexpired token that is refused stays refused until it expires, whatever is cleaned up |
| AuthRuns.GraceEnds | src/backend/api/managers/auth_manager.py:147-159 | a rotated token is accepted only up to the window after its first rotation, however often it is used |
| AuthRuns.GraceExact | src/backend/api/managers/auth_manager.py:178-193 | and, if only time passes, exactly up to then and to its own expiry |
| AuthRuns.ReuseKillsSession | src/backend/api/managers/auth_manager.py:219-244 | using it later makes every token of its session refused in every run, and leaves other sessions' tokens as they are |
| AuthRuns.LogoutKillsSession | src/backend/api/managers/auth_manager.py:164-175 | logout does the same to its session, and kills a token without one |
| Names.JoinSplit | src/backend/api/utils/file_utils.py:22-31 | the parts of a name contain no slash and join to the name |
| Names.SplitJoin | src/backend/api/utils/file_utils.py:22-31 | splitting gives back parts that were joined |
| Names.PlainOrder | src/backend/api/utils/file_utils.py:20-22 | without characters below the slash, sorting names sorts paths segment by segment |
| Names.FolderContiguous | src/backend/api/utils/file_utils.py:20-22 | sorting keeps the names below one folder together |
| FileTree.GenerateFileTree | src/backend/api/utils/file_utils.py:3-35 | the tree of the sorted items, up to the first item that cannot be placed |
| FileTree.InsertItem | src/backend/api/utils/file_utils.py:20-22 | the insertion loop puts an item behind those whose names are not greater |
| FileTree.RemoveIdenticalBranches | src/backend/api/utils/file_utils.py:69-138 | the merge of two lists of branches, recursively |
| FileTreeBuild.SortSorts | src/backend/api/utils/file_utils.py:20-22 | sorting gives a sorted permutation |
| FileTreeBuild.SortStable | src/backend/api/utils/file_utils.py:20-22 | items of one name keep the order in which they were given |
| FileTreeBuild.PlaceRaises | src/backend/api/utils/file_utils.py:38-65 | a file on the way to a name, or of that name, raises |
| FileTreeBuild.PlaceDone | src/backend/api/utils/file_utils.py:38-65 | otherwise the leaf is added and no other changes |
| FileTreeBuild.GenerateSpec | src/backend/api/utils/file_utils.py:3-35 | the tree is complete if and only if no name is a folder of another or given twice, and flattening it lists exactly the given files |
| FileTreeBuild.Verdict | src/backend/api/utils/file_utils.py:69-138 | for prefix-free sides both results are empty if and only if names and hashes are the same and no hash is missing |
| FileTreeOrder.ListsInOrder | src/backend/api/utils/file_utils.py:3-35 | from left to right the tree of a prefix-free list holds its files in the order of the sort |
| FileTreeOrder.GenerateAscends | src/backend/api/utils/file_utils.py:3-35 | its titles ascend at every level if and only if the list's names sort like their paths segment by segment |
| FileTreeOrder.ExactDifference | src/backend/api/utils/file_utils.py:69-138 | if both sides' names do, the results hold exactly the files that are missing on the other side, differ or lack a hash |
| FileTreeOrder.PlainPathOrder | src/backend/api/utils/file_utils.py:20-22 | names without characters below the slash always sort so |
| FileTreeOrder.NoneHidden | src/backend/api/utils/file_utils.py:69-138 | for all prefix-free sides every file that is missing on the other side, differs or lacks a hash is listed, and only files of the side |
| FileTreeOrder.EqualFileListed | src/backend/api/utils/file_utils.py:69-138 | against a side whose names sort like their paths, a file that is the same on both is listed, on both, if and only if on its own side a name sorts before it whose path comes behind |
| FileTreeOrder.OrderNeeded | src/backend/api/utils/file_utils.py:69-138 | a prefix-free side with all hashes whose names do not sort like their paths has a file that is listed even against that file alone |
| FileTreeOrder.DiffSwaps | src/backend/api/utils/file_utils.py:69-138 | exchanging the sides exchanges the results |
| FileTreeBuild.TruncationHidesFiles | src/backend/api/utils/file_utils.py:27-33 | a file beside a folder of its name hides a difference |
| FileTreeOrder.DotBeforeSlash | src/backend/api/utils/file_utils.py:69-138 | with a character below the slash a file that is the same on both sides is listed |
| FileTreeDiff.DiffEmpty | src/backend/api/utils/file_utils.py:69-138 | the results of any two trees are empty if and only if the trees are equal and every file has a hash |
| FileTreeDiff.DiffExact | src/backend/api/utils/file_utils.py:69-138 | for trees with ascending titles a leaf is left exactly if the other side lacks it or it has no hash |
| FileTreeDiff.DiffKeeps | src/backend/api/utils/file_utils.py:69-138 | for any two trees nothing that differs is dropped and nothing is invented |
| JobRunner.HashsumType | src/backend/api/utils/job_runner.py:39-58 | CRC32C exactly if this node has it, neither side is another cloud, and both are local or nothing is downloaded; SHA-256 exactly for local sides without it |
| JobRunner.RunHashsum | src/backend/api/utils/job_runner.py:123-212 | the result and the runs started of a whole check, for every answer of rclone and of the user |
| JobRunner.RunAll | src/backend/api/utils/job_runner.py:146-164 | the loop over both sides' full runs, ending at the first that is refused or fails |
| JobRunner.RunFallback | src/backend/api/utils/job_runner.py:170-192 | the loop over both sides' MD5 runs of the fallback |
| JobRunner.FallbackNames | src/backend/api/utils/job_runner.py:166-169 | the loop that collects the fallback |
| JobRunner.SettleFallback | src/backend/api/utils/job_runner.py:193-199 | the loop that replaces or deletes the fallback's entries |
| JobVerdict.FallbackExact | src/backend/api/utils/job_runner.py:166-169 | the fallback lists, ascending and once each, exactly the common files of which one side lacks a CRC32C |
| JobVerdict.RunsFollowThePlan | src/backend/api/utils/job_runner.py:149-192 | a check succeeds if and only if every run of its plan is let through and exits with 0, having started just these; else it stops at the run refused or failed |
| JobVerdict.FailureSays | src/backend/api/utils/job_runner.py:150-192 | a check that fails gives the state, the files and the error text of the run that failed, behind that of the side's first run |
| JobVerdict.ErrorTexts | src/backend/api/utils/job_runner.py:190-208 | each side's error text is that of its own runs, one after the other, or none |
| JobVerdict.ToDictIs | src/backend/api/utils/job_runner.py:163-164 | a side's hashes are those its run printed, the last one of a name |
| JobVerdict.ComparesLikeWithLike | src/backend/api/utils/job_runner.py:166-212 | each common file is compared CRC32C to CRC32C or MD5 to MD5, or left out of both trees and counted; the two counts are those of the fallback's files and add up to it |
| JobVerdict.CrcVerdict | src/backend/api/utils/job_runner.py:61-67 | for prefix-free sides a CRC32C check does not say DIFFERENT if and only if the names are the same and each file's comparable hashes agree; IDENTICAL without remainder if and only if moreover every file was comparable |
| JobVerdict.PlainVerdict | src/backend/api/utils/job_runner.py:61-67 | any other check says IDENTICAL if and only if names and hashes are the same and none is missing |
| Utf8.ChunkValid | src/backend/api/utils/file_view.py:192-210 | a valid text between two character boundaries is a valid text (RFC 3629, section 4) |
| Utf8.FindLead | src/backend/api/utils/file_view.py:192-202 | every byte of a valid text belongs to a character whose lead byte gives its length |
| Utf8.ValidIsEncoded | src/backend/api/utils/file_view.py:192-210 | a valid text is the encoding of some characters (RFC 3629, section 3) |
| Utf8.EncodedIsValid | src/backend/api/utils/file_view.py:192-210 | and every such encoding is valid |
| FileView.ParseChunkRequest | src/backend/api/utils/file_view.py:152-189 | a request is accepted exactly for numbers in bounds, one kind of position, and following only forward; it then holds the numbers given, offset 0 without a position, and the full length without one |
| FileView.RefusedWhy | src/backend/api/utils/file_view.py:152-189 | which error a refused request gets |
| FileViewPaging.Asked | src/backend/api/utils/file_view.py:152-189 | asking with the end of the last chunk, with the start of the last one as `before`, or for the tail gives just these requests, which the paging results are about |
| FileViewPaging.AcceptedIs | src/backend/api/utils/file_view.py:152-189 | and every accepted request is one of them |
| FileView.Utf8IncompleteTail | src/backend/api/utils/file_view.py:192-202 | the loop over the last bytes |
| FileView.Utf8ContinuationHead | src/backend/api/utils/file_view.py:205-210 | the loop over the first bytes |
| FileViewPaging.IncompleteBoundary | src/backend/api/utils/file_view.py:192-202 | cutting the incomplete tail off a part of a valid text leaves a character boundary |
| FileViewPaging.ForwardAligned | src/backend/api/utils/file_view.py:213-225 | a chunk read forward keeps at least one byte and ends after a newline, or in a line longer than what was read, at a boundary |
| FileViewPaging.BackwardAligned | src/backend/api/utils/file_view.py:243-260 | a chunk read backward starts after a newline, or else neither it nor the byte before it holds a newline but at its end; at a boundary |
| FileViewPaging.ForwardTiles | src/backend/api/utils/file_view.py:282-332 | paging forward from any offset ends and tiles the file without gap or overlap in chunks of at most `length` bytes, empty only at the end; every chunk of a valid text is valid; only lines longer than `length` are split if the backend knows the size or the file is a valid text |
| FileViewPaging.ForwardSplitsExact | src/backend/api/utils/file_view.py:213-225 | a chunk read forward splits a line of at most `length` bytes if and only if the size is unknown and that line ends the file, is `length` bytes long and ends inside a character |
| FileViewPaging.ShortLineSplit | src/backend/api/utils/file_view.py:213-225 | such a file of one line |
| FileViewPaging.TailIsLast | src/backend/api/utils/file_view.py:138-149 | the tail is the chunk that ends at the end |
| FileViewPaging.BackwardTiles | src/backend/api/utils/file_view.py:282-332 | paging backward by `before` ends at the start and tiles the file; only lines longer than `length` are split, and every chunk of a valid text is valid |
| FileViewPaging.FollowChunk | src/backend/api/utils/file_view.py:228-240 | after a poll that reached the end of the file what is withheld has no newline and is shorter than `length`; any other poll makes progress |
| FileViewPaging.FollowReceives | src/backend/api/utils/file_view.py:313-329 | however polls and growth interleave, the chunks together are the file from the first offset to the last `end`, and no character of a valid text is cut |
| FileViewPaging.Shrunk | src/backend/api/utils/file_view.py:292-298 | a position past the end, forward or backward, is an error, or the new size for a follower |
| SizeText.PrintSize | src/backend/api/utils/rclone_tuning.py:170-175 | the search of the unit list prints the largest binary unit that divides the size |
| SizeText.PrintsLargest | src/backend/api/utils/rclone_tuning.py:170-175 | the unit printed is the largest binary one that divides the size |
| SizeText.ParsesWritten | src/backend/api/utils/rclone_tuning.py:155-167 | a size of up to 7 digits, perhaps up to 3 behind a point, and a unit reads as that many bytes, rounded down |
| SizeText.ParsedIsWritten | src/backend/api/utils/rclone_tuning.py:155-167 | and nothing else parses |
| SizeText.UnitMeans | src/backend/api/utils/rclone_tuning.py:140-167 | which texts are units, and of how many bytes |
| SizeText.ParseFormat | src/backend/api/utils/rclone_tuning.py:140-175 | a printed size parses back to itself if the printed number is below ten million, and does not parse otherwise |
| SizeText.OneByteTooMany | src/backend/api/utils/rclone_tuning.py:140-167 | 64 MiB and one byte prints and does not parse |
| RcloneTuning.ValidateOverrides | src/backend/api/utils/rclone_tuning.py:457-492 | the settings are validated one after the other, up to the first that fails, and then against the budget |
| RcloneTuning.OneMeans | src/backend/api/utils/rclone_tuning.py:188-209 | what becomes of one setting: unknown, left out, not read, out of bounds, above its cap, or its value |
| RcloneTuning.TableMeans | src/backend/api/utils/rclone_tuning.py:52-103 | the bounds, the cap and rclone's own value of every setting |
| RcloneTuning.IntText | src/backend/api/utils/rclone_tuning.py:144-152 | a number is one to seven digits, and a printed one reads as itself |
| RcloneTuning.PerTransferMeans | src/backend/api/utils/rclone_tuning.py:436-448 | the memory of one transfer by destination, and by whether the streams or the upload concurrency is larger |
| RcloneFit.MoreMemory | src/backend/api/utils/rclone_tuning.py:436-448 | lower settings never need more memory |
| RcloneFit.StartPreset | src/backend/api/utils/rclone_tuning.py:600-612 | the preset's values for the destination within the caps, and whether any was lowered |
| RcloneFit.HalveOnce | src/backend/api/utils/rclone_tuning.py:629-638 | a halving lowers something and nothing below its floor; none is possible only at the floors |
| RcloneFit.FitPreset | src/backend/api/utils/rclone_tuning.py:593-643 | ends; None if and only if one transfer at the floors does not fit; else values from the floors to the preset within the caps whose estimate fits, with the preset's transfers or the most that fit, other settings lowered only if fewer than 8 transfers would fit; `reduced` if and only if they differ from the preset |
| RcloneOverrides.AcceptedIsSafe | src/backend/api/utils/rclone_tuning.py:457-492 | accepted overrides are within bounds and caps, apply to the destination and fit the budget |
| RcloneOverrides.Revalidates | src/backend/api/utils/rclone_tuning.py:508-517 | stored overrides are accepted again, with the same values, if and only if every size among them prints with at most 7 digits |
| RcloneOverrides.AcceptedThenRefused | src/backend/api/utils/rclone_tuning.py:140-167 | `100.001M` is accepted and, as stored, refused |
| RcloneOverrides.PresetsPass | src/backend/api/utils/rclone_tuning.py:558-590 | what a fitted preset gives is accepted as it is when it is sent back |
| RcloneSettings.AddMotuzDefaults | src/backend/api/utils/rclone_tuning.py:336-359 | the four halving loops end, and the defaults are completed or left |
| RcloneSettings.LowestMeans | src/backend/api/utils/rclone_tuning.py:344-357 | which values the loops leave: never below a floor unless they began there, the environment's kept, and not fitting only at the floors |
| RcloneSettings.CompletedFits | src/backend/api/utils/rclone_tuning.py:336-359 | if the environment's values fit with rclone's defaults the completed defaults fit for every type of destination |
| RcloneSettings.CheckersAboveCap | src/backend/api/utils/rclone_tuning.py:356-357 | the default checkers exceed their cap if and only if the transfers have to be halved and the cap is below twice their half, or below 32 if the half is 32 and does not fit; never with a cap of 64 |
| RcloneSettings.CheckersLifted | src/backend/api/utils/rclone_tuning.py:356-357 | with a budget of 4 GiB and at most 8 checkers the default is 64 |
| RcloneSettings.LoadSettings | src/backend/api/utils/rclone_tuning.py:224-290 | settings exactly if every variable is valid and the completed defaults fit; an invalid variable never reads as a lack of memory |
| RcloneSettings.CapMeans | src/backend/api/utils/rclone_tuning.py:224-266 | a cap is its default, or the variable's whole number if it is within the cap's own bounds |
| RcloneSettings.BudgetMeans | src/backend/api/utils/rclone_tuning.py:224-266 | the budget is the machine's, or the variable's size from 64 MiB to 64 TiB |
| RcloneSettings.EnvValueMeans | src/backend/api/utils/rclone_tuning.py:224-266 | a default is read like a setting of a job and must not exceed its cap |
| RcloneSettings.LoadedFits | src/backend/api/utils/rclone_tuning.py:267-290 | loading never fails on memory if the environment's values fit, and what is loaded lets a job without overrides run on every destination |
| Schedule.Validate | src/backend/api/utils/schedule.py:43-64 | accepted exactly if the frequency is known and the fields it uses are whole numbers in range |
| Schedule.StoredIsReadBack | src/backend/api/utils/schedule.py:67-69 | a stored schedule reads back as it was exactly if it is valid |
| Schedule.OrdinalRises | src/backend/api/utils/schedule.py:78-112 | days are numbered in calendar order, across months, years and leap years |
| Schedule.KnownDay | src/backend/api/utils/schedule.py:78-112 | 1 January 2026 is day 739617, a Thursday |
| Schedule.NextMeans | src/backend/api/utils/schedule.py:78-112 | the day after every day, over months, years and leap years, and its weekday |
| Schedule.NextRunIsFirst | src/backend/api/utils/schedule.py:84-112 | the next run is the least moment of the schedule strictly after the given one, for every frequency and date |
| Schedule.NextRunRises | src/backend/api/utils/schedule.py:84-112 | a later moment has no earlier next run |
| ScheduleManager.Runner.SelectDue | src/backend/api/managers/schedule_manager.py:223-229 | the due schedule that comes first by next run and id |
| ScheduleManager.FirstDueMeans | src/backend/api/managers/schedule_manager.py:223-229 | it is enabled and due, and no other such schedule comes before it by next run and id; none only if there is none |
| ScheduleManager.Runner.Claim | src/backend/api/managers/schedule_manager.py:233-251 | won only if the next run is still the one selected; an invalid schedule is paused |
| ScheduleManager.ClaimMeans | src/backend/api/managers/schedule_manager.py:233-251 | what a won and a lost claim write |
| ScheduleManager.Runner.RunOnce | src/backend/api/managers/schedule_manager.py:263-308 | skipped if and only if the last job still runs, else started or refused, with the job noted or the schedule paused |
| ScheduleManager.RunMeans | src/backend/api/managers/schedule_manager.py:263-308 | a skipped run only counts; else at most one job is made, and noted; after another exception it has failed and the newest job is noted; a schedule is paused exactly for an unconfirmed refusal |
| ScheduleManager.Runner.TickOnce | src/backend/api/managers/schedule_manager.py:311-326 | the loop of a tick |
| ScheduleManager.Runner.UpdateEnabled | src/backend/api/managers/schedule_manager.py:171-184 | resuming continues at the next time after now |
| ScheduleManager.ToggleMeans | src/backend/api/managers/schedule_manager.py:171-184 | only a paused schedule that is resumed gets a new next run |
| ScheduleManager.TickRunsDueOnce | src/backend/api/managers/schedule_manager.py:311-326 | only due schedules run, each at most once, the others stay as they are, and unless 200 ran none is left due |
| ScheduleRuns.StepKeeps | src/backend/api/managers/schedule_manager.py:216-251 | every step of runners, users and requests that create a schedule with its first run keeps the invariant |
| ScheduleRuns.DueTimesRise | src/backend/api/managers/schedule_manager.py:216-251 | with any number of runners, pauses and resumptions the due times won for a schedule rise strictly, each above the time of the tick that won the one before |
| ScheduleRuns.NextRunMovesOn | src/backend/api/managers/schedule_manager.py:171-184 | a next run never moves back, and a won claim moves it on |
| ScheduleRuns.EveryWinEnds | src/backend/api/managers/schedule_manager.py:263-308 | every won due time has exactly one outcome, which never changes, or one runner still at it |
| ScheduleRuns.RunClaimedIsRun | src/backend/api/managers/schedule_manager.py:263-308 | running a claimed schedule is a run of the runner's steps, with the same database and outcome, so that every result about runs holds for it |
| ScheduleRuns.TickIsRun | src/backend/api/managers/schedule_manager.py:311-326 | so is a whole tick; its outcomes are those of the due times it wins, in order |
| ScheduleRuns.OneJobAtATime | src/backend/api/managers/schedule_manager.py:254-308 | if no due time is won while another runner, or a request's first run, is at the schedule, two jobs of a schedule never run at once |
| ScheduleRuns.PromptClear | src/backend/api/managers/schedule_manager.py:216-251 | none is if at each claim every schedule somebody is at is due only later |
| ScheduleRuns.TwoAtWorkOverlap | src/backend/api/managers/schedule_manager.py:254-308 | from every state with a runner at a schedule whose job is not made yet, and another whose job is not made either or runs without being noted, two running jobs of it can follow |
| ScheduleRuns.UnclearClaimOverlaps | src/backend/api/managers/schedule_manager.py:216-251 | so they can from every claim that is won beside such a runner or request |
| ScheduleRuns.LateRunOverlaps | src/backend/api/managers/schedule_manager.py:254-308 | a run of an hourly schedule reaches two running jobs of it |
| Destinations.NormalizeTwice | src/backend/api/utils/motuz_destinations.py:119-132 | a normalized path is the path of proper segments, and normalizing it again changes nothing |
| Destinations.NormalizedExact | src/backend/api/utils/motuz_destinations.py:119-132 | which paths are normalized: no NUL, no segment `.` or `..`, from the root if local |
| Destinations.Ancestors | src/backend/api/utils/motuz_destinations.py:135-141 | the loop ends and lists the path of every prefix of the segments, the longest first |
| Destinations.AncestorsArePrefixes | src/backend/api/utils/motuz_destinations.py:135-141 | these are exactly the paths whose segments are a prefix |
| OverwritePolicy.Registry.DecideFor | src/backend/api/managers/overwrite_policy.py:90-98 | whether a job may overwrite and why |
| OverwritePolicy.ReasonsExact | src/backend/api/managers/overwrite_policy.py:90-98 | when each reason is given, and that it tells the answer |
| OverwritePolicy.LocationExact | src/backend/api/managers/overwrite_policy.py:66-72 | a target has a place exactly if its storage is known and its path can be normalized |
| OverwritePolicy.Registry.Register | src/backend/api/managers/overwrite_policy.py:107-124 | a path is added unless it is the root, unknown or already covered |
| OverwritePolicy.Registry.CreateFor | src/backend/api/managers/copy_job_manager.py:117-156 | the decision is made before the destination is registered; a scheduled run overwrites only where everything may |
| OverwritePolicy.DecidesLikeHistory | src/backend/api/managers/overwrite_policy.py:75-124 | with general overwrites off, overwriting is allowed if and only if an earlier job wrote a path, not the root, that is a whole-segment prefix on that storage; so the first job never overwrites; also if concurrent inserts were not seen |
| RateLimit.RateLimiter.Allow | src/backend/api/utils/rate_limit.py:21-37 | the table and queue after a request |
| RateLimit.AllowsByTheFullLog | src/backend/api/utils/rate_limit.py:21-37 | a request is allowed if and only if fewer than `limit` accepted ones since the key was last dropped lie in the window; the table never exceeds its bound |
| FailureLog.Log.Begin | deployment/systemd/auth-helper/motuz_auth_helper.py:141-172 | an attempt is recorded unless the user is locked out, and the users beyond the bound whose latest attempt is longest ago are evicted |
| FailureLog.EvictionMeans | deployment/systemd/auth-helper/motuz_auth_helper.py:141-172 | users are evicted only beyond 10000, down to just so many, and none whose latest attempt is later than that of a user who is kept |
| FailureLog.Log.Succeeded | deployment/systemd/auth-helper/motuz_auth_helper.py:174-177 | a success forgets the user's attempts |
| FailureLog.LocksOutByTheFullLog | deployment/systemd/auth-helper/motuz_auth_helper.py:141-177 | an attempt is let through if and only if fewer than the allowed number since the last success or eviction lie in the window; no more users are tracked than the bound |

## Left out

- HTTP, SQL, Celery, subprocesses, rclone and boto3: their answers are parameters; row locks and
  transactions appear as atomic steps, a claim and the end of a stop as two.
- Hashing, signatures and random secrets: tokens are numbers that nobody else has; building a ticket
  succeeds or fails as the caller says.
- Jobs that Celery runs on the central node, uploads, and the texts, percentages and time stamps
  that are only shown.
- WorkerManager.Manager.ExpireLeases: the throttle that lets a sweep within the interval do nothing.
- WorkerManager.Manager.Stop: uploads and jobs of Celery.
- WorkerRuns.OnlyTheseOverwrite: sweeps, revocations, reports and failures by the launcher read and write
  a job's state in one step; a stop that writes between the two is not modelled.
- WorkerManager.Manager.CreateBootstrapToken: of the rule for pool names only that it is not "central".
- WorkerRuns.OneMailPerJob: counts the notifications produced, not their delivery.
- Ec2Config.ParseInstanceTypes: splitting the text, the pattern of types and the sizes are taken as done.
- Ec2Launcher.Launcher.Dispatch: the query for queued jobs and a listing that fails are parameters.
- Ec2Runs.AtMostMaxWorkers: supposes that no step is cut short by an exception, that an instance that
  is shutting down or terminated stays so, that a listing agrees with itself, and that no first attempt
  is answered with an instance that is shutting down.
- Ec2FollowUp.FollowedExact: supposes the first three, and the bounds of the configuration on the pool's
  name and the boot timeout.
- Ec2Launcher.Launcher.Reap: the order in which the rows come and the answers of EC2 are parameters;
  the summary lists for logs are not modelled, nor the termination of instances that belong to no row
  (they count against the limit); the dispatch after a pass is a pass of its own.
- FileTree.GenerateFileTree: nested dictionaries are updated in place in the source; here a tree is a
  value, and the in-place sort is a function with an insertion loop.
- FileView.ParseChunkRequest: that the body is an object and its flags are truth values is taken as checked.
- FileViewPaging.ForwardTiles: the file does not change while it is paged; decoding to text and the
  ratios of the text check are one verdict given from outside. A file that shrinks while it is read
  backward is outside the requires of `ChunkResult`.
- JobRunner.RunHashsum: progress ticks are left out; the sides' kinds are given.
- SizeText.ParseFormat: upper and lower case are those of ASCII letters; the Unicode case folding of
  regular expressions is not modelled.
- RcloneTuning.ValidateOverrides: the settings come as the fields of an object; a missing object and
  another value in its place are not modelled.
- RcloneSettings.LoadSettings: extra flags, md5-simd and the metadata switch are left out, and the
  variables come stripped.
- Schedule.NextRunIsFirst: years do not end at 9999, and moments are already naive UTC.
- ScheduleManager.Runner.SelectDue: rows that another runner has locked are not skipped; in the runs of
  `ScheduleRuns` any due row may be selected.
- ScheduleManager.Runner.TickOnce: the sweep of leases at its start.
- ScheduleRuns.OneJobAtATime: a schedule is not deleted while a runner or its first run is at it, and no
  step is cut short by the end of a process.
- OverwritePolicy.Registry.CreateFor: of create_for only the decision and the registration.
- OverwritePolicy.DecidesLikeHistory: the key of a storage is given; how it is found is a list of cases.
- RateLimit.AllowsByTheFullLog: time does not go back and the window is not negative.
- FailureLog.LocksOutByTheFullLog: the state file is read as it was written, and times are numbers.
- Local credentials, the token broker, OAuth, egress prices, job routing, the image and document
  viewers, the front end and the migrations: case lists, network discovery or display.
