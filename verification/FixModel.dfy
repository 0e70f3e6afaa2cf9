/**
 * The fix pipeline as a protocol. Worker jobs, webhooks, project edits and error reports interleave;
 * each step is one database transaction or one action outside the database. A step whose guard is
 * false leaves the state as it is.
 */
module FixModel {
  import opened Wrappers

  type Id = nat
  type Time = int

  datatype AttemptStatus = Pending | Running | Success | Failed | Merged
  datatype ErrorStatus = Open | FixAttempted | FixMerged | Ignored
  datatype InstallStatus = Active | Suspended | Removed

  datatype Attempt = Attempt(error: Id, status: AttemptStatus, prUrl: Option<string>, output: Option<string>,
                             startedAt: Option<Time>, completedAt: Option<Time>)
  datatype ErrorRow = ErrorRow(project: Id, status: ErrorStatus)
  datatype Project = Project(org: Id, repo: string)
  datatype Installation = Installation(githubId: int, status: InstallStatus)

  datatype Tables = Tables(projects: map<Id, Project>, installs: map<Id, Installation>,
                           errors: map<Id, ErrorRow>, attempts: map<Id, Attempt>)

  // ----- Transactions of the worker -----

  /** What a job carries from its first transaction to the code that runs outside the database. */
  datatype Context = Context(attempt: Id, repo: string, installation: int)

  datatype Loaded = Skip | Ready(db: Tables, ctx: Context)

  /** `_load_and_prepare`; whether an API key resolves is an input. */
  function Load(db: Tables, error: Id, project: Id, keyFound: bool, newId: Id): Loaded {
    if error !in db.errors || db.errors[error].status != Open then Skip
    else if project !in db.projects then Skip
    else if db.projects[project].org !in db.installs
            || db.installs[db.projects[project].org].status != Active then Skip
    else if !keyFound then Skip
    else
      Ready(db.(attempts := db.attempts[newId := Attempt(error, Pending, None, None, None, None)]),
            Context(newId, db.projects[project].repo, db.installs[db.projects[project].org].githubId))
  }

  /** `mark_fix_attempt_running`; None stands for the failed assertion that the row exists. */
  function MarkRunning(db: Tables, attempt: Id, now: Time): Option<Tables> {
    if attempt !in db.attempts then None
    else Some(db.(attempts := db.attempts[attempt := db.attempts[attempt].(status := Running, startedAt := Some(now))]))
  }

  /** `complete_fix_attempt`. */
  function CompleteAttempt(db: Tables, attempt: Id, success: bool, prUrl: Option<string>, output: Option<string>,
                           now: Time): Option<Tables>
  {
    if attempt !in db.attempts then None
    else
      var row := db.attempts[attempt].(status := if success then Success else Failed, prUrl := prUrl,
                                       output := output, completedAt := Some(now));
      var db1 := db.(attempts := db.attempts[attempt := row]);
      if !success then Some(db1)
      else if row.error !in db.errors then None
      else Some(db1.(errors := db.errors[row.error := db.errors[row.error].(status := FixAttempted)]))
  }

  // ----- Transactions of the web application -----

  function WithUrl(db: Tables, url: string): set<Id> {
    set a | a in db.attempts && db.attempts[a].prUrl == Some(url)
  }

  /** `handle_pr_event`; when several attempts carry the url the query raises and nothing changes. */
  function PullRequestEvent(db: Tables, action: string, merged: bool, url: string): Tables {
    if action != "closed" || !merged || |WithUrl(db, url)| != 1 then db
    else db.(attempts := map a | a in db.attempts ::
               if a in WithUrl(db, url) then db.attempts[a].(status := Merged) else db.attempts[a])
  }

  function StatusForAction(action: string): Option<InstallStatus> {
    if action == "deleted" then Some(Removed)
    else if action == "suspended" then Some(Suspended)
    else if action == "unsuspended" then Some(Active)
    else None
  }

  function WithGithubId(db: Tables, githubId: int): set<Id> {
    set o | o in db.installs && db.installs[o].githubId == githubId
  }

  /** `handle_installation_event`. */
  function InstallationEvent(db: Tables, action: string, githubId: int): Tables {
    if StatusForAction(action).None? || |WithGithubId(db, githubId)| != 1 then db
    else db.(installs := map o | o in db.installs ::
               if o in WithGithubId(db, githubId) then db.installs[o].(status := StatusForAction(action).value)
               else db.installs[o])
  }

  /** `upsert_installation`. */
  function UpsertInstallation(db: Tables, org: Id, githubId: int): Tables {
    db.(installs := db.installs[org := Installation(githubId, Active)])
  }

  /** Deleting a project cascades to its errors and their attempts. */
  function DeleteProject(db: Tables, project: Id): Tables {
    var errors := map e | e in db.errors && db.errors[e].project != project :: db.errors[e];
    Tables(db.projects - {project}, db.installs, errors,
           map a | a in db.attempts && db.attempts[a].error in errors :: db.attempts[a])
  }

  // ----- Jobs -----

  /** Where a job is in `run`: before or after its first transaction, inside the try block, in the
      except branch, at the finally clause, or over. */
  datatype Pc = Queued | Prepared | Marking | Fixing | Completing(url: string) | Failing(why: string)
              | Cleaning | Skipped | Dead | Finished

  /** A job, with two marks of what went wrong: it was cancelled, or its failure could not be recorded. */
  datatype Job = Job(error: Id, project: Id, pc: Pc, ctx: Option<Context>, cancelled: bool, unrecorded: bool)

  datatype State = State(db: Tables, jobs: map<Id, Job>, dirs: set<Id>,
                         requested: set<(Id, Id)>,    // pairs ever handed to the queue
                         knownErrors: set<Id>,        // error ids ever used
                         owner: map<Id, Id>,          // attempt ids ever used, and the job behind each
                         leftBehind: set<Id>)         // jobs whose directory could not be removed

  const START := State(Tables(map[], map[], map[], map[]), map[], {}, {}, {}, map[], {})

  datatype FixResult = Opened(url: string) | Raised(why: string)

  /** A fault is an exception that makes the transaction roll back. */
  datatype Step =
    | LoadStep(job: Id, keyFound: bool, newId: Id, fault: Option<string>)
    | MakeDirStep(job: Id, ok: bool)
    | MarkStep(job: Id, now: Time, fault: Option<string>)
    | FixStep(job: Id, result: FixResult)
    | CompleteStep(job: Id, now: Time, fault: Option<string>)
    | RecordStep(job: Id, now: Time, fault: Option<string>)
    | CleanStep(job: Id, ok: bool)
    | CancelStep(job: Id)
    | TriggerStep(org: Id, project: Id, error: Id)
    | DeliverStep(newJob: Id, error: Id, project: Id)
    | CreateProjectStep(project: Id, org: Id, repo: string)
    | EditProjectStep(project: Id, repo: string)
    | DeleteProjectStep(project: Id)
    | ReportStep(error: Id, project: Id)
    | PullRequestStep(action: string, merged: bool, url: string)
    | InstallationStep(action: string, githubId: int)
    | InstallCallbackStep(org: Id, githubId: int)

  predicate At(s: State, job: Id, pc: Pc) {
    job in s.jobs && s.jobs[job].pc == pc
  }

  function Goto(s: State, job: Id, pc: Pc): State
    requires job in s.jobs
  {
    s.(jobs := s.jobs[job := s.jobs[job].(pc := pc)])
  }

  function DoLoad(s: State, job: Id, keyFound: bool, newId: Id, fault: Option<string>): State {
    if !At(s, job, Queued) || newId in s.owner then s
    else if fault.Some? then Goto(s, job, Dead)
    else
      match Load(s.db, s.jobs[job].error, s.jobs[job].project, keyFound, newId)
      case Skip => Goto(s, job, Skipped)
      case Ready(db, ctx) =>
        s.(db := db, owner := s.owner[newId := job],
           jobs := s.jobs[job := s.jobs[job].(pc := Prepared, ctx := Some(ctx))])
  }

  /** `mkdtemp`: failing here is before the try block. */
  function DoMakeDir(s: State, job: Id, ok: bool): State {
    if !At(s, job, Prepared) then s
    else if !ok then Goto(s, job, Dead)
    else Goto(s, job, Marking).(dirs := s.dirs + {job})
  }

  function DoMark(s: State, job: Id, now: Time, fault: Option<string>): State {
    if !At(s, job, Marking) || s.jobs[job].ctx.None? then s
    else if fault.Some? then Goto(s, job, Failing(fault.value))
    else
      match MarkRunning(s.db, s.jobs[job].ctx.value.attempt, now)
      case None => Goto(s, job, Failing(""))
      case Some(db) => Goto(s, job, Fixing).(db := db)
  }

  /** Everything between the two transactions of the try block: a pull request or an exception. */
  function DoFix(s: State, job: Id, result: FixResult): State {
    if !At(s, job, Fixing) then s
    else match result
      case Opened(url) => Goto(s, job, Completing(url))
      case Raised(why) => Goto(s, job, Failing(why))
  }

  function DoComplete(s: State, job: Id, now: Time, fault: Option<string>): State {
    if job !in s.jobs || !s.jobs[job].pc.Completing? || s.jobs[job].ctx.None? then s
    else if fault.Some? then Goto(s, job, Failing(fault.value))
    else
      match CompleteAttempt(s.db, s.jobs[job].ctx.value.attempt, true, Some(s.jobs[job].pc.url), None, now)
      case None => Goto(s, job, Failing(""))
      case Some(db) => Goto(s, job, Cleaning).(db := db)
  }

  /** The except branch; an exception raised here still passes through the finally clause. */
  function DoRecord(s: State, job: Id, now: Time, fault: Option<string>): State {
    if job !in s.jobs || !s.jobs[job].pc.Failing? || s.jobs[job].ctx.None? then s
    else
      var done := CompleteAttempt(s.db, s.jobs[job].ctx.value.attempt, false, None, Some(s.jobs[job].pc.why), now);
      if fault.Some? || done.None? then
        s.(jobs := s.jobs[job := s.jobs[job].(pc := Cleaning, unrecorded := true)])
      else Goto(s, job, Cleaning).(db := done.value)
  }

  /** The finally clause: `rmtree(ignore_errors=True)`. */
  function DoClean(s: State, job: Id, ok: bool): State {
    if !At(s, job, Cleaning) then s
    else if ok then Goto(s, job, Finished).(dirs := s.dirs - {job})
    else Goto(s, job, Finished).(leftBehind := s.leftBehind + {job})
  }

  predicate InTry(pc: Pc) {
    pc.Marking? || pc.Fixing? || pc.Completing? || pc.Failing?
  }

  /** Cancellation bypasses the except branch but not the finally clause. */
  function DoCancel(s: State, job: Id): State {
    if job !in s.jobs then s
    else if s.jobs[job].pc in {Queued, Prepared} then
      s.(jobs := s.jobs[job := s.jobs[job].(pc := Dead, cancelled := true)])
    else if InTry(s.jobs[job].pc) then
      s.(jobs := s.jobs[job := s.jobs[job].(pc := Cleaning, cancelled := true)])
    else s
  }

  /** `trigger_fix_action`: only an open error of a project of the caller's organization is queued. */
  predicate MayTrigger(db: Tables, org: Id, project: Id, error: Id) {
    && project in db.projects && db.projects[project].org == org
    && error in db.errors && db.errors[error].project == project && db.errors[error].status == Open
  }

  function Next(s: State, step: Step): State {
    match step
    case LoadStep(job, keyFound, newId, fault) => DoLoad(s, job, keyFound, newId, fault)
    case MakeDirStep(job, ok) => DoMakeDir(s, job, ok)
    case MarkStep(job, now, fault) => DoMark(s, job, now, fault)
    case FixStep(job, result) => DoFix(s, job, result)
    case CompleteStep(job, now, fault) => DoComplete(s, job, now, fault)
    case RecordStep(job, now, fault) => DoRecord(s, job, now, fault)
    case CleanStep(job, ok) => DoClean(s, job, ok)
    case CancelStep(job) => DoCancel(s, job)
    case TriggerStep(org, project, error) =>
      if MayTrigger(s.db, org, project, error) then s.(requested := s.requested + {(error, project)}) else s
    case DeliverStep(job, error, project) =>
      if job in s.jobs || (error, project) !in s.requested then s
      else s.(jobs := s.jobs[job := Job(error, project, Queued, None, false, false)])
    case CreateProjectStep(project, org, repo) =>
      if project in s.db.projects then s
      else s.(db := s.db.(projects := s.db.projects[project := Project(org, repo)]))
    case EditProjectStep(project, repo) =>
      if project !in s.db.projects then s
      else s.(db := s.db.(projects := s.db.projects[project := s.db.projects[project].(repo := repo)]))
    case DeleteProjectStep(project) => s.(db := DeleteProject(s.db, project))
    case ReportStep(error, project) =>
      if error in s.knownErrors || project !in s.db.projects then s
      else s.(db := s.db.(errors := s.db.errors[error := ErrorRow(project, Open)]),
              knownErrors := s.knownErrors + {error})
    case PullRequestStep(action, merged, url) => s.(db := PullRequestEvent(s.db, action, merged, url))
    case InstallationStep(action, githubId) => s.(db := InstallationEvent(s.db, action, githubId))
    case InstallCallbackStep(org, githubId) => s.(db := UpsertInstallation(s.db, org, githubId))
  }

  function Exec(s: State, steps: seq<Step>): State
    decreases |steps|
  {
    if steps == [] then s else Exec(Next(s, steps[0]), steps[1..])
  }

  /** Everything one uninterrupted call of `run` does, in order; stages that do not apply are no-ops. */
  datatype Outcomes = Outcomes(keyFound: bool, newId: Id, loadFault: Option<string>, dirOk: bool,
                               markedAt: Time, markFault: Option<string>, fix: FixResult,
                               completedAt: Time, completeFault: Option<string>,
                               recordedAt: Time, recordFault: Option<string>, cleanOk: bool)

  function RunSchedule(job: Id, o: Outcomes): seq<Step> {
    [LoadStep(job, o.keyFound, o.newId, o.loadFault), MakeDirStep(job, o.dirOk),
     MarkStep(job, o.markedAt, o.markFault), FixStep(job, o.fix),
     CompleteStep(job, o.completedAt, o.completeFault), RecordStep(job, o.recordedAt, o.recordFault),
     CleanStep(job, o.cleanOk)]
  }
}
