/** What holds over whole runs of the fix pipeline. */
module FixRuns {
  import opened Wrappers
  import opened FixModel
  import opened FixProofs
  import FixStore

  // ----- One step -----

  /** PENDING -> RUNNING -> SUCCESS -> MERGED, or PENDING/RUNNING -> FAILED. */
  predicate StatusStep(from: AttemptStatus, to: AttemptStatus) {
    || from == to
    || (from == Pending && to in {Running, Failed})
    || (from == Running && to in {Success, Failed})
    || (from == Success && to == Merged)
  }

  /** What one step may do to an attempt: its status advances, and once terminal nothing else of it changes. */
  predicate RowStep(from: Attempt, to: Attempt) {
    && to.error == from.error && StatusStep(from.status, to.status)
    && (Terminal(from) ==> OnlyMerged(from, to))
  }

  /** The same row, or the same row merged. */
  predicate OnlyMerged(from: Attempt, to: Attempt) {
    to == from || (from.status == Success && to == from.(status := Merged))
  }

  lemma MarkMoves(s: State, job: Id, now: Time, fault: Option<string>, a: Id)
    requires AttemptsOk(s) && JobsOk(s) && a in s.db.attempts
    ensures var db' := DoMark(s, job, now, fault).db;
      a in db'.attempts && RowStep(s.db.attempts[a], db'.attempts[a])
  {
  }

  lemma CompleteMoves(s: State, job: Id, now: Time, fault: Option<string>, a: Id)
    requires AttemptsOk(s) && JobsOk(s) && a in s.db.attempts
    ensures var db' := DoComplete(s, job, now, fault).db;
      a in db'.attempts && RowStep(s.db.attempts[a], db'.attempts[a])
  {
  }

  lemma RecordMoves(s: State, job: Id, now: Time, fault: Option<string>, a: Id)
    requires AttemptsOk(s) && JobsOk(s) && a in s.db.attempts
    ensures var db' := DoRecord(s, job, now, fault).db;
      a in db'.attempts && RowStep(s.db.attempts[a], db'.attempts[a])
  {
  }

  /** A load only adds a row under an id that was never used. */
  lemma LoadMoves(s: State, job: Id, keyFound: bool, newId: Id, fault: Option<string>, a: Id)
    requires AttemptsOk(s) && a in s.db.attempts
    ensures var db' := DoLoad(s, job, keyFound, newId, fault).db;
      a in db'.attempts && db'.attempts[a] == s.db.attempts[a]
  {
  }

  lemma ActionKeepsTables(s: State, step: Step)
    requires step.MakeDirStep? || step.FixStep? || step.CleanStep? || step.CancelStep?
    ensures Next(s, step).db == s.db
  {
  }

  /** A step of a job rewrites the job's own attempt only. */
  lemma JobStepMovesAttempt(s: State, step: Step, a: Id)
    requires AttemptsOk(s) && JobsOk(s) && JobOf(step).Some? && a in s.db.attempts
    ensures a in Next(s, step).db.attempts && RowStep(s.db.attempts[a], Next(s, step).db.attempts[a])
  {
    if step.LoadStep? {
      LoadMoves(s, step.job, step.keyFound, step.newId, step.fault, a);
    } else if step.MarkStep? {
      MarkMoves(s, step.job, step.now, step.fault, a);
    } else if step.CompleteStep? {
      CompleteMoves(s, step.job, step.now, step.fault, a);
    } else if step.RecordStep? {
      RecordMoves(s, step.job, step.now, step.fault, a);
    } else {
      ActionKeepsTables(s, step);
    }
  }

  /** What the rest of the system may do to attempts and errors: merge, delete, report. */
  lemma EnvironmentTables(s: State, step: Step)
    requires KeysOk(s.db) && RequestsOk(s) && JobOf(step).None?
    ensures var db' := Next(s, step).db;
      && (!step.PullRequestStep? ==> forall a :: a in db'.attempts ==> a in s.db.attempts && db'.attempts[a] == s.db.attempts[a])
      && (forall e :: e in db'.errors && e in s.db.errors ==> db'.errors[e] == s.db.errors[e])
  {
    if step.PullRequestStep? {
      PullRequestEffect(s.db, step.action, step.merged, step.url);
    }
  }

  lemma NextMovesAttempt(s: State, step: Step, a: Id)
    requires Inv(s) && a in s.db.attempts && a in Next(s, step).db.attempts
    ensures RowStep(s.db.attempts[a], Next(s, step).db.attempts[a])
  {
    if JobOf(step).Some? {
      JobStepMovesAttempt(s, step, a);
    } else if step.PullRequestStep? {
      PullRequestMoves(s, step.action, step.merged, step.url, a);
    } else {
      EnvironmentTables(s, step);
    }
  }

  lemma PullRequestMoves(s: State, action: string, merged: bool, url: string, a: Id)
    requires KeysOk(s.db) && a in s.db.attempts
    ensures var db' := PullRequestEvent(s.db, action, merged, url);
      a in db'.attempts && RowStep(s.db.attempts[a], db'.attempts[a])
  {
    PullRequestEffect(s.db, action, merged, url);
  }

  /** An attempt id, once used, is never used again, and none is forgotten; the same goes for errors. */
  ghost predicate Remembers(s: State, s': State) {
    && (forall a :: a in s.owner ==> a in s'.owner && s'.owner[a] == s.owner[a])
    && (forall e :: e in s.knownErrors ==> e in s'.knownErrors)
    && (forall a :: a in s'.db.attempts && a in s.owner ==> a in s.db.attempts)
    && (forall e :: e in s'.db.errors && e in s.knownErrors ==> e in s.db.errors)
  }

  lemma RewriteRemembers(s: State, step: Step)
    requires step.MarkStep? || step.CompleteStep? || step.RecordStep?
    ensures Remembers(s, Next(s, step))
  {
    match step
    case MarkStep(job, now, fault) =>
    case CompleteStep(job, now, fault) =>
    case RecordStep(job, now, fault) =>
  }

  lemma NextOwner(s: State, step: Step)
    ensures Remembers(s, Next(s, step))
  {
    if step.MarkStep? || step.CompleteStep? || step.RecordStep? {
      RewriteRemembers(s, step);
    } else if step.MakeDirStep? || step.FixStep? || step.CleanStep? || step.CancelStep? {
      ActionKeepsTables(s, step);
    }
  }

  /** A new attempt is at an open error, for its own project's repository, through an active installation. */
  lemma NextNewAttempt(s: State, step: Step, a: Id)
    requires Inv(s) && a !in s.db.attempts && a in Next(s, step).db.attempts
    ensures step.LoadStep? && step.newId == a && a !in s.owner && step.keyFound
    ensures var e := Next(s, step).db.attempts[a].error;
      && e in s.db.errors && s.db.errors[e].status == Open
      && s.db.errors[e].project in s.db.projects
      && var p := s.db.projects[s.db.errors[e].project];
         && p.org in s.db.installs && s.db.installs[p.org].status == Active
         && step.job in Next(s, step).jobs
         && Next(s, step).jobs[step.job].ctx == Some(Context(a, p.repo, s.db.installs[p.org].githubId))
  {
    if JobOf(step).Some? && !step.LoadStep? {
      NoNewRow(s, step);
    } else if step.PullRequestStep? {
      PullRequestEffect(s.db, step.action, step.merged, step.url);
    } else if JobOf(step).None? {
      EnvironmentTables(s, step);
    }
  }

  lemma NoNewRow(s: State, step: Step)
    requires JobOf(step).Some? && !step.LoadStep?
    ensures Next(s, step).db.attempts.Keys == s.db.attempts.Keys
  {
    if step.MarkStep? || step.CompleteStep? || step.RecordStep? {
      RewriteAddsNoRow(s, step);
    } else {
      ActionKeepsTables(s, step);
    }
  }

  lemma RewriteAddsNoRow(s: State, step: Step)
    requires step.MarkStep? || step.CompleteStep? || step.RecordStep?
    ensures Next(s, step).db.attempts.Keys == s.db.attempts.Keys
  {
    match step
    case MarkStep(job, now, fault) =>
    case CompleteStep(job, now, fault) =>
    case RecordStep(job, now, fault) =>
  }

  /** An error keeps its project, and leaves OPEN for good. */
  lemma NextError(s: State, step: Step, e: Id)
    requires Inv(s) && e in s.db.errors && e in Next(s, step).db.errors
    ensures Next(s, step).db.errors[e].project == s.db.errors[e].project
    ensures s.db.errors[e].status == FixAttempted ==> Next(s, step).db.errors[e].status == FixAttempted
  {
    if JobOf(step).None? {
      EnvironmentTables(s, step);
    } else if !step.CompleteStep? {
      JobStepKeepsErrors(s, step);
    }
  }

  lemma JobStepKeepsErrors(s: State, step: Step)
    requires JobOf(step).Some? && !step.CompleteStep?
    ensures Next(s, step).db.errors == s.db.errors
  {
  }

  // ----- Runs -----

  /** Reachable by status steps. */
  predicate Leads(from: AttemptStatus, to: AttemptStatus) {
    || from == to || from == Pending
    || (from == Running && to != Pending)
    || (from == Success && to == Merged)
  }

  lemma {:induction false} GoneStaysGone(s: State, steps: seq<Step>)
    requires Inv(s)
    ensures forall a :: a in s.owner && a !in s.db.attempts ==> a !in Exec(s, steps).db.attempts
    ensures forall e :: e in s.knownErrors && e !in s.db.errors ==> e !in Exec(s, steps).db.errors
    decreases |steps|
  {
    if steps != [] {
      NextKeepsInv(s, steps[0]);
      NextOwner(s, steps[0]);
      GoneStaysGone(Next(s, steps[0]), steps[1..]);
    }
  }

  /** An attempt that is there at the end was there all along. */
  lemma SurvivorMoves(s: State, step: Step, rest: seq<Step>, a: Id)
    requires Inv(s) && a in s.db.attempts && a in Exec(Next(s, step), rest).db.attempts
    ensures Inv(Next(s, step)) && a in Next(s, step).db.attempts
    ensures RowStep(s.db.attempts[a], Next(s, step).db.attempts[a])
  {
    NextKeepsInv(s, step);
    NextOwner(s, step);
    GoneStaysGone(Next(s, step), rest);
    NextMovesAttempt(s, step, a);
  }

  /** Over any run an attempt only moves forward. */
  lemma {:induction false} AttemptsOnlyAdvance(s: State, steps: seq<Step>, a: Id)
    requires Inv(s) && a in s.db.attempts && a in Exec(s, steps).db.attempts
    ensures Exec(s, steps).db.attempts[a].error == s.db.attempts[a].error
    ensures Leads(s.db.attempts[a].status, Exec(s, steps).db.attempts[a].status)
    decreases |steps|
  {
    if steps != [] {
      SurvivorMoves(s, steps[0], steps[1..], a);
      AttemptsOnlyAdvance(Next(s, steps[0]), steps[1..], a);
    }
  }

  /** Over any run a terminal attempt is frozen, url, output and times, except that SUCCESS may become MERGED. */
  lemma {:induction false} TerminalAttemptsFreeze(s: State, steps: seq<Step>, a: Id)
    requires Inv(s) && a in s.db.attempts && Terminal(s.db.attempts[a]) && a in Exec(s, steps).db.attempts
    ensures OnlyMerged(s.db.attempts[a], Exec(s, steps).db.attempts[a])
    decreases |steps|
  {
    if steps != [] {
      SurvivorMoves(s, steps[0], steps[1..], a);
      TerminalAttemptsFreeze(Next(s, steps[0]), steps[1..], a);
    }
  }

  function AttemptsAt(db: Tables, e: Id): set<Id> {
    set a | a in db.attempts && db.attempts[a].error == e
  }

  lemma NextGainsNoAttempt(s: State, step: Step, e: Id)
    requires Inv(s) && e in s.db.errors && s.db.errors[e].status == FixAttempted
    ensures AttemptsAt(Next(s, step).db, e) <= AttemptsAt(s.db, e)
  {
    forall a | a in AttemptsAt(Next(s, step).db, e) ensures a in AttemptsAt(s.db, e) {
      if a in s.db.attempts {
        NextMovesAttempt(s, step, a);
      } else {
        NextNewAttempt(s, step, a);
      }
    }
  }

  /** Over any run an error that has left OPEN never returns to it and gains no attempt. */
  lemma {:induction false} ErrorsNeverReopen(s: State, steps: seq<Step>, e: Id)
    requires Inv(s) && e in s.db.errors && s.db.errors[e].status == FixAttempted
    requires e in Exec(s, steps).db.errors
    ensures Exec(s, steps).db.errors[e] == s.db.errors[e]
    ensures AttemptsAt(Exec(s, steps).db, e) <= AttemptsAt(s.db, e)
    decreases |steps|
  {
    if steps != [] {
      var s1 := Next(s, steps[0]);
      NextKeepsInv(s, steps[0]);
      NextOwner(s, steps[0]);
      GoneStaysGone(s1, steps[1..]);
      assert e in s1.db.errors;
      NextError(s, steps[0], e);
      NextGainsNoAttempt(s, steps[0], e);
      ErrorsNeverReopen(s1, steps[1..], e);
    }
  }

  /** In every state any interleaving can reach: an error is FIX_ATTEMPTED exactly when one of its attempts
      is SUCCESS or MERGED and OPEN otherwise, and the columns of an attempt are set as its status says. */
  lemma ReachableStatuses(steps: seq<Step>)
    ensures var db := Exec(START, steps).db;
      && (forall e :: e in db.errors ==>
           db.errors[e].status == if exists a :: a in AttemptsAt(db, e) && Landed(db.attempts[a]) then FixAttempted else Open)
      && (forall a :: a in db.attempts ==> Shape(db.attempts[a]))
  {
    ExecKeepsInv(START, steps);
    var db := Exec(START, steps).db;
    forall e | e in db.errors
      ensures db.errors[e].status == if exists a :: a in AttemptsAt(db, e) && Landed(db.attempts[a]) then FixAttempted else Open
    {
      if db.errors[e].status == FixAttempted {
        var a :| a in db.attempts && db.attempts[a].error == e && Landed(db.attempts[a]);
        assert a in AttemptsAt(db, e);
      }
    }
  }

  // ----- Jobs come to an end -----

  /** How far a job has come. */
  function Progress(pc: Pc): nat {
    match pc
    case Queued => 1 case Prepared => 2 case Marking => 3 case Fixing => 4
    case Completing(_) => 5 case Failing(_) => 6 case Cleaning => 7
    case Skipped => 8 case Dead => 8 case Finished => 8
  }

  /** The k-th thing `run` does. */
  predicate IsStage(step: Step, job: Id, k: nat) {
    match step
    case LoadStep(j, _, _, _) => j == job && k == 1
    case MakeDirStep(j, _) => j == job && k == 2
    case MarkStep(j, _, _) => j == job && k == 3
    case FixStep(j, _) => j == job && k == 4
    case CompleteStep(j, _, _) => j == job && k == 5
    case RecordStep(j, _, _) => j == job && k == 6
    case CleanStep(j, _) => j == job && k == 7
    case _ => false
  }

  /** The run contains the k-th and all later stages of the job, in order, with anything in between. */
  predicate HasStages(steps: seq<Step>, job: Id, k: nat)
    decreases |steps|
  {
    || k > 7
    || (steps != [] && HasStages(steps[1..], job, if IsStage(steps[0], job, k) then k + 1 else k))
  }

  /** The uuid a load draws for this job is new. */
  ghost predicate NewIds(s: State, steps: seq<Step>, job: Id)
    decreases |steps|
  {
    steps != [] ==>
      && (steps[0].LoadStep? && steps[0].job == job ==> steps[0].newId !in s.owner)
      && NewIds(Next(s, steps[0]), steps[1..], job)
  }

  /** After a step the job has reached the stage that is still to come. */
  lemma NextStage(s: State, step: Step, job: Id, k: nat)
    requires JobsOk(s) && job in s.jobs && k <= Progress(s.jobs[job].pc) && step != CancelStep(job)
    requires step.LoadStep? && step.job == job ==> step.newId !in s.owner
    ensures job in Next(s, step).jobs && Next(s, step).jobs[job].cancelled == s.jobs[job].cancelled
    ensures (if IsStage(step, job, k) then k + 1 else k) <= Progress(Next(s, step).jobs[job].pc)
  {
    NextKeepsJob(s, step, job);
    if JobOf(step) != Some(job) {
      OtherStepsKeepJob(s, step, job);
    } else {
      OwnStepProgress(s, step, job);
    }
  }

  /** A step moves its own job forward, and past the stage it performs. */
  ghost predicate Advances(before: Job, after: Job, step: Step)
    requires JobOf(step).Some?
  {
    && Progress(before.pc) <= Progress(after.pc)
    && (Progress(before.pc) <= 7 && IsStage(step, JobOf(step).value, Progress(before.pc)) ==>
         Progress(before.pc) < Progress(after.pc))
  }

  lemma LoadAdvances(s: State, step: Step)
    requires step.LoadStep? && JobsOk(s) && step.job in s.jobs && step.newId !in s.owner
    ensures Advances(s.jobs[step.job], Next(s, step).jobs[step.job], step)
  {
  }

  lemma MarkAdvances(s: State, step: Step)
    requires (step.MarkStep? || step.FixStep?) && JobsOk(s) && step.job in s.jobs
    ensures Advances(s.jobs[step.job], Next(s, step).jobs[step.job], step)
  {
  }

  lemma CompleteAdvances(s: State, step: Step)
    requires (step.CompleteStep? || step.RecordStep?) && JobsOk(s) && step.job in s.jobs
    ensures Advances(s.jobs[step.job], Next(s, step).jobs[step.job], step)
  {
  }

  lemma DirectoryAdvances(s: State, step: Step)
    requires (step.MakeDirStep? || step.CleanStep? || step.CancelStep?) && JobsOk(s) && step.job in s.jobs
    ensures Advances(s.jobs[step.job], Next(s, step).jobs[step.job], step)
  {
  }

  lemma OwnStepProgress(s: State, step: Step, job: Id)
    requires JobsOk(s) && job in s.jobs && JobOf(step) == Some(job)
    requires step.LoadStep? ==> step.newId !in s.owner
    ensures job in Next(s, step).jobs && Advances(s.jobs[job], Next(s, step).jobs[job], step)
  {
    NextKeepsJob(s, step, job);
    match step
    case LoadStep(_, _, _, _) => LoadAdvances(s, step);
    case MakeDirStep(_, _) => DirectoryAdvances(s, step);
    case MarkStep(_, _, _) => MarkAdvances(s, step);
    case FixStep(_, _) => MarkAdvances(s, step);
    case CompleteStep(_, _, _) => CompleteAdvances(s, step);
    case RecordStep(_, _, _) => CompleteAdvances(s, step);
    case CleanStep(_, _) => DirectoryAdvances(s, step);
    case CancelStep(_) => DirectoryAdvances(s, step);
  }

  /** A job is moved only by its own steps. */
  lemma OtherStepsKeepJob(s: State, step: Step, job: Id)
    requires job in s.jobs && JobOf(step) != Some(job)
    ensures job in Next(s, step).jobs && Next(s, step).jobs[job] == s.jobs[job]
  {
  }

  lemma NextKeepsJob(s: State, step: Step, job: Id)
    requires job in s.jobs
    ensures job in Next(s, step).jobs
    ensures step != CancelStep(job) ==> Next(s, step).jobs[job].cancelled == s.jobs[job].cancelled
  {
  }

  lemma {:induction false} StagesFinishJob(s: State, steps: seq<Step>, job: Id, k: nat)
    requires Inv(s) && job in s.jobs && k <= Progress(s.jobs[job].pc)
    requires HasStages(steps, job, k) && NewIds(s, steps, job) && CancelStep(job) !in steps
    ensures var s' := Exec(s, steps);
      job in s'.jobs && Progress(s'.jobs[job].pc) == 8 && s'.jobs[job].cancelled == s.jobs[job].cancelled
    decreases |steps|
  {
    if steps != [] {
      NextKeepsInv(s, steps[0]);
      NextStage(s, steps[0], job, k);
      StagesFinishJob(Next(s, steps[0]), steps[1..], job, if IsStage(steps[0], job, k) then k + 1 else k);
    }
  }

  // ----- Entering the try block -----

  /** In the try statement or past it. */
  predicate Entered(pc: Pc) {
    InTry(pc) || pc.Cleaning? || pc.Finished?
  }

  lemma OwnStepEntered(s: State, step: Step, job: Id)
    requires job in s.jobs && JobOf(step) == Some(job)
    ensures job in Next(s, step).jobs
    ensures Entered(s.jobs[job].pc) ==> Entered(Next(s, step).jobs[job].pc)
    ensures !Entered(s.jobs[job].pc) && Entered(Next(s, step).jobs[job].pc) ==> InTry(Next(s, step).jobs[job].pc)
  {
    match step
    case LoadStep(_, _, _, _) =>
    case MakeDirStep(_, _) =>
    case MarkStep(_, _, _) =>
    case FixStep(_, _) =>
    case CompleteStep(_, _, _) =>
    case RecordStep(_, _, _) =>
    case CleanStep(_, _) =>
    case CancelStep(_) =>
  }

  /** A job that has entered the try statement never leaves it but through the finally clause, and there is no
      other way in than through the try block. */
  lemma NextEntered(s: State, step: Step, job: Id)
    requires job in s.jobs
    ensures job in Next(s, step).jobs
    ensures Entered(s.jobs[job].pc) ==> Entered(Next(s, step).jobs[job].pc)
    ensures !Entered(s.jobs[job].pc) && Entered(Next(s, step).jobs[job].pc) ==> InTry(Next(s, step).jobs[job].pc)
  {
    if JobOf(step) == Some(job) {
      OwnStepEntered(s, step, job);
    } else {
      OtherStepsKeepJob(s, step, job);
    }
  }

  /** At some point of the run the job is in its try block. */
  predicate Tries(s: State, steps: seq<Step>, job: Id)
    decreases |steps|
  {
    || (job in s.jobs && InTry(s.jobs[job].pc))
    || (steps != [] && Tries(Next(s, steps[0]), steps[1..], job))
  }

  lemma {:induction false} EnteredStays(s: State, steps: seq<Step>, job: Id)
    requires job in s.jobs && Entered(s.jobs[job].pc)
    ensures job in Exec(s, steps).jobs && Entered(Exec(s, steps).jobs[job].pc)
    decreases |steps|
  {
    if steps != [] {
      NextEntered(s, steps[0], job);
      EnteredStays(Next(s, steps[0]), steps[1..], job);
    }
  }

  lemma {:induction false} EnteredExactlyWhenTried(s: State, steps: seq<Step>, job: Id)
    requires job in s.jobs && !Entered(s.jobs[job].pc)
    ensures job in Exec(s, steps).jobs
    ensures Entered(Exec(s, steps).jobs[job].pc) <==> Tries(s, steps, job)
    decreases |steps|
  {
    if steps != [] {
      var s1 := Next(s, steps[0]);
      NextEntered(s, steps[0], job);
      if Entered(s1.jobs[job].pc) {
        EnteredStays(s1, steps[1..], job);
      } else {
        EnteredExactlyWhenTried(s1, steps[1..], job);
      }
    }
  }

  // ----- Failures that could not be recorded -----

  /** No transaction of the run that records this job's failure rolls back. */
  predicate RecordsCommit(steps: seq<Step>, job: Id) {
    forall step :: step in steps && step.RecordStep? && step.job == job ==> step.fault == None
  }

  lemma OtherStepsKeepMark(s: State, step: Step, job: Id)
    requires job in s.jobs && !(step.RecordStep? && step.job == job)
    ensures job in Next(s, step).jobs && Next(s, step).jobs[job].unrecorded == s.jobs[job].unrecorded
  {
    if JobOf(step) != Some(job) {
      OtherStepsKeepJob(s, step, job);
    } else {
      match step
      case LoadStep(_, _, _, _) =>
      case MakeDirStep(_, _) =>
      case MarkStep(_, _, _) =>
      case FixStep(_, _) =>
      case CompleteStep(_, _, _) =>
      case CleanStep(_, _) =>
      case CancelStep(_) =>
    }
  }

  /** The attempt the job made is gone for good. */
  ghost predicate LostAttempt(s: State, job: Id) {
    && job in s.jobs && s.jobs[job].ctx.Some?
    && s.jobs[job].ctx.value.attempt in s.owner && s.jobs[job].ctx.value.attempt !in s.db.attempts
  }

  lemma RecordMarks(s: State, step: Step, job: Id)
    requires JobsOk(s) && job in s.jobs && !s.jobs[job].unrecorded
    requires step.RecordStep? && step.job == job && step.fault == None
    ensures job in Next(s, step).jobs
    ensures Next(s, step).jobs[job].unrecorded ==> LostAttempt(Next(s, step), job)
  {
  }

  lemma NextKeepsContext(s: State, step: Step, job: Id)
    requires JobsOk(s) && job in s.jobs && s.jobs[job].ctx.Some?
    ensures job in Next(s, step).jobs && Next(s, step).jobs[job].ctx == s.jobs[job].ctx
  {
    if JobOf(step) != Some(job) {
      OtherStepsKeepJob(s, step, job);
    } else {
      match step
      case LoadStep(_, _, _, _) =>
      case MakeDirStep(_, _) =>
      case MarkStep(_, _, _) =>
      case FixStep(_, _) =>
      case CompleteStep(_, _, _) =>
      case RecordStep(_, _, _) =>
      case CleanStep(_, _) =>
      case CancelStep(_) =>
    }
  }

  lemma {:induction false} LostStaysLost(s: State, steps: seq<Step>, job: Id)
    requires Inv(s) && LostAttempt(s, job)
    ensures LostAttempt(Exec(s, steps), job)
    decreases |steps|
  {
    if steps != [] {
      NextKeepsInv(s, steps[0]);
      NextOwner(s, steps[0]);
      NextKeepsContext(s, steps[0], job);
      LostStaysLost(Next(s, steps[0]), steps[1..], job);
    }
  }

  /** When these transactions commit, a failure stays unrecorded only because the attempt's row is gone. */
  lemma {:induction false} UnrecordedMeansLost(s: State, steps: seq<Step>, job: Id)
    requires Inv(s) && job in s.jobs && !s.jobs[job].unrecorded && RecordsCommit(steps, job)
    ensures job in Exec(s, steps).jobs && (Exec(s, steps).jobs[job].unrecorded ==> LostAttempt(Exec(s, steps), job))
    decreases |steps|
  {
    if steps != [] {
      var s1 := Next(s, steps[0]);
      NextKeepsInv(s, steps[0]);
      assert steps[0] in steps && RecordsCommit(steps[1..], job);
      if steps[0].RecordStep? && steps[0].job == job {
        RecordMarks(s, steps[0], job);
      } else {
        OtherStepsKeepMark(s, steps[0], job);
      }
      if s1.jobs[job].unrecorded {
        LostStaysLost(s1, steps[1..], job);
      } else {
        UnrecordedMeansLost(s1, steps[1..], job);
      }
    }
  }

  // ----- How a run ends -----

  /** The job is over, and what it leaves is accounted for. */
  ghost predicate EndsTerminal(s: State, job: Id) {
    && job in s.jobs && s.jobs[job].pc.Finished? && s.jobs[job].ctx.Some?
    && (s.jobs[job].ctx.value.attempt in s.db.attempts ==> Terminal(s.db.attempts[s.jobs[job].ctx.value.attempt]))
    && (job in s.dirs ==> job in s.leftBehind)
  }

  lemma FinishedEndsTerminal(s: State, job: Id)
    requires Inv(s) && job in s.jobs && s.jobs[job].pc.Finished? && !s.jobs[job].cancelled
    requires s.jobs[job].unrecorded ==> LostAttempt(s, job)
    ensures EndsTerminal(s, job)
  {
  }

  /** However an uncancelled call of `run` is interleaved with the rest of the system, it comes to an end: before
      its try block, or, exactly when it ever was in it, past its finally clause. Then, if its
      failure-recording transaction can commit, its attempt, when the row is still there, is SUCCESS, MERGED or
      FAILED, and its directory is gone unless rmtree could not remove it. */
  lemma RunEndsTerminal(before: seq<Step>, steps: seq<Step>, job: Id)
    requires var s := Exec(START, before);
      job in s.jobs && s.jobs[job].pc == Queued && NewIds(s, steps, job)
    requires HasStages(steps, job, 1) && CancelStep(job) !in steps
    ensures var s, s' := Exec(START, before), Exec(Exec(START, before), steps);
      && job in s'.jobs && (s'.jobs[job].pc.Skipped? || s'.jobs[job].pc.Dead? || s'.jobs[job].pc.Finished?)
      && (s'.jobs[job].pc.Finished? <==> Tries(s, steps, job))
      && (Tries(s, steps, job) && RecordsCommit(steps, job) ==> EndsTerminal(s', job))
  {
    var s := Exec(START, before);
    var s' := Exec(s, steps);
    ExecKeepsInv(START, before);
    assert CtxFits(s.jobs[job]);
    StagesFinishJob(s, steps, job, 1);
    EnteredExactlyWhenTried(s, steps, job);
    if Tries(s, steps, job) && RecordsCommit(steps, job) {
      ExecKeepsInv(s, steps);
      UnrecordedMeansLost(s, steps, job);
      FinishedEndsTerminal(s', job);
    }
  }

  lemma {:induction false} StagesInOrder(steps: seq<Step>, job: Id, k: nat)
    requires k + |steps| == 8 && forall i :: 0 <= i < |steps| ==> IsStage(steps[i], job, k + i)
    ensures HasStages(steps, job, k)
    decreases |steps|
  {
    if steps != [] {
      assert forall i :: 0 <= i < |steps| - 1 ==> steps[1..][i] == steps[i + 1];
      StagesInOrder(steps[1..], job, k + 1);
    }
  }

  lemma {:induction false} NoLoadNoIds(s: State, steps: seq<Step>, job: Id)
    requires forall step :: step in steps ==> !step.LoadStep?
    ensures NewIds(s, steps, job)
    decreases |steps|
  {
    if steps != [] {
      NoLoadNoIds(Next(s, steps[0]), steps[1..], job);
    }
  }

  /** An uninterrupted `run` is one such interleaving. */
  lemma ScheduleRuns(s: State, job: Id, o: Outcomes)
    requires o.newId !in s.owner
    ensures var steps := RunSchedule(job, o);
      HasStages(steps, job, 1) && NewIds(s, steps, job) && CancelStep(job) !in steps
  {
    var steps := RunSchedule(job, o);
    StagesInOrder(steps, job, 1);
    NoLoadNoIds(Next(s, steps[0]), steps[1..], job);
  }

  /** Nothing goes wrong outside the fix itself. */
  predicate Smooth(o: Outcomes) {
    o.loadFault == None && o.markFault == None && o.completeFault == None && o.recordFault == None
    && o.dirOk && o.cleanOk
  }

  /** The attempt such a run leaves. */
  function FinalAttempt(error: Id, o: Outcomes): Attempt {
    match o.fix
    case Opened(url) => Attempt(error, Success, Some(url), None, Some(o.markedAt), Some(o.completedAt))
    case Raised(why) => Attempt(error, Failed, None, Some(why), Some(o.markedAt), Some(o.recordedAt))
  }

  lemma MarkedRun(s: State, job: Id, now: Time, error: Id)
    requires At(s, job, Marking) && s.jobs[job].ctx.Some?
    requires var a := s.jobs[job].ctx.value.attempt;
      a in s.db.attempts && s.db.attempts[a] == Attempt(error, Pending, None, None, None, None)
    ensures var s' := DoMark(s, job, now, None);
      var a := s.jobs[job].ctx.value.attempt;
      && At(s', job, Fixing) && s'.jobs[job].ctx == s.jobs[job].ctx && s'.dirs == s.dirs
      && s'.db == s.db.(attempts := s.db.attempts[a := Attempt(error, Running, None, None, Some(now), None)])
  {
  }

  /** From the fix on, when it opens a pull request. */
  lemma OpenedRun(s: State, job: Id, o: Outcomes, error: Id)
    requires At(s, job, Fixing) && s.jobs[job].ctx.Some? && Smooth(o) && o.fix.Opened? && error in s.db.errors
    requires var a := s.jobs[job].ctx.value.attempt;
      a in s.db.attempts && s.db.attempts[a] == Attempt(error, Running, None, None, Some(o.markedAt), None)
    ensures var s5 := DoComplete(DoFix(s, job, o.fix), job, o.completedAt, o.completeFault);
      var s' := DoRecord(s5, job, o.recordedAt, o.recordFault);
      && At(s', job, Cleaning) && s'.dirs == s.dirs
      && s'.db == s.db.(attempts := s.db.attempts[s.jobs[job].ctx.value.attempt := FinalAttempt(error, o)],
                        errors := s.db.errors[error := s.db.errors[error].(status := FixAttempted)])
  {
    assert At(DoFix(s, job, o.fix), job, Completing(o.fix.url));
  }

  /** And when it raises. */
  lemma RaisedRun(s: State, job: Id, o: Outcomes, error: Id)
    requires At(s, job, Fixing) && s.jobs[job].ctx.Some? && Smooth(o) && o.fix.Raised?
    requires var a := s.jobs[job].ctx.value.attempt;
      a in s.db.attempts && s.db.attempts[a] == Attempt(error, Running, None, None, Some(o.markedAt), None)
    ensures var s5 := DoComplete(DoFix(s, job, o.fix), job, o.completedAt, o.completeFault);
      var s' := DoRecord(s5, job, o.recordedAt, o.recordFault);
      && At(s', job, Cleaning) && s'.dirs == s.dirs
      && s'.db == s.db.(attempts := s.db.attempts[s.jobs[job].ctx.value.attempt := FinalAttempt(error, o)])
  {
    assert At(DoFix(s, job, o.fix), job, Failing(o.fix.why));
  }

  lemma TriedRun(s: State, job: Id, o: Outcomes, error: Id)
    requires At(s, job, Marking) && s.jobs[job].ctx.Some? && s.jobs[job].ctx.value.attempt == o.newId && Smooth(o)
    requires o.newId in s.db.attempts && s.db.attempts[o.newId] == Attempt(error, Pending, None, None, None, None)
    requires error in s.db.errors && job in s.dirs
    ensures var s' := FixStore.Tail(s, job, o);
      && At(s', job, Finished) && s'.dirs == s.dirs - {job}
      && s'.db == s.db.(attempts := s.db.attempts[o.newId := FinalAttempt(error, o)],
                        errors := if o.fix.Opened? then s.db.errors[error := s.db.errors[error].(status := FixAttempted)]
                                  else s.db.errors)
  {
    var s3 := DoMark(s, job, o.markedAt, o.markFault);
    MarkedRun(s, job, o.markedAt, error);
    SameKeyTwice(s.db.attempts, o.newId, s3.db.attempts[o.newId], FinalAttempt(error, o));
    if o.fix.Opened? {
      OpenedRun(s3, job, o, error);
    } else {
      RaisedRun(s3, job, o, error);
    }
  }

  lemma PreparedRun(s: State, job: Id, o: Outcomes)
    requires At(s, job, Queued) && o.newId !in s.owner && Smooth(o)
    requires Load(s.db, s.jobs[job].error, s.jobs[job].project, o.keyFound, o.newId).Ready?
    ensures var s' := DoMakeDir(DoLoad(s, job, o.keyFound, o.newId, o.loadFault), job, o.dirOk);
      && At(s', job, Marking) && s'.jobs[job].ctx.Some? && s'.jobs[job].ctx.value.attempt == o.newId
      && s'.dirs == s.dirs + {job} && s.jobs[job].error in s.db.errors
      && s'.db == s.db.(attempts := s.db.attempts[o.newId := Attempt(s.jobs[job].error, Pending, None, None, None, None)])
  {
    var s1 := DoLoad(s, job, o.keyFound, o.newId, o.loadFault);
    assert At(s1, job, Prepared) && s1.dirs == s.dirs;
  }

  /** What an uninterrupted, smooth run does in the end: it adds one attempt, SUCCESS with the pull request and
      the error FIX_ATTEMPTED, or FAILED with the reason and the error still OPEN; and it leaves no directory. */
  lemma RunOutcome(s: State, job: Id, o: Outcomes)
    requires DirsOk(s) && LeftOk(s) && At(s, job, Queued) && o.newId !in s.owner && Smooth(o)
    requires Load(s.db, s.jobs[job].error, s.jobs[job].project, o.keyFound, o.newId).Ready?
    ensures var s' := Exec(s, RunSchedule(job, o));
      var error := s.jobs[job].error;
      && At(s', job, Finished) && s'.dirs == s.dirs && error in s.db.errors
      && s'.db == s.db.(attempts := s.db.attempts[o.newId := FinalAttempt(error, o)],
                        errors := if o.fix.Opened? then s.db.errors[error := s.db.errors[error].(status := FixAttempted)]
                                  else s.db.errors)
  {
    var s2 := DoMakeDir(DoLoad(s, job, o.keyFound, o.newId, o.loadFault), job, o.dirOk);
    FixStore.ScheduleUnfolds(s, job, o);
    PreparedRun(s, job, o);
    FreshDirectory(s, job);
    TriedRun(s2, job, o, s.jobs[job].error);
    SameKeyTwice(s.db.attempts, o.newId, Attempt(s.jobs[job].error, Pending, None, None, None, None),
                 FinalAttempt(s.jobs[job].error, o));
  }

  lemma FreshDirectory(s: State, job: Id)
    requires DirsOk(s) && LeftOk(s) && At(s, job, Queued)
    ensures s.dirs + {job} - {job} == s.dirs
  {
    assert job !in s.dirs;
  }

  lemma SameKeyTwice<T>(m: map<Id, T>, k: Id, x: T, y: T)
    ensures m[k := x][k := y] == m[k := y]
  {
  }

  /** Even under cancellation no clone directory outlives its job, unless rmtree left it. */
  lemma NoDirectoryLeaks(steps: seq<Step>, job: Id)
    requires job in Exec(START, steps).dirs
    ensures var s := Exec(START, steps);
      job in s.jobs && (InTry(s.jobs[job].pc) || s.jobs[job].pc.Cleaning? || job in s.leftBehind)
  {
    ExecKeepsInv(START, steps);
  }

  /** Whose attempts are still PENDING or RUNNING: those of jobs under way, and of jobs that died before the
      try block, were cancelled, or could not record their failure. */
  lemma UnfinishedAttemptsExplained(steps: seq<Step>, a: Id)
    requires a in Exec(START, steps).db.attempts && !Terminal(Exec(START, steps).db.attempts[a])
    ensures var s := Exec(START, steps);
      && a in s.owner && s.owner[a] in s.jobs
      && var j := s.jobs[s.owner[a]];
         j.pc.Prepared? || InTry(j.pc) || j.pc.Dead? || j.cancelled || j.unrecorded
  {
    ExecKeepsInv(START, steps);
  }

  // ----- Attempts side by side -----

  /** What `has_active_fix_attempt` asks for. */
  function ActiveAt(db: Tables, e: Id): set<Id> {
    set a | a in db.attempts && db.attempts[a].error == e && db.attempts[a].status in {Pending, Running}
  }

  ghost predicate OneActive(db: Tables, e: Id) {
    forall a, b :: a in ActiveAt(db, e) && b in ActiveAt(db, e) ==> a == b
  }

  /** The step creates an attempt at the error. */
  predicate Starts(s: State, step: Step, e: Id) {
    && step.LoadStep? && At(s, step.job, Queued) && step.newId !in s.owner && step.fault.None?
    && s.jobs[step.job].error == e
    && Load(s.db, e, s.jobs[step.job].project, step.keyFound, step.newId).Ready?
  }

  lemma StartedAttempt(s: State, step: Step, e: Id)
    requires Inv(s) && Starts(s, step, e)
    ensures step.newId !in ActiveAt(s.db, e)
    ensures ActiveAt(Next(s, step).db, e) == ActiveAt(s.db, e) + {step.newId}
  {
    assert step.newId !in s.db.attempts;
    assert Next(s, step).db.attempts == s.db.attempts[step.newId := Attempt(e, Pending, None, None, None, None)];
  }

  lemma NoOtherStart(s: State, step: Step, e: Id)
    requires Inv(s) && !Starts(s, step, e)
    ensures ActiveAt(Next(s, step).db, e) <= ActiveAt(s.db, e)
  {
    forall a | a in ActiveAt(Next(s, step).db, e) ensures a in ActiveAt(s.db, e) {
      if a in s.db.attempts {
        NextMovesAttempt(s, step, a);
      } else {
        NextNewAttempt(s, step, a);
        NewAttemptStarts(s, step, a);
      }
    }
  }

  lemma NewAttemptStarts(s: State, step: Step, a: Id)
    requires step.LoadStep? && a !in s.db.attempts && a in Next(s, step).db.attempts
    ensures Starts(s, step, Next(s, step).db.attempts[a].error)
  {
  }

  /** Nothing in the pipeline keeps attempts at one error from overlapping: a step breaks the rule exactly when
      a job loads the error while an attempt at it is active. */
  lemma OverlapsExactlyWhen(s: State, step: Step, e: Id)
    requires Inv(s) && OneActive(s.db, e)
    ensures OneActive(Next(s, step).db, e) <==> !(Starts(s, step, e) && ActiveAt(s.db, e) != {})
  {
    if Starts(s, step, e) {
      StartedAttempt(s, step, e);
      if a :| a in ActiveAt(s.db, e) {
        assert a in ActiveAt(Next(s, step).db, e) && step.newId in ActiveAt(Next(s, step).db, e);
      }
    } else {
      NoOtherStart(s, step, e);
    }
  }

  lemma TwoLoadsOverlap(s: State, j: Id, k: Id, a: Id, b: Id)
    requires Inv(s) && j != k && At(s, j, Queued) && At(s, k, Queued) && a != b && a !in s.owner && b !in s.owner
    requires s.jobs[j].error == s.jobs[k].error && s.jobs[j].project == s.jobs[k].project
    requires Load(s.db, s.jobs[j].error, s.jobs[j].project, true, a).Ready?
    ensures var s' := Next(Next(s, LoadStep(j, true, a, None)), LoadStep(k, true, b, None));
      a in ActiveAt(s'.db, s.jobs[j].error) && b in ActiveAt(s'.db, s.jobs[j].error)
  {
    var first, second := LoadStep(j, true, a, None), LoadStep(k, true, b, None);
    StartedAttempt(s, first, s.jobs[j].error);
    NextKeepsInv(s, first);
    SecondLoadStarts(s, j, k, a, b);
    StartedAttempt(Next(s, first), second, s.jobs[j].error);
  }

  lemma SecondLoadStarts(s: State, j: Id, k: Id, a: Id, b: Id)
    requires j != k && At(s, j, Queued) && At(s, k, Queued) && a != b && a !in s.owner && b !in s.owner
    requires s.jobs[j].error == s.jobs[k].error && s.jobs[j].project == s.jobs[k].project
    requires Load(s.db, s.jobs[j].error, s.jobs[j].project, true, a).Ready?
    ensures Starts(Next(s, LoadStep(j, true, a, None)), LoadStep(k, true, b, None), s.jobs[j].error)
  {
  }

  /** One click on an open error of a project with an active installation, delivered twice. */
  function TwoDeliveries(org: Id, project: Id, error: Id, j: Id, k: Id, a: Id, b: Id): seq<Step> {
    [TriggerStep(org, project, error), DeliverStep(j, error, project), DeliverStep(k, error, project),
     LoadStep(j, true, a, None), LoadStep(k, true, b, None)]
  }

  lemma TwoDelivered(s: State, org: Id, project: Id, error: Id, j: Id, k: Id)
    requires MayTrigger(s.db, org, project, error) && j !in s.jobs && k !in s.jobs && j != k
    ensures var s' := Next(Next(Next(s, TriggerStep(org, project, error)), DeliverStep(j, error, project)),
                           DeliverStep(k, error, project));
      && At(s', j, Queued) && At(s', k, Queued) && s'.db == s.db && s'.owner == s.owner
      && s'.jobs[j].error == s'.jobs[k].error == error && s'.jobs[j].project == s'.jobs[k].project == project
  {
  }

  lemma ExecFive(s: State, p: Step, q: Step, r: Step, t: Step, u: Step)
    ensures Exec(s, [p, q, r, t, u]) == Next(Next(Next(Next(Next(s, p), q), r), t), u)
  {
    var s3 := Next(Next(Next(s, p), q), r);
    FixStore.ExecCons(s, p, [q, r, t, u]);
    FixStore.ExecCons(Next(s, p), q, [r, t, u]);
    FixStore.ExecCons(Next(Next(s, p), q), r, [t, u]);
    FixStore.ExecCons(s3, t, [u]);
    FixStore.ExecCons(Next(s3, t), u, []);
    assert [p, q, r, t, u] == [p] + [q, r, t, u] && [q, r, t, u] == [q] + [r, t, u];
    assert [r, t, u] == [r] + [t, u] && [t, u] == [t] + [u] && [u] == [u] + [];
  }

  /** In any reachable state where an error can be triggered and its organization's installation is active, two
      deliveries of the one request lead to two active attempts at it. */
  lemma TwoDeliveriesOverlap(s: State, org: Id, project: Id, error: Id, j: Id, k: Id, a: Id, b: Id)
    requires Inv(s) && MayTrigger(s.db, org, project, error)
    requires org in s.db.installs && s.db.installs[org].status == Active
    requires j !in s.jobs && k !in s.jobs && j != k && a !in s.owner && b !in s.owner && a != b
    ensures var s' := Exec(s, TwoDeliveries(org, project, error, j, k, a, b));
      a in ActiveAt(s'.db, error) && b in ActiveAt(s'.db, error)
  {
    var s1 := Next(s, TriggerStep(org, project, error));
    var s2 := Next(s1, DeliverStep(j, error, project));
    NextKeepsInv(s, TriggerStep(org, project, error));
    NextKeepsInv(s1, DeliverStep(j, error, project));
    NextKeepsInv(s2, DeliverStep(k, error, project));
    TwoDelivered(s, org, project, error, j, k);
    TwoLoadsOverlap(Next(s2, DeliverStep(k, error, project)), j, k, a, b);
    ExecFive(s, TriggerStep(org, project, error), DeliverStep(j, error, project), DeliverStep(k, error, project),
             LoadStep(j, true, a, None), LoadStep(k, true, b, None));
  }
}
