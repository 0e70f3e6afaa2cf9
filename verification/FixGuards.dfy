/** What lets a fix start, and what the rest of the system does to the tables. */
module FixGuards {
  import opened Wrappers
  import opened FixModel
  import opened FixProofs
  import opened FixRuns

  // ----- Starting an attempt -----

  ghost predicate ActiveInstall(db: Tables, org: Id) {
    org in db.installs && db.installs[org].status == Active
  }

  /** The error is open, the project exists, and its organization's installation is active. */
  ghost predicate Fixable(db: Tables, error: Id, project: Id) {
    && error in db.errors && db.errors[error].status == Open
    && project in db.projects && ActiveInstall(db, db.projects[project].org)
  }

  /** A load that does not fail creates its attempt exactly when the error is fixable and an API key is found;
      otherwise the job is skipped and the tables stay as they are. */
  lemma LoadsExactlyWhen(s: State, step: Step)
    requires step.LoadStep? && At(s, step.job, Queued) && step.newId !in s.owner && step.fault == None
    requires step.newId !in s.db.attempts
    ensures var j := s.jobs[step.job];
      step.newId in Next(s, step).db.attempts <==> Fixable(s.db, j.error, j.project) && step.keyFound
    ensures step.newId !in Next(s, step).db.attempts ==>
              Next(s, step).db == s.db && At(Next(s, step), step.job, Skipped)
    ensures step.newId in Next(s, step).db.attempts ==>
              && At(Next(s, step), step.job, Prepared)
              && Next(s, step).db == s.db.(attempts :=
                   s.db.attempts[step.newId := Attempt(s.jobs[step.job].error, Pending, None, None, None, None)])
  {
  }

  // ----- Installations -----

  /** The organization's installation is there and not active. */
  ghost predicate Halted(db: Tables, o: Id, g: int) {
    o in db.installs && db.installs[o].githubId == g && db.installs[o].status != Active
  }

  /** Neither unsuspends the installation nor comes from a callback of its organization. */
  predicate LeavesHalted(step: Step, o: Id, g: int) {
    && !(step.InstallationStep? && step.action == "unsuspended" && step.githubId == g)
    && !(step.InstallCallbackStep? && step.org == o)
  }

  lemma OthersKeepInstalls(s: State, step: Step)
    requires !step.InstallationStep? && !step.InstallCallbackStep?
    ensures Next(s, step).db.installs == s.db.installs
  {
    if step.PullRequestStep? {
    } else if JobOf(step).Some? && !step.LoadStep? {
      JobKeepsInstalls(s, step);
    }
  }

  lemma JobKeepsInstalls(s: State, step: Step)
    requires JobOf(step).Some? && !step.LoadStep?
    ensures Next(s, step).db.installs == s.db.installs
  {
    match step
    case MakeDirStep(_, _) =>
    case MarkStep(_, _, _) =>
    case FixStep(_, _) =>
    case CompleteStep(_, _, _) =>
    case RecordStep(_, _, _) =>
    case CleanStep(_, _) =>
    case CancelStep(_) =>
  }

  lemma NextStaysHalted(s: State, step: Step, o: Id, g: int)
    requires Halted(s.db, o, g) && LeavesHalted(step, o, g)
    ensures Halted(Next(s, step).db, o, g)
  {
    if step.InstallationStep? {
      InstallationChangesExactlyWhen(s.db, step.action, step.githubId, o);
    } else if !step.InstallCallbackStep? {
      OthersKeepInstalls(s, step);
    }
  }

  lemma {:induction false} ExecStaysHalted(s: State, steps: seq<Step>, o: Id, g: int)
    requires Halted(s.db, o, g) && forall step :: step in steps ==> LeavesHalted(step, o, g)
    ensures Halted(Exec(s, steps).db, o, g)
    decreases |steps|
  {
    if steps != [] {
      assert steps[0] in steps;
      NextStaysHalted(s, steps[0], o, g);
      assert forall step :: step in steps[1..] ==> step in steps;
      ExecStaysHalted(Next(s, steps[0]), steps[1..], o, g);
    }
  }

  /** After "suspended" or "deleted" about an installation that is alone under its id, nothing that happens short
      of "unsuspended" or a new callback lets a job start an attempt for a project of its organization. */
  lemma SuspensionStopsFixes(s: State, action: string, o: Id, g: int, steps: seq<Step>, step: Step, a: Id)
    requires Inv(s) && Alone(s.db, o, g) && (action == "suspended" || action == "deleted")
    requires forall q :: q in steps ==> LeavesHalted(q, o, g)
    requires var s' := Exec(Next(s, InstallationStep(action, g)), steps);
      a !in s'.db.attempts && a in Next(s', step).db.attempts
    ensures var s' := Exec(Next(s, InstallationStep(action, g)), steps);
      var e := Next(s', step).db.attempts[a].error;
      && e in s'.db.errors && s'.db.errors[e].project in s'.db.projects
      && s'.db.projects[s'.db.errors[e].project].org != o
  {
    var s1 := Next(s, InstallationStep(action, g));
    var s' := Exec(s1, steps);
    NextKeepsInv(s, InstallationStep(action, g));
    InstallationChangesExactlyWhen(s.db, action, g, o);
    ExecStaysHalted(s1, steps, o, g);
    ExecKeepsInv(s1, steps);
    NextNewAttempt(s', step, a);
  }

  /** An event with any other action changes nothing at all. */
  lemma OtherActionsAreIgnored(s: State, action: string, g: int)
    requires action != "deleted" && action != "suspended" && action != "unsuspended"
    ensures Next(s, InstallationStep(action, g)) == s
  {
  }

  /** After "unsuspended" about an installation alone under its id, or after the organization's callback, an open
      error of one of its projects is fixable again, through the installation with that id. */
  lemma ReopensForFixes(s: State, step: Step, o: Id, g: int, error: Id, project: Id)
    requires error in s.db.errors && s.db.errors[error].status == Open
    requires project in s.db.projects && s.db.projects[project].org == o
    requires (step == InstallationStep("unsuspended", g) && Alone(s.db, o, g)) || step == InstallCallbackStep(o, g)
    ensures Fixable(Next(s, step).db, error, project) && Next(s, step).db.installs[o] == Installation(g, Active)
  {
    if step.InstallationStep? {
      InstallationChangesExactlyWhen(s.db, step.action, g, o);
    }
  }

  /** A callback touches only its own organization's installation. */
  lemma CallbackTouchesOne(s: State, o: Id, g: int, p: Id)
    requires p in s.db.installs && p != o
    ensures var db' := Next(s, InstallCallbackStep(o, g)).db;
      p in db'.installs && db'.installs[p] == s.db.installs[p] && db' == s.db.(installs := db'.installs)
  {
  }

  // ----- Triggers, projects, reports -----

  /** A trigger is queued exactly for an open error of a project of the caller's organization, and anything queued
      can be delivered. */
  lemma TriggersExactlyWhen(s: State, org: Id, project: Id, error: Id)
    requires (error, project) !in s.requested
    ensures (error, project) in Next(s, TriggerStep(org, project, error)).requested <==>
              && project in s.db.projects && s.db.projects[project].org == org
              && error in s.db.errors && s.db.errors[error].project == project && s.db.errors[error].status == Open
    ensures forall p :: p in Next(s, TriggerStep(org, project, error)).requested ==>
              p in s.requested || p == (error, project)
    ensures Next(s, TriggerStep(org, project, error)).db == s.db
  {
  }

  lemma DeliversExactlyWhen(s: State, job: Id, error: Id, project: Id)
    requires job !in s.jobs
    ensures job in Next(s, DeliverStep(job, error, project)).jobs <==> (error, project) in s.requested
    ensures job in Next(s, DeliverStep(job, error, project)).jobs ==>
              Next(s, DeliverStep(job, error, project)).jobs[job] == Job(error, project, Queued, None, false, false)
  {
  }

  /** Deleting a project deletes it, its errors and the attempts at them, and leaves every other row alone. */
  lemma DeletionExactly(s: State, project: Id)
    ensures var db, db' := s.db, Next(s, DeleteProjectStep(project)).db;
      && db'.installs == db.installs
      && (forall p :: p in db'.projects <==> p in db.projects && p != project)
      && (forall p :: p in db'.projects ==> db'.projects[p] == db.projects[p])
      && (forall e :: e in db'.errors <==> e in db.errors && db.errors[e].project != project)
      && (forall e :: e in db'.errors ==> db'.errors[e] == db.errors[e])
      && (forall a :: a in db'.attempts <==> a in db.attempts && db.attempts[a].error in db'.errors)
      && (forall a :: a in db'.attempts ==> db'.attempts[a] == db.attempts[a])
  {
  }

  /** A first report opens an error of its project; a project is created and edited as asked. */
  lemma SettingsTakeEffect(s: State, project: Id, org: Id, repo: string, error: Id)
    ensures project !in s.db.projects ==>
              Next(s, CreateProjectStep(project, org, repo)).db
              == s.db.(projects := s.db.projects[project := Project(org, repo)])
    ensures project in s.db.projects ==>
              Next(s, EditProjectStep(project, repo)).db
              == s.db.(projects := s.db.projects[project := Project(s.db.projects[project].org, repo)])
    ensures project in s.db.projects && error !in s.knownErrors ==>
              Next(s, ReportStep(error, project)).db
              == s.db.(errors := s.db.errors[error := ErrorRow(project, Open)])
  {
  }

  // ----- Cancellation -----

  lemma TryingIsUnfinished(s: State, job: Id)
    requires AttemptsOk(s) && JobsOk(s) && job in s.jobs && InTry(s.jobs[job].pc)
    ensures s.jobs[job].ctx.Some?
    ensures s.jobs[job].ctx.value.attempt in s.db.attempts ==> !Terminal(s.db.attempts[s.jobs[job].ctx.value.attempt])
  {
    assert CtxFits(s.jobs[job]);
  }

  /** A job cancelled before its try block is over at once. */
  lemma EarlyCancellationEndsTheJob(s: State, job: Id)
    requires job in s.jobs && (s.jobs[job].pc.Queued? || s.jobs[job].pc.Prepared?)
    ensures var s' := Next(s, CancelStep(job));
      At(s', job, Dead) && s'.jobs[job].cancelled && s'.db == s.db && s'.dirs == s.dirs
  {
  }

  /** A job cancelled in its try block goes straight to its finally clause: its attempt stays as it was, PENDING or
      RUNNING, and its directory is removed. */
  lemma CancellationSkipsRecording(s: State, job: Id)
    requires Inv(s) && job in s.jobs && InTry(s.jobs[job].pc)
    ensures var s' := Next(Next(s, CancelStep(job)), CleanStep(job, true));
      && At(s', job, Finished) && s'.db == s.db && job !in s'.dirs
    ensures s.jobs[job].ctx.Some?
    ensures s.jobs[job].ctx.value.attempt in s.db.attempts ==> !Terminal(s.db.attempts[s.jobs[job].ctx.value.attempt])
  {
    TryingIsUnfinished(s, job);
  }

  // ----- Failures -----

  /** The database lost the job's attempt, with its project. */
  ghost predicate RowGone(s: State, job: Id) {
    job in s.jobs && s.jobs[job].ctx.Some? && s.jobs[job].ctx.value.attempt !in s.db.attempts
  }

  /** In the try block every exception, a fault of the transaction or the failed assertion that the row exists,
      leads to the except branch with its text and leaves the tables as they were. */
  lemma TryFailuresAreCaught(s: State, job: Id, now: Time, fault: Option<string>, why: string)
    requires job in s.jobs && s.jobs[job].ctx.Some?
    ensures s.jobs[job].pc == Marking && (fault.Some? || RowGone(s, job)) ==>
              var s' := Next(s, MarkStep(job, now, fault));
              s'.db == s.db && At(s', job, Failing(if fault.Some? then fault.value else ""))
    ensures s.jobs[job].pc == Fixing ==>
              var s' := Next(s, FixStep(job, Raised(why)));
              s'.db == s.db && At(s', job, Failing(why))
    ensures s.jobs[job].pc.Completing? && (fault.Some? || RowGone(s, job)) ==>
              var s' := Next(s, CompleteStep(job, now, fault));
              s'.db == s.db && At(s', job, Failing(if fault.Some? then fault.value else ""))
  {
  }

  /** In the except branch it does not stop the finally clause. */
  lemma RecordingFailuresPass(s: State, job: Id, now: Time, fault: Option<string>)
    requires job in s.jobs && s.jobs[job].ctx.Some? && s.jobs[job].pc.Failing? && (fault.Some? || RowGone(s, job))
    ensures var s' := Next(s, RecordStep(job, now, fault));
      s'.db == s.db && At(s', job, Cleaning) && s'.jobs[job].unrecorded
  {
  }

  /** Before the try block it ends the job at once; the transaction of a failed load leaves no attempt. */
  lemma EarlyFailuresEndTheJob(s: State, job: Id, keyFound: bool, newId: Id, why: string)
    requires job in s.jobs && newId !in s.owner
    ensures s.jobs[job].pc == Queued ==>
              var s' := Next(s, LoadStep(job, keyFound, newId, Some(why)));
              s'.db == s.db && At(s', job, Dead)
    ensures s.jobs[job].pc == Prepared ==>
              var s' := Next(s, MakeDirStep(job, false));
              s'.db == s.db && At(s', job, Dead) && s'.dirs == s.dirs
  {
  }
}
