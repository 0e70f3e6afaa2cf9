/**
 * The worker and the webhook handlers as they run: rows are changed in place, a failed transaction is
 * rolled back, and `run` is one try/except/finally. Each is proved to do what the protocol's steps say.
 */
module FixStore {
  import opened Wrappers
  import opened FixModel
  import Sets

  lemma ExecCons(s: State, step: Step, rest: seq<Step>)
    ensures Exec(s, [step] + rest) == Exec(Next(s, step), rest)
  {
    assert ([step] + rest)[1..] == rest;
  }

  /** The seven stages, one after the other. */
  lemma ExecSeven(s: State, a: Step, b: Step, c: Step, d: Step, e: Step, f: Step, g: Step)
    ensures Exec(s, [a, b, c, d, e, f, g]) == Next(Next(Next(Next(Next(Next(Next(s, a), b), c), d), e), f), g)
  {
    var s1 := Next(s, a);
    var s2 := Next(s1, b);
    var s3 := Next(s2, c);
    var s4 := Next(s3, d);
    ExecCons(s, a, [b, c, d, e, f, g]);
    ExecCons(s1, b, [c, d, e, f, g]);
    ExecCons(s2, c, [d, e, f, g]);
    ExecCons(s3, d, [e, f, g]);
    ExecCons(s4, e, [f, g]);
    ExecCons(Next(s4, e), f, [g]);
    ExecCons(Next(Next(s4, e), f), g, []);
    assert [a, b, c, d, e, f, g] == [a] + [b, c, d, e, f, g];
    assert [b, c, d, e, f, g] == [b] + [c, d, e, f, g];
    assert [c, d, e, f, g] == [c] + [d, e, f, g];
    assert [d, e, f, g] == [d] + [e, f, g];
    assert [e, f, g] == [e] + [f, g];
    assert [f, g] == [f] + [g];
    assert [g] == [g] + [];
  }

  class Store {
    var projects: map<Id, Project>
    var installs: map<Id, Installation>
    var errors: map<Id, ErrorRow>
    var attempts: map<Id, Attempt>
    var dirs: set<Id>
    // What no table holds: the jobs in progress and the history the protocol speaks of.
    ghost var jobs: map<Id, Job>
    ghost var requested: set<(Id, Id)>
    ghost var knownErrors: set<Id>
    ghost var owner: map<Id, Id>
    ghost var leftBehind: set<Id>

    constructor ()
      ensures View() == START
    {
      projects, installs, errors, attempts, dirs := map[], map[], map[], map[], {};
      jobs, requested, knownErrors, owner, leftBehind := map[], {}, {}, map[], {};
    }

    function Rows(): Tables
      reads this
    {
      Tables(projects, installs, errors, attempts)
    }

    ghost function View(): State
      reads this
    {
      State(Rows(), jobs, dirs, requested, knownErrors, owner, leftBehind)
    }

    method Rollback(rows: Tables)
      modifies `projects, `installs, `errors, `attempts
      ensures Rows() == rows
    {
      projects, installs, errors, attempts := rows.projects, rows.installs, rows.errors, rows.attempts;
    }

    // ----- Webhooks -----

    method HandlePrEvent(action: string, merged: bool, url: string) returns (raised: bool)
      modifies `attempts
      ensures Rows() == PullRequestEvent(old(Rows()), action, merged, url)
      ensures raised <==> action == "closed" && merged && |WithUrl(old(Rows()), url)| > 1
    {
      if action != "closed" || !merged { return false; }
      var found := set a | a in attempts && attempts[a].prUrl == Some(url);
      assert found == WithUrl(Rows(), url);
      if |found| > 1 { return true; }
      if |found| == 0 { return false; }
      var attempt :| attempt in found;
      Sets.OnlyElement(found, attempt);
      attempts := attempts[attempt := attempts[attempt].(status := Merged)];
      return false;
    }

    method HandleInstallationEvent(action: string, githubId: int) returns (raised: bool)
      modifies `installs
      ensures Rows() == FixModel.InstallationEvent(old(Rows()), action, githubId)
      ensures raised <==> StatusForAction(action).Some? && |WithGithubId(old(Rows()), githubId)| > 1
    {
      var newStatus := StatusForAction(action);
      if newStatus.None? { return false; }
      var found := set o | o in installs && installs[o].githubId == githubId;
      assert found == WithGithubId(Rows(), githubId);
      if |found| > 1 { return true; }
      if |found| == 0 { return false; }
      var org :| org in found;
      Sets.OnlyElement(found, org);
      installs := installs[org := installs[org].(status := newStatus.value)];
      return false;
    }

    method UpsertInstallation(org: Id, githubId: int)
      modifies `installs
      ensures Rows() == FixModel.UpsertInstallation(old(Rows()), org, githubId)
    {
      if org in installs {
        installs := installs[org := installs[org].(githubId := githubId, status := Active)];
      } else {
        installs := installs[org := Installation(githubId, Active)];
      }
    }

    // ----- The worker -----

    method CreateFixAttempt(id: Id, error: Id)
      modifies `attempts
      ensures attempts == old(attempts)[id := Attempt(error, Pending, None, None, None, None)]
    {
      attempts := attempts[id := Attempt(error, Pending, None, None, None, None)];
    }

    method LoadAndPrepare(error: Id, project: Id, keyFound: bool, newId: Id) returns (ctx: Option<Context>)
      modifies `attempts
      ensures match Load(old(Rows()), error, project, keyFound, newId)
              case Skip => ctx.None? && Rows() == old(Rows())
              case Ready(db, c) => ctx == Some(c) && Rows() == db
    {
      if error !in errors || errors[error].status != Open { return None; }
      if project !in projects { return None; }
      var org := projects[project].org;
      if org !in installs || installs[org].status != Active { return None; }
      if !keyFound { return None; }
      CreateFixAttempt(newId, error);
      return Some(Context(newId, projects[project].repo, installs[org].githubId));
    }

    /** False stands for the failed assertion that the row exists. */
    method MarkFixAttemptRunning(attempt: Id, now: Time) returns (ok: bool)
      modifies `attempts
      ensures match MarkRunning(old(Rows()), attempt, now)
              case None => !ok && Rows() == old(Rows())
              case Some(db) => ok && Rows() == db
    {
      if attempt !in attempts { return false; }
      var row := attempts[attempt].(status := Running);
      row := row.(startedAt := Some(now));
      attempts := attempts[attempt := row];
      return true;
    }

    /** When it fails the rows may already have changed: the caller's transaction is rolled back. */
    method CompleteFixAttempt(attempt: Id, success: bool, prUrl: Option<string>, output: Option<string>, now: Time)
      returns (ok: bool)
      modifies `attempts, `errors
      ensures match CompleteAttempt(old(Rows()), attempt, success, prUrl, output, now)
              case None => !ok
              case Some(db) => ok && Rows() == db
    {
      if attempt !in attempts { return false; }
      var row := attempts[attempt];
      row := row.(status := if success then Success else Failed);
      row := row.(prUrl := prUrl);
      row := row.(output := output);
      row := row.(completedAt := Some(now));
      attempts := attempts[attempt := row];
      if success {
        var error := row.error;
        if error !in errors { return false; }
        errors := errors[error := errors[error].(status := FixAttempted)];
      }
      return true;
    }

    /** A transaction of the try block or of the except branch: None when it committed, else the exception. */
    method CompleteInTransaction(attempt: Id, success: bool, prUrl: Option<string>, output: Option<string>,
                                 now: Time, fault: Option<string>) returns (raised: Option<string>)
      modifies `projects, `installs, `errors, `attempts
      ensures var done := CompleteAttempt(old(Rows()), attempt, success, prUrl, output, now);
        if fault.Some? then raised == fault && Rows() == old(Rows())
        else if done.None? then raised == Some("") && Rows() == old(Rows())
        else raised == None && Rows() == done.value
    {
      var before := Rows();
      var ok := CompleteFixAttempt(attempt, success, prUrl, output, now);
      if fault.Some? || !ok {
        Rollback(before);
        return if fault.Some? then fault else Some("");
      }
      return None;
    }

    method MarkInTransaction(attempt: Id, now: Time, fault: Option<string>) returns (raised: Option<string>)
      modifies `projects, `installs, `errors, `attempts
      ensures var done := MarkRunning(old(Rows()), attempt, now);
        if fault.Some? then raised == fault && Rows() == old(Rows())
        else if done.None? then raised == Some("") && Rows() == old(Rows())
        else raised == None && Rows() == done.value
    {
      var before := Rows();
      var ok := MarkFixAttemptRunning(attempt, now);
      if fault.Some? || !ok {
        Rollback(before);
        return if fault.Some? then fault else Some("");
      }
      return None;
    }

    ghost method Move(job: Id, pc: Pc)
      requires job in jobs
      modifies `jobs
      ensures jobs == old(jobs)[job := old(jobs)[job].(pc := pc)]
    {
      jobs := jobs[job := jobs[job].(pc := pc)];
    }

    /** The except branch and the finally clause. */
    method HandleFailure(job: Id, attempt: Id, why: string, now: Time, fault: Option<string>)
      requires job in jobs && jobs[job].pc == Failing(why)
      requires jobs[job].ctx.Some? && jobs[job].ctx.value.attempt == attempt
      modifies `projects, `installs, `errors, `attempts, `jobs
      ensures View() == DoRecord(old(View()), job, now, fault)
      ensures At(View(), job, Cleaning)
    {
      var raised := CompleteInTransaction(attempt, false, None, Some(why), now, fault);
      if raised.Some? {
        jobs := jobs[job := jobs[job].(unrecorded := true)];
      }
      Move(job, Cleaning);
    }

    method RemoveTree(job: Id, ok: bool)
      requires At(View(), job, Cleaning)
      modifies `dirs, `leftBehind, `jobs
      ensures View() == DoClean(old(View()), job, ok)
    {
      if ok {
        dirs := dirs - {job};
      } else {
        leftBehind := leftBehind + {job};
      }
      Move(job, Finished);
    }

    /** The try block: the exception it ends with, if any. */
    method TryFix(job: Id, ctx: Context, o: Outcomes) returns (raised: Option<string>)
      requires At(View(), job, Marking) && jobs[job].ctx == Some(ctx)
      modifies `projects, `installs, `errors, `attempts, `jobs
      ensures View() == DoComplete(DoFix(DoMark(old(View()), job, o.markedAt, o.markFault), job, o.fix),
                                   job, o.completedAt, o.completeFault)
      ensures job in jobs && jobs[job].ctx == Some(ctx)
      ensures jobs[job].pc == if raised.Some? then Failing(raised.value) else Cleaning
    {
      raised := MarkInTransaction(ctx.attempt, o.markedAt, o.markFault);
      if raised.Some? {
        Move(job, Failing(raised.value));
        return;
      }
      Move(job, Fixing);
      match o.fix {
        case Raised(why) =>
          Move(job, Failing(why));
          return Some(why);
        case Opened(url) =>
          Move(job, Completing(url));
          raised := CompleteInTransaction(ctx.attempt, true, Some(url), None, o.completedAt, o.completeFault);
          Move(job, if raised.Some? then Failing(raised.value) else Cleaning);
      }
    }

    /** The first transaction. */
    method LoadInTransaction(job: Id, error: Id, project: Id, o: Outcomes) returns (ctx: Option<Context>)
      requires At(View(), job, Queued) && jobs[job].error == error && jobs[job].project == project
      requires o.newId !in owner
      modifies this
      ensures View() == DoLoad(old(View()), job, o.keyFound, o.newId, o.loadFault)
      ensures job in jobs
      ensures if ctx.Some? then jobs[job].pc == Prepared && jobs[job].ctx == ctx else jobs[job].pc in {Skipped, Dead}
    {
      var before := Rows();
      ctx := LoadAndPrepare(error, project, o.keyFound, o.newId);
      if o.loadFault.Some? {
        Rollback(before);
        Move(job, Dead);
        return None;
      }
      if ctx.None? {
        Move(job, Skipped);
        return None;
      }
      owner := owner[o.newId := job];
      jobs := jobs[job := jobs[job].(pc := Prepared, ctx := ctx)];
    }

    method MakeDir(job: Id, ok: bool)
      requires At(View(), job, Prepared)
      modifies `dirs, `jobs
      ensures View() == DoMakeDir(old(View()), job, ok)
      ensures job in jobs && jobs[job].pc == (if ok then Marking else Dead) && jobs[job].ctx == old(jobs[job].ctx)
    {
      if ok {
        dirs := dirs + {job};
        Move(job, Marking);
      } else {
        Move(job, Dead);
      }
    }

    /** The try, except and finally clauses. */
    method FixAndCleanUp(job: Id, ctx: Context, o: Outcomes)
      requires At(View(), job, Marking) && jobs[job].ctx == Some(ctx)
      modifies this
      ensures View() == Tail(old(View()), job, o)
    {
      var raised := TryFix(job, ctx, o);
      if raised.Some? {
        HandleFailure(job, ctx.attempt, raised.value, o.recordedAt, o.recordFault);
      }
      RemoveTree(job, o.cleanOk);
    }

    /** `run`, uninterrupted, is its seven stages in order. */
    method Run(job: Id, error: Id, project: Id, o: Outcomes)
      requires At(View(), job, Queued) && jobs[job].error == error && jobs[job].project == project
      requires o.newId !in owner
      modifies this
      ensures View() == Exec(old(View()), RunSchedule(job, o))
    {
      ScheduleUnfolds(View(), job, o);
      var ctx := LoadInTransaction(job, error, project, o);
      if ctx.None? {
        OverStays(View(), job, o);
        return;
      }
      MakeDir(job, o.dirOk);
      if !o.dirOk {
        OverStays(View(), job, o);
        return;
      }
      FixAndCleanUp(job, ctx.value, o);
    }
  }

  /** The stages from the try block on. */
  function Tail(s: State, job: Id, o: Outcomes): State {
    var tried := DoComplete(DoFix(DoMark(s, job, o.markedAt, o.markFault), job, o.fix), job, o.completedAt, o.completeFault);
    DoClean(DoRecord(tried, job, o.recordedAt, o.recordFault), job, o.cleanOk)
  }

  lemma OverStays(s: State, job: Id, o: Outcomes)
    requires job in s.jobs && s.jobs[job].pc in {Skipped, Dead}
    ensures DoMakeDir(s, job, o.dirOk) == s && Tail(s, job, o) == s
  {
  }

  lemma ScheduleUnfolds(s: State, job: Id, o: Outcomes)
    ensures Exec(s, RunSchedule(job, o))
         == Tail(DoMakeDir(DoLoad(s, job, o.keyFound, o.newId, o.loadFault), job, o.dirOk), job, o)
  {
    ExecSeven(s, LoadStep(job, o.keyFound, o.newId, o.loadFault), MakeDirStep(job, o.dirOk),
              MarkStep(job, o.markedAt, o.markFault), FixStep(job, o.fix),
              CompleteStep(job, o.completedAt, o.completeFault), RecordStep(job, o.recordedAt, o.recordFault),
              CleanStep(job, o.cleanOk));
  }
}
