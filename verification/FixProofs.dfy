/** What every interleaving of the fix pipeline keeps. */
module FixProofs {
  import opened Wrappers
  import opened FixModel
  import Sets

  // ----- The invariant -----

  predicate Landed(a: Attempt) {
    a.status == Success || a.status == Merged
  }

  predicate Terminal(a: Attempt) {
    Landed(a) || a.status == Failed
  }

  /** Which columns of an attempt are set in which status. */
  predicate Shape(a: Attempt) {
    && (a.prUrl.Some? <==> Landed(a))
    && (a.completedAt.Some? <==> Terminal(a))
    && (a.status == Running || Landed(a) ==> a.startedAt.Some?)
    && (a.status == Pending ==> a.startedAt.None?)
    && (a.output.Some? <==> a.status == Failed)
  }

  /** What the program counter of a job says about its attempt. An attempt that is not terminal when its
      job is over belongs to a job that died early, was cancelled, or could not record its failure. */
  predicate Fits(j: Job, a: Attempt) {
    match j.pc
    case Prepared => a.status == Pending
    case Marking => a.status == Pending
    case Fixing => a.status == Running
    case Completing(_) => a.status == Running
    case Failing(_) => a.status == Pending || a.status == Running
    case Dead => a.status == Pending
    case Cleaning => Terminal(a) || j.cancelled || j.unrecorded
    case Finished => Terminal(a) || j.cancelled || j.unrecorded
    case _ => false
  }

  predicate CtxFits(j: Job) {
    && (j.pc.Queued? || j.pc.Skipped? ==> j.ctx.None?)
    && (j.pc.Queued? ==> !j.cancelled && !j.unrecorded)
    && (j.pc.Prepared? || InTry(j.pc) || j.pc.Cleaning? || j.pc.Finished? ==> j.ctx.Some?)
  }

  ghost predicate KeysOk(db: Tables) {
    && (forall e :: e in db.errors ==> db.errors[e].project in db.projects)
    && (forall a :: a in db.attempts ==> db.attempts[a].error in db.errors && Shape(db.attempts[a]))
  }

  /** An error is FIX_ATTEMPTED exactly when an attempt at it opened a pull request, and OPEN otherwise. */
  ghost predicate StatusesOk(db: Tables) {
    && (forall e :: e in db.errors ==> db.errors[e].status == Open || db.errors[e].status == FixAttempted)
    && (forall a :: a in db.attempts && Landed(db.attempts[a]) && db.attempts[a].error in db.errors ==>
         db.errors[db.attempts[a].error].status == FixAttempted)
    && (forall e :: e in db.errors && db.errors[e].status == FixAttempted ==>
         exists a :: a in db.attempts && db.attempts[a].error == e && Landed(db.attempts[a]))
  }

  ghost predicate JobsOk(s: State) {
    forall j :: j in s.jobs ==>
      && CtxFits(s.jobs[j])
      && (s.jobs[j].ctx.Some? ==> s.jobs[j].ctx.value.attempt in s.owner && s.owner[s.jobs[j].ctx.value.attempt] == j)
      && (s.jobs[j].error, s.jobs[j].project) in s.requested
  }

  ghost predicate AttemptsOk(s: State) {
    && (forall a :: a in s.owner ==>
         s.owner[a] in s.jobs && s.jobs[s.owner[a]].ctx.Some? && s.jobs[s.owner[a]].ctx.value.attempt == a)
    && (forall a :: a in s.db.attempts ==>
         && a in s.owner && s.owner[a] in s.jobs
         && s.db.attempts[a].error == s.jobs[s.owner[a]].error
         && Fits(s.jobs[s.owner[a]], s.db.attempts[a]))
  }

  ghost predicate RequestsOk(s: State) {
    && (forall e :: e in s.db.errors ==> e in s.knownErrors)
    && (forall p :: p in s.requested ==>
         p.0 in s.knownErrors && (p.0 in s.db.errors ==> s.db.errors[p.0].project == p.1))
  }

  /** A clone directory exists while its job is between creating and removing it, or was left by rmtree. */
  ghost predicate DirsOk(s: State) {
    forall j :: j in s.dirs <==> j in s.jobs && (InTry(s.jobs[j].pc) || s.jobs[j].pc.Cleaning? || j in s.leftBehind)
  }

  ghost predicate LeftOk(s: State) {
    forall j :: j in s.leftBehind ==> j in s.jobs && s.jobs[j].pc.Finished?
  }

  ghost predicate Inv(s: State) {
    && KeysOk(s.db) && StatusesOk(s.db) && JobsOk(s) && AttemptsOk(s) && RequestsOk(s) && DirsOk(s) && LeftOk(s)
  }

  // ----- Steps of a job -----

  /** A job moves; nothing is added or deleted. */
  ghost predicate JobMoves(s: State, s': State, job: Id) {
    && job in s.jobs && job in s'.jobs
    && s'.jobs == s.jobs[job := s'.jobs[job]]
    && s'.jobs[job].error == s.jobs[job].error && s'.jobs[job].project == s.jobs[job].project
    && s'.jobs[job].ctx == s.jobs[job].ctx && CtxFits(s'.jobs[job])
    && s'.owner == s.owner && s'.requested == s.requested && s'.knownErrors == s.knownErrors
    && s'.db.projects == s.db.projects && s'.db.errors.Keys == s.db.errors.Keys
    && s'.db.attempts.Keys == s.db.attempts.Keys
    && forall e :: e in s.db.errors ==> s'.db.errors[e].project == s.db.errors[e].project
  }

  /** Of the attempts, only the job's own row may change. */
  ghost predicate OwnRowOnly(s: State, s': State, job: Id)
    requires JobMoves(s, s', job)
  {
    forall a :: a in s.db.attempts && a in s.owner ==>
      if s.owner[a] != job then s'.db.attempts[a] == s.db.attempts[a]
      else s'.db.attempts[a].error == s.db.attempts[a].error && Shape(s'.db.attempts[a])
           && Fits(s'.jobs[job], s'.db.attempts[a])
  }

  lemma MoveKeepsKeys(s: State, s': State, job: Id)
    requires KeysOk(s.db) && AttemptsOk(s) && JobMoves(s, s', job) && OwnRowOnly(s, s', job)
    ensures KeysOk(s'.db)
  {
  }

  lemma MoveKeepsAttempts(s: State, s': State, job: Id)
    requires AttemptsOk(s) && JobMoves(s, s', job) && OwnRowOnly(s, s', job)
    ensures AttemptsOk(s')
  {
  }

  lemma MoveKeepsInv(s: State, s': State, job: Id)
    requires Inv(s) && JobMoves(s, s', job) && OwnRowOnly(s, s', job)
    requires StatusesOk(s'.db) && DirsOk(s') && LeftOk(s')
    ensures Inv(s')
  {
    MoveKeepsKeys(s, s', job);
    MoveKeepsAttempts(s, s', job);
    assert RequestsOk(s');
  }

  lemma RowOnly(s: State, s': State, job: Id, a: Id)
    requires AttemptsOk(s) && JobMoves(s, s', job) && s.jobs[job].ctx.Some? && a == s.jobs[job].ctx.value.attempt
    requires a in s.owner && s.owner[a] == job
    requires a in s.db.attempts && a in s'.db.attempts && s'.db.attempts == s.db.attempts[a := s'.db.attempts[a]]
    requires s'.db.attempts[a].error == s.db.attempts[a].error && Shape(s'.db.attempts[a])
    requires Fits(s'.jobs[job], s'.db.attempts[a])
    ensures OwnRowOnly(s, s', job)
  {
    assert forall b :: b in s.owner && s.owner[b] == job ==> b == a;
  }

  /** Moving inside the try block, or from it to the finally clause, leaves directories alone. */
  lemma MoveDirs(s: State, s': State, job: Id)
    requires DirsOk(s) && LeftOk(s) && JobMoves(s, s', job) && s'.dirs == s.dirs && s'.leftBehind == s.leftBehind
    requires InTry(s.jobs[job].pc) && (InTry(s'.jobs[job].pc) || s'.jobs[job].pc.Cleaning?)
    ensures DirsOk(s') && LeftOk(s')
  {
  }

  /** The transaction rewrites the job's attempt. */
  lemma RowKeepsInv(s: State, job: Id, pc: Pc, row: Attempt, errors: map<Id, ErrorRow>)
    requires Inv(s) && job in s.jobs && s.jobs[job].ctx.Some? && s.jobs[job].ctx.value.attempt in s.db.attempts
    requires InTry(s.jobs[job].pc) && (InTry(pc) || pc.Cleaning?)
    requires row.error == s.jobs[job].error && Shape(row) && Fits(s.jobs[job].(pc := pc), row)
    requires errors.Keys == s.db.errors.Keys
    requires forall e :: e in errors ==> errors[e].project == s.db.errors[e].project
    requires StatusesOk(s.db.(attempts := s.db.attempts[s.jobs[job].ctx.value.attempt := row], errors := errors))
    ensures Inv(Goto(s, job, pc).(db := s.db.(attempts := s.db.attempts[s.jobs[job].ctx.value.attempt := row],
                                              errors := errors)))
  {
    var a := s.jobs[job].ctx.value.attempt;
    var s' := Goto(s, job, pc).(db := s.db.(attempts := s.db.attempts[a := row], errors := errors));
    assert s.owner[a] == job;
    assert JobMoves(s, s', job);
    RowOnly(s, s', job, a);
    MoveDirs(s, s', job);
    MoveKeepsInv(s, s', job);
  }

  lemma GotoKeepsInv(s: State, job: Id, j: Job, dirs: set<Id>, left: set<Id>)
    requires Inv(s) && job in s.jobs
    requires j.(pc := s.jobs[job].pc, cancelled := s.jobs[job].cancelled, unrecorded := s.jobs[job].unrecorded) == s.jobs[job]
    requires CtxFits(j)
    requires forall a :: a in s.db.attempts && s.owner[a] == job ==> Fits(j, s.db.attempts[a])
    requires DirsOk(s.(jobs := s.jobs[job := j], dirs := dirs, leftBehind := left))
    requires LeftOk(s.(jobs := s.jobs[job := j], dirs := dirs, leftBehind := left))
    ensures Inv(s.(jobs := s.jobs[job := j], dirs := dirs, leftBehind := left))
  {
    MoveKeepsInv(s, s.(jobs := s.jobs[job := j], dirs := dirs, leftBehind := left), job);
  }

  lemma LoadKeepsInv(s: State, job: Id, keyFound: bool, newId: Id, fault: Option<string>)
    requires Inv(s)
    ensures Inv(DoLoad(s, job, keyFound, newId, fault))
  {
    if At(s, job, Queued) && newId !in s.owner {
      var l := Load(s.db, s.jobs[job].error, s.jobs[job].project, keyFound, newId);
      if fault.Some? {
        GotoKeepsInv(s, job, s.jobs[job].(pc := Dead), s.dirs, s.leftBehind);
      } else if l.Skip? {
        GotoKeepsInv(s, job, s.jobs[job].(pc := Skipped), s.dirs, s.leftBehind);
      } else {
        NewAttemptKeepsInv(s, DoLoad(s, job, keyFound, newId, fault), job, newId, l.ctx);
      }
    }
  }

  lemma NewAttemptKeepsInv(s: State, s': State, job: Id, newId: Id, ctx: Context)
    requires Inv(s) && At(s, job, Queued) && newId !in s.owner && ctx.attempt == newId
    requires s.jobs[job].error in s.db.errors
    requires s'.db == s.db.(attempts := s.db.attempts[newId := Attempt(s.jobs[job].error, Pending, None, None, None, None)])
    requires s'.jobs == s.jobs[job := s.jobs[job].(pc := Prepared, ctx := Some(ctx))]
    requires s'.owner == s.owner[newId := job] && s'.requested == s.requested && s'.knownErrors == s.knownErrors
    requires s'.dirs == s.dirs && s'.leftBehind == s.leftBehind
    ensures Inv(s')
  {
    assert newId !in s.db.attempts;
    assert s'.db.attempts[newId].error == s'.jobs[job].error;
    NewAttemptTables(s.db, s'.db, newId);
    NewAttemptFits(s, s', job, newId);
    NewAttemptJobs(s, s', job, newId);
    NewAttemptRest(s, s', job);
  }

  lemma NewAttemptRest(s: State, s': State, job: Id)
    requires RequestsOk(s) && DirsOk(s) && LeftOk(s) && At(s, job, Queued) && At(s', job, Prepared)
    requires s'.jobs == s.jobs[job := s'.jobs[job]]
    requires s'.dirs == s.dirs && s'.leftBehind == s.leftBehind
    requires s'.requested == s.requested && s'.knownErrors == s.knownErrors && s'.db.errors == s.db.errors
    ensures RequestsOk(s') && DirsOk(s') && LeftOk(s')
  {
  }

  lemma NewAttemptTables(db: Tables, db': Tables, newId: Id)
    requires KeysOk(db) && StatusesOk(db) && newId !in db.attempts && newId in db'.attempts
    requires db' == db.(attempts := db.attempts[newId := db'.attempts[newId]])
    requires db'.attempts[newId].error in db.errors && Shape(db'.attempts[newId]) && !Landed(db'.attempts[newId])
    ensures KeysOk(db') && StatusesOk(db')
  {
    SameLandingsSameStatuses(db, db');
  }

  lemma NewAttemptJobs(s: State, s': State, job: Id, newId: Id)
    requires JobsOk(s) && job in s.jobs && newId !in s.owner && s'.owner == s.owner[newId := job]
    requires job in s'.jobs && s'.jobs == s.jobs[job := s'.jobs[job]] && CtxFits(s'.jobs[job])
    requires s'.jobs[job].ctx.Some? && s'.jobs[job].ctx.value.attempt == newId
    requires s'.jobs[job].error == s.jobs[job].error && s'.jobs[job].project == s.jobs[job].project
    requires s'.requested == s.requested
    ensures JobsOk(s')
  {
  }

  lemma NewAttemptFits(s: State, s': State, job: Id, newId: Id)
    requires AttemptsOk(s) && JobsOk(s) && At(s, job, Queued) && newId !in s.owner && newId in s'.db.attempts
    requires s'.db.attempts == s.db.attempts[newId := s'.db.attempts[newId]] && s'.owner == s.owner[newId := job]
    requires job in s'.jobs && s'.jobs == s.jobs[job := s'.jobs[job]]
    requires s'.jobs[job].ctx.Some? && s'.jobs[job].ctx.value.attempt == newId
    requires s'.db.attempts[newId].error == s'.jobs[job].error && Fits(s'.jobs[job], s'.db.attempts[newId])
    ensures AttemptsOk(s')
  {
    assert forall a :: a in s.owner ==> s.owner[a] != job;
  }

  /** Statuses stay right when errors keep their status and the landed attempts stay the same rows. */
  lemma SameLandingsSameStatuses(db: Tables, db': Tables)
    requires StatusesOk(db)
    requires forall e :: e in db'.errors ==>
               if e in db.errors then db'.errors[e].status == db.errors[e].status else db'.errors[e].status == Open
    requires forall a :: a in db.attempts && Landed(db.attempts[a]) && db.attempts[a].error in db'.errors ==>
               a in db'.attempts && Landed(db'.attempts[a]) && db'.attempts[a].error == db.attempts[a].error
    requires forall a :: a in db'.attempts && Landed(db'.attempts[a]) ==>
               a in db.attempts && Landed(db.attempts[a]) && db'.attempts[a].error == db.attempts[a].error
               && db.attempts[a].error in db.errors
    ensures StatusesOk(db')
  {
    forall e | e in db'.errors && db'.errors[e].status == FixAttempted
      ensures exists b :: b in db'.attempts && db'.attempts[b].error == e && Landed(db'.attempts[b])
    {
      var b :| b in db.attempts && db.attempts[b].error == e && Landed(db.attempts[b]);
      assert b in db'.attempts && Landed(db'.attempts[b]);
    }
  }

  lemma MakeDirKeepsInv(s: State, job: Id, ok: bool)
    requires Inv(s)
    ensures Inv(DoMakeDir(s, job, ok))
  {
    if At(s, job, Prepared) {
      GotoKeepsInv(s, job, s.jobs[job].(pc := if ok then Marking else Dead),
                   if ok then s.dirs + {job} else s.dirs, s.leftBehind);
    }
  }

  /** Rewriting an attempt that neither had landed nor lands leaves the error statuses right. */
  lemma UnlandedStatusesOk(db: Tables, a: Id, row: Attempt)
    requires KeysOk(db) && StatusesOk(db) && a in db.attempts && row.error == db.attempts[a].error
    requires !Landed(db.attempts[a]) && !Landed(row)
    ensures StatusesOk(db.(attempts := db.attempts[a := row], errors := db.errors))
  {
    SameLandingsSameStatuses(db, db.(attempts := db.attempts[a := row]));
  }

  lemma MarkKeepsInv(s: State, job: Id, now: Time, fault: Option<string>)
    requires Inv(s)
    ensures Inv(DoMark(s, job, now, fault))
  {
    if At(s, job, Marking) {
      var a := s.jobs[job].ctx.value.attempt;
      if fault.Some? || a !in s.db.attempts {
        GotoKeepsInv(s, job, s.jobs[job].(pc := Failing(if fault.Some? then fault.value else "")), s.dirs, s.leftBehind);
      } else {
        var row := s.db.attempts[a].(status := Running, startedAt := Some(now));
        UnlandedStatusesOk(s.db, a, row);
        RowKeepsInv(s, job, Fixing, row, s.db.errors);
        assert DoMark(s, job, now, fault)
            == Goto(s, job, Fixing).(db := s.db.(attempts := s.db.attempts[a := row], errors := s.db.errors));
      }
    }
  }

  lemma FixKeepsInv(s: State, job: Id, result: FixResult)
    requires Inv(s)
    ensures Inv(DoFix(s, job, result))
  {
    if At(s, job, Fixing) {
      GotoKeepsInv(s, job, s.jobs[job].(pc := if result.Opened? then Completing(result.url) else Failing(result.why)),
                   s.dirs, s.leftBehind);
    }
  }

  /** Landing an attempt together with its error's new status leaves the error statuses right. */
  lemma LandedStatusesOk(db: Tables, a: Id, row: Attempt)
    requires KeysOk(db) && StatusesOk(db) && a in db.attempts && row.error == db.attempts[a].error && Landed(row)
    ensures StatusesOk(db.(attempts := db.attempts[a := row],
                           errors := db.errors[row.error := db.errors[row.error].(status := FixAttempted)]))
  {
    var db' := db.(attempts := db.attempts[a := row],
                   errors := db.errors[row.error := db.errors[row.error].(status := FixAttempted)]);
    forall e | e in db'.errors && db'.errors[e].status == FixAttempted
      ensures exists b :: b in db'.attempts && db'.attempts[b].error == e && Landed(db'.attempts[b])
    {
      if e == row.error {
        assert db'.attempts[a] == row;
      } else {
        var b :| b in db.attempts && db.attempts[b].error == e && Landed(db.attempts[b]);
        assert db'.attempts[b] == db.attempts[b];
      }
    }
  }

  lemma CompleteKeepsInv(s: State, job: Id, now: Time, fault: Option<string>)
    requires Inv(s)
    ensures Inv(DoComplete(s, job, now, fault))
  {
    if job in s.jobs && s.jobs[job].pc.Completing? {
      var a := s.jobs[job].ctx.value.attempt;
      if fault.Some? || a !in s.db.attempts {
        GotoKeepsInv(s, job, s.jobs[job].(pc := Failing(if fault.Some? then fault.value else "")), s.dirs, s.leftBehind);
      } else {
        var row := s.db.attempts[a].(status := Success, prUrl := Some(s.jobs[job].pc.url), output := None,
                                     completedAt := Some(now));
        var errors := s.db.errors[row.error := s.db.errors[row.error].(status := FixAttempted)];
        LandedStatusesOk(s.db, a, row);
        RowKeepsInv(s, job, Cleaning, row, errors);
        assert DoComplete(s, job, now, fault)
            == Goto(s, job, Cleaning).(db := s.db.(attempts := s.db.attempts[a := row], errors := errors));
      }
    }
  }

  lemma RecordUnfolds(s: State, job: Id, now: Time)
    requires job in s.jobs && s.jobs[job].pc.Failing? && s.jobs[job].ctx.Some?
    requires s.jobs[job].ctx.value.attempt in s.db.attempts
    ensures var a := s.jobs[job].ctx.value.attempt;
      var row := s.db.attempts[a].(status := Failed, prUrl := None, output := Some(s.jobs[job].pc.why),
                                   completedAt := Some(now));
      DoRecord(s, job, now, None)
      == Goto(s, job, Cleaning).(db := s.db.(attempts := s.db.attempts[a := row], errors := s.db.errors))
  {
  }

  lemma RecordedKeepsInv(s: State, job: Id, now: Time)
    requires Inv(s) && job in s.jobs && s.jobs[job].pc.Failing? && s.jobs[job].ctx.Some?
    requires s.jobs[job].ctx.value.attempt in s.db.attempts
    ensures Inv(DoRecord(s, job, now, None))
  {
    var a := s.jobs[job].ctx.value.attempt;
    var row := s.db.attempts[a].(status := Failed, prUrl := None, output := Some(s.jobs[job].pc.why),
                                 completedAt := Some(now));
    UnlandedStatusesOk(s.db, a, row);
    RowKeepsInv(s, job, Cleaning, row, s.db.errors);
    RecordUnfolds(s, job, now);
  }

  lemma RecordKeepsInv(s: State, job: Id, now: Time, fault: Option<string>)
    requires Inv(s)
    ensures Inv(DoRecord(s, job, now, fault))
  {
    if job in s.jobs && s.jobs[job].pc.Failing? {
      assert CtxFits(s.jobs[job]);
      if fault.Some? || s.jobs[job].ctx.value.attempt !in s.db.attempts {
        GotoKeepsInv(s, job, s.jobs[job].(pc := Cleaning, unrecorded := true), s.dirs, s.leftBehind);
      } else {
        RecordedKeepsInv(s, job, now);
      }
    }
  }

  lemma CleanKeepsInv(s: State, job: Id, ok: bool)
    requires Inv(s)
    ensures Inv(DoClean(s, job, ok))
  {
    if At(s, job, Cleaning) {
      GotoKeepsInv(s, job, s.jobs[job].(pc := Finished), if ok then s.dirs - {job} else s.dirs,
                   if ok then s.leftBehind else s.leftBehind + {job});
    }
  }

  lemma CancelKeepsInv(s: State, job: Id)
    requires Inv(s)
    ensures Inv(DoCancel(s, job))
  {
    if job in s.jobs {
      if s.jobs[job].pc in {Queued, Prepared} {
        GotoKeepsInv(s, job, s.jobs[job].(pc := Dead, cancelled := true), s.dirs, s.leftBehind);
      } else if InTry(s.jobs[job].pc) {
        GotoKeepsInv(s, job, s.jobs[job].(pc := Cleaning, cancelled := true), s.dirs, s.leftBehind);
      }
    }
  }

  // ----- Steps of the environment -----

  /** A merged pull request moves its attempt from SUCCESS to MERGED and touches nothing else. */
  lemma PullRequestEffect(db: Tables, action: string, merged: bool, url: string)
    requires KeysOk(db)
    ensures var db' := PullRequestEvent(db, action, merged, url);
      && db' == db.(attempts := db'.attempts) && db'.attempts.Keys == db.attempts.Keys
      && forall a :: a in db.attempts ==>
           && Shape(db'.attempts[a]) && (Landed(db'.attempts[a]) <==> Landed(db.attempts[a]))
           && (db'.attempts[a] == db.attempts[a]
               || (Landed(db.attempts[a]) && db'.attempts[a] == db.attempts[a].(status := Merged)))
  {
  }

  /** An attempt is merged exactly by the closing of a merged pull request that is its alone; nothing else of
      it changes. */
  lemma MergedExactlyWhen(db: Tables, action: string, merged: bool, url: string, a: Id)
    requires a in db.attempts
    ensures var db' := PullRequestEvent(db, action, merged, url);
      var mine := && action == "closed" && merged && db.attempts[a].prUrl == Some(url)
                  && forall b :: b in db.attempts && db.attempts[b].prUrl == Some(url) ==> b == a;
      && a in db'.attempts
      && db'.attempts[a] == if mine then db.attempts[a].(status := Merged) else db.attempts[a]
  {
    var found := WithUrl(db, url);
    assert forall b :: b in found <==> b in db.attempts && db.attempts[b].prUrl == Some(url);
    if a in found {
      OneOrMore(found, a);
    }
  }

  lemma OneOrMore(s: set<Id>, x: Id)
    requires x in s
    ensures |s| == 1 <==> forall y :: y in s ==> y == x
  {
    if |s| == 1 {
      Sets.OnlyElement(s, x);
    } else {
      assert |s - {x}| > 0;
      var y :| y in s - {x};
    }
  }

  /** No other organization has an installation with this GitHub id. */
  ghost predicate Alone(db: Tables, o: Id, githubId: int) {
    && o in db.installs && db.installs[o].githubId == githubId
    && forall p :: p in db.installs && db.installs[p].githubId == githubId ==> p == o
  }

  /** An installation event changes exactly the status of the installation that is alone under its id: removed when
      deleted, suspended when suspended, active when unsuspended, and otherwise as it was. */
  lemma InstallationChangesExactlyWhen(db: Tables, action: string, githubId: int, o: Id)
    requires o in db.installs
    ensures var db' := InstallationEvent(db, action, githubId);
      && db' == db.(installs := db'.installs) && db'.installs.Keys == db.installs.Keys
      && db'.installs[o] == db.installs[o].(status :=
           if !Alone(db, o, githubId) then db.installs[o].status
           else if action == "deleted" then Removed
           else if action == "suspended" then Suspended
           else if action == "unsuspended" then Active
           else db.installs[o].status)
  {
    var found := WithGithubId(db, githubId);
    assert forall p :: p in found <==> p in db.installs && db.installs[p].githubId == githubId;
    if o in found {
      OneOrMore(found, o);
    }
  }

  lemma PullRequestKeepsInv(s: State, action: string, merged: bool, url: string)
    requires Inv(s)
    ensures Inv(s.(db := PullRequestEvent(s.db, action, merged, url)))
  {
    PullRequestEffect(s.db, action, merged, url);
    LandingsKeepInv(s, PullRequestEvent(s.db, action, merged, url));
  }

  lemma LandingsKeepInv(s: State, db': Tables)
    requires Inv(s) && db' == s.db.(attempts := db'.attempts) && db'.attempts.Keys == s.db.attempts.Keys
    requires forall a :: a in s.db.attempts ==>
               && Shape(db'.attempts[a]) && (Landed(db'.attempts[a]) <==> Landed(s.db.attempts[a]))
               && (db'.attempts[a] == s.db.attempts[a]
                   || (Landed(s.db.attempts[a]) && db'.attempts[a] == s.db.attempts[a].(status := Merged)))
    ensures Inv(s.(db := db'))
  {
    LandingsKeepTables(s.db, db');
    LandingsFit(s, s.(db := db'));
    SameJobsRest(s, db');
  }

  lemma LandingsKeepTables(db: Tables, db': Tables)
    requires KeysOk(db) && StatusesOk(db) && db' == db.(attempts := db'.attempts) && db'.attempts.Keys == db.attempts.Keys
    requires forall a :: a in db.attempts ==>
               && Shape(db'.attempts[a]) && (Landed(db'.attempts[a]) <==> Landed(db.attempts[a]))
               && db'.attempts[a].error == db.attempts[a].error
    ensures KeysOk(db') && StatusesOk(db')
  {
    SameLandingsSameStatuses(db, db');
  }

  /** What is said of jobs, queue and directories does not depend on the attempts. */
  lemma SameJobsRest(s: State, db': Tables)
    requires JobsOk(s) && RequestsOk(s) && DirsOk(s) && LeftOk(s) && db'.errors == s.db.errors
    ensures var s' := s.(db := db'); JobsOk(s') && RequestsOk(s') && DirsOk(s') && LeftOk(s')
  {
  }

  /** A landed attempt may change its status among the landed ones. */
  lemma LandingsFit(s: State, s': State)
    requires AttemptsOk(s) && s' == s.(db := s'.db) && s'.db.attempts.Keys == s.db.attempts.Keys
    requires forall a :: a in s.db.attempts ==>
               s'.db.attempts[a] == s.db.attempts[a]
               || (Landed(s.db.attempts[a]) && s'.db.attempts[a] == s.db.attempts[a].(status := Merged))
    ensures AttemptsOk(s')
  {
  }

  lemma DeleteProjectKeepsInv(s: State, project: Id)
    requires Inv(s)
    ensures Inv(s.(db := DeleteProject(s.db, project)))
  {
    var db' := DeleteProject(s.db, project);
    var s' := s.(db := db');
    assert KeysOk(db');
    SameLandingsSameStatuses(s.db, db');
    assert AttemptsOk(s');
    assert RequestsOk(s');
  }

  lemma ReportKeepsInv(s: State, error: Id, project: Id)
    requires Inv(s) && error !in s.knownErrors && project in s.db.projects
    ensures Inv(s.(db := s.db.(errors := s.db.errors[error := ErrorRow(project, Open)]),
                   knownErrors := s.knownErrors + {error}))
  {
    var s' := s.(db := s.db.(errors := s.db.errors[error := ErrorRow(project, Open)]),
                 knownErrors := s.knownErrors + {error});
    assert error !in s.db.errors;
    assert s'.db.attempts == s.db.attempts;
    SameLandingsSameStatuses(s.db, s'.db);
    ReportedFits(s, s', error);
  }

  lemma ReportedFits(s: State, s': State, error: Id)
    requires KeysOk(s.db) && AttemptsOk(s) && RequestsOk(s) && JobsOk(s) && DirsOk(s) && LeftOk(s)
    requires error !in s.knownErrors && error in s'.db.errors && s'.db.errors[error].project in s.db.projects
    requires s'.db == s.db.(errors := s.db.errors[error := s'.db.errors[error]])
    requires s'.knownErrors == s.knownErrors + {error} && s' == s.(db := s'.db, knownErrors := s'.knownErrors)
    ensures KeysOk(s'.db) && AttemptsOk(s') && RequestsOk(s') && JobsOk(s') && DirsOk(s') && LeftOk(s')
  {
  }

  lemma DeliveredJobs(s: State, s': State, job: Id)
    requires JobsOk(s) && AttemptsOk(s) && job !in s.jobs && job in s'.jobs
    requires s' == s.(jobs := s.jobs[job := s'.jobs[job]]) && CtxFits(s'.jobs[job]) && s'.jobs[job].pc.Queued?
    requires (s'.jobs[job].error, s'.jobs[job].project) in s.requested
    ensures JobsOk(s') && AttemptsOk(s')
  {
    assert forall a :: a in s.owner ==> s.owner[a] != job;
  }

  lemma DeliveredDirs(s: State, s': State, job: Id)
    requires DirsOk(s) && LeftOk(s) && job !in s.jobs && job in s'.jobs
    requires s' == s.(jobs := s.jobs[job := s'.jobs[job]]) && s'.jobs[job].pc.Queued?
    ensures DirsOk(s') && LeftOk(s')
  {
    assert job !in s.leftBehind && job !in s.dirs;
  }

  lemma DeliverKeepsInv(s: State, job: Id, error: Id, project: Id)
    requires Inv(s) && job !in s.jobs && (error, project) in s.requested
    ensures Inv(s.(jobs := s.jobs[job := Job(error, project, Queued, None, false, false)]))
  {
    var s' := s.(jobs := s.jobs[job := Job(error, project, Queued, None, false, false)]);
    DeliveredJobs(s, s', job);
    DeliveredDirs(s, s', job);
    assert RequestsOk(s');
  }

  /** Steps that touch only projects or installations, and only add projects. */
  lemma SettingsKeepInv(s: State, db': Tables)
    requires Inv(s) && db'.errors == s.db.errors && db'.attempts == s.db.attempts
    requires s.db.projects.Keys <= db'.projects.Keys
    ensures Inv(s.(db := db'))
  {
    var s' := s.(db := db');
    assert KeysOk(db');
    assert StatusesOk(db');
    assert AttemptsOk(s');
  }

  lemma TransactionKeepsInv(s: State, step: Step)
    requires Inv(s) && (step.LoadStep? || step.MarkStep? || step.CompleteStep? || step.RecordStep?)
    ensures Inv(Next(s, step))
  {
    match step
    case LoadStep(job, keyFound, newId, fault) => LoadKeepsInv(s, job, keyFound, newId, fault);
    case MarkStep(job, now, fault) => MarkKeepsInv(s, job, now, fault);
    case CompleteStep(job, now, fault) => CompleteKeepsInv(s, job, now, fault);
    case RecordStep(job, now, fault) => RecordKeepsInv(s, job, now, fault);
  }

  lemma ActionKeepsInv(s: State, step: Step)
    requires Inv(s) && (step.MakeDirStep? || step.FixStep? || step.CleanStep? || step.CancelStep?)
    ensures Inv(Next(s, step))
  {
    match step
    case MakeDirStep(job, ok) => MakeDirKeepsInv(s, job, ok);
    case FixStep(job, result) => FixKeepsInv(s, job, result);
    case CleanStep(job, ok) => CleanKeepsInv(s, job, ok);
    case CancelStep(job) => CancelKeepsInv(s, job);
  }

  lemma NextKeepsInv(s: State, step: Step)
    requires Inv(s)
    ensures Inv(Next(s, step))
  {
    if JobOf(step).None? {
      EnvironmentKeepsInv(s, step);
    } else if step.LoadStep? || step.MarkStep? || step.CompleteStep? || step.RecordStep? {
      TransactionKeepsInv(s, step);
    } else {
      ActionKeepsInv(s, step);
    }
  }

  /** The job a step belongs to. */
  function JobOf(step: Step): Option<Id> {
    match step
    case LoadStep(job, _, _, _) => Some(job)
    case MakeDirStep(job, _) => Some(job)
    case MarkStep(job, _, _) => Some(job)
    case FixStep(job, _) => Some(job)
    case CompleteStep(job, _, _) => Some(job)
    case RecordStep(job, _, _) => Some(job)
    case CleanStep(job, _) => Some(job)
    case CancelStep(job) => Some(job)
    case _ => None
  }

  lemma ProjectStepKeepsInv(s: State, step: Step)
    requires Inv(s) && (step.CreateProjectStep? || step.EditProjectStep?)
    ensures Inv(Next(s, step))
  {
    SettingsKeepInv(s, Next(s, step).db);
  }

  lemma InstallationStepKeepsInv(s: State, step: Step)
    requires Inv(s) && (step.InstallationStep? || step.InstallCallbackStep?)
    ensures Inv(Next(s, step))
  {
    SettingsKeepInv(s, Next(s, step).db);
  }

  lemma TriggerStepKeepsInv(s: State, step: Step)
    requires Inv(s) && step.TriggerStep?
    ensures Inv(Next(s, step))
  {
    var s' := Next(s, step);
    assert KeysOk(s'.db) && StatusesOk(s'.db) && AttemptsOk(s') && DirsOk(s') && LeftOk(s');
    assert JobsOk(s') && RequestsOk(s');
  }

  lemma DeliverStepKeepsInv(s: State, step: Step)
    requires Inv(s) && step.DeliverStep?
    ensures Inv(Next(s, step))
  {
    if step.newJob !in s.jobs && (step.error, step.project) in s.requested {
      DeliverKeepsInv(s, step.newJob, step.error, step.project);
    }
  }

  lemma TableStepKeepsInv(s: State, step: Step)
    requires Inv(s) && (step.DeleteProjectStep? || step.ReportStep? || step.PullRequestStep?)
    ensures Inv(Next(s, step))
  {
    if step.DeleteProjectStep? {
      DeleteProjectKeepsInv(s, step.project);
    } else if step.PullRequestStep? {
      PullRequestKeepsInv(s, step.action, step.merged, step.url);
    } else if step.error !in s.knownErrors && step.project in s.db.projects {
      ReportKeepsInv(s, step.error, step.project);
    }
  }

  lemma EnvironmentKeepsInv(s: State, step: Step)
    requires Inv(s) && JobOf(step).None?
    ensures Inv(Next(s, step))
  {
    if step.TriggerStep? {
      TriggerStepKeepsInv(s, step);
    } else if step.DeliverStep? {
      DeliverStepKeepsInv(s, step);
    } else if step.DeleteProjectStep? || step.ReportStep? || step.PullRequestStep? {
      TableStepKeepsInv(s, step);
    } else if step.CreateProjectStep? || step.EditProjectStep? {
      ProjectStepKeepsInv(s, step);
    } else {
      InstallationStepKeepsInv(s, step);
    }
  }

  lemma {:induction false} ExecKeepsInv(s: State, steps: seq<Step>)
    requires Inv(s)
    ensures Inv(Exec(s, steps))
    decreases |steps|
  {
    if steps != [] {
      NextKeepsInv(s, steps[0]);
      ExecKeepsInv(Next(s, steps[0]), steps[1..]);
    }
  }
}
