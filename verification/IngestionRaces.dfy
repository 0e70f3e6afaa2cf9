/** Ingestion when the query of one request and its writes are separate steps. */
module IngestionRaces {
  import opened Wrappers
  import opened Ingestion

  datatype Task = Waiting(r: Report) | Looked(r: Report, seen: Seen) | Over(committed: bool)

  datatype State = State(t: Tables, tasks: map<Id, Task>, used: set<Id>)   // error ids ever used

  const START := State(Tables({}, map[], map[]), map[], {})

  datatype Step =
    | Arrive(task: Id, r: Report)
    | Look(task: Id)
    | Write(task: Id, newId: Id, newOccurrence: Id)
    | CreateProject(project: Id)
    | DeleteProject(project: Id)

  /** Deleting a project cascades to its errors and their occurrences. */
  function WithoutProject(t: Tables, project: Id): Tables {
    var errors := map e | e in t.errors && t.errors[e].project != project :: t.errors[e];
    Tables(t.projects - {project}, errors,
           map o | o in t.occurrences && t.occurrences[o] in errors :: t.occurrences[o])
  }

  function DoWrite(hash: Hash, s: State, task: Id, newId: Id, newOccurrence: Id): State {
    if task !in s.tasks || !s.tasks[task].Looked? || newId in s.used then s
    else
      var done := Commit(hash, s.t, s.tasks[task].r, s.tasks[task].seen, newId, newOccurrence);
      if done.None? then s.(tasks := s.tasks[task := Over(false)])
      else State(done.value, s.tasks[task := Over(true)], s.used + {newId})
  }

  ghost function Next(hash: Hash, s: State, step: Step): State {
    match step
    case Arrive(task, r) => if task in s.tasks then s else s.(tasks := s.tasks[task := Waiting(r)])
    case Look(task) =>
      if task !in s.tasks || !s.tasks[task].Waiting? then s
      else s.(tasks := s.tasks[task := Looked(s.tasks[task].r, See(hash, s.t, s.tasks[task].r))])
    case Write(task, newId, newOccurrence) => DoWrite(hash, s, task, newId, newOccurrence)
    case CreateProject(project) => s.(t := s.t.(projects := s.t.projects + {project}))
    case DeleteProject(project) => s.(t := WithoutProject(s.t, project))
  }

  ghost function Exec(hash: Hash, s: State, steps: seq<Step>): State
    decreases |steps|
  {
    if steps == [] then s else Exec(hash, Next(hash, s, steps[0]), steps[1..])
  }

  // ----- Bounds under every interleaving -----

  /** What a request saw may be out of date, but it never exceeds the occurrences of the row, if that exists. */
  ghost predicate SeenOk(hash: Hash, s: State, task: Task) {
    task.Looked? && task.seen.Found? ==>
      && task.seen.error in s.used
      && (task.seen.error in s.t.errors ==> 1 <= task.seen.count <= |OccurrencesOf(s.t, task.seen.error)|)
  }

  ghost predicate Inv(hash: Hash, s: State) {
    && Bounded(s.t)
    && s.t.errors.Keys <= s.used
    && (forall task :: task in s.tasks ==> SeenOk(hash, s, s.tasks[task]))
  }

  lemma LookKeepsInv(hash: Hash, s: State, task: Id)
    requires Inv(hash, s)
    ensures Inv(hash, Next(hash, s, Look(task)))
  {
    if task in s.tasks && s.tasks[task].Waiting? {
      SeenIs(hash, s.t, s.tasks[task].r);
    }
  }

  /** An accepted write leaves every other request with a count it may write back. */
  lemma WriteKeepsSeen(hash: Hash, s: State, s': State, o: Id, e: Id, task: Task)
    requires SeenOk(hash, s, task) && o !in s.t.occurrences && s'.t.occurrences == s.t.occurrences[o := e]
    requires s.t.errors.Keys <= s.used && s.used <= s'.used && s'.t.errors.Keys == s.t.errors.Keys + {e}
    requires e in s.t.errors || e !in s.used
    ensures SeenOk(hash, s', task)
  {
    OneMoreOccurrence(s.t, s'.t, o, e);
  }

  lemma AcceptedWriteKeepsInv(hash: Hash, s: State, s': State, task: Id, newId: Id, o: Id, e: Id)
    requires Inv(hash, s) && Bounded(s'.t) && task in s.tasks && o !in s.t.occurrences
    requires s'.t.occurrences == s.t.occurrences[o := e] && s'.t.errors.Keys == s.t.errors.Keys + {e}
    requires s'.used == s.used + {newId} && s'.tasks == s.tasks[task := Over(true)]
    requires e in s.t.errors || (e == newId && e !in s.used)
    ensures Inv(hash, s')
  {
    forall other | other in s'.tasks ensures SeenOk(hash, s', s'.tasks[other]) {
      if other != task {
        WriteKeepsSeen(hash, s, s', o, e, s.tasks[other]);
      }
    }
  }

  lemma WriteKeepsInv(hash: Hash, s: State, task: Id, newId: Id, newOccurrence: Id)
    requires Inv(hash, s)
    ensures Inv(hash, DoWrite(hash, s, task, newId, newOccurrence))
  {
    if task in s.tasks && s.tasks[task].Looked? && newId !in s.used {
      var r, seen := s.tasks[task].r, s.tasks[task].seen;
      assert SeenOk(hash, s, s.tasks[task]);
      CommitKeepsBounds(hash, s.t, r, seen, newId, newOccurrence);
      if Commit(hash, s.t, r, seen, newId, newOccurrence).Some? {
        AcceptedWriteKeepsInv(hash, s, DoWrite(hash, s, task, newId, newOccurrence), task, newId, newOccurrence,
                              if seen.Found? then seen.error else newId);
      }
    }
  }

  lemma DeletionKeepsOccurrences(t: Tables, project: Id, e: Id)
    requires e in t.errors && t.errors[e].project != project
    ensures OccurrencesOf(WithoutProject(t, project), e) == OccurrencesOf(t, e)
  {
  }

  lemma DeleteKeepsInv(hash: Hash, s: State, project: Id)
    requires Inv(hash, s)
    ensures Inv(hash, Next(hash, s, DeleteProject(project)))
  {
    var s' := Next(hash, s, DeleteProject(project));
    forall e | e in s'.t.errors ensures OccurrencesOf(s'.t, e) == OccurrencesOf(s.t, e) {
      DeletionKeepsOccurrences(s.t, project, e);
    }
    forall task | task in s'.tasks ensures SeenOk(hash, s', s'.tasks[task]) {
      assert SeenOk(hash, s, s.tasks[task]);
    }
  }

  lemma NextKeepsInv(hash: Hash, s: State, step: Step)
    requires Inv(hash, s)
    ensures Inv(hash, Next(hash, s, step))
  {
    match step
    case Arrive(_, _) =>
    case Look(task) => LookKeepsInv(hash, s, task);
    case Write(task, newId, newOccurrence) => WriteKeepsInv(hash, s, task, newId, newOccurrence);
    case CreateProject(_) =>
      assert forall e :: OccurrencesOf(Next(hash, s, step).t, e) == OccurrencesOf(s.t, e);
    case DeleteProject(project) => DeleteKeepsInv(hash, s, project);
  }

  lemma {:induction false} ExecKeepsInv(hash: Hash, s: State, steps: seq<Step>)
    requires Inv(hash, s)
    ensures Inv(hash, Exec(hash, s, steps))
    decreases |steps|
  {
    if steps != [] {
      NextKeepsInv(hash, s, steps[0]);
      ExecKeepsInv(hash, Next(hash, s, steps[0]), steps[1..]);
    }
  }

  /** However requests and deletions interleave, there is one row per project and fingerprint, and its count is
      at least one and at most the number of its occurrences. */
  lemma ReachableBounds(hash: Hash, steps: seq<Step>)
    ensures Bounded(Exec(hash, START, steps).t)
  {
    ExecKeepsInv(hash, START, steps);
  }

  // ----- When the count is exact -----

  ghost predicate Exact(t: Tables, e: Id)
    requires e in t.errors
  {
    t.errors[e].count == |OccurrencesOf(t, e)|
  }

  /** The write is accepted, its row exists, and the row's count is no longer the one its request saw. */
  predicate StaleWrite(s: State, step: Step, e: Id) {
    && step.Write? && step.task in s.tasks && s.tasks[step.task].Looked? && s.tasks[step.task].seen.Found?
    && s.tasks[step.task].seen.error == e && e in s.t.errors
    && step.newId !in s.used && step.newOccurrence !in s.t.occurrences
    && s.t.errors[e].count != s.tasks[step.task].seen.count
  }

  ghost predicate Overwritten(hash: Hash, s: State, steps: seq<Step>, e: Id)
    decreases |steps|
  {
    steps != [] && (StaleWrite(s, steps[0], e) || Overwritten(hash, Next(hash, s, steps[0]), steps[1..], e))
  }

  // An exact row stays exact until a stale write.

  lemma WriteKeepsExact(hash: Hash, s: State, step: Step, e: Id)
    requires Inv(hash, s) && step.Write? && !StaleWrite(s, step, e) && (e in s.t.errors ==> Exact(s.t, e))
    ensures e in Next(hash, s, step).t.errors ==> Exact(Next(hash, s, step).t, e)
  {
    var t' := Next(hash, s, step).t;
    if t' != s.t {
      var seen := s.tasks[step.task].seen;
      var d := if seen.Found? then seen.error else step.newId;
      OneMoreOccurrence(s.t, t', step.newOccurrence, d);
      if seen.Missing? {
        NoOccurrencesOfNobody(s.t, step.newId);
      }
    }
  }

  lemma NextKeepsExact(hash: Hash, s: State, step: Step, e: Id)
    requires Inv(hash, s) && !StaleWrite(s, step, e) && (e in s.t.errors ==> Exact(s.t, e))
    ensures e in Next(hash, s, step).t.errors ==> Exact(Next(hash, s, step).t, e)
  {
    var t' := Next(hash, s, step).t;
    match step
    case Arrive(_, _) =>
    case Look(_) =>
    case Write(_, _, _) => WriteKeepsExact(hash, s, step, e);
    case CreateProject(_) => assert OccurrencesOf(t', e) == OccurrencesOf(s.t, e);
    case DeleteProject(project) =>
      if e in t'.errors {
        DeletionKeepsOccurrences(s.t, project, e);
      }
  }

  // After a stale write it never becomes exact again.

  ghost predicate SeesLess(t: Tables, e: Id, task: Task) {
    task.Looked? && task.seen.Found? && task.seen.error == e ==> task.seen.count < |OccurrencesOf(t, e)|
  }

  /** The row, if it is still there, has missed occurrences, and so has everyone who looked at it. */
  ghost predicate Behind(s: State, e: Id) {
    && e in s.used
    && (e in s.t.errors ==>
         && s.t.errors[e].count < |OccurrencesOf(s.t, e)|
         && forall task :: task in s.tasks ==> SeesLess(s.t, e, s.tasks[task]))
  }

  lemma StaleWriteFallsBehind(hash: Hash, s: State, step: Step, e: Id)
    requires Inv(hash, s) && StaleWrite(s, step, e) && Exact(s.t, e)
    ensures Behind(Next(hash, s, step), e)
  {
    var s' := Next(hash, s, step);
    OneMoreOccurrence(s.t, s'.t, step.newOccurrence, e);
    assert SeenOk(hash, s, s.tasks[step.task]);
    forall task | task in s'.tasks ensures SeesLess(s'.t, e, s'.tasks[task]) {
      if task != step.task {
        assert SeenOk(hash, s, s.tasks[task]);
      }
    }
  }

  lemma LookStaysBehind(hash: Hash, s: State, task: Id, e: Id)
    requires Inv(hash, s) && Behind(s, e)
    ensures Behind(Next(hash, s, Look(task)), e)
  {
    if task in s.tasks && s.tasks[task].Waiting? {
      SeenIs(hash, s.t, s.tasks[task].r);
    }
  }

  lemma WriteStaysBehind(hash: Hash, s: State, step: Step, e: Id)
    requires Inv(hash, s) && step.Write? && Behind(s, e)
    ensures Behind(Next(hash, s, step), e)
  {
    var s' := Next(hash, s, step);
    if s'.t != s.t && e in s'.t.errors {
      var seen := s.tasks[step.task].seen;
      OneMoreOccurrence(s.t, s'.t, step.newOccurrence, if seen.Found? then seen.error else step.newId);
      assert e in s.t.errors && SeesLess(s.t, e, s.tasks[step.task]);
      forall task | task in s'.tasks ensures SeesLess(s'.t, e, s'.tasks[task]) {
        if task != step.task {
          assert SeesLess(s.t, e, s.tasks[task]);
        }
      }
    }
  }

  lemma DeleteStaysBehind(hash: Hash, s: State, project: Id, e: Id)
    requires Behind(s, e)
    ensures Behind(Next(hash, s, DeleteProject(project)), e)
  {
    var s' := Next(hash, s, DeleteProject(project));
    if e in s'.t.errors {
      DeletionKeepsOccurrences(s.t, project, e);
      forall task | task in s'.tasks ensures SeesLess(s'.t, e, s'.tasks[task]) {
        assert SeesLess(s.t, e, s.tasks[task]);
      }
    }
  }

  lemma CreateStaysBehind(hash: Hash, s: State, project: Id, e: Id)
    requires Behind(s, e)
    ensures Behind(Next(hash, s, CreateProject(project)), e)
  {
    var s' := Next(hash, s, CreateProject(project));
    assert OccurrencesOf(s'.t, e) == OccurrencesOf(s.t, e);
    forall task | e in s.t.errors && task in s'.tasks ensures SeesLess(s'.t, e, s'.tasks[task]) {
      assert SeesLess(s.t, e, s.tasks[task]);
    }
  }

  lemma NextStaysBehind(hash: Hash, s: State, step: Step, e: Id)
    requires Inv(hash, s) && Behind(s, e)
    ensures Behind(Next(hash, s, step), e)
  {
    match step
    case Arrive(_, _) =>
    case Look(task) => LookStaysBehind(hash, s, task, e);
    case Write(_, _, _) => WriteStaysBehind(hash, s, step, e);
    case CreateProject(project) => CreateStaysBehind(hash, s, project, e);
    case DeleteProject(project) => DeleteStaysBehind(hash, s, project, e);
  }

  lemma {:induction false} ExecStaysBehind(hash: Hash, s: State, steps: seq<Step>, e: Id)
    requires Inv(hash, s) && Behind(s, e)
    ensures Behind(Exec(hash, s, steps), e)
    decreases |steps|
  {
    if steps != [] {
      NextKeepsInv(hash, s, steps[0]);
      NextStaysBehind(hash, s, steps[0], e);
      ExecStaysBehind(hash, Next(hash, s, steps[0]), steps[1..], e);
    }
  }

  /** From a state where the row is exact or not yet there: if it is there at the end, it is exact exactly when
      no stale write hit it. */
  lemma {:induction false} StaysExactExactlyWhen(hash: Hash, s: State, steps: seq<Step>, e: Id)
    requires Inv(hash, s) && (e in s.t.errors ==> Exact(s.t, e))
    ensures e in Exec(hash, s, steps).t.errors ==> (Exact(Exec(hash, s, steps).t, e) <==> !Overwritten(hash, s, steps, e))
    decreases |steps|
  {
    if steps != [] {
      NextKeepsInv(hash, s, steps[0]);
      if StaleWrite(s, steps[0], e) {
        StaleWriteFallsBehind(hash, s, steps[0], e);
        ExecStaysBehind(hash, Next(hash, s, steps[0]), steps[1..], e);
      } else {
        NextKeepsExact(hash, s, steps[0], e);
        StaysExactExactlyWhen(hash, Next(hash, s, steps[0]), steps[1..], e);
      }
    }
  }

  /** Whatever requests and deletions do, a row's count is its number of occurrences exactly when no request ever
      wrote over a count it had not seen. */
  lemma ExactExactlyWhen(hash: Hash, steps: seq<Step>, e: Id)
    requires e in Exec(hash, START, steps).t.errors
    ensures Exact(Exec(hash, START, steps).t, e) <==> !Overwritten(hash, START, steps, e)
  {
    StaysExactExactlyWhen(hash, START, steps, e);
  }

  /** A request that has looked commits exactly when what it writes to is still as it must be: the row it found is
      there, or, if it found none, there still is none and the project exists. */
  lemma WritesExactlyWhen(hash: Hash, s: State, task: Id, newId: Id, newOccurrence: Id)
    requires Inv(hash, s) && task in s.tasks && s.tasks[task].Looked?
    requires newId !in s.used && newOccurrence !in s.t.occurrences
    ensures var r, seen, s' := s.tasks[task].r, s.tasks[task].seen, DoWrite(hash, s, task, newId, newOccurrence);
      && task in s'.tasks && s'.tasks[task].Over?
      && (s'.tasks[task].committed <==>
           || (seen.Found? && seen.error in s.t.errors)
           || (seen.Missing? && r.project in s.t.projects
               && forall e :: e in s.t.errors && s.t.errors[e].project == r.project ==> s.t.errors[e].fingerprint != Mark(hash, r)))
      && (!s'.tasks[task].committed ==> s'.t == s.t)
      && (s'.tasks[task].committed && seen.Missing? ==>
           && newId in s'.t.errors && s'.t.errors[newId] == Row(r.project, r.errorClass, r.message, r.trace, Mark(hash, r), 1)
           && newOccurrence in s'.t.occurrences && s'.t.occurrences[newOccurrence] == newId)
  {
    assert newId !in s.t.errors;
    var r := s.tasks[task].r;
    var found := Find(s.t, r.project, Mark(hash, r));
    assert found == {} <==> forall e :: e in s.t.errors && s.t.errors[e].project == r.project ==> s.t.errors[e].fingerprint != Mark(hash, r) by {
      if e :| e in found {
        assert s.t.errors[e].fingerprint == Mark(hash, r);
      } else {
        forall e | e in s.t.errors && s.t.errors[e].project == r.project ensures s.t.errors[e].fingerprint != Mark(hash, r) {
          assert e !in found;
        }
      }
    }
  }

  /** A request that arrives, looks and writes with nothing in between does what the atomic `upsert_error` does. */
  lemma LookThenWriteIsAtomic(hash: Hash, s: State, task: Id, r: Report, newId: Id, newOccurrence: Id)
    requires task !in s.tasks && newId !in s.used
    ensures var s' := Exec(hash, s, [Arrive(task, r), Look(task), Write(task, newId, newOccurrence)]);
      task in s'.tasks &&
      match Upsert(hash, s.t, r, newId, newOccurrence)
      case None => s'.t == s.t && s'.tasks[task] == Over(false)
      case Some(t) => s'.t == t && s'.tasks[task] == Over(true)
  {
    var s1 := Next(hash, s, Arrive(task, r));
    var s2 := Next(hash, s1, Look(task));
    var rest := [Look(task), Write(task, newId, newOccurrence)];
    assert ([Arrive(task, r)] + rest)[1..] == rest && rest[1..] == [Write(task, newId, newOccurrence)];
    assert [Arrive(task, r), Look(task), Write(task, newId, newOccurrence)] == [Arrive(task, r)] + rest;
    assert rest[1..][1..] == [];
    assert Exec(hash, s2, rest[1..]) == Next(hash, s2, Write(task, newId, newOccurrence));
    assert Exec(hash, s1, rest) == Exec(hash, s2, rest[1..]);
  }

  /** Creating a project adds it; deleting one deletes its errors and their occurrences; and both leave every other
      row alone. */
  lemma DeletionExactly(hash: Hash, s: State, project: Id)
    ensures Next(hash, s, CreateProject(project)).t == s.t.(projects := s.t.projects + {project})
    ensures var t, t' := s.t, Next(hash, s, DeleteProject(project)).t;
      && t'.projects == t.projects - {project}
      && (forall e :: e in t'.errors <==> e in t.errors && t.errors[e].project != project)
      && (forall e :: e in t'.errors ==> t'.errors[e] == t.errors[e])
      && (forall o :: o in t'.occurrences <==> o in t.occurrences && t.occurrences[o] in t'.errors)
      && (forall o :: o in t'.occurrences ==> t'.occurrences[o] == t.occurrences[o])
  {
  }

  // ----- A lost update -----

  lemma TwoWritersLoseOne(hash: Hash, s: State, a: Id, b: Id, e: Id, n: int, new1: Id, new2: Id, o1: Id, o2: Id)
    requires Bounded(s.t) && e in s.t.errors && Exact(s.t, e) && s.t.errors[e].count == n
    requires a != b && a in s.tasks && b in s.tasks && s.tasks[a].Waiting? && s.tasks[b].Waiting?
    requires s.tasks[a].r == s.tasks[b].r
    requires s.tasks[a].r.project == s.t.errors[e].project && Mark(hash, s.tasks[a].r) == s.t.errors[e].fingerprint
    requires new1 !in s.used && new2 !in s.used && new1 != new2
    requires o1 !in s.t.occurrences && o2 !in s.t.occurrences && o1 != o2
    ensures var t' := Next(hash, Next(hash, Next(hash, Next(hash, s, Look(a)), Look(b)), Write(a, new1, o1)), Write(b, new2, o2)).t;
      e in t'.errors && t'.errors[e].count == n + 1 && |OccurrencesOf(t', e)| == n + 2
  {
    var s2 := Next(hash, Next(hash, s, Look(a)), Look(b));
    SeenIs(hash, s.t, s.tasks[a].r);
    assert SameKey(s.t.errors[e], s.t.errors[e]);
    match See(hash, s.t, s.tasks[a].r) {
      case Found(d, _) => assert SameKey(s.t.errors[d], s.t.errors[e]);
      case Missing => assert false;
      case Several => assert false;
    }
    assert s2.t == s.t && s2.tasks[a].seen == Found(e, n) == s2.tasks[b].seen;
    var s3 := Next(hash, s2, Write(a, new1, o1));
    OneMoreOccurrence(s2.t, s3.t, o1, e);
    assert s3.tasks[b] == s2.tasks[b] && s3.t.errors[e].count == n + 1;
    OneMoreOccurrence(s3.t, Next(hash, s3, Write(b, new2, o2)).t, o2, e);
  }
}
