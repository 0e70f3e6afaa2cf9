/** With each request one atomic step, the error table refines the log of reports. */
module IngestionLog {
  import opened Wrappers
  import opened Ingestion
  import Fingerprint

  /** The tables, and the reports whose transactions committed, in that order. */
  datatype State = State(t: Tables, log: seq<Report>)

  datatype Arrival = Arrival(r: Report, newId: Id, newOccurrence: Id)

  ghost function Ingest(hash: Hash, s: State, a: Arrival): State {
    match Upsert(hash, s.t, a.r, a.newId, a.newOccurrence)
    case None => s
    case Some(t) => State(t, s.log + [a.r])
  }

  ghost function Run(hash: Hash, projects: set<Id>, arrivals: seq<Arrival>): State
    decreases |arrivals|
  {
    if arrivals == [] then State(Tables(projects, map[], map[]), [])
    else Ingest(hash, Run(hash, projects, arrivals[..|arrivals| - 1]), arrivals[|arrivals| - 1])
  }

  // ----- The log -----

  predicate Matches(hash: Hash, r: Report, row: Row) {
    r.project == row.project && Mark(hash, r) == row.fingerprint
  }

  function Count(hash: Hash, log: seq<Report>, row: Row): nat {
    if log == [] then 0
    else Count(hash, log[..|log| - 1], row) + if Matches(hash, log[|log| - 1], row) then 1 else 0
  }

  /** Report i is the first that matches the row, and the row carries its class, message and trace. */
  ghost predicate IsFirst(hash: Hash, log: seq<Report>, row: Row, i: int) {
    && 0 <= i < |log| && Matches(hash, log[i], row)
    && (forall j :: 0 <= j < i ==> !Matches(hash, log[j], row))
    && row.errorClass == log[i].errorClass && row.message == log[i].message && row.trace == log[i].trace
  }

  ghost predicate FromFirst(hash: Hash, log: seq<Report>, row: Row) {
    exists i :: IsFirst(hash, log, row, i)
  }

  lemma {:induction false} CountZero(hash: Hash, log: seq<Report>, row: Row)
    ensures Count(hash, log, row) == 0 <==> forall r :: r in log ==> !Matches(hash, r, row)
  {
    if log != [] {
      CountZero(hash, log[..|log| - 1], row);
      assert forall r :: r in log <==> r in log[..|log| - 1] || r == log[|log| - 1];
    }
  }

  lemma {:induction false} CountSameKey(hash: Hash, log: seq<Report>, a: Row, b: Row)
    requires SameKey(a, b)
    ensures Count(hash, log, a) == Count(hash, log, b)
  {
    if log != [] {
      CountSameKey(hash, log[..|log| - 1], a, b);
    }
  }

  lemma CountAppend(hash: Hash, log: seq<Report>, r: Report, row: Row)
    ensures Count(hash, log + [r], row) == Count(hash, log, row) + if Matches(hash, r, row) then 1 else 0
  {
    assert (log + [r])[..|log|] == log;
  }

  // ----- Refinement -----

  /** One row for each project and fingerprint that was reported; its count is the number of matching reports
      and of its occurrences, and its text is that of the first of them. */
  ghost predicate RowAgrees(hash: Hash, t: Tables, log: seq<Report>, e: Id)
    requires e in t.errors
  {
    && t.errors[e].count == Count(hash, log, t.errors[e]) == |OccurrencesOf(t, e)|
    && FromFirst(hash, log, t.errors[e])
  }

  ghost predicate Covered(hash: Hash, t: Tables, r: Report) {
    exists e :: e in t.errors && Matches(hash, r, t.errors[e])
  }

  ghost predicate Refines(hash: Hash, s: State) {
    && Bounded(s.t)
    && (forall e :: e in s.t.errors ==> RowAgrees(hash, s.t, s.log, e))
    && (forall r :: r in s.log ==> Covered(hash, s.t, r))
  }

  lemma FirstStays(hash: Hash, log: seq<Report>, r: Report, before: Row, after: Row)
    requires FromFirst(hash, log, before) && after == before.(count := after.count)
    ensures FromFirst(hash, log + [r], after)
  {
    var i :| IsFirst(hash, log, before, i);
    assert (log + [r])[i] == log[i];
    assert IsFirst(hash, log + [r], after, i);
  }

  /** One more report: a row keeps agreeing when its count and its occurrences grow exactly if it matches. */
  lemma RowKeepsAgreeing(hash: Hash, t: Tables, t': Tables, log: seq<Report>, r: Report, d: Id)
    requires d in t.errors && d in t'.errors && RowAgrees(hash, t, log, d)
    requires var more := if Matches(hash, r, t.errors[d]) then 1 else 0;
      && t'.errors[d] == t.errors[d].(count := t.errors[d].count + more)
      && |OccurrencesOf(t', d)| == |OccurrencesOf(t, d)| + more
    ensures RowAgrees(hash, t', log + [r], d)
  {
    FirstStays(hash, log, r, t.errors[d], t'.errors[d]);
    CountAppend(hash, log, r, t'.errors[d]);
    CountSameKey(hash, log, t.errors[d], t'.errors[d]);
  }

  lemma NewRowAgrees(hash: Hash, t': Tables, log: seq<Report>, r: Report, d: Id)
    requires d in t'.errors && |OccurrencesOf(t', d)| == 1
    requires t'.errors[d] == Row(r.project, r.errorClass, r.message, r.trace, Mark(hash, r), 1)
    requires forall q :: q in log ==> !Matches(hash, q, t'.errors[d])
    ensures RowAgrees(hash, t', log + [r], d)
  {
    CountAppend(hash, log, r, t'.errors[d]);
    CountZero(hash, log, t'.errors[d]);
    assert forall j :: 0 <= j < |log| ==> (log + [r])[j] in log;
    assert IsFirst(hash, log + [r], t'.errors[d], |log|);
  }

  lemma StaysCovered(hash: Hash, t: Tables, t': Tables, log: seq<Report>, r: Report)
    requires forall q :: q in log ==> Covered(hash, t, q)
    requires forall e :: e in t.errors ==> e in t'.errors && SameKey(t.errors[e], t'.errors[e])
    requires Covered(hash, t', r)
    ensures forall q :: q in log + [r] ==> Covered(hash, t', q)
  {
    forall q | q in log ensures Covered(hash, t', q) {
      assert Covered(hash, t, q);
      var d :| d in t.errors && Matches(hash, q, t.errors[d]);
      assert Matches(hash, q, t'.errors[d]);
    }
  }

  lemma DuplicateRowAgrees(hash: Hash, t: Tables, log: seq<Report>, r: Report, e: Id, o: Id, d: Id)
    requires Bounded(t) && e in t.errors && Matches(hash, r, t.errors[e]) && o !in t.occurrences
    requires d in t.errors && RowAgrees(hash, t, log, d)
    ensures RowAgrees(hash, Again(t, e, o), log + [r], d)
  {
    OneMoreOccurrence(t, Again(t, e, o), o, e);
    assert Matches(hash, r, t.errors[d]) ==> SameKey(t.errors[d], t.errors[e]);
    RowKeepsAgreeing(hash, t, Again(t, e, o), log, r, d);
  }

  lemma DuplicateKeepsRows(hash: Hash, t: Tables, log: seq<Report>, r: Report, e: Id, o: Id)
    requires Refines(hash, State(t, log)) && e in t.errors && Matches(hash, r, t.errors[e]) && o !in t.occurrences
    ensures var t' := Again(t, e, o);
      && (forall d :: d in t'.errors ==> RowAgrees(hash, t', log + [r], d))
      && (forall q :: q in log + [r] ==> Covered(hash, t', q))
  {
    var t' := Again(t, e, o);
    forall d | d in t'.errors ensures RowAgrees(hash, t', log + [r], d) {
      assert RowAgrees(hash, t, log, d);
      DuplicateRowAgrees(hash, t, log, r, e, o, d);
    }
    assert Matches(hash, r, t'.errors[e]);
    StaysCovered(hash, t, t', log, r);
  }

  lemma NewRowKeepsRows(hash: Hash, t: Tables, log: seq<Report>, r: Report, e: Id, o: Id)
    requires Refines(hash, State(t, log)) && e !in t.errors && o !in t.occurrences
    requires forall d :: d in t.errors ==> !Matches(hash, r, t.errors[d])
    ensures var t' := Added(hash, t, r, e, o);
      && (forall d :: d in t'.errors ==> RowAgrees(hash, t', log + [r], d))
      && (forall q :: q in log + [r] ==> Covered(hash, t', q))
  {
    var row := Row(r.project, r.errorClass, r.message, r.trace, Mark(hash, r), 1);
    var t' := Added(hash, t, r, e, o);
    OneMoreOccurrence(t, t', o, e);
    NoOccurrencesOfNobody(t, e);
    NobodyReported(hash, State(t, log), row);
    NewRowAgrees(hash, t', log, r, e);
    forall d | d in t'.errors && d != e ensures RowAgrees(hash, t', log + [r], d) {
      assert RowAgrees(hash, t, log, d);
      RowKeepsAgreeing(hash, t, t', log, r, d);
    }
    assert Matches(hash, r, t'.errors[e]);
    StaysCovered(hash, t, t', log, r);
  }

  /** No row, no report. */
  lemma NobodyReported(hash: Hash, s: State, row: Row)
    requires Refines(hash, s)
    requires forall e :: e in s.t.errors ==> !SameKey(s.t.errors[e], row)
    ensures forall r :: r in s.log ==> !Matches(hash, r, row)
  {
    forall r | r in s.log ensures !Matches(hash, r, row) {
      assert Covered(hash, s.t, r);
      var e :| e in s.t.errors && Matches(hash, r, s.t.errors[e]);
    }
  }

  function Again(t: Tables, e: Id, o: Id): Tables
    requires e in t.errors
  {
    t.(errors := t.errors[e := t.errors[e].(count := t.errors[e].count + 1)], occurrences := t.occurrences[o := e])
  }

  function Added(hash: Hash, t: Tables, r: Report, e: Id, o: Id): Tables {
    t.(errors := t.errors[e := Row(r.project, r.errorClass, r.message, r.trace, Mark(hash, r), 1)],
       occurrences := t.occurrences[o := e])
  }

  /** An accepted report counts up its row, or inserts it when there is none. */
  lemma UpsertIs(hash: Hash, t: Tables, r: Report, newId: Id, o: Id)
    requires Bounded(t) && Upsert(hash, t, r, newId, o).Some?
    ensures o !in t.occurrences
    ensures match See(hash, t, r)
            case Several => false
            case Found(e, _) => e in t.errors && Matches(hash, r, t.errors[e]) && Upsert(hash, t, r, newId, o).value == Again(t, e, o)
            case Missing => newId !in t.errors && (forall d :: d in t.errors ==> !Matches(hash, r, t.errors[d]))
                            && Upsert(hash, t, r, newId, o).value == Added(hash, t, r, newId, o)
  {
    SeenIs(hash, t, r);
  }

  lemma UpsertKeepsBounds(hash: Hash, t: Tables, r: Report, newId: Id, o: Id)
    requires Bounded(t) && Upsert(hash, t, r, newId, o).Some?
    ensures Bounded(Upsert(hash, t, r, newId, o).value)
  {
    SeenIs(hash, t, r);
    CommitKeepsBounds(hash, t, r, See(hash, t, r), newId, o);
  }

  lemma IngestRefines(hash: Hash, s: State, a: Arrival)
    requires Refines(hash, s)
    ensures Refines(hash, Ingest(hash, s, a))
  {
    var done := Upsert(hash, s.t, a.r, a.newId, a.newOccurrence);
    if done.Some? {
      UpsertIs(hash, s.t, a.r, a.newId, a.newOccurrence);
      UpsertKeepsBounds(hash, s.t, a.r, a.newId, a.newOccurrence);
      if See(hash, s.t, a.r).Found? {
        DuplicateKeepsRows(hash, s.t, s.log, a.r, See(hash, s.t, a.r).error, a.newOccurrence);
      } else {
        NewRowKeepsRows(hash, s.t, s.log, a.r, a.newId, a.newOccurrence);
      }
    }
  }

  lemma {:induction false} RunRefines(hash: Hash, projects: set<Id>, arrivals: seq<Arrival>)
    ensures Refines(hash, Run(hash, projects, arrivals))
    decreases |arrivals|
  {
    if arrivals != [] {
      RunRefines(hash, projects, arrivals[..|arrivals| - 1]);
      IngestRefines(hash, Run(hash, projects, arrivals[..|arrivals| - 1]), arrivals[|arrivals| - 1]);
    }
  }

  // ----- Nothing is lost -----

  /** Every arrival is for one of the projects and draws ids nobody drew before. */
  ghost predicate AllFresh(projects: set<Id>, arrivals: seq<Arrival>) {
    && (forall i :: 0 <= i < |arrivals| ==> arrivals[i].r.project in projects)
    && (forall i, j :: 0 <= i < j < |arrivals| ==>
         arrivals[i].newId != arrivals[j].newId && arrivals[i].newOccurrence != arrivals[j].newOccurrence)
  }

  function ReportsOf(arrivals: seq<Arrival>): seq<Report> {
    seq(|arrivals|, i requires 0 <= i < |arrivals| => arrivals[i].r)
  }

  /** The ids in the tables are ids that were drawn. */
  ghost predicate Drawn(t: Tables, arrivals: seq<Arrival>) {
    && (forall e :: e in t.errors ==> exists i :: 0 <= i < |arrivals| && arrivals[i].newId == e)
    && (forall o :: o in t.occurrences ==> exists i :: 0 <= i < |arrivals| && arrivals[i].newOccurrence == o)
  }

  lemma DrawnNext(t: Tables, t': Tables, arrivals: seq<Arrival>, a: Arrival)
    requires Drawn(t, arrivals)
    requires forall e :: e in t'.errors ==> e in t.errors || e == a.newId
    requires forall o :: o in t'.occurrences ==> o in t.occurrences || o == a.newOccurrence
    ensures Drawn(t', arrivals + [a])
  {
    var all := arrivals + [a];
    assert all[|arrivals|] == a;
    forall e | e in t'.errors ensures exists i :: 0 <= i < |all| && all[i].newId == e {
      if e in t.errors {
        var i :| 0 <= i < |arrivals| && arrivals[i].newId == e;
        assert all[i].newId == e;
      }
    }
    forall o | o in t'.occurrences ensures exists i :: 0 <= i < |all| && all[i].newOccurrence == o {
      if o in t.occurrences {
        var i :| 0 <= i < |arrivals| && arrivals[i].newOccurrence == o;
        assert all[i].newOccurrence == o;
      }
    }
  }

  lemma UndrawnAreUnused(t: Tables, projects: set<Id>, pre: seq<Arrival>, a: Arrival)
    requires Drawn(t, pre) && AllFresh(projects, pre + [a])
    ensures a.newId !in t.errors && a.newOccurrence !in t.occurrences
  {
    assert (pre + [a])[|pre|] == a && forall i :: 0 <= i < |pre| ==> (pre + [a])[i] == pre[i];
  }

  lemma FreshPrefix(projects: set<Id>, pre: seq<Arrival>, a: Arrival)
    requires AllFresh(projects, pre + [a])
    ensures AllFresh(projects, pre) && a.r.project in projects
  {
    assert (pre + [a])[|pre|] == a && forall i :: 0 <= i < |pre| ==> (pre + [a])[i] == pre[i];
  }

  lemma FreshCommitDraws(hash: Hash, t: Tables, a: Arrival)
    requires Bounded(t) && a.r.project in t.projects && a.newId !in t.errors && a.newOccurrence !in t.occurrences
    ensures Upsert(hash, t, a.r, a.newId, a.newOccurrence).Some?
    ensures var t' := Upsert(hash, t, a.r, a.newId, a.newOccurrence).value;
      && t'.projects == t.projects
      && (forall e :: e in t'.errors ==> e in t.errors || e == a.newId)
      && (forall o :: o in t'.occurrences ==> o in t.occurrences || o == a.newOccurrence)
  {
    FreshReportsCommit(hash, t, a.r, a.newId, a.newOccurrence);
  }

  lemma IngestAccepts(hash: Hash, projects: set<Id>, s: State, pre: seq<Arrival>, a: Arrival)
    requires Bounded(s.t) && Drawn(s.t, pre) && s.t.projects == projects && AllFresh(projects, pre + [a])
    ensures var s' := Ingest(hash, s, a);
      s'.log == s.log + [a.r] && s'.t.projects == projects && Drawn(s'.t, pre + [a])
  {
    FreshPrefix(projects, pre, a);
    UndrawnAreUnused(s.t, projects, pre, a);
    FreshCommitDraws(hash, s.t, a);
    DrawnNext(s.t, Upsert(hash, s.t, a.r, a.newId, a.newOccurrence).value, pre, a);
  }

  lemma {:induction false} RunAcceptsAll(hash: Hash, projects: set<Id>, arrivals: seq<Arrival>)
    requires AllFresh(projects, arrivals)
    ensures var s := Run(hash, projects, arrivals);
      s.log == ReportsOf(arrivals) && s.t.projects == projects && Drawn(s.t, arrivals)
    decreases |arrivals|
  {
    if arrivals != [] {
      var pre, a := arrivals[..|arrivals| - 1], arrivals[|arrivals| - 1];
      assert arrivals == pre + [a];
      FreshPrefix(projects, pre, a);
      RunAcceptsAll(hash, projects, pre);
      RunRefines(hash, projects, pre);
      IngestAccepts(hash, projects, Run(hash, projects, pre), pre, a);
      assert ReportsOf(arrivals) == ReportsOf(pre) + [a.r];
    }
  }

  /** When every report is for an existing project and draws unused ids, the log is the sequence of all reports, and
      each of them has its row. */
  lemma EveryReportIsCounted(hash: Hash, projects: set<Id>, arrivals: seq<Arrival>)
    requires AllFresh(projects, arrivals)
    ensures var s := Run(hash, projects, arrivals);
      && s.log == ReportsOf(arrivals)
      && (forall i :: 0 <= i < |arrivals| ==> Covered(hash, s.t, arrivals[i].r))
      && Total(s.t.errors) == |arrivals|
  {
    RunAcceptsAll(hash, projects, arrivals);
    RunRefines(hash, projects, arrivals);
    CountsAddUp(hash, projects, arrivals);
    var s := Run(hash, projects, arrivals);
    forall i | 0 <= i < |arrivals| ensures Covered(hash, s.t, arrivals[i].r) {
      assert s.log[i] == arrivals[i].r && s.log[i] in s.log;
    }
  }

  // ----- Totals -----

  ghost function Total(errors: map<Id, Row>): int
    decreases |errors|
  {
    if errors == map[] then 0
    else
      var e :| e in errors;
      errors[e].count + Total(errors - {e})
  }

  /** The total does not depend on the order of adding up. */
  lemma {:induction false} TotalWithout(errors: map<Id, Row>, e: Id)
    requires e in errors
    ensures Total(errors) == errors[e].count + Total(errors - {e})
    decreases |errors|
  {
    var d :| d in errors && Total(errors) == errors[d].count + Total(errors - {d});
    if d != e {
      TotalWithout(errors - {d}, e);
      TotalWithout(errors - {e}, d);
      assert errors - {d} - {e} == errors - {e} - {d};
    }
  }

  lemma AgainAddsOne(t: Tables, e: Id, o: Id)
    requires e in t.errors
    ensures Total(Again(t, e, o).errors) == Total(t.errors) + 1
  {
    TotalWithout(Again(t, e, o).errors, e);
    TotalWithout(t.errors, e);
    assert Again(t, e, o).errors - {e} == t.errors - {e};
  }

  lemma AddedAddsOne(hash: Hash, t: Tables, r: Report, e: Id, o: Id)
    requires e !in t.errors
    ensures Total(Added(hash, t, r, e, o).errors) == Total(t.errors) + 1
  {
    TotalWithout(Added(hash, t, r, e, o).errors, e);
    assert Added(hash, t, r, e, o).errors - {e} == t.errors;
  }

  lemma CommitAddsOne(hash: Hash, t: Tables, r: Report, newId: Id, newOccurrence: Id)
    requires Bounded(t) && Upsert(hash, t, r, newId, newOccurrence).Some?
    ensures Total(Upsert(hash, t, r, newId, newOccurrence).value.errors) == Total(t.errors) + 1
  {
    UpsertIs(hash, t, r, newId, newOccurrence);
    if See(hash, t, r).Found? {
      AgainAddsOne(t, See(hash, t, r).error, newOccurrence);
    } else {
      AddedAddsOne(hash, t, r, newId, newOccurrence);
    }
  }

  /** The counts of all errors add up to the number of reports accepted. */
  lemma {:induction false} CountsAddUp(hash: Hash, projects: set<Id>, arrivals: seq<Arrival>)
    ensures var s := Run(hash, projects, arrivals); Total(s.t.errors) == |s.log|
    decreases |arrivals|
  {
    if arrivals != [] {
      var s, a := Run(hash, projects, arrivals[..|arrivals| - 1]), arrivals[|arrivals| - 1];
      CountsAddUp(hash, projects, arrivals[..|arrivals| - 1]);
      RunRefines(hash, projects, arrivals[..|arrivals| - 1]);
      if Upsert(hash, s.t, a.r, a.newId, a.newOccurrence).Some? {
        CommitAddsOne(hash, s.t, a.r, a.newId, a.newOccurrence);
      }
    }
  }

  // ----- With a collision-free hash -----

  predicate SameError(r: Report, project: Id, parts: Fingerprint.Parts) {
    r.project == project && Fingerprint.PartsOf(r.errorClass, r.message, r.trace) == parts
  }

  function CountSame(log: seq<Report>, project: Id, parts: Fingerprint.Parts): nat {
    if log == [] then 0
    else CountSame(log[..|log| - 1], project, parts) + if SameError(log[|log| - 1], project, parts) then 1 else 0
  }

  lemma {:induction false} CountIsCountSame(hash: Hash, log: seq<Report>, row: Row, like: Report)
    requires Fingerprint.CollisionFree(hash) && Matches(hash, like, row) && '\n' !in like.errorClass
    requires forall r :: r in log ==> '\n' !in r.errorClass
    ensures Count(hash, log, row)
         == CountSame(log, row.project, Fingerprint.PartsOf(like.errorClass, like.message, like.trace))
  {
    if log != [] {
      var last := log[|log| - 1];
      CountIsCountSame(hash, log[..|log| - 1], row, like);
      Fingerprint.SameFingerprintExactlyWhen(hash, last.errorClass, last.message, last.trace,
                                             like.errorClass, like.message, like.trace);
    }
  }

  /** When classes have no newline and the hash no collisions, a row counts exactly the reports of its project
      with its class, its message and the first line of its stripped trace. */
  lemma CountsWhatItShows(hash: Hash, projects: set<Id>, arrivals: seq<Arrival>, e: Id)
    requires Fingerprint.CollisionFree(hash)
    requires var s := Run(hash, projects, arrivals);
      e in s.t.errors && forall r :: r in s.log ==> '\n' !in r.errorClass
    ensures var s := Run(hash, projects, arrivals);
      var row := s.t.errors[e];
      row.count == CountSame(s.log, row.project, Fingerprint.PartsOf(row.errorClass, row.message, row.trace))
  {
    RunRefines(hash, projects, arrivals);
    var s := Run(hash, projects, arrivals);
    assert RowAgrees(hash, s.t, s.log, e);
    RowCounts(hash, s.log, s.t.errors[e]);
  }

  lemma RowCounts(hash: Hash, log: seq<Report>, row: Row)
    requires Fingerprint.CollisionFree(hash) && FromFirst(hash, log, row)
    requires forall r :: r in log ==> '\n' !in r.errorClass
    ensures Count(hash, log, row)
         == CountSame(log, row.project, Fingerprint.PartsOf(row.errorClass, row.message, row.trace))
  {
    var i :| IsFirst(hash, log, row, i);
    CountIsCountSame(hash, log, row, log[i]);
  }
}
