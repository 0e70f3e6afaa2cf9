/**
 * Error ingestion. The tables of errors and occurrences are an index of the log of reports: exactly so when
 * each request is one atomic step, and up to lost increments when reads and writes interleave.
 */
module Ingestion {
  import opened Wrappers
  import Fingerprint
  import Sets

  type Id = nat
  type Hash = string -> string

  datatype Report = Report(project: Id, errorClass: string, message: string, trace: Option<string>)

  function Mark(hash: Hash, r: Report): string {
    Fingerprint.Compute(hash, r.errorClass, r.message, r.trace)
  }

  datatype Row = Row(project: Id, errorClass: string, message: string, trace: Option<string>, fingerprint: string,
                     count: int)

  /** Occurrences refer to the error they are an occurrence of. */
  datatype Tables = Tables(projects: set<Id>, errors: map<Id, Row>, occurrences: map<Id, Id>)

  function Find(t: Tables, project: Id, fingerprint: string): set<Id> {
    set e | e in t.errors && t.errors[e].project == project && t.errors[e].fingerprint == fingerprint
  }

  /** What the query at the start of `upsert_error` finds; with several rows it raises. */
  datatype Seen = Missing | Found(error: Id, count: int) | Several

  ghost function See(hash: Hash, t: Tables, r: Report): Seen {
    var found := Find(t, r.project, Mark(hash, r));
    if |found| > 1 then Several
    else if found == {} then Missing
    else
      var e :| e in found;
      Found(e, t.errors[e].count)
  }

  /** The rest of `upsert_error`; None when the database refuses a row. An update of a deleted row fails. */
  function Commit(hash: Hash, t: Tables, r: Report, seen: Seen, newId: Id, newOccurrence: Id): Option<Tables> {
    if newOccurrence in t.occurrences then None
    else match seen
      case Several => None
      case Found(e, n) =>
        if e !in t.errors then None
        else Some(t.(errors := t.errors[e := t.errors[e].(count := n + 1)],
                     occurrences := t.occurrences[newOccurrence := e]))
      case Missing =>
        if newId in t.errors || r.project !in t.projects || Find(t, r.project, Mark(hash, r)) != {} then None
        else Some(t.(errors := t.errors[newId := Row(r.project, r.errorClass, r.message, r.trace, Mark(hash, r), 1)],
                     occurrences := t.occurrences[newOccurrence := newId]))
  }

  ghost function Upsert(hash: Hash, t: Tables, r: Report, newId: Id, newOccurrence: Id): Option<Tables> {
    Commit(hash, t, r, See(hash, t, r), newId, newOccurrence)
  }

  class Store {
    var projects: set<Id>
    var errors: map<Id, Row>
    var occurrences: map<Id, Id>

    function Contents(): Tables
      reads this
    {
      Tables(projects, errors, occurrences)
    }

    /** `upsert_error` with nothing in between; when it raises, the transaction is rolled back. */
    method UpsertError(hash: Hash, r: Report, newId: Id, newOccurrence: Id) returns (raised: bool)
      modifies `errors, `occurrences
      ensures match Upsert(hash, old(Contents()), r, newId, newOccurrence)
              case None => raised && Contents() == old(Contents())
              case Some(t) => !raised && Contents() == t
    {
      var fingerprint := Mark(hash, r);
      var found := set e | e in errors && errors[e].project == r.project && errors[e].fingerprint == fingerprint;
      assert found == Find(Contents(), r.project, fingerprint);
      if |found| > 1 { return true; }
      var error := newId;
      var saved := errors;
      if |found| == 1 {
        error :| error in found;
        Sets.OnlyElement(found, error);
        errors := errors[error := errors[error].(count := errors[error].count + 1)];
      } else {
        if newId in errors || r.project !in projects { return true; }
        errors := errors[newId := Row(r.project, r.errorClass, r.message, r.trace, fingerprint, 1)];
      }
      if newOccurrence in occurrences {
        errors := saved;
        return true;
      }
      occurrences := occurrences[newOccurrence := error];
      return false;
    }
  }

  // ----- The tables as an index -----

  function OccurrencesOf(t: Tables, e: Id): set<Id> {
    set o | o in t.occurrences && t.occurrences[o] == e
  }

  predicate SameKey(a: Row, b: Row) {
    a.project == b.project && a.fingerprint == b.fingerprint
  }

  /** Rows are unique per project and fingerprint, every count is at least one and at most the number of
      occurrences, and occurrences belong to errors. */
  ghost predicate Bounded(t: Tables) {
    && (forall d, e :: d in t.errors && e in t.errors && SameKey(t.errors[d], t.errors[e]) ==> d == e)
    && (forall e :: e in t.errors ==> 1 <= t.errors[e].count <= |OccurrencesOf(t, e)|)
    && (forall o :: o in t.occurrences ==> t.occurrences[o] in t.errors)
  }

  /** The query cannot meet several rows, and finds the row of the report if there is one. */
  lemma SeenIs(hash: Hash, t: Tables, r: Report)
    requires Bounded(t)
    ensures match See(hash, t, r)
            case Several => false
            case Missing => forall e :: e in t.errors && t.errors[e].project == r.project ==> t.errors[e].fingerprint != Mark(hash, r)
            case Found(e, n) => e in t.errors && t.errors[e].project == r.project && t.errors[e].fingerprint == Mark(hash, r)
                                && t.errors[e].count == n
  {
    var found := Find(t, r.project, Mark(hash, r));
    if e :| e in found {
      assert found == {e};
    } else {
      forall e | e in t.errors && t.errors[e].project == r.project ensures t.errors[e].fingerprint != Mark(hash, r) {
        assert e !in found;
      }
    }
  }

  lemma OneMoreOccurrence(t: Tables, t': Tables, o: Id, e: Id)
    requires o !in t.occurrences && t'.occurrences == t.occurrences[o := e]
    ensures |OccurrencesOf(t', e)| == |OccurrencesOf(t, e)| + 1
    ensures forall d :: d != e ==> OccurrencesOf(t', d) == OccurrencesOf(t, d)
  {
    assert OccurrencesOf(t', e) == OccurrencesOf(t, e) + {o};
  }

  lemma NoOccurrencesOfNobody(t: Tables, e: Id)
    requires Bounded(t) && e !in t.errors
    ensures OccurrencesOf(t, e) == {}
  {
  }

  /** A commit by someone who saw a count no larger than the number of occurrences keeps the bounds. */
  lemma CommitKeepsBounds(hash: Hash, t: Tables, r: Report, seen: Seen, newId: Id, newOccurrence: Id)
    requires Bounded(t)
    requires seen.Found? && seen.error in t.errors ==> 1 <= seen.count <= |OccurrencesOf(t, seen.error)|
    ensures var done := Commit(hash, t, r, seen, newId, newOccurrence);
      done.Some? ==> Bounded(done.value)
  {
    var done := Commit(hash, t, r, seen, newId, newOccurrence);
    if done.Some? {
      var e := if seen.Found? then seen.error else newId;
      OneMoreOccurrence(t, done.value, newOccurrence, e);
      if seen.Missing? {
        NoOccurrencesOfNobody(t, newId);
        forall d | d in t.errors && t.errors[d].project == r.project ensures t.errors[d].fingerprint != Mark(hash, r) {
          assert d !in Find(t, r.project, Mark(hash, r));
        }
      }
    }
  }

  /** A report of an existing project with unused ids is always accepted: its row is counted up, or inserted with
      count one when there is none. */
  lemma FreshReportsCommit(hash: Hash, t: Tables, r: Report, newId: Id, newOccurrence: Id)
    requires Bounded(t) && r.project in t.projects && newId !in t.errors && newOccurrence !in t.occurrences
    ensures Upsert(hash, t, r, newId, newOccurrence).Some?
    ensures var t' := Upsert(hash, t, r, newId, newOccurrence).value;
      && newOccurrence in t'.occurrences && t'.occurrences == t.occurrences[newOccurrence := t'.occurrences[newOccurrence]]
      && t'.projects == t.projects
      && var e := t'.occurrences[newOccurrence];
         if e in t.errors
         then t'.errors == t.errors[e := t.errors[e].(count := t.errors[e].count + 1)]
              && t.errors[e].project == r.project && t.errors[e].fingerprint == Mark(hash, r)
         else e == newId
              && t'.errors == t.errors[e := Row(r.project, r.errorClass, r.message, r.trace, Mark(hash, r), 1)]
              && forall d :: d in t.errors && t.errors[d].project == r.project ==> t.errors[d].fingerprint != Mark(hash, r)
  {
    SeenIs(hash, t, r);
    NobodyFound(hash, t, r);
  }

  lemma NobodyFound(hash: Hash, t: Tables, r: Report)
    requires Bounded(t)
    ensures See(hash, t, r) == Missing <==> Find(t, r.project, Mark(hash, r)) == {}
  {
    SeenIs(hash, t, r);
    if See(hash, t, r) == Missing {
      assert forall e :: e !in Find(t, r.project, Mark(hash, r));
    }
  }
}
