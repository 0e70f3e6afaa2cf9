/** The status shown beside each error: one query for the whole page against one query for each error. */
module FixStatus {
  import opened Wrappers
  import opened FixModel

  datatype Row = Row(error: Id, status: AttemptStatus, createdAt: Time)

  type Table = map<Id, Row>

  /** A possible answer to "attempts at these errors, latest first": rows of one time come in any order. */
  ghost predicate Listing(table: Table, errors: set<Id>, rows: seq<Id>) {
    && (forall a :: a in rows <==> a in table && table[a].error in errors)
    && (forall i, j :: 0 <= i < j < |rows| ==> rows[i] != rows[j])
    && (forall i, j :: 0 <= i < j < |rows| && rows[i] in table && rows[j] in table ==>
         table[rows[i]].createdAt >= table[rows[j]].createdAt)
  }

  predicate Known(table: Table, rows: seq<Id>) {
    forall a :: a in rows ==> a in table
  }

  /** The head of `get_fix_attempts_for_error`. */
  function HeadStatus(table: Table, rows: seq<Id>): Option<AttemptStatus>
    requires Known(table, rows)
  {
    if rows == [] then None else Some(table[rows[0]].status)
  }

  function FirstStatus(table: Table, rows: seq<Id>, e: Id): Option<AttemptStatus>
    requires Known(table, rows)
  {
    if rows == [] then None
    else if table[rows[0]].error == e then Some(table[rows[0]].status)
    else FirstStatus(table, rows[1..], e)
  }

  lemma {:induction false} FirstStatusAppend(table: Table, rows: seq<Id>, a: Id, e: Id)
    requires Known(table, rows + [a])
    ensures Known(table, rows) && a in table
    ensures FirstStatus(table, rows + [a], e)
         == if FirstStatus(table, rows, e).Some? || table[a].error != e then FirstStatus(table, rows, e)
            else Some(table[a].status)
  {
    assert forall b :: b in rows ==> b in rows + [a];
    assert a in rows + [a];
    if rows == [] {
      assert rows + [a] == [a];
    } else {
      assert (rows + [a])[1..] == rows[1..] + [a];
      FirstStatusAppend(table, rows[1..], a, e);
    }
  }

  /** `get_fix_attempt_status_for_errors`, given the rows of its query. */
  method StatusForErrors(table: Table, errorIds: seq<Id>, rows: seq<Id>) returns (statuses: map<Id, Option<AttemptStatus>>)
    requires forall a :: a in rows ==> a in table && table[a].error in errorIds
    ensures statuses.Keys == set e | e in errorIds
    ensures forall e :: e in errorIds ==> statuses[e] == FirstStatus(table, rows, e)
  {
    if errorIds == [] { return map[]; }
    statuses := map e | e in errorIds :: None;
    for i := 0 to |rows|
      invariant statuses.Keys == set e | e in errorIds
      invariant Known(table, rows[..i])
      invariant forall e :: e in errorIds ==> statuses[e] == FirstStatus(table, rows[..i], e)
    {
      var attempt := rows[i];
      assert rows[..i + 1] == rows[..i] + [attempt];
      forall e | e in errorIds
        ensures Known(table, rows[..i + 1])
        ensures FirstStatus(table, rows[..i + 1], e)
             == if FirstStatus(table, rows[..i], e).Some? || table[attempt].error != e
                then FirstStatus(table, rows[..i], e) else Some(table[attempt].status)
      {
        FirstStatusAppend(table, rows[..i], attempt, e);
      }
      if statuses[table[attempt].error] == None {
        statuses := statuses[table[attempt].error := Some(table[attempt].status)];
      }
    }
    assert rows[..|rows|] == rows;
  }

  // ----- Against the naive lookup -----

  /** An attempt at the error that no other attempt at it is later than. */
  ghost predicate Latest(table: Table, e: Id, a: Id) {
    && a in table && table[a].error == e
    && forall b :: b in table && table[b].error == e ==> table[b].createdAt <= table[a].createdAt
  }

  /** The first row for an error, wherever it is in a listing, is a latest one. */
  lemma {:induction false} FirstIsLatest(table: Table, rows: seq<Id>, e: Id) returns (a: Id)
    requires Known(table, rows) && exists b :: b in rows && table[b].error == e
    requires forall i, j :: 0 <= i < j < |rows| ==> table[rows[i]].createdAt >= table[rows[j]].createdAt
    ensures a in rows && table[a].error == e && FirstStatus(table, rows, e) == Some(table[a].status)
    ensures forall b :: b in rows && table[b].error == e ==> table[b].createdAt <= table[a].createdAt
  {
    if table[rows[0]].error == e {
      a := rows[0];
    } else {
      a := FirstIsLatest(table, rows[1..], e);
    }
  }

  lemma {:induction false} NoFirst(table: Table, rows: seq<Id>, e: Id)
    requires Known(table, rows) && forall b :: b in rows ==> table[b].error != e
    ensures FirstStatus(table, rows, e) == None
  {
    if rows != [] {
      NoFirst(table, rows[1..], e);
    }
  }

  ghost predicate OneLatestStatus(table: Table, e: Id) {
    forall a, b :: Latest(table, e, a) && Latest(table, e, b) ==> table[a].status == table[b].status
  }

  /** When all latest attempts have one status, the batch gives what the naive lookup gives. */
  lemma BatchAgrees(table: Table, errors: set<Id>, rows: seq<Id>, e: Id, one: seq<Id>)
    requires e in errors && Listing(table, errors, rows) && Listing(table, {e}, one) && OneLatestStatus(table, e)
    ensures FirstStatus(table, rows, e) == HeadStatus(table, one)
  {
    if b :| b in one {
      assert b in rows && table[b].error == e;
      var a := FirstIsLatest(table, rows, e);
      assert Latest(table, e, a);
      assert one[0] in one && Latest(table, e, one[0]);
    } else {
      forall b | b in rows ensures table[b].error != e {
        assert b !in one;
      }
      NoFirst(table, rows, e);
    }
  }

  /** What the batch shows for an error is the status of a latest attempt, or None when there is no attempt. */
  lemma BatchShowsALatest(table: Table, errors: set<Id>, rows: seq<Id>, e: Id)
    requires e in errors && Listing(table, errors, rows)
    ensures match FirstStatus(table, rows, e)
            case None => forall a :: a in table ==> table[a].error != e
            case Some(status) => exists a :: Latest(table, e, a) && table[a].status == status
  {
    if b :| b in rows && table[b].error == e {
      var a := FirstIsLatest(table, rows, e);
      assert Latest(table, e, a);
    } else {
      NoFirst(table, rows, e);
    }
  }

  // ----- Every choice among the latest is possible -----

  /** The rows sorted, with `first` before the others of its time. */
  lemma {:induction false} Sorted(table: Table, ids: set<Id>, first: Id) returns (rows: seq<Id>)
    requires forall a :: a in ids ==> a in table
    ensures forall a :: a in rows <==> a in ids
    ensures forall i, j :: 0 <= i < j < |rows| ==> rows[i] != rows[j]
    ensures forall i, j :: 0 <= i < j < |rows| ==> table[rows[i]].createdAt >= table[rows[j]].createdAt
    ensures forall i, j :: 0 <= i < j < |rows| && rows[j] == first ==> table[rows[i]].createdAt > table[first].createdAt
    decreases |ids|
  {
    if ids == {} {
      rows := [];
    } else {
      var a := Maximum(table, ids, first);
      var rest := Sorted(table, ids - {a}, first);
      rows := [a] + rest;
      assert forall j :: 0 < j < |rows| ==> rows[j] in rest;
    }
  }

  lemma {:induction false} Maximum(table: Table, ids: set<Id>, first: Id) returns (a: Id)
    requires ids != {} && forall a :: a in ids ==> a in table
    ensures a in ids && forall b :: b in ids ==> table[b].createdAt <= table[a].createdAt
    ensures first in ids && a != first ==> table[first].createdAt < table[a].createdAt
    decreases |ids|
  {
    var b :| b in ids;
    if ids == {b} {
      a := b;
    } else {
      var c := Maximum(table, ids - {b}, first);
      if table[c].createdAt > table[b].createdAt || (table[c].createdAt == table[b].createdAt && b != first) {
        a := c;
      } else {
        a := b;
      }
    }
  }

  lemma ListingWithFirst(table: Table, errors: set<Id>, e: Id, first: Id) returns (rows: seq<Id>)
    requires e in errors && Latest(table, e, first)
    ensures Listing(table, errors, rows) && FirstStatus(table, rows, e) == Some(table[first].status)
  {
    var ids := set a | a in table && table[a].error in errors;
    rows := Sorted(table, ids, first);
    var a := FirstIsLatest(table, rows, e);
    FirstComesFirst(table, rows, e, first);
  }

  lemma {:induction false} FirstComesFirst(table: Table, rows: seq<Id>, e: Id, first: Id)
    requires Known(table, rows) && first in rows && Latest(table, e, first)
    requires forall i, j :: 0 <= i < j < |rows| && rows[j] == first ==> table[rows[i]].createdAt > table[first].createdAt
    ensures FirstStatus(table, rows, e) == Some(table[first].status)
  {
    if rows[0] != first {
      assert first in rows[1..];
      var j :| 0 <= j < |rows| && rows[j] == first;
      assert table[rows[0]].createdAt > table[first].createdAt;
      FirstComesFirst(table, rows[1..], e, first);
    }
  }

  /** Whatever rows the two queries return, the batch and the naive lookup agree on an error exactly when all
      its latest attempts have one status. */
  lemma BatchIsNaiveExactlyWhen(table: Table, errors: set<Id>, e: Id)
    requires e in errors
    ensures (forall rows, one :: Listing(table, errors, rows) && Listing(table, {e}, one) ==>
               FirstStatus(table, rows, e) == HeadStatus(table, one))
            <==> OneLatestStatus(table, e)
  {
    if OneLatestStatus(table, e) {
      forall rows, one | Listing(table, errors, rows) && Listing(table, {e}, one)
        ensures FirstStatus(table, rows, e) == HeadStatus(table, one)
      {
        BatchAgrees(table, errors, rows, e, one);
      }
    } else {
      var a, b :| Latest(table, e, a) && Latest(table, e, b) && table[a].status != table[b].status;
      var rows := ListingWithFirst(table, errors, e, a);
      var one := ListingWithFirst(table, {e}, e, b);
      assert table[one[0]].error == e by { assert one[0] in one; }
      assert HeadStatus(table, one) == Some(table[b].status);
    }
  }

  ghost predicate DistinctTimes(table: Table, e: Id) {
    forall a, b :: Latest(table, e, a) && Latest(table, e, b) ==> a == b
  }

  /** In particular they agree when no two latest attempts at the error were created at the same time. */
  lemma DistinctTimesAgree(table: Table, errors: set<Id>, rows: seq<Id>, e: Id, one: seq<Id>)
    requires e in errors && Listing(table, errors, rows) && Listing(table, {e}, one) && DistinctTimes(table, e)
    ensures FirstStatus(table, rows, e) == HeadStatus(table, one)
  {
    BatchAgrees(table, errors, rows, e, one);
  }
}
