/** The pages of a project's errors. */
module Paging {
  import opened Wrappers

  /** `get_errors_for_project` over a fixed order of the rows: `LIMIT per_page OFFSET (page - 1) * per_page`. */
  function Page<T>(rows: seq<T>, page: int, perPage: int): seq<T>
    requires page >= 1 && perPage >= 1
  {
    var from := (page - 1) * perPage;
    assert from >= 0 by { Product(page - 1, perPage); }
    if from >= |rows| then [] else if from + perPage >= |rows| then rows[from..] else rows[from..from + perPage]
  }

  lemma Product(a: int, b: int)
    requires a >= 0 && b >= 0
    ensures a * b >= 0
  {
  }

  /** `math.ceil(total_count / per_page) if total_count > 0 else 0`. */
  function TotalPages(total: nat, perPage: int): nat
    requires perPage >= 1
  {
    if total > 0 then (total + perPage - 1) / perPage else 0
  }

  /** `project_errors_page`: None is the 404. */
  method ErrorsPage<T>(rows: seq<T>, page: int, perPage: int) returns (shown: Option<seq<T>>)
    requires page >= 1 && 1 <= perPage <= 100
    ensures shown.None? <==> page != 1 && forall i :: 0 <= i < |rows| ==> i / perPage + 1 < page
    ensures shown.Some? ==> shown.value == Page(rows, page, perPage)
  {
    var errors := Page(rows, page, perPage);
    var totalPages := TotalPages(|rows|, perPage);
    Range(|rows|, page, perPage);
    if totalPages > 0 && page > totalPages { return None; }
    if totalPages == 0 && page > 1 { return None; }
    return Some(errors);
  }

  /** A page is beyond the range exactly when every row is on an earlier one. */
  lemma Range(total: nat, page: int, perPage: int)
    requires page >= 1 && perPage >= 1
    ensures page > TotalPages(total, perPage) <==> forall i :: 0 <= i < total ==> i / perPage + 1 < page
  {
    if total > 0 {
      LastPage(total, perPage);
      if page > TotalPages(total, perPage) {
        forall i | 0 <= i < total ensures i / perPage + 1 < page {
          DivMonotone(i, total - 1, perPage);
        }
      } else {
        assert !((total - 1) / perPage + 1 < page);
      }
    }
  }

  lemma LastPage(total: int, perPage: int)
    requires total >= 1 && perPage >= 1
    ensures (total + perPage - 1) / perPage == (total - 1) / perPage + 1
  {
    var q := (total - 1) / perPage;
    var r := (total - 1) % perPage;
    assert total - 1 == q * perPage + r;
    assert total + perPage - 1 == (q + 1) * perPage + r;
    Quotient(total + perPage - 1, perPage, q + 1, r);
  }

  lemma Quotient(n: int, d: int, q: int, r: int)
    requires d >= 1 && n == q * d + r && 0 <= r < d
    ensures n / d == q
  {
    assert n == n / d * d + n % d;
    assert (q - n / d) * d == n % d - r;
    SmallMultiple(q - n / d, d);
  }

  lemma SmallMultiple(k: int, d: int)
    requires d >= 1 && -d < k * d < d
    ensures k == 0
  {
    if k > 0 {
      Product(k - 1, d);
      assert false;
    } else if k < 0 {
      Product(-k - 1, d);
      assert false;
    }
  }

  lemma NextMultiple(q: int, p: int, d: int)
    requires q < p && d >= 1
    ensures q * d + d <= p * d
  {
    Product(p - q - 1, d);
    assert (p - q - 1) * d == p * d - q * d - d;
  }

  lemma DivMonotone(a: int, b: int, d: int)
    requires 0 <= a <= b && d >= 1
    ensures a / d <= b / d
  {
    var p, q := a / d, b / d;
    assert a == p * d + a % d && b == q * d + b % d;
    if p > q {
      NextMultiple(q, p, d);
      assert false;
    }
  }

  // ----- All pages together -----

  function Pages<T>(rows: seq<T>, n: nat, perPage: int): seq<T>
    requires perPage >= 1
  {
    if n == 0 then [] else Pages(rows, n - 1, perPage) + Page(rows, n, perPage)
  }

  function Min(a: int, b: int): int {
    if a < b then a else b
  }

  lemma {:induction false} PagesArePrefix<T>(rows: seq<T>, n: nat, perPage: int)
    requires perPage >= 1
    ensures n * perPage >= 0 && Pages(rows, n, perPage) == rows[..Min(n * perPage, |rows|)]
  {
    if n > 0 {
      PagesArePrefix(rows, n - 1, perPage);
      var from := (n - 1) * perPage;
      assert n * perPage == from + perPage;
      if from >= |rows| {
        assert Page(rows, n, perPage) == [];
      } else if from + perPage >= |rows| {
        assert rows[..from] + rows[from..] == rows;
      } else {
        assert rows[..from] + rows[from..from + perPage] == rows[..from + perPage];
      }
    }
  }

  /** Pages 1 to the last are the whole list, in order and without repetition. */
  lemma AllPages<T>(rows: seq<T>, perPage: int)
    requires perPage >= 1
    ensures Pages(rows, TotalPages(|rows|, perPage), perPage) == rows
  {
    var n := TotalPages(|rows|, perPage);
    PagesArePrefix(rows, n, perPage);
    if |rows| > 0 {
      EnoughPages(|rows|, perPage);
      assert rows[..|rows|] == rows;
    }
  }

  lemma EnoughPages(total: int, perPage: int)
    requires total >= 1 && perPage >= 1
    ensures (total + perPage - 1) / perPage * perPage >= total
  {
    var q, r := (total + perPage - 1) / perPage, (total + perPage - 1) % perPage;
    assert total + perPage - 1 == q * perPage + r;
  }

  lemma PageRow<T>(rows: seq<T>, page: int, perPage: int, k: int)
    requires page >= 1 && perPage >= 1 && 0 <= k < perPage && 0 <= (page - 1) * perPage + k < |rows|
    ensures k < |Page(rows, page, perPage)| && Page(rows, page, perPage)[k] == rows[(page - 1) * perPage + k]
  {
    Product(page - 1, perPage);
  }

  /** Where a row is shown: on one page only, at one place. */
  lemma RowIsOnItsPage<T>(rows: seq<T>, i: nat, perPage: int)
    requires i < |rows| && perPage >= 1
    ensures var page := i / perPage + 1;
      && 1 <= page <= TotalPages(|rows|, perPage)
      && i % perPage < |Page(rows, page, perPage)| && Page(rows, page, perPage)[i % perPage] == rows[i]
  {
    var page := i / perPage + 1;
    assert (page - 1) * perPage + i % perPage == i;
    LastPage(|rows|, perPage);
    DivMonotone(i, |rows| - 1, perPage);
    DivMonotone(0, i, perPage);
    PageRow(rows, page, perPage, i % perPage);
  }
}
