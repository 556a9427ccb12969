/** The ORDER BY and LIMIT clauses of the stores' queries. */
module Query {

  /** `before` is a total preorder: what an ORDER BY clause needs. */
  ghost predicate TotalPreorder<T(!new)>(before: (T, T) -> bool) {
    && (forall a, b :: before(a, b) || before(b, a))
    && (forall a, b, c :: before(a, b) && before(b, c) ==> before(a, c))
  }

  ghost predicate OrderedBy<T>(rows: seq<T>, before: (T, T) -> bool) {
    forall i, j :: 0 <= i < j < |rows| ==> before(rows[i], rows[j])
  }

  function Insert<T>(row: T, rows: seq<T>, before: (T, T) -> bool): seq<T> {
    if rows == [] || before(row, rows[0]) then [row] + rows
    else [rows[0]] + Insert(row, rows[1..], before)
  }

  function OrderBy<T>(rows: seq<T>, before: (T, T) -> bool): seq<T> {
    if rows == [] then [] else Insert(rows[0], OrderBy(rows[1..], before), before)
  }

  function Where<T>(rows: seq<T>, keep: T -> bool): (kept: seq<T>) {
    if rows == [] then []
    else if keep(rows[0]) then [rows[0]] + Where(rows[1..], keep)
    else Where(rows[1..], keep)
  }

  function Limit<T>(rows: seq<T>, limit: nat): seq<T> {
    if |rows| <= limit then rows else rows[..limit]
  }

  lemma {:induction false} InsertKeepsOrder<T(!new)>(row: T, rows: seq<T>, before: (T, T) -> bool)
    requires TotalPreorder(before) && OrderedBy(rows, before)
    ensures OrderedBy(Insert(row, rows, before), before)
    ensures multiset(Insert(row, rows, before)) == multiset(rows) + multiset{row}
  {
    if rows == [] {
    } else if before(row, rows[0]) {
      assert forall j :: 0 < j < |rows| ==> before(rows[0], rows[j]);
    } else {
      var tail := Insert(row, rows[1..], before);
      InsertKeepsOrder(row, rows[1..], before);
      assert rows == [rows[0]] + rows[1..];
      forall j | 0 <= j < |tail| ensures before(rows[0], tail[j]) {
        assert tail[j] in multiset(tail);
        assert tail[j] in rows[1..] || tail[j] == row;
      }
    }
  }

  lemma {:induction false} OrderByResult<T(!new)>(rows: seq<T>, before: (T, T) -> bool)
    requires TotalPreorder(before)
    ensures OrderedBy(OrderBy(rows, before), before)
    ensures multiset(OrderBy(rows, before)) == multiset(rows)
  {
    if rows != [] {
      OrderByResult(rows[1..], before);
      InsertKeepsOrder(rows[0], OrderBy(rows[1..], before), before);
      assert rows == [rows[0]] + rows[1..];
    }
  }

  lemma {:induction false} WhereMembers<T>(rows: seq<T>, keep: T -> bool)
    ensures forall r :: r in Where(rows, keep) <==> r in rows && keep(r)
    ensures |Where(rows, keep)| <= |rows|
  {
    if rows != [] {
      WhereMembers(rows[1..], keep);
      assert rows == [rows[0]] + rows[1..];
    }
  }

  /** A filter distributes over concatenation. */
  lemma {:induction false} WhereConcat<T>(a: seq<T>, b: seq<T>, keep: T -> bool)
    ensures Where(a + b, keep) == Where(a, keep) + Where(b, keep)
  {
    if a == [] {
      assert a + b == b;
    } else {
      WhereConcat(a[1..], b, keep);
      assert (a + b)[1..] == a[1..] + b;
    }
  }

  /** A filter that keeps nothing, and one that keeps everything. */
  lemma {:induction false} WhereNone<T>(rows: seq<T>, keep: T -> bool)
    requires forall i :: 0 <= i < |rows| ==> !keep(rows[i])
    ensures Where(rows, keep) == []
  {
    if rows != [] { WhereNone(rows[1..], keep); }
  }

  lemma {:induction false} WhereAll<T>(rows: seq<T>, keep: T -> bool)
    requires forall i :: 0 <= i < |rows| ==> keep(rows[i])
    ensures Where(rows, keep) == rows
  {
    if rows != [] { WhereAll(rows[1..], keep); }
  }

  ghost predicate NoDuplicates<T>(rows: seq<T>) {
    forall i, j :: 0 <= i < j < |rows| ==> rows[i] != rows[j]
  }

  lemma {:induction false} WhereNoDuplicates<T>(rows: seq<T>, keep: T -> bool)
    requires NoDuplicates(rows)
    ensures NoDuplicates(Where(rows, keep))
  {
    if rows != [] {
      var tail := rows[1..];
      forall i, j | 0 <= i < j < |tail| ensures tail[i] != tail[j] {
        assert rows[i + 1] != rows[j + 1];
      }
      WhereNoDuplicates(tail, keep);
      WhereMembers(tail, keep);
      forall r | r in tail ensures r != rows[0] {
        var k :| 0 <= k < |tail| && tail[k] == r;
        assert rows[k + 1] == r;
      }
    }
  }

  lemma {:induction false} OccurrenceCount<T>(rows: seq<T>, i: nat, j: nat)
    requires i < j < |rows| && rows[i] == rows[j]
    ensures multiset(rows)[rows[i]] >= 2
  {
    assert rows == rows[..j] + [rows[j]] + rows[j + 1..];
    assert rows[..j][i] == rows[i] && rows[i] in rows[..j];
  }

  lemma {:induction false} NoDuplicatesCount<T>(rows: seq<T>, r: T)
    requires NoDuplicates(rows)
    ensures multiset(rows)[r] <= 1
  {
    if rows != [] {
      var tail := rows[1..];
      forall i, j | 0 <= i < j < |tail| ensures tail[i] != tail[j] {
        assert rows[i + 1] != rows[j + 1];
      }
      NoDuplicatesCount(tail, r);
      assert rows == [rows[0]] + tail;
      assert forall k :: 0 <= k < |tail| ==> tail[k] == rows[k + 1];
    }
  }

  /** What a filtered, ordered and limited query returns. */
  ghost predicate IsTopRows<T(!new)>(result: seq<T>, rows: seq<T>, keep: T -> bool, before: (T, T) -> bool, limit: nat) {
    && (forall r :: r in result ==> r in rows && keep(r))
    && NoDuplicates(result)
    && OrderedBy(result, before)
    && |result| <= limit
    && (forall r :: r in rows && keep(r) && r !in result ==>
          |result| == limit && forall i :: 0 <= i < |result| ==> before(result[i], r))
  }

  function Select<T>(rows: seq<T>, keep: T -> bool, before: (T, T) -> bool, limit: nat): seq<T> {
    Limit(OrderBy(Where(rows, keep), before), limit)
  }

  /** A query returns distinct matching rows in order, and leaves out only rows that come later. */
  lemma SelectReturnsTopRows<T(!new)>(rows: seq<T>, keep: T -> bool, before: (T, T) -> bool, limit: nat)
    requires TotalPreorder(before) && NoDuplicates(rows)
    ensures IsTopRows(Select(rows, keep, before, limit), rows, keep, before, limit)
  {
    var kept := Where(rows, keep);
    var ordered := OrderBy(kept, before);
    var result := Select(rows, keep, before, limit);
    WhereMembers(rows, keep);
    WhereNoDuplicates(rows, keep);
    OrderByResult(kept, before);
    forall i, j | 0 <= i < j < |ordered| ensures ordered[i] != ordered[j] {
      NoDuplicatesCount(kept, ordered[i]);
      if ordered[i] == ordered[j] { OccurrenceCount(ordered, i, j); }
    }
    forall r | r in result ensures r in rows && keep(r) {
      assert r in multiset(ordered);
    }
    forall r | r in rows && keep(r) && r !in result
      ensures |result| == limit && forall i :: 0 <= i < |result| ==> before(result[i], r)
    {
      assert r in multiset(kept);
      var k :| 0 <= k < |ordered| && ordered[k] == r;
      assert forall i :: 0 <= i < |result| ==> result[i] == ordered[i];
    }
  }
}
