/** The pre-aggregate `daily_model_agg` and its specification, the GROUP BY
    that a full rebuild runs. */
module Aggregate {
  import opened Rows

  type Agg = map<Key, Sums>

  /** The sums of one group. */
  function SumFor(day: int -> int, rows: seq<Stored>, k: Key): Sums {
    if rows == [] then ZERO_SUMS
    else Plus(SumFor(day, rows[..|rows| - 1], k), Share(day, rows[|rows| - 1].row, k))
  }

  function Share(day: int -> int, r: Row, k: Key): Sums {
    if InGroup(day, r, k) then Contribution(r.req) else ZERO_SUMS
  }

  predicate InGroup(day: int -> int, r: Row, k: Key) {
    r.Api? && GroupKey(day, r.req) == k
  }

  /** The groups the rows fall into. */
  function Groups(day: int -> int, rows: seq<Stored>): set<Key> {
    set i | 0 <= i < |rows| && rows[i].row.Api? :: GroupKey(day, rows[i].row.req)
  }

  /** The result of the rebuild statement. */
  function GroupBy(day: int -> int, rows: seq<Stored>): Agg {
    map k | k in Groups(day, rows) :: SumFor(day, rows, k)
  }

  /** The cache holds exactly what a rebuild would produce. */
  predicate Agrees(day: int -> int, rows: seq<Stored>, agg: Agg) {
    agg == GroupBy(day, rows)
  }

  function Upsert(agg: Agg, k: Key, s: Sums): Agg {
    agg[k := if k in agg then Plus(agg[k], s) else s]
  }

  // ---------- How the groups change when rows do ----------

  lemma GroupsOfAppend(day: int -> int, rows: seq<Stored>, s: Stored)
    ensures Groups(day, rows + [s]) == Groups(day, rows) + if s.row.Api? then {GroupKey(day, s.row.req)} else {}
  {
    var all := rows + [s];
    forall k ensures k in Groups(day, all) <==> k in Groups(day, rows) || (s.row.Api? && k == GroupKey(day, s.row.req)) {
      if k in Groups(day, rows) {
        var i :| 0 <= i < |rows| && rows[i].row.Api? && GroupKey(day, rows[i].row.req) == k;
        assert all[i] == rows[i];
      }
      if s.row.Api? && k == GroupKey(day, s.row.req) {
        assert all[|rows|] == s;
      }
    }
  }

  lemma SumOfAppend(day: int -> int, rows: seq<Stored>, s: Stored, k: Key)
    ensures SumFor(day, rows + [s], k) == Plus(SumFor(day, rows, k), Share(day, s.row, k))
  {
    assert (rows + [s])[..|rows|] == rows;
  }

  /** A group nobody falls into sums to nothing. */
  lemma {:induction false} EmptyGroup(day: int -> int, rows: seq<Stored>, k: Key)
    requires k !in Groups(day, rows)
    ensures SumFor(day, rows, k) == ZERO_SUMS
  {
    hide Groups, GroupKey, Contribution;
    if rows != [] {
      var n := |rows| - 1;
      assert rows == rows[..n] + [rows[n]];
      GroupsOfAppend(day, rows[..n], rows[n]);
      EmptyGroup(day, rows[..n], k);
    }
  }

  lemma GroupAt(day: int -> int, rows: seq<Stored>, k: Key)
    requires k in Groups(day, rows)
    ensures k in GroupBy(day, rows) && GroupBy(day, rows)[k] == SumFor(day, rows, k)
  {
    hide Groups, SumFor;
  }

  /** Replacing one row moves its group by the difference of the two shares. */
  lemma {:induction false} SumOfReplace(day: int -> int, rows: seq<Stored>, i: int, s: Stored, k: Key)
    requires 0 <= i < |rows|
    ensures Plus(SumFor(day, rows[i := s], k), Share(day, rows[i].row, k))
         == Plus(SumFor(day, rows, k), Share(day, s.row, k))
  {
    hide Share;
    var n := |rows| - 1;
    if i == n {
      assert rows[i := s][..n] == rows[..n];
    } else {
      SumOfReplace(day, rows[..n], i, s, k);
      assert rows[i := s][..n] == rows[..n][i := s];
    }
  }

  /** Columns outside the aggregate may change freely. */
  predicate SameShare(day: int -> int, a: Row, b: Row) {
    a.Api? == b.Api? && (a.Api? ==> GroupKey(day, a.req) == GroupKey(day, b.req) && Contribution(a.req) == Contribution(b.req))
  }

  lemma GroupsOfReplace(day: int -> int, rows: seq<Stored>, i: int, s: Stored)
    requires 0 <= i < |rows|
    requires rows[i].row.Api? && s.row.Api? && GroupKey(day, rows[i].row.req) == GroupKey(day, s.row.req)
    ensures Groups(day, rows[i := s]) == Groups(day, rows)
  {
    var next := rows[i := s];
    forall k ensures k in Groups(day, next) <==> k in Groups(day, rows) {
      if k in Groups(day, rows) {
        var j :| 0 <= j < |rows| && rows[j].row.Api? && GroupKey(day, rows[j].row.req) == k;
        assert next[j].row.Api? && GroupKey(day, next[j].row.req) == k;
      }
      if k in Groups(day, next) {
        var j :| 0 <= j < |next| && next[j].row.Api? && GroupKey(day, next[j].row.req) == k;
        assert rows[j].row.Api? && GroupKey(day, rows[j].row.req) == k;
      }
    }
  }

  lemma ReplaceKeepsGroupBy(day: int -> int, rows: seq<Stored>, i: int, s: Stored)
    requires 0 <= i < |rows| && rows[i].row.Api? && SameShare(day, rows[i].row, s.row)
    ensures GroupBy(day, rows[i := s]) == GroupBy(day, rows)
  {
    hide Groups, SumFor, GroupKey, Contribution;
    GroupsOfReplace(day, rows, i, s);
    forall k | k in Groups(day, rows) ensures SumFor(day, rows[i := s], k) == SumFor(day, rows, k) {
      SumOfReplace(day, rows, i, s, k);
    }
  }

  /** Rewriting a row of another table leaves the GROUP BY alone. */
  lemma ReplaceOtherKeepsGroupBy(day: int -> int, rows: seq<Stored>, i: int, s: Stored)
    requires 0 <= i < |rows| && !rows[i].row.Api? && !s.row.Api?
    ensures GroupBy(day, rows[i := s]) == GroupBy(day, rows)
  {
    hide SumFor, GroupKey, Contribution;
    var next := rows[i := s];
    forall j | 0 <= j < |rows| && rows[j].row.Api? ensures next[j] == rows[j] {
    }
    forall j | 0 <= j < |rows| && next[j].row.Api? ensures next[j] == rows[j] {
    }
    assert Groups(day, next) == Groups(day, rows);
    forall k | k in Groups(day, rows) ensures SumFor(day, next, k) == SumFor(day, rows, k) {
      SumOfReplace(day, rows, i, s, k);
    }
  }

  // ---------- The incremental writers against the specification ----------

  /** Appending a request is one upsert into the group the rebuild would use. */
  lemma GroupByOfAppend(day: int -> int, rows: seq<Stored>, s: Stored)
    requires s.row.Api?
    ensures GroupBy(day, rows + [s]) == Upsert(GroupBy(day, rows), GroupKey(day, s.row.req), Contribution(s.row.req))
  {
    hide SumFor, GroupKey, Contribution;
    var g := GroupKey(day, s.row.req);
    GroupsOfAppend(day, rows, s);
    forall k | k in Groups(day, rows + [s])
      ensures SumFor(day, rows + [s], k) == Upsert(GroupBy(day, rows), g, Contribution(s.row.req))[k]
    {
      SumOfAppend(day, rows, s, k);
      if k !in Groups(day, rows) {
        EmptyGroup(day, rows, k);
      }
    }
  }

  /** One upsert keeps the cache right exactly when both foldings name the same group. */
  lemma AppendKeepsAgreement(day: int -> int, rows: seq<Stored>, agg: Agg, s: Stored)
    requires Agrees(day, rows, agg) && s.row.Api?
    ensures Agrees(day, rows + [s], Upsert(agg, LiveKey(day, s.row.req), Contribution(s.row.req)))
       <==> CleanService(s.row.req.service)
  {
    var g, l := GroupKey(day, s.row.req), LiveKey(day, s.row.req);
    FoldingsAgree(s.row.req.service);
    GroupByOfAppend(day, rows, s);
    if g != l {
      UpsertsDiffer(agg, g, l, Contribution(s.row.req));
    }
  }

  lemma UpsertsDiffer(agg: Agg, g: Key, l: Key, c: Sums)
    requires g != l && c.requests == 1
    ensures Upsert(agg, g, c) != Upsert(agg, l, c)
  {
    var a, b := Upsert(agg, g, c), Upsert(agg, l, c);
    assert g in a;
    if g in agg {
      assert a[g].requests == agg[g].requests + 1;
      assert b[g] == agg[g];
    } else {
      assert g !in b;
    }
  }

  lemma AppendOtherKeepsAgreement(day: int -> int, rows: seq<Stored>, s: Stored)
    requires !s.row.Api?
    ensures GroupBy(day, rows + [s]) == GroupBy(day, rows)
  {
    hide Groups, SumFor, GroupKey, Contribution;
    GroupsOfAppend(day, rows, s);
    forall k | k in Groups(day, rows) ensures SumFor(day, rows + [s], k) == SumFor(day, rows, k) {
      SumOfAppend(day, rows, s, k);
    }
  }

  /** Where a finalized row leaves its group, and where the upsert puts it. */
  lemma SumOfFinalize(day: int -> int, rows: seq<Stored>, i: int, q: Request, k: Key)
    requires 0 <= i < |rows| && rows[i].row.Api?
    requires GroupKey(day, q) == GroupKey(day, rows[i].row.req) && k in Groups(day, rows)
    ensures var before := Contribution(rows[i].row.req);
      var next := Upsert(GroupBy(day, rows), GroupKey(day, q), Contribution(q).(requests := 0));
      if k == GroupKey(day, q) then Plus(SumFor(day, rows[i := rows[i].(row := Api(q))], k), before) == Plus(next[k], ZERO_SUMS.(requests := 1))
      else SumFor(day, rows[i := rows[i].(row := Api(q))], k) == next[k]
  {
    hide Groups, GroupBy, SumFor, GroupKey, Contribution, Share, Upsert;
    UpsertAt(day, rows, GroupKey(day, q), Contribution(q).(requests := 0), k);
    OwnShare(day, q, k);
    OwnShare(day, rows[i].row.req, k);
    SumOfReplace(day, rows, i, rows[i].(row := Api(q)), k);
  }

  lemma UpsertAt(day: int -> int, rows: seq<Stored>, g: Key, s: Sums, k: Key)
    requires k in Groups(day, rows)
    ensures var next := Upsert(GroupBy(day, rows), g, s);
      k in next && next[k] == if k == g then Plus(SumFor(day, rows, k), s) else SumFor(day, rows, k)
  {
    hide Groups, GroupBy, SumFor;
    GroupAt(day, rows, k);
  }

  lemma OwnShare(day: int -> int, q: Request, k: Key)
    ensures Share(day, Api(q), k) == (if k == GroupKey(day, q) then Contribution(q) else ZERO_SUMS) && Contribution(q).requests == 1
  {
  }

  /** A completion adds its whole token vector and cost to the group of the row
      it finalizes: right exactly when that row carried nothing before. */
  lemma FinalizeKeepsAgreement(day: int -> int, rows: seq<Stored>, agg: Agg, i: int, q: Request)
    requires Agrees(day, rows, agg)
    requires 0 <= i < |rows| && rows[i].row.Api?
    requires GroupKey(day, q) == GroupKey(day, rows[i].row.req)
    ensures Agrees(day, rows[i := rows[i].(row := Api(q))], Upsert(agg, GroupKey(day, q), Contribution(q).(requests := 0)))
       <==> Contribution(rows[i].row.req) == ZERO_SUMS.(requests := 1)
  {
    hide SumFor, GroupKey, Contribution;
    var s, k := rows[i].(row := Api(q)), GroupKey(day, q);
    GroupsOfReplace(day, rows, i, s);
    assert k in Groups(day, rows);
    forall j | j in Groups(day, rows)
      ensures var next := Upsert(agg, k, Contribution(q).(requests := 0));
        if j == k then Plus(SumFor(day, rows[i := s], j), Contribution(rows[i].row.req)) == Plus(next[j], ZERO_SUMS.(requests := 1))
        else SumFor(day, rows[i := s], j) == next[j]
    {
      SumOfFinalize(day, rows, i, q, j);
    }
    var next := Upsert(agg, k, Contribution(q).(requests := 0));
    assert next.Keys == Groups(day, rows);
    assert GroupBy(day, rows[i := s])[k] == SumFor(day, rows[i := s], k);
    if Contribution(rows[i].row.req) == ZERO_SUMS.(requests := 1) {
      assert next == GroupBy(day, rows[i := s]);
    }
  }
}
