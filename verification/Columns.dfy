/** Which column each figure shows: the cache, the client table and the dashboard
    against plain sums over the stored requests, column by column. */
module Columns {
  import opened Rows
  import opened Aggregate
  import opened Ranges

  /** The sum of one column over the requests that are wanted. */
  function Total(rows: seq<Stored>, wanted: Stored -> bool, column: Request -> int): int {
    if rows == [] then 0
    else
      var s := rows[|rows| - 1];
      Total(rows[..|rows| - 1], wanted, column) + if s.row.Api? && wanted(s) then column(s.row.req) else 0
  }

  function Input(q: Request): int { q.tok.input }

  function Output(q: Request): int { q.tok.output }

  function CacheRead(q: Request): int { q.tok.cacheRead }

  function CacheCreate(q: Request): int { q.tok.cacheCreate }

  function CostOf(q: Request): int { q.cost }

  function One(q: Request): int { 1 }

  /** The six figures are the sums of the six columns. */
  predicate Shows(rows: seq<Stored>, wanted: Stored -> bool, sums: Sums) {
    && sums.input == Total(rows, wanted, Input) && sums.output == Total(rows, wanted, Output)
    && sums.cacheRead == Total(rows, wanted, CacheRead) && sums.cacheCreate == Total(rows, wanted, CacheCreate)
    && sums.cost == Total(rows, wanted, CostOf) && sums.requests == Total(rows, wanted, One)
  }

  // ---------- The rows a figure is about ----------

  /** The name a client is shown under. */
  function ShownAs(service: string): string {
    if service == "" then "claude-code" else service
  }

  function OnDay(day: int -> int, k: Key): Stored -> bool {
    (s: Stored) => s.row.Api? && day(s.row.req.ts) == k.day && s.row.req.model == k.model && ShownAs(s.row.req.service) == k.service
  }

  function Within(lo: int, hi: int): Stored -> bool {
    (s: Stored) => s.row.Api? && lo <= s.row.req.ts && s.row.req.ts < hi
  }

  function WithinOf(lo: int, hi: int, client: string): Stored -> bool {
    (s: Stored) => s.row.Api? && lo <= s.row.req.ts && s.row.req.ts < hi && ShownAs(s.row.req.service) == client
  }

  // ---------- Sums of six are six sums ----------

  lemma TotalOfNext(rows: seq<Stored>, wanted: Stored -> bool, column: Request -> int)
    requires rows != []
    ensures var s := rows[|rows| - 1];
      Total(rows, wanted, column) == Total(rows[..|rows| - 1], wanted, column) + if s.row.Api? && wanted(s) then column(s.row.req) else 0
  {
  }

  /** One more row adds its six columns, if it is wanted. */
  lemma ShowsNext(rows: seq<Stored>, wanted: Stored -> bool, sums: Sums)
    requires rows != [] && Shows(rows[..|rows| - 1], wanted, sums)
    ensures var s := rows[|rows| - 1];
      Shows(rows, wanted, if s.row.Api? && wanted(s) then Plus(sums, Contribution(s.row.req)) else sums)
  {
    hide Total;
    TotalOfNext(rows, wanted, Input);
    TotalOfNext(rows, wanted, Output);
    TotalOfNext(rows, wanted, CacheRead);
    TotalOfNext(rows, wanted, CacheCreate);
    TotalOfNext(rows, wanted, CostOf);
    TotalOfNext(rows, wanted, One);
  }

  lemma {:induction false} WhereShows(rows: seq<Stored>, p: Stored -> bool, wanted: Stored -> bool)
    requires forall i :: 0 <= i < |rows| && rows[i].row.Api? ==> Sat(p, rows[i]) == wanted(rows[i])
    ensures Shows(rows, wanted, SumWhere(rows, p))
  {
    hide Shows, Contribution;
    if rows == [] {
      ShowsNothing(wanted);
    } else {
      var n := |rows| - 1;
      assert rows[n].row.Api? ==> Sat(p, rows[n]) == wanted(rows[n]);
      WhereShows(rows[..n], p, wanted);
      ShowsNext(rows, wanted, SumWhere(rows[..n], p));
      PlusZero(SumWhere(rows[..n], p));
    }
  }

  lemma ShowsNothing(wanted: Stored -> bool)
    ensures Shows([], wanted, ZERO_SUMS)
  {
  }

  /** The cache as a rebuild leaves it, group by group. */
  lemma GroupByShows(day: int -> int, rows: seq<Stored>, k: Key)
    ensures k in GroupBy(day, rows) <==> exists i :: 0 <= i < |rows| && OnDay(day, k)(rows[i])
    ensures k in GroupBy(day, rows) ==> Shows(rows, OnDay(day, k), GroupBy(day, rows)[k])
  {
    hide SumWhere, SumFor, Shows;
    GroupIsSlice(day, rows, k);
    forall i | 0 <= i < |rows| && rows[i].row.Api? ensures Sat(Slice(AnyRow(), KeyOf(day), Some(k)), rows[i]) == OnDay(day, k)(rows[i]) {
    }
    WhereShows(rows, Slice(AnyRow(), KeyOf(day), Some(k)), OnDay(day, k));
  }

  /** While the cache is right, the dashboard of some local days shows the columns
      of the requests stored between their midnights. */
  lemma DashboardShows(day: int -> int, mid: int -> int, rows: seq<Stored>, agg: Agg, from: int, to: int)
    requires Calendar(day, mid) && Agrees(day, rows, agg)
    ensures Shows(rows, Within(At(mid, from), At(mid, to + 1)), MapSum(DaysBetween(agg, from, to)))
  {
    hide SumWhere, MapSum, Shows, Agrees;
    DashboardIsDirectSum(day, mid, rows, agg, from, to);
    WhereShows(rows, Between(At(mid, from), At(mid, to + 1)), Within(At(mid, from), At(mid, to + 1)));
  }

  /** The client table shows every client of the range with its own columns. */
  lemma ClientTableShows(rows: seq<Stored>, lo: int, hi: int, client: string)
    ensures client in ClientTable(rows, lo, hi) <==> exists i :: 0 <= i < |rows| && WithinOf(lo, hi, client)(rows[i])
    ensures client in ClientTable(rows, lo, hi) ==> Shows(rows, WithinOf(lo, hi, client), ClientTable(rows, lo, hi)[client])
  {
    hide SumWhere, Shows;
    forall i | 0 <= i < |rows| && rows[i].row.Api?
      ensures Sat(Slice(Between(lo, hi), ServiceOf(), client), rows[i]) == WithinOf(lo, hi, client)(rows[i])
    {
    }
    WhereShows(rows, Slice(Between(lo, hi), ServiceOf(), client), WithinOf(lo, hi, client));
  }
}
