/** Date-range figures: the dashboard reads the cache by day, the client table
    reads the rows by timestamp, and both must show the same totals. */
module Ranges {
  import opened Rows
  import opened Aggregate

  function At(f: int -> int, x: int): int {
    f(x)
  }

  predicate Sat(p: Stored -> bool, s: Stored) {
    p(s)
  }

  /** A local calendar: mid(d) is the first second of day d. */
  ghost predicate Calendar(day: int -> int, mid: int -> int) {
    forall t: int, d: int :: At(mid, d) <= t <==> d <= At(day, t)
  }

  ghost predicate Monotone(day: int -> int) {
    forall s, t :: s <= t ==> At(day, s) <= At(day, t)
  }

  ghost predicate Increasing(mid: int -> int) {
    forall a, b :: a < b ==> At(mid, a) < At(mid, b)
  }

  /** Midnights are at least a second apart, so they pass every timestamp. */
  lemma {:induction false} MidnightsSpread(mid: int -> int, n: int)
    requires Increasing(mid) && n >= 0
    ensures At(mid, -n) + n <= At(mid, 0) <= At(mid, n) - n
    decreases n
  {
    if n > 0 {
      MidnightsSpread(mid, n - 1);
      assert At(mid, -n) < At(mid, -(n - 1)) && At(mid, n - 1) < At(mid, n);
    }
  }

  /** The day from lo on, before hi, on which t lies. */
  ghost function DayWithin(mid: int -> int, t: int, lo: int, hi: int): (d: int)
    requires At(mid, lo) <= t < At(mid, hi) && lo < hi
    ensures At(mid, d) <= t < At(mid, d + 1)
    decreases hi - lo
  {
    if lo + 1 == hi then lo
    else if At(mid, lo + 1) <= t then DayWithin(mid, t, lo + 1, hi)
    else lo
  }

  /** A day before which and one after which t surely lies. */
  lemma DaysAround(mid: int -> int, t: int)
    requires Increasing(mid)
    ensures var first := At(mid, 0);
      var lo, hi := if t < first then t - first else 0, if t < first then 0 else t - first + 1;
      lo < hi && At(mid, lo) <= t < At(mid, hi)
  {
    hide Increasing;
    if t < At(mid, 0) {
      MidnightsSpread(mid, At(mid, 0) - t);
    } else {
      MidnightsSpread(mid, t - At(mid, 0) + 1);
    }
  }

  ghost function DayOf(mid: int -> int, t: int): (d: int)
    requires Increasing(mid)
    ensures At(mid, d) <= t < At(mid, d + 1)
  {
    hide Increasing;
    DaysAround(mid, t);
    var first := At(mid, 0);
    DayWithin(mid, t, if t < first then t - first else 0, if t < first then 0 else t - first + 1)
  }

  ghost function DayIfAny(mid: int -> int, t: int): int {
    if Increasing(mid) then DayOf(mid, t) else 0
  }

  lemma DayDecides(mid: int -> int, t: int, d: int)
    requires Increasing(mid)
    ensures At(mid, d) <= t <==> d <= DayOf(mid, t)
  {
    var on := DayOf(mid, t);
    hide DayOf;
    assert d < on ==> At(mid, d) < At(mid, on);
    assert on + 1 < d ==> At(mid, on + 1) < At(mid, d);
  }

  /** Every strictly increasing midnight has a calendar. */
  lemma EveryMidnightHasACalendar(mid: int -> int)
    requires Increasing(mid)
    ensures exists day: int -> int :: Calendar(day, mid)
  {
    hide DayOf;
    var day: int -> int := t => DayIfAny(mid, t);
    forall t: int, d: int ensures At(mid, d) <= t <==> d <= At(day, t) {
      DayDecides(mid, t, d);
    }
    assert Calendar(day, mid);
  }

  /** It has only one. */
  lemma CalendarsAgree(day: int -> int, other: int -> int, mid: int -> int, t: int)
    requires Calendar(day, mid) && Calendar(other, mid)
    ensures day(t) == other(t) && mid(day(t)) <= t < mid(day(t) + 1)
  {
    assert At(mid, At(day, t)) <= t && At(mid, At(other, t)) <= t && At(mid, At(day, t) + 1) > t;
  }

  lemma CalendarsAreMonotone(day: int -> int, mid: int -> int)
    requires Calendar(day, mid)
    ensures Monotone(day)
  {
    forall s, t | s <= t ensures At(day, s) <= At(day, t) {
      assert At(mid, At(day, s)) <= s;
    }
  }

  // ---------- Sums over maps and over rows ----------

  ghost function Pick<K>(m: map<K, Sums>): (k: K)
    requires m != map[]
    ensures k in m
  {
    assert m.Keys != {};
    var k :| k in m;
    k
  }

  /** The sum of all values, in no particular order. */
  ghost function MapSum<K>(m: map<K, Sums>): Sums
    decreases |m|
  {
    if m == map[] then ZERO_SUMS else var k := Pick(m); MapShrinks(m, k); Plus(m[k], MapSum(m - {k}))
  }

  lemma MapShrinks<K>(m: map<K, Sums>, k: K)
    requires k in m
    ensures |m - {k}| < |m|
  {
    assert (m - {k}).Keys == m.Keys - {k};
  }

  /** Whichever key is taken first. */
  lemma {:induction false} MapSumTakes<K>(m: map<K, Sums>, k: K)
    requires k in m
    ensures MapSum(m) == Plus(m[k], MapSum(m - {k}))
    decreases |m|
  {
    var j := Pick(m);
    MapShrinks(m, j);
    if j != k {
      MapSumTakes(m - {j}, k);
      MapShrinks(m, k);
      MapSumTakes(m - {k}, j);
      assert m - {j} - {k} == m - {k} - {j};
    }
  }

  function Weight(s: Stored): Sums {
    if s.row.Api? then Contribution(s.row.req) else ZERO_SUMS
  }

  function SumWhere(rows: seq<Stored>, p: Stored -> bool): Sums {
    if rows == [] then ZERO_SUMS
    else Plus(SumWhere(rows[..|rows| - 1], p), if Sat(p, rows[|rows| - 1]) then Weight(rows[|rows| - 1]) else ZERO_SUMS)
  }

  lemma {:induction false} SumWhereSame(rows: seq<Stored>, p: Stored -> bool, q: Stored -> bool)
    requires forall i :: 0 <= i < |rows| && rows[i].row.Api? ==> Sat(p, rows[i]) == Sat(q, rows[i])
    ensures SumWhere(rows, p) == SumWhere(rows, q)
  {
    if rows != [] {
      SumWhereSame(rows[..|rows| - 1], p, q);
    }
  }

  lemma PlusZero(a: Sums)
    ensures Plus(a, ZERO_SUMS) == a && Plus(ZERO_SUMS, a) == a
  {
  }

  lemma PlusMiddle(a: Sums, b: Sums, c: Sums)
    ensures Plus(Plus(a, b), c) == Plus(Plus(a, c), b) == Plus(a, Plus(b, c))
  {
  }

  lemma {:induction false} SumWhereSplits(rows: seq<Stored>, whole: Stored -> bool, p: Stored -> bool, q: Stored -> bool)
    requires forall i :: 0 <= i < |rows| ==>
      Sat(whole, rows[i]) == (Sat(p, rows[i]) || Sat(q, rows[i])) && !(Sat(p, rows[i]) && Sat(q, rows[i]))
    ensures SumWhere(rows, whole) == Plus(SumWhere(rows, p), SumWhere(rows, q))
  {
    hide Weight, Plus, Sat;
    if rows == [] {
      PlusZero(ZERO_SUMS);
    } else {
      var n := |rows| - 1;
      SumWhereSplits(rows[..n], whole, p, q);
      var a, b, x := SumWhere(rows[..n], p), SumWhere(rows[..n], q), Weight(rows[n]);
      PlusZero(a);
      PlusZero(b);
      PlusZero(Plus(a, b));
      PlusMiddle(a, b, x);
      PlusMiddle(a, x, b);
    }
  }

  lemma {:induction false} SumWhereNothing(rows: seq<Stored>, p: Stored -> bool)
    requires forall i :: 0 <= i < |rows| ==> !Sat(p, rows[i])
    ensures SumWhere(rows, p) == ZERO_SUMS
  {
    hide Weight, Plus, Sat;
    if rows != [] {
      SumWhereNothing(rows[..|rows| - 1], p);
      PlusZero(ZERO_SUMS);
    }
  }

  // ---------- A grouped sum and an ungrouped one ----------

  function Slice<K(==)>(p: Stored -> bool, key: Stored -> K, k: K): Stored -> bool {
    (s: Stored) => p(s) && key(s) == k
  }

  function Among<K(==)>(p: Stored -> bool, key: Stored -> K, ks: set<K>): Stored -> bool {
    (s: Stored) => p(s) && key(s) in ks
  }

  /** SELECT key, SUM(...) WHERE p GROUP BY key, over the given groups. */
  function Grouped<K(!new)>(rows: seq<Stored>, p: Stored -> bool, key: Stored -> K, ks: set<K>): map<K, Sums> {
    map k | k in ks :: SumWhere(rows, Slice(p, key, k))
  }

  /** The groups of a grouped sum add up to the ungrouped sum. */
  lemma {:induction false} GroupsAddUp<K(!new)>(rows: seq<Stored>, p: Stored -> bool, key: Stored -> K, ks: set<K>)
    ensures MapSum(Grouped(rows, p, key, ks)) == SumWhere(rows, Among(p, key, ks))
    decreases |ks|
  {
    hide SumWhere;
    var m := Grouped(rows, p, key, ks);
    if ks == {} {
      assert m == map[];
      SumWhereNothing(rows, Among(p, key, ks));
    } else {
      var k :| k in ks;
      MapSumTakes(m, k);
      assert m - {k} == Grouped(rows, p, key, ks - {k});
      GroupsAddUp(rows, p, key, ks - {k});
      SumWhereSplits(rows, Among(p, key, ks), Slice(p, key, k), Among(p, key, ks - {k}));
    }
  }

  // ---------- The dashboard ----------

  function Between(lo: int, hi: int): Stored -> bool {
    (s: Stored) => s.row.Api? && lo <= s.row.req.ts < hi
  }

  /** The unix range of the local days from..to: the end is the next midnight. */
  function UnixRange(mid: int -> int, from: int, to: int): (int, int) {
    (At(mid, from), At(mid, to + 1))
  }

  function DaysBetween(agg: Agg, from: int, to: int): Agg {
    map k | k in agg && from <= k.day <= to :: agg[k]
  }

  /** SELECT SUM(...) FROM daily_model_agg WHERE date BETWEEN from AND to. */
  method DashboardTotals(agg: Agg, from: int, to: int) returns (total: Sums)
    ensures total == MapSum(DaysBetween(agg, from, to))
  {
    hide Plus, MapSum;
    total := ZERO_SUMS;
    var todo := agg.Keys;
    ghost var left := DaysBetween(agg, from, to);
    PlusZero(MapSum(left));
    while todo != {}
      invariant todo <= agg.Keys
      invariant left == map k | k in todo && from <= k.day <= to :: agg[k]
      invariant MapSum(DaysBetween(agg, from, to)) == Plus(total, MapSum(left))
      decreases |todo|
    {
      var k :| k in todo;
      if from <= k.day <= to {
        MapSumTakes(left, k);
        PlusMiddle(total, agg[k], MapSum(left - {k}));
        total := Plus(total, agg[k]);
      } else {
        assert left - {k} == left;
      }
      left, todo := left - {k}, todo - {k};
    }
    assert left == map[];
    NothingSumsToZero(left);
    PlusZero(total);
  }

  lemma NothingSumsToZero<K>(m: map<K, Sums>)
    requires m == map[]
    ensures MapSum(m) == ZERO_SUMS
  {
  }

  function AnyRow(): Stored -> bool {
    (s: Stored) => s.row.Api?
  }

  function KeyOf(day: int -> int): Stored -> Option<Key> {
    (s: Stored) => if s.row.Api? then Some(GroupKey(day, s.row.req)) else None
  }

  lemma {:induction false} GroupIsSlice(day: int -> int, rows: seq<Stored>, k: Key)
    ensures SumFor(day, rows, k) == SumWhere(rows, Slice(AnyRow(), KeyOf(day), Some(k)))
  {
    if rows != [] {
      GroupIsSlice(day, rows[..|rows| - 1], k);
    }
  }

  function Somes<K>(m: map<K, Sums>): map<Option<K>, Sums> {
    map k | k in m :: Some(k) := m[k]
  }

  lemma {:induction false} SomesSumTheSame<K(!new)>(m: map<K, Sums>)
    ensures MapSum(Somes(m)) == MapSum(m)
    decreases |m|
  {
    if m == map[] {
      assert Somes(m) == map[];
    } else {
      var k := Pick(m);
      MapShrinks(m, k);
      MapSumTakes(m, k);
      assert Some(k) in Somes(m);
      MapSumTakes(Somes(m), Some(k));
      assert Somes(m) - {Some(k)} == Somes(m - {k});
      SomesSumTheSame(m - {k});
    }
  }

  /** While the cache is right, the dashboard of some local days is the direct
      sum over the rows of those days' unix range. */
  lemma DashboardIsDirectSum(day: int -> int, mid: int -> int, rows: seq<Stored>, agg: Agg, from: int, to: int)
    requires Calendar(day, mid) && Agrees(day, rows, agg)
    ensures var range := UnixRange(mid, from, to);
      MapSum(DaysBetween(agg, from, to)) == SumWhere(rows, Between(range.0, range.1))
  {
    hide SumWhere, SumFor, MapSum;
    var days := DaysBetween(agg, from, to);
    var ks := set k | k in days :: Some(k);
    var grouped := Grouped(rows, AnyRow(), KeyOf(day), ks);
    forall k | k in days ensures days[k] == SumWhere(rows, Slice(AnyRow(), KeyOf(day), Some(k))) {
      GroupIsSlice(day, rows, k);
    }
    assert Somes(days) == grouped;
    SomesSumTheSame(days);
    GroupsAddUp(rows, AnyRow(), KeyOf(day), ks);
    forall i | 0 <= i < |rows| && rows[i].row.Api?
      ensures Sat(Among(AnyRow(), KeyOf(day), ks), rows[i]) == Sat(Between(At(mid, from), At(mid, to + 1)), rows[i])
    {
      assert GroupKey(day, rows[i].row.req) in Groups(day, rows);
      assert At(mid, from) <= rows[i].row.req.ts <==> from <= At(day, rows[i].row.req.ts);
      assert At(mid, to + 1) <= rows[i].row.req.ts <==> to + 1 <= At(day, rows[i].row.req.ts);
    }
    SumWhereSame(rows, Among(AnyRow(), KeyOf(day), ks), Between(At(mid, from), At(mid, to + 1)));
  }

  // ---------- The client table ----------

  function ServiceOf(): Stored -> string {
    (s: Stored) => if s.row.Api? then SqlFold(s.row.req.service) else ""
  }

  function Clients(rows: seq<Stored>, lo: int, hi: int): set<string> {
    set i | 0 <= i < |rows| && Sat(Between(lo, hi), rows[i]) :: SqlFold(rows[i].row.req.service)
  }

  function ClientSum(rows: seq<Stored>, lo: int, hi: int, svc: string): Sums {
    SumWhere(rows, Slice(Between(lo, hi), ServiceOf(), svc))
  }

  /** SELECT svc, SUM(...) FROM api_requests WHERE lo <= timestamp < hi GROUP BY svc. */
  method ClientStats(rows: seq<Stored>, lo: int, hi: int) returns (stats: map<string, Sums>)
    ensures stats == ClientTable(rows, lo, hi)
  {
    hide ClientTable;
    stats := map[];
    NoClients(lo, hi);
    for n := 0 to |rows|
      invariant stats == ClientTable(rows[..n], lo, hi)
    {
      assert rows[..n + 1] == rows[..n] + [rows[n]];
      ClientTableOfAppend(rows[..n], rows[n], lo, hi);
      if rows[n].row.Api? && lo <= rows[n].row.req.ts < hi {
        var svc := SqlFold(rows[n].row.req.service);
        stats := stats[svc := Plus(if svc in stats then stats[svc] else ZERO_SUMS, Contribution(rows[n].row.req))];
      }
    }
    assert rows[..|rows|] == rows;
  }

  function ClientTable(rows: seq<Stored>, lo: int, hi: int): map<string, Sums> {
    Grouped(rows, Between(lo, hi), ServiceOf(), Clients(rows, lo, hi))
  }

  lemma NoClients(lo: int, hi: int)
    ensures ClientTable([], lo, hi) == map[]
  {
  }

  lemma SatBetween(lo: int, hi: int, s: Stored)
    ensures Sat(Between(lo, hi), s) <==> s.row.Api? && lo <= s.row.req.ts < hi
  {
  }

  lemma ClientTableOfAppend(rows: seq<Stored>, s: Stored, lo: int, hi: int)
    ensures var before := ClientTable(rows, lo, hi);
      ClientTable(rows + [s], lo, hi) ==
        if s.row.Api? && lo <= s.row.req.ts < hi then
          var svc := SqlFold(s.row.req.service);
          before[svc := Plus(if svc in before then before[svc] else ZERO_SUMS, Contribution(s.row.req))]
        else before
  {
    hide Contribution, SqlFold, SumWhere, Plus, Clients, Slice, Sat, ServiceOf;
    ClientsOfAppend(rows, s, lo, hi);
    SatBetween(lo, hi, s);
    forall svc ensures Plus(ClientSum(rows, lo, hi, svc), ZERO_SUMS) == ClientSum(rows, lo, hi, svc) {
      PlusZero(ClientSum(rows, lo, hi, svc));
    }
    var before, after := ClientTable(rows, lo, hi), ClientTable(rows + [s], lo, hi);
    forall svc | svc in after ensures after[svc] == ClientSum(rows + [s], lo, hi, svc) {
    }
    forall svc | svc in before ensures before[svc] == ClientSum(rows, lo, hi, svc) {
    }
  }

  lemma ClientsOfAppend(rows: seq<Stored>, s: Stored, lo: int, hi: int)
    ensures Clients(rows + [s], lo, hi) == Clients(rows, lo, hi) + if Sat(Between(lo, hi), s) then {SqlFold(s.row.req.service)} else {}
    ensures forall svc :: ClientSum(rows + [s], lo, hi, svc)
                       == Plus(ClientSum(rows, lo, hi, svc),
                               if Sat(Between(lo, hi), s) && SqlFold(s.row.req.service) == svc then Contribution(s.row.req) else ZERO_SUMS)
    ensures forall svc :: svc !in Clients(rows, lo, hi) ==> ClientSum(rows, lo, hi, svc) == ZERO_SUMS
  {
    hide Contribution, SqlFold;
    var all := rows + [s];
    assert all[..|rows|] == rows;
    forall svc
      ensures svc in Clients(all, lo, hi) <==> svc in Clients(rows, lo, hi) || (Sat(Between(lo, hi), s) && svc == SqlFold(s.row.req.service))
    {
      if svc in Clients(rows, lo, hi) {
        var i :| 0 <= i < |rows| && Sat(Between(lo, hi), rows[i]) && SqlFold(rows[i].row.req.service) == svc;
        assert all[i] == rows[i];
      }
      if Sat(Between(lo, hi), s) && svc == SqlFold(s.row.req.service) {
        assert all[|rows|] == s;
      }
    }
    forall svc | svc !in Clients(rows, lo, hi) ensures ClientSum(rows, lo, hi, svc) == ZERO_SUMS {
      SumWhereNothing(rows, Slice(Between(lo, hi), ServiceOf(), svc));
    }
  }

  /** The clients of a date range add up to its dashboard: one figure from the
      rows, one from the cache. */
  lemma ClientsAddUpToDashboard(day: int -> int, mid: int -> int, rows: seq<Stored>, agg: Agg, from: int, to: int)
    requires Calendar(day, mid) && Agrees(day, rows, agg)
    ensures var range := UnixRange(mid, from, to);
      MapSum(ClientTable(rows, range.0, range.1)) == MapSum(DaysBetween(agg, from, to))
  {
    hide SumWhere, SumFor, MapSum;
    var range := UnixRange(mid, from, to);
    var p, ks := Between(range.0, range.1), Clients(rows, range.0, range.1);
    DashboardIsDirectSum(day, mid, rows, agg, from, to);
    GroupsAddUp(rows, p, ServiceOf(), ks);
    SumWhereSame(rows, Among(p, ServiceOf(), ks), p);
  }

  // ---------- Self-healing at start ----------

  /** Some row is older than all the cache covers. */
  predicate Uncovered(day: int -> int, rows: seq<Stored>, agg: Agg) {
    exists i :: 0 <= i < |rows| && rows[i].row.Api? && forall k :: k in agg ==> At(day, rows[i].row.req.ts) < k.day
  }

  method NeedsAggRebuild(day: int -> int, ghost mid: int -> int, rows: seq<Stored>, agg: Agg) returns (needed: bool)
    requires Calendar(day, mid)
    ensures needed == Uncovered(day, rows, agg)
  {
    CalendarsAreMonotone(day, mid);
    var oldest: Option<int> := None;
    for n := 0 to |rows|
      invariant oldest.None? <==> forall i :: 0 <= i < n ==> !rows[i].row.Api?
      invariant oldest.Some? ==> exists i :: 0 <= i < n && rows[i].row.Api? && rows[i].row.req.ts == oldest.value
      invariant oldest.Some? ==> forall i :: 0 <= i < n && rows[i].row.Api? ==> oldest.value <= rows[i].row.req.ts
    {
      if rows[n].row.Api? && (oldest.None? || rows[n].row.req.ts < oldest.value) {
        oldest := Some(rows[n].row.req.ts);
      }
    }
    if agg == map[] {
      return oldest.Some?;
    }
    if oldest.None? {
      return false;
    }
    var first :| first in agg;
    var todo := agg.Keys;
    while todo != {}
      invariant todo <= agg.Keys && first in agg
      invariant forall k :: k in agg && k !in todo ==> first.day <= k.day
      decreases |todo|
    {
      var k :| k in todo;
      if k.day < first.day {
        first := k;
      }
      todo := todo - {k};
    }
    return first.day > At(day, oldest.value);
  }

  /** A right cache is never rebuilt for coverage. */
  lemma AgreementNeedsNoRebuild(day: int -> int, rows: seq<Stored>, agg: Agg)
    requires Agrees(day, rows, agg)
    ensures !Uncovered(day, rows, agg)
  {
    forall i | 0 <= i < |rows| && rows[i].row.Api? ensures exists k :: k in agg && k.day <= At(day, rows[i].row.req.ts) {
      assert GroupKey(day, rows[i].row.req) in Groups(day, rows);
    }
  }

  /** A rebuild is asked for exactly if it would give a group of an earlier day than
      all the cache has. */
  lemma RebuildIsAskedForAGroup(day: int -> int, rows: seq<Stored>, agg: Agg)
    ensures Uncovered(day, rows, agg) <==> exists g :: g in GroupBy(day, rows) && forall k :: k in agg ==> g.day < k.day
  {
    hide SumFor;
    forall i | 0 <= i < |rows| && rows[i].row.Api? ensures GroupKey(day, rows[i].row.req) in GroupBy(day, rows) {
    }
    forall g | g in GroupBy(day, rows) ensures exists i :: 0 <= i < |rows| && rows[i].row.Api? && GroupKey(day, rows[i].row.req) == g {
    }
  }
}
