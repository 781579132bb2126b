/** Repricing stored rows: a scan, chunked writes with a possible crash between
    chunks, and a full rebuild of the aggregate. */
module Recompute {
  import opened Rows
  import opened Aggregate
  import opened Pool
  import opened Completion
  import opened RepositoryModule
  import Pricing
  import Runs

  const COST_SCALE := 100000.0
  const CHUNK := 5000

  /** reg.Calc under one price table: dollars for a model and four token counts. */
  type Pricer = (string, int, int, int, int) -> real

  /** Costs are stored in units of 1/100000 dollar, rounded half away from zero. */
  function Units(usd: real): (u: int)
    ensures usd >= 0.0 ==> u as real - 0.5 <= usd * COST_SCALE < u as real + 0.5
    ensures usd < 0.0 ==> u as real - 0.5 < usd * COST_SCALE <= u as real + 0.5
  {
    if usd >= 0.0 then (usd * COST_SCALE + 0.5).Floor else -((-usd * COST_SCALE + 0.5).Floor)
  }

  function Price(p: Pricer, q: Request): real {
    p(q.model, q.tok.input, q.tok.output, q.tok.cacheRead, q.tok.cacheCreate)
  }

  // ---------- The scan ----------

  datatype Verdict = KeptUpstream | NoTokens | Unpriced | Unchanged | Repriced(units: int)

  function Judge(p: Pricer, q: Request): Verdict {
    if Pricing.Authoritative(Normalize(q.service), q.model) then KeptUpstream
    else if q.tok.input == 0 && q.tok.output == 0 && q.tok.cacheRead == 0 && q.tok.cacheCreate == 0 then NoTokens
    else if Price(p, q) <= 0.0 then Unpriced
    else if Units(Price(p, q)) == q.cost then Unchanged
    else Repriced(Units(Price(p, q)))
  }

  /** The options of a run: unix seconds, `until` exclusive. */
  datatype Window = Window(since: int, until: int)

  predicate InWindow(w: Window, s: Stored) {
    s.row.Api? && w.since <= s.row.req.ts < w.until
  }

  datatype Change = Change(id: int, units: int)

  function ChangeOf(p: Pricer, w: Window, s: Stored): (cs: seq<Change>)
    ensures |cs| <= 1 && (cs != [] ==> InWindow(w, s) && Judge(p, s.row.req).Repriced?)
  {
    if InWindow(w, s) && Judge(p, s.row.req).Repriced? then [Change(s.id, Judge(p, s.row.req).units)] else []
  }

  function Changes(p: Pricer, w: Window, rows: seq<Stored>): seq<Change> {
    if rows == [] then [] else Changes(p, w, rows[..|rows| - 1]) + ChangeOf(p, w, rows[|rows| - 1])
  }

  // The figures of a scan, row by row.

  function Scanned(w: Window, rows: seq<Stored>): nat {
    if rows == [] then 0 else Scanned(w, rows[..|rows| - 1]) + if InWindow(w, rows[|rows| - 1]) then 1 else 0
  }

  predicate IsKept(p: Pricer, w: Window, s: Stored) {
    InWindow(w, s) && Judge(p, s.row.req).KeptUpstream?
  }

  predicate IsMissed(p: Pricer, w: Window, s: Stored) {
    InWindow(w, s) && Judge(p, s.row.req).Unpriced?
  }

  function Kept(p: Pricer, w: Window, rows: seq<Stored>): nat {
    if rows == [] then 0 else Kept(p, w, rows[..|rows| - 1]) + if IsKept(p, w, rows[|rows| - 1]) then 1 else 0
  }

  function Missed(p: Pricer, w: Window, rows: seq<Stored>): nat {
    if rows == [] then 0 else Missed(p, w, rows[..|rows| - 1]) + if IsMissed(p, w, rows[|rows| - 1]) then 1 else 0
  }

  function MissedOf(p: Pricer, w: Window, rows: seq<Stored>, model: string): nat {
    if rows == [] then 0
    else
      var s := rows[|rows| - 1];
      MissedOf(p, w, rows[..|rows| - 1], model) + if IsMissed(p, w, s) && s.row.req.model == model then 1 else 0
  }

  datatype Summary = Summary(scanned: nat, skipped: nat, missing: nat, missByModel: map<string, nat>, changes: seq<Change>)

  predicate CountsMisses(p: Pricer, w: Window, rows: seq<Stored>, misses: map<string, nat>) {
    && (forall m :: m in misses ==> misses[m] == MissedOf(p, w, rows, m) > 0)
    && (forall i :: 0 <= i < |rows| && IsMissed(p, w, rows[i]) ==> rows[i].row.req.model in misses)
  }

  /** The misses of a model that never was missed. */
  lemma {:induction false} NeverMissed(p: Pricer, w: Window, rows: seq<Stored>, model: string)
    requires forall i :: 0 <= i < |rows| && IsMissed(p, w, rows[i]) ==> rows[i].row.req.model != model
    ensures MissedOf(p, w, rows, model) == 0
  {
    if rows != [] {
      NeverMissed(p, w, rows[..|rows| - 1], model);
    }
  }

  lemma MissesOfNext(p: Pricer, w: Window, rows: seq<Stored>, s: Stored, misses: map<string, nat>)
    requires CountsMisses(p, w, rows, misses)
    ensures CountsMisses(p, w, rows + [s], AddMiss(misses, if IsMissed(p, w, s) then Some(s.row.req.model) else None))
  {
    hide Judge;
    var all := rows + [s];
    assert all[..|rows|] == rows;
    if IsMissed(p, w, s) && s.row.req.model !in misses {
      NeverMissed(p, w, rows, s.row.req.model);
    }
  }

  function AddMiss(misses: map<string, nat>, model: Option<string>): map<string, nat> {
    if model.None? then misses else misses[model.value := (if model.value in misses then misses[model.value] else 0) + 1]
  }

  method Scan(p: Pricer, w: Window, rows: seq<Stored>) returns (summary: Summary)
    ensures summary.changes == Changes(p, w, rows)
    ensures summary.scanned == Scanned(w, rows) && summary.skipped == Kept(p, w, rows) && summary.missing == Missed(p, w, rows)
    ensures CountsMisses(p, w, rows, summary.missByModel)
  {
    hide ChangeOf, IsKept, Judge, CountsMisses;
    summary := Summary(0, 0, 0, map[], []);
    assert CountsMisses(p, w, rows[..0], map[]) by {
      NothingMissed(p, w);
    }
    for n := 0 to |rows|
      invariant summary.changes == Changes(p, w, rows[..n])
      invariant summary.scanned == Scanned(w, rows[..n]) && summary.skipped == Kept(p, w, rows[..n]) && summary.missing == Missed(p, w, rows[..n])
      invariant CountsMisses(p, w, rows[..n], summary.missByModel)
    {
      assert rows[..n + 1][..n] == rows[..n];
      assert rows[..n + 1] == rows[..n] + [rows[n]];
      MissesOfNext(p, w, rows[..n], rows[n], summary.missByModel);
      summary := Count(p, w, rows[n], summary);
    }
    assert rows[..|rows|] == rows;
  }

  lemma NothingMissed(p: Pricer, w: Window)
    ensures CountsMisses(p, w, [], map[])
  {
  }

  /** One row of the table. */
  method Count(p: Pricer, w: Window, s: Stored, before: Summary) returns (summary: Summary)
    ensures summary.scanned == before.scanned + if InWindow(w, s) then 1 else 0
    ensures summary.changes == before.changes + ChangeOf(p, w, s)
    ensures summary.skipped == before.skipped + if IsKept(p, w, s) then 1 else 0
    ensures summary.missing == before.missing + if IsMissed(p, w, s) then 1 else 0
    ensures summary.missByModel == AddMiss(before.missByModel, if IsMissed(p, w, s) then Some(s.row.req.model) else None)
  {
    hide Units, Pricing.Authoritative, Blank;
    if !InWindow(w, s) {
      return before;
    }
    var q := s.row.req;
    summary := before.(scanned := before.scanned + 1);
    var service := if Blank(q.service) then DEFAULT_SERVICE else q.service;
    if Pricing.Authoritative(service, q.model) {
      return summary.(skipped := summary.skipped + 1);
    }
    if q.tok.input == 0 && q.tok.output == 0 && q.tok.cacheRead == 0 && q.tok.cacheCreate == 0 {
      return;
    }
    var usd := p(q.model, q.tok.input, q.tok.output, q.tok.cacheRead, q.tok.cacheCreate);
    if usd <= 0.0 {
      var misses := (if q.model in summary.missByModel then summary.missByModel[q.model] else 0) + 1;
      return summary.(missing := summary.missing + 1, missByModel := summary.missByModel[q.model := misses]);
    }
    var units := Units(usd);
    if units == q.cost {
      return;
    }
    summary := summary.(changes := summary.changes + [Change(s.id, units)]);
  }

  // ---------- The writes ----------

  /** UPDATE api_requests SET cost_usd = ? WHERE id = ? */
  function SetCost(rows: seq<Stored>, c: Change): (r: seq<Stored>)
    ensures |r| == |rows|
  {
    seq(|rows|, i requires 0 <= i < |rows| =>
      if rows[i].row.Api? && rows[i].id == c.id then rows[i].(row := Api(rows[i].row.req.(cost := c.units))) else rows[i])
  }

  function Written(rows: seq<Stored>, cs: seq<Change>): (r: seq<Stored>)
    ensures |r| == |rows|
    decreases |cs|
  {
    if cs == [] then rows else SetCost(Written(rows, cs[..|cs| - 1]), cs[|cs| - 1])
  }

  /** The row a finished run leaves: priced by this table, if it is priced. */
  function Target(p: Pricer, w: Window, s: Stored): Stored {
    if InWindow(w, s) && Judge(p, s.row.req).Repriced? then s.(row := Api(s.row.req.(cost := Judge(p, s.row.req).units))) else s
  }

  predicate ApiIdsDiffer(rows: seq<Stored>) {
    forall i, j :: 0 <= i < j < |rows| && rows[i].row.Api? && rows[j].row.Api? ==> rows[i].id != rows[j].id
  }

  /** Between the scan and the end every row is as it was or as it will be. */
  predicate Midway(p: Pricer, w: Window, rows: seq<Stored>, now: seq<Stored>) {
    |now| == |rows| && forall i :: 0 <= i < |rows| ==> now[i] == rows[i] || now[i] == Target(p, w, rows[i])
  }

  predicate Finished(p: Pricer, w: Window, rows: seq<Stored>, now: seq<Stored>) {
    |now| == |rows| && forall i :: 0 <= i < |rows| ==> now[i] == Target(p, w, rows[i])
  }

  /** The last cost some changes hold for an id. */
  function Wanted(cs: seq<Change>, id: int): Option<int> {
    if cs == [] then None
    else if cs[|cs| - 1].id == id then Some(cs[|cs| - 1].units)
    else Wanted(cs[..|cs| - 1], id)
  }

  lemma {:induction false} WrittenAt(rows: seq<Stored>, cs: seq<Change>, i: int)
    requires 0 <= i < |rows|
    ensures Written(rows, cs)[i] ==
      if rows[i].row.Api? && Wanted(cs, rows[i].id).Some?
      then rows[i].(row := Api(rows[i].row.req.(cost := Wanted(cs, rows[i].id).value)))
      else rows[i]
    decreases |cs|
  {
    if cs != [] {
      WrittenAt(rows, cs[..|cs| - 1], i);
    }
  }

  lemma {:induction false} ChangesAreJudged(p: Pricer, w: Window, rows: seq<Stored>, n: int)
    requires 0 <= n < |Changes(p, w, rows)|
    ensures exists i :: 0 <= i < |rows| && ChangeOf(p, w, rows[i]) == [Changes(p, w, rows)[n]]
    decreases |rows|
  {
    hide ChangeOf, Judge, InWindow;
    var k := |rows| - 1;
    var before, last := Changes(p, w, rows[..k]), ChangeOf(p, w, rows[k]);
    assert Changes(p, w, rows) == before + last;
    if n < |before| {
      ChangesAreJudged(p, w, rows[..k], n);
      var i :| 0 <= i < k && ChangeOf(p, w, rows[..k][i]) == [before[n]];
      assert rows[i] == rows[..k][i];
    } else {
      assert last == [last[n - |before|]];
    }
  }

  lemma {:induction false} WantedIsThere(cs: seq<Change>, id: int)
    requires Wanted(cs, id).Some?
    ensures exists n :: 0 <= n < |cs| && cs[n] == Change(id, Wanted(cs, id).value)
    decreases |cs|
  {
    var k := |cs| - 1;
    if cs[k].id == id {
      assert cs[k] == Change(id, Wanted(cs, id).value);
    } else {
      WantedIsThere(cs[..k], id);
      var n :| 0 <= n < k && cs[..k][n] == Change(id, Wanted(cs, id).value);
      assert cs[n] == cs[..k][n];
    }
  }

  /** A prefix of the changes wants for a row what the judgement of that row says. */
  lemma WantedIsJudged(p: Pricer, w: Window, rows: seq<Stored>, k: nat, i: int)
    requires ApiIdsDiffer(rows) && k <= |Changes(p, w, rows)| && 0 <= i < |rows| && rows[i].row.Api?
    requires Wanted(Changes(p, w, rows)[..k], rows[i].id).Some?
    ensures ChangeOf(p, w, rows[i]) == [Change(rows[i].id, Wanted(Changes(p, w, rows)[..k], rows[i].id).value)]
  {
    hide Judge, Changes, Wanted;
    var cs := Changes(p, w, rows)[..k];
    WantedIsThere(cs, rows[i].id);
    var n :| 0 <= n < |cs| && cs[n] == Change(rows[i].id, Wanted(cs, rows[i].id).value);
    ChangesAreJudged(p, w, rows, n);
    var j :| 0 <= j < |rows| && ChangeOf(p, w, rows[j]) == [Changes(p, w, rows)[n]];
    assert rows[j].row.Api? && rows[j].id == rows[i].id;
  }

  lemma WantedOfAppend(cs: seq<Change>, more: seq<Change>, id: int)
    requires |more| <= 1
    ensures Wanted(cs + more, id) == if more != [] && more[0].id == id then Some(more[0].units) else Wanted(cs, id)
  {
    if more == [] {
      assert cs + more == cs;
    } else {
      assert (cs + more)[..|cs|] == cs;
    }
  }

  lemma {:induction false} JudgedIsWanted(p: Pricer, w: Window, rows: seq<Stored>, i: int)
    requires 0 <= i < |rows| && ChangeOf(p, w, rows[i]) != []
    ensures Wanted(Changes(p, w, rows), rows[i].id).Some?
    decreases |rows|
  {
    hide Judge, InWindow, Wanted;
    var k := |rows| - 1;
    WantedOfAppend(Changes(p, w, rows[..k]), ChangeOf(p, w, rows[k]), rows[i].id);
    if i < k {
      JudgedIsWanted(p, w, rows[..k], i);
    }
  }

  /** Stopping after any number of changes leaves the table midway; writing them
      all finishes it. */
  lemma WritesAreMidway(p: Pricer, w: Window, rows: seq<Stored>, k: nat)
    requires ApiIdsDiffer(rows) && k <= |Changes(p, w, rows)|
    ensures Midway(p, w, rows, Written(rows, Changes(p, w, rows)[..k]))
    ensures k == |Changes(p, w, rows)| ==> Finished(p, w, rows, Written(rows, Changes(p, w, rows)[..k]))
  {
    hide Judge, Changes, Wanted, Written;
    var cs := Changes(p, w, rows);
    forall i | 0 <= i < |rows|
      ensures Written(rows, cs[..k])[i] == rows[i] || Written(rows, cs[..k])[i] == Target(p, w, rows[i])
      ensures k == |cs| ==> Written(rows, cs[..k])[i] == Target(p, w, rows[i])
    {
      WrittenAt(rows, cs[..k], i);
      if rows[i].row.Api? && Wanted(cs[..k], rows[i].id).Some? {
        WantedIsJudged(p, w, rows, k, i);
      } else if k == |cs| && ChangeOf(p, w, rows[i]) != [] {
        assert cs[..k] == cs;
        JudgedIsWanted(p, w, rows, i);
      }
    }
  }

  lemma TargetIsSettled(p: Pricer, w: Window, s: Stored)
    ensures Target(p, w, Target(p, w, s)) == Target(p, w, s)
    ensures ChangeOf(p, w, Target(p, w, s)) == []
  {
    hide Units;
  }

  lemma {:induction false} SettledHasNoChanges(p: Pricer, w: Window, rows: seq<Stored>)
    requires forall i :: 0 <= i < |rows| ==> ChangeOf(p, w, rows[i]) == []
    ensures Changes(p, w, rows) == []
  {
    hide ChangeOf;
    if rows != [] {
      SettledHasNoChanges(p, w, rows[..|rows| - 1]);
    }
  }

  /** Whatever a crashed run left, a rerun ends where the run would have, and
      from there a further run finds nothing to change. */
  lemma RerunFinishesTheSame(p: Pricer, w: Window, rows: seq<Stored>, now: seq<Stored>)
    requires ApiIdsDiffer(rows) && Midway(p, w, rows, now)
    ensures Written(now, Changes(p, w, now)) == Written(rows, Changes(p, w, rows))
    ensures Changes(p, w, Written(rows, Changes(p, w, rows))) == []
  {
    hide Judge, Changes, Written;
    MidwayKeepsIds(p, w, rows, now);
    var all, more := Changes(p, w, rows), Changes(p, w, now);
    assert all[..|all|] == all && more[..|more|] == more;
    WritesAreMidway(p, w, rows, |all|);
    WritesAreMidway(p, w, now, |more|);
    var end := Written(rows, all);
    forall i | 0 <= i < |rows| ensures Written(now, more)[i] == end[i] && ChangeOf(p, w, end[i]) == [] {
      TargetIsSettled(p, w, rows[i]);
    }
    SettledHasNoChanges(p, w, end);
  }

  lemma MidwayKeepsIds(p: Pricer, w: Window, rows: seq<Stored>, now: seq<Stored>)
    requires ApiIdsDiffer(rows) && Midway(p, w, rows, now)
    ensures ApiIdsDiffer(now)
  {
    hide Judge;
    forall i | 0 <= i < |rows| ensures now[i].id == rows[i].id && now[i].row.Api? == rows[i].row.Api? {
    }
  }

  // ---------- One run ----------

  /** Some chunks of the changes are written. */
  ghost predicate StoppedAtChunk(rows: seq<Stored>, cs: seq<Change>, now: seq<Stored>) {
    exists k: nat :: k <= |cs| && (k % CHUNK == 0 || k == |cs|) && now == Written(rows, cs[..k])
  }

  /** A request of the window that the table prices: not trusted upstream, some
      usage, and a price. */
  predicate IsPriced(p: Pricer, w: Window, s: Stored) {
    && s.row.Api? && w.since <= s.row.req.ts && s.row.req.ts < w.until
    && !Pricing.Authoritative(if Blank(s.row.req.service) then "claude-code" else s.row.req.service, s.row.req.model)
    && (s.row.req.tok.input != 0 || s.row.req.tok.output != 0 || s.row.req.tok.cacheRead != 0 || s.row.req.tok.cacheCreate != 0)
    && Dollars(p, s.row.req) > 0.0
  }

  function Dollars(p: Pricer, q: Request): real {
    Ask(p, q.model, q.tok.input, q.tok.output, q.tok.cacheRead, q.tok.cacheCreate)
  }

  /** Such a request costs its price to the nearest unit and is otherwise as it was;
      any other row is as it was. */
  predicate RepricedAt(p: Pricer, w: Window, s: Stored, t: Stored) {
    if IsPriced(p, w, s) then
      && t.id == s.id && t.row.Api? && t.row.req == s.row.req.(cost := t.row.req.cost)
      && t.row.req.cost as real - 0.5 <= Dollars(p, s.row.req) * 100000.0 < t.row.req.cost as real + 0.5
    else t == s
  }

  predicate AllRepriced(p: Pricer, w: Window, before: seq<Stored>, after: seq<Stored>) {
    |after| == |before| && forall i :: 0 <= i < |before| ==> RepricedAt(p, w, before[i], after[i])
  }

  /** Every row is as it was or repriced. */
  predicate SomeRepriced(p: Pricer, w: Window, before: seq<Stored>, after: seq<Stored>) {
    |after| == |before| && forall i :: 0 <= i < |before| ==> after[i] == before[i] || RepricedAt(p, w, before[i], after[i])
  }

  predicate IsTrusted(s: Stored)
    requires s.row.Api?
  {
    Pricing.Authoritative(if Blank(s.row.req.service) then "claude-code" else s.row.req.service, s.row.req.model)
  }

  predicate HasCounters(s: Stored)
    requires s.row.Api?
  {
    s.row.req.tok.input != 0 || s.row.req.tok.output != 0 || s.row.req.tok.cacheRead != 0 || s.row.req.tok.cacheCreate != 0
  }

  predicate IsInTime(w: Window, s: Stored) {
    s.row.Api? && w.since <= s.row.req.ts && s.row.req.ts < w.until
  }

  /** What a scan counts and what it changes, row by row: a request of the window is
      kept as trusted, has no usage, has no price, already costs its price, or is
      changed to it. */
  lemma ScanTells(p: Pricer, w: Window, s: Stored)
    ensures InWindow(w, s) <==> IsInTime(w, s)
    ensures IsKept(p, w, s) <==> IsInTime(w, s) && IsTrusted(s)
    ensures IsMissed(p, w, s) <==> IsInTime(w, s) && !IsTrusted(s) && HasCounters(s) && Dollars(p, s.row.req) <= 0.0
    ensures ChangeOf(p, w, s) != [] <==>
      IsPriced(p, w, s) && !(s.row.req.cost as real - 0.5 <= Dollars(p, s.row.req) * 100000.0 < s.row.req.cost as real + 0.5)
    ensures ChangeOf(p, w, s) != [] ==> ChangeOf(p, w, s) == [Change(s.id, Units(Dollars(p, s.row.req)))]
  {
    hide Pricing.Authoritative, Blank;
    if IsPriced(p, w, s) {
      NearestUnit(Dollars(p, s.row.req), s.row.req.cost);
    }
  }

  /** Only one number of units is nearest. */
  lemma NearestUnit(usd: real, units: int)
    requires usd >= 0.0
    ensures Units(usd) == units <==> units as real - 0.5 <= usd * 100000.0 < units as real + 0.5
  {
    hide Units;
  }

  lemma TargetIsRepriced(p: Pricer, w: Window, s: Stored)
    ensures RepricedAt(p, w, s, Target(p, w, s))
  {
    hide Pricing.Authoritative, Blank;
    if IsPriced(p, w, s) && Units(Price(p, s.row.req)) == s.row.req.cost {
      assert s.row == Api(s.row.req.(cost := s.row.req.cost));
    }
  }

  /** What the changes of a scan make of the rows, all of them or the first k. */
  lemma WritesReprice(p: Pricer, w: Window, rows: seq<Stored>, k: nat)
    requires ApiIdsDiffer(rows) && k <= |Changes(p, w, rows)|
    ensures SomeRepriced(p, w, rows, Written(rows, Changes(p, w, rows)[..k]))
    ensures AllRepriced(p, w, rows, Written(rows, Changes(p, w, rows)))
  {
    hide Changes, Written, Target, RepricedAt;
    var cs := Changes(p, w, rows);
    assert cs[..|cs|] == cs;
    WritesAreMidway(p, w, rows, k);
    WritesAreMidway(p, w, rows, |cs|);
    forall i | 0 <= i < |rows| ensures RepricedAt(p, w, rows[i], Target(p, w, rows[i])) {
      TargetIsRepriced(p, w, rows[i]);
    }
  }

  /** applyChanges, then rebuildAgg. `commits` chunks get through before a crash;
      None for a run that does not crash. Returns whether it ended. */
  method Run(repo: Repository, p: Pricer, w: Window, apply: bool, commits: Option<nat>) returns (ended: bool, summary: Summary)
    modifies repo`rows, repo`agg
    ensures summary.changes == Changes(p, w, old(repo.rows))
    ensures !apply ==> repo.State() == old(repo.State())
    ensures apply && ended ==> repo.rows == Written(old(repo.rows), summary.changes) && repo.agg == GroupBy(repo.day, repo.rows)
    ensures apply && !ended ==> repo.agg == old(repo.agg) && StoppedAtChunk(old(repo.rows), summary.changes, repo.rows)
    ensures ApiIdsDiffer(old(repo.rows)) && apply && ended ==> AllRepriced(p, w, old(repo.rows), repo.rows)
    ensures ApiIdsDiffer(old(repo.rows)) && apply && !ended ==> SomeRepriced(p, w, old(repo.rows), repo.rows)
    ensures commits.None? ==> ended
  {
    hide Changes, Written, CountsMisses, Missed, AllRepriced, SomeRepriced, ApiIdsDiffer;
    ghost var before := repo.rows;
    WrittenNothing(repo.rows);
    summary := Scan(p, w, repo.rows);
    if !apply {
      return true, summary;
    }
    var start, done := 0, 0;
    while start < |summary.changes|
      invariant start % CHUNK == 0
      invariant repo.rows == Written(old(repo.rows), summary.changes[..Least(start, |summary.changes|)])
      invariant repo.agg == old(repo.agg)
      decreases |summary.changes| - start
    {
      if commits == Some(done) {
        WritesRepriceIf(p, w, before, Least(start, |summary.changes|));
        return false, summary;
      }
      var end := Least(start + CHUNK, |summary.changes|);
      WriteChunk(repo, summary.changes, start, end);
      start, done := start + CHUNK, done + 1;
    }
    assert summary.changes[..|summary.changes|] == summary.changes;
    WritesRepriceIf(p, w, before, |summary.changes|);
    if commits == Some(done) {
      return false, summary;
    }
    repo.RebuildDailyAggregates();
    return true, summary;
  }

  lemma WritesRepriceIf(p: Pricer, w: Window, rows: seq<Stored>, k: nat)
    requires k <= |Changes(p, w, rows)|
    ensures ApiIdsDiffer(rows) ==> SomeRepriced(p, w, rows, Written(rows, Changes(p, w, rows)[..k]))
    ensures ApiIdsDiffer(rows) ==> AllRepriced(p, w, rows, Written(rows, Changes(p, w, rows)))
  {
    hide ApiIdsDiffer, SomeRepriced, AllRepriced, Changes, Written;
    if ApiIdsDiffer(rows) {
      WritesReprice(p, w, rows, k);
    }
  }

  function Least(a: int, b: int): int {
    if a > b then b else a
  }

  lemma WrittenNothing(rows: seq<Stored>)
    ensures Written(rows, []) == rows
  {
  }

  /** One chunk, one transaction. */
  method WriteChunk(repo: Repository, changes: seq<Change>, start: nat, end: nat)
    requires start <= end <= |changes|
    modifies repo`rows
    ensures repo.rows == Written(old(repo.rows), changes[start..end])
    ensures forall before :: old(repo.rows) == Written(before, changes[..start]) ==> repo.rows == Written(before, changes[..end])
  {
    for n := start to end
      invariant repo.rows == Written(old(repo.rows), changes[start..n])
      invariant forall before :: old(repo.rows) == Written(before, changes[..start]) ==> repo.rows == Written(before, changes[..n])
    {
      assert changes[start..n + 1][..n - start] == changes[start..n];
      assert changes[..n + 1][..n] == changes[..n];
      repo.rows := SetCost(repo.rows, changes[n]);
    }
  }

  /** An applied run repairs any cache, also one a crashed run left stale, and
      keeps what the live writers rely on. */
  lemma FinishedRunIsSound(day: int -> int, p: Pricer, w: Window, db: Db)
    requires WellFormed(db) && PendingFree(db.rows)
    ensures var rows := Written(db.rows, Changes(p, w, db.rows)); Sound(day, db.(rows := rows, agg := GroupBy(day, rows)))
  {
    hide Judge, Changes, Written, Wanted;
    var cs := Changes(p, w, db.rows);
    assert cs[..|cs|] == cs;
    WritesAreMidway(p, w, db.rows, |cs|);
    forall i | 0 <= i < |db.rows| ensures TargetKeeps(db.rows[i], Target(p, w, db.rows[i])) {
      TargetKeepsTheRest(p, w, db.rows[i]);
    }
  }

  predicate TargetKeeps(s: Stored, t: Stored) {
    t.id == s.id && TableOf(t.row) == TableOf(s.row) && t.row.Api? == s.row.Api?
    && (s.row.Api? ==> t.row.req == s.row.req.(cost := t.row.req.cost) && (s.row.req.tok == NO_TOKENS ==> t.row.req.cost == s.row.req.cost))
  }

  lemma TargetKeepsTheRest(p: Pricer, w: Window, s: Stored)
    ensures TargetKeeps(s, Target(p, w, s))
  {
    hide Units;
  }

  // ---------- Beside the live writers ----------

  lemma SameChargeSameTarget(p: Pricer, w: Window, a: Stored, b: Stored)
    requires Runs.SameCharge(a, b)
    ensures ChangeOf(p, w, a) == ChangeOf(p, w, b)
    ensures Target(p, w, b) == if ChangeOf(p, w, b) == [] then b else b.(row := Api(b.row.req.(cost := ChangeOf(p, w, b)[0].units)))
  {
    hide Units, Pricing.Authoritative;
  }

  lemma NoTokensNoChange(p: Pricer, w: Window, s: Stored)
    requires s.row.Api? && s.row.req.tok == NO_TOKENS
    ensures ChangeOf(p, w, s) == []
  {
  }

  /** Between the scan and the writes any live writers may commit. Every row the
      scan saw with tokens still ends at its target, and what changed in between,
      a row finalized or inserted after the scan, is left alone. */
  lemma WritesBesideLiveWriters(day: int -> int, p: Pricer, w: Window, db: Db, steps: seq<Runs.Step>, i: int)
    requires var now := Runs.Run(day, db, steps).rows; ApiIdsDiffer(db.rows) && ApiIdsDiffer(now) && 0 <= i < |now|
    ensures var now := Runs.Run(day, db, steps).rows; var end := Written(now, Changes(p, w, db.rows));
      end[i] == if i < |db.rows| && Runs.HasTokens(db.rows[i]) then Target(p, w, now[i]) else now[i]
  {
    hide Judge, Changes, Wanted, Written, Runs.Run, Target;
    var rows, now, cs := db.rows, Runs.Run(day, db, steps).rows, Changes(p, w, db.rows);
    Runs.RunRemembers(day, db, steps);
    Runs.RunKeepsCharged(day, db, steps);
    assert cs[..|cs|] == cs;
    WrittenAt(now, cs, i);
    if i >= |rows| {
      if now[i].row.Api? && Wanted(cs, now[i].id).Some? {
        var j := WantedRow(p, w, rows, now[i].id);
      }
    } else if rows[i].row.Api? {
      if Wanted(cs, rows[i].id).Some? {
        WantedIsJudged(p, w, rows, |cs|, i);
      } else if ChangeOf(p, w, rows[i]) != [] {
        JudgedIsWanted(p, w, rows, i);
      }
      if Runs.HasTokens(rows[i]) {
        SameChargeSameTarget(p, w, rows[i], now[i]);
      } else {
        NoTokensNoChange(p, w, rows[i]);
      }
    }
  }

  lemma WantedRow(p: Pricer, w: Window, rows: seq<Stored>, id: int) returns (j: int)
    requires Wanted(Changes(p, w, rows), id).Some?
    ensures 0 <= j < |rows| && rows[j].row.Api? && rows[j].id == id
  {
    hide Judge, Changes, Wanted;
    var cs := Changes(p, w, rows);
    WantedIsThere(cs, id);
    var n :| 0 <= n < |cs| && cs[n] == Change(id, Wanted(cs, id).value);
    ChangesAreJudged(p, w, rows, n);
    j :| 0 <= j < |rows| && ChangeOf(p, w, rows[j]) == [cs[n]];
  }

  // ---------- Against ingestion ----------

  /** Export, for one request: reprice unless the reported cost is trusted, and
      keep the reported cost when the registry has no price. */
  function Ingested(p: Pricer, q: Request, reported: real): Request {
    var computed := p(q.model, q.tok.input, q.tok.output, q.tok.cacheRead, q.tok.cacheCreate);
    q.(cost := Units(if !Pricing.Authoritative(q.service, q.model) && computed > 0.0 then computed else reported))
  }

  /** The reported cost is kept where it is trusted and where the table has no
      price; elsewhere the price of the table replaces it. */
  lemma ReportedCostIsKept(p: Pricer, q: Request, reported: real)
    requires reported >= 0.0
    ensures var usd := if Dollars(p, q) <= 0.0 || Pricing.Authoritative(q.service, q.model) then reported else Dollars(p, q);
      var row := Ingested(p, q, reported);
      row == q.(cost := row.cost) && row.cost as real - 0.5 <= usd * 100000.0 < row.cost as real + 0.5
  {
    hide Pricing.Authoritative;
  }

  /** dispatchCodexLog, for one completion; `resource` is the service name its
      record came with. */
  function CodexPriced(p: Pricer, resource: string, u: Update): Update {
    u.(cost := if Pricing.Authoritative(resource, u.model) then 0
               else Units(p(u.model, u.tok.input, u.tok.output, u.tok.cacheRead, u.tok.cacheCreate)))
  }

  /** Under an unchanged price table a recompute changes no row the receiver
      priced on the Claude path, whatever its service name and reported cost. */
  lemma RecomputeAgreesWithExport(p: Pricer, w: Window, id: int, q: Request, reported: real)
    ensures Target(p, w, Stored(id, Api(Ingested(p, q, reported)))) == Stored(id, Api(Ingested(p, q, reported)))
  {
    hide Units, Pricing.Authoritative;
    if Blank(q.service) {
      BlankIsNotAuthoritative(q.service, q.model);
    }
  }

  lemma BlankIsNotAuthoritative(service: string, model: string)
    requires Blank(service)
    ensures !Pricing.Authoritative(service, model)
  {
    assert Pricing.Lower(Pricing.Trim(service)) == "";
  }

  /** A row that already costs what the table says stays as it is. */
  lemma PricedRowIsSettled(p: Pricer, w: Window, s: Stored)
    requires s.row.Api? && s.row.req.cost == Units(Price(p, s.row.req))
    ensures Target(p, w, s) == s
  {
  }

  /** Nor any row that a completion of the Codex path has finalized or inserted. */
  lemma RecomputeAgreesWithCodex(day: int -> int, p: Pricer, w: Window, db: Db, resource: string, u: Update, i: int)
    requires Pricing.IsCodexService(resource)
    requires var next := Complete(day, db, CodexPriced(p, resource, u)).rows;
      0 <= i < |next| && (i >= |db.rows| || next[i] != db.rows[i])
    ensures var next := Complete(day, db, CodexPriced(p, resource, u)).rows;
      Target(p, w, next[i]) == next[i]
  {
    hide Target, Units, Pricing.Authoritative, Upsert, IdTaken, ExactRow, PendingRow, HasTwin;
    var v := CodexPriced(p, resource, u);
    Pricing.CodexIsNeverAuthoritative(resource, u.model);
    PricedRowIsSettled(p, w, Complete(day, db, v).rows[i]);
  }

  lemma CodexIsNotBlank()
    ensures !Blank(CODEX_SERVICE)
  {
    assert !IsSpace(CODEX_SERVICE[0]);
  }

  /** A stored Codex row is never skipped as priced upstream. */
  lemma CodexRowsAreJudged(p: Pricer, q: Request)
    requires q.service == CODEX_SERVICE
    ensures Judge(p, q) != KeptUpstream
  {
    hide Pricing.Authoritative, Units;
    CodexIsNotBlank();
    Pricing.CodexIsCodexService();
    Pricing.CodexIsNeverAuthoritative(CODEX_SERVICE, q.model);
  }

  // ---------- The registry as the price ----------

  /** p is what a registry with these tables and this index answers. */
  ghost predicate PricesBy(p: Pricer, user: Pricing.Layer, table: Pricing.Layer, keys: set<string>, aliases: map<string, string>) {
    forall model: string, i: int, o: int, r: int, c: int ::
      Pricing.Charges(user, table, keys, aliases, model, i, o, r, c, Ask(p, model, i, o, r, c))
  }

  function Ask(p: Pricer, model: string, input: int, output: int, cacheRead: int, cacheCreate: int): real {
    p(model, input, output, cacheRead, cacheCreate)
  }

  /** Completions priced by the registry are such as the cache theorem allows: no
      usage, no charge. */
  lemma PricedCompletionIsAllowed(p: Pricer, user: Pricing.Layer, table: Pricing.Layer, keys: set<string>, aliases: map<string, string>,
                                  resource: string, u: Update)
    requires PricesBy(p, user, table, keys, aliases)
    ensures Runs.Allowed(Runs.Completed(CodexPriced(p, resource, u)))
  {
    hide Pricing.Charges, Pricing.Authoritative;
    if u.tok == NO_TOKENS {
      var usd := Ask(p, u.model, 0, 0, 0, 0);
      Pricing.ChargeIsDetermined(user, table, keys, aliases, u.model, 0, 0, 0, 0, usd, usd);
    }
  }

  /** So are requests of the other path, whatever they reported to cost. */
  lemma PricedInsertIsAllowed(p: Pricer, q: Request, reported: real, span: int)
    requires !Pricing.IsCodexService(q.service) && CleanService(q.service)
    ensures Runs.Allowed(Runs.LiveInsert(Ingested(p, q, reported), span))
  {
    hide Units, Pricing.Authoritative;
    Pricing.CodexIsCodexService();
  }

  // ---------- The figures as numbers of rows ----------

  /** The indices below n + 1 that qualify, by those below n. */
  lemma OneMore<T>(before: set<T>, all: set<T>, n: T, qualifies: bool)
    requires n !in before && forall i :: i in all <==> i in before || (qualifies && i == n)
    ensures |all| == |before| + if qualifies then 1 else 0
  {
    assert all == before + if qualifies then {n} else {};
  }

  /** The figures of a scan are numbers of rows: those in the window, those of them
      that are trusted, and those of the rest that have usage but no price. */
  lemma {:induction false} FiguresAreCounts(p: Pricer, w: Window, rows: seq<Stored>)
    ensures Scanned(w, rows) == |set i | 0 <= i < |rows| && IsInTime(w, rows[i])|
    ensures Kept(p, w, rows) == |set i | 0 <= i < |rows| && IsUpstream(w, rows[i])|
    ensures Missed(p, w, rows) == |set i | 0 <= i < |rows| && IsUnpriced(p, w, rows[i])|
  {
    hide IsInTime, IsUpstream, IsUnpriced, InWindow, IsKept, IsMissed;
    if rows != [] {
      var n := |rows| - 1;
      var init, last := rows[..n], rows[n];
      FiguresAreCounts(p, w, init);
      FigureOfOne(p, w, last);
      OneMore((set i | 0 <= i < n && IsInTime(w, init[i])), (set i | 0 <= i < |rows| && IsInTime(w, rows[i])), n, IsInTime(w, last));
      OneMore((set i | 0 <= i < n && IsUpstream(w, init[i])), (set i | 0 <= i < |rows| && IsUpstream(w, rows[i])), n, IsUpstream(w, last));
      OneMore((set i | 0 <= i < n && IsUnpriced(p, w, init[i])), (set i | 0 <= i < |rows| && IsUnpriced(p, w, rows[i])), n, IsUnpriced(p, w, last));
    }
  }

  predicate IsUpstream(w: Window, s: Stored) {
    IsInTime(w, s) && IsTrusted(s)
  }

  predicate IsUnpriced(p: Pricer, w: Window, s: Stored) {
    IsInTime(w, s) && !IsTrusted(s) && HasCounters(s) && Dollars(p, s.row.req) <= 0.0
  }

  lemma FigureOfOne(p: Pricer, w: Window, s: Stored)
    ensures InWindow(w, s) <==> IsInTime(w, s)
    ensures IsKept(p, w, s) <==> IsUpstream(w, s)
    ensures IsMissed(p, w, s) <==> IsUnpriced(p, w, s)
  {
    ScanTells(p, w, s);
  }
}
