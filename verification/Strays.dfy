/** Which rows the purge takes that no attempt committed: after a failed import the
    listeners start, and what they store lies above the old snapshot. */
module Strays {
  import opened Rows
  import opened Aggregate
  import opened Pool
  import opened AutoImport
  import opened AutoImportSafety
  import OtherWriters
  import opened Batches
  import opened Merge
  import Runs

  type Ids = set<(Table, int)>

  /** The ids other writers took between the snapshot the ranges start from and
      the measurement, and those they took after a measurement that is not
      recorded yet. */
  datatype History = History(strays: Ids, late: Ids)

  /** The ids above all that were used before. */
  function Gained(before: Db, after: Db): Ids {
    set i | 0 <= i < |after.rows| && after.rows[i].id > LastId(before.last, TableOf(after.rows[i].row)) ::
      (TableOf(after.rows[i].row), after.rows[i].id)
  }

  function Noted(e: Env, s: Sys, h: History, a: Action): History {
    match a
    case Boot(_, _) => if s.pc.Down? && s.disk.markers == [] && s.disk.attempt == map[] then History({}, {}) else h
    case RecordMarker(_) => if s.pc.Measured? then h.(late := {}) else h
    case Crash => History(h.strays + h.late, {})
    case Other(db) =>
      if !OtherWriter(e, s.disk.db, db) || !Importing(s) then h
      else if s.pc.Measured? then h.(late := h.late + Gained(s.disk.db, db))
      else h.(strays := h.strays + Gained(s.disk.db, db))
    case _ => h
  }

  function HistoryOf(e: Env, s: Sys, actions: seq<Action>): History {
    if actions == [] then History({}, {})
    else
      var n := |actions| - 1;
      Noted(e, Run(e, s, actions[..n]), HistoryOf(e, s, actions[..n]), actions[n])
  }

  // ---------- The invariant ----------

  predicate Bounded(ids: Ids, last: map<Table, int>) {
    forall c :: c in ids ==> c.1 <= LastId(last, c.0)
  }

  /** Of the stored rows of the target tables, those above the snapshot are these. */
  predicate Split(rows: seq<Stored>, pre: map<Table, int>, ids: Ids) {
    forall i :: 0 <= i < |rows| && TableOf(rows[i].row) in TARGETS ==>
      (rows[i].id > Pre(pre, TableOf(rows[i].row)) <==> (TableOf(rows[i].row), rows[i].id) in ids)
  }

  /** Of the stored rows, those in the ranges are these. */
  predicate Told(rows: seq<Stored>, ranges: seq<Range>, ids: Ids) {
    forall i :: 0 <= i < |rows| ==> ToldAt(rows[i], ranges, ids)
  }

  predicate ToldAt(s: Stored, ranges: seq<Range>, ids: Ids) {
    CoveredBy(ranges, TableOf(s.row), s.id) <==> TableOf(s.row) in TARGETS && (TableOf(s.row), s.id) in ids
  }

  predicate Attributed(s: Sys, h: History) {
    var d := s.disk;
    && Bounded(h.strays, d.db.last) && Bounded(h.late, d.db.last)
    && (!s.pc.Measured? ==> h.late == {})
    && (s.pc.FastMark? ==> h.strays == {})
    && (s.pc.Snapshotted? ==> Split(d.db.rows, s.pc.pre, h.strays))
    && (d.attempt != map[] ==> Split(d.db.rows, d.attempt, s.committed + h.strays + h.late))
    && (s.pc.Measured? ==> Told(d.db.rows, s.pc.found, s.committed + h.strays))
    && (d.markers != [] ==> Told(d.db.rows, d.ranges, s.committed + h.strays))
  }

  // ---------- Other writers ----------

  lemma OldOrGained(e: Env, before: Db, after: Db, i: int) returns (j: int)
    requires OtherWriter(e, before, after) && 0 <= i < |after.rows|
    ensures j >= 0 ==> j < |before.rows| && before.rows[j].id == after.rows[i].id && TableOf(before.rows[j].row) == TableOf(after.rows[i].row)
    ensures j < 0 ==> after.rows[i].id > LastId(before.last, TableOf(after.rows[i].row))
  {
    hide Agrees, IdsAscend, LastId;
    if after.rows[i].id > LastId(before.last, TableOf(after.rows[i].row)) {
      j := -1;
    } else {
      j :| 0 <= j < |before.rows| && SameIdentity(before.rows[j], after.rows[i]);
    }
  }

  lemma OldIsBelowLast(db: Db, j: int)
    requires IdsAscend(db.rows, db.last) && 0 <= j < |db.rows|
    ensures db.rows[j].id <= LastId(db.last, TableOf(db.rows[j].row))
  {
  }

  lemma PreIsBelowLast(db: Db, pre: map<Table, int>, t: Table)
    requires IdsAscend(db.rows, db.last) && BelowLast(pre, db.last)
    ensures Pre(pre, t) <= LastId(db.last, t)
  {
  }

  lemma SplitGrows(e: Env, before: Db, after: Db, pre: map<Table, int>, ids: Ids)
    requires IdsAscend(before.rows, before.last) && OtherWriter(e, before, after)
    requires BelowLast(pre, before.last) && Bounded(ids, before.last) && Split(before.rows, pre, ids)
    ensures Split(after.rows, pre, ids + Gained(before, after))
  {
    hide OtherWriter, IdsAscend, BelowLast, Pre, LastId, TableOf;
    forall i | 0 <= i < |after.rows| && TableOf(after.rows[i].row) in TARGETS
      ensures after.rows[i].id > Pre(pre, TableOf(after.rows[i].row))
         <==> (TableOf(after.rows[i].row), after.rows[i].id) in ids + Gained(before, after)
    {
      PreIsBelowLast(before, pre, TableOf(after.rows[i].row));
      var j := OldOrGained(e, before, after, i);
      if j >= 0 {
        OldIsBelowLast(before, j);
      }
    }
  }

  lemma ToldStays(e: Env, before: Db, after: Db, ranges: seq<Range>, ids: Ids)
    requires OtherWriter(e, before, after)
    requires RangesBelowLast(ranges, before.last) && Bounded(ids, before.last) && Told(before.rows, ranges, ids)
    ensures Told(after.rows, ranges, ids)
  {
    hide OtherWriter, LastId, TableOf, CoveredBy;
    forall i | 0 <= i < |after.rows| ensures ToldAt(after.rows[i], ranges, ids) {
      var j := OldOrGained(e, before, after, i);
      if j >= 0 {
        assert ToldAt(before.rows[j], ranges, ids);
      }
    }
  }

  lemma GainedIsBounded(before: Db, after: Db)
    requires IdsAscend(after.rows, after.last)
    ensures Bounded(Gained(before, after), after.last)
  {
    hide LastId;
    forall c | c in Gained(before, after) ensures c.1 <= LastId(after.last, c.0) {
      var i :| 0 <= i < |after.rows| && c == (TableOf(after.rows[i].row), after.rows[i].id);
      OldIsBelowLast(after, i);
    }
  }

  lemma BoundedStays(ids: Ids, last: map<Table, int>, next: map<Table, int>)
    requires Bounded(ids, last) && forall t: Table :: LastId(last, t) <= LastId(next, t)
    ensures Bounded(ids, next)
  {
    hide LastId;
  }

  lemma OtherKeepsAttributed(e: Env, s: Sys, h: History, db: Db)
    requires Inv(e, s) && Attributed(s, h) && OtherWriter(e, s.disk.db, db)
    ensures Attributed(Exec(e, s, Other(db)), Noted(e, s, h, Other(db)))
  {
    hide OtherWriter, IdsAscend, Split, Told, Gained, Covers, CacheDebt, Gone, ArchiveShaped, BelowLast, Bounded,
         OnlyCommitted, AllCommittedAbove, RangesBelowLast;
    var before, more := s.disk.db, Gained(s.disk.db, db);
    OtherAscends(e, before, db);
    GainedIsBounded(before, db);
    CommittedIsBounded(s);
    BoundedStays(h.strays, before.last, db.last);
    BoundedStays(h.late, before.last, db.last);
    BoundedUnion(h.strays, more, db.last);
    BoundedUnion(h.late, more, db.last);
    BoundedUnion(s.committed, h.strays, before.last);
    BoundedUnion(s.committed + h.strays, h.late, before.last);
    if s.pc.Snapshotted? {
      SplitGrows(e, before, db, s.pc.pre, h.strays);
    }
    if s.disk.attempt != map[] {
      SplitGrows(e, before, db, s.disk.attempt, s.committed + h.strays + h.late);
      assert s.committed + h.strays + h.late + more == s.committed + (h.strays + more) + h.late == s.committed + h.strays + (h.late + more);
    }
    if s.pc.Measured? {
      ToldStays(e, before, db, s.pc.found, s.committed + h.strays);
    }
    if s.disk.markers != [] {
      ToldStays(e, before, db, s.disk.ranges, s.committed + h.strays);
    }
  }

  lemma BoundedUnion(a: Ids, b: Ids, last: map<Table, int>)
    requires Bounded(a, last) && Bounded(b, last)
    ensures Bounded(a + b, last)
  {
    hide LastId;
  }

  lemma CommittedIsBounded(s: Sys)
    requires Coverage(s)
    ensures Bounded(s.committed, s.disk.db.last)
  {
    hide LastId, Covers;
  }

  // ---------- The steps of the lifecycle ----------

  lemma CommitKeepsAttributed(e: Env, s: Sys, h: History, at: int)
    requires Inv(e, s) && Attributed(s, h) && s.pc.Engine? && s.pc.k < |Work(e, s.disk)|
    ensures Attributed(Commit(e, s, at), h)
  {
    hide IdsAscend, Told, Covers, CacheDebt, Gone, ArchiveShaped, BelowLast, Commit, Work, LastId, Pre, TableOf,
         OnlyCommitted, AllCommittedAbove, RangesBelowLast;
    CommitAppends(e, s, at);
    CommitShape(e, s, at);
    CommittedIsBounded(s);
    var before, after, ids := s.disk.db, Commit(e, s, at).disk.db, s.committed + h.strays + h.late;
    BoundedStays(h.strays, before.last, after.last);
    forall i | 0 <= i < |after.rows| && TableOf(after.rows[i].row) in TARGETS
      ensures after.rows[i].id > Pre(s.disk.attempt, TableOf(after.rows[i].row))
         <==> (TableOf(after.rows[i].row), after.rows[i].id) in ids + NewIds(before.rows, after.rows)
    {
      PreIsBelowLast(before, s.disk.attempt, TableOf(after.rows[i].row));
      if i < |before.rows| {
        assert after.rows[i] == before.rows[i];
        OldIsBelowLast(before, i);
        OldIsNotNew(before, after, i);
      }
    }
    assert s.committed + NewIds(before.rows, after.rows) + h.strays + h.late == ids + NewIds(before.rows, after.rows);
  }

  lemma OldIsNotNew(before: Db, after: Db, i: int)
    requires |before.rows| <= |after.rows| && 0 <= i < |before.rows| && before.rows[i].id <= LastId(before.last, TableOf(before.rows[i].row))
    requires forall j :: |before.rows| <= j < |after.rows| ==> after.rows[j].id > LastId(before.last, TableOf(after.rows[j].row))
    ensures (TableOf(before.rows[i].row), before.rows[i].id) !in NewIds(before.rows, after.rows)
  {
    hide LastId, TableOf;
  }

  lemma BootKeepsAttributed(e: Env, s: Sys, h: History, now: int, later: int)
    requires Inv(e, s) && Attributed(s, h)
    ensures Attributed(Exec(e, s, Boot(now, later)), Noted(e, s, h, Boot(now, later)))
  {
    hide IdsAscend, Told, Covers, CacheDebt, Gone, ArchiveShaped, BelowLast, Decide, Snapshot, Split,
         OnlyCommitted, AllCommittedAbove, RangesBelowLast;
    BootShape(e, s.disk, now, later);
    NothingAboveSnapshot(s.disk.db.rows);
    FastMeansFresh(e, s.disk, now, later);
  }

  lemma NothingAboveSnapshot(rows: seq<Stored>)
    ensures Split(rows, Snapshot(rows), {})
  {
  }

  lemma FastMeansFresh(e: Env, d: Disk, now: int, later: int)
    ensures var pc := Decide(e, d, now, later); pc.FastMark? || pc.Snapshotted? ==> d.markers == [] && d.attempt == map[]
  {
    hide Due, Previews.MigrationPreviewOf, Work, Snapshot;
  }

  lemma MeasureKeepsAttributed(s: Sys, h: History)
    requires Control(s) && Attributed(s, h) && s.pc.Engine?
    ensures Told(s.disk.db.rows, RangesSince(s.pc.pre, s.disk.db.rows, TARGETS), s.committed + h.strays)
  {
    hide RangesSince, CoveredBy, Pre, IdsAscend;
    var rows, found := s.disk.db.rows, RangesSince(s.pc.pre, s.disk.db.rows, TARGETS);
    assert s.committed + h.strays + h.late == s.committed + h.strays;
    forall i | 0 <= i < |rows| ensures ToldAt(rows[i], found, s.committed + h.strays) {
      RangesExactly(s.pc.pre, rows, TARGETS, TableOf(rows[i].row), rows[i].id);
    }
  }

  lemma PurgeKeepsTold(rows: seq<Stored>, ranges: seq<Range>, ids: Ids)
    requires Told(rows, ranges, ids)
    ensures Told(Purge(rows, ranges), ranges, ids)
  {
    hide Purgeable, ToldAt, Purge;
    PurgeKeeps(rows, ranges);
    var kept := Purge(rows, ranges);
    forall i | 0 <= i < |kept| ensures ToldAt(kept[i], ranges, ids) {
      assert kept[i] in rows;
      var j :| 0 <= j < |rows| && rows[j] == kept[i];
    }
  }

  lemma NoRangesTell(rows: seq<Stored>)
    ensures Told(rows, [], {})
  {
  }

  lemma MarkerKeepsAttributed(e: Env, s: Sys, h: History, now: int)
    requires Control(s) && Attributed(s, h)
    ensures Attributed(Exec(e, s, RecordMarker(now)), Noted(e, s, h, RecordMarker(now)))
  {
    hide IdsAscend, Told, BelowLast, Split, Bounded;
    NoIdsAreBounded(s.disk.db.last);
    if s.pc.Measured? {
      assert s.disk.ranges + s.pc.found == s.pc.found;
    } else if s.pc.FastMark? {
      NoRangesTell(s.disk.db.rows);
      assert s.committed + h.strays == {};
    }
  }

  lemma QuietKeepsAttributed(e: Env, s: Sys, h: History, a: Action)
    requires Inv(e, s) && Attributed(s, h) && !a.Boot? && !a.CommitBatch? && !a.Other?
    ensures Attributed(Exec(e, s, a), Noted(e, s, h, a))
  {
    hide IdsAscend, Told, Covers, CacheDebt, Gone, ArchiveShaped, BelowLast, RangesSince, Split, Purge, Work, Rebuild, Bounded,
         OnlyCommitted, AllCommittedAbove, RangesBelowLast;
    match a
    case RecordAttempt =>
      if s.pc.Snapshotted? {
        assert s.committed + h.strays + h.late == h.strays;
      }
    case Measure =>
      if s.pc.Engine? {
        MeasureKeepsAttributed(s, h);
      }
    case RecordMarker(now) => MarkerKeepsAttributed(e, s, h, now);
    case PurgeDelete =>
      if s.pc.PurgeReady? {
        PurgeKeepsTold(s.disk.db.rows, s.disk.ranges, s.committed + h.strays);
      }
    case RebuildAgg => RebuildKeepsRows(e, s.disk.db);
    case Crash =>
      BoundedUnion(h.strays, h.late, s.disk.db.last);
      NoIdsAreBounded(s.disk.db.last);
      assert s.committed + (h.strays + h.late) + {} == s.committed + h.strays + h.late;
    case _ =>
  }

  lemma NoIdsAreBounded(last: map<Table, int>)
    ensures Bounded({}, last)
  {
  }

  lemma {:induction false} RunIsAttributed(e: Env, s: Sys, actions: seq<Action>)
    requires Fresh(e, s)
    ensures Inv(e, Run(e, s, actions)) && Attributed(Run(e, s, actions), HistoryOf(e, s, actions))
    decreases |actions|
  {
    hide Fresh, Inv, Attributed, Exec, Noted, OtherWriter, Commit;
    FreshIsInv(e, s);
    if actions == [] {
      FreshIsAttributed(e, s);
    } else {
      var n := |actions| - 1;
      RunIsAttributed(e, s, actions[..n]);
      RunKeepsInv(e, s, actions);
      StepKeepsAttributed(e, Run(e, s, actions[..n]), HistoryOf(e, s, actions[..n]), actions[n]);
    }
  }

  lemma FreshIsAttributed(e: Env, s: Sys)
    requires Fresh(e, s)
    ensures Attributed(s, History({}, {}))
  {
    hide IdsAscend, Agrees, ArchiveShaped;
  }

  lemma StepKeepsAttributed(e: Env, s: Sys, h: History, a: Action)
    requires Inv(e, s) && Attributed(s, h)
    ensures Attributed(Exec(e, s, a), Noted(e, s, h, a))
  {
    hide Inv, Attributed, OtherWriter, Work, Commit;
    match a
    case Boot(now, later) => BootKeepsAttributed(e, s, h, now, later);
    case CommitBatch(at) =>
      if s.pc.Engine? && s.pc.k < |Work(e, s.disk)| {
        CommitKeepsAttributed(e, s, h, at);
      }
    case Other(db) =>
      if OtherWriter(e, s.disk.db, db) {
        OtherKeepsAttributed(e, s, h, db);
      }
    case _ => QuietKeepsAttributed(e, s, h, a);
  }

  /** Over every run: the purge takes a stored row if and only if it is codex or an
      event, of a target table, and either an attempt committed it or another
      writer gave it its id between the snapshot and the measurement. */
  lemma PurgeTakesExactly(e: Env, s: Sys, actions: seq<Action>, i: int)
    requires Fresh(e, s)
    requires var end := Run(e, s, actions); end.disk.markers != [] && 0 <= i < |end.disk.db.rows|
    ensures var end, h := Run(e, s, actions), HistoryOf(e, s, actions);
      var r := end.disk.db.rows[i];
      Purgeable(end.disk.ranges, r) <==>
        TableOf(r.row) in TARGETS && IsCodexOrEvent(r) && (TableOf(r.row), r.id) in end.committed + h.strays
  {
    hide Fresh, Inv, Run, HistoryOf, CoveredBy, Split, IsCodexOrEvent;
    RunIsAttributed(e, s, actions);
    var end := Run(e, s, actions);
    PurgeableIs(end.disk.ranges, end.disk.db.rows[i]);
    assert ToldAt(end.disk.db.rows[i], end.disk.ranges, end.committed + HistoryOf(e, s, actions).strays);
  }

  // ---------- A live row that is purged ----------

  /** The first boot whose import fails, a Codex request that arrives after it, and
      the next boot, which resumes. */
  function FailedBoot(e: Env, s: Sys, q: Request, now: int): seq<Action> {
    [Boot(now, now), RecordAttempt, EngineFails, Other(WithLive(e, s, q)), Boot(now, now)]
  }

  function WithLive(e: Env, s: Sys, q: Request): Db {
    InsertRequest(e.day, s.disk.db, CodexRow(q))
  }

  function LiveRow(s: Sys, q: Request): Stored {
    Stored(LastId(s.disk.db.last, ApiRequests) + 1, Api(CodexRow(q)))
  }

  function Commits(at: int, n: nat): seq<Action> {
    if n == 0 then [] else Commits(at, n - 1) + [CommitBatch(at)]
  }

  /** Everything up to the purge of the month after. */
  function UntilPurge(e: Env, s: Sys, q: Request, now: int, due: int): seq<Action> {
    FailedBoot(e, s, q, now) + Commits(now, |Work(e, s.disk)|) + [Measure] + [RecordMarker(now)] + [Boot(due, due)]
  }

  lemma RunOn(e: Env, s: Sys, actions: seq<Action>, a: Action)
    ensures Run(e, s, actions + [a]) == Exec(e, Run(e, s, actions), a)
  {
    hide Exec;
    assert (actions + [a])[..|actions|] == actions;
  }

  /** A database that never ran the auto-import, with an archive that has requests
      to import, and a live Codex request that is new to it. */
  predicate LiveBesideArchive(e: Env, s: Sys, q: Request) {
    && Fresh(e, s) && Sound(e.day, s.disk.db) && s.disk.archive != []
    && Previews.MigrationPreviewOf(s.disk.db.rows, Work(e, s.disk), ApiRequests) != 0
    && !IdTaken(s.disk.db.rows, q.requestId) && (q.tok == NO_TOKENS ==> q.cost == 0)
  }

  lemma LiveIsStored(e: Env, s: Sys, q: Request)
    requires LiveBesideArchive(e, s, q)
    ensures WithLive(e, s, q).rows == s.disk.db.rows + [LiveRow(s, q)]
    ensures LastId(WithLive(e, s, q).last, ApiRequests) == LiveRow(s, q).id
    ensures OtherWriter(e, s.disk.db, WithLive(e, s, q))
  {
    hide IdTaken, Sound, OtherWriter, Upsert, LiveKey, Contribution, Fresh, Work, Previews.MigrationPreviewOf;
    OtherWriters.OwnWritersAreOtherWriters(e, s.disk.db, Runs.CodexInsert(q));
  }

  lemma AfterFailedBoot(e: Env, s: Sys, q: Request, now: int)
    requires LiveBesideArchive(e, s, q)
    ensures Run(e, s, FailedBoot(e, s, q, now))
         == Sys(s.disk.(db := WithLive(e, s, q), attempt := Snapshot(s.disk.db.rows)), Engine(Snapshot(s.disk.db.rows), 0), {}, true, false)
  {
    hide Sound, OtherWriter, Snapshot, Work, IdTaken, Previews.MigrationPreviewOf, IdsAscend, Agrees, ArchiveShaped, Commit, WithLive;
    LiveIsStored(e, s, q);
    var a, b, c, d, f := Boot(now, now), RecordAttempt, EngineFails, Other(WithLive(e, s, q)), Boot(now, now);
    SnapshotIsSome(s.disk.db.rows);
    FiveSteps(e, s, a, b, c, d, f);
    assert Exec(e, s, a) == s.(pc := Snapshotted(Snapshot(s.disk.db.rows)));
  }

  lemma SnapshotIsSome(rows: seq<Stored>)
    ensures Snapshot(rows) != map[]
  {
    assert TARGETS[0] in Snapshot(rows);
  }

  lemma FiveSteps(e: Env, s: Sys, a: Action, b: Action, c: Action, d: Action, f: Action)
    ensures Run(e, s, [a, b, c, d, f]) == Exec(e, Exec(e, Exec(e, Exec(e, Exec(e, s, a), b), c), d), f)
  {
    hide Exec;
    FourSteps(e, s, a, b, c, d);
    RunOn(e, s, [a, b, c, d], f);
    assert [a, b, c, d] + [f] == [a, b, c, d, f];
  }

  /** The engine commits batch after batch, all under fresh ids. */
  lemma {:induction false} AfterCommits(e: Env, s: Sys, q: Request, now: int, n: nat)
    requires LiveBesideArchive(e, s, q) && n <= |Work(e, s.disk)|
    ensures var start, end := Run(e, s, FailedBoot(e, s, q, now)), Run(e, s, FailedBoot(e, s, q, now) + Commits(now, n));
      && end.pc == Engine(Snapshot(s.disk.db.rows), n) && end.disk == start.disk.(db := end.disk.db)
      && start.disk.db.rows <= end.disk.db.rows
      && (forall t: Table :: LastId(start.disk.db.last, t) <= LastId(end.disk.db.last, t))
      && forall c :: c in end.committed ==> c.1 > LastId(start.disk.db.last, c.0)
  {
    hide LiveBesideArchive, FailedBoot, Exec, Snapshot, Run, Work, Commit, Inv, LastId, IdsAscend, ArchiveShaped;
    var prefix := FailedBoot(e, s, q, now);
    AfterFailedBoot(e, s, q, now);
    if n == 0 {
      assert prefix + Commits(now, 0) == prefix;
    } else {
      AfterCommits(e, s, q, now, n - 1);
      var before := Run(e, s, prefix + Commits(now, n - 1));
      RunOn(e, s, prefix + Commits(now, n - 1), CommitBatch(now));
      assert prefix + Commits(now, n - 1) + [CommitBatch(now)] == prefix + Commits(now, n);
      LiveRunIsGood(e, s, q, prefix + Commits(now, n - 1));
      OneCommit(e, before, now);
    }
  }

  lemma LiveRunIsGood(e: Env, s: Sys, q: Request, actions: seq<Action>)
    requires LiveBesideArchive(e, s, q)
    ensures var end := Run(e, s, actions); Inv(e, end) && Work(e, end.disk) == Work(e, s.disk)
  {
    hide Fresh, Inv, Exec, Sound;
    FreshIsInv(e, s);
    RunKeepsInv(e, s, actions);
  }

  lemma OneCommit(e: Env, s: Sys, at: int)
    requires Inv(e, s) && s.pc.Engine? && s.pc.k < |Work(e, s.disk)|
    ensures var next := Exec(e, s, CommitBatch(at));
      && next.pc == Engine(s.pc.pre, s.pc.k + 1) && next.disk == s.disk.(db := next.disk.db)
      && s.disk.db.rows <= next.disk.db.rows
      && (forall t: Table :: LastId(s.disk.db.last, t) <= LastId(next.disk.db.last, t))
      && forall c :: c in next.committed ==> c in s.committed || c.1 > LastId(s.disk.db.last, c.0)
  {
    hide Commit, Work, LastId, IdsAscend, ArchiveShaped, TableOf;
    CommitAppends(e, s, at);
    CommitShape(e, s, at);
  }

  lemma AfterMarker(e: Env, s: Sys, q: Request, now: int, due: int)
    requires LiveBesideArchive(e, s, q)
    requires now <= due && e.midnight(due) >= e.midnight(now) + PURGE_AFTER_DAYS * 86400
    ensures var n := |Work(e, s.disk)|;
      var done, end := Run(e, s, FailedBoot(e, s, q, now) + Commits(now, n)), Run(e, s, UntilPurge(e, s, q, now, due));
      && end.pc == PurgeReady && end.disk.db == done.disk.db && end.committed == done.committed
      && end.disk.ranges == RangesSince(Snapshot(s.disk.db.rows), done.disk.db.rows, TARGETS)
  {
    hide LiveBesideArchive, FailedBoot, Snapshot, Run, Work, Commit, Inv, RangesSince, LastId, OtherWriter;
    var n := |Work(e, s.disk)|;
    var engine := FailedBoot(e, s, q, now) + Commits(now, n);
    AfterFailedBoot(e, s, q, now);
    AfterCommits(e, s, q, now, n);
    LiveRunIsGood(e, s, q, engine);
    NoRangesYet(s, e, q);
    RunOn(e, s, engine, Measure);
    RunOn(e, s, engine + [Measure], RecordMarker(now));
    RunOn(e, s, engine + [Measure] + [RecordMarker(now)], Boot(due, due));
    assert [] + RangesSince(Snapshot(s.disk.db.rows), Run(e, s, engine).disk.db.rows, TARGETS)
        == RangesSince(Snapshot(s.disk.db.rows), Run(e, s, engine).disk.db.rows, TARGETS);
  }

  lemma NoRangesYet(s: Sys, e: Env, q: Request)
    requires LiveBesideArchive(e, s, q)
    ensures s.disk.ranges == [] && s.disk.markers == []
  {
  }

  /** After a failed import the listeners start, and a Codex request that arrives
      before the next boot is deleted a month later, although no import added it. */
  lemma LiveRowIsPurged(e: Env, s: Sys, q: Request, now: int, due: int)
    requires LiveBesideArchive(e, s, q)
    requires now <= due && e.midnight(due) >= e.midnight(now) + PURGE_AFTER_DAYS * 86400
    ensures var row := LiveRow(s, q);
      var before, after := Run(e, s, UntilPurge(e, s, q, now, due)), Run(e, s, UntilPurge(e, s, q, now, due) + [PurgeDelete]);
      && row in before.disk.db.rows && (ApiRequests, row.id) !in before.committed
      && row !in after.disk.db.rows
  {
    hide LiveBesideArchive, FailedBoot, Snapshot, Run, Work, Commit, Inv, RangesSince, LastId, OtherWriter, CoveredBy, UntilPurge, Purge, Commits;
    var n, row := |Work(e, s.disk)|, LiveRow(s, q);
    var start, done := Run(e, s, FailedBoot(e, s, q, now)), Run(e, s, FailedBoot(e, s, q, now) + Commits(now, n));
    AfterFailedBoot(e, s, q, now);
    LiveIsStored(e, s, q);
    AfterCommits(e, s, q, now, n);
    AfterMarker(e, s, q, now, due);
    var before := Run(e, s, UntilPurge(e, s, q, now, due));
    assert start.disk.db.rows[|s.disk.db.rows|] == row;
    assert done.disk.db.rows[|s.disk.db.rows|] == row;
    LiveIsAboveSnapshot(e, s, q, done.disk.db.rows);
    PurgeableIs(before.disk.ranges, row);
    PurgeKeeps(before.disk.db.rows, before.disk.ranges);
    RunOn(e, s, UntilPurge(e, s, q, now, due), PurgeDelete);
  }

  lemma LiveIsAboveSnapshot(e: Env, s: Sys, q: Request, rows: seq<Stored>)
    requires LiveBesideArchive(e, s, q) && LiveRow(s, q) in rows
    ensures CoveredBy(RangesSince(Snapshot(s.disk.db.rows), rows, TARGETS), ApiRequests, LiveRow(s, q).id)
  {
    hide CoveredBy, RangesSince, LastId, IdTaken, Work, Previews.MigrationPreviewOf;
    RangesExactly(Snapshot(s.disk.db.rows), rows, TARGETS, ApiRequests, LiveRow(s, q).id);
    MaxIdBelowLast(s.disk.db.rows, s.disk.db.last, ApiRequests);
    assert TARGETS[0] == ApiRequests;
  }

  lemma OneRowIsNew(l: Limits, r: Row)
    ensures Previews.MigrationPreviewOf([], Scan(l, [r]), TableOf(r)) == 1
  {
    hide BatchOf, IdentityOf, TableOf;
    var k := Clamp(l);
    var b := BatchOf(k, [r]);
    assert [r][..0] == [] && [[r]][..0] == [] && [b][..0] == [];
    assert Chunks(k, [r]) == [[r]];
    Previews.OneRowBatch(k, r);
    assert Scan(l, [r]) == [b] && b.cands == [Candidate(r, 1)];
    assert b.cands[..0] == [] && ToInsert([], b.cands[0]) == 1;
    assert Previews.StagedTotal([], b.cands[..0]) == 0 && Previews.StagedTotal([], b.cands) == 1;
    assert Previews.MigrationPreviewOf([], [b][..0], TableOf(r)) == 0 && b.table == TableOf(r);
  }

  /** So it goes on any new database with one archived request. */
  lemma NewDatabaseWithArchive(e: Env, archived: Request, q: Request)
    requires archived.service == CODEX_SERVICE && (q.tok == NO_TOKENS ==> q.cost == 0)
    ensures LiveBesideArchive(e, Sys(Disk(Db([], map[], map[], map[]), [Api(archived)], map[], [], []), Down, {}, false, false), q)
  {
    hide Scan, Previews.MigrationPreviewOf;
    OneRowIsNew(e.limits, Api(archived));
    assert TARGETS[0] == ApiRequests;
  }
}
