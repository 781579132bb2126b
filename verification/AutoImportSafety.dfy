/** What the auto-import lifecycle guarantees over any number of boots, crashes
    and other writers. */
module AutoImportSafety {
  import opened Rows
  import opened Aggregate
  import opened Pool
  import opened Batches
  import opened Merge
  import opened MergeSoundness
  import opened AutoImport

  // ---------- What each database step does ----------

  /** A committed batch appends codex rows of target tables under fresh ids. */
  lemma CommitAppends(e: Env, s: Sys, at: int)
    requires s.pc.Engine? && s.pc.k < |Work(e, s.disk)| && ArchiveShaped(s.disk.archive)
    requires IdsAscend(s.disk.db.rows, s.disk.db.last)
    ensures var before, after := s.disk.db, Commit(e, s, at).disk.db;
      && before.rows <= after.rows
      && IdsAscend(after.rows, after.last)
      && (forall t: Table :: LastId(before.last, t) <= LastId(after.last, t))
      && (Agrees(e.day, before.rows, before.agg) ==> Agrees(e.day, after.rows, after.agg))
      && forall i :: |before.rows| <= i < |after.rows| ==>
           TableOf(after.rows[i].row) in TARGETS && IsCodexOrEvent(after.rows[i])
           && after.rows[i].id > LastId(before.last, TableOf(after.rows[i].row))
  {
    hide FanOut, Note, IdsAscend, Agrees, Scan;
    var before, b := s.disk.db, Work(e, s.disk)[s.pc.k];
    var rs := FanOut(before.rows, b.cands);
    LandAppends(e.day, before, rs);
    LandIds(e.day, before, rs);
    forall m | 0 <= m < |rs| ensures TableOf(rs[m]) in TARGETS && IsCodexOrEvent(Stored(0, rs[m])) {
      var j := FanOutComesFrom(before.rows, b.cands, m);
      var p := CandidateComesFrom(e.limits, s.disk.archive, s.pc.k, j);
    }
    CodexIsClean();
    if Agrees(e.day, before.rows, before.agg) {
      LandKeepsAgreement(e.day, before, rs);
    }
    forall i | |before.rows| <= i < |Land(e.day, before, rs).rows|
      ensures Land(e.day, before, rs).rows[i].row == rs[i - |before.rows|]
    {
    }
  }

  lemma {:induction false} PurgeKeepsAt(rows: seq<Stored>, ranges: seq<Range>, s: Stored)
    ensures s in Purge(rows, ranges) <==> s in rows && !Purgeable(ranges, s)
  {
    hide Purgeable;
    if rows != [] {
      var n := |rows| - 1;
      PurgeKeepsAt(rows[..n], ranges, s);
      assert s in rows <==> s in rows[..n] || s == rows[n];
    }
  }

  lemma {:induction false} PurgeAddsNothing(rows: seq<Stored>, ranges: seq<Range>)
    ensures multiset(Purge(rows, ranges)) <= multiset(rows)
  {
    hide Purgeable;
    if rows != [] {
      var n := |rows| - 1;
      PurgeAddsNothing(rows[..n], ranges);
      assert rows == rows[..n] + [rows[n]];
    }
  }

  /** The purge keeps exactly the rows outside the recorded ranges and, in the
      request table, every row that is not tagged codex. */
  lemma PurgeKeeps(rows: seq<Stored>, ranges: seq<Range>)
    ensures multiset(Purge(rows, ranges)) <= multiset(rows)
    ensures forall s :: s in Purge(rows, ranges) <==> s in rows && !Purgeable(ranges, s)
  {
    hide Purge, Purgeable;
    PurgeAddsNothing(rows, ranges);
    forall s ensures s in Purge(rows, ranges) <==> s in rows && !Purgeable(ranges, s) {
      PurgeKeepsAt(rows, ranges, s);
    }
  }

  lemma AscendsWith(rows: seq<Stored>, s: Stored, last: map<Table, int>)
    requires IdsAscend(rows, last) && 1 <= s.id <= LastId(last, TableOf(s.row))
    requires forall i :: 0 <= i < |rows| && TableOf(rows[i].row) == TableOf(s.row) ==> rows[i].id < s.id
    ensures IdsAscend(rows + [s], last)
  {
    hide TableOf;
  }

  lemma AscendsBefore(rows: seq<Stored>, s: Stored, last: map<Table, int>)
    requires IdsAscend(rows + [s], last)
    ensures IdsAscend(rows, last) && 1 <= s.id <= LastId(last, TableOf(s.row))
    ensures forall r :: r in rows && TableOf(r.row) == TableOf(s.row) ==> r.id < s.id
  {
    hide TableOf;
    var all := rows + [s];
    forall r | r in rows && TableOf(r.row) == TableOf(s.row) ensures r.id < s.id {
      var j :| 0 <= j < |rows| && rows[j] == r;
      assert all[j] == r && all[|rows|] == s;
    }
    assert all[|rows|] == s;
    assert forall i :: 0 <= i < |rows| ==> all[i] == rows[i];
  }

  lemma {:induction false} PurgeAscends(rows: seq<Stored>, ranges: seq<Range>, last: map<Table, int>)
    requires IdsAscend(rows, last)
    ensures IdsAscend(Purge(rows, ranges), last)
  {
    hide Purgeable, TableOf, IdsAscend, LastId;
    if rows != [] {
      var n := |rows| - 1;
      assert rows == rows[..n] + [rows[n]];
      AscendsBefore(rows[..n], rows[n], last);
      PurgeAscends(rows[..n], ranges, last);
      PurgeKeeps(rows[..n], ranges);
      AscendsWith(Purge(rows[..n], ranges), rows[n], last);
      if Purgeable(ranges, rows[n]) {
        assert Purge(rows, ranges) == Purge(rows[..n], ranges);
      }
    }
  }

  // ---------- Control ----------

  lemma SnapshotIsBelowLast(rows: seq<Stored>, last: map<Table, int>)
    requires IdsAscend(rows, last)
    ensures BelowLast(Snapshot(rows), last) && Snapshot(rows) != map[]
  {
    forall t | t in TARGETS ensures 0 <= MaxId(rows, t) <= LastId(last, t) {
      var m := MaxId(rows, t);
      if m != 0 {
        var i :| 0 <= i < |rows| && TableOf(rows[i].row) == t && rows[i].id == m;
      }
    }
    assert TARGETS[0] in Snapshot(rows);
  }

  /** Only the rows of the database change, and no id is taken back. */
  lemma DbStepKeepsControl(s: Sys, next: Sys)
    requires Control(s) && next.disk == s.disk.(db := next.disk.db) && next.pc == s.pc
    requires next.committed == s.committed || s.disk.attempt != map[]
    requires IdsAscend(next.disk.db.rows, next.disk.db.last)
    requires forall t: Table :: LastId(s.disk.db.last, t) <= LastId(next.disk.db.last, t)
    ensures Control(next)
  {
    hide IdsAscend, LastId;
  }

  lemma ControlStep(e: Env, s: Sys, a: Action)
    requires Control(s) && ArchiveShaped(s.disk.archive)
    ensures Control(Exec(e, s, a)) && Exec(e, s, a).disk.archive == s.disk.archive
  {
    hide Control, Exec, ArchiveShaped;
    match a
    case Boot(now, later) => BootKeepsControl(e, s, now, later);
    case CommitBatch(at) => CommitKeepsControl(e, s, at);
    case PurgeDelete => PurgeKeepsControl(e, s);
    case RebuildAgg => RebuildKeepsControl(e, s);
    case Other(db) => OtherKeepsControl(e, s, db);
    case _ => QuietKeepsControl(e, s, a);
  }

  lemma CommitKeepsControl(e: Env, s: Sys, at: int)
    requires Control(s) && ArchiveShaped(s.disk.archive)
    ensures var next := Exec(e, s, CommitBatch(at)); Control(next) && next.disk.archive == s.disk.archive
  {
    hide IdsAscend, ArchiveShaped, RunBatch, Work, Commit, LastId;
    if s.pc.Engine? && s.pc.k < |Work(e, s.disk)| {
      CommitAppends(e, s, at);
      CommitShape(e, s, at);
      DbStepKeepsControl(s, Commit(e, s, at).(pc := s.pc));
    }
  }

  lemma PurgeKeepsControl(e: Env, s: Sys)
    requires Control(s)
    ensures var next := Exec(e, s, PurgeDelete); Control(next) && next.disk.archive == s.disk.archive
  {
    hide IdsAscend, Purge, LastId;
    PurgeAscends(s.disk.db.rows, s.disk.ranges, s.disk.db.last);
  }

  lemma RebuildKeepsControl(e: Env, s: Sys)
    requires Control(s)
    ensures var next := Exec(e, s, RebuildAgg); Control(next) && next.disk.archive == s.disk.archive
  {
    hide IdsAscend, Rebuild, LastId;
    RebuildKeepsRows(e, s.disk.db);
  }

  lemma OtherKeepsControl(e: Env, s: Sys, db: Db)
    requires Control(s)
    ensures var next := Exec(e, s, Other(db)); Control(next) && next.disk.archive == s.disk.archive
  {
    hide IdsAscend, OtherWriter, LastId;
    OtherAscends(e, s.disk.db, db);
    if OtherWriter(e, s.disk.db, db) {
      DbStepKeepsControl(s, Exec(e, s, Other(db)));
    }
  }

  /** The steps that leave the rows alone. */
  lemma QuietKeepsControl(e: Env, s: Sys, a: Action)
    requires Control(s)
    requires !a.Boot? && !a.CommitBatch? && !a.PurgeDelete? && !a.RebuildAgg? && !a.Other?
    ensures Control(Exec(e, s, a)) && Exec(e, s, a).disk.archive == s.disk.archive
  {
    hide IdsAscend, RangesSince, LastId, Work;
  }

  lemma CommitShape(e: Env, s: Sys, at: int)
    requires s.pc.Engine? && s.pc.k < |Work(e, s.disk)|
    ensures var next := Commit(e, s, at);
      && |s.disk.db.rows| <= |next.disk.db.rows|
      && next == s.(disk := s.disk.(db := next.disk.db), pc := Engine(s.pc.pre, s.pc.k + 1),
                    committed := s.committed + NewIds(s.disk.db.rows, next.disk.db.rows))
  {
    hide RunBatch, NewIds;
    BatchAppends(e.day, s.disk.db, Work(e, s.disk)[s.pc.k], "codex-migration", at);
  }

  lemma BootKeepsControl(e: Env, s: Sys, now: int, later: int)
    requires Control(s)
    ensures Control(Exec(e, s, Boot(now, later))) && Exec(e, s, Boot(now, later)).disk.archive == s.disk.archive
  {
    hide IdsAscend, Snapshot, LastId, Work, Previews.MigrationPreviewOf, Due;
    if s.pc.Down? && s.disk.markers == [] && s.disk.attempt == map[] {
      SnapshotIsBelowLast(s.disk.db.rows, s.disk.db.last);
    }
    DueMeansUnpurged(e, s.disk, now, later);
  }

  lemma DueMeansUnpurged(e: Env, d: Disk, now: int, later: int)
    ensures Decide(e, d, now, later).PurgeReady? ==> d.markers != [] && !d.markers[|d.markers| - 1].purged
  {
  }

  lemma RebuildKeepsRows(e: Env, db: Db)
    ensures Rebuild(e.day, db).rows == db.rows && Rebuild(e.day, db).last == db.last
    ensures Agrees(e.day, Rebuild(e.day, db).rows, Rebuild(e.day, db).agg)
  {
  }

  lemma OtherAscends(e: Env, before: Db, after: Db)
    ensures OtherWriter(e, before, after) ==>
      IdsAscend(after.rows, after.last) && forall t: Table :: LastId(before.last, t) <= LastId(after.last, t)
  {
  }

  // ---------- Coverage ----------

  predicate Covers(committed: set<(Table, int)>, rows: seq<Stored>, ranges: seq<Range>) {
    forall c :: c in committed && Has(rows, c.0, c.1) ==> CoveredBy(ranges, c.0, c.1)
  }

  predicate Coverage(s: Sys) {
    var d := s.disk;
    && (forall c :: c in s.committed ==> 1 <= c.1 <= LastId(d.db.last, c.0))
    && (d.attempt != map[] ==> forall c :: c in s.committed ==> c.0 in TARGETS && c.1 > Pre(d.attempt, c.0))
    && (s.pc.Measured? ==> Covers(s.committed, d.db.rows, s.pc.found))
    && (d.markers != [] ==> Covers(s.committed, d.db.rows, d.ranges))
  }

  lemma CoveredByEither(a: seq<Range>, b: seq<Range>, t: Table, id: int)
    ensures CoveredBy(a + b, t, id) <==> CoveredBy(a, t, id) || CoveredBy(b, t, id)
  {
    var all := a + b;
    if CoveredBy(a, t, id) {
      var k :| 0 <= k < |a| && a[k].table == t && a[k].min <= id <= a[k].max;
      assert all[k] == a[k];
    }
    if CoveredBy(b, t, id) {
      var k :| 0 <= k < |b| && b[k].table == t && b[k].min <= id <= b[k].max;
      assert all[|a| + k] == b[k];
    }
  }

  lemma CoveredByOne(r: Range, t: Table, id: int)
    ensures CoveredBy([r], t, id) <==> r.table == t && r.min <= id <= r.max
    ensures !CoveredBy([], t, id)
  {
    assert [r][0] == r;
  }

  /** The recorded ranges are exactly the half-open intervals since the snapshot. */
  lemma {:induction false} RangesExactly(pre: map<Table, int>, rows: seq<Stored>, targets: seq<Table>, t: Table, id: int)
    ensures CoveredBy(RangesSince(pre, rows, targets), t, id) <==> t in targets && Pre(pre, t) < id <= MaxId(rows, t)
  {
    hide MaxId, Pre, CoveredBy, RangesSince;
    RangesOfNothing(pre, rows);
    if targets == [] {
      CoveredByOne(Range(t, 0, 0), t, id);
    } else {
      var n := |targets| - 1;
      var u := targets[n];
      RangesOfNext(pre, rows, targets, n);
      assert targets[..n + 1] == targets;
      var r := Range(u, Pre(pre, u) + 1, MaxId(rows, u));
      RangesExactly(pre, rows, targets[..n], t, id);
      assert targets == targets[..n] + [u];
      CoveredByEither(RangesSince(pre, rows, targets[..n]), if MaxId(rows, u) > Pre(pre, u) then [r] else [], t, id);
      CoveredByOne(r, t, id);
    }
  }

  /** No committed row comes back once it is gone. */
  predicate NoneReturns(committed: set<(Table, int)>, before: seq<Stored>, after: seq<Stored>) {
    forall c :: c in committed && Has(after, c.0, c.1) ==> Has(before, c.0, c.1)
  }

  lemma OtherBringsNothingBack(e: Env, s: Sys, db: Db)
    requires Coverage(s) && OtherWriter(e, s.disk.db, db)
    ensures NoneReturns(s.committed, s.disk.db.rows, db.rows)
  {
    hide Agrees, IdsAscend, Covers;
    forall c | c in s.committed && Has(db.rows, c.0, c.1) ensures Has(s.disk.db.rows, c.0, c.1) {
      var i :| 0 <= i < |db.rows| && TableOf(db.rows[i].row) == c.0 && db.rows[i].id == c.1;
      var j :| 0 <= j < |s.disk.db.rows| && SameIdentity(s.disk.db.rows[j], db.rows[i]);
    }
  }

  lemma PurgeBringsNothingBack(committed: set<(Table, int)>, rows: seq<Stored>, ranges: seq<Range>)
    ensures NoneReturns(committed, rows, Purge(rows, ranges))
  {
    hide Purgeable;
    PurgeKeeps(rows, ranges);
    var kept := Purge(rows, ranges);
    forall c | c in committed && Has(kept, c.0, c.1) ensures Has(rows, c.0, c.1) {
      var i :| 0 <= i < |kept| && TableOf(kept[i].row) == c.0 && kept[i].id == c.1;
      assert kept[i] in rows;
      var j :| 0 <= j < |rows| && rows[j] == kept[i];
    }
  }

  lemma CommitKeepsCoverage(e: Env, s: Sys, at: int)
    requires Control(s) && Coverage(s) && s.pc.Engine? && s.pc.k < |Work(e, s.disk)| && ArchiveShaped(s.disk.archive)
    ensures Coverage(Commit(e, s, at))
  {
    hide Agrees, Commit, Work, Covers, ArchiveShaped;
    CommitAppends(e, s, at);
    CommitShape(e, s, at);
  }

  lemma MeasureCovers(s: Sys)
    requires Control(s) && Coverage(s) && s.pc.Engine?
    ensures Covers(s.committed, s.disk.db.rows, RangesSince(s.pc.pre, s.disk.db.rows, TARGETS))
  {
    hide RangesSince, IdsAscend, Pre;
    forall c | c in s.committed && Has(s.disk.db.rows, c.0, c.1)
      ensures CoveredBy(RangesSince(s.pc.pre, s.disk.db.rows, TARGETS), c.0, c.1)
    {
      RangesExactly(s.pc.pre, s.disk.db.rows, TARGETS, c.0, c.1);
    }
  }

  lemma CoverageStep(e: Env, s: Sys, a: Action)
    requires Control(s) && Coverage(s) && ArchiveShaped(s.disk.archive)
    ensures Coverage(Exec(e, s, a))
  {
    hide IdsAscend, OtherWriter, Snapshot, RangesSince, Purge, ArchiveShaped, RunBatch, Work, Rebuild, Commit, Decide, CoveredBy, Has, LastId, Pre;
    match a
    case Boot(now, later) => BootShape(e, s.disk, now, later);
    case CommitBatch(at) =>
      if s.pc.Engine? && s.pc.k < |Work(e, s.disk)| {
        CommitKeepsCoverage(e, s, at);
      }
    case Measure =>
      if s.pc.Engine? {
        MeasureCovers(s);
      }
    case RecordMarker(now) =>
      if s.pc.Measured? {
        assert s.disk.ranges + s.pc.found == s.pc.found;
      }
    case PurgeDelete => PurgeBringsNothingBack(s.committed, s.disk.db.rows, s.disk.ranges);
    case RebuildAgg => RebuildKeepsRows(e, s.disk.db);
    case Other(db) =>
      if OtherWriter(e, s.disk.db, db) {
        OtherAscends(e, s.disk.db, db);
        OtherBringsNothingBack(e, s, db);
      }
    case _ =>
  }

  lemma BootShape(e: Env, d: Disk, now: int, later: int)
    ensures var pc := Decide(e, d, now, later);
      !pc.Measured? && !pc.PurgeRebuild? && !pc.PurgeFlip? && (pc.Snapshotted? ==> pc.pre == Snapshot(d.db.rows))
  {
    hide Due, Previews.MigrationPreviewOf, Work, Snapshot;
  }

  // ---------- Exactness ----------

  /** Every stored row above the snapshot was committed by the engine. */
  predicate AllCommittedAbove(committed: set<(Table, int)>, rows: seq<Stored>, pre: map<Table, int>) {
    forall i :: 0 <= i < |rows| && TableOf(rows[i].row) in TARGETS && rows[i].id > Pre(pre, TableOf(rows[i].row)) ==>
      (TableOf(rows[i].row), rows[i].id) in committed
  }

  predicate OnlyCommitted(committed: set<(Table, int)>, rows: seq<Stored>, ranges: seq<Range>) {
    forall i :: 0 <= i < |rows| && CoveredBy(ranges, TableOf(rows[i].row), rows[i].id) ==>
      (TableOf(rows[i].row), rows[i].id) in committed
  }

  ghost predicate RangesBelowLast(ranges: seq<Range>, last: map<Table, int>) {
    forall t: Table, id: int :: CoveredBy(ranges, t, id) ==> id <= LastId(last, t)
  }

  ghost predicate Exactness(s: Sys) {
    var d := s.disk;
    && (s.pc.Measured? ==> RangesBelowLast(s.pc.found, d.db.last))
    && (d.markers != [] ==> RangesBelowLast(d.ranges, d.db.last))
    && (!s.foreign ==>
          && (s.pc.Snapshotted? ==> AllCommittedAbove(s.committed, d.db.rows, s.pc.pre))
          && (d.attempt != map[] ==> AllCommittedAbove(s.committed, d.db.rows, d.attempt))
          && (s.pc.Measured? ==> OnlyCommitted(s.committed, d.db.rows, s.pc.found))
          && (d.markers != [] ==> OnlyCommitted(s.committed, d.db.rows, d.ranges)))
  }

  lemma SnapshotStartsExact(committed: set<(Table, int)>, rows: seq<Stored>)
    ensures AllCommittedAbove(committed, rows, Snapshot(rows))
  {
  }

  lemma CommitKeepsExactness(e: Env, s: Sys, at: int)
    requires Control(s) && Exactness(s) && s.pc.Engine? && s.pc.k < |Work(e, s.disk)| && ArchiveShaped(s.disk.archive)
    ensures Exactness(Commit(e, s, at))
  {
    hide IdsAscend, Agrees, Commit, Work, CoveredBy, ArchiveShaped, Pre, LastId, TableOf;
    CommitAppends(e, s, at);
    CommitShape(e, s, at);
  }

  lemma MeasureIsExact(s: Sys)
    requires Control(s) && Exactness(s) && s.pc.Engine?
    ensures RangesBelowLast(RangesSince(s.pc.pre, s.disk.db.rows, TARGETS), s.disk.db.last)
    ensures !s.foreign ==> OnlyCommitted(s.committed, s.disk.db.rows, RangesSince(s.pc.pre, s.disk.db.rows, TARGETS))
  {
    hide RangesSince, Pre, CoveredBy, LastId;
    var found, rows := RangesSince(s.pc.pre, s.disk.db.rows, TARGETS), s.disk.db.rows;
    forall t: Table, id: int | CoveredBy(found, t, id) ensures t in TARGETS && Pre(s.pc.pre, t) < id <= LastId(s.disk.db.last, t) {
      RangesExactly(s.pc.pre, rows, TARGETS, t, id);
      MaxIdBelowLast(rows, s.disk.db.last, t);
    }
  }

  lemma MaxIdBelowLast(rows: seq<Stored>, last: map<Table, int>, t: Table)
    requires IdsAscend(rows, last)
    ensures MaxId(rows, t) <= LastId(last, t)
  {
  }

  lemma OtherKeepsExactness(e: Env, s: Sys, db: Db)
    requires Control(s) && Exactness(s) && OtherWriter(e, s.disk.db, db)
    ensures Exactness(s.(disk := s.disk.(db := db), foreign := s.foreign || Importing(s)))
  {
    hide CoveredBy, Agrees, IdsAscend, Pre;
    OtherAscends(e, s.disk.db, db);
    if s.disk.markers != [] && !s.foreign {
      forall i | 0 <= i < |db.rows| && CoveredBy(s.disk.ranges, TableOf(db.rows[i].row), db.rows[i].id)
        ensures (TableOf(db.rows[i].row), db.rows[i].id) in s.committed
      {
        var j :| 0 <= j < |s.disk.db.rows| && SameIdentity(s.disk.db.rows[j], db.rows[i]);
      }
    }
  }

  lemma PurgeKeepsExactness(committed: set<(Table, int)>, rows: seq<Stored>, ranges: seq<Range>)
    requires OnlyCommitted(committed, rows, ranges)
    ensures OnlyCommitted(committed, Purge(rows, ranges), ranges)
  {
    hide Purgeable, CoveredBy;
    PurgeKeeps(rows, ranges);
    var kept := Purge(rows, ranges);
    forall i | 0 <= i < |kept| && CoveredBy(ranges, TableOf(kept[i].row), kept[i].id)
      ensures (TableOf(kept[i].row), kept[i].id) in committed
    {
      assert kept[i] in rows;
      var j :| 0 <= j < |rows| && rows[j] == kept[i];
    }
  }

  lemma ExactnessStep(e: Env, s: Sys, a: Action)
    requires Control(s) && Exactness(s) && ArchiveShaped(s.disk.archive)
    ensures Exactness(Exec(e, s, a))
  {
    hide IdsAscend, OtherWriter, Snapshot, RangesSince, Purge, ArchiveShaped, RunBatch, Work, Rebuild, Commit, Decide,
         OnlyCommitted, AllCommittedAbove, RangesBelowLast, BelowLast;
    match a
    case Boot(now, later) =>
      BootShape(e, s.disk, now, later);
      SnapshotStartsExact(s.committed, s.disk.db.rows);
    case CommitBatch(at) =>
      if s.pc.Engine? && s.pc.k < |Work(e, s.disk)| {
        CommitKeepsExactness(e, s, at);
      }
    case Measure =>
      if s.pc.Engine? {
        MeasureIsExact(s);
      }
    case RecordMarker(now) =>
      if s.pc.Measured? {
        assert s.disk.ranges + s.pc.found == s.pc.found;
      } else {
        NoRangesAreExact(s.committed, s.disk.db);
      }
    case PurgeDelete =>
      if s.pc.PurgeReady? && !s.foreign {
        PurgeKeepsExactness(s.committed, s.disk.db.rows, s.disk.ranges);
      }
    case RebuildAgg => RebuildKeepsRows(e, s.disk.db);
    case Other(db) =>
      if OtherWriter(e, s.disk.db, db) {
        OtherKeepsExactness(e, s, db);
      }
    case _ =>
  }

  lemma NoRangesAreExact(committed: set<(Table, int)>, db: Db)
    ensures OnlyCommitted(committed, db.rows, []) && RangesBelowLast([], db.last)
  {
  }

  // ---------- The cache and the purge ----------

  /** The cache is right unless a purge still owes a rebuild, and then the
      marker is unpurged. */
  predicate CacheDebt(e: Env, s: Sys) {
    var d := s.disk;
    && (!s.debt ==> Agrees(e.day, d.db.rows, d.db.agg))
    && (s.debt ==> d.markers != [] && !d.markers[0].purged && !s.pc.PurgeFlip?)
  }

  lemma CacheDebtStep(e: Env, s: Sys, a: Action)
    requires Control(s) && CacheDebt(e, s) && ArchiveShaped(s.disk.archive)
    ensures CacheDebt(e, Exec(e, s, a))
  {
    hide IdsAscend, Snapshot, RangesSince, Purge, ArchiveShaped, RunBatch, Work, Rebuild, Commit, Decide, BelowLast, Agrees;
    match a
    case Boot(now, later) => BootShape(e, s.disk, now, later);
    case CommitBatch(at) =>
      if s.pc.Engine? && s.pc.k < |Work(e, s.disk)| {
        CommitAppends(e, s, at);
        CommitShape(e, s, at);
      }
    case RebuildAgg => RebuildKeepsRows(e, s.disk.db);
    case _ =>
  }

  predicate PurgeDone(s: Sys) {
    s.pc.PurgeRebuild? || s.pc.PurgeFlip? || (s.disk.markers != [] && s.disk.markers[0].purged)
  }

  predicate CodexKept(committed: set<(Table, int)>, rows: seq<Stored>) {
    forall i :: 0 <= i < |rows| && (TableOf(rows[i].row), rows[i].id) in committed ==> IsCodexOrEvent(rows[i])
  }

  predicate AllGone(committed: set<(Table, int)>, rows: seq<Stored>) {
    forall c :: c in committed ==> !Has(rows, c.0, c.1)
  }

  predicate Gone(s: Sys) {
    CodexKept(s.committed, s.disk.db.rows) && (PurgeDone(s) ==> AllGone(s.committed, s.disk.db.rows))
  }

  lemma CommitKeepsCodex(e: Env, s: Sys, at: int)
    requires Control(s) && Coverage(s) && CodexKept(s.committed, s.disk.db.rows)
    requires s.pc.Engine? && s.pc.k < |Work(e, s.disk)| && ArchiveShaped(s.disk.archive)
    ensures CodexKept(Commit(e, s, at).committed, Commit(e, s, at).disk.db.rows)
  {
    hide Commit, Work, ArchiveShaped, IsCodexOrEvent, Agrees, TableOf;
    CommitAppends(e, s, at);
    CommitShape(e, s, at);
    var before, after := s.disk.db, Commit(e, s, at).disk.db;
    forall i | 0 <= i < |after.rows| && (TableOf(after.rows[i].row), after.rows[i].id) in Commit(e, s, at).committed
      ensures IsCodexOrEvent(after.rows[i])
    {
      if i < |before.rows| {
        assert after.rows[i] == before.rows[i];
        assert before.rows[i].id <= LastId(before.last, TableOf(before.rows[i].row));
        assert (TableOf(after.rows[i].row), after.rows[i].id) !in NewIds(before.rows, after.rows);
      }
    }
  }

  lemma OtherKeepsCodex(e: Env, s: Sys, db: Db)
    requires Coverage(s) && Gone(s) && OtherWriter(e, s.disk.db, db)
    ensures CodexKept(s.committed, db.rows) && (PurgeDone(s) ==> AllGone(s.committed, db.rows))
  {
    hide Agrees, IdsAscend, Covers, IsCodexOrEvent;
    OtherBringsNothingBack(e, s, db);
    forall i | 0 <= i < |db.rows| && (TableOf(db.rows[i].row), db.rows[i].id) in s.committed ensures IsCodexOrEvent(db.rows[i]) {
      var j :| 0 <= j < |s.disk.db.rows| && SameIdentity(s.disk.db.rows[j], db.rows[i]);
    }
  }

  lemma PurgeRemovesAll(s: Sys)
    requires Control(s) && Coverage(s) && Gone(s) && s.disk.markers != []
    ensures AllGone(s.committed, Purge(s.disk.db.rows, s.disk.ranges))
    ensures CodexKept(s.committed, Purge(s.disk.db.rows, s.disk.ranges))
  {
    hide CoveredBy, IsCodexOrEvent, IdsAscend;
    var rows, ranges := s.disk.db.rows, s.disk.ranges;
    var kept := Purge(rows, ranges);
    PurgeKeeps(rows, ranges);
    forall i | 0 <= i < |kept| ensures (TableOf(kept[i].row), kept[i].id) !in s.committed {
      assert kept[i] in rows && !Purgeable(ranges, kept[i]);
      var j :| 0 <= j < |rows| && rows[j] == kept[i];
      if (TableOf(kept[i].row), kept[i].id) in s.committed {
        assert Has(rows, TableOf(kept[i].row), kept[i].id);
        assert CoveredBy(ranges, TableOf(kept[i].row), kept[i].id) && IsCodexOrEvent(kept[i]);
        PurgeableIs(ranges, kept[i]);
      }
    }
  }

  lemma PurgeableIs(ranges: seq<Range>, s: Stored)
    ensures Purgeable(ranges, s) <==> CoveredBy(ranges, TableOf(s.row), s.id) && IsCodexOrEvent(s)
  {
  }

  lemma GoneStep(e: Env, s: Sys, a: Action)
    requires Control(s) && Coverage(s) && Gone(s) && ArchiveShaped(s.disk.archive)
    ensures Gone(Exec(e, s, a))
  {
    hide IdsAscend, OtherWriter, Snapshot, RangesSince, Purge, ArchiveShaped, RunBatch, Work, Rebuild, Commit, Decide, BelowLast,
         AllGone, CodexKept, Covers;
    match a
    case Boot(now, later) => BootShape(e, s.disk, now, later);
    case CommitBatch(at) =>
      if s.pc.Engine? && s.pc.k < |Work(e, s.disk)| {
        CommitKeepsCodex(e, s, at);
        CommitShape(e, s, at);
      }
    case PurgeDelete =>
      if s.pc.PurgeReady? {
        PurgeRemovesAll(s);
      }
    case RebuildAgg => RebuildKeepsRows(e, s.disk.db);
    case Other(db) =>
      if OtherWriter(e, s.disk.db, db) {
        OtherKeepsCodex(e, s, db);
      }
    case _ =>
  }

  // ---------- Every run ----------

  ghost predicate Inv(e: Env, s: Sys) {
    Control(s) && Coverage(s) && Exactness(s) && CacheDebt(e, s) && Gone(s) && ArchiveShaped(s.disk.archive)
  }

  /** A database that never ran the auto-import. */
  predicate Fresh(e: Env, s: Sys) {
    && s == Sys(s.disk, Down, {}, false, false)
    && s.disk == Disk(s.disk.db, s.disk.archive, map[], [], [])
    && IdsAscend(s.disk.db.rows, s.disk.db.last) && Agrees(e.day, s.disk.db.rows, s.disk.db.agg)
    && ArchiveShaped(s.disk.archive)
  }

  lemma FreshIsInv(e: Env, s: Sys)
    requires Fresh(e, s)
    ensures Inv(e, s)
  {
    hide Agrees, IdsAscend;
  }

  lemma {:induction false} RunKeepsInv(e: Env, s: Sys, actions: seq<Action>)
    requires Inv(e, s)
    ensures Inv(e, Run(e, s, actions)) && Run(e, s, actions).disk.archive == s.disk.archive
  {
    hide Control, Coverage, Exactness, CacheDebt, Gone, ArchiveShaped, Exec;
    if actions != [] {
      var n := |actions| - 1;
      RunKeepsInv(e, s, actions[..n]);
      var before := Run(e, s, actions[..n]);
      ControlStep(e, before, actions[n]);
      CoverageStep(e, before, actions[n]);
      ExactnessStep(e, before, actions[n]);
      CacheDebtStep(e, before, actions[n]);
      GoneStep(e, before, actions[n]);
    }
  }

  /** Coverage and exactness: over any number of boots, crashes, failed imports
      and other writers, once the marker exists the recorded ranges contain every
      surviving row any attempt committed; and if nobody else wrote between the
      first snapshot and the marker, a stored row is in the ranges exactly when
      an attempt committed it. */
  lemma MarkerCoversEveryAttempt(e: Env, s: Sys, actions: seq<Action>)
    requires Fresh(e, s)
    ensures var end := Run(e, s, actions);
      end.disk.markers != [] ==>
        && Covers(end.committed, end.disk.db.rows, end.disk.ranges)
        && (!end.foreign ==> forall i :: 0 <= i < |end.disk.db.rows| ==>
              var r := end.disk.db.rows[i];
              CoveredBy(end.disk.ranges, TableOf(r.row), r.id) <==> (TableOf(r.row), r.id) in end.committed)
  {
    hide CoveredBy, Fresh, IdsAscend, TableOf;
    FreshIsInv(e, s);
    RunKeepsInv(e, s, actions);
    var end := Run(e, s, actions);
    if end.disk.markers != [] && !end.foreign {
      forall i | 0 <= i < |end.disk.db.rows|
        ensures var r := end.disk.db.rows[i]; (TableOf(r.row), r.id) in end.committed ==> CoveredBy(end.disk.ranges, TableOf(r.row), r.id)
      {
        assert Has(end.disk.db.rows, TableOf(end.disk.db.rows[i].row), end.disk.db.rows[i].id);
      }
    }
  }

  /** Purge repair: while a purge has deleted rows the cache still counts, the
      marker is unpurged, so a later boot purges and rebuilds again; once the
      marker says purged, the cache is right and nothing that any attempt
      committed is left. */
  lemma PurgedMeansRepaired(e: Env, s: Sys, actions: seq<Action>)
    requires Fresh(e, s)
    ensures var end := Run(e, s, actions);
      && (!Agrees(e.day, end.disk.db.rows, end.disk.db.agg) ==> end.disk.markers != [] && !end.disk.markers[0].purged)
      && (end.disk.markers != [] && end.disk.markers[0].purged ==>
            Agrees(e.day, end.disk.db.rows, end.disk.db.agg) && AllGone(end.committed, end.disk.db.rows))
  {
    hide Fresh, Control, Coverage, Exactness, Agrees;
    FreshIsInv(e, s);
    RunKeepsInv(e, s, actions);
  }

  /** One shot: after the flip no boot changes anything on disk again. */
  lemma PurgedIsFinal(e: Env, s: Sys, actions: seq<Action>, a: Action)
    requires Fresh(e, s) && !a.Other?
    ensures var end := Run(e, s, actions);
      end.disk.markers != [] && end.disk.markers[0].purged ==> Exec(e, end, a).disk == end.disk && Exec(e, end, a).pc == Down
  {
    hide Fresh, Coverage, Exactness, CacheDebt, Gone, Agrees, IdsAscend;
    FreshIsInv(e, s);
    RunKeepsInv(e, s, actions);
  }

  /** No step of a boot but a purge deletes a row, and a purge never deletes an
      api_requests row of another service or a row outside the recorded ranges. */
  lemma OnlyCodexIsPurged(e: Env, s: Sys, a: Action, i: int)
    requires !a.Other? && 0 <= i < |s.disk.db.rows| && s.disk.db.rows[i] !in Exec(e, s, a).disk.db.rows
    ensures a.PurgeDelete? && Purgeable(s.disk.ranges, s.disk.db.rows[i])
  {
    hide Purgeable, FanOut, Decide, Work;
    match a
    case CommitBatch(at) =>
      if s.pc.Engine? && s.pc.k < |Work(e, s.disk)| {
        BatchAppends(e.day, s.disk.db, Work(e, s.disk)[s.pc.k], "codex-migration", at);
      }
    case PurgeDelete => PurgeKeeps(s.disk.db.rows, s.disk.ranges);
    case _ =>
  }

  /** The next boot that finds the marker due finishes the purge, whatever an
      earlier one left undone. */
  lemma DueBootRepairs(e: Env, s: Sys, now: int, later: int)
    requires Inv(e, s) && s.pc.Down? && s.disk.markers != []
    requires Due(e, s.disk.markers[0], now) && s.disk.markers[0].importedAt <= later
    ensures var end := Run(e, s, [Boot(now, later), PurgeDelete, RebuildAgg, Flip]);
      && end.disk.markers == [s.disk.markers[0].(purged := true)] && end.pc == Down
      && Agrees(e.day, end.disk.db.rows, end.disk.db.agg) && AllGone(end.committed, end.disk.db.rows)
      && end.disk.attempt == s.disk.attempt && end.disk.ranges == s.disk.ranges
  {
    hide Due, Agrees, Coverage, Exactness, ArchiveShaped, Purge, Rebuild, Exec, IdsAscend, AllGone, CodexKept, BelowLast, Run;
    RunKeepsInv(e, s, [Boot(now, later), PurgeDelete, RebuildAgg, Flip]);
    FourSteps(e, s, Boot(now, later), PurgeDelete, RebuildAgg, Flip);
    PurgeBootSteps(e, s, now, later);
  }

  lemma FourSteps(e: Env, s: Sys, a: Action, b: Action, c: Action, d: Action)
    ensures Run(e, s, [a, b, c, d]) == Exec(e, Exec(e, Exec(e, Exec(e, s, a), b), c), d)
  {
    hide Exec;
    assert [a, b, c, d][..3] == [a, b, c] && [a, b, c][..2] == [a, b] && [a, b][..1] == [a] && [a][..0] == [];
    assert Run(e, s, [a]) == Exec(e, s, a);
    assert Run(e, s, [a, b]) == Exec(e, Exec(e, s, a), b);
    assert Run(e, s, [a, b, c]) == Exec(e, Exec(e, Exec(e, s, a), b), c);
  }

  lemma PurgeBootSteps(e: Env, s: Sys, now: int, later: int)
    requires Control(s) && s.pc.Down? && s.disk.markers != []
    requires Due(e, s.disk.markers[0], now) && s.disk.markers[0].importedAt <= later
    ensures var a := Exec(e, s, Boot(now, later)); var b := Exec(e, a, PurgeDelete); var c := Exec(e, b, RebuildAgg); var d := Exec(e, c, Flip);
      && a.pc == PurgeReady && b.pc == PurgeRebuild && c.pc == PurgeFlip && d.pc == Down
      && d.disk == s.disk.(db := Rebuild(e.day, s.disk.db.(rows := Purge(s.disk.db.rows, s.disk.ranges))),
                           markers := [s.disk.markers[0].(purged := true)])
      && !d.debt && d.committed == s.committed
  {
    hide Due, Purge, Rebuild, IdsAscend, Work, Previews.MigrationPreviewOf, Snapshot;
  }

  /** Where local midnight never runs backwards a marker from the future is never
      due, and the guard of the purge, which reads the clock again, fires only if
      the clock went back a month between the two readings. */
  lemma FutureMarkerIsNeverDue(e: Env, m: Marker, now: int, later: int)
    requires forall t, u :: t <= u ==> e.midnight(t) <= e.midnight(u)
    ensures Due(e, m, now) ==> m.importedAt <= now
    ensures Due(e, m, now) && m.importedAt > later ==> e.midnight(later) + PURGE_AFTER_DAYS * 86400 <= e.midnight(now)
  {
    if m.importedAt > now {
      assert e.midnight(now) <= e.midnight(m.importedAt);
    }
    if m.importedAt > later {
      assert e.midnight(later) <= e.midnight(m.importedAt);
    }
  }

  /** An import is due for its purge thirty days of midnights later, once. */
  lemma DueAfterThirtyDays(e: Env, m: Marker, now: int)
    ensures Due(e, m, now) <==> !m.purged && e.midnight(now) - e.midnight(m.importedAt) >= 30 * 24 * 60 * 60
  {
  }

  // ---------- The resumed import is the uninterrupted one ----------

  /** While nobody else writes, the database is the one an uninterrupted import
      would have after its first f batches. */
  predicate Reached(e: Env, s: Sys, start: Db, clock: nat -> int, f: nat) {
    s.disk.markers == [] ==>
      && f <= |Work(e, s.disk)|
      && SameData(s.disk.db, Import(e.day, start, Work(e, s.disk)[..f], "codex-migration", clock))
      && (s.pc.Engine? ==> s.pc.k <= f)
      && (s.pc.Measured? ==> f == |Work(e, s.disk)|)
  }

  lemma CommitReaches(e: Env, s: Sys, start: Db, clock: nat -> int, f: nat, at: int) returns (f': nat)
    requires Reached(e, s, start, clock, f) && s.disk.markers == [] && s.pc.Engine? && s.pc.k < |Work(e, s.disk)|
    ensures Reached(e, Commit(e, s, at), start, clock, f')
  {
    hide RunBatch, SameData, Settled, Scan;
    var bs, k := Work(e, s.disk), s.pc.k;
    var reached := Import(e.day, start, bs[..f], "codex-migration", clock);
    BatchSame(e.day, s.disk.db, reached, bs[k], "codex-migration", at, clock(k));
    if k < f {
      f' := f;
      ImportSettles(e.day, start, bs[..f], "codex-migration", clock, k);
      SettledIsFixed(e.day, reached, bs[k], "codex-migration", clock(k));
    } else {
      f' := f + 1;
      assert bs[..f + 1][..f] == bs[..f];
    }
  }

  lemma StepReaches(e: Env, s: Sys, start: Db, clock: nat -> int, f: nat, a: Action) returns (f': nat)
    requires Control(s) && Reached(e, s, start, clock, f) && !a.Other?
    ensures Reached(e, Exec(e, s, a), start, clock, f')
  {
    hide Import, SameData, Snapshot, RangesSince, Purge, Rebuild, Scan, Commit, IdsAscend, BelowLast, Decide;
    f' := f;
    match a
    case Boot(now, later) => BootStart(e, s.disk, now, later);
    case CommitBatch(at) =>
      if s.pc.Engine? && s.pc.k < |Work(e, s.disk)| {
        f' := CommitReaches(e, s, start, clock, f, at);
      }
    case _ =>
  }

  lemma BootStart(e: Env, d: Disk, now: int, later: int)
    ensures var pc := Decide(e, d, now, later); !pc.Measured? && (pc.Engine? ==> pc.k == 0)
  {
    hide Due, Previews.MigrationPreviewOf, Work, Snapshot;
  }

  lemma {:induction false} RunReaches(e: Env, s: Sys, actions: seq<Action>, clock: nat -> int) returns (f: nat)
    requires Fresh(e, s) && forall i :: 0 <= i < |actions| ==> !actions[i].Other?
    ensures Reached(e, Run(e, s, actions), s.disk.db, clock, f)
  {
    hide Exec, Control, Coverage, Exactness, CacheDebt, Gone, Fresh, Reached;
    if actions == [] {
      f := 0;
      FreshReaches(e, s, clock);
    } else {
      var n := |actions| - 1;
      f := RunReaches(e, s, actions[..n], clock);
      FreshIsInv(e, s);
      RunKeepsInv(e, s, actions[..n]);
      f := StepReaches(e, Run(e, s, actions[..n]), s.disk.db, clock, f, actions[n]);
    }
  }

  lemma FreshReaches(e: Env, s: Sys, clock: nat -> int)
    requires Fresh(e, s)
    ensures Reached(e, s, s.disk.db, clock, 0)
  {
    hide Agrees, IdsAscend, Scan;
    assert Work(e, s.disk)[..0] == [];
  }

  /** However often the import crashed or failed, when it is about to write its
      marker the database is the one a single uninterrupted import produces. */
  lemma ResumedImportIsWhole(e: Env, s: Sys, actions: seq<Action>, clock: nat -> int)
    requires Fresh(e, s) && forall i :: 0 <= i < |actions| ==> !actions[i].Other?
    ensures var end := Run(e, s, actions);
      end.pc.Measured? ==> SameData(end.disk.db, Import(e.day, s.disk.db, Work(e, s.disk), "codex-migration", clock))
  {
    hide Exec, Coverage, Exactness, CacheDebt, Gone, Fresh, SameData, IdsAscend, Scan;
    var end := Run(e, s, actions);
    var f := RunReaches(e, s, actions, clock);
    FreshIsInv(e, s);
    RunKeepsInv(e, s, actions);
    assert Work(e, end.disk) == Work(e, s.disk) && Work(e, s.disk)[..|Work(e, s.disk)|] == Work(e, s.disk);
  }
}
