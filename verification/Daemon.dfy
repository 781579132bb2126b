/** One boot of the daemon: the auto-import as the program runs it, with a
    budget of transactions after which the process dies. */
module Daemon {
  import opened Rows
  import opened Aggregate
  import opened Batches
  import opened Merge
  import opened MergeEngine
  import opened RepositoryModule
  import opened AutoImport
  import opened AutoImportSafety

  /** A run of this boot: from s to t, without another writer. */
  ghost predicate Follows(e: Env, s: Sys, trace: seq<Action>, t: Sys) {
    t == Run(e, s, trace) && forall i :: 0 <= i < |trace| ==> !trace[i].Other?
  }

  lemma FollowsNothing(e: Env, s: Sys)
    ensures Follows(e, s, [], s)
  {
  }

  lemma FollowsOneMore(e: Env, s: Sys, trace: seq<Action>, t: Sys, a: Action, u: Sys)
    requires Follows(e, s, trace, t) && !a.Other? && u == Exec(e, t, a)
    ensures Follows(e, s, trace + [a], u)
  {
    hide Exec;
    assert (trace + [a])[..|trace|] == trace;
  }

  lemma {:induction false} FollowsOn(e: Env, s: Sys, a: seq<Action>, t: Sys, b: seq<Action>, u: Sys)
    requires Follows(e, s, a, t) && Follows(e, t, b, u)
    ensures Follows(e, s, a + b, u)
    decreases |b|
  {
    hide Exec;
    if b == [] {
      assert a + b == a;
    } else {
      var n := |b| - 1;
      FollowsOn(e, s, a, t, b[..n], Run(e, t, b[..n]));
      FollowsOneMore(e, s, a + b[..n], Run(e, t, b[..n]), b[n], u);
      assert a + b[..n] + [b[n]] == a + b;
    }
  }

  lemma PurgeAlsoOne(rows: seq<Stored>, ranges: seq<Range>, r: Range)
    ensures Purge(Purge(rows, ranges), [r]) == Purge(rows, ranges + [r])
  {
    if rows != [] {
      hide Purgeable;
      var n := |rows| - 1;
      PurgeAlsoOne(rows[..n], ranges, r);
      PurgeableEither(ranges, r, rows[n]);
      var kept := Purge(rows[..n], ranges);
      if !Purgeable(ranges, rows[n]) {
        assert (kept + [rows[n]])[..|kept|] == kept;
      } else {
        assert Purge(rows, ranges) == kept;
      }
    }
  }

  lemma PurgeableEither(ranges: seq<Range>, r: Range, s: Stored)
    ensures Purgeable(ranges + [r], s) <==> Purgeable(ranges, s) || Purgeable([r], s)
  {
    CoveredByEither(ranges, [r], TableOf(s.row), s.id);
  }

  lemma PurgeNothing(rows: seq<Stored>)
    ensures Purge(rows, []) == rows
  {
    if rows != [] {
      PurgeNothing(rows[..|rows| - 1]);
    }
  }

  class Daemon {
    const e: Env
    const archive: seq<Row>
    const repo: Repository
    var attempt: map<Table, int>
    var markers: seq<Marker>
    var ranges: seq<Range>
    ghost var pc: Pc
    ghost var committed: set<(Table, int)>
    ghost var foreign: bool
    ghost var debt: bool

    constructor (e: Env, archive: seq<Row>, repo: Repository)
      ensures this.e == e && this.archive == archive && this.repo == repo
      ensures System() == Sys(Disk(repo.State(), archive, map[], [], []), Down, {}, false, false)
    {
      this.e, this.archive, this.repo := e, archive, repo;
      attempt, markers, ranges, pc, committed, foreign, debt := map[], [], [], Down, {}, false, false;
    }

    ghost function System(): Sys
      reads this, repo
    {
      Sys(Disk(repo.State(), archive, attempt, markers, ranges), pc, committed, foreign, debt)
    }

    method TakeSnapshot() returns (pre: map<Table, int>)
      ensures pre == Snapshot(repo.rows)
    {
      hide MaxId;
      pre := map[];
      for i := 0 to |TARGETS|
        invariant pre == map t | t in TARGETS[..i] :: MaxId(repo.rows, t)
      {
        assert TARGETS[..i + 1] == TARGETS[..i] + [TARGETS[i]];
        pre := pre[TARGETS[i] := MaxId(repo.rows, TARGETS[i])];
      }
      assert TARGETS[..|TARGETS|] == TARGETS;
    }

    method MeasureRanges(pre: map<Table, int>) returns (found: seq<Range>)
      ensures found == RangesSince(pre, repo.rows, TARGETS)
    {
      hide MaxId, Pre, RangesSince;
      found := [];
      RangesOfNothing(pre, repo.rows);
      for i := 0 to |TARGETS|
        invariant found == RangesSince(pre, repo.rows, TARGETS[..i])
      {
        RangesOfNext(pre, repo.rows, TARGETS, i);
        var post := MaxId(repo.rows, TARGETS[i]);
        if post > Pre(pre, TARGETS[i]) {
          found := found + [Range(TARGETS[i], Pre(pre, TARGETS[i]) + 1, post)];
        }
      }
      assert TARGETS[..|TARGETS|] == TARGETS;
    }

    /** One DELETE per recorded range, in one transaction. */
    method DeleteRanges()
      requires pc == PurgeReady
      modifies repo`rows, this`pc, this`debt
      ensures System() == Exec(e, old(System()), PurgeDelete) && pc == PurgeRebuild
    {
      hide Purgeable;
      var all, before := ranges, repo.rows;
      var kept := before;
      PurgeNothing(before);
      for i := 0 to |all|
        invariant kept == Purge(before, all[..i])
      {
        assert all[..i + 1] == all[..i] + [all[i]];
        PurgeAlsoOne(before, all[..i], all[i]);
        kept := Purge(kept, [all[i]]);
      }
      assert all[..|all|] == all;
      repo.rows := kept;
      pc, debt := PurgeRebuild, true;
    }

    method RebuildAfterPurge()
      requires pc == PurgeRebuild && repo.day == e.day
      modifies repo, this`pc, this`debt
      ensures System() == Exec(e, old(System()), RebuildAgg) && pc == PurgeFlip
    {
      hide GroupBy;
      repo.RebuildDailyAggregates();
      pc, debt := PurgeFlip, false;
    }

    method FlipMarker()
      requires pc == PurgeFlip && markers != []
      modifies this`markers, this`pc
      ensures System() == Exec(e, old(System()), Flip) && pc == Down
    {
      markers := markers[|markers| - 1 := markers[|markers| - 1].(purged := true)];
      pc := Down;
    }

    ghost method Die()
      modifies this`pc
      ensures System() == Exec(e, old(System()), Crash) && pc == Down
    {
      pc := Down;
    }

    /** Deletes, rebuild, flip; dies when the budget of transactions is spent. */
    method AutoPurgeImported(budget: nat) returns (ghost trace: seq<Action>)
      requires pc == PurgeReady && markers != [] && repo.day == e.day
      modifies this, repo
      ensures Follows(e, old(System()), trace, System()) && pc == Down
    {
      hide Exec, System, Follows;
      ghost var start := System();
      trace := [];
      FollowsNothing(e, start);
      if budget >= 1 {
        DeleteRanges();
        FollowsOneMore(e, start, trace, start, PurgeDelete, System());
        trace := trace + [PurgeDelete];
      }
      if budget >= 2 {
        ghost var deleted := System();
        RebuildAfterPurge();
        FollowsOneMore(e, start, trace, deleted, RebuildAgg, System());
        trace := trace + [RebuildAgg];
      }
      ghost var last := System();
      if budget >= 3 {
        FlipMarker();
        FollowsOneMore(e, start, trace, last, Flip, System());
        trace := trace + [Flip];
      } else {
        Die();
        FollowsOneMore(e, start, trace, last, Crash, System());
        trace := trace + [Crash];
      }
    }

    ghost method StartBoot(now: int, later: int)
      requires pc == Down
      modifies this`pc
      ensures System() == Exec(e, old(System()), Boot(now, later))
      ensures pc == AutoImport.Decide(e, old(System()).disk, now, later)
    {
      pc := AutoImport.Decide(e, System().disk, now, later);
    }

    method RecordAttemptPre(pre: map<Table, int>)
      requires pc == Snapshotted(pre)
      modifies this`attempt, this`pc
      ensures System() == Exec(e, old(System()), RecordAttempt)
      ensures attempt == pre && pc == Engine(pre, 0)
    {
      attempt := pre;
      pc := Engine(pre, 0);
    }

    /** One batch of the engine. */
    method CommitNext(b: Batch, ghost k: nat, at: int)
      requires pc.Engine? && pc.k == k < |Scan(e.limits, archive)| && b == Scan(e.limits, archive)[k] && repo.day == e.day
      modifies repo, this`pc, this`committed
      ensures System() == Exec(e, old(System()), CommitBatch(at))
      ensures pc == Engine(old(pc).pre, k + 1)
    {
      hide RunBatch, Scan, NewIds;
      CommitShape(e, System(), at);
      ghost var before := repo.rows;
      ghost var next := AutoImport.Commit(e, System(), at);
      var _ := MergeEngine.CommitBatch(repo, b, "codex-migration", at);
      pc, committed := Engine(pc.pre, k + 1), next.committed;
    }

    ghost method EndEngine(pre: map<Table, int>, found: seq<Range>)
      requires pc == Engine(pre, |Scan(e.limits, archive)|) && found == RangesSince(pre, repo.rows, TARGETS)
      modifies this`pc
      ensures System() == Exec(e, old(System()), Measure) && pc == Measured(found)
    {
      hide Scan, RangesSince;
      pc := Measured(found);
    }

    /** Marker, ranges and cleared attempt in one transaction. */
    method RecordAutoImport(now: int, found: seq<Range>)
      requires pc == Measured(found) || (pc == FastMark(now) && found == [])
      modifies this`attempt, this`markers, this`ranges, this`pc
      ensures System() == Exec(e, old(System()), RecordMarker(now)) && pc == Down
    {
      attempt, markers, ranges := map[], markers + [Marker(now, false)], ranges + found;
      pc := Down;
    }

    /** The engine from a snapshot to the marker. */
    method ImportFrom(pre: map<Table, int>, at: int, budget: nat) returns (ghost trace: seq<Action>)
      requires pc == Engine(pre, 0) && repo.day == e.day
      modifies this, repo
      ensures Follows(e, old(System()), trace, System()) && pc == Down
    {
      hide Exec, Scan, System, RangesSince, Follows;
      ghost var start := System();
      var work := Scan(e.limits, archive);
      var k := 0;
      trace := [];
      FollowsNothing(e, start);
      while k < |work| && k < budget
        invariant 0 <= k <= |work| && pc == Engine(pre, k)
        invariant Follows(e, start, trace, System())
      {
        ghost var before := System();
        CommitNext(work[k], k, at);
        FollowsOneMore(e, start, trace, before, CommitBatch(at), System());
        trace := trace + [CommitBatch(at)];
        k := k + 1;
      }
      ghost var last := System();
      if k == |work| && k < budget {
        var found := MeasureRanges(pre);
        EndEngine(pre, found);
        FollowsOneMore(e, start, trace, last, Measure, System());
        trace, last := trace + [Measure], System();
        RecordAutoImport(at, found);
        FollowsOneMore(e, start, trace, last, RecordMarker(at), System());
        trace := trace + [RecordMarker(at)];
      } else {
        Die();
        FollowsOneMore(e, start, trace, last, Crash, System());
        trace := trace + [Crash];
      }
    }

    /** The fast path: the archive is already in the pool, so only the marker is
        written. */
    method MarkOnly(now: int, budget: nat) returns (ghost trace: seq<Action>)
      requires pc == FastMark(now)
      modifies this
      ensures Follows(e, old(System()), trace, System()) && pc == Down
    {
      hide Exec, Follows;
      ghost var start := System();
      FollowsNothing(e, start);
      if budget >= 1 {
        RecordAutoImport(now, []);
        trace := [RecordMarker(now)];
        FollowsOneMore(e, start, [], start, RecordMarker(now), System());
      } else {
        Die();
        trace := [Crash];
        FollowsOneMore(e, start, [], start, Crash, System());
      }
      assert [] + trace == trace;
    }

    /** A new attempt: snapshot, attempt record, engine. */
    method ImportAnew(pre: map<Table, int>, now: int, budget: nat) returns (ghost trace: seq<Action>)
      requires pc == Snapshotted(pre) && repo.day == e.day
      modifies this, repo
      ensures Follows(e, old(System()), trace, System()) && pc == Down
    {
      hide Exec, Follows, System;
      ghost var start := System();
      FollowsNothing(e, start);
      if budget == 0 {
        Die();
        trace := [] + [Crash];
        FollowsOneMore(e, start, [], start, Crash, System());
        return;
      }
      RecordAttemptPre(pre);
      ghost var recorded := System();
      FollowsOneMore(e, start, [], start, RecordAttempt, recorded);
      ghost var rest := ImportFrom(pre, now, budget);
      FollowsOn(e, start, [] + [RecordAttempt], recorded, rest, System());
      trace := [] + [RecordAttempt] + rest;
    }

    /** A boot that found no marker but an archive: one that is already there, a
        new attempt, or the attempt of an earlier boot. */
    method StartImport(now: int, ghost later: int, budget: nat) returns (ghost trace: seq<Action>)
      requires markers == [] && archive != [] && repo.day == e.day
      requires pc == AutoImport.Decide(e, System().disk, now, later)
      modifies this, repo
      ensures Follows(e, old(System()), trace, System()) && pc == Down
    {
      hide Exec, Follows, Previews.MigrationPreviewOf, Scan, Snapshot, PreviewOf;
      if attempt != map[] {
        trace := ImportFrom(attempt, now, budget);
        return;
      }
      var preview, _ := InspectMigration(repo.rows, Scan(e.limits, archive), {ApiRequests});
      PreviewCountsNew(repo.rows, Scan(e.limits, archive), ApiRequests);
      if preview[ApiRequests].newRows == 0 {
        trace := MarkOnly(now, budget);
      } else {
        var pre := TakeSnapshot();
        trace := ImportAnew(pre, now, budget);
      }
    }

    /** The state machine of one boot: whatever the budget, what it does to the
        disk is a sequence of the modelled steps, beginning with the decision. */
    method AutoImportCodex(now: int, later: int, budget: nat) returns (ghost trace: seq<Action>)
      requires pc == Down && repo.day == e.day
      modifies this, repo
      ensures Follows(e, old(System()), trace, System()) && pc == Down
      ensures |trace| > 0 && trace[0] == Boot(now, later)
    {
      hide Exec, Follows, Previews.MigrationPreviewOf, Scan, Snapshot;
      ghost var start := System();
      StartBoot(now, later);
      ghost var decided := System();
      trace := [] + [Boot(now, later)];
      FollowsNothing(e, start);
      FollowsOneMore(e, start, [], start, Boot(now, later), decided);
      ghost var rest := [];
      if markers != [] {
        var m := markers[|markers| - 1];
        if m.purged || e.midnight(now) < e.midnight(m.importedAt) + PURGE_AFTER_DAYS * 86400 || m.importedAt > later {
          return;
        }
        rest := AutoPurgeImported(budget);
      } else if archive == [] {
        return;
      } else {
        rest := StartImport(now, later, budget);
      }
      FollowsOn(e, start, trace, decided, rest, System());
      trace := trace + rest;
    }
  }

  lemma PreviewCountsNew(rows: seq<Stored>, bs: seq<Batch>, t: Table)
    ensures PreviewOf(rows, bs, t).newRows == Previews.MigrationPreviewOf(rows, bs, t)
  {
  }
}
