/** When the cache is right: the writers fold a blank service name into
    claude-code, the rebuild keeps it, and no later step makes up for that. */
module ServiceNames {
  import opened Rows
  import opened Aggregate
  import opened Pool
  import opened Completion
  import opened Batches
  import opened Merge
  import opened MergeSoundness
  import opened Runs

  /** A request whose service name is white space but not empty. */
  predicate Unclean(r: Row) {
    r.Api? && !CleanService(r.req.service)
  }

  predicate StoresUnclean(before: seq<Stored>, after: seq<Stored>) {
    exists i :: |before| <= i < |after| && Unclean(after[i].row)
  }

  /** Steps that charge nothing without a token; names are free. */
  predicate Fair(s: Step) {
    match s
    case LiveInsert(q, _) => FreeWhilePending(q)
    case CodexInsert(q) => q.tok == NO_TOKENS ==> q.cost == 0
    case Completed(u) => u.tok == NO_TOKENS ==> u.cost == 0
    case ImportedBatch(b, _, _) => forall j :: 0 <= j < |b.cands| && b.cands[j].row.Api? ==> FreeWhilePending(b.cands[j].row.req)
    case _ => true
  }

  // ---------- Groups under a blank name ----------

  predicate BlankKey(k: Key) {
    !CleanService(k.service)
  }

  function CountIn(agg: Agg, k: Key): int {
    if k in agg then agg[k].requests else 0
  }

  /** How many rows the rebuild counts in a group. */
  function Members(day: int -> int, rows: seq<Stored>, k: Key): int {
    SumFor(day, rows, k).requests
  }

  lemma RightCacheCounts(day: int -> int, rows: seq<Stored>, k: Key)
    ensures CountIn(GroupBy(day, rows), k) == Members(day, rows, k)
  {
    hide SumFor, Groups;
    if k in Groups(day, rows) {
      GroupAt(day, rows, k);
    } else {
      EmptyGroup(day, rows, k);
    }
  }

  lemma NoWriterNamesABlankKey(day: int -> int, q: Request)
    ensures !BlankKey(LiveKey(day, q))
  {
    assert !IsSpace(DEFAULT_SERVICE[0]);
  }

  lemma UpsertElsewhere(agg: Agg, l: Key, c: Sums, k: Key)
    requires l != k
    ensures CountIn(Upsert(agg, l, c), k) == CountIn(agg, k)
  {
  }

  lemma InsertCountsNoBlank(day: int -> int, db: Db, q: Request, k: Key)
    requires BlankKey(k)
    ensures CountIn(InsertRequest(day, db, q).agg, k) == CountIn(db.agg, k)
  {
    hide Upsert, LiveKey, Contribution, IdTaken, BlankKey, CountIn;
    NoWriterNamesABlankKey(day, q);
    UpsertElsewhere(db.agg, LiveKey(day, q), Contribution(q), k);
  }

  lemma {:induction false} LandCountsNoBlank(day: int -> int, db: Db, rs: seq<Row>, k: Key)
    requires BlankKey(k)
    ensures CountIn(Land(day, db, rs).agg, k) == CountIn(db.agg, k)
  {
    hide Upsert, LiveKey, Contribution, BlankKey, CountIn;
    if rs != [] {
      var before, r := Land(day, db, rs[..|rs| - 1]), rs[|rs| - 1];
      LandCountsNoBlank(day, db, rs[..|rs| - 1], k);
      if r.Api? {
        NoWriterNamesABlankKey(day, r.req);
        UpsertElsewhere(before.agg, LiveKey(day, r.req), Contribution(r.req), k);
      }
    }
  }

  /** No writer but the rebuild ever touches a blank key. */
  lemma StepCountsNoBlank(day: int -> int, db: Db, s: Step, k: Key)
    requires BlankKey(k) && !s.Rebuilt?
    ensures CountIn(Apply(day, db, s).agg, k) == CountIn(db.agg, k)
  {
    hide InsertRequest, CountIn, Upsert, DurationRow, TtftRow, TurnRow, Land, Note, FanOut, Decide;
    match s
    case LiveInsert(q, span) =>
      InsertCountsNoBlank(day, db, q, k);
      if SpanApplies(db, q, span) {
        InsertCountsNoBlank(day, db.(rows := Process(db.rows, span)), q.(ttft := db.rows[span].row.span.ttft), k);
      }
    case CodexInsert(q) => InsertCountsNoBlank(day, db, CodexRow(q), k);
    case Completed(u) =>
      CodexIsClean();
      InsertCountsNoBlank(day, db, OrphanRow(u), k);
      if Decide(db.rows, u).Finalize? {
        UpsertElsewhere(db.agg, Key(day(db.rows[Decide(db.rows, u).i].row.req.ts), u.model, CODEX_SERVICE), Contribution(OrphanRow(u)).(requests := 0), k);
      }
    case ImportedBatch(b, _, _) => LandCountsNoBlank(day, db, FanOut(db.rows, b.cands), k);
    case _ =>
  }

  lemma SameRowSameGroup(day: int -> int, a: Stored, b: Stored, k: Key)
    requires SameRow(a, b)
    ensures InGroup(day, a.row, k) == InGroup(day, b.row, k)
  {
  }

  lemma MembersOfAppend(day: int -> int, rows: seq<Stored>, k: Key)
    requires rows != []
    ensures Members(day, rows, k) == Members(day, rows[..|rows| - 1], k) + if InGroup(day, rows[|rows| - 1].row, k) then 1 else 0
  {
    hide GroupKey;
  }

  /** A group never shrinks, and grows by every row that joins it. */
  lemma {:induction false} MembersGrow(day: int -> int, before: seq<Stored>, after: seq<Stored>, k: Key)
    requires Remembers(before, after)
    ensures Members(day, before, k) <= Members(day, after, k)
    ensures (exists i :: |before| <= i < |after| && InGroup(day, after[i].row, k)) ==> Members(day, before, k) < Members(day, after, k)
    decreases |after|
  {
    hide Members, InGroup, SameRow;
    if after != [] {
      var n := |after| - 1;
      MembersOfAppend(day, after, k);
      if |before| == |after| {
        MembersOfAppend(day, before, k);
        MembersGrow(day, before[..n], after[..n], k);
        SameRowSameGroup(day, before[n], after[n], k);
      } else {
        MembersGrow(day, before, after[..n], k);
        if exists i :: |before| <= i < |after| && InGroup(day, after[i].row, k) {
          var i :| |before| <= i < |after| && InGroup(day, after[i].row, k);
          if i < n {
            assert after[..n][i] == after[i];
          }
        }
      }
    }
  }

  /** The group a request with a blank name falls into. */
  lemma UncleanHasABlankKey(day: int -> int, r: Row)
    requires Unclean(r)
    ensures BlankKey(GroupKey(day, r.req)) && InGroup(day, r, GroupKey(day, r.req))
  {
  }

  // ---------- Once behind, always behind ----------

  ghost predicate NeverAhead(day: int -> int, db: Db) {
    forall k: Key :: BlankKey(k) ==> CountIn(db.agg, k) <= Members(day, db.rows, k)
  }

  ghost predicate Behind(day: int -> int, db: Db) {
    exists k: Key :: BlankKey(k) && CountIn(db.agg, k) < Members(day, db.rows, k)
  }

  lemma RightMeansNotBehind(day: int -> int, db: Db)
    requires Agrees(day, db.rows, db.agg)
    ensures NeverAhead(day, db) && !Behind(day, db)
  {
    hide CountIn, Members, BlankKey, GroupBy;
    forall k: Key ensures CountIn(db.agg, k) == Members(day, db.rows, k) {
      RightCacheCounts(day, db.rows, k);
    }
  }

  lemma StaysBehind(day: int -> int, db: Db, s: Step)
    requires NeverAhead(day, db) && !s.Rebuilt?
    ensures NeverAhead(day, Apply(day, db, s))
    ensures Behind(day, db) || StoresUnclean(db.rows, Apply(day, db, s).rows) ==> Behind(day, Apply(day, db, s))
  {
    hide CountIn, Members, BlankKey, Apply, GroupKey, Remembers, Unclean, InGroup;
    var next := Apply(day, db, s);
    StepRemembers(day, db, s);
    forall k: Key | BlankKey(k) ensures CountIn(next.agg, k) == CountIn(db.agg, k) && Members(day, db.rows, k) <= Members(day, next.rows, k) {
      StepCountsNoBlank(day, db, s, k);
      MembersGrow(day, db.rows, next.rows, k);
    }
    if StoresUnclean(db.rows, next.rows) {
      var i :| |db.rows| <= i < |next.rows| && Unclean(next.rows[i].row);
      UncleanHasABlankKey(day, next.rows[i].row);
      MembersGrow(day, db.rows, next.rows, GroupKey(day, next.rows[i].row.req));
    }
  }

  // ---------- One step that stores clean names ----------

  lemma RewriteKeepsAgreement(day: int -> int, db: Db, i: int, q: Request)
    requires Agrees(day, db.rows, db.agg) && 0 <= i < |db.rows| && db.rows[i].row.Api?
    requires q == db.rows[i].row.req.(duration := q.duration, ttft := q.ttft)
    ensures Agrees(day, SetRequest(db, i, q).rows, SetRequest(db, i, q).agg)
  {
    hide GroupBy;
    ReplaceKeepsGroupBy(day, db.rows, i, db.rows[i].(row := Api(q)));
  }

  lemma LatencyKeepsAgreement(day: int -> int, db: Db, id: int, session: string, conversation: string, model: string, ts: int, ms: int)
    requires Agrees(day, db.rows, db.agg)
    ensures var d := UpdateDuration(db, id, session, model, ts, ms); Agrees(day, d.rows, d.agg)
    ensures var t := UpdateTtft(db, id, session, model, ts, ms); Agrees(day, t.rows, t.agg)
    ensures var c := UpdateTurnTtft(db, conversation, model, ts, ms); Agrees(day, c.rows, c.agg)
  {
    hide Agrees, DurationRow, TtftRow, TurnRow, SetRequest;
    var d, t, c := DurationRow(db.rows, id, session, model, ts), TtftRow(db.rows, id, session, model, ts), TurnRow(db.rows, conversation, model, ts);
    if d >= 0 { RewriteKeepsAgreement(day, db, d, db.rows[d].row.req.(duration := ms)); }
    if t >= 0 { RewriteKeepsAgreement(day, db, t, db.rows[t].row.req.(ttft := ms)); }
    if c >= 0 { RewriteKeepsAgreement(day, db, c, db.rows[c].row.req.(ttft := ms)); }
  }

  lemma InsertedIsLast(day: int -> int, db: Db, q: Request)
    requires !IdTaken(db.rows, q.requestId)
    ensures var rows := InsertRequest(day, db, q).rows; |rows| == |db.rows| + 1 && rows[|db.rows|].row == Api(q)
  {
    hide Upsert, LiveKey, Contribution, IdTaken;
  }

  lemma CleanInsertAgrees(day: int -> int, db: Db, q: Request, span: int)
    requires Agrees(day, db.rows, db.agg)
    requires !StoresUnclean(db.rows, InsertWithSpan(day, db, q, span).rows)
    ensures var next := InsertWithSpan(day, db, q, span); Agrees(day, next.rows, next.agg)
  {
    hide GroupBy, InsertRequest, CleanService, IdTaken;
    var next := InsertWithSpan(day, db, q, span);
    if SpanApplies(db, q, span) {
      var mid, v := db.(rows := Process(db.rows, span)), q.(ttft := db.rows[span].row.span.ttft);
      ReplaceOtherKeepsGroupBy(day, db.rows, span, mid.rows[span]);
      ProcessKeepsIds(db.rows, span, q.requestId);
      InsertedIsLast(day, mid, v);
      assert !Unclean(next.rows[|db.rows|].row);
      InsertKeepsAgreement(day, mid, v);
    } else {
      if !IdTaken(db.rows, q.requestId) {
        InsertedIsLast(day, db, q);
        assert !Unclean(next.rows[|db.rows|].row);
      }
      InsertKeepsAgreement(day, db, q);
    }
  }

  lemma CleanBatchAgrees(day: int -> int, db: Db, b: Batch, source: string, at: int)
    requires Agrees(day, db.rows, db.agg) && !StoresUnclean(db.rows, RunBatch(day, db, b, source, at).rows)
    ensures var next := RunBatch(day, db, b, source, at); Agrees(day, next.rows, next.agg)
  {
    hide Agrees, FanOut, Note, CleanService, Land;
    var rs := FanOut(db.rows, b.cands);
    var next := RunBatch(day, db, b, source, at);
    LandAppends(day, db, rs);
    forall k | 0 <= k < |rs| && rs[k].Api? ensures CleanService(rs[k].req.service) {
      assert next.rows[|db.rows| + k].row == rs[k] && !Unclean(next.rows[|db.rows| + k].row);
    }
    LandKeepsAgreement(day, db, rs);
  }

  lemma PendingCompletionAgrees(day: int -> int, db: Db, u: Update)
    requires Agrees(day, db.rows, db.agg) && PendingFree(db.rows)
    ensures var next := Complete(day, db, u); Agrees(day, next.rows, next.agg)
  {
    hide Agrees, Decide, Complete;
    CompleteKeepsAgreement(day, db, u);
    if Decide(db.rows, u).Finalize? {
      assert FreeWhilePending(db.rows[Decide(db.rows, u).i].row.req);
    }
  }

  lemma CleanStepAgrees(day: int -> int, db: Db, s: Step)
    requires Agrees(day, db.rows, db.agg) && PendingFree(db.rows)
    requires !StoresUnclean(db.rows, Apply(day, db, s).rows)
    ensures var next := Apply(day, db, s); Agrees(day, next.rows, next.agg)
  {
    hide InsertRequest, InsertWithSpan, Complete, UpdateDuration, UpdateTtft, UpdateTurnTtft, RunBatch, StoresUnclean, PendingFree, CleanService, GroupBy;
    match s
    case LiveInsert(q, span) => CleanInsertAgrees(day, db, q, span);
    case CodexInsert(q) => CodexIsClean(); InsertKeepsAgreement(day, db, CodexRow(q));
    case Completed(u) => PendingCompletionAgrees(day, db, u);
    case Duration(id, session, model, ts, ms) => LatencyKeepsAgreement(day, db, id, session, "", model, ts, ms);
    case Ttft(id, session, model, ts, ms) => LatencyKeepsAgreement(day, db, id, session, "", model, ts, ms);
    case TurnTtft(conversation, model, ts, ms) => LatencyKeepsAgreement(day, db, 0, "", conversation, model, ts, ms);
    case ImportedBatch(b, source, at) => CleanBatchAgrees(day, db, b, source, at);
    case Rebuilt =>
    case Busy =>
  }

  /** One transaction of any writer keeps a right cache right if and only if it
      stores no request with a blank name. */
  lemma StepAgreesExactly(day: int -> int, db: Db, s: Step)
    requires Agrees(day, db.rows, db.agg) && PendingFree(db.rows)
    ensures var next := Apply(day, db, s); Agrees(day, next.rows, next.agg) <==> !StoresUnclean(db.rows, next.rows)
  {
    hide Agrees, PendingFree, Apply, StoresUnclean, NeverAhead, Behind;
    var next := Apply(day, db, s);
    if !StoresUnclean(db.rows, next.rows) {
      CleanStepAgrees(day, db, s);
    } else if s.Rebuilt? {
      RebuildStoresNothing(day, db);
    } else {
      RightMeansNotBehind(day, db);
      StaysBehind(day, db, s);
      if Agrees(day, next.rows, next.agg) {
        RightMeansNotBehind(day, next);
      }
    }
  }

  lemma RebuildStoresNothing(day: int -> int, db: Db)
    ensures !StoresUnclean(db.rows, Apply(day, db, Rebuilt).rows)
    ensures Agrees(day, Apply(day, db, Rebuilt).rows, Apply(day, db, Rebuilt).agg)
  {
  }

  // ---------- Pending rows stay free ----------

  lemma RewriteKeepsFree(rows: seq<Stored>, i: int, q: Request)
    requires PendingFree(rows) && 0 <= i < |rows| && FreeWhilePending(q)
    ensures PendingFree(rows[i := rows[i].(row := Api(q))])
  {
  }

  lemma InsertKeepsFree(day: int -> int, db: Db, q: Request)
    requires PendingFree(db.rows) && FreeWhilePending(q)
    ensures PendingFree(InsertRequest(day, db, q).rows)
  {
    hide Upsert, LiveKey, Contribution, IdTaken, FreeWhilePending, PendingFree;
    AppendKeepsPendingFree(db.rows, Stored(LastId(db.last, ApiRequests) + 1, Api(q)));
  }

  lemma InsertWithSpanKeepsFree(day: int -> int, db: Db, q: Request, span: int)
    requires PendingFree(db.rows) && FreeWhilePending(q)
    ensures PendingFree(InsertWithSpan(day, db, q, span).rows)
  {
    hide InsertRequest, IdTaken;
    if SpanApplies(db, q, span) {
      InsertKeepsFree(day, db.(rows := Process(db.rows, span)), q.(ttft := db.rows[span].row.span.ttft));
    } else {
      InsertKeepsFree(day, db, q);
    }
  }

  lemma CompleteKeepsFree(day: int -> int, db: Db, u: Update)
    requires PendingFree(db.rows) && (u.tok == NO_TOKENS ==> u.cost == 0)
    ensures PendingFree(Complete(day, db, u).rows)
  {
    hide PendingFree, InsertRequest, Upsert, Contribution, Decide;
    match Decide(db.rows, u)
    case Skip =>
    case Finalize(i) => RewriteKeepsFree(db.rows, i, Finalized(db.rows[i].row.req, u));
    case Orphan => InsertKeepsFree(day, db, OrphanRow(u));
  }

  lemma LatencyKeepsFree(db: Db, id: int, session: string, conversation: string, model: string, ts: int, ms: int)
    requires PendingFree(db.rows)
    ensures PendingFree(UpdateDuration(db, id, session, model, ts, ms).rows)
    ensures PendingFree(UpdateTtft(db, id, session, model, ts, ms).rows)
    ensures PendingFree(UpdateTurnTtft(db, conversation, model, ts, ms).rows)
  {
    hide DurationRow, TtftRow, TurnRow, PendingFree;
    var d, t, c := DurationRow(db.rows, id, session, model, ts), TtftRow(db.rows, id, session, model, ts), TurnRow(db.rows, conversation, model, ts);
    if d >= 0 { LatencyRewriteKeepsFree(db, d, db.rows[d].row.req.(duration := ms)); }
    if t >= 0 { LatencyRewriteKeepsFree(db, t, db.rows[t].row.req.(ttft := ms)); }
    if c >= 0 { LatencyRewriteKeepsFree(db, c, db.rows[c].row.req.(ttft := ms)); }
  }

  lemma LatencyRewriteKeepsFree(db: Db, i: int, q: Request)
    requires PendingFree(db.rows) && 0 <= i < |db.rows| && db.rows[i].row.Api?
    requires q == db.rows[i].row.req.(duration := q.duration, ttft := q.ttft)
    ensures PendingFree(SetRequest(db, i, q).rows)
  {
    assert FreeWhilePending(db.rows[i].row.req);
    RewriteKeepsFree(db.rows, i, q);
  }

  lemma {:induction false} LandKeepsFree(day: int -> int, db: Db, rs: seq<Row>)
    requires PendingFree(db.rows) && forall k :: 0 <= k < |rs| && rs[k].Api? ==> FreeWhilePending(rs[k].req)
    ensures PendingFree(Land(day, db, rs).rows)
  {
    hide PendingFree, FreeWhilePending, Upsert, LiveKey, Contribution;
    if rs != [] {
      var before, r := Land(day, db, rs[..|rs| - 1]), rs[|rs| - 1];
      LandKeepsFree(day, db, rs[..|rs| - 1]);
      AppendKeepsPendingFree(before.rows, Stored(LastId(before.last, TableOf(r)) + 1, r));
    }
  }

  lemma BatchKeepsFree(day: int -> int, db: Db, b: Batch, source: string, at: int)
    requires PendingFree(db.rows) && Fair(ImportedBatch(b, source, at))
    ensures PendingFree(RunBatch(day, db, b, source, at).rows)
  {
    hide PendingFree, FreeWhilePending, FanOut, Land, Note;
    var rs := FanOut(db.rows, b.cands);
    forall k | 0 <= k < |rs| && rs[k].Api? ensures FreeWhilePending(rs[k].req) {
      var j := FanOutComesFrom(db.rows, b.cands, k);
    }
    LandKeepsFree(day, db, rs);
  }

  lemma StepKeepsFree(day: int -> int, db: Db, s: Step)
    requires PendingFree(db.rows) && Fair(s)
    ensures PendingFree(Apply(day, db, s).rows)
  {
    hide InsertRequest, InsertWithSpan, Complete, UpdateDuration, UpdateTtft, UpdateTurnTtft, RunBatch, PendingFree;
    match s
    case LiveInsert(q, span) => InsertWithSpanKeepsFree(day, db, q, span);
    case CodexInsert(q) => InsertKeepsFree(day, db, CodexRow(q));
    case Completed(u) => CompleteKeepsFree(day, db, u);
    case Duration(id, session, model, ts, ms) => LatencyKeepsFree(db, id, session, "", model, ts, ms);
    case Ttft(id, session, model, ts, ms) => LatencyKeepsFree(db, id, session, "", model, ts, ms);
    case TurnTtft(conversation, model, ts, ms) => LatencyKeepsFree(db, 0, "", conversation, model, ts, ms);
    case ImportedBatch(b, source, at) => BatchKeepsFree(day, db, b, source, at);
    case _ =>
  }

  // ---------- Runs ----------

  /** A request with a blank name was stored and no rebuild came after it. */
  ghost predicate UncleanSinceRebuild(day: int -> int, db: Db, steps: seq<Step>) {
    if steps == [] then false
    else
      var n := |steps| - 1;
      var before := Run(day, db, steps[..n]);
      !steps[n].Rebuilt?
      && (UncleanSinceRebuild(day, db, steps[..n]) || StoresUnclean(before.rows, Apply(day, before, steps[n]).rows))
  }

  lemma {:induction false} RunStaysBehind(day: int -> int, db: Db, steps: seq<Step>)
    requires Agrees(day, db.rows, db.agg) && PendingFree(db.rows) && forall k :: 0 <= k < |steps| ==> Fair(steps[k])
    ensures var end := Run(day, db, steps);
      PendingFree(end.rows) && NeverAhead(day, end) && (UncleanSinceRebuild(day, db, steps) ==> Behind(day, end))
      && (!UncleanSinceRebuild(day, db, steps) ==> Agrees(day, end.rows, end.agg))
    decreases |steps|
  {
    hide Agrees, PendingFree, NeverAhead, Behind, Apply, StoresUnclean, Fair;
    if steps == [] {
      RightMeansNotBehind(day, db);
    } else {
      var n := |steps| - 1;
      var before := Run(day, db, steps[..n]);
      RunStaysBehind(day, db, steps[..n]);
      StepKeepsFree(day, before, steps[n]);
      if steps[n].Rebuilt? {
        RebuildStoresNothing(day, before);
        RightMeansNotBehind(day, Apply(day, before, steps[n]));
      } else {
        StaysBehind(day, before, steps[n]);
        if !UncleanSinceRebuild(day, db, steps) {
          CleanStepAgrees(day, before, steps[n]);
        }
      }
    }
  }

  /** Over a whole run of all writers the cache is right if and only if no request
      with a blank name was stored since the last rebuild: deviations add up and
      never cancel. */
  lemma CacheIsRightExactly(day: int -> int, db: Db, steps: seq<Step>)
    requires Agrees(day, db.rows, db.agg) && PendingFree(db.rows) && forall k :: 0 <= k < |steps| ==> Fair(steps[k])
    ensures var end := Run(day, db, steps); Agrees(day, end.rows, end.agg) <==> !UncleanSinceRebuild(day, db, steps)
  {
    hide Agrees, PendingFree, NeverAhead, Behind, Run, UncleanSinceRebuild, Fair;
    var end := Run(day, db, steps);
    RunStaysBehind(day, db, steps);
    if Agrees(day, end.rows, end.agg) {
      RightMeansNotBehind(day, end);
    }
  }
}
