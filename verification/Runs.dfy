/** Every run of every writer: the cache never drifts. */
module Runs {
  import opened Rows
  import opened Aggregate
  import opened Pool
  import opened Completion
  import opened Batches
  import opened Merge
  import opened MergeSoundness

  /** One committed transaction of one of the writers; Busy is one that rolled back. */
  datatype Step =
    | LiveInsert(q: Request, span: int)
    | CodexInsert(q: Request)
    | Completed(u: Update)
    | Duration(id: int, session: string, model: string, ts: int, ms: int)
    | Ttft(id: int, session: string, model: string, ts: int, ms: int)
    | TurnTtft(conversation: string, model: string, ts: int, ms: int)
    | ImportedBatch(b: Batch, source: string, at: int)
    | Rebuilt
    | Busy

  function Apply(day: int -> int, db: Db, s: Step): Db {
    match s
    case LiveInsert(q, span) => InsertWithSpan(day, db, q, span)
    case CodexInsert(q) => InsertRequest(day, db, CodexRow(q))
    case Completed(u) => Complete(day, db, u)
    case Duration(id, session, model, ts, ms) => UpdateDuration(db, id, session, model, ts, ms)
    case Ttft(id, session, model, ts, ms) => UpdateTtft(db, id, session, model, ts, ms)
    case TurnTtft(conversation, model, ts, ms) => UpdateTurnTtft(db, conversation, model, ts, ms)
    case ImportedBatch(b, source, at) => RunBatch(day, db, b, source, at)
    case Rebuilt => Rebuild(day, db)
    case Busy => db
  }

  function Run(day: int -> int, db: Db, steps: seq<Step>): Db {
    if steps == [] then db else Apply(day, Run(day, db, steps[..|steps| - 1]), steps[|steps| - 1])
  }

  /** What the receivers and the import sources hand to the writers: service
      names that are '' or not blank, and no charge without a token. */
  predicate Allowed(s: Step) {
    match s
    case LiveInsert(q, _) => CleanService(q.service) && FreeWhilePending(q)
    case CodexInsert(q) => q.tok == NO_TOKENS ==> q.cost == 0
    case Completed(u) => u.tok == NO_TOKENS ==> u.cost == 0
    case ImportedBatch(b, _, _) => AbsorbableBatch(b)
    case _ => true
  }

  lemma StepKeepsSound(day: int -> int, db: Db, s: Step)
    requires Sound(day, db) && Allowed(s)
    ensures Sound(day, Apply(day, db, s))
  {
    hide Sound, InsertRequest, Complete, UpdateDuration, UpdateTtft, UpdateTurnTtft, RunBatch;
    match s
    case LiveInsert(q, span) => InsertWithSpanKeepsSound(day, db, q, span);
    case CodexInsert(q) => CodexIsClean(); InsertKeepsSound(day, db, CodexRow(q));
    case Completed(u) => CompleteKeepsSound(day, db, u);
    case Duration(id, session, model, ts, ms) => LatencyKeepsSound(day, db, id, session, "", model, ts, ms);
    case Ttft(id, session, model, ts, ms) => LatencyKeepsSound(day, db, id, session, "", model, ts, ms);
    case TurnTtft(conversation, model, ts, ms) => LatencyKeepsSound(day, db, 0, "", conversation, model, ts, ms);
    case ImportedBatch(b, source, at) => BatchKeepsSound(day, db, b, source, at);
    case Rebuilt => RebuildKeepsSound(day, db);
    case Busy =>
  }

  lemma RebuildKeepsSound(day: int -> int, db: Db)
    requires Sound(day, db)
    ensures Sound(day, Rebuild(day, db))
  {
  }

  lemma {:induction false} RunKeepsSound(day: int -> int, db: Db, steps: seq<Step>)
    requires Sound(day, db) && forall k :: 0 <= k < |steps| ==> Allowed(steps[k])
    ensures Sound(day, Run(day, db, steps))
  {
    hide Sound, Apply, Allowed;
    if steps != [] {
      RunKeepsSound(day, db, steps[..|steps| - 1]);
      StepKeepsSound(day, Run(day, db, steps[..|steps| - 1]), steps[|steps| - 1]);
    }
  }

  /** After every committed step of every run, starting from the empty database,
      the pre-aggregate equals the GROUP BY of the rows, keys and all six sums,
      and non-empty request ids are unique. */
  lemma CacheNeverDrifts(day: int -> int, steps: seq<Step>, k: nat)
    requires k <= |steps| && forall j :: 0 <= j < |steps| ==> Allowed(steps[j])
    ensures var db := Run(day, Db([], map[], map[], map[]), steps[..k]);
      db.agg == GroupBy(day, db.rows) && UniqueRequestIds(db.rows)
  {
    hide Allowed;
    RunKeepsSound(day, Db([], map[], map[], map[]), steps[..k]);
  }

  /** A rebuild at any point of a run is therefore invisible. */
  lemma RebuildIsInvisible(day: int -> int, steps: seq<Step>)
    requires forall j :: 0 <= j < |steps| ==> Allowed(steps[j])
    ensures var db := Run(day, Db([], map[], map[], map[]), steps); Rebuild(day, db) == db
  {
    assert steps[..|steps|] == steps;
    CacheNeverDrifts(day, steps, |steps|);
  }

  // ---------- What no writer forgets ----------

  /** The columns of a stored row that no writer of the pool ever rewrites: the
      group of a request, all but the processed flag of a span, all of any other. */
  predicate SameRow(a: Stored, b: Stored) {
    a.id == b.id && TableOf(a.row) == TableOf(b.row) && RequestIdOf(a.row) == RequestIdOf(b.row)
    && (if a.row.Api? && b.row.Api? then GroupColumns(a.row.req) == GroupColumns(b.row.req)
        else if a.row.Pending? && b.row.Pending? then b.row == a.row.(processed := b.row.processed)
        else a == b)
  }

  function GroupColumns(q: Request): (int, string, string, string) {
    (q.ts, q.session, q.model, q.service)
  }

  predicate Remembers(before: seq<Stored>, after: seq<Stored>) {
    |before| <= |after| && forall i :: 0 <= i < |before| ==> SameRow(before[i], after[i])
  }

  lemma AppendRemembers(before: seq<Stored>, after: seq<Stored>)
    requires before <= after
    ensures Remembers(before, after)
  {
  }

  lemma RewriteRemembers(db: Db, i: int, q: Request)
    requires 0 <= i < |db.rows| && db.rows[i].row.Api?
    requires GroupColumns(q) == GroupColumns(db.rows[i].row.req) && q.requestId == db.rows[i].row.req.requestId
    ensures Remembers(db.rows, SetRequest(db, i, q).rows)
  {
  }

  lemma LiveInsertRemembers(day: int -> int, db: Db, q: Request, span: int)
    ensures Remembers(db.rows, InsertWithSpan(day, db, q, span).rows)
  {
    hide Upsert, LiveKey, Contribution, IdTaken, GroupColumns;
  }

  lemma LatencyRemembers(db: Db, id: int, session: string, conversation: string, model: string, ts: int, ms: int)
    ensures Remembers(db.rows, UpdateDuration(db, id, session, model, ts, ms).rows)
    ensures Remembers(db.rows, UpdateTtft(db, id, session, model, ts, ms).rows)
    ensures Remembers(db.rows, UpdateTurnTtft(db, conversation, model, ts, ms).rows)
  {
    hide Remembers, SetRequest, DurationRow, TtftRow, TurnRow;
    var d, t, c := DurationRow(db.rows, id, session, model, ts), TtftRow(db.rows, id, session, model, ts), TurnRow(db.rows, conversation, model, ts);
    AppendRemembers(db.rows, db.rows);
    if d >= 0 { RewriteRemembers(db, d, db.rows[d].row.req.(duration := ms)); }
    if t >= 0 { RewriteRemembers(db, t, db.rows[t].row.req.(ttft := ms)); }
    if c >= 0 { RewriteRemembers(db, c, db.rows[c].row.req.(ttft := ms)); }
  }

  lemma CompleteRemembers(day: int -> int, db: Db, u: Update)
    ensures Remembers(db.rows, Complete(day, db, u).rows)
  {
    hide Remembers, Upsert;
    match Decide(db.rows, u)
    case Skip => AppendRemembers(db.rows, db.rows);
    case Finalize(i) => RewriteRemembers(db, i, Finalized(db.rows[i].row.req, u));
    case Orphan => AppendRemembers(db.rows, InsertRequest(day, db, OrphanRow(u)).rows);
  }

  lemma StepRemembers(day: int -> int, db: Db, s: Step)
    ensures Remembers(db.rows, Apply(day, db, s).rows)
  {
    hide Remembers, RunBatch, Complete, UpdateDuration, UpdateTtft, UpdateTurnTtft, Upsert;
    match s
    case LiveInsert(q, span) => LiveInsertRemembers(day, db, q, span);
    case CodexInsert(q) => AppendRemembers(db.rows, InsertRequest(day, db, CodexRow(q)).rows);
    case Completed(u) => CompleteRemembers(day, db, u);
    case Duration(id, session, model, ts, ms) => LatencyRemembers(db, id, session, "", model, ts, ms);
    case Ttft(id, session, model, ts, ms) => LatencyRemembers(db, id, session, "", model, ts, ms);
    case TurnTtft(conversation, model, ts, ms) => LatencyRemembers(db, 0, "", conversation, model, ts, ms);
    case ImportedBatch(b, source, at) =>
      BatchAppends(day, db, b, source, at);
      AppendRemembers(db.rows, RunBatch(day, db, b, source, at).rows);
    case Rebuilt => AppendRemembers(db.rows, db.rows);
    case Busy => AppendRemembers(db.rows, db.rows);
  }

  /** No run deletes a row, moves it to another group or changes its request id. */
  lemma {:induction false} RunRemembers(day: int -> int, db: Db, steps: seq<Step>)
    ensures Remembers(db.rows, Run(day, db, steps).rows)
  {
    hide Apply;
    if steps != [] {
      RunRemembers(day, db, steps[..|steps| - 1]);
      StepRemembers(day, Run(day, db, steps[..|steps| - 1]), steps[|steps| - 1]);
    }
  }

  // ---------- What no live writer overwrites ----------

  /** The same request, but for its latency columns. */
  predicate SameCharge(a: Stored, b: Stored) {
    a.id == b.id && a.row.Api? && b.row.Api? && b.row.req == a.row.req.(duration := b.row.req.duration, ttft := b.row.req.ttft)
  }

  predicate HasTokens(s: Stored) {
    s.row.Api? && s.row.req.tok != NO_TOKENS
  }

  predicate KeepsCharged(before: seq<Stored>, after: seq<Stored>) {
    |before| <= |after| && forall i :: 0 <= i < |before| && HasTokens(before[i]) ==> SameCharge(before[i], after[i])
  }

  lemma AppendKeepsCharged(before: seq<Stored>, after: seq<Stored>)
    requires before <= after
    ensures KeepsCharged(before, after)
  {
  }

  lemma RewriteKeepsCharged(db: Db, i: int, q: Request)
    requires 0 <= i < |db.rows| && db.rows[i].row.Api?
    requires db.rows[i].row.req.tok == NO_TOKENS || q == db.rows[i].row.req.(duration := q.duration, ttft := q.ttft)
    ensures KeepsCharged(db.rows, SetRequest(db, i, q).rows)
  {
  }

  lemma LiveInsertKeepsCharged(day: int -> int, db: Db, q: Request, span: int)
    ensures KeepsCharged(db.rows, InsertWithSpan(day, db, q, span).rows)
  {
    hide Upsert, LiveKey, Contribution, IdTaken;
  }

  lemma LatencyKeepsCharged(db: Db, id: int, session: string, conversation: string, model: string, ts: int, ms: int)
    ensures KeepsCharged(db.rows, UpdateDuration(db, id, session, model, ts, ms).rows)
    ensures KeepsCharged(db.rows, UpdateTtft(db, id, session, model, ts, ms).rows)
    ensures KeepsCharged(db.rows, UpdateTurnTtft(db, conversation, model, ts, ms).rows)
  {
    hide KeepsCharged, SetRequest;
    var d, t, c := DurationRow(db.rows, id, session, model, ts), TtftRow(db.rows, id, session, model, ts), TurnRow(db.rows, conversation, model, ts);
    AppendKeepsCharged(db.rows, db.rows);
    if d >= 0 { RewriteKeepsCharged(db, d, db.rows[d].row.req.(duration := ms)); }
    if t >= 0 { RewriteKeepsCharged(db, t, db.rows[t].row.req.(ttft := ms)); }
    if c >= 0 { RewriteKeepsCharged(db, c, db.rows[c].row.req.(ttft := ms)); }
  }

  lemma StepKeepsCharged(day: int -> int, db: Db, s: Step)
    ensures KeepsCharged(db.rows, Apply(day, db, s).rows)
  {
    hide KeepsCharged, RunBatch, UpdateDuration, UpdateTtft, UpdateTurnTtft, Upsert;
    match s
    case LiveInsert(q, span) => LiveInsertKeepsCharged(day, db, q, span);
    case CodexInsert(q) => AppendKeepsCharged(db.rows, InsertRequest(day, db, CodexRow(q)).rows);
    case Completed(u) => CompleteKeepsCharged(day, db, u);
    case Duration(id, session, model, ts, ms) => LatencyKeepsCharged(db, id, session, "", model, ts, ms);
    case Ttft(id, session, model, ts, ms) => LatencyKeepsCharged(db, id, session, "", model, ts, ms);
    case TurnTtft(conversation, model, ts, ms) => LatencyKeepsCharged(db, 0, "", conversation, model, ts, ms);
    case ImportedBatch(b, source, at) =>
      BatchAppends(day, db, b, source, at);
      AppendKeepsCharged(db.rows, RunBatch(day, db, b, source, at).rows);
    case Rebuilt => AppendKeepsCharged(db.rows, db.rows);
    case Busy => AppendKeepsCharged(db.rows, db.rows);
  }

  lemma CompleteKeepsCharged(day: int -> int, db: Db, u: Update)
    ensures KeepsCharged(db.rows, Complete(day, db, u).rows)
  {
    hide KeepsCharged, Upsert;
    match Decide(db.rows, u)
    case Skip => AppendKeepsCharged(db.rows, db.rows);
    case Finalize(i) => RewriteKeepsCharged(db, i, Finalized(db.rows[i].row.req, u));
    case Orphan => AppendKeepsCharged(db.rows, InsertRequest(day, db, OrphanRow(u)).rows);
  }

  /** Once a request has tokens, no live writer changes it but for latencies. */
  lemma {:induction false} RunKeepsCharged(day: int -> int, db: Db, steps: seq<Step>)
    ensures KeepsCharged(db.rows, Run(day, db, steps).rows)
  {
    hide Apply;
    if steps != [] {
      RunKeepsCharged(day, db, steps[..|steps| - 1]);
      StepKeepsCharged(day, Run(day, db, steps[..|steps| - 1]), steps[|steps| - 1]);
    }
  }
}
