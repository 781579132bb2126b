/** What the live writers can take away from the importer: a record is contained
    while the target holds enough rows under its identity, and two writers rewrite
    columns of the fallback tuple. */
module Containment {
  import opened Rows
  import opened Aggregate
  import opened Pool
  import opened Completion
  import opened Batches
  import opened Merge
  import opened MergeSoundness
  import opened Runs

  /** The identities a rewrite in place can take away from a row: the tokens and
      the duration of a request are part of its fallback tuple. */
  predicate Rewritable(i: Identity) {
    i.ByTuple? && i.table == ApiRequests
  }

  lemma {:induction false} CountOfReplace(rows: seq<Stored>, k: int, s: Stored, i: Identity)
    requires 0 <= k < |rows|
    ensures Count(rows[k := s], i) + Hit(rows[k].row, i) == Count(rows, i) + Hit(s.row, i)
  {
    hide Hit;
    var n := |rows| - 1;
    if k == n {
      assert rows[k := s][..n] == rows[..n];
    } else {
      assert rows[k := s][..n] == rows[..n][k := s];
      CountOfReplace(rows[..n], k, s, i);
    }
  }

  // ---------- One transaction ----------

  /** The finalized row keeps its fallback tuple. */
  predicate KeepsTuple(q: Request, u: Update) {
    u.tok.input == q.tok.input && u.tok.output == q.tok.output && (u.duration > 0 ==> u.duration == q.duration)
  }

  lemma FinalizedMatches(q: Request, u: Update, i: Identity)
    ensures Matches(Api(q), i) && !Matches(Api(Finalized(q, u)), i) <==> Matches(Api(q), i) && Rewritable(i) && !KeepsTuple(q, u)
  {
    if Matches(Api(q), i) && Rewritable(i) && Matches(Api(Finalized(q, u)), i) {
      var t, f := TupleOf(Api(q)), TupleOf(Api(Finalized(q, u)));
      assert t[5] == f[5] && t[6] == f[6] && t[7] == f[7];
    }
  }

  /** A completion loses a record exactly when it finalizes a row of it, changes
      that row's tuple, and no row was to spare. */
  lemma CompletionLosesExactly(day: int -> int, db: Db, u: Update, c: Candidate)
    requires Contained(db.rows, c)
    ensures var i := IdentityOf(c.row); var d := Decide(db.rows, u);
      !Contained(Complete(day, db, u).rows, c) <==>
        d.Finalize? && Rewritable(i) && Matches(db.rows[d.i].row, i) && !KeepsTuple(db.rows[d.i].row.req, u) && Count(db.rows, i) == Need(c)
  {
    hide IdentityOf, Need, Matches, Upsert, Contribution, IdTaken, Rewritable, KeepsTuple, Finalized;
    var i := IdentityOf(c.row);
    match Decide(db.rows, u)
    case Skip =>
    case Finalize(k) =>
      var q := db.rows[k].row.req;
      CountOfReplace(db.rows, k, db.rows[k].(row := Api(Finalized(q, u))), i);
      FinalizedMatches(q, u, i);
    case Orphan => ContainedStays(db.rows, InsertRequest(day, db, OrphanRow(u)).rows, c);
  }

  /** A duration loses a record exactly when it is written to a row of it, and no
      row was to spare: the row need not wait for anything else. */
  lemma DurationLosesExactly(db: Db, id: int, session: string, model: string, ts: int, ms: int, c: Candidate)
    requires Contained(db.rows, c)
    ensures var i := IdentityOf(c.row); var r := DurationRow(db.rows, id, session, model, ts);
      !Contained(UpdateDuration(db, id, session, model, ts, ms).rows, c) <==>
        && session != "" && model != "" && ms > 0 && r >= 0 && db.rows[r].row.req.duration == 0
        && Rewritable(i) && Matches(db.rows[r].row, i) && Count(db.rows, i) == Need(c)
  {
    hide IdentityOf, Need, DurationRow, Matches;
    var i, r := IdentityOf(c.row), DurationRow(db.rows, id, session, model, ts);
    if session != "" && model != "" && ms > 0 && r >= 0 && db.rows[r].row.req.duration == 0 {
      var q := db.rows[r].row.req;
      CountOfReplace(db.rows, r, db.rows[r].(row := Api(q.(duration := ms))), i);
      DurationMatches(q, ms, i);
    }
  }

  lemma DurationMatches(q: Request, ms: int, i: Identity)
    requires q.duration == 0 && ms > 0
    ensures Matches(Api(q), i) ==> (Matches(Api(q.(duration := ms)), i) <==> !Rewritable(i))
  {
    if Matches(Api(q), i) && Rewritable(i) {
      assert TupleOf(Api(q))[7] == Number(0) && TupleOf(Api(q.(duration := ms)))[7] == Number(ms);
    }
  }

  /** Every other transaction leaves a contained record contained. */
  lemma OthersLoseNothing(day: int -> int, db: Db, s: Step, c: Candidate)
    requires Contained(db.rows, c) && !s.Completed? && !s.Duration?
    ensures Contained(Apply(day, db, s).rows, c)
  {
    hide Need;
    var i, next := IdentityOf(c.row), Apply(day, db, s).rows;
    StepKeepsTuples(day, db, s);
    TuplesCount(db.rows, next, i);
  }

  predicate KeepsTuples(before: seq<Stored>, after: seq<Stored>) {
    |before| <= |after| && forall k :: 0 <= k < |before| ==> SameTuple(before[k].row, after[k].row)
  }

  predicate SameTuple(a: Row, b: Row) {
    TableOf(a) == TableOf(b) && RequestIdOf(a) == RequestIdOf(b) && TupleOf(a) == TupleOf(b)
  }

  lemma AppendKeepsTuples(before: seq<Stored>, after: seq<Stored>)
    requires before <= after
    ensures KeepsTuples(before, after)
  {
  }

  lemma StepKeepsTuples(day: int -> int, db: Db, s: Step)
    requires !s.Completed? && !s.Duration?
    ensures KeepsTuples(db.rows, Apply(day, db, s).rows)
  {
    hide KeepsTuples, RunBatch, UpdateTtft, UpdateTurnTtft, Upsert;
    match s
    case LiveInsert(q, span) => LiveInsertKeepsTuples(day, db, q, span);
    case CodexInsert(q) => AppendKeepsTuples(db.rows, InsertRequest(day, db, CodexRow(q)).rows);
    case Ttft(id, session, model, ts, ms) => TtftKeepsTuples(db, id, session, "", model, ts, ms);
    case TurnTtft(conversation, model, ts, ms) => TtftKeepsTuples(db, 0, "", conversation, model, ts, ms);
    case ImportedBatch(b, source, at) =>
      BatchAppends(day, db, b, source, at);
      AppendKeepsTuples(db.rows, RunBatch(day, db, b, source, at).rows);
    case _ => AppendKeepsTuples(db.rows, db.rows);
  }

  lemma LiveInsertKeepsTuples(day: int -> int, db: Db, q: Request, span: int)
    ensures KeepsTuples(db.rows, InsertWithSpan(day, db, q, span).rows)
  {
    hide Upsert, LiveKey, Contribution, IdTaken;
  }

  lemma RewriteKeepsTuples(db: Db, k: int, q: Request)
    requires 0 <= k < |db.rows| && db.rows[k].row.Api? && q == db.rows[k].row.req.(ttft := q.ttft)
    ensures KeepsTuples(db.rows, SetRequest(db, k, q).rows)
  {
  }

  lemma TtftKeepsTuples(db: Db, id: int, session: string, conversation: string, model: string, ts: int, ms: int)
    ensures KeepsTuples(db.rows, UpdateTtft(db, id, session, model, ts, ms).rows)
    ensures KeepsTuples(db.rows, UpdateTurnTtft(db, conversation, model, ts, ms).rows)
  {
    hide KeepsTuples, SetRequest, TtftRow, TurnRow;
    var t, c := TtftRow(db.rows, id, session, model, ts), TurnRow(db.rows, conversation, model, ts);
    AppendKeepsTuples(db.rows, db.rows);
    if t >= 0 { RewriteKeepsTuples(db, t, db.rows[t].row.req.(ttft := ms)); }
    if c >= 0 { RewriteKeepsTuples(db, c, db.rows[c].row.req.(ttft := ms)); }
  }

  lemma {:induction false} TuplesCount(before: seq<Stored>, after: seq<Stored>, i: Identity)
    requires KeepsTuples(before, after)
    ensures Count(before, i) <= Count(after, i)
    decreases |before|
  {
    hide Hit, SameTuple;
    if before != [] {
      var n := |before| - 1;
      TuplesCount(before[..n], after[..n], i);
      assert Hit(before[n].row, i) == Hit(after[n].row, i) by {
        SameTupleHits(before[n].row, after[n].row, i);
      }
      assert after[..n + 1][..n] == after[..n];
      CountGrows(after[..n + 1], after, i);
    }
  }

  lemma SameTupleHits(a: Row, b: Row, i: Identity)
    requires SameTuple(a, b)
    ensures Hit(a, i) == Hit(b, i)
  {
  }

  // ---------- Runs ----------

  /** No writer ever takes this row from its identity: a completion finalizes only
      Codex rows without tokens, a duration is written once and needs a session
      and a model. */
  predicate Immovable(q: Request) {
    q.service != CODEX_SERVICE || (q.tok != NO_TOKENS && (q.duration != 0 || q.session == "" || q.model == ""))
  }

  predicate Holds(s: Stored, i: Identity) {
    Matches(s.row, i) && (Rewritable(i) && s.row.Api? ==> Immovable(s.row.req))
  }

  /** The rows of an identity that no writer can take from it. */
  function FixedCount(rows: seq<Stored>, i: Identity): nat {
    if rows == [] then 0 else FixedCount(rows[..|rows| - 1], i) + if Holds(rows[|rows| - 1], i) then 1 else 0
  }

  predicate KeepsFixed(before: seq<Stored>, after: seq<Stored>, i: Identity) {
    |before| <= |after| && forall k :: 0 <= k < |before| && Holds(before[k], i) ==> Holds(after[k], i)
  }

  lemma {:induction false} FixedGrows(before: seq<Stored>, after: seq<Stored>, i: Identity)
    requires KeepsFixed(before, after, i)
    ensures FixedCount(before, i) <= FixedCount(after, i)
    decreases |after|
  {
    hide Holds;
    if after != [] {
      var m := |after| - 1;
      if |before| == |after| {
        FixedGrows(before[..m], after[..m], i);
      } else {
        FixedGrows(before, after[..m], i);
      }
    }
  }

  lemma {:induction false} FixedIsCounted(rows: seq<Stored>, i: Identity)
    ensures FixedCount(rows, i) <= Count(rows, i)
  {
    hide Holds, Hit;
    if rows != [] {
      var n := |rows| - 1;
      FixedIsCounted(rows[..n], i);
      HoldsHits(rows[n], i);
    }
  }

  lemma HoldsHits(s: Stored, i: Identity)
    ensures Holds(s, i) ==> Hit(s.row, i) == 1
  {
  }

  lemma RewriteKeepsFixed(db: Db, k: int, q: Request, i: Identity)
    requires 0 <= k < |db.rows| && db.rows[k].row.Api?
    requires q.requestId == db.rows[k].row.req.requestId
    requires !Immovable(db.rows[k].row.req) || (q == db.rows[k].row.req.(ttft := q.ttft))
    ensures KeepsFixed(db.rows, SetRequest(db, k, q).rows, i)
  {
  }

  lemma CompleteKeepsFixed(day: int -> int, db: Db, u: Update, i: Identity)
    ensures KeepsFixed(db.rows, Complete(day, db, u).rows, i)
  {
    hide KeepsFixed, Upsert;
    match Decide(db.rows, u)
    case Skip => SameIsFixed(db.rows, db.rows, i);
    case Finalize(k) => RewriteKeepsFixed(db, k, Finalized(db.rows[k].row.req, u), i);
    case Orphan => SameIsFixed(db.rows, InsertRequest(day, db, OrphanRow(u)).rows, i);
  }

  lemma SameIsFixed(before: seq<Stored>, after: seq<Stored>, i: Identity)
    requires before <= after
    ensures KeepsFixed(before, after, i)
  {
  }

  lemma DurationKeepsFixed(db: Db, id: int, session: string, model: string, ts: int, ms: int, i: Identity)
    ensures KeepsFixed(db.rows, UpdateDuration(db, id, session, model, ts, ms).rows, i)
  {
    hide KeepsFixed, SetRequest, DurationRow, Matches;
    var d := DurationRow(db.rows, id, session, model, ts);
    SameIsFixed(db.rows, db.rows, i);
    if d >= 0 && session != "" && model != "" && db.rows[d].row.req.duration == 0 {
      RewriteKeepsFixed(db, d, db.rows[d].row.req.(duration := ms), i);
    }
  }

  lemma TtftKeepsFixed(db: Db, id: int, session: string, conversation: string, model: string, ts: int, ms: int, i: Identity)
    ensures KeepsFixed(db.rows, UpdateTtft(db, id, session, model, ts, ms).rows, i)
    ensures KeepsFixed(db.rows, UpdateTurnTtft(db, conversation, model, ts, ms).rows, i)
  {
    hide KeepsFixed, SetRequest, TtftRow, TurnRow, Immovable;
    var t, c := TtftRow(db.rows, id, session, model, ts), TurnRow(db.rows, conversation, model, ts);
    SameIsFixed(db.rows, db.rows, i);
    if t >= 0 { RewriteKeepsFixed(db, t, db.rows[t].row.req.(ttft := ms), i); }
    if c >= 0 { RewriteKeepsFixed(db, c, db.rows[c].row.req.(ttft := ms), i); }
  }

  lemma LiveInsertKeepsFixed(day: int -> int, db: Db, q: Request, span: int, i: Identity)
    ensures KeepsFixed(db.rows, InsertWithSpan(day, db, q, span).rows, i)
  {
    hide Upsert, LiveKey, Contribution, IdTaken;
  }

  lemma StepKeepsFixed(day: int -> int, db: Db, s: Step, i: Identity)
    ensures KeepsFixed(db.rows, Apply(day, db, s).rows, i)
  {
    hide KeepsFixed, RunBatch, Complete, UpdateDuration, UpdateTtft, UpdateTurnTtft, Upsert;
    match s
    case LiveInsert(q, span) => LiveInsertKeepsFixed(day, db, q, span, i);
    case CodexInsert(q) => SameIsFixed(db.rows, InsertRequest(day, db, CodexRow(q)).rows, i);
    case Completed(u) => CompleteKeepsFixed(day, db, u, i);
    case Duration(id, session, model, ts, ms) => DurationKeepsFixed(db, id, session, model, ts, ms, i);
    case Ttft(id, session, model, ts, ms) => TtftKeepsFixed(db, id, session, "", model, ts, ms, i);
    case TurnTtft(conversation, model, ts, ms) => TtftKeepsFixed(db, 0, "", conversation, model, ts, ms, i);
    case ImportedBatch(b, source, at) =>
      BatchAppends(day, db, b, source, at);
      SameIsFixed(db.rows, RunBatch(day, db, b, source, at).rows, i);
    case Rebuilt => SameIsFixed(db.rows, db.rows, i);
    case Busy => SameIsFixed(db.rows, db.rows, i);
  }

  lemma {:induction false} RunKeepsFixed(day: int -> int, db: Db, steps: seq<Step>, i: Identity)
    ensures FixedCount(db.rows, i) <= FixedCount(Run(day, db, steps).rows, i)
  {
    hide Apply, FixedCount, KeepsFixed;
    if steps != [] {
      var before := Run(day, db, steps[..|steps| - 1]);
      RunKeepsFixed(day, db, steps[..|steps| - 1], i);
      StepKeepsFixed(day, before, steps[|steps| - 1], i);
      FixedGrows(before.rows, Apply(day, before, steps[|steps| - 1]).rows, i);
    }
  }

  // ---------- The run that loses a record ----------

  /** A row of the identity that some writer can take from it, and that writer. */
  predicate Movable(s: Stored, i: Identity) {
    Matches(s.row, i) && !Holds(s, i)
  }

  function Mover(s: Stored): Step
    requires s.row.Api?
  {
    var q := s.row.req;
    if q.tok == NO_TOKENS then Completed(Update(s.id, q.session, q.model, q.ts, NO_TOKENS.(input := 1), 0, 0, 0))
    else Duration(s.id, q.session, q.model, q.ts, 1)
  }

  function Moved(s: Stored): Stored
    requires s.row.Api?
  {
    var q := s.row.req;
    s.(row := Api(if q.tok == NO_TOKENS then q.(tok := NO_TOKENS.(input := 1), cost := 0) else q.(duration := 1)))
  }

  lemma MovedLeaves(s: Stored, i: Identity)
    requires Movable(s, i)
    ensures s.row.Api? && !Matches(Moved(s).row, i)
  {
    var t, m := TupleOf(s.row), TupleOf(Moved(s).row);
    assert t[5] != m[5] || t[7] != m[7];
  }

  lemma MoverMoves(day: int -> int, db: Db, k: int, i: Identity)
    requires IdsAscend(db.rows, db.last) && 0 <= k < |db.rows| && Movable(db.rows[k], i)
    ensures db.rows[k].row.Api? && Allowed(Mover(db.rows[k]))
    ensures var next := Apply(day, db, Mover(db.rows[k])); next.rows == db.rows[k := Moved(db.rows[k])] && next.last == db.last
  {
    var s := db.rows[k];
    var q := s.row.req;
    if q.tok == NO_TOKENS {
      var u := Update(s.id, q.session, q.model, q.ts, NO_TOKENS.(input := 1), 0, 0, 0);
      hide Upsert, Contribution, OrphanRow, IdsAscend, Decide;
      OwnRowIsDecided(db, k, u);
      assert Finalized(q, u) == q.(tok := u.tok, cost := 0);
    } else {
      hide Newest;
      DurationFindsExact(db, k);
    }
  }

  lemma DurationFindsExact(db: Db, k: int)
    requires IdsAscend(db.rows, db.last) && 0 <= k < |db.rows| && db.rows[k].row.Api? && db.rows[k].row.req.service == CODEX_SERVICE
    ensures var q := db.rows[k].row.req; DurationRow(db.rows, db.rows[k].id, q.session, q.model, q.ts) == k
  {
    var q, id := db.rows[k].row.req, db.rows[k].id;
    assert IsExact(db.rows[k], id, q.session, q.model);
    var exact := Newest(db.rows, s => IsExact(s, id, q.session, q.model));
    assert exact >= k;
  }

  lemma {:induction false} FixedOfReplace(rows: seq<Stored>, k: int, s: Stored, i: Identity)
    requires 0 <= k < |rows| && !Holds(rows[k], i) && !Holds(s, i)
    ensures FixedCount(rows[k := s], i) == FixedCount(rows, i)
  {
    hide Holds;
    var n := |rows| - 1;
    if k == n {
      assert rows[k := s][..n] == rows[..n];
    } else {
      assert rows[k := s][..n] == rows[..n][k := s];
      FixedOfReplace(rows[..n], k, s, i);
    }
  }

  lemma {:induction false} SomeMovable(rows: seq<Stored>, i: Identity) returns (k: int)
    requires FixedCount(rows, i) < Count(rows, i)
    ensures 0 <= k < |rows| && Movable(rows[k], i)
  {
    hide Holds, Matches;
    var n := |rows| - 1;
    HoldsHits(rows[n], i);
    if Movable(rows[n], i) {
      k := n;
    } else {
      k := SomeMovable(rows[..n], i);
    }
  }

  lemma {:induction false} RunFirst(day: int -> int, db: Db, s: Step, rest: seq<Step>)
    ensures Run(day, db, [s] + rest) == Run(day, Apply(day, db, s), rest)
    decreases |rest|
  {
    hide Apply;
    if rest == [] {
      assert [s] + rest == [s] && [s][..0] == [];
    } else {
      var n := |rest| - 1;
      assert ([s] + rest)[..n + 1] == [s] + rest[..n];
      RunFirst(day, db, s, rest[..n]);
    }
  }

  predicate AllAllowed(steps: seq<Step>) {
    forall k :: 0 <= k < |steps| ==> Allowed(steps[k])
  }

  /** Moving away every movable row, one allowed transaction each. */
  lemma {:induction false} LosingRun(day: int -> int, db: Db, i: Identity) returns (steps: seq<Step>)
    requires IdsAscend(db.rows, db.last)
    ensures AllAllowed(steps) && Count(Run(day, db, steps).rows, i) == FixedCount(db.rows, i)
    decreases Count(db.rows, i)
  {
    hide Apply, Allowed, Mover, Moved, Movable, Holds, Matches;
    FixedIsCounted(db.rows, i);
    if FixedCount(db.rows, i) == Count(db.rows, i) {
      steps := [];
    } else {
      var k := SomeMovable(db.rows, i);
      MovedLeaves(db.rows[k], i);
      MoverMoves(day, db, k, i);
      var s, next := Mover(db.rows[k]), Apply(day, db, Mover(db.rows[k]));
      MoveCounts(db.rows, k, i);
      MoveKeepsAscent(db, k);
      var rest := LosingRun(day, next, i);
      RunFirst(day, db, s, rest);
      steps := [s] + rest;
    }
  }

  lemma MoveCounts(rows: seq<Stored>, k: int, i: Identity)
    requires 0 <= k < |rows| && Movable(rows[k], i) && rows[k].row.Api? && !Matches(Moved(rows[k]).row, i)
    ensures Count(rows[k := Moved(rows[k])], i) == Count(rows, i) - 1
    ensures FixedCount(rows[k := Moved(rows[k])], i) == FixedCount(rows, i)
  {
    hide Moved, Count, FixedCount;
    CountOfReplace(rows, k, Moved(rows[k]), i);
    FixedOfReplace(rows, k, Moved(rows[k]), i);
  }

  lemma MoveKeepsAscent(db: Db, k: int)
    requires IdsAscend(db.rows, db.last) && 0 <= k < |db.rows| && db.rows[k].row.Api?
    ensures IdsAscend(db.rows[k := Moved(db.rows[k])], db.last)
  {
  }

  /** A record stays contained beside the live writers, whatever they do, exactly
      when enough of its rows are immovable; otherwise some run of ordinary
      transactions loses it. For a record with a request id, or of another table,
      every row is. */
  lemma StaysContainedExactly(day: int -> int, db: Db, c: Candidate)
    requires IdsAscend(db.rows, db.last)
    ensures (forall steps :: AllAllowed(steps) ==> Contained(Run(day, db, steps).rows, c))
       <==> FixedCount(db.rows, IdentityOf(c.row)) >= Need(c)
  {
    hide IdentityOf, Need, Run, AllAllowed, IdsAscend, Count, FixedCount;
    var i := IdentityOf(c.row);
    if FixedCount(db.rows, i) >= Need(c) {
      forall steps | AllAllowed(steps) ensures Contained(Run(day, db, steps).rows, c) {
        FixedStaysContained(day, db, steps, c);
      }
    } else {
      var steps := LosingRun(day, db, i);
      assert AllAllowed(steps) && !Contained(Run(day, db, steps).rows, c);
    }
  }

  /** The first half, for every run. */
  lemma FixedStaysContained(day: int -> int, db: Db, steps: seq<Step>, c: Candidate)
    requires FixedCount(db.rows, IdentityOf(c.row)) >= Need(c)
    ensures Contained(Run(day, db, steps).rows, c)
  {
    hide IdentityOf, Need, Run, Count, FixedCount;
    RunKeepsFixed(day, db, steps, IdentityOf(c.row));
    FixedIsCounted(Run(day, db, steps).rows, IdentityOf(c.row));
  }

  /** Records whose identity no writer rewrites. */
  lemma {:induction false} OthersAreFixed(rows: seq<Stored>, i: Identity)
    requires !Rewritable(i)
    ensures FixedCount(rows, i) == Count(rows, i)
  {
    if rows != [] {
      OthersAreFixed(rows[..|rows| - 1], i);
    }
  }

  /** So a record with a request id, or of any other table, never is lost. */
  lemma ContainedBesideLiveWriters(day: int -> int, db: Db, steps: seq<Step>, c: Candidate)
    requires Contained(db.rows, c) && !Rewritable(IdentityOf(c.row))
    ensures Contained(Run(day, db, steps).rows, c)
  {
    hide Run;
    OthersAreFixed(db.rows, IdentityOf(c.row));
    FixedStaysContained(day, db, steps, c);
  }

  // ---------- Two ordinary runs that lose a record ----------

  const EMPTY := Db([], map[], map[], map[])

  function OnlyRow(q: Request): Batch {
    Batch(ApiRequests, [Candidate(Api(q), 1)], 1, 0)
  }

  lemma ImportOnly(day: int -> int, db: Db, q: Request, source: string, at: int)
    requires Count(db.rows, IdentityOf(Api(q))) == 0
    ensures RunBatch(day, db, OnlyRow(q), source, at).rows == Append(db, Api(q)).rows
    ensures RunBatch(day, db, OnlyRow(q), source, at).last == Append(db, Api(q)).last
  {
    hide IdentityOf, Count, Note, Upsert, LiveKey, Contribution;
    var c := Candidate(Api(q), 1);
    assert [c][..0] == [] && Copies(Api(q), 1) == [Api(q)] && [Api(q)][..0] == [];
    assert FanOut(db.rows, [c]) == [Api(q)];
    assert Land(day, db, [Api(q)]) == LandOne(day, db, Api(q));
  }

  lemma CountOfOne(s: Stored, i: Identity)
    ensures Count([s], i) == Hit(s.row, i)
  {
    assert [s][..0] == [];
  }

  /** A record is imported, one writer touches its row, and the same record is
      imported again: the pool then holds two rows for it. */
  predicate ImportsTwice(day: int -> int, q: Request, s: Step, source: string, at: int) {
    var first, again := ImportedBatch(OnlyRow(q), source, at), ImportedBatch(OnlyRow(q), source, at);
    AllAllowed([first, s, again]) && |Run(day, EMPTY, [first]).rows| == 1 && |Run(day, EMPTY, [first, s, again]).rows| == 2
  }

  lemma TouchedIsImportedTwice(day: int -> int, q: Request, s: Step, source: string, at: int)
    requires q.requestId == "" && CleanService(q.service) && FreeWhilePending(q) && Allowed(s)
    requires var landed := RunBatch(day, EMPTY, OnlyRow(q), source, at);
      var touched := Apply(day, landed, s).rows;
      |touched| == 1 && Hit(touched[0].row, IdentityOf(Api(q))) == 0
    ensures ImportsTwice(day, q, s, source, at)
  {
    hide IdentityOf, Hit, Apply, RunBatch, CleanService, FreeWhilePending;
    var first := ImportedBatch(OnlyRow(q), source, at);
    var landed := RunBatch(day, EMPTY, OnlyRow(q), source, at);
    assert Apply(day, EMPTY, first) == landed by { ApplyImport(day, EMPTY, OnlyRow(q), source, at); }
    ImportOnly(day, EMPTY, q, source, at);
    assert [first][..0] == [] && [first, s][..1] == [first] && [first, s, first][..2] == [first, s];
    assert Run(day, EMPTY, [first]) == landed;
    var touched := Apply(day, landed, s);
    assert Run(day, EMPTY, [first, s]) == touched;
    assert touched.rows == [touched.rows[0]];
    CountOfOne(touched.rows[0], IdentityOf(Api(q)));
    ImportOnly(day, touched, q, source, at);
    assert Apply(day, touched, first) == RunBatch(day, touched, OnlyRow(q), source, at) by { ApplyImport(day, touched, OnlyRow(q), source, at); }
    assert Allowed(first) by { OnlyRowIsAbsorbable(q); }
  }

  lemma ApplyImport(day: int -> int, db: Db, b: Batch, source: string, at: int)
    ensures Apply(day, db, ImportedBatch(b, source, at)) == RunBatch(day, db, b, source, at)
  {
  }

  lemma OnlyRowIsAbsorbable(q: Request)
    requires CleanService(q.service) && FreeWhilePending(q)
    ensures AbsorbableBatch(OnlyRow(q))
  {
  }

  /** A waiting Codex request and its completion. */
  lemma CompletionCanLoseARecord(day: int -> int, q: Request, tok: Tokens, source: string, at: int)
    requires q.service == CODEX_SERVICE && q.requestId == "" && q.tok == NO_TOKENS && q.cost == 0 && (tok.input != 0 || tok.output != 0)
    ensures ImportsTwice(day, q, Completed(Update(0, q.session, q.model, q.ts, tok, 0, 0, 0)), source, at)
  {
    hide RunBatch, Matches, IdentityOf, Upsert, ImportsTwice, CleanService, Contribution;
    var u := Update(0, q.session, q.model, q.ts, tok, 0, 0, 0);
    var landed := RunBatch(day, EMPTY, OnlyRow(q), source, at);
    NothingCounted(IdentityOf(Api(q)));
    ImportOnly(day, EMPTY, q, source, at);
    assert landed.rows == [Stored(1, Api(q))];
    assert IsPending(landed.rows[0], u) && PendingRow(landed.rows, u) == 0;
    assert Complete(day, landed, u).rows == [Stored(1, Api(Finalized(q, u)))];
    OwnIdentity(q);
    FinalizedMatches(q, u, IdentityOf(Api(q)));
    CodexIsClean();
    TouchedIsImportedTwice(day, q, Completed(u), source, at);
  }

  lemma NothingCounted(i: Identity)
    ensures Count([], i) == 0
  {
  }

  lemma OwnIdentity(q: Request)
    requires q.requestId == ""
    ensures Rewritable(IdentityOf(Api(q))) && Matches(Api(q), IdentityOf(Api(q)))
  {
  }

  /** A Codex request that has its tokens, and the websocket event that reports
      how long it took. */
  lemma DurationCanLoseARecord(day: int -> int, q: Request, ms: int, source: string, at: int)
    requires q.service == CODEX_SERVICE && q.requestId == "" && q.tok != NO_TOKENS
    requires q.duration == 0 && q.session != "" && q.model != "" && ms > 0
    ensures ImportsTwice(day, q, Duration(0, q.session, q.model, q.ts, ms), source, at)
  {
    hide RunBatch, Matches, IdentityOf, ImportsTwice, CleanService;
    var landed := RunBatch(day, EMPTY, OnlyRow(q), source, at);
    NothingCounted(IdentityOf(Api(q)));
    ImportOnly(day, EMPTY, q, source, at);
    assert landed.rows == [Stored(1, Api(q))];
    assert LacksDuration(landed.rows[0], q.session, q.model, q.ts);
    assert DurationRow(landed.rows, 0, q.session, q.model, q.ts) == 0;
    assert UpdateDuration(landed, 0, q.session, q.model, q.ts, ms).rows == [Stored(1, Api(q.(duration := ms)))];
    OwnIdentity(q);
    DurationMatches(q, ms, IdentityOf(Api(q)));
    CodexIsClean();
    TouchedIsImportedTwice(day, q, Duration(0, q.session, q.model, q.ts, ms), source, at);
  }
}
