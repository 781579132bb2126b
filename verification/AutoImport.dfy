/** The one-shot lifecycle of the legacy Codex archive: import at boot, purge a
    month later, with a crash allowed between any two committed transactions. */
module AutoImport {
  import opened Rows
  import opened Aggregate
  import opened Pool
  import opened Batches
  import opened Merge
  import Previews

  const PURGE_AFTER_DAYS := 30

  /** The unified tables the archive is imported into. */
  const TARGETS: seq<Table> := [ApiRequests, UserPromptEvents, ToolDecisionEvents, ToolResultEvents, RawOtlpEvents]

  datatype Marker = Marker(importedAt: int, purged: bool)

  datatype Range = Range(table: Table, min: int, max: int)

  /** What survives a crash. An empty attempt map is an empty attempt table;
      there never is more than one marker, so its ranges carry no import id. */
  datatype Disk = Disk(db: Db, archive: seq<Row>, attempt: map<Table, int>, markers: seq<Marker>, ranges: seq<Range>)

  /** Where the boot of this process stands; Down also covers a daemon that
      finished booting and serves its listeners. */
  datatype Pc =
    | Down
    | FastMark(now: int)
    | Snapshotted(pre: map<Table, int>)
    | Engine(pre: map<Table, int>, k: nat)
    | Measured(found: seq<Range>)
    | PurgeReady
    | PurgeRebuild
    | PurgeFlip

  /** committed, foreign and debt are history: the rows any attempt of the engine
      committed, whether another writer ran between the first snapshot and the
      marker, and whether a purge deleted rows that the cache still counts. */
  datatype Sys = Sys(disk: Disk, pc: Pc, committed: set<(Table, int)>, foreign: bool, debt: bool)

  datatype Action =
    | Boot(now: int, later: int)
    | RecordAttempt
    | CommitBatch(at: int)
    | EngineFails
    | Measure
    | RecordMarker(now: int)
    | PurgeDelete
    | RebuildAgg
    | Flip
    | Crash
    | Other(db: Db)

  /** day is the local day of a timestamp, midnight its first second; limits cut
      the archive into batches, the same way at every boot. */
  datatype Env = Env(day: int -> int, midnight: int -> int, limits: Limits)

  function Work(e: Env, d: Disk): seq<Batch> {
    Scan(e.limits, d.archive)
  }

  // ---------- The steps ----------

  function Pre(pre: map<Table, int>, t: Table): int {
    if t in pre then pre[t] else 0
  }

  /** COALESCE(MAX(id), 0). */
  function MaxId(rows: seq<Stored>, t: Table): (m: int)
    ensures forall i :: 0 <= i < |rows| && TableOf(rows[i].row) == t ==> rows[i].id <= m
    ensures m == 0 || exists i :: 0 <= i < |rows| && TableOf(rows[i].row) == t && rows[i].id == m
  {
    if rows == [] then 0
    else
      var m, s := MaxId(rows[..|rows| - 1], t), rows[|rows| - 1];
      if TableOf(s.row) == t && s.id > m then s.id else m
  }

  function Snapshot(rows: seq<Stored>): map<Table, int> {
    map t | t in TARGETS :: MaxId(rows, t)
  }

  /** The non-empty (pre, post] ranges, one per target table. */
  function RangesSince(pre: map<Table, int>, rows: seq<Stored>, targets: seq<Table>): seq<Range> {
    if targets == [] then []
    else
      var t := targets[|targets| - 1];
      RangesSince(pre, rows, targets[..|targets| - 1])
        + if MaxId(rows, t) > Pre(pre, t) then [Range(t, Pre(pre, t) + 1, MaxId(rows, t))] else []
  }

  lemma RangesOfNothing(pre: map<Table, int>, rows: seq<Stored>)
    ensures RangesSince(pre, rows, []) == []
  {
  }

  lemma RangesOfNext(pre: map<Table, int>, rows: seq<Stored>, targets: seq<Table>, i: nat)
    requires i < |targets|
    ensures RangesSince(pre, rows, targets[..i + 1]) == RangesSince(pre, rows, targets[..i])
      + if MaxId(rows, targets[i]) > Pre(pre, targets[i]) then [Range(targets[i], Pre(pre, targets[i]) + 1, MaxId(rows, targets[i]))] else []
  {
    hide MaxId, Pre;
    assert targets[..i + 1][..i] == targets[..i];
  }

  predicate CoveredBy(ranges: seq<Range>, t: Table, id: int) {
    exists k :: 0 <= k < |ranges| && ranges[k].table == t && ranges[k].min <= id <= ranges[k].max
  }

  /** What the purge's DELETEs select: codex rows only, in the request table. */
  predicate Purgeable(ranges: seq<Range>, s: Stored) {
    CoveredBy(ranges, TableOf(s.row), s.id) && (s.row.Api? ==> s.row.req.service == CODEX_SERVICE)
  }

  function Purge(rows: seq<Stored>, ranges: seq<Range>): seq<Stored> {
    if rows == [] then []
    else
      var s := rows[|rows| - 1];
      Purge(rows[..|rows| - 1], ranges) + if Purgeable(ranges, s) then [] else [s]
  }

  predicate Has(rows: seq<Stored>, t: Table, id: int) {
    exists i :: 0 <= i < |rows| && TableOf(rows[i].row) == t && rows[i].id == id
  }

  predicate IsCodexOrEvent(s: Stored) {
    s.row.Api? ==> s.row.req.service == CODEX_SERVICE
  }

  /** Any other writer: it inserts under fresh ids, may update or delete, never
      takes a row away from Codex, and keeps a correct cache correct. */
  predicate OtherWriter(e: Env, before: Db, after: Db) {
    && IdsAscend(after.rows, after.last)
    && (forall t: Table :: LastId(before.last, t) <= LastId(after.last, t))
    && (forall i :: 0 <= i < |after.rows| && after.rows[i].id <= LastId(before.last, TableOf(after.rows[i].row)) ==>
          exists j :: 0 <= j < |before.rows| && SameIdentity(before.rows[j], after.rows[i]))
    && (Agrees(e.day, before.rows, before.agg) ==> Agrees(e.day, after.rows, after.agg))
  }

  predicate SameIdentity(a: Stored, b: Stored) {
    a.id == b.id && TableOf(a.row) == TableOf(b.row) && (IsCodexOrEvent(a) ==> IsCodexOrEvent(b))
  }

  predicate Due(e: Env, m: Marker, now: int) {
    !m.purged && e.midnight(now) >= e.midnight(m.importedAt) + PURGE_AFTER_DAYS * 86400
  }

  /** The decision at the top of a boot. */
  function Decide(e: Env, d: Disk, now: int, later: int): Pc {
    if d.markers != [] then
      var m := d.markers[|d.markers| - 1];
      if Due(e, m, now) && m.importedAt <= later then PurgeReady else Down
    else if d.archive == [] then Down
    else if d.attempt != map[] then Engine(d.attempt, 0)
    else if Previews.MigrationPreviewOf(d.db.rows, Work(e, d), ApiRequests) == 0 then FastMark(now)
    else Snapshotted(Snapshot(d.db.rows))
  }

  function NewIds(before: seq<Stored>, after: seq<Stored>): set<(Table, int)>
    requires |before| <= |after|
  {
    set i | |before| <= i < |after| :: (TableOf(after[i].row), after[i].id)
  }

  /** Between the first snapshot and the marker. */
  predicate Importing(s: Sys) {
    s.disk.attempt != map[] || s.pc.Snapshotted?
  }

  function Commit(e: Env, s: Sys, at: int): Sys
    requires s.pc.Engine? && s.pc.k < |Work(e, s.disk)|
  {
    var d := s.disk;
    var next := RunBatch(e.day, d.db, Work(e, d)[s.pc.k], "codex-migration", at);
    BatchAppends(e.day, d.db, Work(e, d)[s.pc.k], "codex-migration", at);
    s.(disk := d.(db := next), pc := Engine(s.pc.pre, s.pc.k + 1), committed := s.committed + NewIds(d.db.rows, next.rows))
  }

  /** One atomic step; a step that is not enabled changes nothing. */
  function Exec(e: Env, s: Sys, a: Action): Sys {
    var d := s.disk;
    match a
    case Boot(now, later) => if s.pc.Down? then s.(pc := Decide(e, d, now, later)) else s
    case RecordAttempt =>
      if s.pc.Snapshotted? then s.(disk := d.(attempt := s.pc.pre), pc := Engine(s.pc.pre, 0)) else s
    case CommitBatch(at) => if s.pc.Engine? && s.pc.k < |Work(e, d)| then Commit(e, s, at) else s
    case EngineFails => if s.pc.Engine? then s.(pc := Down) else s
    case Measure =>
      if s.pc.Engine? && s.pc.k == |Work(e, d)| then s.(pc := Measured(RangesSince(s.pc.pre, d.db.rows, TARGETS))) else s
    case RecordMarker(now) =>
      if s.pc.FastMark? then s.(disk := d.(attempt := map[], markers := d.markers + [Marker(s.pc.now, false)]), pc := Down)
      else if s.pc.Measured? then
        s.(disk := d.(attempt := map[], markers := d.markers + [Marker(now, false)], ranges := d.ranges + s.pc.found), pc := Down)
      else s
    case PurgeDelete =>
      if s.pc.PurgeReady? then s.(disk := d.(db := d.db.(rows := Purge(d.db.rows, d.ranges))), pc := PurgeRebuild, debt := true) else s
    case RebuildAgg =>
      if s.pc.PurgeRebuild? then s.(disk := d.(db := Rebuild(e.day, d.db)), pc := PurgeFlip, debt := false) else s
    case Flip =>
      if s.pc.PurgeFlip? && d.markers != [] then
        s.(disk := d.(markers := d.markers[|d.markers| - 1 := d.markers[|d.markers| - 1].(purged := true)]), pc := Down)
      else s
    case Crash => s.(pc := Down)
    case Other(db) =>
      if OtherWriter(e, d.db, db) then s.(disk := d.(db := db), foreign := s.foreign || Importing(s)) else s
  }

  function Run(e: Env, s: Sys, actions: seq<Action>): Sys {
    if actions == [] then s else Exec(e, Run(e, s, actions[..|actions| - 1]), actions[|actions| - 1])
  }

  // ---------- The invariant ----------

  /** The bookkeeping tables and the program counter fit together. */
  predicate Control(s: Sys) {
    var d := s.disk;
    && IdsAscend(d.db.rows, d.db.last)
    && |d.markers| <= 1
    && (d.markers != [] ==> d.attempt == map[] && !s.pc.Engine? && !s.pc.Measured? && !s.pc.Snapshotted? && !s.pc.FastMark?)
    && (s.pc.Snapshotted? || s.pc.FastMark? ==> d.attempt == map[])
    && (s.pc.Engine? ==> d.attempt == s.pc.pre != map[])
    && (s.pc.Measured? ==> d.attempt != map[])
    && (s.pc.PurgeReady? || s.pc.PurgeRebuild? || s.pc.PurgeFlip? ==> d.markers != [] && !d.markers[0].purged)
    && (s.pc.Snapshotted? ==> s.pc.pre != map[] && BelowLast(s.pc.pre, d.db.last))
    && BelowLast(d.attempt, d.db.last)
    && (d.markers == [] && d.attempt == map[] ==> s.committed == {} && d.ranges == [])
    && (d.markers == [] ==> d.ranges == [])
  }

  predicate BelowLast(pre: map<Table, int>, last: map<Table, int>) {
    forall t :: t in pre ==> 0 <= pre[t] <= LastId(last, t)
  }

  /** The transformed archive holds rows of the target tables, tagged codex. */
  predicate ArchiveShaped(archive: seq<Row>) {
    forall k :: 0 <= k < |archive| ==> TableOf(archive[k]) in TARGETS && IsCodexOrEvent(Stored(0, archive[k]))
  }
}
