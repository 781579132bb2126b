/** The import engine as it runs: staging, tally join, delta maps, ledger,
    commit and the check after it. */
module MergeEngine {
  import opened Rows
  import opened Aggregate
  import opened Pool
  import opened Batches
  import opened Merge
  import opened MergeSoundness
  import opened Previews
  import opened RepositoryModule

  // ---------- Delta maps ----------

  /** The aggregate after upserting each row in turn. */
  function AggAfter(day: int -> int, agg: Agg, rs: seq<Row>): Agg {
    if rs == [] then agg
    else
      var before, r := AggAfter(day, agg, rs[..|rs| - 1]), rs[|rs| - 1];
      if r.Api? then Upsert(before, LiveKey(day, r.req), Contribution(r.req)) else before
  }

  /** Adding a whole map of deltas at once. */
  function AddAll(agg: Agg, deltas: Agg): Agg {
    map k | k in agg.Keys + deltas.Keys ::
      if k in agg && k in deltas then Plus(agg[k], deltas[k]) else if k in agg then agg[k] else deltas[k]
  }

  lemma AddAllUpsert(agg: Agg, deltas: Agg, k: Key, s: Sums)
    ensures AddAll(agg, Upsert(deltas, k, s)) == Upsert(AddAll(agg, deltas), k, s)
  {
  }

  /** Collecting deltas per key first and applying them after is the same as
      upserting row by row, in whatever order the keys are applied. */
  lemma {:induction false} DeltasAddUp(day: int -> int, agg: Agg, rs: seq<Row>)
    ensures AddAll(agg, AggAfter(day, map[], rs)) == AggAfter(day, agg, rs)
  {
    hide LiveKey, Contribution, Upsert;
    if rs == [] {
      assert AddAll(agg, map[]) == agg;
    } else {
      var init, r := rs[..|rs| - 1], rs[|rs| - 1];
      DeltasAddUp(day, agg, init);
      if r.Api? {
        AddAllUpsert(agg, AggAfter(day, map[], init), LiveKey(day, r.req), Contribution(r.req));
      }
    }
  }

  lemma {:induction false} LandAgg(day: int -> int, db: Db, rs: seq<Row>)
    ensures Land(day, db, rs).agg == AggAfter(day, db.agg, rs)
  {
    hide LiveKey, Contribution, Upsert, LastId, TableOf;
    if rs != [] {
      LandAgg(day, db, rs[..|rs| - 1]);
    }
  }

  method CollectDeltas(day: int -> int, rows: seq<Row>) returns (deltas: Agg)
    ensures deltas == AggAfter(day, map[], rows)
  {
    deltas := map[];
    for i := 0 to |rows|
      invariant deltas == AggAfter(day, map[], rows[..i])
    {
      assert rows[..i + 1][..i] == rows[..i];
      if rows[i].Api? {
        deltas := Upsert(deltas, LiveKey(day, rows[i].req), Contribution(rows[i].req));
      }
    }
    assert rows[..|rows|] == rows;
  }

  function Only(deltas: Agg, keys: set<Key>): Agg {
    map k | k in deltas && k in keys :: deltas[k]
  }

  method ApplyDeltas(agg: Agg, deltas: Agg) returns (next: Agg)
    ensures next == AddAll(agg, deltas)
  {
    hide AddAll, Upsert;
    next := agg;
    var todo := deltas.Keys;
    AddNothing(agg, deltas);
    while todo != {}
      invariant todo <= deltas.Keys
      invariant next == AddAll(agg, Only(deltas, deltas.Keys - todo))
      decreases |todo|
    {
      var k :| k in todo;
      AddAllUpsert(agg, Only(deltas, deltas.Keys - todo), k, deltas[k]);
      OnlyGrows(deltas, deltas.Keys - todo, k);
      assert deltas.Keys - (todo - {k}) == deltas.Keys - todo + {k};
      next := Upsert(next, k, deltas[k]);
      todo := todo - {k};
    }
    assert deltas.Keys - todo == deltas.Keys && Only(deltas, deltas.Keys) == deltas;
  }

  lemma AddNothing(agg: Agg, deltas: Agg)
    ensures AddAll(agg, Only(deltas, deltas.Keys - deltas.Keys)) == agg
  {
  }

  lemma OnlyGrows(deltas: Agg, done: set<Key>, k: Key)
    requires k in deltas && k !in done
    ensures Only(deltas, done + {k}) == Upsert(Only(deltas, done), k, deltas[k])
  {
  }

  // ---------- Seen store ----------

  class SeenStore {
    var digests: set<Identity>

    constructor ()
      ensures digests == {}
    {
      digests := {};
    }

    /** INSERT OR IGNORE ... RETURNING: the digests that were not there. */
    method AddBatch(cands: seq<Candidate>) returns (first: set<Identity>)
      modifies this
      ensures first == Digests(cands) - old(digests)
      ensures digests == old(digests) + Digests(cands)
    {
      first := {};
      for j := 0 to |cands|
        invariant first == Digests(cands[..j]) - old(digests)
        invariant digests == old(digests) + Digests(cands[..j])
      {
        var d := IdentityOf(cands[j].row);
        DigestsGrow(cands, j);
        if d !in digests {
          digests, first := digests + {d}, first + {d};
        }
      }
      assert cands[..|cands|] == cands;
    }
  }

  lemma DigestsGrow(cands: seq<Candidate>, j: int)
    requires 0 <= j < |cands|
    ensures Digests(cands[..j + 1]) == Digests(cands[..j]) + {IdentityOf(cands[j].row)}
  {
    hide IdentityOf;
  }

  method FirstCandidates(cands: seq<Candidate>, first: set<Identity>, ghost seen: set<Identity>) returns (out: seq<Candidate>)
    requires first == Digests(cands) - seen
    ensures out == Firsts(cands, seen)
  {
    hide IdentityOf;
    out := [];
    for j := 0 to |cands|
      invariant out == Firsts(cands[..j], seen)
    {
      assert cands[..j + 1][..j] == cands[..j];
      assert IdentityOf(cands[j].row) in Digests(cands);
      if IdentityOf(cands[j].row) in first {
        out := out + [cands[j]];
      }
    }
    assert cands[..|cands|] == cands;
  }

  // ---------- Staging ----------

  /** The staged batch: what markNew wrote beside each candidate. */
  predicate Marked(rows: seq<Stored>, cands: seq<Candidate>, toInsert: seq<nat>) {
    |toInsert| == |cands| && forall j :: 0 <= j < |cands| ==> toInsert[j] == ToInsert(rows, cands[j])
  }

  method CountNew(rows: seq<Stored>, cands: seq<Candidate>, toInsert: seq<nat>) returns (count: nat)
    requires Marked(rows, cands, toInsert)
    ensures count == StagedTotal(rows, cands)
  {
    hide ToInsert;
    count := 0;
    for j := 0 to |cands|
      invariant count == StagedTotal(rows, cands[..j])
    {
      assert cands[..j + 1][..j] == cands[..j];
      count := count + toInsert[j];
    }
    assert cands[..|cands|] == cands;
  }

  /** The tally join. */
  method NewRows(rows: seq<Stored>, cands: seq<Candidate>, toInsert: seq<nat>) returns (out: seq<Row>)
    requires Marked(rows, cands, toInsert)
    ensures out == FanOut(rows, cands)
  {
    hide ToInsert;
    out := [];
    for j := 0 to |cands|
      invariant out == FanOut(rows, cands[..j])
    {
      assert cands[..j + 1][..j] == cands[..j];
      ghost var before := out;
      for n := 0 to toInsert[j]
        invariant out == before + Copies(cands[j].row, n)
      {
        assert Copies(cands[j].row, n + 1) == Copies(cands[j].row, n) + [cands[j].row];
        out := out + [cands[j].row];
      }
    }
    assert cands[..|cands|] == cands;
  }

  lemma LandNothing(day: int -> int, db: Db)
    ensures Land(day, db, []) == db
  {
  }

  lemma LandNext(day: int -> int, db: Db, rows: seq<Row>, i: nat)
    requires i < |rows|
    ensures Land(day, db, rows[..i + 1]) == LandOne(day, Land(day, db, rows[..i]), rows[i])
  {
    hide LandOne;
    assert rows[..i + 1][..i] == rows[..i];
  }

  method InsertRows(repo: Repository, rows: seq<Row>)
    modifies repo`rows, repo`last
    ensures Db(repo.rows, repo.agg, repo.ledger, repo.last)
         == Land(repo.day, old(repo.State()), rows).(agg := old(repo.agg))
  {
    hide LiveKey, Contribution, Upsert, TableOf, Land;
    LandAppends(repo.day, repo.State(), rows);
    LandNothing(repo.day, repo.State());
    for i := 0 to |rows|
      invariant Db(repo.rows, repo.agg, repo.ledger, repo.last)
             == Land(repo.day, old(repo.State()), rows[..i]).(agg := old(repo.agg))
    {
      LandNext(repo.day, old(repo.State()), rows, i);
      var id := LastId(repo.last, TableOf(rows[i])) + 1;
      repo.rows, repo.last := repo.rows + [Stored(id, rows[i])], repo.last[TableOf(rows[i]) := id];
    }
    assert rows[..|rows|] == rows;
  }

  method WriteLedger(ledger: map<Identity, LedgerEntry>, cands: seq<Candidate>, e: LedgerEntry) returns (next: map<Identity, LedgerEntry>)
    ensures next == Note(ledger, cands, e)
  {
    hide IdentityOf;
    next := ledger;
    for j := 0 to |cands|
      invariant next == Note(ledger, cands[..j], e)
    {
      assert cands[..j + 1][..j] == cands[..j];
      var d := IdentityOf(cands[j].row);
      if d !in next {
        next := next[d := e];
      }
    }
    assert cands[..|cands|] == cands;
  }

  // ---------- One batch, then the whole import ----------

  datatype Outcome = Outcome(scanned: int, inserted: int, duplicates: int, verified: int, missing: bool)

  /** The transaction of one batch. */
  method CommitBatch(repo: Repository, b: Batch, source: string, at: int) returns (inserted: nat)
    modifies repo
    ensures repo.State() == RunBatch(repo.day, old(repo.State()), b, source, at)
    ensures inserted == StagedTotal(old(repo.rows), b.cands) == |repo.rows| - |old(repo.rows)|
  {
    hide ToInsert, IdentityOf, FanOut, StagedTotal, AddAll, Note, AggAfter, Land;
    var rows := repo.rows;
    ghost var before := repo.State();
    var toInsert := seq(|b.cands|, j requires 0 <= j < |b.cands| => ToInsert(rows, b.cands[j]));
    var newCount := CountNew(rows, b.cands, toInsert);
    var newRows := NewRows(rows, b.cands, toInsert);
    var deltas := CollectDeltas(repo.day, newRows);
    FanOutSize(rows, b.cands);
    LandAppends(repo.day, before, newRows);
    LandAgg(repo.day, before, newRows);
    DeltasAddUp(repo.day, repo.agg, newRows);
    InsertRows(repo, newRows);
    inserted := |repo.rows| - |rows|;
    assert inserted == newCount;  // "staged new count changed" cannot happen
    repo.agg := ApplyDeltas(repo.agg, deltas);
    repo.ledger := WriteLedger(repo.ledger, b.cands, LedgerEntry(at, source, b.table));
  }

  method FindMissing(rows: seq<Stored>, cands: seq<Candidate>) returns (missing: bool)
    ensures missing <==> exists j :: 0 <= j < |cands| && !Contained(rows, cands[j])
  {
    hide Contained;
    for j := 0 to |cands|
      invariant forall m :: 0 <= m < j ==> Contained(rows, cands[m])
    {
      if !Contained(rows, cands[j]) {
        return true;
      }
    }
    return false;
  }

  /** One batch: the transaction, the containment check after it commits, and
      the digests seen for the first time. */
  method RunStagedBatch(repo: Repository, b: Batch, seen: SeenStore, source: string, at: int) returns (o: Outcome)
    requires Distinct(b.cands)
    modifies repo, seen
    ensures repo.State() == RunBatch(repo.day, old(repo.State()), b, source, at)
    ensures o.scanned == b.sourceRows && o.inserted + o.duplicates == o.scanned
    ensures o.inserted == StagedTotal(old(repo.rows), b.cands) == |repo.rows| - |old(repo.rows)|
    ensures !o.missing && o.verified == |Firsts(b.cands, old(seen.digests))|
    ensures seen.digests == old(seen.digests) + Digests(b.cands)
  {
    hide RunBatch, Contained, IdentityOf, Digests, Distinct, Firsts, StagedTotal;
    ghost var before := repo.State();
    var inserted := CommitBatch(repo, b, source, at);
    forall j | 0 <= j < |b.cands| ensures Contained(repo.rows, b.cands[j]) {
      BatchIsContained(repo.day, before, b, source, at, j);
      assert repo.State().rows == repo.rows;
    }
    var missing := FindMissing(repo.rows, b.cands);
    CountFirsts(b.cands, seen.digests);
    var first := seen.AddBatch(b.cands);
    o := Outcome(b.sourceRows, inserted, b.sourceRows - inserted, |first|, missing);
  }

  datatype Result = Result(scanned: int, inserted: int, duplicates: int, verified: int)

  function SourceRows(bs: seq<Batch>): int {
    if bs == [] then 0 else SourceRows(bs[..|bs| - 1]) + bs[|bs| - 1].sourceRows
  }

  /** Runs an import; fails(n) says that the transaction of batch n could not
      commit, in which case it rolled back and the import stops. */
  method RunImport(repo: Repository, limits: Limits, stream: seq<Row>, source: string, clock: nat -> int, fails: nat -> bool)
    returns (result: Result, committed: nat)
    modifies repo
    ensures committed <= |Scan(limits, stream)|
    ensures committed < |Scan(limits, stream)| ==> fails(committed)
    ensures (forall n: nat :: !fails(n)) ==> committed == |Scan(limits, stream)|
    ensures var bs := Scan(limits, stream)[..committed];
      && repo.State() == Import(repo.day, old(repo.State()), bs, source, clock)
      && result.scanned == SourceRows(bs) == result.inserted + result.duplicates
      && result.inserted == |repo.rows| - |old(repo.rows)|
      && result.verified == |SeenIn(bs)|
  {
    hide IdentityOf, RunBatch, Firsts, Digests, Scan, GoodBatch;
    var bs := ScanBatches(limits, stream);
    ScanBatchesAreGood(limits, stream);
    var seen := new SeenStore();
    result, committed := Result(0, 0, 0, 0), 0;
    while committed < |bs| && !fails(committed)
      invariant committed <= |bs|
      invariant repo.State() == Import(repo.day, old(repo.State()), bs[..committed], source, clock)
      invariant result.scanned == SourceRows(bs[..committed]) == result.inserted + result.duplicates
      invariant result.inserted == |repo.rows| - |old(repo.rows)|
      invariant result.verified == FirstTotal(bs[..committed]) && seen.digests == SeenIn(bs[..committed])
    {
      assert bs[..committed + 1][..committed] == bs[..committed];
      BatchIsDistinct(bs[committed]);
      var o := RunStagedBatch(repo, bs[committed], seen, source, clock(committed));
      result := Result(result.scanned + o.scanned, result.inserted + o.inserted,
                       result.duplicates + o.duplicates, result.verified + o.verified);
      committed := committed + 1;
    }
    VerifiedOnce(bs[..committed]);
  }

  lemma BatchIsDistinct(b: Batch)
    requires GoodBatch(b)
    ensures Distinct(b.cands)
  {
  }

  // ---------- Inspections and verification ----------

  /** The upload inspection. */
  method InspectUpload(rows: seq<Stored>, bs: seq<Batch>) returns (newRows: nat, duplicates: int)
    ensures newRows == UploadPreview(rows, bs)
    ensures newRows + duplicates == SourceRows(bs)
  {
    hide IdentityOf, StagedTotal, Firsts, Digests;
    var seen := new SeenStore();
    newRows, duplicates := 0, 0;
    for k := 0 to |bs|
      invariant fresh(seen) && seen.digests == SeenIn(bs[..k])
      invariant newRows == UploadPreview(rows, bs[..k]) && newRows + duplicates == SourceRows(bs[..k])
    {
      assert bs[..k + 1][..k] == bs[..k];
      ghost var before := seen.digests;
      var first := seen.AddBatch(bs[k].cands);
      var firsts := FirstCandidates(bs[k].cands, first, before);
      var toInsert := seq(|firsts|, j requires 0 <= j < |firsts| => ToInsert(rows, firsts[j]));
      var n := CountNew(rows, firsts, toInsert);
      newRows, duplicates := newRows + n, duplicates + bs[k].sourceRows - n;
    }
    assert bs[..|bs|] == bs;
  }

  datatype Preview = Preview(sourceRows: int, newRows: nat)

  /** Source rows of one target table. */
  function SourceRowsOf(bs: seq<Batch>, t: Table): int {
    if bs == [] then 0
    else SourceRowsOf(bs[..|bs| - 1], t) + if bs[|bs| - 1].table == t then bs[|bs| - 1].sourceRows else 0
  }

  function PreviewOf(rows: seq<Stored>, bs: seq<Batch>, t: Table): Preview {
    Preview(SourceRowsOf(bs, t), MigrationPreviewOf(rows, bs, t))
  }

  lemma PreviewOfNext(rows: seq<Stored>, bs: seq<Batch>, k: int, t: Table)
    requires 0 <= k < |bs|
    ensures var before, b := PreviewOf(rows, bs[..k], t), bs[k];
      PreviewOf(rows, bs[..k + 1], t) ==
        if b.table == t then Preview(before.sourceRows + b.sourceRows, before.newRows + StagedTotal(rows, b.cands)) else before
  {
    hide StagedTotal;
    assert bs[..k + 1][..k] == bs[..k];
  }

  /** The migration inspection: one count per planned target table. */
  method InspectMigration(rows: seq<Stored>, bs: seq<Batch>, targets: set<Table>) returns (counts: map<Table, Preview>, total: nat)
    ensures counts == map t | t in targets :: PreviewOf(rows, bs, t)
    ensures total == MigrationPreview(rows, bs)
  {
    hide StagedTotal, PreviewOf, ToInsert;
    counts, total := map t | t in targets :: Preview(0, 0), 0;
    forall t | t in targets ensures Preview(0, 0) == PreviewOf(rows, bs[..0], t) {
      NothingPreviewed(rows, t);
    }
    for k := 0 to |bs|
      invariant counts == map t | t in targets :: PreviewOf(rows, bs[..k], t)
      invariant total == MigrationPreview(rows, bs[..k])
    {
      assert bs[..k + 1][..k] == bs[..k];
      var b := bs[k];
      var toInsert := seq(|b.cands|, j requires 0 <= j < |b.cands| => ToInsert(rows, b.cands[j]));
      var n := CountNew(rows, b.cands, toInsert);
      forall t | t in targets ensures PreviewOf(rows, bs[..k + 1], t) ==
        if b.table == t then Preview(counts[t].sourceRows + b.sourceRows, counts[t].newRows + n) else counts[t]
      {
        PreviewOfNext(rows, bs, k, t);
      }
      if b.table in counts {
        var before := counts[b.table];
        counts := counts[b.table := Preview(before.sourceRows + b.sourceRows, before.newRows + n)];
      }
      total := total + n;
    }
    assert bs[..|bs|] == bs;
  }

  lemma NothingPreviewed(rows: seq<Stored>, t: Table)
    ensures PreviewOf(rows, [], t) == Preview(0, 0)
  {
  }

  /** verifyBatches: succeeds exactly when every first candidate is contained. */
  method Verify(rows: seq<Stored>, bs: seq<Batch>) returns (ok: bool, verified: nat)
    ensures ok <==> Verifies(rows, bs)
    ensures ok ==> verified == FirstTotal(bs)
  {
    hide IdentityOf, Contained, Firsts, Digests;
    var seen := new SeenStore();
    verified := 0;
    for k := 0 to |bs|
      invariant fresh(seen) && seen.digests == SeenIn(bs[..k])
      invariant verified == FirstTotal(bs[..k])
      invariant forall m, j :: 0 <= m < k && 0 <= j < |Firsts(bs[m].cands, SeenIn(bs[..m]))| ==>
        Contained(rows, Firsts(bs[m].cands, SeenIn(bs[..m]))[j])
    {
      assert bs[..k + 1][..k] == bs[..k];
      ghost var before := seen.digests;
      var first := seen.AddBatch(bs[k].cands);
      var firsts := FirstCandidates(bs[k].cands, first, before);
      var missing := FindMissing(rows, firsts);
      if missing {
        return false, verified;
      }
      verified := verified + |firsts|;
    }
    assert bs[..|bs|] == bs;
    return true, verified;
  }
}
