/** An import keeps the invariants of the pool it merges into. */
module MergeSoundness {
  import opened Rows
  import opened Aggregate
  import opened Pool
  import opened Batches
  import opened Merge

  /** A source row whose service name and cost the pool can absorb. */
  predicate Absorbable(r: Row) {
    r.Api? ==> CleanService(r.req.service) && FreeWhilePending(r.req)
  }

  predicate AbsorbableBatch(b: Batch) {
    GoodBatch(b) && forall j :: 0 <= j < |b.cands| ==> Absorbable(b.cands[j].row)
  }

  // ---------- Request ids stay unique ----------

  function IdIdentity(id: string): Identity {
    ById(ApiRequests, id)
  }

  lemma HitsId(r: Row, id: string)
    requires id != ""
    ensures Hit(r, IdIdentity(id)) == if r.Api? && r.req.requestId == id then 1 else 0
  {
  }

  lemma {:induction false} CountAtLeast(rows: seq<Stored>, i: int, j: int, id: string)
    requires 0 <= i <= j < |rows| && id != ""
    requires rows[i].row.Api? && rows[i].row.req.requestId == id && rows[j].row.Api? && rows[j].row.req.requestId == id
    ensures Count(rows, IdIdentity(id)) >= if i < j then 2 else 1
  {
    hide Hit;
    var n := |rows| - 1;
    HitsId(rows[n].row, id);
    if j < n {
      CountAtLeast(rows[..n], i, j, id);
    } else if i < j {
      CountAtLeast(rows[..n], i, i, id);
    }
  }

  lemma {:induction false} CountAtMost(rows: seq<Stored>, id: string)
    requires UniqueRequestIds(rows) && id != ""
    ensures Count(rows, IdIdentity(id)) <= 1
    ensures Count(rows, IdIdentity(id)) == 1 ==> exists i :: 0 <= i < |rows| && rows[i].row.Api? && rows[i].row.req.requestId == id
  {
    hide Hit;
    if rows != [] {
      var n := |rows| - 1;
      HitsId(rows[n].row, id);
      CountAtMost(rows[..n], id);
      if Count(rows[..n], IdIdentity(id)) == 1 {
        var i :| 0 <= i < |rows[..n]| && rows[..n][i].row.Api? && rows[..n][i].row.req.requestId == id;
        assert rows[i].row == rows[..n][i].row;
      }
    }
  }

  /** The unique index, said with counts. */
  lemma UniqueMeansAtMostOne(rows: seq<Stored>)
    ensures UniqueRequestIds(rows) <==> forall id :: id != "" ==> Count(rows, IdIdentity(id)) <= 1
  {
    hide Count;
    if UniqueRequestIds(rows) {
      forall id | id != "" ensures Count(rows, IdIdentity(id)) <= 1 {
        CountAtMost(rows, id);
      }
    } else {
      var i, j :| 0 <= i < j < |rows| && rows[i].row.Api? && rows[j].row.Api? && rows[i].row.req.requestId != ""
                  && rows[i].row.req.requestId == rows[j].row.req.requestId;
      CountAtLeast(rows, i, j, rows[i].row.req.requestId);
    }
  }

  // ---------- Landing rows ----------

  lemma {:induction false} FanOutComesFrom(rows: seq<Stored>, cands: seq<Candidate>, k: int) returns (j: int)
    requires 0 <= k < |FanOut(rows, cands)|
    ensures 0 <= j < |cands| && FanOut(rows, cands)[k] == cands[j].row
  {
    hide ToInsert;
    var n := |cands| - 1;
    if k < |FanOut(rows, cands[..n])| {
      j := FanOutComesFrom(rows, cands[..n], k);
    } else {
      j := n;
    }
  }

  /** New rows get ids above everything their table ever used. */
  lemma {:induction false} LandIds(day: int -> int, db: Db, rs: seq<Row>)
    requires IdsAscend(db.rows, db.last)
    ensures IdsAscend(Land(day, db, rs).rows, Land(day, db, rs).last)
    ensures forall t: Table :: LastId(db.last, t) <= LastId(Land(day, db, rs).last, t)
    ensures forall k :: |db.rows| <= k < |Land(day, db, rs).rows| ==>
              Land(day, db, rs).rows[k].id > LastId(db.last, TableOf(Land(day, db, rs).rows[k].row))
  {
    hide IdsAscend, TableOf;
    if rs != [] {
      var before := Land(day, db, rs[..|rs| - 1]);
      LandIds(day, db, rs[..|rs| - 1]);
      LandAppends(day, db, rs[..|rs| - 1]);
      AppendKeepsAscent(before, rs[|rs| - 1]);
    }
  }

  /** Landing clean rows keeps the cache right, whatever else the pool holds. */
  lemma {:induction false} LandKeepsAgreement(day: int -> int, db: Db, rs: seq<Row>)
    requires Agrees(day, db.rows, db.agg)
    requires forall k :: 0 <= k < |rs| && rs[k].Api? ==> CleanService(rs[k].req.service)
    ensures Agrees(day, Land(day, db, rs).rows, Land(day, db, rs).agg)
  {
    hide Agrees, CleanService, Upsert, Contribution, LiveKey;
    if rs != [] {
      var before, r := Land(day, db, rs[..|rs| - 1]), rs[|rs| - 1];
      LandKeepsAgreement(day, db, rs[..|rs| - 1]);
      var s := Stored(LastId(before.last, TableOf(r)) + 1, r);
      if r.Api? {
        AppendKeepsAgreement(day, before.rows, before.agg, s);
      } else {
        OtherLandsAgree(day, before.rows, before.agg, s);
      }
    }
  }

  lemma OtherLandsAgree(day: int -> int, rows: seq<Stored>, agg: Agg, s: Stored)
    requires Agrees(day, rows, agg) && !s.row.Api?
    ensures Agrees(day, rows + [s], agg)
  {
    AppendOtherKeepsAgreement(day, rows, s);
  }

  predicate LandedWell(day: int -> int, db: Db) {
    IdsAscend(db.rows, db.last) && PendingFree(db.rows) && Agrees(day, db.rows, db.agg)
  }

  lemma LandOneKeeps(day: int -> int, db: Db, r: Row)
    requires LandedWell(day, db) && Absorbable(r)
    ensures LandedWell(day, LandOne(day, db, r))
  {
    hide IdsAscend, PendingFree, GroupBy, Upsert, LiveKey, Contribution, CleanService, FreeWhilePending;
    var s := Stored(LastId(db.last, TableOf(r)) + 1, r);
    AppendKeepsAscent(db, r);
    AppendKeepsPendingFree(db.rows, s);
    if r.Api? {
      AppendKeepsAgreement(day, db.rows, db.agg, s);
    } else {
      AppendOtherKeepsAgreement(day, db.rows, s);
    }
  }

  lemma {:induction false} LandKeeps(day: int -> int, db: Db, rs: seq<Row>)
    requires LandedWell(day, db) && forall k :: 0 <= k < |rs| ==> Absorbable(rs[k])
    ensures LandedWell(day, Land(day, db, rs))
  {
    hide LandOne, Absorbable, LandedWell;
    if rs != [] {
      LandKeeps(day, db, rs[..|rs| - 1]);
      LandOneKeeps(day, Land(day, db, rs[..|rs| - 1]), rs[|rs| - 1]);
    }
  }

  /** One committed batch keeps every invariant of the pool, including the
      unique index on request ids, which the INSERT does not ignore. */
  lemma BatchKeepsSound(day: int -> int, db: Db, b: Batch, source: string, at: int)
    requires Sound(day, db) && AbsorbableBatch(b)
    ensures Sound(day, RunBatch(day, db, b, source, at))
  {
    hide Count, Find, Absorbable, Agrees, PendingFree, IdsAscend, UniqueRequestIds;
    var rs, next := FanOut(db.rows, b.cands), RunBatch(day, db, b, source, at);
    forall k | 0 <= k < |rs| ensures Absorbable(rs[k]) {
      var j := FanOutComesFrom(db.rows, b.cands, k);
    }
    LandKeeps(day, db, rs);
    UniqueMeansAtMostOne(db.rows);
    forall id | id != "" ensures Count(next.rows, IdIdentity(id)) <= 1 {
      BatchJoins(day, db, b, source, at, IdIdentity(id));
    }
    UniqueMeansAtMostOne(next.rows);
  }

  lemma {:induction false} ImportKeepsSound(day: int -> int, db: Db, bs: seq<Batch>, source: string, clock: nat -> int)
    requires Sound(day, db) && forall k :: 0 <= k < |bs| ==> AbsorbableBatch(bs[k])
    ensures Sound(day, Import(day, db, bs, source, clock))
    decreases |bs|
  {
    hide Sound, RunBatch, AbsorbableBatch;
    if bs != [] {
      var n := |bs| - 1;
      ImportKeepsSound(day, db, bs[..n], source, clock);
      BatchKeepsSound(day, Import(day, db, bs[..n], source, clock), bs[n], source, clock(n));
    }
  }

  /** Every staged candidate is a row of the source. */
  lemma CandidateComesFrom(l: Limits, source: seq<Row>, k: int, j: int) returns (p: int)
    requires 0 <= k < |Scan(l, source)| && 0 <= j < |Scan(l, source)[k].cands|
    ensures 0 <= p < |source| && source[p] == Scan(l, source)[k].cands[j].row
  {
    hide Chunks, Collapse, IdentityOf, Greedy;
    var cs := Chunks(Clamp(l), source);
    ChunksPartition(Clamp(l), source);
    CollapseCounts(cs[k]);
    var c := Collapse(cs[k])[j];
    assert FirstOf(cs[k], c.row);
    var m :| 0 <= m < |cs[k]| && FirstAt(cs[k], c.row, m);
    p := ChunkComesFrom(cs, k, m);
  }

  lemma ScanBatchesAreGood(l: Limits, source: seq<Row>)
    ensures GoodBatches(Scan(l, source))
  {
    hide Collapse;
    var cs := Chunks(Clamp(l), source);
    forall k | 0 <= k < |cs| ensures GoodBatch(BatchOf(Clamp(l), cs[k])) {
      CollapseCounts(cs[k]);
    }
  }

  /** What a scan yields is fit to be merged. */
  lemma ScanIsGood(l: Limits, source: seq<Row>)
    requires forall k :: 0 <= k < |source| ==> Absorbable(source[k])
    ensures forall k :: 0 <= k < |Scan(l, source)| ==> AbsorbableBatch(Scan(l, source)[k])
  {
    hide Absorbable, Scan, GoodBatch;
    ScanBatchesAreGood(l, source);
    var bs := Scan(l, source);
    forall k, j | 0 <= k < |bs| && 0 <= j < |bs[k].cands| ensures Absorbable(bs[k].cands[j].row) {
      var p := CandidateComesFrom(l, source, k, j);
    }
  }

  lemma {:induction false} ChunkComesFrom(cs: seq<seq<Row>>, k: int, m: int) returns (p: int)
    requires 0 <= k < |cs| && 0 <= m < |cs[k]|
    ensures 0 <= p < |Concat(cs)| && Concat(cs)[p] == cs[k][m]
  {
    var n := |cs| - 1;
    if k < n {
      p := ChunkComesFrom(cs[..n], k, m);
    } else {
      p := |Concat(cs[..n])| + m;
    }
  }
}
