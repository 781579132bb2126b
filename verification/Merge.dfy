/** The staged merge as a function of the database, and the laws that make an
    import safe to repeat, to interrupt and to reorder. */
module Merge {
  import opened Rows
  import opened Aggregate
  import opened Pool
  import opened Batches

  // ---------- One batch ----------

  function Hit(r: Row, i: Identity): nat {
    if Matches(r, i) then 1 else 0
  }

  /** SELECT COUNT(*) over the target for one identity. */
  function Count(rows: seq<Stored>, i: Identity): nat {
    if rows == [] then 0 else Count(rows[..|rows| - 1], i) + Hit(rows[|rows| - 1].row, i)
  }

  /** How many target rows a staged identity asks for: a request id is the same
      request however often the source repeats it. */
  function Need(c: Candidate): int {
    if IdentityOf(c.row).ById? then 1 else c.occ
  }

  predicate Contained(rows: seq<Stored>, c: Candidate) {
    Count(rows, IdentityOf(c.row)) >= Need(c)
  }

  /** _merge_to_insert. */
  function ToInsert(rows: seq<Stored>, c: Candidate): nat {
    if Contained(rows, c) then 0 else Need(c) - Count(rows, IdentityOf(c.row))
  }

  function Copies(r: Row, n: nat): (rs: seq<Row>)
    ensures |rs| == n && forall k :: 0 <= k < n ==> rs[k] == r
  {
    seq(n, _ => r)
  }

  /** The rows the tally join produces, in staging order. */
  function FanOut(rows: seq<Stored>, cands: seq<Candidate>): seq<Row> {
    if cands == [] then []
    else FanOut(rows, cands[..|cands| - 1]) + Copies(cands[|cands| - 1].row, ToInsert(rows, cands[|cands| - 1]))
  }

  /** Inserting one row with its aggregate delta. */
  function LandOne(day: int -> int, db: Db, r: Row): Db {
    Append(db, r).(agg := if r.Api? then Upsert(db.agg, LiveKey(day, r.req), Contribution(r.req)) else db.agg)
  }

  function Land(day: int -> int, db: Db, rs: seq<Row>): Db {
    if rs == [] then db else LandOne(day, Land(day, db, rs[..|rs| - 1]), rs[|rs| - 1])
  }

  /** INSERT OR IGNORE INTO import_ledger. */
  function Note(ledger: map<Identity, LedgerEntry>, cands: seq<Candidate>, e: LedgerEntry): map<Identity, LedgerEntry> {
    if cands == [] then ledger
    else
      var before := Note(ledger, cands[..|cands| - 1], e);
      var d := IdentityOf(cands[|cands| - 1].row);
      if d in before then before else before[d := e]
  }

  function RunBatch(day: int -> int, db: Db, b: Batch, source: string, at: int): Db {
    var landed := Land(day, db, FanOut(db.rows, b.cands));
    landed.(ledger := Note(db.ledger, b.cands, LedgerEntry(at, source, b.table)))
  }

  /** The database after the first |bs| batches of an import committed; clock
      gives the commit time of each batch. */
  function Import(day: int -> int, db: Db, bs: seq<Batch>, source: string, clock: nat -> int): Db {
    if bs == [] then db
    else RunBatch(day, Import(day, db, bs[..|bs| - 1], source, clock), bs[|bs| - 1], source, clock(|bs| - 1))
  }

  predicate GoodBatch(b: Batch) {
    Distinct(b.cands) && forall j :: 0 <= j < |b.cands| ==> b.cands[j].occ >= 1
  }

  predicate GoodBatches(bs: seq<Batch>) {
    forall k :: 0 <= k < |bs| ==> GoodBatch(bs[k])
  }

  // ---------- Counting ----------

  function CountRows(rs: seq<Row>, i: Identity): nat {
    if rs == [] then 0 else CountRows(rs[..|rs| - 1], i) + Hit(rs[|rs| - 1], i)
  }

  lemma {:induction false} CountRowsConcat(a: seq<Row>, b: seq<Row>, i: Identity)
    ensures CountRows(a + b, i) == CountRows(a, i) + CountRows(b, i)
  {
    hide Hit;
    if b == [] {
      assert a + b == a;
    } else {
      assert (a + b)[..|a + b| - 1] == a + b[..|b| - 1];
      CountRowsConcat(a, b[..|b| - 1], i);
    }
  }

  lemma {:induction false} CountCopies(r: Row, n: nat, i: Identity)
    ensures CountRows(Copies(r, n), i) == n * Hit(r, i)
  {
    hide Hit;
    if n > 0 {
      assert Copies(r, n)[..n - 1] == Copies(r, n - 1);
      CountCopies(r, n - 1, i);
    }
  }

  /** Nothing stored is touched: the new rows come after the old ones. */
  lemma {:induction false} LandAppends(day: int -> int, db: Db, rs: seq<Row>)
    ensures db.rows <= Land(day, db, rs).rows
    ensures |Land(day, db, rs).rows| == |db.rows| + |rs|
    ensures forall k :: 0 <= k < |rs| ==> Land(day, db, rs).rows[|db.rows| + k].row == rs[k]
    ensures Land(day, db, rs).ledger == db.ledger
  {
    hide Upsert, LiveKey, Contribution, LastId, TableOf;
    if rs != [] {
      LandAppends(day, db, rs[..|rs| - 1]);
    }
  }

  lemma {:induction false} CountOfLand(day: int -> int, db: Db, rs: seq<Row>, i: Identity)
    ensures Count(Land(day, db, rs).rows, i) == Count(db.rows, i) + CountRows(rs, i)
  {
    hide Hit, Upsert, LiveKey, Contribution, LastId, TableOf;
    if rs != [] {
      CountOfLand(day, db, rs[..|rs| - 1], i);
      var before, after := Land(day, db, rs[..|rs| - 1]).rows, Land(day, db, rs).rows;
      assert after[..|after| - 1] == before;
    }
  }

  lemma {:induction false} CountGrows(rows: seq<Stored>, more: seq<Stored>, i: Identity)
    requires rows <= more
    ensures Count(rows, i) <= Count(more, i)
  {
    hide Hit;
    if rows != more {
      CountGrows(rows, more[..|more| - 1], i);
    }
  }

  /** A request-id row whose fallback tuple is the identity i. */
  predicate Crosses(r: Row, i: Identity) {
    RequestIdOf(r) != "" && i.ByTuple? && Matches(r, i)
  }

  predicate Uncrossed(cands: seq<Candidate>, i: Identity) {
    forall j :: 0 <= j < |cands| ==> !Crosses(cands[j].row, i)
  }

  /** Apart from crossings, a row matches exactly its own identity. */
  lemma MatchesOwn(r: Row, i: Identity)
    requires i.ById? ==> i.id != ""
    ensures Matches(r, IdentityOf(r))
    ensures Matches(r, i) <==> IdentityOf(r) == i || Crosses(r, i)
  {
  }

  /** An identity that some row has. */
  predicate Proper(i: Identity) {
    i.ById? ==> i.id != ""
  }

  lemma ProperIdentity(r: Row)
    ensures Proper(IdentityOf(r))
  {
  }

  lemma FanOutStep(rows: seq<Stored>, cands: seq<Candidate>, i: Identity)
    requires cands != []
    ensures var c := cands[|cands| - 1];
      CountRows(FanOut(rows, cands), i)
        == CountRows(FanOut(rows, cands[..|cands| - 1]), i) + if Matches(c.row, i) then ToInsert(rows, c) else 0
  {
    hide IdentityOf, Matches, Need, Contained;
    var n := |cands| - 1;
    CountRowsConcat(FanOut(rows, cands[..n]), Copies(cands[n].row, ToInsert(rows, cands[n])), i);
    CountCopies(cands[n].row, ToInsert(rows, cands[n]), i);
  }

  /** What a batch adds to the count of an identity nothing crosses. */
  lemma {:induction false} FanOutCounts(rows: seq<Stored>, cands: seq<Candidate>, i: Identity)
    requires Distinct(cands) && Proper(i) && Uncrossed(cands, i)
    ensures CountRows(FanOut(rows, cands), i) == var j := Find(cands, i); if j < 0 then 0 else ToInsert(rows, cands[j])
  {
    hide IdentityOf, Matches, Crosses, ToInsert;
    if cands != [] {
      var n := |cands| - 1;
      FanOutCounts(rows, cands[..n], i);
      FanOutStep(rows, cands, i);
      MatchesOwn(cands[n].row, i);
    }
  }

  /** Whatever crosses, a staged identity receives at least what it asked for. */
  lemma {:induction false} FanOutSupplies(rows: seq<Stored>, cands: seq<Candidate>, j: int)
    requires 0 <= j < |cands|
    ensures CountRows(FanOut(rows, cands), IdentityOf(cands[j].row)) >= ToInsert(rows, cands[j])
  {
    hide IdentityOf, Matches, ToInsert, FanOut;
    var n, i := |cands| - 1, IdentityOf(cands[j].row);
    FanOutStep(rows, cands, i);
    if j < n {
      FanOutSupplies(rows, cands[..n], j);
    } else {
      ProperIdentity(cands[j].row);
      MatchesOwn(cands[j].row, i);
    }
  }

  // ---------- Containment ----------

  /** Once a batch commits, every identity it staged is contained in the target. */
  lemma BatchIsContained(day: int -> int, db: Db, b: Batch, source: string, at: int, j: int)
    requires 0 <= j < |b.cands|
    ensures Contained(RunBatch(day, db, b, source, at).rows, b.cands[j])
  {
    hide IdentityOf, Need;
    CountOfLand(day, db, FanOut(db.rows, b.cands), IdentityOf(b.cands[j].row));
    FanOutSupplies(db.rows, b.cands, j);
  }

  /** Containment survives every writer that only appends. */
  lemma ContainedStays(rows: seq<Stored>, more: seq<Stored>, c: Candidate)
    requires rows <= more && Contained(rows, c)
    ensures Contained(more, c)
  {
    CountGrows(rows, more, IdentityOf(c.row));
  }

  lemma BatchAppends(day: int -> int, db: Db, b: Batch, source: string, at: int)
    ensures db.rows <= RunBatch(day, db, b, source, at).rows
  {
    LandAppends(day, db, FanOut(db.rows, b.cands));
  }

  lemma {:induction false} ImportAppends(day: int -> int, db: Db, bs: seq<Batch>, source: string, clock: nat -> int, k: nat)
    requires k <= |bs|
    ensures Import(day, db, bs[..k], source, clock).rows <= Import(day, db, bs, source, clock).rows
    decreases |bs|
  {
    hide RunBatch;
    if k < |bs| {
      var n := |bs| - 1;
      ImportAppends(day, db, bs[..n], source, clock, k);
      assert bs[..n][..k] == bs[..k];
      BatchAppends(day, Import(day, db, bs[..n], source, clock), bs[n], source, clock(n));
    } else {
      assert bs[..k] == bs;
    }
  }

  /** Every identity of every committed batch is contained at the end, and stays
      contained whatever is appended later: neither the check after each commit
      nor a later verification can find one missing. */
  lemma ImportIsContained(day: int -> int, db: Db, bs: seq<Batch>, source: string, clock: nat -> int, later: seq<Stored>, k: nat, j: nat)
    requires k < |bs| && j < |bs[k].cands|
    ensures Contained(Import(day, db, bs, source, clock).rows + later, bs[k].cands[j])
  {
    hide Contained, RunBatch;
    var end := Import(day, db, bs, source, clock).rows;
    assert bs[..k + 1][..k] == bs[..k];
    BatchIsContained(day, Import(day, db, bs[..k], source, clock), bs[k], source, clock(k), j);
    ImportAppends(day, db, bs, source, clock, k + 1);
    ContainedStays(Import(day, db, bs[..k + 1], source, clock).rows, end, bs[k].cands[j]);
    ContainedStays(end, end + later, bs[k].cands[j]);
  }

  // ---------- The join law ----------

  function Max(a: int, b: int): int {
    if a >= b then a else b
  }

  /** The most rows any one batch asks for under this identity. */
  function LargestNeed(bs: seq<Batch>, i: Identity): int {
    if bs == [] then 0
    else
      var cands := bs[|bs| - 1].cands;
      var j := Find(cands, i);
      Max(LargestNeed(bs[..|bs| - 1], i), if j < 0 then 0 else Need(cands[j]))
  }

  predicate NothingCrosses(bs: seq<Batch>, i: Identity) {
    forall k :: 0 <= k < |bs| ==> Uncrossed(bs[k].cands, i)
  }

  lemma BatchJoins(day: int -> int, db: Db, b: Batch, source: string, at: int, i: Identity)
    requires GoodBatch(b) && Proper(i) && Uncrossed(b.cands, i)
    ensures Count(RunBatch(day, db, b, source, at).rows, i)
         == Max(Count(db.rows, i), var j := Find(b.cands, i); if j < 0 then 0 else Need(b.cands[j]))
  {
    hide IdentityOf, Need, Crosses;
    CountOfLand(day, db, FanOut(db.rows, b.cands), i);
    FanOutCounts(db.rows, b.cands, i);
  }

  /** An import is a join: an identity that nothing crosses ends with the larger
      of what the target had and what the neediest batch asked for. */
  lemma {:induction false} ImportJoins(day: int -> int, db: Db, bs: seq<Batch>, source: string, clock: nat -> int, i: Identity)
    requires GoodBatches(bs) && Proper(i) && NothingCrosses(bs, i)
    ensures Count(Import(day, db, bs, source, clock).rows, i) == Max(Count(db.rows, i), LargestNeed(bs, i))
    decreases |bs|
  {
    hide RunBatch, Uncrossed, GoodBatch, Need;
    if bs != [] {
      var n := |bs| - 1;
      ImportJoins(day, db, bs[..n], source, clock, i);
      BatchJoins(day, Import(day, db, bs[..n], source, clock), bs[n], source, clock(n), i);
    }
  }

  /** Request ids are never crossed, and neither is anything in a source whose
      rows carry no request id. */
  lemma NothingCrossesPlainSources(bs: seq<Batch>, i: Identity)
    requires i.ById? || forall k, j :: 0 <= k < |bs| && 0 <= j < |bs[k].cands| ==> RequestIdOf(bs[k].cands[j].row) == ""
    ensures NothingCrosses(bs, i)
  {
  }

  /** The order of two imports does not change how many rows an identity has. */
  lemma ImportsCommute(day: int -> int, db: Db, a: seq<Batch>, b: seq<Batch>, source: string, clock: nat -> int, i: Identity)
    requires GoodBatches(a) && GoodBatches(b) && Proper(i) && NothingCrosses(a, i) && NothingCrosses(b, i)
    ensures Count(Import(day, Import(day, db, a, source, clock), b, source, clock).rows, i)
         == Count(Import(day, Import(day, db, b, source, clock), a, source, clock).rows, i)
  {
    ImportJoins(day, db, a, source, clock, i);
    ImportJoins(day, db, b, source, clock, i);
    ImportJoins(day, Import(day, db, a, source, clock), b, source, clock, i);
    ImportJoins(day, Import(day, db, b, source, clock), a, source, clock, i);
  }

  // ---------- Crash and resume ----------

  /** Everything but the commit times in the ledger. */
  predicate SameData(a: Db, b: Db) {
    a.rows == b.rows && a.agg == b.agg && a.last == b.last && a.ledger.Keys == b.ledger.Keys
  }

  predicate Noted(ledger: map<Identity, LedgerEntry>, cands: seq<Candidate>) {
    forall j :: 0 <= j < |cands| ==> IdentityOf(cands[j].row) in ledger
  }

  lemma {:induction false} NoteKeys(ledger: map<Identity, LedgerEntry>, cands: seq<Candidate>, e: LedgerEntry)
    ensures Note(ledger, cands, e).Keys == ledger.Keys + set j | 0 <= j < |cands| :: IdentityOf(cands[j].row)
    ensures Noted(Note(ledger, cands, e), cands)
  {
    hide IdentityOf;
    if cands != [] {
      NoteKeys(ledger, cands[..|cands| - 1], e);
    }
  }

  lemma {:induction false} NoteAgain(ledger: map<Identity, LedgerEntry>, cands: seq<Candidate>, e: LedgerEntry)
    requires Noted(ledger, cands)
    ensures Note(ledger, cands, e) == ledger
  {
    hide IdentityOf;
    if cands != [] {
      NoteAgain(ledger, cands[..|cands| - 1], e);
    }
  }

  lemma {:induction false} NothingToInsert(rows: seq<Stored>, cands: seq<Candidate>)
    requires forall j :: 0 <= j < |cands| ==> Contained(rows, cands[j])
    ensures FanOut(rows, cands) == []
  {
    hide Contained;
    if cands != [] {
      NothingToInsert(rows, cands[..|cands| - 1]);
    }
  }

  /** The batch has nothing left to do here. */
  predicate Settled(db: Db, b: Batch) {
    Noted(db.ledger, b.cands) && forall j :: 0 <= j < |b.cands| ==> Contained(db.rows, b.cands[j])
  }

  lemma SettledIsFixed(day: int -> int, db: Db, b: Batch, source: string, at: int)
    requires Settled(db, b)
    ensures RunBatch(day, db, b, source, at) == db
  {
    hide Contained, Noted;
    NothingToInsert(db.rows, b.cands);
    NoteAgain(db.ledger, b.cands, LedgerEntry(at, source, b.table));
  }

  lemma BatchSettles(day: int -> int, db: Db, b: Batch, source: string, at: int)
    ensures Settled(RunBatch(day, db, b, source, at), b)
  {
    hide Contained, Noted;
    NoteKeys(db.ledger, b.cands, LedgerEntry(at, source, b.table));
    forall j | 0 <= j < |b.cands| ensures Contained(RunBatch(day, db, b, source, at).rows, b.cands[j]) {
      BatchIsContained(day, db, b, source, at, j);
    }
  }

  lemma SettledStays(day: int -> int, db: Db, b: Batch, other: Batch, source: string, at: int)
    requires Settled(db, b)
    ensures Settled(RunBatch(day, db, other, source, at), b)
  {
    hide Contained;
    BatchAppends(day, db, other, source, at);
    NoteKeys(db.ledger, other.cands, LedgerEntry(at, source, other.table));
    forall j | 0 <= j < |b.cands| ensures Contained(RunBatch(day, db, other, source, at).rows, b.cands[j]) {
      ContainedStays(db.rows, RunBatch(day, db, other, source, at).rows, b.cands[j]);
    }
  }

  lemma {:induction false} ImportSettles(day: int -> int, db: Db, bs: seq<Batch>, source: string, clock: nat -> int, k: nat)
    requires k < |bs|
    ensures Settled(Import(day, db, bs, source, clock), bs[k])
    decreases |bs|
  {
    hide Settled, RunBatch;
    var n := |bs| - 1;
    var before := Import(day, db, bs[..n], source, clock);
    if k == n {
      BatchSettles(day, before, bs[n], source, clock(n));
    } else {
      ImportSettles(day, db, bs[..n], source, clock, k);
      SettledStays(day, before, bs[k], bs[n], source, clock(n));
    }
  }

  /** Batches that already committed pass over without effect. */
  lemma {:induction false} SettledBatchesPass(day: int -> int, db: Db, bs: seq<Batch>, source: string, clock: nat -> int)
    requires forall k :: 0 <= k < |bs| ==> Settled(db, bs[k])
    ensures Import(day, db, bs, source, clock) == db
    decreases |bs|
  {
    hide Settled, RunBatch;
    if bs != [] {
      var n := |bs| - 1;
      SettledBatchesPass(day, db, bs[..n], source, clock);
      SettledIsFixed(day, db, bs[n], source, clock(n));
    }
  }

  lemma {:induction false} LandSame(day: int -> int, a: Db, b: Db, rs: seq<Row>)
    requires SameData(a, b)
    ensures SameData(Land(day, a, rs), Land(day, b, rs))
  {
    hide Upsert, LiveKey, Contribution, LastId, TableOf;
    if rs != [] {
      LandSame(day, a, b, rs[..|rs| - 1]);
    }
  }

  lemma BatchSame(day: int -> int, a: Db, b: Db, batch: Batch, source: string, at: int, at': int)
    requires SameData(a, b)
    ensures SameData(RunBatch(day, a, batch, source, at), RunBatch(day, b, batch, source, at'))
  {
    LandSame(day, a, b, FanOut(a.rows, batch.cands));
    NoteKeys(a.ledger, batch.cands, LedgerEntry(at, source, batch.table));
    NoteKeys(b.ledger, batch.cands, LedgerEntry(at', source, batch.table));
  }

  lemma {:induction false} ResumePast(day: int -> int, db: Db, bs: seq<Batch>, source: string,
                                     clock: nat -> int, again: nat -> int, k: nat, m: nat)
    requires k <= m <= |bs|
    ensures SameData(Import(day, Import(day, db, bs[..k], source, clock), bs[..m], source, again),
                     Import(day, db, bs[..m], source, clock))
    decreases m
  {
    hide RunBatch, Settled;
    var stopped := Import(day, db, bs[..k], source, clock);
    if m == k {
      forall j | 0 <= j < k ensures Settled(stopped, bs[..k][j]) {
        ImportSettles(day, db, bs[..k], source, clock, j);
      }
      SettledBatchesPass(day, stopped, bs[..k], source, again);
    } else {
      ResumePast(day, db, bs, source, clock, again, k, m - 1);
      assert bs[..m][..m - 1] == bs[..m - 1];
      BatchSame(day, Import(day, stopped, bs[..m - 1], source, again), Import(day, db, bs[..m - 1], source, clock),
                bs[m - 1], source, again(m - 1), clock(m - 1));
    }
  }

  lemma {:induction false} ImportSame(day: int -> int, a: Db, b: Db, bs: seq<Batch>, source: string, clock: nat -> int, again: nat -> int)
    requires SameData(a, b)
    ensures SameData(Import(day, a, bs, source, clock), Import(day, b, bs, source, again))
    decreases |bs|
  {
    hide RunBatch, SameData;
    if bs != [] {
      var n := |bs| - 1;
      ImportSame(day, a, b, bs[..n], source, clock, again);
      BatchSame(day, Import(day, a, bs[..n], source, clock), Import(day, b, bs[..n], source, again), bs[n], source, clock(n), again(n));
    }
  }

  /** The database after several attempts at the same import, each stopped
      after some committed batch. */
  function Attempts(day: int -> int, db: Db, bs: seq<Batch>, source: string, clock: nat -> int, stops: seq<nat>): Db
    requires forall s :: 0 <= s < |stops| ==> stops[s] <= |bs|
  {
    if stops == [] then db
    else Import(day, Attempts(day, db, bs, source, clock, stops[..|stops| - 1]), bs[..stops[|stops| - 1]], source, clock)
  }

  /** The furthest any attempt got. */
  function Furthest(stops: seq<nat>): (f: nat)
    ensures forall s :: 0 <= s < |stops| ==> stops[s] <= f
    ensures stops == [] ==> f == 0
    ensures stops != [] ==> f in stops
  {
    if stops == [] then 0
    else
      var f := Furthest(stops[..|stops| - 1]);
      if stops[|stops| - 1] >= f then stops[|stops| - 1] else f
  }

  /** Attempts only ever advance to the furthest one. */
  lemma {:induction false} AttemptsAdvance(day: int -> int, db: Db, bs: seq<Batch>, source: string, clock: nat -> int, stops: seq<nat>)
    requires forall s :: 0 <= s < |stops| ==> stops[s] <= |bs|
    ensures SameData(Attempts(day, db, bs, source, clock, stops), Import(day, db, bs[..Furthest(stops)], source, clock))
    decreases |stops|
  {
    if stops != [] {
      hide RunBatch, Settled;
      var init, k := stops[..|stops| - 1], stops[|stops| - 1];
      var f := Furthest(init);
      AttemptsAdvance(day, db, bs, source, clock, init);
      var before, reached := Attempts(day, db, bs, source, clock, init), Import(day, db, bs[..f], source, clock);
      ImportSame(day, before, reached, bs[..k], source, clock, clock);
      if k >= f {
        ResumePast(day, db, bs, source, clock, clock, f, k);
      } else {
        forall j | 0 <= j < k ensures Settled(reached, bs[..k][j]) {
          ImportSettles(day, db, bs[..f], source, clock, j);
        }
        SettledBatchesPass(day, reached, bs[..k], source, clock);
      }
    }
  }

  /** Crash equivalence: after any number of interrupted attempts, a run to the
      end leaves the tables, the aggregate and the ledger keys exactly as one
      uninterrupted import would have. */
  lemma CrashesDoNotMatter(day: int -> int, db: Db, bs: seq<Batch>, source: string, clock: nat -> int, stops: seq<nat>)
    requires forall s :: 0 <= s < |stops| ==> stops[s] <= |bs|
    ensures SameData(Import(day, Attempts(day, db, bs, source, clock, stops), bs, source, clock), Import(day, db, bs, source, clock))
  {
    assert bs[..|bs|] == bs;
    AttemptsAdvance(day, db, bs, source, clock, stops);
    var f := Furthest(stops);
    ImportSame(day, Attempts(day, db, bs, source, clock, stops), Import(day, db, bs[..f], source, clock), bs, source, clock, clock);
    ResumePast(day, db, bs, source, clock, clock, f, |bs|);
  }

  /** Importing the same source again inserts nothing and changes nothing. */
  lemma SecondImportIsNoop(day: int -> int, db: Db, bs: seq<Batch>, source: string, clock: nat -> int, again: nat -> int)
    ensures var once := Import(day, db, bs, source, clock); Import(day, once, bs, source, again) == once
  {
    hide Settled;
    var once := Import(day, db, bs, source, clock);
    forall k | 0 <= k < |bs| ensures Settled(once, bs[k]) {
      ImportSettles(day, db, bs, source, clock, k);
    }
    SettledBatchesPass(day, once, bs, source, again);
  }
}
