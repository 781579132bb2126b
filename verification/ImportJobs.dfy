/** The single import slot, its upload file, and the two other heavy writers.
    Each method below is one section run under the manager's lock or the writer
    bus; goroutines interleave between sections. */
module ImportJobs {
  import opened Rows

  const SECOND := 1_000_000_000
  const DAY_NANOS := 24 * 3600 * SECOND

  datatype JobState = Inspecting | Ready | Importing | Succeeded | Failed

  datatype Phase = Uploading | InspectPhase | Preview | ImportPhase | Verifying

  /** The job in the slot; its random id also names its upload file. */
  datatype Job = Job(id: nat, state: JobState, phase: Phase, created: int, updated: int, retryable: bool, active: bool)

  /** A sweep past its locked section: its clock reading and the path it spares. */
  datatype Sweep = Sweep(now: int, current: Option<nat>)

  /** clock is in nanoseconds. files maps an upload to its modification time;
      used, written, doomed are the ids ever drawn, the ids whose upload handler
      has saved the file, and the ids whose files a goroutine is about to remove.
      inspections and merges are the goroutines still running. */
  datatype Sys = Sys(
    clock: int, job: Option<Job>, used: set<nat>, files: map<nat, int>, written: set<nat>, doomed: set<nat>,
    inspections: set<nat>, merges: multiset<nat>, sweeps: set<Sweep>, admitted: nat, migrating: bool, recomputing: bool)

  datatype Outcome = Done | Broken | Cancelled

  datatype Step =
    | Tick(now: int)
    | Admit
    | Reserve(id: nat)
    | Save(id: nat)
    | CompleteUpload(id: nat)
    | InspectionDone(id: nat, outcome: Outcome)
    | Report(id: nat, phase: Phase)
    | StartImport(id: nat)
    | MergeDone(id: nat, outcome: Outcome)
    | Abort(id: nat)
    | RemoveDoomed(id: nat)
    | SweepLock(now: int)
    | SweepFile(sweep: Sweep, id: nat)
    | StartMigration
    | MigrationDone
    | StartRecompute
    | RecomputeDone

  function Unix(nanos: int): (seconds: int)
    ensures seconds * SECOND <= nanos < (seconds + 1) * SECOND
  {
    nanos / SECOND
  }

  /** HasActiveJob. */
  predicate Occupied(job: Option<Job>) {
    job.Some? && (job.value.state == Inspecting || job.value.state == Ready || job.value.state == Importing)
  }

  predicate Holds(job: Option<Job>, id: nat) {
    job.Some? && job.value.id == id
  }

  predicate Startable(job: Option<Job>, id: nat) {
    Holds(job, id) && (job.value.state == Ready || (job.value.state == Failed && job.value.retryable))
  }

  /** What a sweep whose clock reads `now` may take out of the slot. */
  predicate SweepsAway(j: Job, now: int) {
    !j.active &&
    ((j.phase == Uploading && j.state == Inspecting && Unix(now) >= j.created + 1800)
     || (j.state == Failed && Unix(now) >= j.updated + 3600)
     || (j.state == Ready && Unix(now) >= j.updated + 86400))
  }

  /** May this step happen at all; a refused request is still a step. */
  predicate Enabled(s: Sys, a: Step) {
    match a
    case Tick(now) => s.clock <= now
    case Reserve(id) => id !in s.used && s.admitted > 0
    case Save(id) => id in s.used && id !in s.written
    case CompleteUpload(id) => id in s.written
    case InspectionDone(id, _) => id in s.inspections
    case Report(id, phase) => (id in s.inspections || id in s.merges) && phase != Uploading
    case MergeDone(id, _) => id in s.merges
    case RemoveDoomed(id) => id in s.doomed
    case SweepLock(now) => now <= s.clock
    case SweepFile(sweep, _) => sweep in s.sweeps
    case _ => true
  }

  /** Same job, whatever became of it. */
  predicate SameJob(before: Option<Job>, after: Option<Job>) {
    before.Some? == after.Some? && (before.Some? ==> after.value.id == before.value.id && after.value.created == before.value.created)
  }

  predicate AwaitsUpload(job: Option<Job>, id: nat) {
    Holds(job, id) && job.value.state == Inspecting && job.value.phase == Uploading
  }

  function Uploaded(job: Option<Job>, id: nat, now: int): (r: Option<Job>)
    ensures SameJob(job, r)
  {
    if !AwaitsUpload(job, id) then job else Some(job.value.(phase := InspectPhase, updated := now, active := true))
  }

  function Started(job: Option<Job>, id: nat, now: int): (r: Option<Job>)
    ensures SameJob(job, r)
  {
    if !Startable(job, id) then job
    else Some(job.value.(state := Importing, phase := ImportPhase, updated := now, retryable := false, active := true))
  }

  function Reported(job: Option<Job>, id: nat, phase: Phase, now: int): (r: Option<Job>)
    ensures SameJob(job, r)
  {
    if !Holds(job, id) then job else Some(job.value.(phase := phase, updated := now))
  }

  /** The locked end of runInspection. */
  function Inspected(job: Option<Job>, id: nat, outcome: Outcome, now: int): (r: Option<Job>)
    ensures SameJob(job, r)
  {
    if !Holds(job, id) then job
    else match outcome
      case Cancelled => Some(job.value.(active := false))
      case Broken => Some(job.value.(active := false, updated := now, state := Failed, retryable := false))
      case Done => Some(job.value.(active := false, updated := now, state := Ready, phase := Preview))
  }

  /** The locked end of runMerge; its first branch is the "job gone" exit. */
  function Merged(job: Option<Job>, id: nat, outcome: Outcome, now: int): (r: Option<Job>)
    ensures SameJob(job, r)
  {
    if !Holds(job, id) then job
    else match outcome
      case Cancelled => Some(job.value.(active := false))
      case Broken => Some(job.value.(active := false, updated := now, state := Failed, retryable := true))
      case Done => Some(job.value.(active := false, updated := now, state := Succeeded, retryable := false))
  }

  function Next(s: Sys, a: Step): Sys {
    match a
    case Tick(now) => s.(clock := now)
    case Admit => if s.migrating then s else s.(admitted := s.admitted + 1)
    case Reserve(id) =>
      if Occupied(s.job) then s
      else s.(job := Some(Job(id, Inspecting, Uploading, Unix(s.clock), Unix(s.clock), false, false)),
              used := s.used + {id}, files := if s.job.Some? then s.files - {s.job.value.id} else s.files)
    case Save(id) => s.(files := s.files[id := s.clock], written := s.written + {id})
    case CompleteUpload(id) =>
      s.(job := Uploaded(s.job, id, Unix(s.clock)),
         inspections := if AwaitsUpload(s.job, id) then s.inspections + {id} else s.inspections)
    case InspectionDone(id, outcome) =>
      s.(inspections := s.inspections - {id}, job := Inspected(s.job, id, outcome, Unix(s.clock)))
    case Report(id, phase) => s.(job := Reported(s.job, id, phase, Unix(s.clock)))
    case StartImport(id) =>
      if s.migrating then s
      else s.(job := Started(s.job, id, Unix(s.clock)), merges := if Startable(s.job, id) then s.merges + multiset{id} else s.merges)
    case MergeDone(id, outcome) =>
      s.(merges := s.merges - multiset{id}, job := Merged(s.job, id, outcome, Unix(s.clock)),
         files := if Holds(s.job, id) && outcome == Done then s.files - {id} else s.files)
    case Abort(id) =>
      if !Holds(s.job, id) || s.job.value.state == Importing then s
      else s.(job := None, doomed := s.doomed + {id})
    case RemoveDoomed(id) => s.(doomed := s.doomed - {id}, files := s.files - {id})
    case SweepLock(now) =>
      if s.job.Some? && SweepsAway(s.job.value, now) then
        s.(job := None, doomed := s.doomed + {s.job.value.id}, sweeps := s.sweeps + {Sweep(now, None)})
      else s.(sweeps := s.sweeps + {Sweep(now, if s.job.Some? then Some(s.job.value.id) else None)})
    case SweepFile(sweep, id) =>
      if sweep.current == Some(id) || id !in s.files || s.files[id] > sweep.now - DAY_NANOS then s
      else s.(files := s.files - {id})
    case StartMigration => if Occupied(s.job) || s.migrating then s else s.(migrating := true)
    case MigrationDone => s.(migrating := false)
    case StartRecompute => if s.recomputing || Occupied(s.job) || s.migrating then s else s.(recomputing := true)
    case RecomputeDone => s.(recomputing := false)
  }

  // ---------- The sections as they update the server ----------

  class Server {
    var clock: int
    var job: Option<Job>
    var used: set<nat>
    var files: map<nat, int>
    var written: set<nat>
    var doomed: set<nat>
    var inspections: set<nat>
    var merges: multiset<nat>
    var sweeps: set<Sweep>
    var admitted: nat
    var migrating: bool
    var recomputing: bool

    ghost function State(): Sys
      reads this
    {
      Sys(clock, job, used, files, written, doomed, inspections, merges, sweeps, admitted, migrating, recomputing)
    }

    constructor (now: int)
      ensures State() == Boot(now)
    {
      clock, job, used, files, written, doomed := now, None, {}, map[], {}, {};
      inspections, merges, sweeps, admitted, migrating, recomputing := {}, multiset{}, {}, 0, false, false;
    }

    method HasActiveJob() returns (busy: bool)
      ensures busy == Occupied(job)
    {
      return job.Some? && (job.value.state == Inspecting || job.value.state == Ready || job.value.state == Importing);
    }

    method ReserveUpload(id: nat) returns (ok: bool)
      requires Enabled(State(), Reserve(id))
      modifies this
      ensures State() == Next(old(State()), Reserve(id))
      ensures ok == !Occupied(old(job)) && (ok ==> Holds(job, id))
    {
      var busy := HasActiveJob();
      if busy {
        return false;
      }
      if job.Some? {
        files := files - {job.value.id};
        job := None;
      }
      used := used + {id};
      job := Some(Job(id, Inspecting, Uploading, Unix(clock), Unix(clock), false, false));
      return true;
    }

    method CompleteUploadOf(id: nat) returns (ok: bool)
      requires Enabled(State(), CompleteUpload(id))
      modifies this
      ensures State() == Next(old(State()), CompleteUpload(id))
    {
      if job.None? || job.value.id != id {
        return false;
      }
      if job.value.state != Inspecting || job.value.phase != Uploading {
        return false;
      }
      job := Some(job.value.(phase := InspectPhase, updated := Unix(clock), active := true));
      inspections := inspections + {id};
      return true;
    }

    method FinishInspection(id: nat, outcome: Outcome)
      requires Enabled(State(), InspectionDone(id, outcome))
      modifies this
      ensures State() == Next(old(State()), InspectionDone(id, outcome))
    {
      inspections := inspections - {id};
      if job.None? || job.value.id != id {
        return;
      }
      job := Some(job.value.(active := false));
      if outcome == Cancelled {
        return;
      }
      job := Some(job.value.(updated := Unix(clock)));
      if outcome == Broken {
        job := Some(job.value.(state := Failed, retryable := false));
        return;
      }
      job := Some(job.value.(state := Ready, phase := Preview));
    }

    /** ImportStart, from taking the writer bus to releasing it. */
    method Start(id: nat) returns (ok: bool)
      modifies this
      ensures State() == Next(old(State()), StartImport(id))
      ensures ok ==> !old(migrating) && Holds(job, id) && job.value.state == Importing
    {
      hide Unix, SweepsAway, Occupied, AwaitsUpload, Inspected, Merged, Uploaded, Reported;
      if migrating {
        return false;
      }
      if job.None? || job.value.id != id {
        return false;
      }
      if job.value.state != Ready && !(job.value.state == Failed && job.value.retryable) {
        return false;
      }
      job := Some(job.value.(state := Importing, phase := ImportPhase, updated := Unix(clock), retryable := false, active := true));
      merges := merges + multiset{id};
      return true;
    }

    method FinishMerge(id: nat, outcome: Outcome)
      requires Enabled(State(), MergeDone(id, outcome))
      modifies this
      ensures State() == Next(old(State()), MergeDone(id, outcome))
    {
      hide Enabled, Unix, SweepsAway, Occupied, Startable, AwaitsUpload, Inspected, Uploaded, Started, Reported;
      merges := merges - multiset{id};
      if job.None? || job.value.id != id {
        return;
      }
      var j := job.value.(active := false);
      if outcome == Broken {
        j := j.(updated := Unix(clock), state := Failed, retryable := true);
      } else if outcome == Done {
        files := files - {id};
        j := j.(updated := Unix(clock), state := Succeeded, retryable := false);
      }
      job := Some(j);
    }

    /** The locked section; removing the file comes later. */
    method AbortUpload(id: nat) returns (ok: bool)
      modifies this
      ensures State() == Next(old(State()), Abort(id))
    {
      if job.None? || job.value.id != id {
        return false;
      }
      if job.value.state == Importing {
        return false;
      }
      job := None;
      doomed := doomed + {id};
      return true;
    }

    method SweepLocked(now: int) returns (sweep: Sweep)
      requires Enabled(State(), SweepLock(now))
      modifies this
      ensures State() == Next(old(State()), SweepLock(now))
      ensures sweep in sweeps
    {
      hide Unix, Occupied, Startable, Inspected, Merged;
      var current: Option<nat> := None;
      if job.Some? {
        current := Some(job.value.id);
        if !job.value.active {
          var uploadStuck := job.value.phase == Uploading && job.value.state == Inspecting && Unix(now) >= job.value.created + 1800;
          var expired := uploadStuck
            || (job.value.state == Failed && Unix(now) >= job.value.updated + 3600)
            || (job.value.state == Ready && Unix(now) >= job.value.updated + 86400);
          if expired {
            doomed := doomed + {job.value.id};
            job := None;
            current := None;
          }
        }
      }
      sweep := Sweep(now, current);
      sweeps := sweeps + {sweep};
    }

    /** The directory scan of one sweep, file by file. */
    method SweepFiles(sweep: Sweep)
      requires sweep in sweeps
      modifies this`files
      ensures forall id :: id in files <==> id in old(files) && !(sweep.current != Some(id) && old(files)[id] <= sweep.now - DAY_NANOS)
      ensures forall id :: id in files ==> files[id] == old(files)[id]
    {
      var entries := files.Keys;
      while entries != {}
        invariant entries <= old(files).Keys
        invariant forall id :: id in files <==>
                    id in old(files) && (id in entries || !(sweep.current != Some(id) && old(files)[id] <= sweep.now - DAY_NANOS))
        invariant forall id :: id in files ==> files[id] == old(files)[id]
        decreases |entries|
      {
        var id :| id in entries;
        if sweep.current != Some(id) && !(files[id] > sweep.now - DAY_NANOS) {
          files := files - {id};
        }
        entries := entries - {id};
      }
    }

    /** CodexMigrate, from taking the writer bus to releasing it. */
    method BeginMigration() returns (ok: bool)
      modifies this
      ensures State() == Next(old(State()), StartMigration)
      ensures ok ==> migrating && !Occupied(job)
    {
      var busy := HasActiveJob();
      if busy {
        return false;
      }
      if migrating {
        return false;
      }
      migrating := true;
      return true;
    }

    method BeginRecompute() returns (ok: bool)
      modifies this
      ensures State() == Next(old(State()), StartRecompute)
      ensures ok ==> recomputing && !Occupied(job) && !migrating
    {
      if recomputing {
        return false;
      }
      var busy := HasActiveJob();
      if busy || migrating {
        return false;
      }
      recomputing := true;
      return true;
    }
  }

  function Boot(now: int): Sys {
    Sys(now, None, {}, map[], {}, {}, {}, multiset{}, {}, 0, false, false)
  }

  // ---------- What every step keeps ----------

  /** Every running merge is the one merge of the job in the slot. */
  predicate MergesOwnTheSlot(s: Sys) {
    forall id :: id in s.merges ==> Holds(s.job, id) && s.job.value.state == Importing && s.job.value.active
  }

  predicate OneMergeAtMost(s: Sys) {
    s.job.Some? ==> s.merges[s.job.value.id] <= 1
  }

  predicate InspectionsOwnTheSlot(s: Sys) {
    forall id :: id in s.inspections && Holds(s.job, id) ==> s.job.value.state == Inspecting && s.job.value.active && s.job.value.phase != Uploading
  }

  /** An importing job and a running migration never coexist. */
  predicate WritersExclude(s: Sys) {
    s.job.Some? && s.job.value.state == Importing ==> !s.migrating
  }

  predicate UploadIsSaved(s: Sys) {
    s.job.Some? && (s.job.value.state != Inspecting || s.job.value.phase != Uploading) ==> s.job.value.id in s.written
  }

  predicate UploadIsNotDoomed(s: Sys) {
    s.job.Some? ==> s.job.value.id !in s.doomed && s.job.value.created * SECOND <= s.clock
  }

  predicate UploadIsKept(s: Sys) {
    s.job.Some? && s.job.value.id in s.written && s.job.value.state != Succeeded ==>
      s.job.value.id in s.files && s.files[s.job.value.id] >= s.job.value.created * SECOND
  }

  /** No sweep in flight can reach the current upload: it spares it by name, or
      began before the upload did and so finds it too young. */
  predicate SweepsSpare(s: Sys) {
    forall w :: w in s.sweeps ==>
      w.now <= s.clock && (s.job.Some? ==> w.current == Some(s.job.value.id) || w.now < (s.job.value.created + 1) * SECOND)
  }

  predicate IdsAreUsed(s: Sys) {
    && s.written <= s.used && s.doomed <= s.used && s.inspections <= s.used
    && (s.job.Some? ==> s.job.value.id in s.used)
  }

  predicate Inv(s: Sys) {
    && MergesOwnTheSlot(s) && OneMergeAtMost(s) && InspectionsOwnTheSlot(s) && WritersExclude(s)
    && UploadIsSaved(s) && UploadIsNotDoomed(s) && UploadIsKept(s) && SweepsSpare(s) && IdsAreUsed(s)
  }

  // Section by section.

  /** Steps that leave slot, files and goroutines alone. */
  predicate OnTheBus(a: Step) {
    a.Tick? || a.Admit? || a.StartMigration? || a.MigrationDone? || a.StartRecompute? || a.RecomputeDone?
  }

  lemma BusKeepsInv(s: Sys, a: Step)
    requires Inv(s) && Enabled(s, a) && OnTheBus(a)
    ensures Inv(Next(s, a))
  {
    hide Unix;
  }

  lemma ReserveKeepsInv(s: Sys, id: nat)
    requires Inv(s) && Enabled(s, Reserve(id))
    ensures Inv(Next(s, Reserve(id)))
  {
    hide Unix;
  }

  lemma SaveKeepsInv(s: Sys, id: nat)
    requires Inv(s) && Enabled(s, Save(id))
    ensures Inv(Next(s, Save(id)))
  {
    hide Unix;
  }

  lemma CompleteUploadKeepsInv(s: Sys, id: nat)
    requires Inv(s) && Enabled(s, CompleteUpload(id))
    ensures Inv(Next(s, CompleteUpload(id)))
  {
    hide Unix;
  }

  lemma InspectionDoneKeepsInv(s: Sys, id: nat, outcome: Outcome)
    requires Inv(s) && Enabled(s, InspectionDone(id, outcome))
    ensures Inv(Next(s, InspectionDone(id, outcome)))
  {
    hide Unix;
  }

  lemma ReportKeepsInv(s: Sys, id: nat, phase: Phase)
    requires Inv(s) && Enabled(s, Report(id, phase))
    ensures Inv(Next(s, Report(id, phase)))
  {
    hide Unix;
  }

  lemma StartKeepsInv(s: Sys, id: nat)
    requires Inv(s) && Enabled(s, StartImport(id))
    ensures Inv(Next(s, StartImport(id)))
  {
    hide Unix;
    assert Startable(s.job, id) ==> s.merges[id] == 0 && id !in s.inspections;
  }

  lemma MergeDoneKeepsInv(s: Sys, id: nat, outcome: Outcome)
    requires Inv(s) && Enabled(s, MergeDone(id, outcome))
    ensures Inv(Next(s, MergeDone(id, outcome)))
  {
    hide Unix;
    assert Holds(s.job, id) && s.merges[id] == 1;
  }

  lemma AbortKeepsInv(s: Sys, id: nat)
    requires Inv(s) && Enabled(s, Abort(id))
    ensures Inv(Next(s, Abort(id)))
  {
    hide Unix;
  }

  lemma RemoveDoomedKeepsInv(s: Sys, id: nat)
    requires Inv(s) && Enabled(s, RemoveDoomed(id))
    ensures Inv(Next(s, RemoveDoomed(id)))
  {
    hide Unix;
  }

  lemma SweepLockKeepsInv(s: Sys, now: int)
    requires Inv(s) && Enabled(s, SweepLock(now))
    ensures Inv(Next(s, SweepLock(now)))
  {
    hide Unix, SweepsAway;
    if s.job.Some? {
      OnlyIdleIsSwept(s.job.value, now);
    }
  }

  lemma OnlyIdleIsSwept(j: Job, now: int)
    ensures SweepsAway(j, now) ==> !j.active && j.state != Importing
  {
    hide Unix;
  }

  lemma SweepFileKeepsInv(s: Sys, sweep: Sweep, id: nat)
    requires Inv(s) && Enabled(s, SweepFile(sweep, id))
    ensures Inv(Next(s, SweepFile(sweep, id)))
  {
    hide Unix;
  }

  lemma StepKeepsInv(s: Sys, a: Step)
    requires Inv(s) && Enabled(s, a)
    ensures Inv(Next(s, a))
  {
    hide Inv, Next, Enabled;
    match a
    case Reserve(id) => ReserveKeepsInv(s, id);
    case Save(id) => SaveKeepsInv(s, id);
    case CompleteUpload(id) => CompleteUploadKeepsInv(s, id);
    case InspectionDone(id, outcome) => InspectionDoneKeepsInv(s, id, outcome);
    case Report(id, phase) => ReportKeepsInv(s, id, phase);
    case StartImport(id) => StartKeepsInv(s, id);
    case MergeDone(id, outcome) => MergeDoneKeepsInv(s, id, outcome);
    case Abort(id) => AbortKeepsInv(s, id);
    case RemoveDoomed(id) => RemoveDoomedKeepsInv(s, id);
    case SweepLock(now) => SweepLockKeepsInv(s, now);
    case SweepFile(sweep, id) => SweepFileKeepsInv(s, sweep, id);
    case _ => BusKeepsInv(s, a);
  }

  ghost predicate Reaches(s: Sys, steps: seq<Step>, t: Sys)
    decreases |steps|
  {
    if steps == [] then s == t else Enabled(s, steps[0]) && Reaches(Next(s, steps[0]), steps[1..], t)
  }

  lemma {:induction false} RunKeepsInv(s: Sys, steps: seq<Step>, t: Sys)
    requires Inv(s) && Reaches(s, steps, t)
    ensures Inv(t)
    decreases |steps|
  {
    if steps != [] {
      StepKeepsInv(s, steps[0]);
      RunKeepsInv(Next(s, steps[0]), steps[1..], t);
    }
  }

  /** In every interleaving: no import beside a migration, one merge at most,
      and it is the merge of the job in the slot, whose upload is there. */
  lemma ImportAndMigrationExclude(now: int, steps: seq<Step>, t: Sys)
    requires Reaches(Boot(now), steps, t)
    ensures t.job.Some? && t.job.value.state == Importing ==> !t.migrating
    ensures |t.merges| <= 1
    ensures forall id :: id in t.merges ==> Holds(t.job, id) && t.job.value.state == Importing && id in t.files
  {
    RunKeepsInv(Boot(now), steps, t);
    if t.merges != multiset{} {
      var id :| id in t.merges;
      assert t.merges == multiset{t.job.value.id};
    }
  }

  /** The exit of runMerge for a job that is gone cannot be taken: the merge
      always finds its own job, and its end always shows on it. */
  lemma MergeFindsItsJob(now: int, steps: seq<Step>, t: Sys, id: nat, outcome: Outcome)
    requires Reaches(Boot(now), steps, t) && id in t.merges
    ensures var next := Next(t, MergeDone(id, outcome));
      && Holds(next.job, id) && !next.job.value.active && next.merges == multiset{}
      && next.job.value.state == match outcome case Done => Succeeded case Broken => Failed case Cancelled => Importing
  {
    RunKeepsInv(Boot(now), steps, t);
    assert t.merges == multiset{id};
  }

  /** Between them an importing job keeps its slot and its upload. */
  lemma {:induction false} ImportingKeepsSlotAndUpload(s: Sys, steps: seq<Step>, t: Sys, id: nat)
    requires Inv(s) && Reaches(s, steps, t) && id in s.merges
    requires forall k :: 0 <= k < |steps| ==> !(steps[k].MergeDone? && steps[k].id == id)
    ensures id in t.merges && Holds(t.job, id) && t.job.value.state == Importing && id in t.files
    decreases |steps|
  {
    if steps != [] {
      StepKeepsInv(s, steps[0]);
      assert id in Next(s, steps[0]).merges by {
        OnlyItsEndRemovesAMerge(s, steps[0], id);
      }
      ImportingKeepsSlotAndUpload(Next(s, steps[0]), steps[1..], t, id);
    }
  }

  lemma OnlyItsEndRemovesAMerge(s: Sys, a: Step, id: nat)
    requires id in s.merges && !(a.MergeDone? && a.id == id)
    ensures id in Next(s, a).merges
  {
  }

  // ---------- What may be imported ----------

  /** Some step is the successful end of the inspection of this upload. */
  predicate Passed(steps: seq<Step>, id: nat) {
    exists k :: 0 <= k < |steps| && steps[k] == InspectionDone(id, Done)
  }

  /** After a passed inspection the import of this upload was started. */
  predicate StartedAfterPassing(steps: seq<Step>, id: nat) {
    exists j :: 0 <= j < |steps| && steps[j] == StartImport(id) && Passed(steps[..j], id)
  }

  /** A job that may be started, is being imported, or was. */
  predicate GoesOn(job: Option<Job>) {
    job.Some? && (job.value.state == Ready || job.value.state == Importing || job.value.state == Succeeded || job.value.retryable)
  }

  /** Such a job has passed its inspection. */
  predicate OnlyPassedGoesOn(s: Sys, before: seq<Step>) {
    && (GoesOn(s.job) ==> Passed(before, s.job.value.id))
    && (forall id :: id in s.merges ==> StartedAfterPassing(before, id))
  }

  lemma PassedStays(before: seq<Step>, a: Step)
    ensures forall id :: Passed(before, id) ==> Passed(before + [a], id)
    ensures forall id :: StartedAfterPassing(before, id) ==> StartedAfterPassing(before + [a], id)
  {
    var all := before + [a];
    forall id | Passed(before, id) ensures Passed(all, id) {
      var k :| 0 <= k < |before| && before[k] == InspectionDone(id, Done);
      assert all[k] == before[k];
    }
    forall id | StartedAfterPassing(before, id) ensures StartedAfterPassing(all, id) {
      var j :| 0 <= j < |before| && before[j] == StartImport(id) && Passed(before[..j], id);
      assert all[j] == before[j] && all[..j] == before[..j];
    }
  }

  lemma GoesOnFrom(s: Sys, a: Step)
    ensures var next := Next(s, a).job;
      GoesOn(next) ==>
        || (GoesOn(s.job) && s.job.value.id == next.value.id)
        || (a == InspectionDone(next.value.id, Done))
        || (a.MergeDone? && a.id == next.value.id)
  {
    hide SweepsAway, Unix, Occupied;
  }

  lemma MergesFrom(s: Sys, a: Step, id: nat)
    ensures id in Next(s, a).merges ==> id in s.merges || (a == StartImport(id) && GoesOn(s.job) && s.job.value.id == id)
  {
    hide SweepsAway, Unix, Occupied;
  }

  lemma StepLetsOnlyPassedGoOn(s: Sys, a: Step, before: seq<Step>)
    requires Enabled(s, a) && OnlyPassedGoesOn(s, before)
    ensures OnlyPassedGoesOn(Next(s, a), before + [a])
  {
    hide Passed, StartedAfterPassing, Next;
    PassedStays(before, a);
    GoesOnFrom(s, a);
    if a.InspectionDone? && a.outcome == Done {
      JustPassed(before, a);
    }
    if a.MergeDone? {
      StartedHasPassed(before, a.id);
    }
    forall id | id in Next(s, a).merges ensures StartedAfterPassing(before + [a], id) {
      MergesFrom(s, a, id);
      if id !in s.merges {
        JustStarted(before, a);
      }
    }
  }

  lemma StartedHasPassed(before: seq<Step>, id: nat)
    requires StartedAfterPassing(before, id)
    ensures Passed(before, id)
  {
    var j :| 0 <= j < |before| && before[j] == StartImport(id) && Passed(before[..j], id);
    var k :| 0 <= k < j && before[..j][k] == InspectionDone(id, Done);
    assert before[k] == before[..j][k];
  }

  lemma JustPassed(before: seq<Step>, a: Step)
    requires a.InspectionDone? && a.outcome == Done
    ensures Passed(before + [a], a.id)
  {
    assert (before + [a])[|before|] == a;
  }

  lemma JustStarted(before: seq<Step>, a: Step)
    requires a.StartImport? && Passed(before, a.id)
    ensures StartedAfterPassing(before + [a], a.id)
  {
    assert (before + [a])[|before|] == a && (before + [a])[..|before|] == before;
  }

  lemma {:induction false} RunLetsOnlyPassedGoOn(s: Sys, before: seq<Step>, steps: seq<Step>, t: Sys)
    requires OnlyPassedGoesOn(s, before) && Reaches(s, steps, t)
    ensures OnlyPassedGoesOn(t, before + steps)
    decreases |steps|
  {
    hide OnlyPassedGoesOn, Next, Enabled;
    if steps == [] {
      assert before + steps == before;
    } else {
      StepLetsOnlyPassedGoOn(s, steps[0], before);
      RunLetsOnlyPassedGoOn(Next(s, steps[0]), before + [steps[0]], steps[1..], t);
      assert before + [steps[0]] + steps[1..] == before + steps;
    }
  }

  /** In every interleaving: an upload is merged only if its inspection ended well
      and it was started after that. */
  lemma MergedWasInspected(now: int, steps: seq<Step>, t: Sys, id: nat)
    requires Reaches(Boot(now), steps, t) && id in t.merges
    ensures StartedAfterPassing(steps, id)
  {
    RunLetsOnlyPassedGoOn(Boot(now), [], steps, t);
    assert [] + steps == steps;
  }

  /** A rejected or cancelled upload cannot be started. */
  lemma RejectedIsNotStarted(s: Sys, id: nat, outcome: Outcome)
    requires Inv(s) && Enabled(s, InspectionDone(id, outcome)) && outcome != Done
    ensures var t := Next(s, InspectionDone(id, outcome));
      Next(t, StartImport(id)) == t && (Holds(t.job, id) && outcome == Broken ==> t.job.value.state == Failed && !Occupied(t.job))
  {
  }

  /** After an inspection that ended well a start beside no migration runs the merge. */
  lemma PassedIsStarted(s: Sys, id: nat)
    requires Inv(s) && Enabled(s, InspectionDone(id, Done)) && Holds(s.job, id) && !s.migrating
    ensures var t := Next(Next(s, InspectionDone(id, Done)), StartImport(id));
      t.merges == s.merges + multiset{id} && Holds(t.job, id) && t.job.value.state == Importing
  {
  }

  /** A merge that failed may be started again; one that succeeded may not. */
  lemma OnlyFailedMergesAreRetried(s: Sys, id: nat, outcome: Outcome)
    requires Inv(s) && Enabled(s, MergeDone(id, outcome)) && !s.migrating && outcome != Cancelled
    ensures var ended := Next(s, MergeDone(id, outcome));
      var t := Next(ended, StartImport(id));
      && Holds(ended.job, id) && !Occupied(ended.job)
      && (if outcome == Broken then t.merges == s.merges && t.job.value.state == Importing && id in t.files else t == ended && id !in t.files)
  {
    assert Holds(s.job, id) && s.merges[id] == 1;
    assert s.merges - multiset{id} + multiset{id} == s.merges;
  }

  /** The end of an inspection or a merge leaves its job idle and, unless it was
      cancelled, counts its deadline from now; only a merge that failed may be retried. */
  lemma EndedJobsAreIdle(s: Sys, a: Step)
    requires Inv(s) && Enabled(s, a) && (a.InspectionDone? || a.MergeDone?) && Holds(s.job, a.id)
    ensures var j := Next(s, a).job;
      && j.Some? && j.value.id == a.id && !j.value.active && j.value.created == s.job.value.created
      && j.value.updated == (if a.outcome == Cancelled then s.job.value.updated else Unix(s.clock))
      && (a.MergeDone? && a.outcome != Cancelled ==> (j.value.retryable <==> a.outcome == Broken))
  {
    hide Unix;
  }

  /** A sweep empties the slot exactly for a job on which nothing runs: an upload half
      an hour after its reservation, a failure an hour and an inspected upload a day
      after its last change. The file goes with it. */
  lemma SweepEmptiesExactly(s: Sys, now: int)
    requires Enabled(s, SweepLock(now)) && s.job.Some?
    ensures var j, t := s.job.value, Next(s, SweepLock(now));
      var gone := !j.active && (
        || (j.state == Inspecting && j.phase == Uploading && now >= (j.created + 30 * 60) * 1_000_000_000)
        || (j.state == Failed && now >= (j.updated + 60 * 60) * 1_000_000_000)
        || (j.state == Ready && now >= (j.updated + 24 * 60 * 60) * 1_000_000_000));
      t.job == (if gone then None else s.job) && t.doomed == if gone then s.doomed + {j.id} else s.doomed
  {
    UnixReaches(now, s.job.value.created + 1800);
    UnixReaches(now, s.job.value.updated + 3600);
    UnixReaches(now, s.job.value.updated + 86400);
    hide Unix;
  }

  lemma UnixReaches(now: int, seconds: int)
    ensures Unix(now) >= seconds <==> now >= seconds * 1_000_000_000
  {
  }

  /** The file scan of a sweep removes an upload exactly if it is a day old and is not
      the one spared. */
  lemma ScanRemovesExactly(s: Sys, sweep: Sweep, id: nat)
    requires id in s.files
    ensures id !in Next(s, SweepFile(sweep, id)).files <==>
      sweep.current != Some(id) && sweep.now - s.files[id] >= 24 * 60 * 60 * 1_000_000_000
  {
  }

  // ---------- Where recompute stands ----------

  predicate Overlaps(s: Sys) {
    s.recomputing && (s.migrating || (s.job.Some? && s.job.value.state == Importing))
  }

  /** Recompute looks at both other writers; neither looks at recompute. So an
      overlap begins exactly when one of them starts while it runs. */
  lemma OverlapBegins(s: Sys, a: Step)
    requires Inv(s) && Enabled(s, a) && !Overlaps(s)
    ensures Overlaps(Next(s, a)) <==>
      s.recomputing && ((a.StartImport? && !s.migrating && Startable(s.job, a.id)) || (a.StartMigration? && !Occupied(s.job)))
  {
    hide SweepsAway, Unix;
  }

  lemma Prepend(s: Sys, a: Step, next: Sys, steps: seq<Step>, t: Sys)
    requires Enabled(s, a) && Next(s, a) == next && Reaches(next, steps, t)
    ensures Reaches(s, [a] + steps, t)
  {
    assert ([a] + steps)[1..] == steps;
  }

  /** An upload that is saved. */
  function SavedBy(s: Sys, id: nat): Sys {
    s.(job := Some(Job(id, Inspecting, Uploading, Unix(s.clock), Unix(s.clock), false, false)), used := s.used + {id},
       files := s.files[id := s.clock], written := s.written + {id})
  }

  function ImportedBy(s: Sys, id: nat): Sys
    requires s.job.Some?
  {
    s.(job := Some(s.job.value.(state := Importing, phase := ImportPhase, updated := Unix(s.clock), active := true)),
       inspections := s.inspections + {id} - {id}, merges := s.merges + multiset{id})
  }

  lemma UploadIsSavedIn(s: Sys, id: nat)
    requires s.job.None? && s.admitted > 0 && id !in s.used && id !in s.written
    ensures Reaches(s, [Reserve(id), Save(id)], SavedBy(s, id))
  {
    hide Unix;
    var s1 := s.(job := SavedBy(s, id).job, used := s.used + {id});
    Prepend(s1, Save(id), SavedBy(s, id), [], SavedBy(s, id));
    Prepend(s, Reserve(id), s1, [Save(id)], SavedBy(s, id));
  }

  lemma SavedIsImported(s: Sys, id: nat)
    requires AwaitsUpload(s.job, id) && !s.job.value.retryable && id in s.written && !s.migrating
    ensures Reaches(s, [CompleteUpload(id), InspectionDone(id, Done), StartImport(id)], ImportedBy(s, id))
  {
    hide Unix;
    var j, now := s.job.value, Unix(s.clock);
    var s1 := s.(job := Some(j.(phase := InspectPhase, updated := now, active := true)), inspections := s.inspections + {id});
    var s2 := s1.(job := Some(j.(state := Ready, phase := Preview, updated := now, active := false)), inspections := s.inspections + {id} - {id});
    Prepend(s2, StartImport(id), ImportedBy(s, id), [], ImportedBy(s, id));
    Prepend(s1, InspectionDone(id, Done), s2, [StartImport(id)], ImportedBy(s, id));
    Prepend(s, CompleteUpload(id), s1, [InspectionDone(id, Done), StartImport(id)], ImportedBy(s, id));
  }

  /** From a free slot an upload that meets no trouble becomes an import,
      whatever recompute is doing. */
  lemma RecomputeAndImportCanOverlap(now: int)
    ensures exists steps, t :: Reaches(Boot(now), steps, t) && Overlaps(t)
  {
    hide Unix, Next;
    var s := Boot(now).(recomputing := true, admitted := 1);
    RecomputeThenUpload(now);
    UploadIsSavedIn(s, 0);
    SavedIsImported(SavedBy(s, 0), 0);
    var t := ImportedBy(SavedBy(s, 0), 0);
    ReachesFurther(s, [Reserve(0), Save(0)], SavedBy(s, 0), [CompleteUpload(0), InspectionDone(0, Done), StartImport(0)], t);
    ReachesFurther(Boot(now), [StartRecompute, Admit], s, [Reserve(0), Save(0)] + [CompleteUpload(0), InspectionDone(0, Done), StartImport(0)], t);
    assert Overlaps(t);
  }

  lemma RecomputeThenUpload(now: int)
    ensures Reaches(Boot(now), [StartRecompute, Admit], Boot(now).(recomputing := true, admitted := 1))
  {
    var s1 := Boot(now).(recomputing := true);
    Prepend(s1, Admit, s1.(admitted := 1), [], s1.(admitted := 1));
    Prepend(Boot(now), StartRecompute, s1, [Admit], s1.(admitted := 1));
  }

  // ---------- Where inspections stand ----------

  predicate Meets(s: Sys) {
    s.migrating && s.inspections != {}
  }

  /** The gate of an upload looks before it reserves, and a delete frees the slot
      before the inspection it cancels has ended. An inspection and a migration
      begin to meet in exactly these two ways: an upload completes while a
      migration runs, or a migration starts while an inspection without a slot
      still reads. */
  lemma MeetingBegins(s: Sys, a: Step)
    requires Inv(s) && Enabled(s, a) && !Meets(s)
    ensures Meets(Next(s, a)) <==>
      (a.CompleteUpload? && s.migrating && AwaitsUpload(s.job, a.id)) || (a.StartMigration? && s.inspections != {} && !Occupied(s.job))
  {
    hide SweepsAway, Unix;
    if a.CompleteUpload? && AwaitsUpload(s.job, a.id) {
      assert a.id in Next(s, a).inspections;
    }
  }

  /** The first way: the migration starts between the gate and the reservation. */
  lemma InspectionCanMeetMigration(now: int)
    ensures exists t: Sys :: Reaches(Boot(now), [Admit, StartMigration] + [Reserve(0), Save(0), CompleteUpload(0)], t) && Meets(t)
  {
    hide Unix, Next;
    var s := Boot(now).(admitted := 1, migrating := true);
    GateThenMigration(now);
    UploadIsSavedIn(s, 0);
    var m := SavedBy(s, 0);
    var t := m.(job := Some(m.job.value.(phase := InspectPhase, active := true)), inspections := m.inspections + {0});
    SavedIsRead(m, 0, t);
    ReachesFurther(s, [Reserve(0), Save(0)], m, [CompleteUpload(0)], t);
    assert [Reserve(0), Save(0)] + [CompleteUpload(0)] == [Reserve(0), Save(0), CompleteUpload(0)];
    ReachesFurther(Boot(now), [Admit, StartMigration], s, [Reserve(0), Save(0), CompleteUpload(0)], t);
    assert 0 in t.inspections;
  }

  lemma SavedIsRead(s: Sys, id: nat, t: Sys)
    requires AwaitsUpload(s.job, id) && id in s.written && s.job.value.updated == Unix(s.clock)
    requires t == s.(job := Some(s.job.value.(phase := InspectPhase, active := true)), inspections := s.inspections + {id})
    ensures Reaches(s, [CompleteUpload(id)], t)
  {
    hide Unix;
    Prepend(s, CompleteUpload(id), t, [], t);
  }

  lemma GateThenMigration(now: int)
    ensures Reaches(Boot(now), [Admit, StartMigration], Boot(now).(admitted := 1, migrating := true))
  {
    var s1 := Boot(now).(admitted := 1);
    Prepend(s1, StartMigration, s1.(migrating := true), [], s1.(migrating := true));
    Prepend(Boot(now), Admit, s1, [StartMigration], s1.(migrating := true));
  }

  lemma {:induction false} ReachesFurther(s: Sys, first: seq<Step>, m: Sys, rest: seq<Step>, t: Sys)
    requires Reaches(s, first, m) && Reaches(m, rest, t)
    ensures Reaches(s, first + rest, t)
    decreases |first|
  {
    hide Next, Enabled;
    if first == [] {
      assert first + rest == rest;
    } else {
      assert (first + rest)[1..] == first[1..] + rest;
      ReachesFurther(Next(s, first[0]), first[1..], m, rest, t);
    }
  }

  const UPLOAD := [Admit, Reserve(0), Save(0), CompleteUpload(0)]

  /** A fresh server whose first upload is being inspected. */
  function Reading(now: int): Sys {
    Boot(now).(admitted := 1, job := Some(Job(0, Inspecting, InspectPhase, Unix(now), Unix(now), false, true)), used := {0},
               files := map[0 := now], written := {0}, inspections := {0})
  }

  lemma UploadIsRead(now: int)
    ensures Reaches(Boot(now), UPLOAD, Reading(now))
  {
    hide Unix, Next;
    var s := Boot(now).(admitted := 1);
    var m := SavedBy(s, 0);
    assert s.used + {0} == {0} && s.written + {0} == {0} && m.inspections + {0} == {0};
    GateOpens(now);
    UploadIsSavedIn(s, 0);
    SavedIsRead(m, 0, Reading(now));
    ReachesFurther(s, [Reserve(0), Save(0)], m, [CompleteUpload(0)], Reading(now));
    ReachesFurther(Boot(now), [Admit], s, [Reserve(0), Save(0)] + [CompleteUpload(0)], Reading(now));
    assert [Admit] + ([Reserve(0), Save(0)] + [CompleteUpload(0)]) == UPLOAD;
  }

  lemma GateOpens(now: int)
    ensures Reaches(Boot(now), [Admit], Boot(now).(admitted := 1))
  {
    Prepend(Boot(now), Admit, Boot(now).(admitted := 1), [], Boot(now).(admitted := 1));
  }

  /** The second way needs no race at the gate: the job under inspection is
      deleted, and the slot is free for the migration. */
  lemma DeletedInspectionCanMeetMigration(now: int)
    ensures exists t: Sys :: Reaches(Boot(now), UPLOAD + [Abort(0), StartMigration], t) && Meets(t)
  {
    hide Unix;
    UploadIsRead(now);
    var freed := Reading(now).(job := None, doomed := {0});
    var t := freed.(migrating := true);
    Prepend(freed, StartMigration, t, [], t);
    Prepend(Reading(now), Abort(0), freed, [StartMigration], t);
    ReachesFurther(Boot(now), UPLOAD, Reading(now), [Abort(0), StartMigration], t);
    assert 0 in t.inspections;
  }
}
