/** The running database with all that its steps owe to each other: what a flush, a compaction and a
    move may do, which snapshots are live, and the updates made so far (db/db_impl.cc,
    db/version_set.cc). */
module StoreHistory {
  import opened DbFormat
  import opened Versions
  import opened Builders
  import opened CompactionInputs
  import opened Compactions
  import opened CompactionReads
  import opened CompactionInstall
  import opened Flushes
  import opened FlushesMeanwhile
  import opened Databases
  import opened Recovery
  import opened StoreSteps
  import opened StoreInvariant
  import opened StoreContents

  /** What a running compaction remembers: the version its inputs come from, the oldest snapshot when it
      began, and, for the proof, the files flushed since. */
  datatype Job = NoJob | Job(base: Version, oldest: nat, added: set<Placed>)

  /** The database: its files and memory, the live snapshots, the compaction under way, every update that
      has reached a log, and how many batches of each log have been forced to the disk. For the proof: the
      tables hold what is left of the first `saved` updates, and the immutable memtable goes up to the
      `immEnd`-th. */
  datatype Store = Store(state: State, snapshots: seq<nat>, job: Job, history: seq<Option<Op>>, saved: nat, immEnd: nat, synced: map<nat, nat>)

  /** A write with the sync option forces the current log to the disk, up to and with its own batch. */
  datatype Action = Internal(step: Step) | TakeSnapshot | ReleaseSnapshot(i: nat) | Sync

  /** The oldest sequence number that can still be read. */
  function Oldest(x: Store): nat {
    if x.snapshots == [] then x.state.lastSequence else x.snapshots[0]
  }

  /** The table of a memtable, at a level that PickLevelForMemTableOutput allows. */
  ghost predicate PlacedWell(v: Version, f: File, level: nat) {
    && f.table != [] && SortedTable(f.table) && f.smallest == f.table[0].key && f.largest == f.table[|f.table| - 1].key
    && (level > 0 ==> forall l :: 0 <= l <= level && l < |v.files| ==> NoOverlap(v.files[l], KeyRange(f)))
  }

  /** The outputs are what the loop of DoCompactionWork leaves of the merged inputs. */
  ghost predicate WorkDone(job: Job, work: Work)
    requires job.Job? && work.Working?
  {
    && GoodOutputs(work.outputs)
    && exists input :: Merged(input, work.upper + work.lower)
                       && Contents(work.outputs) == Kept(job.base, work.level, input, |input|, job.oldest)
  }

  /** No deletion that the loop drops uncovers a value in a left-out file of the lower level, as far as
      the entries in `es` go. */
  ghost predicate Harmless(job: Job, work: Work, es: set<Entry>)
    requires job.Job? && work.Working?
  {
    && work.level + 1 < |job.base.files|
    && forall input :: Merged(input, work.upper + work.lower) ==>
         NothingUncovered(job.base, work.level, input, job.oldest, es, LeftOut(job.base.files[work.level + 1], work.lower))
  }

  /** What a step owes to the rest of the database. A compaction installs its results only if that
      uncovers no deleted value and no memtable was flushed into the range of an output; the code
      ensures neither in all cases, and both are exact (StepsKeepHistory.InstallIsExact). */
  ghost predicate Owed(x: Store, step: Step) {
    match step
    case LogBatch(b) => |x.history| + |b.ops| < MAX_SEQUENCE && PlainOps(b.ops)
    case FinishFlush(f, level) => PlacedWell(x.state.version, f, level)
    case StartCompaction(level, upper, lower) =>
      && |x.state.version.files| == NUM_LEVELS && level + 1 < NUM_LEVELS
      && Chosen(x.state.version, level, upper, lower)
    case BeginCompactionEdit(next) =>
      && x.job.Job? && x.state.work.Working? && WorkDone(x.job, x.state.work)
      && NoneBetween(x.job.added, x.state.work.level, x.state.work.outputs)
      && Harmless(x.job, x.state.work, Entries(x.state.version))
    case BeginMove(level, f, next) =>
      && |x.state.version.files| == NUM_LEVELS && level + 1 < NUM_LEVELS && Chosen(x.state.version, level, [f], [])
    case _ => true
  }

  function NextJob(x: Store, step: Step): Job {
    match step
    case StartCompaction(level, upper, lower) => Job(x.state.version, Oldest(x), {})
    case Install =>
      if x.job.Job? && AheadOf(x.state, OfFlush) && x.state.flush.Built? && x.state.flush.file.Some? then
        x.job.(added := x.job.added + {Placed(x.state.flush.level, x.state.flush.file.value)})
      else x.job
    case _ => x.job
  }

  ghost predicate Does(x: Store, action: Action, y: Store) {
    match action
    case Internal(step) =>
      && Next(x.state, step, y.state) && Owed(x, step)
      && y == Store(y.state, x.snapshots, NextJob(x, step), x.history + if step.LogBatch? then Made(step.batch.ops) else [],
                    if step.Install? && AheadOf(x.state, OfFlush) then x.immEnd else x.saved,
                    if step.SwitchLog? then x.state.lastSequence else x.immEnd, x.synced)
    case TakeSnapshot =>
      y == x.(snapshots := x.snapshots + [x.state.lastSequence])
    case ReleaseSnapshot(i) =>
      i < |x.snapshots| && y == x.(snapshots := x.snapshots[..i] + x.snapshots[i + 1..])
    case Sync =>
      && x.state.writer.Logged? && x.state.logfileNumber in x.state.disk.logs
      && y == x.(synced := x.synced[x.state.logfileNumber := |x.state.disk.logs[x.state.logfileNumber]|])
  }

  // ---------------------------------------------------------------- the invariant

  /** What lies above the version in memory, and above the one that is being installed. */
  ghost function Unsaved(s: State): set<Entry> {
    ImmSet(s) + (s.mem + InFlight(s))
  }

  ghost function UnsavedNext(s: State): set<Entry>
    requires s.applying.Apply?
  {
    if s.applying.kind.OfFlush? then s.mem + InFlight(s) else Unsaved(s)
  }

  ghost predicate FlushPlaced(v: Version, flush: Flush) {
    match flush
    case NoFlush => true
    case Building(n) => NumbersBelow(v, n)
    case Built(file, level) => file.Some? ==> FreshFile(v, file.value, level)
  }

  ghost predicate JobFits(job: Job, work: Work, v: Version, oldest: nat)
    requires work.Working?
  {
    && job.Job? && job.oldest <= oldest
    && ValidVersion(job.base) && Grown(job.base, job.added, v) && AllFlushedOnto(job.base, job.added)
    && work.level + 1 < NUM_LEVELS && Chosen(job.base, work.level, work.upper, work.lower)
  }

  ghost predicate JobOk(x: Store) {
    x.state.work.Working? && !AheadOf(x.state, OfCompaction) ==> JobFits(x.job, x.state.work, x.state.version, Oldest(x))
  }

  ghost predicate HistoryOk(x: Store) {
    && |x.history| == DurableSequence(x.state) && |x.history| < MAX_SEQUENCE
    && SnapshotsOk(x.snapshots, x.state.lastSequence)
  }

  function Lesser(a: nat, b: nat): nat {
    if a <= b then a else b
  }

  /** How new the tables of the version on its way can be, and those of the version in the manifest. */
  function SavedNext(x: Store): nat
    requires x.state.applying.Apply?
  {
    if x.state.applying.kind.OfFlush? then x.immEnd else x.saved
  }

  function SavedDurable(x: Store): nat {
    if Ahead(x.state) then SavedNext(x) else x.saved
  }

  /** Reads are promised from the oldest live snapshot on, and from all that is in the tables on, which
      comes to matter when a crash takes the rest. */
  function Floor(x: Store): nat {
    Lesser(Oldest(x), x.saved)
  }

  function FloorNext(x: Store): nat
    requires x.state.applying.Apply?
  {
    Lesser(Oldest(x), SavedNext(x))
  }

  /** The tables go up to where the bookkeeping says, and the manifest knows as many sequence numbers. */
  ghost predicate SavedOk(x: Store) {
    && UpTo(Entries(x.state.version), x.saved)
    && x.saved <= x.state.lastSequence && x.immEnd <= x.state.lastSequence && (x.state.imm.Some? ==> x.saved <= x.immEnd)
    && (x.state.applying.Apply? ==>
          && UpTo(Entries(x.state.applying.next), SavedNext(x)) && (x.state.applying.kind.OfFlush? ==> x.state.imm.Some?)
          && x.state.applying.record.lastSequence.Some? && SavedNext(x) <= x.state.applying.record.lastSequence.value)
    && LastSequenceOf(x.state.disk.manifest).Some? && SavedDurable(x) <= LastSequenceOf(x.state.disk.manifest).value
  }

  /** The first update that the memtable may hold comes behind this many. */
  function MemFrom(x: Store): nat {
    if x.state.imm.Some? then x.immEnd else x.saved
  }

  /** The memtables hold all updates behind those in the tables, the immutable one the earlier ones. */
  ghost predicate MemoryOk(x: Store) {
    && HoldsFrom(Unsaved(x.state), x.history, x.saved)
    && HoldsFrom(x.state.mem + InFlight(x.state), x.history, MemFrom(x))
    && UpTo(ImmSet(x.state), x.immEnd)
  }

  /** Both versions, the one in memory and the one on its way, hold what the updates have left. */
  ghost predicate BothGood(x: Store) {
    && Good(x.state.version, Unsaved(x.state), x.history, Floor(x))
    && (x.state.applying.Apply? ==> Good(x.state.applying.next, UnsavedNext(x.state), x.history, FloorNext(x)))
    && NewerSet(x.state.mem + InFlight(x.state), ImmSet(x.state))
  }

  ghost predicate StoreInv(x: Store) {
    && Inv(x.state) && HistoryOk(x) && SavedOk(x) && MemoryOk(x) && BothGood(x)
    && FlushPlaced(x.state.version, x.state.flush) && JobOk(x)
  }

  // ---------------------------------------------------------------- what the invariant is for

  lemma OldestIsPast(x: Store)
    requires HistoryOk(x)
    ensures Oldest(x) <= x.state.lastSequence <= |x.history|
  {
  }

  /** What is on the disk is good, whatever step the database is at. */
  lemma DurableIsGood(x: Store)
    requires StoreInv(x)
    ensures Good(DurableVersion(x.state), Unflushed(x.state), x.history, Lesser(Oldest(x), SavedDurable(x)))
    ensures UpTo(Entries(DurableVersion(x.state)), SavedDurable(x)) && SavedDurable(x) <= |x.history|
    ensures HoldsFrom(Unflushed(x.state), x.history, SavedDurable(x))
  {
    hide Inv, Good, JobOk, FlushPlaced, UpTo, Entries, HoldsFrom;
    OldestIsPast(x);
    var s := x.state;
    if Ahead(s) {
      assert Unflushed(s) == UnsavedNext(s);
    } else {
      assert Unflushed(s) == Unsaved(s);
    }
  }
}
