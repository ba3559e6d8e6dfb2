/** The steps by which the database changes its files and its memory, in any interleaving of the
    writer at the head of the queue with the background thread (Write, MakeRoomForWrite,
    CompactMemTable, WriteLevel0Table, DoCompactionWork and DeleteObsoleteFiles of db/db_impl.cc,
    LogAndApply of db/version_set.cc). Which files a compaction takes and what it writes, and at which
    level a flush ends, is left open here; StoreHistory restricts it to what the code does. */
module StoreSteps {
  import opened DbFormat
  import opened Versions
  import opened Builders
  import opened Databases
  import opened Recovery

  /** The writer: appends a batch to the log, then puts it into the memtable, then publishes it; or
      creates a log and switches to a new memtable. */
  datatype Writer = Idle | Creating(number: nat) | Logged(batch: Batch) | Applied(batch: Batch)

  /** The flush of the immutable memtable. `file` is None if it was empty. */
  datatype Flush = NoFlush | Building(number: nat) | Built(file: Option<File>, level: nat)

  /** A compaction under way: its inputs, the outputs so far and the number of the one being written. */
  datatype Work = NoWork | Working(level: nat, upper: seq<File>, lower: seq<File>, outputs: seq<File>, current: Option<nat>)
                | Cleaning(numbers: set<nat>)

  datatype Kind = OfFlush | OfCompaction | OfMove(level: nat, file: File)

  /** LogAndApply: the record and the version are made, the record is written, the version is installed. */
  datatype Applying = NotApplying | Apply(kind: Kind, record: Record, next: Version, appended: bool)

  datatype State = State(
    disk: Disk,
    mem: set<Entry>, imm: Option<set<Entry>>, version: Version,
    logNumber: nat, logfileNumber: nat, nextFile: nat, lastSequence: nat,
    pending: set<nat>,
    writer: Writer, flush: Flush, work: Work, applying: Applying,
    failed: bool)

  ghost function ImmSet(s: State): set<Entry> {
    if s.imm.Some? then s.imm.value else {}
  }

  /** What is in the log but not yet in the memtable. */
  ghost function InFlight(s: State): set<Entry> {
    if s.writer.Logged? then BatchEntries(s.writer.batch) else {}
  }

  /** The manifest is ahead of the memory: written but not yet installed. */
  predicate Ahead(s: State) {
    s.applying.Apply? && s.applying.appended
  }

  predicate AheadOf(s: State, kind: Kind) {
    Ahead(s) && s.applying.kind == kind
  }

  function DurableVersion(s: State): Version {
    if Ahead(s) then s.applying.next else s.version
  }

  function DurableLog(s: State): nat {
    if Ahead(s) && s.applying.record.logNumber.Some? then s.applying.record.logNumber.value else s.logNumber
  }

  /** What must be in the logs: all of it, except the immutable memtable once its flush is in the manifest. */
  ghost function Unflushed(s: State): set<Entry> {
    s.mem + InFlight(s) + if AheadOf(s, OfFlush) then {} else ImmSet(s)
  }

  function DurableSequence(s: State): nat {
    s.lastSequence + if s.writer.Logged? || s.writer.Applied? then |s.writer.batch.ops| else 0
  }

  // ---------------------------------------------------------------- the steps

  datatype Step =
    | LogBatch(batch: Batch) | ApplyBatch | Publish | CreateLog | SwitchLog
    | StartFlush | WriteTable(number: nat, table: seq<Entry>) | FinishFlush(file: File, level: nat) | FlushNothing
    | StartCompaction(level: nat, upper: seq<File>, lower: seq<File>) | OpenOutput | FinishOutput(file: File) | Cleanup | Abandon
    | BeginFlushEdit(next: Version) | BeginCompactionEdit(next: Version) | BeginMove(level: nat, file: File, next: Version)
    | Append | Install | Fail
    | DeleteTable(number: nat) | DeleteLog(number: nat)

  function FlushEditOf(flush: Flush): VersionEdit
    requires flush.Built?
  {
    VersionEdit([], if flush.file.Some? then [(flush.level, flush.file.value)] else [])
  }

  function CompactionEditOf(level: nat, upper: seq<File>, lower: seq<File>, outputs: seq<File>): VersionEdit {
    VersionEdit(Deletions(level, upper) + Deletions(level + 1, lower), Additions(level + 1, outputs))
  }

  /** `w` is `v` with an edit applied, as LogAndApply computes it. */
  ghost predicate EditApplied(v: Version, edit: VersionEdit, w: Version) {
    |v.files| == |w.files| == NUM_LEVELS && forall l :: 0 <= l < NUM_LEVELS ==> EditedLevel(v.files[l], edit, l, w.files[l])
  }

  function RecordFor(s: State, edit: VersionEdit, logNumber: nat): Record {
    Record(edit, Some(logNumber), Some(s.nextFile), Some(s.lastSequence))
  }

  ghost predicate Live(v: Version, number: nat) {
    exists l, f :: 0 <= l < |v.files| && f in v.files[l] && f.number == number
  }

  function WithTable(s: State, number: nat, table: seq<Entry>): State {
    s.(disk := s.disk.(tables := s.disk.tables[number := table]))
  }

  function WithLog(s: State, number: nat, log: seq<Batch>): State {
    s.(disk := s.disk.(logs := s.disk.logs[number := log]))
  }

  /** The background thread is between two pieces of work that end in a new version. */
  predicate Quiet(s: State) {
    !s.failed && s.applying.NotApplying? && s.flush.NoFlush?
  }

  ghost predicate WriterStep(s: State, step: Step, t: State) {
    match step
    case LogBatch(b) =>
      && s.writer.Idle? && b.sequence == s.lastSequence + 1 && s.logfileNumber in s.disk.logs
      && t == WithLog(s, s.logfileNumber, s.disk.logs[s.logfileNumber] + [b]).(writer := Logged(b))
    case ApplyBatch =>
      s.writer.Logged? && t == s.(mem := s.mem + BatchEntries(s.writer.batch), writer := Applied(s.writer.batch))
    case Publish =>
      s.writer.Applied? && t == s.(lastSequence := s.lastSequence + |s.writer.batch.ops|, writer := Idle)
    case CreateLog =>
      && s.writer.Idle? && !s.failed && s.imm.None?
      && t == WithLog(s, s.nextFile, []).(nextFile := s.nextFile + 1, writer := Creating(s.nextFile))
    case SwitchLog =>
      s.writer.Creating? && t == s.(logfileNumber := s.writer.number, imm := Some(s.mem), mem := {}, writer := Idle)
    case _ => false
  }

  ghost predicate TableStep(s: State, step: Step, t: State) {
    match step
    case StartFlush =>
      && Quiet(s) && s.imm.Some? && !s.work.Cleaning?
      && t == s.(flush := Building(s.nextFile), pending := s.pending + {s.nextFile}, nextFile := s.nextFile + 1)
    case WriteTable(n, table) =>
      && (s.flush == Building(n) || (s.work.Working? && s.work.current == Some(n)))
      && t == WithTable(s, n, table)
    case FinishFlush(f, level) =>
      && s.flush == Building(f.number) && s.imm.Some? && Elements(f.table) == s.imm.value && level < NUM_LEVELS
      && t == WithTable(s, f.number, f.table).(flush := Built(Some(f), level), pending := s.pending - {f.number})
    case FlushNothing =>
      && s.flush.Building? && s.imm == Some({})
      && t == s.(flush := Built(None, 0), pending := s.pending - {s.flush.number},
                 disk := s.disk.(tables := s.disk.tables - {s.flush.number}))
    case StartCompaction(level, upper, lower) =>
      && Quiet(s) && s.work.NoWork? && level + 1 < |s.version.files|
      && (forall f :: f in upper ==> f in s.version.files[level])
      && (forall f :: f in lower ==> f in s.version.files[level + 1])
      && t == s.(work := Working(level, upper, lower, [], None))
    case OpenOutput =>
      && s.work.Working? && s.work.current.None? && s.applying.NotApplying?
      && t == s.(work := s.work.(current := Some(s.nextFile)), pending := s.pending + {s.nextFile}, nextFile := s.nextFile + 1)
    case FinishOutput(f) =>
      && s.work.Working? && s.work.current == Some(f.number)
      && t == WithTable(s, f.number, f.table).(work := s.work.(outputs := s.work.outputs + [f], current := None))
    case Cleanup =>
      s.work.Cleaning? && t == s.(work := NoWork, pending := s.pending - s.work.numbers)
    case Abandon =>
      // a compaction that fails or is cut short by a shutdown
      && s.work.Working?
      && t == s.(work := NoWork, failed := true, pending := s.pending - OutputNumbers(s.work),
                 applying := if s.applying.Apply? && s.applying.kind.OfCompaction? && !s.applying.appended then NotApplying else s.applying)
    case _ => false
  }

  ghost function OutputNumbers(work: Work): set<nat> {
    if work.Working? then Numbers(FileSet(work.outputs)) + (if work.current.Some? then {work.current.value} else {}) else {}
  }

  ghost predicate EditStep(s: State, step: Step, t: State) {
    match step
    case BeginFlushEdit(next) =>
      && !s.failed && s.applying.NotApplying? && s.flush.Built? && EditApplied(s.version, FlushEditOf(s.flush), next)
      && t == s.(applying := Apply(OfFlush, RecordFor(s, FlushEditOf(s.flush), s.logfileNumber), next, false))
    case BeginCompactionEdit(next) =>
      && Quiet(s) && s.work.Working? && s.work.current.None?
      && var edit := CompactionEditOf(s.work.level, s.work.upper, s.work.lower, s.work.outputs);
      && EditApplied(s.version, edit, next)
      && t == s.(applying := Apply(OfCompaction, RecordFor(s, edit, s.logNumber), next, false))
    case BeginMove(level, f, next) =>
      && Quiet(s) && s.work.NoWork? && level + 1 < |s.version.files| && f in s.version.files[level]
      && var edit := CompactionEditOf(level, [f], [], [f]);
      && EditApplied(s.version, edit, next)
      && t == s.(applying := Apply(OfMove(level, f), RecordFor(s, edit, s.logNumber), next, false))
    case Append =>
      && s.applying.Apply? && !s.applying.appended && !s.failed
      && t == s.(disk := s.disk.(manifest := s.disk.manifest + [s.applying.record]), applying := s.applying.(appended := true))
    case Install =>
      && Ahead(s) && !s.failed
      && t == s.(version := s.applying.next, logNumber := DurableLog(s), applying := NotApplying,
                 imm := if s.applying.kind.OfFlush? then None else s.imm,
                 flush := if s.applying.kind.OfFlush? then NoFlush else s.flush,
                 work := if s.applying.kind.OfCompaction? then Cleaning(OutputNumbers(s.work)) else s.work)
    case Fail =>
      t == s.(failed := true)
    case _ => false
  }

  /** DeleteObsoleteFiles removes a table that is neither pending nor in the version, and a log older
      than the log number. */
  ghost predicate DeleteStep(s: State, step: Step, t: State) {
    match step
    case DeleteTable(n) =>
      Quiet(s) && n !in s.pending && !Live(s.version, n) && t == s.(disk := s.disk.(tables := s.disk.tables - {n}))
    case DeleteLog(n) =>
      Quiet(s) && n < s.logNumber && t == s.(disk := s.disk.(logs := s.disk.logs - {n}))
    case _ => false
  }

  ghost predicate Next(s: State, step: Step, t: State) {
    WriterStep(s, step, t) || TableStep(s, step, t) || EditStep(s, step, t) || DeleteStep(s, step, t)
  }
}
