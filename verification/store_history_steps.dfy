/** Every step keeps what the database holds in agreement with its updates. */
module StepsKeepHistory {
  import opened DbFormat
  import opened Versions
  import opened Builders
  import opened CompactionInputs
  import opened Compactions
  import opened CompactionReads
  import opened CompactionInstall
  import opened Flushes
  import opened FlushesMeanwhile
  import opened Databases
  import opened Recovery
  import opened StoreSteps
  import opened StoreInvariant
  import opened EditsKeepInvariant
  import opened StoreContents
  import opened StoreHistory

  // ---------------------------------------------------------------- the writer

  lemma LoggedUnsaved(s: State, b: Batch, t: State)
    requires WriterStep(s, LogBatch(b), t)
    ensures Unsaved(t) == Unsaved(s) + BatchEntries(b)
    ensures t.mem + InFlight(t) == s.mem + InFlight(s) + BatchEntries(b) && ImmSet(t) == ImmSet(s)
    ensures t.applying == s.applying && (s.applying.Apply? ==> UnsavedNext(t) == UnsavedNext(s) + BatchEntries(b))
    ensures t.version == s.version && t.flush == s.flush && t.work == s.work && t.lastSequence == s.lastSequence
    ensures t.imm == s.imm && t.disk.manifest == s.disk.manifest
    ensures DurableSequence(s) == s.lastSequence && DurableSequence(t) == s.lastSequence + |b.ops| && b.sequence == s.lastSequence + 1
  {
    hide BatchEntries;
  }

  lemma FloorsLater(x: Store, y: Store)
    requires Oldest(x) <= Oldest(y) && x.saved <= y.saved && x.immEnd <= y.immEnd
    ensures Floor(x) <= Oldest(x) && Floor(x) <= Floor(y)
    ensures x.state.applying.Apply? ==> FloorNext(x) <= Oldest(x)
    ensures x.state.applying.Apply? && y.state.applying.Apply? && x.state.applying.kind == y.state.applying.kind ==> FloorNext(x) <= FloorNext(y)
    ensures x.saved == y.saved && Oldest(x) == Oldest(y) ==> Floor(x) == Floor(y)
    ensures (x.state.applying.Apply? && y.state.applying.Apply? && x.state.applying.kind == y.state.applying.kind
             && x.saved == y.saved && x.immEnd == y.immEnd && Oldest(x) == Oldest(y)) ==> FloorNext(x) == FloorNext(y)
  {
  }

  lemma LogBatchKeeps(x: Store, b: Batch, y: Store)
    requires StoreInv(x) && Does(x, Internal(LogBatch(b)), y) && WriterStep(x.state, LogBatch(b), y.state)
    ensures HistoryOk(y) && SavedOk(y) && MemoryOk(y) && BothGood(y) && FlushPlaced(y.state.version, y.state.flush) && JobOk(y)
  {
    hide Inv, Good, FlushPlaced, JobFits, NewerSet, BatchEntries, WriterStep, Unsaved, UnsavedNext, InFlight, ImmSet, SnapshotsOk, Next, DurableSequence,
         SavedOk, MemoryOk, Floor, FloorNext, SavedNext;
    LoggedUnsaved(x.state, b, y.state);
    var older := x.state.mem + InFlight(x.state);
    OldestIsPast(x);
    FloorsLater(x, y);
    GoodWithBatch(x.state.version, Unsaved(x.state), x.history, Floor(x), b);
    if x.state.applying.Apply? {
      GoodWithBatch(x.state.applying.next, UnsavedNext(x.state), x.history, FloorNext(x), b);
    }
    GoodGenuine(x.state.version, Unsaved(x.state), x.history, Floor(x));
    BatchIsNewer(Unsaved(x.state) + Entries(x.state.version), x.history, b);
    UnsavedHolds(x.state);
    NewerParts(BatchEntries(b), Unsaved(x.state) + Entries(x.state.version), BatchEntries(b), ImmSet(x.state));
    NewerBoth(older, BatchEntries(b), ImmSet(x.state));
    BookLogged(x, b, y);
  }

  lemma UnsavedHolds(s: State)
    ensures ImmSet(s) <= Unsaved(s) && s.mem <= Unsaved(s) && s.mem + InFlight(s) <= Unsaved(s)
  {
  }

  lemma GoodGenuine(v: Version, above: set<Entry>, history: seq<Option<Op>>, oldest: nat)
    requires Good(v, above, history, oldest)
    ensures Genuine(above + Entries(v), history) && ValidVersion(v) && NewerSet(above, Entries(v))
  {
  }

  /** A step that moves entries about in memory, or none. */
  lemma StaysGood(x: Store, y: Store)
    requires BothGood(x) && y.history == x.history && Oldest(x) <= Oldest(y) && x.saved <= y.saved && x.immEnd <= y.immEnd
    requires y.state.version == x.state.version && Unsaved(y.state) == Unsaved(x.state)
    requires y.state.applying.Apply? ==>
               && x.state.applying.Apply? && y.state.applying.kind == x.state.applying.kind
               && y.state.applying.next == x.state.applying.next && UnsavedNext(y.state) == UnsavedNext(x.state)
    requires NewerSet(y.state.mem + InFlight(y.state), ImmSet(y.state))
    ensures BothGood(y)
  {
    hide Good, Unsaved, UnsavedNext, NewerSet, InFlight, ImmSet, Oldest, Floor, FloorNext;
    FloorsLater(x, y);
    GoodLater(x.state.version, Unsaved(x.state), x.history, Floor(x), Floor(y));
    if y.state.applying.Apply? {
      GoodLater(x.state.applying.next, UnsavedNext(x.state), x.history, FloorNext(x), FloorNext(y));
    }
  }

  lemma JobLater(job: Job, work: Work, v: Version, o1: nat, o2: nat)
    requires work.Working? && JobFits(job, work, v, o1) && o1 <= o2
    ensures JobFits(job, work, v, o2)
  {
    hide ValidVersion, Grown, AllFlushedOnto, Chosen;
  }

  lemma JobParts(job: Job, work: Work, v: Version, oldest: nat)
    requires work.Working? && JobFits(job, work, v, oldest)
    ensures job.Job? && job.oldest <= oldest
  {
  }

  lemma OldestLater(x: Store, y: Store)
    requires y.snapshots == x.snapshots && x.state.lastSequence <= y.state.lastSequence
    ensures Oldest(x) <= Oldest(y)
  {
  }

  lemma SnapshotsLater(snapshots: seq<nat>, a: nat, b: nat)
    requires SnapshotsOk(snapshots, a) && a <= b
    ensures SnapshotsOk(snapshots, b)
  {
  }

  lemma NewerThanNothing(a: set<Entry>)
    ensures NewerSet(a, {}) && NewerSet({}, a)
  {
  }

  /** What the other steps of the writer do to memory. */
  lemma WriterMoves(s: State, step: Step, t: State)
    requires Inv(s) && WriterStep(s, step, t) && !step.LogBatch?
    ensures Unsaved(t) == Unsaved(s) && t.version == s.version && t.flush == s.flush && t.work == s.work && t.applying == s.applying
    ensures s.applying.Apply? ==> UnsavedNext(t) == UnsavedNext(s)
    ensures if step.SwitchLog? then
              && t.mem + InFlight(t) == {} && ImmSet(t) == s.mem + InFlight(s) && s.imm.None? && t.imm.Some?
              && t.lastSequence == DurableSequence(s)
            else
              t.mem + InFlight(t) == s.mem + InFlight(s) && ImmSet(t) == ImmSet(s) && (t.imm.Some? <==> s.imm.Some?)
    ensures s.lastSequence <= t.lastSequence && DurableSequence(t) == DurableSequence(s) && t.disk.manifest == s.disk.manifest
    ensures s.applying.Apply? && s.applying.kind.OfFlush? ==> s.imm.Some?
  {
    hide ManifestOk, TablesOk, LogsOk, LastOf, NumbersOk, WorkOk, Entries, BatchEntries, EditApplied, Elements, OutputNumbers,
         CompactionEditOf, FlushEditOf;
  }

  lemma WriterKeeps(x: Store, step: Step, y: Store)
    requires StoreInv(x) && Does(x, Internal(step), y) && WriterStep(x.state, step, y.state) && !step.LogBatch?
    ensures HistoryOk(y) && SavedOk(y) && MemoryOk(y) && BothGood(y) && FlushPlaced(y.state.version, y.state.flush) && JobOk(y)
  {
    hide Inv, Good, FlushPlaced, JobFits, NewerSet, BatchEntries, Unsaved, UnsavedNext, InFlight, ImmSet, SnapshotsOk, Next, DurableSequence, Oldest,
         SavedNext, MemoryOk;
    WriterMoves(x.state, step, y.state);
    SameJob(x, step);
    hide WriterStep;
    OldestLater(x, y);
    SnapshotsLater(x.snapshots, x.state.lastSequence, y.state.lastSequence);
    NewerThanNothing(ImmSet(y.state));
    StaysGood(x, y);
    BookWritten(x, step, y);
    if y.state.work.Working? && !AheadOf(y.state, OfCompaction) {
      JobLater(x.job, x.state.work, x.state.version, Oldest(x), Oldest(y));
    }
  }

  lemma SameJob(x: Store, step: Step)
    ensures !step.StartCompaction? && !step.Install? ==> NextJob(x, step) == x.job
  {
  }

  // ---------------------------------------------------------------- tables and deletions

  ghost predicate FilesStep(s: State, step: Step, t: State) {
    TableStep(s, step, t) || DeleteStep(s, step, t)
  }

  lemma FilesFrame(s: State, step: Step, t: State)
    requires FilesStep(s, step, t)
    ensures t.mem == s.mem && t.imm == s.imm && t.version == s.version && t.writer == s.writer && t.lastSequence == s.lastSequence
    ensures t.applying == s.applying || (t.applying.NotApplying? && !Ahead(s))
    ensures !step.LogBatch? && !step.Install? && !step.SwitchLog? && t.disk.manifest == s.disk.manifest
  {
    hide OutputNumbers, Elements, Live;
  }

  lemma SameMemory(s: State, t: State)
    requires t.mem == s.mem && t.imm == s.imm && t.writer == s.writer && t.lastSequence == s.lastSequence
    ensures Unsaved(t) == Unsaved(s) && t.mem + InFlight(t) == s.mem + InFlight(s) && ImmSet(t) == ImmSet(s)
    ensures DurableSequence(t) == DurableSequence(s)
    ensures s.applying.Apply? && t.applying.Apply? && t.applying.kind == s.applying.kind ==> UnsavedNext(t) == UnsavedNext(s)
  {
    hide BatchEntries;
  }

  lemma NumbersBelowNext(s: State)
    requires Inv(s)
    ensures NumbersBelow(s.version, s.nextFile)
  {
    hide LogsOk, LastOf, WriterOk, FlushOk, WorkOk, ApplyOk, AllAdded, AllOnDisk, LeadsTo;
    forall l, f | 0 <= l < |s.version.files| && f in s.version.files[l] ensures f.number < s.nextFile {
      assert f in AllAdded(Edits(s.disk.manifest), l);
    }
  }

  /** The table of the immutable memtable is newer than all files, and at an allowed level. */
  lemma FlushIsFresh(v: Version, f: File, level: nat, unsaved: set<Entry>, history: seq<Option<Op>>, oldest: nat)
    requires Good(v, unsaved, history, oldest) && Elements(f.table) <= unsaved && |history| < MAX_SEQUENCE
    requires PlacedWell(v, f, level) && NumbersBelow(v, f.number)
    ensures FreshFile(v, f, level)
  {
    hide ValidVersion, Faithful, NumbersBelow, NoOverlap, SortedTable;
    forall e | e in f.table ensures e.key.sequence <= MAX_SEQUENCE {
      assert e in unsaved + Entries(v);
    }
    forall l, g | 0 <= l < |v.files| && g in v.files[l] ensures Newer(f.table, g.table) {
      forall x, y | x in f.table && y in g.table && x.key.user == y.key.user ensures x.key.sequence > y.key.sequence {
        assert x in Elements(f.table) && y in Entries(v);
      }
    }
  }

  lemma FlushStays(x: Store, step: Step, y: Store)
    requires StoreInv(x) && Owed(x, step) && FilesStep(x.state, step, y.state)
    ensures FlushPlaced(y.state.version, y.state.flush)
  {
    hide Inv, Good, NumbersBelow, FreshFile, PlacedWell, JobOk, OutputNumbers, Live, Unsaved, UnsavedNext;
    match step
    case StartFlush =>
      NumbersBelowNext(x.state);
    case FinishFlush(f, level) =>
      UnsavedHolds(x.state);
      FlushIsFresh(x.state.version, f, level, Unsaved(x.state), x.history, Floor(x));
    case _ =>
  }

  lemma JobStays(x: Store, step: Step, y: Store)
    requires StoreInv(x) && Does(x, Internal(step), y) && FilesStep(x.state, step, y.state)
    ensures JobOk(y)
  {
    hide Inv, Good, NumbersBelow, FreshFile, PlacedWell, FlushPlaced, OutputNumbers, Live, ValidVersion, Chosen, AllFlushedOnto,
         Oldest, Next, NewerSet, HistoryOk, Elements;
    SameJob(x, step);
    FilesFrame(x.state, step, y.state);
    OldestLater(x, y);
    if step.StartCompaction? {
      GoodGenuine(x.state.version, Unsaved(x.state), x.history, Floor(x));
      assert AllFlushedOnto(x.state.version, {}) by { NothingFlushed(x.state.version); }
    } else if y.state.work.Working? {
      assert x.state.work.Working? && y.state.work.(outputs := [], current := None) == x.state.work.(outputs := [], current := None);
    }
  }

  lemma NothingFlushed(v: Version)
    ensures AllFlushedOnto(v, {})
  {
  }

  lemma FilesKeep(x: Store, step: Step, y: Store)
    requires StoreInv(x) && Does(x, Internal(step), y) && FilesStep(x.state, step, y.state)
    ensures HistoryOk(y) && SavedOk(y) && MemoryOk(y) && BothGood(y) && FlushPlaced(y.state.version, y.state.flush) && JobOk(y)
  {
    hide Inv, Good, FlushPlaced, JobOk, NewerSet, FilesStep, Unsaved, UnsavedNext, InFlight, ImmSet, SnapshotsOk, Next, DurableSequence, Oldest, Owed;
    FilesFrame(x.state, step, y.state);
    SameMemory(x.state, y.state);
    OldestLater(x, y);
    StaysGood(x, y);
    BookStays(x, y);
    FlushStays(x, step, y);
    JobStays(x, step, y);
  }

  // ---------------------------------------------------------------- making a new version

  lemma EmptyEditApplied(v: Version, w: Version)
    requires ValidVersion(v) && EditApplied(v, VersionEdit([], []), w)
    ensures w == v
  {
    ValidIsSorted(v);
    hide ValidVersion, EditedLevel;
    var e := VersionEdit([], []);
    forall l: nat | l < NUM_LEVELS ensures w.files[l] == v.files[l] {
      assert DeletedAt(e, l) == Numbers(FileSet([])) && AddedAt(e, l) == FileSet([]);
      UntouchedLevel(v.files[l], e, l, w.files[l]);
    }
    assert w.files == v.files;
  }

  lemma EditLevels(v: Version, edit: VersionEdit, w: Version)
    requires EditApplied(v, edit, w)
    ensures |v.files| == |w.files| == NUM_LEVELS && forall l :: 0 <= l < NUM_LEVELS ==> EditedLevel(v.files[l], edit, l, w.files[l])
  {
  }

  lemma FreshParts(v: Version, f: File, level: nat)
    requires FreshFile(v, f, level)
    ensures NumbersBelow(v, f.number)
  {
  }

  lemma FlushIsFlushed(v: Version, flush: Flush, w: Version)
    requires ValidVersion(v) && flush.Built? && flush.level < NUM_LEVELS && flush.file.Some?
    requires FreshFile(v, flush.file.value, flush.level) && EditApplied(v, FlushEditOf(flush), w)
    ensures Flushed(v, w, flush.level, flush.file.value)
  {
    hide ValidVersion, EditApplied, FreshFile, EditedLevel, NumbersBelow;
    EditLevels(v, FlushEditOf(flush), w);
    FreshParts(v, flush.file.value, flush.level);
    FlushReplaces(v, flush.level, flush.file.value, FlushEditOf(flush), w);
  }

  lemma FlushEditGood(v: Version, flush: Flush, w: Version, imm: set<Entry>, rest: set<Entry>, history: seq<Option<Op>>, oldest: nat)
    requires flush.Built? && flush.level < NUM_LEVELS && FlushPlaced(v, flush) && EditApplied(v, FlushEditOf(flush), w)
    requires imm == if flush.file.Some? then Elements(flush.file.value.table) else {}
    requires Good(v, imm + rest, history, oldest) && NewerSet(rest, imm)
    ensures Good(w, rest, history, oldest) && Entries(w) == Entries(v) + imm
  {
    hide Good, EditApplied, FreshFile, NewerSet, Elements, ValidVersion;
    GoodGenuine(v, imm + rest, history, oldest);
    if flush.file.None? {
      EmptyEditApplied(v, w);
      assert imm + rest == rest;
    } else {
      FlushIsFlushed(v, flush, w);
      assert imm + rest == rest + imm;
      GoodFlush(v, w, flush.level, flush.file.value, rest, history, oldest);
    }
  }

  lemma FlushParts(s: State)
    requires Inv(s) && s.flush.Built?
    ensures s.flush.level < NUM_LEVELS && s.imm.Some?
    ensures ImmSet(s) == if s.flush.file.Some? then Elements(s.flush.file.value.table) else {}
  {
    hide ManifestOk, TablesOk, LogsOk, NumbersOk, LastOf, WriterOk, WorkOk, ApplyOk, FreshNumber, OnDisk, OutputNumbers;
  }

  lemma BeginFlushKeeps(x: Store, next: Version, y: Store)
    requires StoreInv(x) && Does(x, Internal(BeginFlushEdit(next)), y) && EditStep(x.state, BeginFlushEdit(next), y.state)
    ensures BothGood(y) && UpTo(Entries(next), SavedNext(y))
  {
    hide Inv, Good, FlushPlaced, JobOk, NewerSet, InFlight, ImmSet, HistoryOk, Next, Oldest, EditApplied, FlushEditOf, Elements, Entries, UpTo, HoldsFrom;
    FlushParts(x.state);
    FlushEditGood(x.state.version, x.state.flush, next, ImmSet(x.state), x.state.mem + InFlight(x.state), x.history, Floor(x));
    SameMemory(x.state, y.state);
    SameOldest(x, y);
    assert y.history == x.history;
    GoodLater(next, x.state.mem + InFlight(x.state), x.history, Floor(x), FloorNext(y));
    UpToBoth(Entries(x.state.version), ImmSet(x.state), x.saved, x.immEnd);
  }

  lemma SameOldest(x: Store, y: Store)
    requires y.snapshots == x.snapshots && y.state.lastSequence == x.state.lastSequence
    ensures Oldest(y) == Oldest(x)
  {
  }

  // ---------------------------------------------------------------- a move

  /** The file that moves down has a number that the lower level does not have. */
  lemma MoveNumber(s: State, level: nat, f: File)
    requires Inv(s) && s.applying.NotApplying? && level + 1 < NUM_LEVELS && |s.version.files| == NUM_LEVELS && f in s.version.files[level]
    ensures NewNumbers(s.version.files[level + 1], [f])
  {
    hide LogsOk, LastOf, WriterOk, FlushOk, WorkOk, ApplyOk, AllAdded, AllOnDisk, ValidManifest, Describes, NumbersOk, AddedBelow;
    forall g | g in s.version.files[level + 1] ensures g.number != f.number {
      assert g in AllAdded(Edits(s.disk.manifest), level + 1);
    }
  }

  lemma MoveIsInstalled(s: State, level: nat, f: File, w: Version)
    requires Inv(s) && s.applying.NotApplying? && ValidVersion(s.version)
    requires level + 1 < NUM_LEVELS && |s.version.files| == NUM_LEVELS && f in s.version.files[level]
    requires EditApplied(s.version, CompactionEditOf(level, [f], [], [f]), w)
    ensures Installed(s.version, w, level, [f], [], [f]) && NewNumbers(s.version.files[level + 1], [f])
  {
    hide Inv, ValidVersion, EditApplied, EditedLevel, NewNumbers, Installable;
    MoveNumber(s, level, f);
    EditLevels(s.version, CompactionEditOf(level, [f], [], [f]), w);
    AreInstallable(s.version, level, [f], [], [f]);
    EditInstalls(s.version, level, [f], [], [f], CompactionEditOf(level, [f], [], [f]), w);
  }

  lemma BeginMoveKeeps(x: Store, level: nat, f: File, next: Version, y: Store)
    requires StoreInv(x) && Does(x, Internal(BeginMove(level, f, next)), y) && EditStep(x.state, BeginMove(level, f, next), y.state)
    ensures BothGood(y) && UpTo(Entries(next), SavedNext(y))
  {
    hide Inv, Good, FlushPlaced, JobOk, NewerSet, InFlight, ImmSet, HistoryOk, Next, EditApplied, CompactionEditOf, Chosen, ValidVersion, Installed,
         Entries, UpTo, HoldsFrom;
    GoodGenuine(x.state.version, Unsaved(x.state), x.history, Floor(x));
    MoveIsInstalled(x.state, level, f, next);
    GoodMove(x.state.version, next, level, f, Unsaved(x.state), x.history, Floor(x));
    SameMemory(x.state, y.state);
    assert y.history == x.history;
  }

  // ---------------------------------------------------------------- the results of a compaction

  /** The outputs have numbers that no file of the version has. */
  lemma OutputNumbersAreNew(s: State)
    requires Inv(s) && s.work.Working? && s.applying.NotApplying?
    ensures |s.version.files| == NUM_LEVELS && s.work.level + 1 < NUM_LEVELS
    ensures NewNumbers(s.version.files[s.work.level + 1], s.work.outputs) && InputsOk(s.version, s.work)
  {
    hide ManifestOk, LogsOk, LastOf, WriterOk, FlushOk, ApplyOk, AllAdded, AllOnDisk, NumbersOk, OnDisk;
    var files := s.version.files[s.work.level + 1];
    forall f, g | f in s.work.outputs && g in files ensures f.number != g.number {
      assert g in AllAdded(Edits(s.disk.manifest), s.work.level + 1);
      assert f in FileSet(s.work.outputs) && f.number in OutputNumbers(s.work);
    }
  }

  lemma ResultsAreInstalled(s: State, w: Version)
    requires Inv(s) && s.work.Working? && s.applying.NotApplying? && ValidVersion(s.version)
    requires EditApplied(s.version, CompactionEditOf(s.work.level, s.work.upper, s.work.lower, s.work.outputs), w)
    ensures |s.version.files| == NUM_LEVELS && s.work.level + 1 < NUM_LEVELS
    ensures Installed(s.version, w, s.work.level, s.work.upper, s.work.lower, s.work.outputs)
    ensures NewNumbers(s.version.files[s.work.level + 1], s.work.outputs)
  {
    hide Inv, ValidVersion, EditApplied, EditedLevel, NewNumbers, Installable;
    OutputNumbersAreNew(s);
    var level, upper, lower, outputs := s.work.level, s.work.upper, s.work.lower, s.work.outputs;
    EditLevels(s.version, CompactionEditOf(level, upper, lower, outputs), w);
    AreInstallable(s.version, level, upper, lower, outputs);
    EditInstalls(s.version, level, upper, lower, outputs, CompactionEditOf(level, upper, lower, outputs), w);
  }

  lemma AllFromInput(v: Version, level: nat, input: seq<Entry>, outputs: seq<File>, oldest: nat)
    requires Contents(outputs) == Kept(v, level, input, |input|, oldest)
    ensures FromInput(outputs, input)
  {
    KeptMembers(v, level, input, |input|, oldest);
  }

  lemma CompactionGood(s: State, job: Job, w: Version, unsaved: set<Entry>, history: seq<Option<Op>>, latest: nat, oldest: nat)
    requires Inv(s) && s.work.Working? && s.applying.NotApplying?
    requires JobFits(job, s.work, s.version, latest) && WorkDone(job, s.work) && NoneBetween(job.added, s.work.level, s.work.outputs)
    requires (job.oldest <= oldest || UpTo(Entries(s.version), oldest)) && Harmless(job, s.work, Entries(s.version))
    requires EditApplied(s.version, CompactionEditOf(s.work.level, s.work.upper, s.work.lower, s.work.outputs), w)
    requires Good(s.version, unsaved, history, oldest)
    ensures Good(w, unsaved, history, oldest) && Entries(w) <= Entries(s.version)
  {
    hide Inv, Good, ValidVersion, Grown, AllFlushedOnto, Chosen, GoodOutputs, Merged, Kept, Contents, NoneBetween, EditApplied,
         CompactionEditOf, Installed, NewNumbers, FromInput, UpTo, Entries, NothingUncovered;
    GoodGenuine(s.version, unsaved, history, oldest);
    ResultsAreInstalled(s, w);
    var level, upper, lower, outputs := s.work.level, s.work.upper, s.work.lower, s.work.outputs;
    var input :| Merged(input, upper + lower) && Contents(outputs) == Kept(job.base, level, input, |input|, job.oldest);
    AllFromInput(job.base, level, input, outputs, job.oldest);
    assert InstalledOver(job.base, job.added, s.version, w, level, upper, lower, input, outputs);
    GoodOver(job.base, job.added, s.version, w, level, upper, lower, input, outputs, job.oldest, unsaved, history, oldest);
  }

  lemma BeginCompactionKeeps(x: Store, next: Version, y: Store)
    requires StoreInv(x) && Does(x, Internal(BeginCompactionEdit(next)), y) && EditStep(x.state, BeginCompactionEdit(next), y.state)
    ensures BothGood(y) && UpTo(Entries(next), SavedNext(y))
  {
    hide Inv, Good, FlushPlaced, JobFits, NewerSet, InFlight, ImmSet, HistoryOk, Next, EditApplied, CompactionEditOf, ValidVersion, WorkDone,
         NoneBetween, Oldest, Entries, UpTo, HoldsFrom, Harmless;
    JobParts(x.job, x.state.work, x.state.version, Oldest(x));
    CompactionGood(x.state, x.job, next, Unsaved(x.state), x.history, Oldest(x), Floor(x));
    UpToLater(Entries(x.state.version), Entries(next), x.saved, x.saved);
    SameMemory(x.state, y.state);
    SameOldest(x, y);
    assert y.history == x.history;
  }

  // ---------------------------------------------------------------- installing it

  lemma InstalledMemory(s: State, t: State)
    requires Inv(s) && EditStep(s, Install, t)
    ensures s.applying.Apply? && t.version == s.applying.next && t.applying.NotApplying? && Unsaved(t) == UnsavedNext(s)
    ensures t.mem + InFlight(t) == s.mem + InFlight(s) && ImmSet(t) == (if s.applying.kind.OfFlush? then {} else ImmSet(s))
    ensures t.lastSequence == s.lastSequence && DurableSequence(t) == DurableSequence(s)
    ensures t.flush.NoFlush?
  {
    hide ManifestOk, TablesOk, LogsOk, LastOf, NumbersOk, WorkOk, Entries, BatchEntries, EditApplied, Elements, OutputNumbers,
         CompactionEditOf, FlushEditOf, WriterOk;
  }

  lemma InstallSaves(x: Store, y: Store)
    requires StoreInv(x) && Does(x, Internal(Install), y) && EditStep(x.state, Install, y.state)
    ensures x.state.applying.Apply? && y.saved == SavedNext(x) && y.immEnd == x.immEnd
  {
    hide Inv, Good, Next, Owed, NextJob, BothGood, FlushPlaced, JobOk, HistoryOk, UpTo, Entries, MemoryOk;
  }

  lemma InstallGood(x: Store, y: Store)
    requires StoreInv(x) && Does(x, Internal(Install), y) && EditStep(x.state, Install, y.state)
    ensures BothGood(y) && FlushPlaced(y.state.version, y.state.flush) && HistoryOk(y)
  {
    hide Inv, Good, NewerSet, InFlight, ImmSet, Next, Unsaved, UnsavedNext, Oldest, JobOk, SnapshotsOk, DurableSequence, EditStep, UpTo, MemoryOk, SavedOk;
    InstalledMemory(x.state, y.state);
    SameOldest(x, y);
    InstallSaves(x, y);
    NewerThanNothing(y.state.mem + InFlight(y.state));
    assert y.history == x.history;
  }

  lemma InstallWork(s: State, t: State)
    requires Inv(s) && EditStep(s, Install, t) && t.work.Working?
    ensures s.applying.kind.OfFlush? && t.work == s.work && s.flush.Built? && EditApplied(s.version, FlushEditOf(s.flush), t.version)
  {
    hide ManifestOk, TablesOk, LogsOk, LastOf, NumbersOk, WorkOk, Entries, EditApplied, Elements, OutputNumbers,
         CompactionEditOf, FlushEditOf, WriterOk, FlushOk;
  }

  lemma GrownMore(base: Version, added: set<Placed>, v: Version, w: Version, level: nat, f: File)
    requires Grown(base, added, v) && AllFlushedOnto(base, added) && FreshFile(v, f, level) && Flushed(v, w, level, f)
    ensures Grown(base, added + {Placed(level, f)}, w) && AllFlushedOnto(base, added + {Placed(level, f)})
  {
    hide WellFormed, Newer, SortedBySmallest;
    forall l: nat, g: File | l < NUM_LEVELS ensures g in w.files[l] <==> g in base.files[l] || Placed(l, g) in added + {Placed(level, f)} {
      assert g in v.files[l] <==> g in base.files[l] || Placed(l, g) in added;
    }
    OntoBase(base, added, v, level, f);
  }

  lemma OntoBase(base: Version, added: set<Placed>, v: Version, level: nat, f: File)
    requires Grown(base, added, v) && FreshFile(v, f, level) && level < NUM_LEVELS
    ensures FlushedOnto(base, Placed(level, f))
  {
    hide WellFormed, Newer, Overlaps;
    forall l: nat, g | l < |base.files| && g in base.files[l] ensures g in v.files[l] {
    }
  }

  lemma JobGrows(job: Job, work: Work, v: Version, flush: Flush, w: Version, oldest: nat)
    requires work.Working? && JobFits(job, work, v, oldest) && ValidVersion(v)
    requires flush.Built? && flush.level < NUM_LEVELS && FlushPlaced(v, flush) && EditApplied(v, FlushEditOf(flush), w)
    ensures JobFits(if flush.file.Some? then job.(added := job.added + {Placed(flush.level, flush.file.value)}) else job, work, w, oldest)
  {
    hide ValidVersion, Grown, AllFlushedOnto, Chosen, FreshFile, EditApplied, Flushed;
    if flush.file.None? {
      EmptyEditApplied(v, w);
    } else {
      FlushIsFlushed(v, flush, w);
      GrownMore(job.base, job.added, v, w, flush.level, flush.file.value);
    }
  }

  lemma InstallJob(x: Store, y: Store)
    requires StoreInv(x) && Does(x, Internal(Install), y) && EditStep(x.state, Install, y.state)
    ensures JobOk(y)
  {
    hide Inv, Good, NewerSet, Next, Unsaved, UnsavedNext, Oldest, SnapshotsOk, DurableSequence, FlushPlaced, JobFits, EditApplied, FlushEditOf,
         HistoryOk, ValidVersion;
    SameOldest(x, y);
    if y.state.work.Working? {
      InstallWork(x.state, y.state);
      FlushParts(x.state);
      GoodGenuine(x.state.version, Unsaved(x.state), x.history, Floor(x));
      JobGrows(x.job, x.state.work, x.state.version, x.state.flush, y.state.version, Oldest(x));
      JobParts(x.job, x.state.work, x.state.version, Oldest(x));
    }
  }


  // ---------------------------------------------------------------- what is in the tables

  /** The bookkeeping stays when nothing moves into the tables or out of the memtable. */
  lemma BookStays(x: Store, y: Store)
    requires SavedOk(x) && MemoryOk(x) && y.history == x.history && y.saved == x.saved && y.immEnd == x.immEnd
    requires y.state.version == x.state.version && ImmSet(y.state) == ImmSet(x.state) && (y.state.imm.Some? <==> x.state.imm.Some?)
    requires Unsaved(y.state) == Unsaved(x.state) && y.state.mem + InFlight(y.state) == x.state.mem + InFlight(x.state)
    requires x.state.lastSequence <= y.state.lastSequence && y.state.disk.manifest == x.state.disk.manifest
    requires y.state.applying == x.state.applying || (y.state.applying.NotApplying? && !Ahead(x.state))
    ensures SavedOk(y) && MemoryOk(y)
  {
    hide Unsaved, InFlight, ImmSet, UpTo, Entries, HoldsFrom, LastSequenceOf;
  }

  lemma BookLogged(x: Store, b: Batch, y: Store)
    requires StoreInv(x) && Does(x, Internal(LogBatch(b)), y) && WriterStep(x.state, LogBatch(b), y.state)
    ensures SavedOk(y) && MemoryOk(y)
  {
    hide Inv, Good, FlushPlaced, JobOk, NewerSet, BatchEntries, WriterStep, Unsaved, UnsavedNext, InFlight, ImmSet, SnapshotsOk, Next, DurableSequence,
         BothGood, HoldsFrom, UpTo, Entries, LastSequenceOf;
    LoggedUnsaved(x.state, b, y.state);
    OldestIsPast(x);
    HoldsMore(Unsaved(x.state), x.history, x.saved, b);
    HoldsMore(x.state.mem + InFlight(x.state), x.history, MemFrom(x), b);
  }

  lemma BookWritten(x: Store, step: Step, y: Store)
    requires StoreInv(x) && Does(x, Internal(step), y) && WriterStep(x.state, step, y.state) && !step.LogBatch?
    ensures SavedOk(y) && MemoryOk(y)
  {
    hide Inv, Good, FlushPlaced, JobOk, NewerSet, BatchEntries, Unsaved, UnsavedNext, InFlight, ImmSet, SnapshotsOk, Next, DurableSequence,
         UpTo, Entries, LastSequenceOf, BothGood, HoldsFrom;
    WriterMoves(x.state, step, y.state);
    WriterFrame(x.state, step, y.state);
    hide WriterStep, Owed;
    if step.SwitchLog? {
      GoodVersion(x);
      GoodGenuine(x.state.version, Unsaved(x.state), x.history, Floor(x));
      UnsavedHolds(x.state);
      GenuineUpTo(Unsaved(x.state) + Entries(x.state.version), x.history, x.state.mem + InFlight(x.state));
      HoldsNothing(x.history);
      assert y.history == x.history;
    } else {
      BookStays(x, y);
    }
  }

  lemma WriterFrame(s: State, step: Step, t: State)
    requires WriterStep(s, step, t)
    ensures !step.Install?
  {
  }

  lemma GoodVersion(x: Store)
    requires StoreInv(x)
    ensures Good(x.state.version, Unsaved(x.state), x.history, Floor(x))
  {
    hide Inv, Good, FlushPlaced, JobOk, SavedOk, MemoryOk, HistoryOk;
  }

  lemma GenuineUpTo(es: set<Entry>, history: seq<Option<Op>>, part: set<Entry>)
    requires Genuine(es, history) && part <= es
    ensures UpTo(part, |history|)
  {
  }

  lemma HoldsNothing(history: seq<Option<Op>>)
    ensures HoldsFrom({}, history, |history|)
  {
  }

  lemma BookBegun(x: Store, y: Store)
    requires SavedOk(x) && MemoryOk(x) && x.state.applying.NotApplying? && y.state.applying.Apply? && !y.state.applying.appended
    requires y == x.(state := x.state.(applying := y.state.applying)) && UpTo(Entries(y.state.applying.next), SavedNext(y))
    requires (y.state.applying.kind.OfFlush? ==> x.state.imm.Some?) && y.state.applying.record.lastSequence == Some(x.state.lastSequence)
    ensures SavedOk(y) && MemoryOk(y)
  {
    hide UpTo, Entries, HoldsFrom, LastSequenceOf, ImmSet;
    SameMemory(x.state, y.state);
  }

  lemma BookAppended(x: Store, y: Store)
    requires SavedOk(x) && MemoryOk(x) && EditStep(x.state, Append, y.state) && y == x.(state := y.state)
    ensures SavedOk(y) && MemoryOk(y)
  {
    hide UpTo, Entries, HoldsFrom, LastSequenceOf, ImmSet;
    SameMemory(x.state, y.state);
    RecordIsLast(x.state.disk.manifest, x.state.applying.record);
  }

  lemma RecordIsLast(m: seq<Record>, r: Record)
    requires r.lastSequence.Some?
    ensures LastSequenceOf(m + [r]) == r.lastSequence
  {
  }

  lemma BookInstalled(x: Store, y: Store)
    requires StoreInv(x) && Does(x, Internal(Install), y) && EditStep(x.state, Install, y.state)
    ensures SavedOk(y) && MemoryOk(y)
  {
    hide Inv, Good, NewerSet, InFlight, Next, Unsaved, BothGood, FlushPlaced, JobOk, HistoryOk, DurableSequence, UpTo, Entries, HoldsFrom, LastSequenceOf,
         SnapshotsOk, Owed, NextJob, OutputNumbers;
    InstalledMemory(x.state, y.state);
    assert y.history == x.history;
    UpToNothing(y.immEnd);
  }

  lemma UpToNothing(n: nat)
    ensures UpTo({}, n)
  {
  }

  // ---------------------------------------------------------------- every step

  lemma EditFrame(s: State, step: Step, t: State)
    requires EditStep(s, step, t) && !step.Install?
    ensures t.mem == s.mem && t.imm == s.imm && t.version == s.version && t.writer == s.writer && t.lastSequence == s.lastSequence
    ensures t.flush == s.flush && t.work == s.work && !step.LogBatch? && !step.StartCompaction?
    ensures AheadOf(s, OfCompaction) ==> AheadOf(t, OfCompaction)
    ensures step.Append? || step.Fail? || step.BeginFlushEdit? || step.BeginCompactionEdit? || step.BeginMove?
    ensures step.Append? || step.Fail? ==> (t.applying.Apply? ==> s.applying.Apply? && t.applying.next == s.applying.next && t.applying.kind == s.applying.kind)
  {
    hide EditApplied, FlushEditOf, CompactionEditOf, OutputNumbers;
  }

  lemma BeginsEdit(x: Store, step: Step, y: Store)
    requires StoreInv(x) && Does(x, Internal(step), y) && EditStep(x.state, step, y.state)
    requires step.BeginFlushEdit? || step.BeginCompactionEdit? || step.BeginMove?
    ensures x.state.applying.NotApplying? && y.state.applying.Apply? && !y.state.applying.appended && y.state.applying.next == step.next
    ensures y == x.(state := x.state.(applying := y.state.applying))
    ensures (y.state.applying.kind.OfFlush? ==> x.state.imm.Some?) && y.state.applying.record.lastSequence == Some(x.state.lastSequence)
  {
    hide Inv, Good, BothGood, FlushPlaced, JobOk, HistoryOk, SavedOk, MemoryOk, Next, Owed, EditApplied, FlushEditOf, CompactionEditOf;
    if step.BeginFlushEdit? {
      FlushParts(x.state);
    }
    assert y.history == x.history;
  }

  lemma EditBothGood(x: Store, step: Step, y: Store)
    requires StoreInv(x) && Does(x, Internal(step), y) && EditStep(x.state, step, y.state) && !step.Install?
    ensures BothGood(y) && SavedOk(y) && MemoryOk(y)
  {
    hide Inv, Good, FlushPlaced, JobOk, NewerSet, InFlight, ImmSet, HistoryOk, Next, Unsaved, UnsavedNext, Oldest, EditStep, Owed, NextJob,
         UpTo, Entries, HoldsFrom, SavedOk, MemoryOk, SavedNext;
    if step.BeginFlushEdit? || step.BeginCompactionEdit? || step.BeginMove? {
      BeginsEdit(x, step, y);
      if step.BeginFlushEdit? {
        BeginFlushKeeps(x, step.next, y);
      } else if step.BeginCompactionEdit? {
        BeginCompactionKeeps(x, step.next, y);
      } else {
        BeginMoveKeeps(x, step.level, step.file, step.next, y);
      }
      BookBegun(x, y);
    } else {
      EditFrame(x.state, step, y.state);
      SameMemory(x.state, y.state);
      SameOldest(x, y);
      assert y.history == x.history;
      StaysGood(x, y);
      BookOther(x, step, y);
    }
  }

  lemma BookOther(x: Store, step: Step, y: Store)
    requires SavedOk(x) && MemoryOk(x) && Does(x, Internal(step), y) && EditStep(x.state, step, y.state) && (step.Append? || step.Fail?)
    ensures SavedOk(y) && MemoryOk(y)
  {
    hide Next, Owed, NextJob, SavedOk, MemoryOk;
    assert x.history + [] == x.history;
    if step.Append? {
      SameJob(x, step);
      BookAppended(x, y);
    } else {
      SameMemory(x.state, y.state);
      BookStays(x, y);
    }
  }

  lemma EditKeeps(x: Store, step: Step, y: Store)
    requires StoreInv(x) && Does(x, Internal(step), y) && EditStep(x.state, step, y.state)
    ensures HistoryOk(y) && SavedOk(y) && MemoryOk(y) && BothGood(y) && FlushPlaced(y.state.version, y.state.flush) && JobOk(y)
  {
    hide Inv, BothGood, FlushPlaced, JobFits, InFlight, ImmSet, Next, Unsaved, UnsavedNext, Oldest, EditStep, SnapshotsOk, DurableSequence, Owed,
         SavedOk, MemoryOk;
    if step.Install? {
      InstallGood(x, y);
      BookInstalled(x, y);
      InstallJob(x, y);
    } else {
      EditBothGood(x, step, y);
      EditFrame(x.state, step, y.state);
      SameMemory(x.state, y.state);
      SameOldest(x, y);
      SameJob(x, step);
    }
  }

  lemma InternalKeeps(x: Store, step: Step, y: Store)
    requires StoreInv(x) && Does(x, Internal(step), y)
    ensures StoreInv(y)
  {
    hide StoreInv, Does, WriterStep, TableStep, EditStep, DeleteStep;
    StepOf(x, step, y);
    StepKeepsInv(x.state, step, y.state);
    if WriterStep(x.state, step, y.state) {
      if step.LogBatch? {
        LogBatchKeeps(x, step.batch, y);
      } else {
        WriterKeeps(x, step, y);
      }
    } else if EditStep(x.state, step, y.state) {
      EditKeeps(x, step, y);
    } else {
      assert FilesStep(x.state, step, y.state);
      FilesKeep(x, step, y);
    }
    Assembled(y);
  }

  lemma StepOf(x: Store, step: Step, y: Store)
    requires StoreInv(x) && Does(x, Internal(step), y)
    ensures Inv(x.state) && Next(x.state, step, y.state)
  {
    hide Inv, Next;
  }

  lemma Assembled(x: Store)
    requires Inv(x.state) && HistoryOk(x) && SavedOk(x) && MemoryOk(x) && BothGood(x) && FlushPlaced(x.state.version, x.state.flush) && JobOk(x)
    ensures StoreInv(x)
  {
    hide Inv, HistoryOk, SavedOk, MemoryOk, BothGood, FlushPlaced, JobOk;
  }

  lemma SnapshotTaken(x: Store, y: Store)
    requires StoreInv(x) && y.state == x.state && y.job == x.job && y.history == x.history && y.saved == x.saved && y.immEnd == x.immEnd
    requires SnapshotsOk(y.snapshots, y.state.lastSequence) && Oldest(x) <= Oldest(y)
    ensures StoreInv(y)
  {
    hide Inv, FlushPlaced, Good, JobFits, SnapshotsOk, Oldest, NewerSet, Unsaved, UnsavedNext, DurableSequence, SavedOk, MemoryOk;
    StaysGood(x, y);
    BookStays(x, y);
    if y.state.work.Working? && !AheadOf(y.state, OfCompaction) {
      JobLater(x.job, x.state.work, x.state.version, Oldest(x), Oldest(y));
    }
  }

  lemma TakenSnapshots(snapshots: seq<nat>, last: nat)
    requires SnapshotsOk(snapshots, last)
    ensures SnapshotsOk(snapshots + [last], last)
  {
  }

  lemma ReleasedSnapshots(snapshots: seq<nat>, last: nat, i: nat)
    requires SnapshotsOk(snapshots, last) && i < |snapshots|
    ensures var rest := snapshots[..i] + snapshots[i + 1..];
            SnapshotsOk(rest, last) && (rest != [] ==> snapshots[0] <= rest[0]) && snapshots[0] <= last
  {
  }

  /** Whatever the database does, in any interleaving, its contents stay in agreement with its updates. */
  lemma ActionKeepsInv(x: Store, action: Action, y: Store)
    requires StoreInv(x) && Does(x, action, y)
    ensures StoreInv(y)
  {
    hide StoreInv, Next, Owed, NextJob, SnapshotsOk;
    match action
    case Internal(step) =>
      InternalKeeps(x, step, y);
    case TakeSnapshot =>
      SnapshotsFit(x);
      TakenSnapshots(x.snapshots, x.state.lastSequence);
      assert x.snapshots != [] ==> y.snapshots[0] == x.snapshots[0];
      SnapshotTaken(x, y);
    case ReleaseSnapshot(i) =>
      SnapshotsFit(x);
      ReleasedSnapshots(x.snapshots, x.state.lastSequence, i);
      SnapshotTaken(x, y);
    case Sync =>
      SnapshotsFit(x);
      SnapshotTaken(x, y);
  }

  lemma SnapshotsFit(x: Store)
    requires StoreInv(x)
    ensures SnapshotsOk(x.snapshots, x.state.lastSequence)
  {
    hide Inv, BothGood, FlushPlaced, JobOk;
  }

  /** A compaction whose inputs leave no gap, as every one that PickCompaction starts, owes nothing for
      the flushes that came between. */
  lemma ConnectedOwesNothing(x: Store)
    requires StoreInv(x) && x.state.work.Working? && x.state.applying.NotApplying?
    requires x.job.Job? && WorkDone(x.job, x.state.work) && Connected(x.state.work.upper + x.state.work.lower)
    ensures NoneBetween(x.job.added, x.state.work.level, x.state.work.outputs)
  {
    hide Inv, BothGood, HistoryOk, FlushPlaced, ValidVersion, Grown, AllFlushedOnto, Chosen, GoodOutputs, Merged, Kept, Contents,
         NoneBetween, Connected, FromInput;
    var job, work := x.job, x.state.work;
    var input :| Merged(input, work.upper + work.lower) && Contents(work.outputs) == Kept(job.base, work.level, input, |input|, job.oldest);
    AllFromInput(job.base, work.level, input, work.outputs, job.oldest);
    ConnectedHasNoneBetween(job.base, job.added, work.level, work.upper, work.lower, input, work.outputs);
  }

  lemma WorkFits(x: Store)
    requires StoreInv(x) && x.state.work.Working? && x.state.applying.NotApplying?
    ensures JobFits(x.job, x.state.work, x.state.version, Oldest(x))
    ensures Good(x.state.version, Unsaved(x.state), x.history, Floor(x))
  {
    hide Inv, Good, HistoryOk, FlushPlaced, JobFits, NewerSet;
  }

  /** A compaction whose lower inputs are closed over user keys uncovers nothing. */
  lemma ClosedOwesNothing(x: Store)
    requires StoreInv(x) && x.state.work.Working? && x.state.applying.NotApplying?
    requires x.job.Job? && x.state.work.level + 1 < |x.job.base.files|
    requires ClosedBelow(x.job.base.files[x.state.work.level + 1], x.state.work.lower)
    ensures Harmless(x.job, x.state.work, Entries(x.state.version))
  {
    hide StoreInv, Good, ValidVersion, Grown, AllFlushedOnto, Chosen, ClosedBelow, Merged, NothingUncovered, UniqueSequences, Oldest, Entries;
    WorkFits(x);
    var job, work, v := x.job, x.state.work, x.state.version;
    GoodIsUnique(v, Unsaved(x.state), x.history, Floor(x));
    assert {} + Entries(v) == Entries(v);
    forall input | Merged(input, work.upper + work.lower)
      ensures NothingUncovered(job.base, work.level, input, job.oldest, Entries(v), LeftOut(job.base.files[work.level + 1], work.lower))
    {
      OverClosedUncoversNothing(job.base, job.added, v, work.level, work.upper, work.lower, input, job.oldest, {});
    }
  }

  lemma SameUncovered(v: Version, level: nat, a: seq<Entry>, b: seq<Entry>, files: seq<File>, snapshot: nat, es: set<Entry>, left: set<Entry>)
    requires Merged(a, files) && Merged(b, files) && NothingUncovered(v, level, a, snapshot, es, left)
    ensures NothingUncovered(v, level, b, snapshot, es, left)
  {
    hide SortedTable, ObsoleteKey, Newest, Probe;
  }

  /** What the installation of a compaction owes is exact: the new version is valid if and only if no
      memtable was flushed into the range of an output, and the tables answer the same at the snapshots that
      were live when the compaction began if and only if no dropped deletion uncovers a value. */
  lemma InstallIsExact(x: Store, next: Version)
    requires StoreInv(x) && x.state.work.Working? && x.state.applying.NotApplying? && x.job.Job? && WorkDone(x.job, x.state.work)
    requires EditApplied(x.state.version, CompactionEditOf(x.state.work.level, x.state.work.upper, x.state.work.lower, x.state.work.outputs), next)
    ensures ValidVersion(next) <==> NoneBetween(x.job.added, x.state.work.level, x.state.work.outputs)
    ensures SameReads(Entries(x.state.version), Entries(next), x.job.oldest) <==> Harmless(x.job, x.state.work, Entries(x.state.version))
  {
    hide Inv, Good, ValidVersion, Grown, AllFlushedOnto, Chosen, GoodOutputs, Merged, Kept, Contents, NoneBetween, EditApplied, CompactionEditOf,
         Installed, NewNumbers, FromInput, NothingUncovered, UniqueSequences, Oldest, Entries, SameReads, NewerSet, HistoryOk, FlushPlaced, JobOk, Unsaved, BothGood;
    WorkFits(x);
    var job, work, v := x.job, x.state.work, x.state.version;
    GoodGenuine(v, Unsaved(x.state), x.history, Floor(x));
    GoodIsUnique(v, Unsaved(x.state), x.history, Floor(x));
    ResultsAreInstalled(x.state, next);
    var input :| Merged(input, work.upper + work.lower) && Contents(work.outputs) == Kept(job.base, work.level, input, |input|, job.oldest);
    AllFromInput(job.base, work.level, input, work.outputs, job.oldest);
    assert InstalledOver(job.base, job.added, v, next, work.level, work.upper, work.lower, input, work.outputs);
    GrownEntries(job.base, job.added, v);
    UniquePart(Entries(v), Entries(job.base));
    InstallsOverIff(job.base, job.added, v, next, work.level, work.upper, work.lower, input, work.outputs);
    assert {} + Entries(v) == Entries(v) && {} + Entries(next) == Entries(next);
    NewerThanNothing(Entries(v));
    OverKeepsReadsIff(job.base, job.added, v, next, work.level, work.upper, work.lower, input, work.outputs, job.oldest, {});
    var left := LeftOut(job.base.files[work.level + 1], work.lower);
    forall other | Merged(other, work.upper + work.lower) && NothingUncovered(job.base, work.level, input, job.oldest, Entries(v), left)
      ensures NothingUncovered(job.base, work.level, other, job.oldest, Entries(v), left)
    {
      SameUncovered(job.base, work.level, input, other, work.upper + work.lower, job.oldest, Entries(v), left);
    }
  }
}
