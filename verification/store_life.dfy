/** The whole life of a database: steps, crashes, openings that may be cut short, and what every read
    and every recovery finds at any point of it (Open, Recover, RecoverLogFile, Write and Get of
    db/db_impl.cc). */
module StoreLife {
  import opened DbFormat
  import opened Versions
  import opened Builders
  import opened CompactionReads
  import opened CompactionInstall
  import opened Databases
  import opened Recovery
  import opened StoreSteps
  import opened StoreInvariant
  import opened StoreRecovery
  import opened StoreContents
  import opened StoreHistory
  import opened StepsKeepHistory
  import F = FlushesMeanwhile
  import O = StoreOpen

  // ---------------------------------------------------------------- opening

  /** The tables that RecoverLogFile writes: one for each memtable, numbered in the order in which the
      memtables were filled from the logs. */
  ghost predicate ReplayedTables(flushed: seq<File>) {
    && WellFormedFiles(flushed)
    && forall f, g :: f in flushed && g in flushed && f.number > g.number ==> Newer(f.table, g.table)
  }

  /** What is known of the tables beside the version they are added to. */
  ghost predicate AddedTables(v: Version, unflushed: set<Entry>, flushed: seq<File>, w: Version) {
    && EditApplied(v, O.LogFilesEdit(flushed), w)
    && ReplayedTables(flushed) && NewNumbers(v.files[0], flushed)
    && (forall f, g :: f in flushed && g in v.files[0] ==> f.number > g.number)
    && (forall e :: e in unflushed <==> exists f :: f in flushed && e in f.table)
  }

  lemma LogTablesAt(v: Version, flushed: seq<File>, w: Version, l: nat)
    requires ValidVersion(v) && EditApplied(v, O.LogFilesEdit(flushed), w) && l < NUM_LEVELS && NewNumbers(v.files[0], flushed)
    ensures if l == 0 then Replaced(v.files[0], [], flushed, w.files[0]) else w.files[l] == v.files[l]
  {
    ValidIsSorted(v);
    O.LogFilesSets(flushed, l);
    assert DeletedAt(O.LogFilesEdit(flushed), l) == Numbers(FileSet([]));
    hide ValidVersion, NewNumbers, O.LogFilesEdit, EditedLevel, AddedAt, DeletedAt;
    if l == 0 {
      EditReplaces(v.files[0], [], flushed, O.LogFilesEdit(flushed), 0, w.files[0]);
    } else {
      UntouchedLevel(v.files[l], O.LogFilesEdit(flushed), l, w.files[l]);
    }
  }

  /** The newest level takes the tables of the logs. */
  lemma NewestLevel(v: Version, unflushed: set<Entry>, flushed: seq<File>, w: Version)
    requires ValidVersion(v) && NewerSet(unflushed, Entries(v)) && AddedTables(v, unflushed, flushed, w)
    requires Replaced(v.files[0], [], flushed, w.files[0])
    ensures WellFormedFiles(w.files[0]) && DistinctNumbers(w.files[0]) && SortedBySmallest(w.files[0]) && NumberedByAge(w.files[0])
  {
    assert WellFormedFiles(v.files[0]) && DistinctNumbers(v.files[0]) && NumberedByAge(v.files[0]);
    hide ValidVersion, WellFormed, Newer, EditApplied, NewNumbers, BySmallestKey, DistinctNumbers;
    ReplacedDistinct(v.files[0], [], flushed, w.files[0]);
    forall f, g | f in w.files[0] && g in w.files[0] && f.number > g.number ensures Newer(f.table, g.table) {
      if f in flushed && g !in flushed {
        LogTableIsNewer(v, unflushed, flushed, f, 0, g);
      }
    }
  }

  lemma LogTableIsNewer(v: Version, unflushed: set<Entry>, flushed: seq<File>, f: File, l: nat, g: File)
    requires NewerSet(unflushed, Entries(v)) && l < |v.files| && g in v.files[l] && f in flushed
    requires forall e :: e in unflushed <==> exists f :: f in flushed && e in f.table
    ensures Newer(f.table, g.table)
  {
    forall x, y | x in f.table && y in g.table && x.key.user == y.key.user ensures x.key.sequence > y.key.sequence {
      assert x in unflushed && y in Entries(v);
    }
  }

  lemma OpenedAges(v: Version, unflushed: set<Entry>, flushed: seq<File>, w: Version)
    requires LevelsByAge(v) && |v.files| == |w.files| == NUM_LEVELS && NewerSet(unflushed, Entries(v))
    requires forall e :: e in unflushed <==> exists f :: f in flushed && e in f.table
    requires forall l :: 0 < l < NUM_LEVELS ==> w.files[l] == v.files[l]
    requires forall f :: f in w.files[0] ==> f in v.files[0] || f in flushed
    ensures LevelsByAge(w)
  {
    hide Newer, NewerSet;
    forall l1: nat, l2: nat, f, g | l1 < l2 < NUM_LEVELS && f in w.files[l1] && g in w.files[l2] ensures Newer(f.table, g.table) {
      if l1 == 0 && f in flushed {
        LogTableIsNewer(v, unflushed, flushed, f, l2, g);
      } else {
        assert f in v.files[l1] && g in v.files[l2];
      }
    }
  }

  /** An opened database answers as the recovered one would have. */
  lemma OpenedIsGood(v: Version, unflushed: set<Entry>, flushed: seq<File>, w: Version, history: seq<Option<Op>>, oldest: nat)
    requires Good(v, unflushed, history, oldest) && AddedTables(v, unflushed, flushed, w)
    requires Entries(w) == Entries(v) + unflushed
    ensures Good(w, {}, history, oldest)
  {
    hide ValidVersion, Genuine, Faithful, NewerSet, Entries, EditApplied, NewNumbers, ReplayedTables, LevelsByAge, Replaced,
         WellFormedFiles, DistinctNumbers, SortedBySmallest, NumberedByAge, SortedLevel;
    AddedLevels(v, unflushed, flushed, w);
    forall l: nat | l < NUM_LEVELS
      ensures if l == 0 then Replaced(v.files[0], [], flushed, w.files[0]) else w.files[l] == v.files[l]
    {
      LogTablesAt(v, flushed, w, l);
    }
    NewestLevel(v, unflushed, flushed, w);
    F.ByAge(v);
    assert forall f :: f in w.files[0] ==> f in v.files[0] || f in flushed by { ReplacedFiles(v.files[0], flushed, w.files[0]); }
    OpenedAges(v, unflushed, flushed, w);
    forall l: nat | l < NUM_LEVELS
      ensures WellFormedFiles(w.files[l]) && DistinctNumbers(w.files[l]) && SortedBySmallest(w.files[l])
      ensures (l > 0 ==> SortedLevel(w.files[l])) && (l == 0 ==> NumberedByAge(w.files[l]))
    {
      F.LevelParts(v, l);
    }
    F.VersionFromParts(w);
    NewerThanNothing(Entries(w));
    assert {} + Entries(w) == unflushed + Entries(v);
  }

  lemma AddedLevels(v: Version, unflushed: set<Entry>, flushed: seq<File>, w: Version)
    requires AddedTables(v, unflushed, flushed, w)
    ensures |v.files| == |w.files| == NUM_LEVELS
  {
  }

  lemma ReplacedFiles(files: seq<File>, added: seq<File>, r: seq<File>)
    requires Replaced(files, [], added, r)
    ensures forall f :: f in r ==> f in files || f in added
  {
  }

  // ---------------------------------------------------------------- the life of a database

  /** How many batches of a log are sure to be on the disk. */
  function Forced(logs: map<nat, seq<Batch>>, synced: map<nat, nat>, n: nat): nat
    requires n in logs
  {
    if n in synced then Lesser(synced[n], |logs[n]|) else 0
  }

  /** Of each log that is still needed a crash leaves what was forced to the disk, and any number of the
      batches behind that. */
  ghost predicate CutLogs(logs: map<nat, seq<Batch>>, synced: map<nat, nat>, from: nat, left: map<nat, seq<Batch>>) {
    && (forall n :: n in left && from <= n ==> n in logs && left[n] <= logs[n])
    && (forall n :: n in logs && from <= n && Forced(logs, synced, n) > 0 ==> n in left && Forced(logs, synced, n) <= |left[n]|)
  }

  /** What a crash of the machine can leave. The manifest and the tables of its version are forced to the
      disk before anything relies on them. A crash of the process alone leaves everything. */
  ghost predicate CrashLeaves(x: Store, left: Disk) {
    && left.manifest == x.state.disk.manifest && AllOnDisk(left.tables, DurableVersion(x.state))
    && CutLogs(x.state.disk.logs, x.synced, DurableLog(x.state), left.logs)
  }

  /** The `n`-th update was in a log that is needed, and is not in what is left of it. */
  ghost predicate Lost(logs: map<nat, seq<Batch>>, left: map<nat, seq<Batch>>, from: nat, n: nat) {
    Holding(LogsFrom(logs, from), n) && !Holding(LogsFrom(left, from), n)
  }

  /** The updates that a crash leaves: all but the lost ones, up to the last sequence number that a
      recovery finds. */
  ghost predicate Survives(x: Store, left: Disk, after: seq<Option<Op>>) {
    var from := DurableLog(x.state);
    && LastSequenceOf(left.manifest).Some? && LastOf(left.logs, from, LastSequenceOf(left.manifest).value, |after|)
    && |after| <= |x.history|
    && forall i :: 0 <= i < |after| ==> after[i] == if Lost(x.state.disk.logs, left.logs, from, i + 1) then None else x.history[i]
  }

  /** A database is up, or down with what is on its disk. The history is every update logged so far that
      no crash has taken. */
  datatype World = Up(store: Store) | Down(disk: Disk, history: seq<Option<Op>>)

  datatype Event = Act(action: Action) | Crash(left: Disk) | OpenPart(part: O.OpenStep) | Open(flushed: seq<File>)

  function HistoryOf(w: World): seq<Option<Op>> {
    if w.Up? then w.store.history else w.history
  }

  ghost predicate Happens(w: World, event: Event, z: World) {
    match event
    case Act(action) => w.Up? && z.Up? && Does(w.store, action, z.store)
    case Crash(left) => w.Up? && z.Down? && z.disk == left && CrashLeaves(w.store, left) && Survives(w.store, left, z.history)
    case OpenPart(part) => w.Down? && z.Down? && O.Opening(w.disk, part, z.disk) && z.history == w.history
    case Open(flushed) =>
      && w.Down? && z.Up? && ReplayedTables(flushed)
      && z.store == Store(z.store.state, [], NoJob, w.history, |w.history|, |w.history|, map[])
      && exists v, unflushed, last :: O.Openable(w.disk, v, unflushed, last) && O.Opened(w.disk, v, unflushed, last, flushed, z.store.state)
  }

  /** The disk holds what the updates have left. */
  ghost predicate DiskHolds(d: Disk, history: seq<Option<Op>>, v: Version, unflushed: set<Entry>) {
    O.Openable(d, v, unflushed, |history|) && Good(v, unflushed, history, |history|)
  }

  ghost predicate WorldInv(w: World) {
    match w
    case Up(x) => StoreInv(x)
    case Down(d, history) => |history| < MAX_SEQUENCE && exists v, unflushed :: DiskHolds(d, history, v, unflushed)
  }

  // ---------------------------------------------------------------- crashes

  lemma KeptPart(logs: map<nat, seq<Batch>>, synced: map<nat, nat>, from: nat, left: map<nat, seq<Batch>>)
    requires CutLogs(logs, synced, from, left)
    ensures LogsFrom(left, from) <= LogsFrom(logs, from)
  {
    forall e | e in LogsFrom(left, from) ensures e in LogsFrom(logs, from) {
      var n :| n in left && from <= n && e in LogEntries(left[n]);
      var b :| b in left[n] && e in BatchEntries(b);
      var i :| 0 <= i < |left[n]| && left[n][i] == b;
      assert logs[n][i] == b && e in LogEntries(logs[n]);
    }
  }

  lemma EndsAtLast(logs: map<nat, seq<Batch>>, from: nat, base: nat, last: nat)
    requires LastOf(logs, from, base, last)
    ensures UpTo(LogsFrom(logs, from), last) && base <= last
  {
    forall e | e in LogsFrom(logs, from) ensures e.key.sequence <= last {
      var n :| n in logs && from <= n && e in LogEntries(logs[n]);
      var b :| b in logs[n] && e in BatchEntries(b);
      assert End(b) <= last + 1;
    }
  }

  /** What is in the logs, and what the manifest says of them. */
  lemma LogsHold(s: State)
    requires Inv(s)
    ensures LogNumberOf(s.disk.manifest) == Some(DurableLog(s)) && Unflushed(s) == LogsFrom(s.disk.logs, DurableLog(s))
    ensures LastSequenceOf(s.disk.manifest).Some? && LastOf(s.disk.logs, DurableLog(s), LastSequenceOf(s.disk.manifest).value, DurableSequence(s))
    ensures Describes(s.disk.manifest, DurableVersion(s)) && ManifestOk(s.disk.manifest, DurableVersion(s), DurableLog(s))
  {
    InvRecovers(s);
    hide TablesOk, LogsOk, LastOf, NumbersOk, WriterOk, FlushOk, WorkOk, ApplyOk, Unflushed, LogsFrom, LeadsTo, Describes, AddedBelow;
    assert LeadsTo(s.disk.manifest, DurableVersion(s));
  }

  lemma SurvivesLeaves(x: Store, left: Disk, after: seq<Option<Op>>)
    requires StoreInv(x) && CrashLeaves(x, left) && Survives(x, left, after)
    ensures LogsFrom(left.logs, DurableLog(x.state)) <= Unflushed(x.state)
    ensures Leaves(x.history, SavedDurable(x), LogsFrom(left.logs, DurableLog(x.state)), after)
  {
    hide Inv, BothGood, FlushPlaced, JobOk, HistoryOk, Good, AllOnDisk, LogsFrom, LastOf, CutLogs, MemoryOk, Unflushed, DurableSequence, UpTo, Entries;
    var from, logs := DurableLog(x.state), x.state.disk.logs;
    LogsHold(x.state);
    DurableIsGood(x);
    KeptPart(logs, x.synced, from, left.logs);
    EndsAtLast(left.logs, from, LastSequenceOf(left.manifest).value, |after|);
    LossesBehind(x.history, SavedDurable(x), LogsFrom(logs, from), LogsFrom(left.logs, from), after, logs, left.logs, from);
  }

  lemma LossesBehind(history: seq<Option<Op>>, saved: nat, all: set<Entry>, kept: set<Entry>, after: seq<Option<Op>>,
                     logs: map<nat, seq<Batch>>, left: map<nat, seq<Batch>>, from: nat)
    requires HoldsFrom(all, history, saved) && all == LogsFrom(logs, from) && kept == LogsFrom(left, from)
    requires |after| <= |history|
    requires forall i :: 0 <= i < |after| ==> after[i] == if Lost(logs, left, from, i + 1) then None else history[i]
    ensures forall i :: 0 <= i < |after| ==> after[i] == if i < saved || Holding(kept, i + 1) then history[i] else None
  {
    hide LogsFrom;
  }

  /** What a crash leaves can be opened, and holds what the remaining updates have left. */
  lemma CrashIsGood(x: Store, left: Disk, after: seq<Option<Op>>)
    requires StoreInv(x) && CrashLeaves(x, left) && Survives(x, left, after)
    ensures WorldInv(Down(left, after))
  {
    hide Inv, Good, JobOk, FlushPlaced, BothGood, DurableSequence, MemoryOk, SavedOk, Unflushed, LogsFrom, LastOf, CutLogs, Leaves, ManifestOk, Describes,
         AllOnDisk, UpTo, HoldsFrom, Entries;
    LogsHold(x.state);
    DurableIsGood(x);
    SurvivesLeaves(x, left, after);
    var v, kept := DurableVersion(x.state), LogsFrom(left.logs, DurableLog(x.state));
    GoodBehind(x);
    GoodLeft(v, Unflushed(x.state), x.history, Lesser(Oldest(x), SavedDurable(x)), SavedDurable(x), kept, after);
    LeavesLength(x.history, SavedDurable(x), kept, after);
    GoodLater(v, kept, after, SavedDurable(x), |after|);
    ManifestNumbers(left.manifest, v, DurableLog(x.state));
    assert O.Openable(left, v, kept, |after|);
    assert DiskHolds(left, after, v, kept);
  }

  lemma ManifestNumbers(m: seq<Record>, v: Version, logNumber: nat)
    requires ManifestOk(m, v, logNumber)
    ensures LogNumberOf(m) == Some(logNumber) && NextFileOf(m).Some? && LastSequenceOf(m).Some?
  {
    hide LeadsTo, AddedBelow;
  }

  lemma LeavesLength(history: seq<Option<Op>>, saved: nat, kept: set<Entry>, after: seq<Option<Op>>)
    requires Leaves(history, saved, kept, after)
    ensures saved <= |after| <= |history|
  {
  }

  lemma GoodBehind(x: Store)
    requires StoreInv(x)
    ensures |x.history| < MAX_SEQUENCE
  {
    hide Inv, BothGood, FlushPlaced, JobOk, SavedOk, MemoryOk;
  }

  /** A crash that takes no batch of a log that is needed, as one of the process alone, takes no update. */
  lemma NothingLost(x: Store, left: Disk, after: seq<Option<Op>>)
    requires StoreInv(x) && CrashLeaves(x, left) && Survives(x, left, after) && left.logs == x.state.disk.logs
    ensures after == x.history
  {
    hide Inv, BothGood, FlushPlaced, JobOk, Good, AllOnDisk, LogsFrom, LastOf, CutLogs, MemoryOk, SavedOk, Unflushed, UpTo, Entries, Leaves, HoldsFrom;
    LogsHold(x.state);
    DurableIsGood(x);
    SurvivesLeaves(x, left, after);
    OneLast(left.logs, DurableLog(x.state), LastSequenceOf(left.manifest).value, |after|, DurableSequence(x.state));
    AllLeft(x.history, SavedDurable(x), Unflushed(x.state), after);
  }

  lemma OneLast(logs: map<nat, seq<Batch>>, from: nat, base: nat, a: nat, b: nat)
    requires LastOf(logs, from, base, a) && LastOf(logs, from, base, b)
    ensures a == b
  {
  }

  // ---------------------------------------------------------------- openings

  /** The new tables have higher numbers than all files of the recovered version. */
  lemma RecoveredBelow(d: Disk, v: Version, unflushed: set<Entry>, last: nat)
    requires O.Openable(d, v, unflushed, last)
    ensures NextFileOf(d.manifest).Some? && NumbersBelow(v, NextFileOf(d.manifest).value)
  {
    O.LeadsAdds(d.manifest, v);
    hide LeadsTo, AllAdded;
    forall l, f | 0 <= l < |v.files| && f in v.files[l] ensures f.number < NextFileOf(d.manifest).value {
      assert f in AllAdded(Edits(d.manifest), l);
    }
  }

  lemma TablesAreAdded(d: Disk, v: Version, unflushed: set<Entry>, last: nat, flushed: seq<File>, t: State)
    requires O.Openable(d, v, unflushed, last) && O.Opened(d, v, unflushed, last, flushed, t) && ReplayedTables(flushed)
    ensures AddedTables(v, unflushed, flushed, t.version)
  {
    hide O.Openable, ReplayedTables, O.SnapshotRecord, O.LogFilesEdit, OnDisk, EditedLevel;
    RecoveredBelow(d, v, unflushed, last);
    assert |v.files| == NUM_LEVELS;
  }

  lemma OpenedEntries(d: Disk, v: Version, unflushed: set<Entry>, last: nat, flushed: seq<File>, t: State)
    requires O.Openable(d, v, unflushed, last) && O.Opened(d, v, unflushed, last, flushed, t)
    ensures Inv(t) && DurableSequence(t) == last && Entries(t.version) == Entries(v) + unflushed
    ensures t.mem == {} && t.imm.None? && t.writer.Idle? && t.flush.NoFlush? && t.work.NoWork? && t.applying.NotApplying? && t.lastSequence == last
  {
    hide O.Openable, Inv, Entries, OnDisk, EditApplied, O.SnapshotRecord, O.LogFilesEdit;
    O.OpenedKeepsAll(d, v, unflushed, last, flushed, t);
  }

  lemma OpenedLast(d: Disk, v: Version, unflushed: set<Entry>, last: nat, flushed: seq<File>, t: State)
    requires O.Opened(d, v, unflushed, last, flushed, t)
    ensures LastSequenceOf(t.disk.manifest) == Some(last)
  {
    hide EditApplied, O.SnapshotRecord, O.LogFilesEdit, OnDisk;
    O.LatestOfTwo(t.disk.manifest);
  }

  lemma OpenIsGood(d: Disk, history: seq<Option<Op>>, flushed: seq<File>, z: Store)
    requires WorldInv(Down(d, history)) && Happens(Down(d, history), Open(flushed), Up(z))
    ensures StoreInv(z)
  {
    hide Inv, Good, O.Openable, O.Opened, ReplayedTables, AddedTables, Entries, DurableSequence, FlushPlaced, UpTo, HoldsFrom, LastSequenceOf;
    var v, unflushed :| DiskHolds(d, history, v, unflushed);
    var v2, unflushed2, last2 :| O.Openable(d, v2, unflushed2, last2) && O.Opened(d, v2, unflushed2, last2, flushed, z.state);
    O.OpenableIsDetermined(d, v, unflushed, |history|, v2, unflushed2, last2);
    var t := z.state;
    OpenedEntries(d, v, unflushed, |history|, flushed, t);
    TablesAreAdded(d, v, unflushed, |history|, flushed, t);
    OpenedIsGood(v, unflushed, flushed, t.version, history, |history|);
    assert Unsaved(t) == {} && t.mem + InFlight(t) == {} && ImmSet(t) == {};
    GoodGenuine(t.version, {}, history, |history|);
    GenuineUpTo({} + Entries(t.version), history, Entries(t.version));
    HoldsNothing(history);
    UpToNothing(|history|);
    OpenedLast(d, v, unflushed, |history|, flushed, t);
    NewerThanNothing({});
    assert FlushPlaced(t.version, t.flush) by { NothingPlaced(t.version); }
  }

  lemma NothingPlaced(v: Version)
    ensures FlushPlaced(v, NoFlush)
  {
  }

  lemma EventKeepsInv(w: World, event: Event, z: World)
    requires WorldInv(w) && Happens(w, event, z)
    ensures WorldInv(z)
  {
    hide StoreInv, Does, Good, O.Openable, O.Opened, O.Opening;
    match event
    case Act(action) =>
      ActionKeepsInv(w.store, action, z.store);
    case Crash(left) =>
      CrashIsGood(w.store, left, z.history);
    case OpenPart(part) =>
      var v, unflushed :| DiskHolds(w.disk, w.history, v, unflushed);
      O.OpeningKeeps(w.disk, v, unflushed, |w.history|, part, z.disk);
      assert DiskHolds(z.disk, z.history, v, unflushed);
    case Open(flushed) =>
      OpenIsGood(w.disk, w.history, flushed, z.store);
  }

  ghost predicate IsRun(worlds: seq<World>, events: seq<Event>) {
    |worlds| == |events| + 1 && forall i :: 0 <= i < |events| ==> Happens(worlds[i], events[i], worlds[i + 1])
  }

  lemma {:induction false} RunKeepsInv(worlds: seq<World>, events: seq<Event>, n: nat)
    requires IsRun(worlds, events) && n <= |events| && WorldInv(worlds[0])
    ensures WorldInv(worlds[n])
  {
    hide WorldInv, Happens;
    if n > 0 {
      RunKeepsInv(worlds, events, n - 1);
      EventKeepsInv(worlds[n - 1], events[n - 1], worlds[n]);
    }
  }

  /** The updates that an event brings. */
  function Logs(event: Event): seq<Option<Op>> {
    if event.Act? && event.action.Internal? && event.action.step.LogBatch? then Made(event.action.step.batch.ops) else []
  }

  function UpdatesOf(events: seq<Event>, n: nat): seq<Option<Op>>
    requires n <= |events|
  {
    if n == 0 then [] else UpdatesOf(events, n - 1) + Logs(events[n - 1])
  }

  /** No crash takes a batch, as when only the process crashes. */
  predicate TakesNothing(w: World, event: Event) {
    event.Crash? && w.Up? ==> event.left.logs == w.store.state.disk.logs
  }

  lemma EventLogs(w: World, event: Event, z: World)
    requires WorldInv(w) && Happens(w, event, z) && TakesNothing(w, event)
    ensures HistoryOf(z) == HistoryOf(w) + Logs(event)
  {
    hide Next, Owed, NextJob, ReplayedTables, O.Openable, O.Opened, O.Opening, StoreInv, CrashLeaves, Survives;
    if event.Crash? {
      NothingLost(w.store, event.left, z.history);
    }
  }

  lemma {:induction false} RunLogsAll(worlds: seq<World>, events: seq<Event>, n: nat)
    requires IsRun(worlds, events) && n <= |events| && WorldInv(worlds[0])
    requires forall i :: 0 <= i < n ==> TakesNothing(worlds[i], events[i])
    ensures HistoryOf(worlds[n]) == HistoryOf(worlds[0]) + UpdatesOf(events, n)
  {
    hide WorldInv, Happens, HistoryOf, Logs;
    if n == 0 {
      assert HistoryOf(worlds[0]) + [] == HistoryOf(worlds[0]);
    } else {
      RunLogsAll(worlds, events, n - 1);
      RunKeepsInv(worlds, events, n - 1);
      EventLogs(worlds[n - 1], events[n - 1], worlds[n]);
    }
  }

  lemma NewWorld()
    ensures WorldInv(Down(O.NewDisk(), []))
  {
    hide O.Openable, O.NewDisk;
    var v := Version([[], [], [], [], [], [], []]);
    O.NewDiskOpens();
    EmptyIsGood(v);
    assert DiskHolds(O.NewDisk(), [], v, {});
  }

  lemma EmptyIsGood(v: Version)
    requires v == Version([[], [], [], [], [], [], []])
    ensures Good(v, {}, [], 0)
  {
    hide ValidVersion, Faithful, Entries;
    EmptyVersion(v);
    EmptyStore(v);
    assert Everything([], None, v) == {} + Entries(v);
  }
}
