/** Opening a database: what a crash left is made into a running state again, and a crash during the
    opening loses nothing either (Open, Recover and RecoverLogFile of db/db_impl.cc, WriteSnapshot and
    LogAndApply of db/version_set.cc). */
module StoreOpen {
  import opened DbFormat
  import opened Versions
  import opened Builders
  import opened Databases
  import opened Recovery
  import opened StoreSteps
  import opened StoreInvariant
  import opened TablesKeepInvariant
  import opened EditsKeepInvariant
  import opened StoreRecovery

  // ---------------------------------------------------------------- a disk that can be opened

  /** The files of a database that is not running. */
  ghost predicate Openable(d: Disk, v: Version, unflushed: set<Entry>, last: nat) {
    && Recovers(d, v, unflushed, last)
    && ManifestOk(d.manifest, v, LogNumberOf(d.manifest).value)
  }

  lemma CrashLeavesOpenable(s: State)
    requires Inv(s)
    ensures Openable(s.disk, DurableVersion(s), Unflushed(s), DurableSequence(s))
  {
    InvRecovers(s);
    hide Recovers;
  }

  /** A step of an opening before it switches manifests: writing a table or creating a log with a
      number that the manifest has not given out. */
  datatype OpenStep = LogTable(number: nat, table: seq<Entry>) | NewLog(number: nat)

  ghost predicate Opening(d: Disk, step: OpenStep, e: Disk) {
    && NextFileOf(d.manifest).Some? && step.number > NextFileOf(d.manifest).value
    && match step
       case LogTable(n, table) => e == d.(tables := d.tables[n := table])
       case NewLog(n) => n !in d.logs && e == d.(logs := d.logs[n := []])
  }

  /** An opening that is cut short leaves everything recoverable. */
  lemma OpeningKeeps(d: Disk, v: Version, unflushed: set<Entry>, last: nat, step: OpenStep, e: Disk)
    requires Openable(d, v, unflushed, last) && Opening(d, step, e)
    ensures Openable(e, v, unflushed, last)
  {
    hide LeadsTo, Describes;
    match step
    case LogTable(n, table) =>
      NextIsFresh(d.manifest, v, LogNumberOf(d.manifest).value, n);
      LeadsAdds(d.manifest, v);
      WritingFresh(d.manifest, d.tables, v, n, table);
    case NewLog(n) =>
      var from := LogNumberOf(d.manifest).value;
      EmptyLogAdded(d.logs, from, n);
      LastStays(d.logs, from, LastSequenceOf(d.manifest).value, last, n);
  }

  lemma LeadsAdds(m: seq<Record>, v: Version)
    requires LeadsTo(m, v)
    ensures FilesAdded(m, v)
  {
    DurableWasAdded(m, v);
  }

  lemma EmptyLogAdded(logs: map<nat, seq<Batch>>, from: nat, n: nat)
    requires n !in logs
    ensures LogsFrom(logs[n := []], from) == LogsFrom(logs, from)
  {
    NoBatches();
    hide LogEntries;
    var after := logs[n := []];
    forall e | e in LogsFrom(after, from) ensures e in LogsFrom(logs, from) {
      var k :| k in after && from <= k && e in LogEntries(after[k]);
      assert k in logs && after[k] == logs[k];
    }
    forall e | e in LogsFrom(logs, from) ensures e in LogsFrom(after, from) {
      var k :| k in logs && from <= k && e in LogEntries(logs[k]);
      assert k in after && after[k] == logs[k];
    }
  }

  lemma LastStays(logs: map<nat, seq<Batch>>, from: nat, base: nat, last: nat, n: nat)
    requires LastOf(logs, from, base, last) && n !in logs
    ensures LastOf(logs[n := []], from, base, last)
  {
    var after := logs[n := []];
    if base != last {
      var k, b :| k in logs && from <= k && b in logs[k] && End(b) == last + 1;
      assert k in after && b in after[k];
    }
  }

  // ---------------------------------------------------------------- the new manifest

  /** WriteSnapshot: every file of the version, level by level. */
  function SnapshotFiles(v: Version, levels: nat): seq<(nat, File)>
    requires levels <= |v.files|
  {
    if levels == 0 then [] else SnapshotFiles(v, levels - 1) + Additions(levels - 1, v.files[levels - 1])
  }

  function SnapshotRecord(v: Version): Record {
    Record(VersionEdit([], SnapshotFiles(v, |v.files|)), None, None, None)
  }

  /** The files that the logs were written to, all at level 0. */
  function LogFilesEdit(flushed: seq<File>): VersionEdit {
    VersionEdit([], Additions(0, flushed))
  }

  /** `t` runs on what was recovered from `d`: the updates of the logs are in tables at level 0,
      there is a new log and a new manifest, and the CURRENT file names that manifest. */
  ghost predicate Opened(d: Disk, v: Version, unflushed: set<Entry>, last: nat, flushed: seq<File>, t: State) {
    var k := t.logfileNumber;
    && NextFileOf(d.manifest).Some?
    && (forall f :: f in flushed ==> NextFileOf(d.manifest).value < f.number < t.nextFile && OnDisk(t.disk.tables, f))
    && (forall f, g :: f in flushed && g in flushed && f.number == g.number ==> f == g)
    && (forall e :: e in unflushed <==> exists f :: f in flushed && e in f.table)
    && NextFileOf(d.manifest).value < k < t.nextFile && (forall n :: n in d.logs ==> n < k)
    && (forall n :: n in d.tables && (forall f :: f in flushed ==> f.number != n) ==> n in t.disk.tables && t.disk.tables[n] == d.tables[n])
    && t.disk.logs == d.logs[k := []]
    && t.disk.manifest == [SnapshotRecord(v), Record(LogFilesEdit(flushed), Some(k), Some(t.nextFile), Some(last))]
    && EditApplied(v, LogFilesEdit(flushed), t.version)
    && t == State(t.disk, {}, None, t.version, k, k, t.nextFile, last, {}, Idle, NoFlush, NoWork, NotApplying, false)
  }

  lemma {:induction false} SnapshotAt(v: Version, levels: nat, l: nat, f: File)
    requires levels <= |v.files|
    ensures (l, f) in SnapshotFiles(v, levels) <==> l < levels && f in v.files[l]
  {
    if levels > 0 {
      SnapshotAt(v, levels - 1, l, f);
      var more := Additions(levels - 1, v.files[levels - 1]);
      if l == levels - 1 && f in v.files[l] {
        var i :| 0 <= i < |v.files[l]| && v.files[l][i] == f;
        assert more[i] == (l, f);
      }
      if (l, f) in more {
        var i :| 0 <= i < |more| && more[i] == (l, f);
      }
    }
  }

  lemma SnapshotSets(v: Version, l: nat)
    requires |v.files| == NUM_LEVELS && l < NUM_LEVELS
    ensures AddedAt(SnapshotRecord(v).edit, l) == FileSet(v.files[l])
    ensures DeletedAt(SnapshotRecord(v).edit, l) == {}
  {
    var e := SnapshotRecord(v).edit;
    forall f | f in AddedAt(e, l) ensures f in FileSet(v.files[l]) {
      var i :| 0 <= i < |e.newFiles| && e.newFiles[i].0 == l && e.newFiles[i].1 == f;
      assert e.newFiles[i] == (l, f);
      SnapshotAt(v, NUM_LEVELS, l, f);
    }
    forall f | f in FileSet(v.files[l]) ensures f in AddedAt(e, l) {
      SnapshotAt(v, NUM_LEVELS, l, f);
      var i :| 0 <= i < |e.newFiles| && e.newFiles[i] == (l, f);
    }
  }

  lemma SnapshotIsValid(v: Version)
    requires |v.files| == NUM_LEVELS
    ensures ValidEdit(SnapshotRecord(v).edit)
  {
    var e := SnapshotRecord(v).edit;
    forall i | 0 <= i < |e.newFiles| ensures e.newFiles[i].0 < NUM_LEVELS {
      var (l, f) := e.newFiles[i];
      assert (l, f) in e.newFiles;
      SnapshotAt(v, NUM_LEVELS, l, f);
    }
  }

  lemma OneEditOnly(r: Record, l: nat)
    ensures Edits([r]) == [r.edit] && AllAdded(Edits([r]), l) == AddedAt(r.edit, l)
    ensures OneByOne({}, Edits([r]), l) == Survivors({}, DeletedAt(r.edit, l) - Numbers(AddedAt(r.edit, l)), AddedAt(r.edit, l))
  {
    assert [] + [r] == [r] && Edits([]) == [];
    OneMoreEdit([], r, l);
  }

  /** The snapshot alone leads to the version. */
  lemma SnapshotLeadsTo(m: seq<Record>, v: Version)
    requires LeadsTo(m, v)
    ensures LeadsTo([SnapshotRecord(v)], v)
  {
    hide SnapshotRecord, LevelOf, OneByOne, AddedOnce, ValidEdit, AllAdded, DownOnly;
    var r := SnapshotRecord(v);
    SnapshotLevels(m, v);
    SnapshotIsValid(v);
    SnapshotDownOnly(m, v);
    OneEditOnly(r, 0);
  }

  lemma SnapshotLevels(m: seq<Record>, v: Version)
    requires LeadsTo(m, v)
    ensures |v.files| == NUM_LEVELS
    ensures forall l: nat :: l < NUM_LEVELS ==> LevelOf(v.files[l], OneByOne({}, Edits([SnapshotRecord(v)]), l))
    ensures forall l: nat :: l < NUM_LEVELS ==> AddedOnce({}, Edits([SnapshotRecord(v)]), l)
    ensures forall l: nat :: l < NUM_LEVELS ==> AllAdded(Edits([SnapshotRecord(v)]), l) == FileSet(v.files[l])
  {
    hide SnapshotRecord, OneByOne, AddedOnce, ValidManifest, AllAdded, DownOnly, FilesAdded;
    DurableWasAdded(m, v);
    EachNumberOnce(m, v);
    forall l: nat | l < NUM_LEVELS
      ensures LevelOf(v.files[l], OneByOne({}, Edits([SnapshotRecord(v)]), l))
      ensures AllAdded(Edits([SnapshotRecord(v)]), l) == FileSet(v.files[l])
      ensures AddedOnce({}, Edits([SnapshotRecord(v)]), l)
    {
      SnapshotLevel(v, l);
    }
  }

  lemma SnapshotDownOnly(m: seq<Record>, v: Version)
    requires LeadsTo(m, v)
    requires forall l: nat :: l < NUM_LEVELS ==> AllAdded(Edits([SnapshotRecord(v)]), l) == FileSet(v.files[l])
    ensures DownOnly([SnapshotRecord(v)], v)
  {
    hide SnapshotRecord, OneByOne, ValidManifest, AllAdded;
    DurableWasAdded(m, v);
    forall l: nat, k: nat, g, f
      | l < NUM_LEVELS && k < NUM_LEVELS && g in AllAdded(Edits([SnapshotRecord(v)]), l) && f in v.files[k] && f.number == g.number
      ensures l <= k
    {
      assert g in v.files[l];
      assert g in AllAdded(Edits(m), l);
    }
  }

  lemma SnapshotLevel(v: Version, l: nat)
    requires |v.files| == NUM_LEVELS && l < NUM_LEVELS && SortedBySmallest(v.files[l])
    requires forall f, g :: f in v.files[l] && g in v.files[l] && f.number == g.number ==> f == g
    ensures LevelOf(v.files[l], OneByOne({}, Edits([SnapshotRecord(v)]), l))
    ensures AllAdded(Edits([SnapshotRecord(v)]), l) == FileSet(v.files[l])
    ensures AddedOnce({}, Edits([SnapshotRecord(v)]), l)
  {
    var r := SnapshotRecord(v);
    SnapshotSets(v, l);
    OneEditOnly(r, l);
    hide SnapshotRecord, AddedAt, DeletedAt;
    assert [r.edit][..0] == [] && AllAdded([], l) == {};
  }

  lemma LogFilesSets(flushed: seq<File>, l: nat)
    ensures AddedAt(LogFilesEdit(flushed), l) == FileSet(if l == 0 then flushed else [])
  {
    var e := LogFilesEdit(flushed);
    forall f | f in AddedAt(e, l) ensures l == 0 && f in flushed {
      var i :| 0 <= i < |e.newFiles| && e.newFiles[i].0 == l && e.newFiles[i].1 == f;
    }
    if l == 0 {
      forall f | f in flushed ensures f in AddedAt(e, l) {
        var i :| 0 <= i < |flushed| && flushed[i] == f;
        assert e.newFiles[i] == (0, f);
      }
    }
  }

  lemma LogFilesEditIsGood(m: seq<Record>, v: Version, flushed: seq<File>)
    requires |v.files| == NUM_LEVELS
    requires forall f, g :: f in flushed && g in flushed && f.number == g.number ==> f == g
    requires forall f :: f in flushed ==> FreshNumber(m, f.number)
    ensures GoodEdit(m, v, LogFilesEdit(flushed), 0)
  {
    forall l: nat ensures AddedAt(LogFilesEdit(flushed), l) == FileSet(if l == 0 then flushed else []) {
      LogFilesSets(flushed, l);
    }
    hide AddedAt, FreshNumber;
    assert FileSet([]) == {};
  }

  lemma NewManifestOk(d: Disk, v: Version, unflushed: set<Entry>, last: nat, flushed: seq<File>, t: State)
    requires Openable(d, v, unflushed, last) && Opened(d, v, unflushed, last, flushed, t)
    ensures ManifestOk(t.disk.manifest, t.version, t.logfileNumber)
  {
    var m0, r := [SnapshotRecord(v)], Record(LogFilesEdit(flushed), Some(t.logfileNumber), Some(t.nextFile), Some(last));
    SnapshotLeadsTo(d.manifest, v);
    SnapshotBelow(d.manifest, v, NextFileOf(d.manifest).value);
    hide LeadsTo, EditApplied, SnapshotRecord, Recovers;
    forall f | f in flushed ensures FreshNumber(m0, f.number) {
      BelowIsFresh(m0, NextFileOf(d.manifest).value, f.number);
    }
    LeadsCount(m0, v);
    LogFilesEditIsGood(m0, v, flushed);
    LeadsFurther(m0, v, r, 0, t.version);
    forall l: nat, f | l < NUM_LEVELS && f in AddedAt(r.edit, l) ensures f.number < t.nextFile {
      LogFilesSets(flushed, l);
    }
    BelowMore(m0, r, NextFileOf(d.manifest).value, t.nextFile);
    LatestNumbers(m0, r);
    assert t.disk.manifest == m0 + [r];
  }

  lemma LeadsCount(m: seq<Record>, v: Version)
    requires LeadsTo(m, v)
    ensures |v.files| == NUM_LEVELS
  {
  }

  lemma BelowIsFresh(m: seq<Record>, n: nat, k: nat)
    requires AddedBelow(m, n) && n <= k
    ensures FreshNumber(m, k)
  {
  }

  lemma SnapshotBelow(m: seq<Record>, v: Version, n: nat)
    requires LeadsTo(m, v) && AddedBelow(m, n)
    ensures AddedBelow([SnapshotRecord(v)], n)
  {
    DurableWasAdded(m, v);
    hide ValidManifest, DownOnly, AllAdded, SnapshotRecord;
    forall l: nat, g | l < NUM_LEVELS && g in AllAdded(Edits([SnapshotRecord(v)]), l) ensures g.number < n {
      OneEditOnly(SnapshotRecord(v), l);
      SnapshotSets(v, l);
      assert g in v.files[l];
    }
  }

  /** The opened database holds what was recovered, and goes on under the same invariant. */
  lemma OpenedKeepsAll(d: Disk, v: Version, unflushed: set<Entry>, last: nat, flushed: seq<File>, t: State)
    requires Openable(d, v, unflushed, last) && Opened(d, v, unflushed, last, flushed, t)
    ensures Inv(t)
    ensures Durable(t) == Entries(v) + unflushed && DurableSequence(t) == last
  {
    hide ManifestOk, Entries, EditApplied, TablesOk, LogsOk, Recovers, SnapshotRecord, LogFilesEdit, AllOnDisk;
    NewManifestOk(d, v, unflushed, last, flushed, t);
    OpenedTables(d, v, unflushed, last, flushed, t);
    OpenedLogs(d.logs, t.logfileNumber);
    LatestOfTwo(t.disk.manifest);
    assert t.mem + InFlight(t) == {} && ImmSet(t) == {};
  }

  lemma LatestOfTwo(m: seq<Record>)
    requires |m| == 2 && m[1].lastSequence.Some? && m[1].nextFile.Some?
    ensures LastSequenceOf(m) == m[1].lastSequence && NextFileOf(m) == m[1].nextFile
  {
  }

  lemma OpenedLogs(logs: map<nat, seq<Batch>>, k: nat)
    requires forall n :: n in logs ==> n < k
    ensures LogsOk(logs[k := []], {}, {}, k, k)
  {
    NoBatches();
  }

  lemma OpenedTables(d: Disk, v: Version, unflushed: set<Entry>, last: nat, flushed: seq<File>, t: State)
    requires Openable(d, v, unflushed, last) && Opened(d, v, unflushed, last, flushed, t)
    requires ManifestOk(t.disk.manifest, t.version, t.logfileNumber)
    ensures TablesOk(t.disk.manifest, t.disk.tables, t.version, t.version)
    ensures Entries(t.version) == Entries(v) + unflushed
  {
    hide ManifestOk, LeadsTo, Recovers, EditApplied, FilesAdded, Entries, AllAdded;
    LeadsAddsBoth(d, v, unflushed, last, t);
    forall l: nat | l < NUM_LEVELS
      ensures FileSet(t.version.files[l]) == FileSet(v.files[l]) + FileSet(if l == 0 then flushed else [])
    {
      LogFilesAt(v, flushed, t.version, l);
    }
    OldTables(d, v, unflushed, last, flushed, t);
    TablesWith(v, t.version, flushed, t.disk.tables);
    EntriesWith(v, t.version, flushed, unflushed);
  }

  lemma LeadsAddsBoth(d: Disk, v: Version, unflushed: set<Entry>, last: nat, t: State)
    requires Openable(d, v, unflushed, last) && ManifestOk(t.disk.manifest, t.version, t.logfileNumber)
    ensures FilesAdded(t.disk.manifest, t.version) && |v.files| == |t.version.files| == NUM_LEVELS
  {
    hide FilesAdded, AllOnDisk;
    DurableWasAdded(t.disk.manifest, t.version);
  }

  lemma TablesWith(v: Version, w: Version, flushed: seq<File>, tables: map<nat, seq<Entry>>)
    requires |v.files| == |w.files| == NUM_LEVELS
    requires forall l: nat :: l < NUM_LEVELS ==> FileSet(w.files[l]) == FileSet(v.files[l]) + FileSet(if l == 0 then flushed else [])
    requires AllOnDisk(tables, v) && forall f :: f in flushed ==> OnDisk(tables, f)
    ensures AllOnDisk(tables, w)
  {
    hide OnDisk;
    forall l: nat, f | l < NUM_LEVELS && f in w.files[l] ensures OnDisk(tables, f) {
      assert f in FileSet(w.files[l]);
      assert f in v.files[l] || f in flushed;
    }
  }

  lemma EntriesWith(v: Version, w: Version, flushed: seq<File>, unflushed: set<Entry>)
    requires |v.files| == |w.files| == NUM_LEVELS
    requires forall l: nat :: l < NUM_LEVELS ==> FileSet(w.files[l]) == FileSet(v.files[l]) + FileSet(if l == 0 then flushed else [])
    requires forall e :: e in unflushed <==> exists f :: f in flushed && e in f.table
    ensures Entries(w) == Entries(v) + unflushed
  {
    forall e | e in Entries(w) ensures e in Entries(v) + unflushed {
      var l: nat, f :| l < |w.files| && f in w.files[l] && e in f.table;
      assert f in FileSet(w.files[l]);
      assert f in v.files[l] || f in flushed;
    }
    forall e | e in Entries(v) + unflushed ensures e in Entries(w) {
      if e in Entries(v) {
        var l: nat, f :| l < |v.files| && f in v.files[l] && e in f.table;
        assert f in FileSet(w.files[l]);
      } else {
        var f :| f in flushed && e in f.table;
        assert f in FileSet(w.files[0]);
      }
    }
  }

  lemma LogFilesAt(v: Version, flushed: seq<File>, w: Version, l: nat)
    requires l < NUM_LEVELS && EditApplied(v, LogFilesEdit(flushed), w)
    ensures FileSet(w.files[l]) == FileSet(v.files[l]) + FileSet(if l == 0 then flushed else [])
  {
    LogFilesSets(flushed, l);
    assert DeletedAt(LogFilesEdit(flushed), l) == {};
    hide AddedAt, DeletedAt, LogFilesEdit, SortedBySmallest;
  }

  /** No table of the recovered version is overwritten: its number is below all new ones. */
  lemma OldTables(d: Disk, v: Version, unflushed: set<Entry>, last: nat, flushed: seq<File>, t: State)
    requires Openable(d, v, unflushed, last) && Opened(d, v, unflushed, last, flushed, t)
    ensures AllOnDisk(t.disk.tables, v)
  {
    DurableWasAdded(d.manifest, v);
    hide LeadsTo, EditApplied, Describes;
    forall l: nat, f | l < |v.files| && f in v.files[l] ensures OnDisk(t.disk.tables, f) {
      assert OnDisk(d.tables, f) && f in AllAdded(Edits(d.manifest), l);
    }
  }

  // ---------------------------------------------------------------- every run

  /** A database is running, or down with what is on its disk. */
  datatype World = Running(state: State) | Down(disk: Disk)

  datatype Event = Run(step: Step) | Crash | OpenPart(part: OpenStep) | Open(flushed: seq<File>)

  /** What can be recovered from the world: all entries, and the sequence number of the last update. */
  ghost predicate Holds(w: World, entries: set<Entry>, last: nat) {
    match w
    case Running(s) => Inv(s) && entries == Durable(s) && last == DurableSequence(s)
    case Down(d) => exists v, unflushed :: Openable(d, v, unflushed, last) && entries == Entries(v) + unflushed
  }

  ghost predicate Happens(w: World, event: Event, x: World) {
    match event
    case Run(step) => w.Running? && x.Running? && Next(w.state, step, x.state)
    case Crash => w.Running? && x == Down(w.state.disk)
    case OpenPart(part) => w.Down? && x.Down? && Opening(w.disk, part, x.disk)
    case Open(flushed) =>
      w.Down? && x.Running? && exists v, unflushed, last ::
        Openable(w.disk, v, unflushed, last) && Opened(w.disk, v, unflushed, last, flushed, x.state)
  }

  /** What an event does to the entries that can be recovered, with the files of a compaction left open. */
  ghost function EntriesAfter(w: World, event: Event, entries: set<Entry>): set<Entry> {
    if event.Run? && event.step.LogBatch? then
      entries + BatchEntries(event.step.batch)
    else if event.Run? && event.step.Append? && w.Running? && w.state.applying.Apply? && w.state.applying.kind.OfCompaction? then
      Entries(w.state.applying.next) + Unflushed(w.state)
    else
      entries
  }

  function LastAfter(event: Event, last: nat): nat {
    if event.Run? && event.step.LogBatch? then last + |event.step.batch.ops| else last
  }

  /** Whatever happens next, what can be recovered is known exactly. */
  lemma EventKeeps(w: World, event: Event, x: World, entries: set<Entry>, last: nat)
    requires Holds(w, entries, last) && Happens(w, event, x)
    ensures Holds(x, EntriesAfter(w, event, entries), LastAfter(event, last))
  {
    hide Inv, Openable, Opened, Opening, Next, Durable, Entries, Unflushed;
    match event
    case Run(step) =>
      StepKeepsInv(w.state, step, x.state);
      StepDurable(w.state, step, x.state);
      AppendApplies(w.state, step, x.state);
    case Crash =>
      CrashLeavesOpenable(w.state);
      DurableParts(w.state);
    case OpenPart(part) =>
      var v, unflushed :| Openable(w.disk, v, unflushed, last) && entries == Entries(v) + unflushed;
      OpeningKeeps(w.disk, v, unflushed, last, part, x.disk);
    case Open(flushed) =>
      var v, unflushed :| Openable(w.disk, v, unflushed, last) && entries == Entries(v) + unflushed;
      var v2, unflushed2, last2 :| Openable(w.disk, v2, unflushed2, last2) && Opened(w.disk, v2, unflushed2, last2, flushed, x.state);
      OpenableIsDetermined(w.disk, v, unflushed, last, v2, unflushed2, last2);
      OpenedKeepsAll(w.disk, v, unflushed, last, flushed, x.state);
  }

  lemma DurableParts(s: State)
    ensures Durable(s) == Entries(DurableVersion(s)) + Unflushed(s)
  {
  }

  lemma AppendApplies(s: State, step: Step, t: State)
    requires Next(s, step, t)
    ensures step.Append? ==> s.applying.Apply?
  {
  }

  lemma OpenableIsDetermined(d: Disk, v: Version, a: set<Entry>, x: nat, w: Version, b: set<Entry>, y: nat)
    requires Openable(d, v, a, x) && Openable(d, w, b, y)
    ensures v == w && a == b && x == y
  {
    hide ManifestOk, Recovers;
    RecoveryIsDetermined(d, v, a, x, w, b, y);
  }

  ghost predicate IsRun(worlds: seq<World>, events: seq<Event>) {
    |worlds| == |events| + 1 && forall i :: 0 <= i < |events| ==> Happens(worlds[i], events[i], worlds[i + 1])
  }

  /** What can be recovered after the first `n` events. */
  ghost function RecoverableAt(worlds: seq<World>, events: seq<Event>, entries: set<Entry>, n: nat): set<Entry>
    requires n <= |events| < |worlds|
  {
    if n == 0 then entries else EntriesAfter(worlds[n - 1], events[n - 1], RecoverableAt(worlds, events, entries, n - 1))
  }

  function LastAt(events: seq<Event>, last: nat, n: nat): nat
    requires n <= |events|
  {
    if n == 0 then last else LastAfter(events[n - 1], LastAt(events, last, n - 1))
  }

  /** The bookkeeping of the files over any run, with crashes of the process and interrupted openings
      anywhere (StoreLife has those of the machine): whatever
      files compactions write, what can be recovered changes only when a batch reaches the log, which
      adds the batch, and when the manifest takes the edit of a compaction, which puts the version of
      that edit in place of the one before. What compactions must write for readers to notice nothing
      is the matter of StoreHistory, and what then holds over any run that of StoreReads. */
  lemma {:induction false} RunsAreRecoverable(worlds: seq<World>, events: seq<Event>, entries: set<Entry>, last: nat, n: nat)
    requires IsRun(worlds, events) && n <= |events| && Holds(worlds[0], entries, last)
    ensures Holds(worlds[n], RecoverableAt(worlds, events, entries, n), LastAt(events, last, n))
  {
    hide Holds, Happens, EntriesAfter;
    if n > 0 {
      RunsAreRecoverable(worlds, events, entries, last, n - 1);
      EventKeeps(worlds[n - 1], events[n - 1], worlds[n], RecoverableAt(worlds, events, entries, n - 1), LastAt(events, last, n - 1));
    }
  }

  /** NewDB: the manifest of an empty database. */
  function NewDisk(): Disk {
    Disk([Record(VersionEdit([], []), Some(0), Some(2), Some(0))], map[], map[])
  }

  lemma NewDiskHoldsNothing()
    ensures Holds(Down(NewDisk()), {}, 0)
  {
    hide Openable, Entries, NewDisk;
    NewDiskOpens();
    EmptyVersion(Version([[], [], [], [], [], [], []]));
  }

  lemma NewDiskOpens()
    ensures Openable(NewDisk(), Version([[], [], [], [], [], [], []]), {}, 0)
  {
    hide LeadsTo, AddedBelow, Describes, AllOnDisk, LastOf;
    var v := Version([[], [], [], [], [], [], []]);
    EmptyVersion(v);
    NewManifest();
    LatestNumbers([], NewDisk().manifest[0]);
    assert [] + NewDisk().manifest == NewDisk().manifest;
    assert LogsFrom(map[], 0) == {};
    assert AllOnDisk(map[], v) by { NoTables(v); }
    assert LastOf(map[], 0, 0, 0) by { NoLogs(); }
  }

  lemma NoLogs()
    ensures LastOf(map[], 0, 0, 0)
  {
  }

  lemma NoTables(v: Version)
    requires v == Version([[], [], [], [], [], [], []])
    ensures AllOnDisk(map[], v)
  {
  }

  lemma NewManifest()
    ensures var v := Version([[], [], [], [], [], [], []]);
            LeadsTo(NewDisk().manifest, v) && Describes(NewDisk().manifest, v) && AddedBelow(NewDisk().manifest, 2)
  {
    hide OneByOne, AllAdded, AddedOnce;
    var v, m := Version([[], [], [], [], [], [], []]), NewDisk().manifest;
    forall l: nat | l < NUM_LEVELS
      ensures LevelOf(v.files[l], OneByOne({}, Edits(m), l)) && AllAdded(Edits(m), l) == {} && AddedOnce({}, Edits(m), l)
    {
      NewLevel(l);
    }
    OneEditOnly(m[0], 0);
    hide LevelOf;
    assert Describes(m, v);
    assert ValidManifest(m);
    assert DownOnly(m, v);
  }

  lemma NewLevel(l: nat)
    ensures var m := NewDisk().manifest;
            LevelOf([], OneByOne({}, Edits(m), l)) && AllAdded(Edits(m), l) == {} && AddedOnce({}, Edits(m), l)
  {
    var r := NewDisk().manifest[0];
    OneEditOnly(r, l);
    EmptyLevel();
    hide OneByOne;
    assert FileSet([]) == {};
    assert AddedAt(r.edit, l) == {} && DeletedAt(r.edit, l) == {};
    assert [r.edit][..0] == [] && AllAdded([], l) == {};
    assert Survivors({}, {}, {}) == {} && Numbers({}) == {};
  }
}
