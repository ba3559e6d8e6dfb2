/** DB::Open as a whole: whatever a run has left on the disk, it can be opened, and opening it is one of
    the events of StoreLife (Open and Recover of db/db_impl.cc, Recover and LogAndApply of
    db/version_set.cc). */
module OpenDatabase {
  import opened DbFormat
  import opened Versions
  import opened Builders
  import opened CompactionInstall
  import opened Databases
  import opened Recovery
  import opened StoreSteps
  import opened StoreInvariant
  import opened StoreContents
  import opened StoreHistory
  import opened StoreLife
  import opened LogReplay
  import opened LogOrder
  import F = FlushesMeanwhile
  import O = StoreOpen

  /** The tables of an edit, written to the disk. */
  method WriteTables(tables: map<nat, seq<Entry>>, files: seq<File>, ghost first: nat, ghost next: nat) returns (r: map<nat, seq<Entry>>)
    requires NumbersFrom(files, first, next)
    ensures forall f :: f in files ==> OnDisk(r, f)
    ensures forall n :: n in tables && (forall f :: f in files ==> f.number != n) ==> n in r && r[n] == tables[n]
  {
    r := tables;
    var i := 0;
    while i < |files|
      invariant 0 <= i <= |files|
      invariant forall f :: f in files[..i] ==> OnDisk(r, f)
      invariant forall n :: n in tables && (forall f :: f in files ==> f.number != n) ==> n in r && r[n] == tables[n]
    {
      assert files[..i + 1] == files[..i] + [files[i]];
      assert files[i] in files;
      r := r[files[i].number := files[i].table];
      i := i + 1;
    }
    assert files[..i] == files;
  }

  lemma EditIsFresh(v: Version, flushed: seq<File>, l: nat)
    requires |v.files| == NUM_LEVELS && NewNumbers(v.files[0], flushed) && l < NUM_LEVELS
    ensures FreshAt(O.LogFilesEdit(flushed), l, FileSet(v.files[l]))
  {
    O.LogFilesSets(flushed, l);
    var added := if l == 0 then flushed else [];
    assert NewNumbers(v.files[l], added);
    FreshEdit(v.files[l], added, O.LogFilesEdit(flushed), l);
  }

  lemma TablesAreNew(v: Version, flushed: seq<File>, first: nat, next: nat)
    requires |v.files| == NUM_LEVELS && NumbersBelow(v, first) && NumbersFrom(flushed, first, next)
    ensures NewNumbers(v.files[0], flushed)
  {
  }

  lemma LogFilesAreValid(flushed: seq<File>)
    ensures ValidEdit(O.LogFilesEdit(flushed))
  {
  }

  lemma FilesHold(files: seq<File>, es: set<Entry>)
    requires FileEntries(files) == es
    ensures forall e :: e in es <==> exists f :: f in files && e in f.table
  {
  }

  lemma LogsBelow(d: Disk, v: Version, unflushed: set<Entry>, last: nat, numbers: seq<nat>, next: nat)
    requires O.Openable(d, v, unflushed, last) && Listed(numbers, d.logs, LogNumberOf(d.manifest).value)
    requires NextFileOf(d.manifest).value < next && forall n :: n in numbers ==> n < next
    ensures forall n :: n in d.logs ==> n < next
  {
    hide LeadsTo, Describes, AllOnDisk, LastOf, AddedBelow;
  }

  /** What the manifest alone gives. */
  lemma OpenableParts(d: Disk, v: Version, unflushed: set<Entry>, last: nat)
    requires O.Openable(d, v, unflushed, last)
    ensures ValidManifest(d.manifest) && Describes(d.manifest, v) && AllOnDisk(d.tables, v) && |v.files| == NUM_LEVELS
    ensures LogNumberOf(d.manifest).Some? && NextFileOf(d.manifest).Some? && LastSequenceOf(d.manifest).Some?
    ensures unflushed == LogsFrom(d.logs, LogNumberOf(d.manifest).value)
    ensures LastOf(d.logs, LogNumberOf(d.manifest).value, LastSequenceOf(d.manifest).value, last)
  {
    hide LogsFrom, LastOf, ValidManifest, AllOnDisk;
  }

  lemma SameVersion(m: seq<Record>, v: Version, w: Version)
    requires Describes(m, v) && Describes(m, w)
    ensures v == w
  {
    forall l | 0 <= l < NUM_LEVELS ensures v.files[l] == w.files[l] {
      LevelIsUnique(v.files[l], w.files[l]);
    }
    assert v.files == w.files;
  }

  lemma SameLast(logs: map<nat, seq<Batch>>, from: nat, base: nat, a: nat, b: nat)
    requires LastOf(logs, from, base, a) && LastOf(logs, from, base, b)
    ensures a == b
  {
  }

  lemma Applies(v: Version, edit: VersionEdit, w: Version)
    requires |v.files| == |w.files| == NUM_LEVELS
    requires forall l :: 0 <= l < NUM_LEVELS ==> EditedLevel(v.files[l], edit, l, w.files[l])
    ensures EditApplied(v, edit, w)
  {
  }

  /** DB::Open: recovers the version from the manifest and the updates from the logs, writes these as
      tables of level 0, starts a log, and writes a new manifest. */
  method Open(d: Disk, numbers: seq<nat>, full: seq<Entry> -> bool, size: seq<Entry> -> nat, ghost history: seq<Option<Op>>)
    returns (t: State, flushed: seq<File>)
    requires WorldInv(Down(d, history)) && LogsReadable(d)
    requires Listed(numbers, d.logs, LogNumberOf(d.manifest).value)
    ensures Happens(Down(d, history), StoreLife.Open(flushed), Up(Store(t, [], NoJob, history, |history|, |history|, map[])))
  {
    hide O.Openable, Good, LogsReadable, ValidManifest, Describes, AllOnDisk, LogsFrom, LastOf, Listed, LogsInOrder, SmallSequences, NumbersFrom,
         ReplayedTables, EditApplied, EditedLevel, ValidVersion, SortedVersion, FreshAt, NewNumbers, NumbersBelow, O.LogFilesEdit, O.SnapshotRecord,
         LogNumberOf, NextFileOf, LastSequenceOf, FileEntries, OnDisk;
    ghost var v, unflushed :| DiskHolds(d, history, v, unflushed);
    OpenableParts(d, v, unflushed, |history|);
    ReadableParts(d);
    var recovered := RecoverVersion(d.manifest);
    var r := recovered.value;
    SameVersion(d.manifest, r.version, v);
    var edit, last, next := RecoverLogs(d.logs, numbers, r.logNumber, r.lastSequence, r.nextFile + 1, full, size);
    flushed := edit;
    SameLast(d.logs, r.logNumber, r.lastSequence, last, |history|);
    RecoveredBelow(d, v, unflushed, |history|);
    BelowLater(v, r.nextFile);
    TablesAreNew(v, flushed, r.nextFile + 1, next);
    LogsBelow(d, v, unflushed, |history|, numbers, next);
    GoodIsSorted(v, unflushed, history, |history|);
    forall l: nat | l < NUM_LEVELS ensures FreshAt(O.LogFilesEdit(flushed), l, FileSet(v.files[l])) {
      EditIsFresh(v, flushed, l);
    }
    LogFilesAreValid(flushed);
    var w := LogAndApply(r.version, O.LogFilesEdit(flushed));
    Applies(v, O.LogFilesEdit(flushed), w);
    FilesHold(flushed, unflushed);
    var tables := WriteTables(d.tables, flushed, r.nextFile + 1, next);
    var manifest := [O.SnapshotRecord(r.version), Record(O.LogFilesEdit(flushed), Some(next), Some(next + 1), Some(last))];
    t := State(Disk(manifest, d.logs[next := []], tables), {}, None, w, next, next, next + 1, last, {}, Idle, NoFlush, NoWork, NotApplying, false);
    NumberParts(flushed, r.nextFile + 1, next);
    assert O.Opened(d, v, unflushed, |history|, flushed, t);
  }

  lemma BelowLater(v: Version, n: nat)
    requires NumbersBelow(v, n)
    ensures NumbersBelow(v, n + 1)
  {
  }

  lemma NumberParts(files: seq<File>, first: nat, next: nat)
    requires NumbersFrom(files, first, next)
    ensures forall f :: f in files ==> first <= f.number < next
    ensures forall f, g :: f in files && g in files && f.number == g.number ==> f == g
  {
  }

  lemma ReadableParts(d: Disk)
    requires LogsReadable(d)
    ensures LogNumberOf(d.manifest).Some? && LogsInOrder(d.logs, LogNumberOf(d.manifest).value)
    ensures SmallSequences(LogsFrom(d.logs, LogNumberOf(d.manifest).value))
  {
  }

  lemma GoodIsSorted(v: Version, above: set<Entry>, history: seq<Option<Op>>, oldest: nat)
    requires Good(v, above, history, oldest)
    ensures SortedVersion(v)
  {
    hide Genuine, Faithful;
    ValidIsSorted(v);
  }
}
