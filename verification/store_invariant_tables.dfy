/** The steps that write and delete files keep the invariant. */
module TablesKeepInvariant {
  import opened DbFormat
  import opened Versions
  import opened Builders
  import opened Databases
  import opened Recovery
  import opened StoreSteps
  import opened StoreInvariant

  // ---------------------------------------------------------------- file numbers

  /** A number not yet given out is fresh. */
  lemma NextIsFresh(m: seq<Record>, v: Version, ln: nat, n: nat)
    requires ManifestOk(m, v, ln) && NextFileOf(m).value <= n
    ensures FreshNumber(m, n)
  {
    hide LeadsTo;
  }

  lemma {:induction false} LevelsWereAdded(edits: seq<VersionEdit>, l: nat)
    ensures OneByOne({}, edits, l) <= AllAdded(edits, l)
  {
    if edits != [] {
      LevelsWereAdded(edits[..|edits| - 1], l);
    }
  }

  lemma DurableWasAdded(m: seq<Record>, v: Version)
    requires LeadsTo(m, v)
    ensures FilesAdded(m, v)
  {
    hide ValidManifest, DownOnly;
    forall l, f | 0 <= l < NUM_LEVELS && f in v.files[l] ensures f in AllAdded(Edits(m), l) {
      LevelsWereAdded(Edits(m), l);
      assert f in FileSet(v.files[l]);
    }
  }

  /** A table with a fresh number can be written without harm to any version. */
  lemma WritingFresh(m: seq<Record>, tables: map<nat, seq<Entry>>, v: Version, n: nat, table: seq<Entry>)
    requires AllOnDisk(tables, v) && FilesAdded(m, v) && FreshNumber(m, n)
    ensures AllOnDisk(tables[n := table], v) && AllOnDisk(tables - {n}, v)
  {
    hide AllAdded;
    forall l, f | 0 <= l < NUM_LEVELS && f in v.files[l] ensures f.number != n && OnDisk(tables, f) {
      assert f in AllAdded(Edits(m), l);
    }
  }

  lemma TablesWithFresh(m: seq<Record>, tables: map<nat, seq<Entry>>, v: Version, durable: Version, ln: nat, n: nat, table: seq<Entry>)
    requires ManifestOk(m, durable, ln) && TablesOk(m, tables, v, durable) && FreshNumber(m, n)
    ensures TablesOk(m, tables[n := table], v, durable) && TablesOk(m, tables - {n}, v, durable)
  {
    DurableWasAdded(m, durable);
    WritingFresh(m, tables, v, n, table);
    WritingFresh(m, tables, durable, n, table);
    hide AllOnDisk, FilesAdded, FreshNumber, ManifestOk;
  }

  // ---------------------------------------------------------------- the steps of a flush

  lemma StartFlushKeeps(s: State, t: State)
    requires Inv(s) && TableStep(s, StartFlush, t)
    ensures Inv(t)
  {
    hide ManifestOk, TablesOk, LogsOk, LastOf, FreshNumber, OnDisk, EditApplied, InputsOk;
    NextIsFresh(s.disk.manifest, DurableVersion(s), DurableLog(s), s.nextFile);
  }

  lemma WriteTableKeeps(s: State, n: nat, table: seq<Entry>, t: State)
    requires Inv(s) && TableStep(s, WriteTable(n, table), t)
    requires FreshNumber(s.disk.manifest, n)
    ensures Inv(t)
  {
    hide ManifestOk, TablesOk, LogsOk, LastOf, FreshNumber, EditApplied, InputsOk;
    TablesWithFresh(s.disk.manifest, s.disk.tables, s.version, DurableVersion(s), DurableLog(s), n, table);
    OtherTables(s, n, table);
  }

  /** The file being written is not one that was finished. */
  lemma OtherTables(s: State, n: nat, table: seq<Entry>)
    requires FlushOk(s) && WorkOk(s)
    requires s.flush == Building(n) || (s.work.Working? && s.work.current == Some(n))
    ensures s.work.Working? ==> forall f :: f in s.work.outputs ==> OnDisk(s.disk.tables[n := table], f)
    ensures s.flush.Built? && s.flush.file.Some? ==> OnDisk(s.disk.tables[n := table], s.flush.file.value)
  {
    hide FreshNumber, InputsOk;
    if s.work.Working? {
      forall f | f in s.work.outputs ensures f.number != n {
        OutputIsNumbered(s.work, f);
      }
    }
  }

  lemma OutputIsNumbered(work: Work, f: File)
    requires work.Working? && f in work.outputs
    ensures f.number in OutputNumbers(work)
  {
    assert f in FileSet(work.outputs);
  }

  lemma FinishFlushKeeps(s: State, f: File, level: nat, t: State)
    requires Inv(s) && TableStep(s, FinishFlush(f, level), t)
    ensures Inv(t)
  {
    hide ManifestOk, TablesOk, LogsOk, LastOf, FreshNumber, EditApplied, InputsOk, Elements, OutputNumbers;
    TablesWithFresh(s.disk.manifest, s.disk.tables, s.version, DurableVersion(s), DurableLog(s), f.number, f.table);
    OtherTables(s, f.number, f.table);
  }

  lemma FlushNothingKeeps(s: State, t: State)
    requires Inv(s) && TableStep(s, FlushNothing, t)
    ensures Inv(t)
  {
    hide ManifestOk, TablesOk, LogsOk, LastOf, FreshNumber, EditApplied, InputsOk, OutputNumbers;
    var n := s.flush.number;
    TablesWithFresh(s.disk.manifest, s.disk.tables, s.version, DurableVersion(s), DurableLog(s), n, []);
    OtherTables(s, n, []);
    if s.work.Working? {
      forall f | f in s.work.outputs ensures OnDisk(t.disk.tables, f) {
        OutputIsNumbered(s.work, f);
      }
    }
  }

  // ---------------------------------------------------------------- the steps of a compaction

  lemma StartCompactionKeeps(s: State, level: nat, upper: seq<File>, lower: seq<File>, t: State)
    requires Inv(s) && TableStep(s, StartCompaction(level, upper, lower), t)
    ensures Inv(t)
  {
    hide ManifestOk, TablesOk, LogsOk, LastOf, FreshNumber, OnDisk, EditApplied, WriterOk, ApplyOk, Elements;
    VersionHasLevels(s);
    assert Numbers(FileSet([])) == {};
    assert OutputNumbers(t.work) == OutputNumbers(s.work) == {};
    NothingApplied(s, t);
    SameWriter(s, t);
  }

  lemma NothingApplied(s: State, t: State)
    requires s.applying.NotApplying? && t.applying.NotApplying?
    ensures ApplyOk(t)
  {
  }

  lemma SameWriter(s: State, t: State)
    requires WriterOk(s) && t == s.(work := t.work)
    ensures WriterOk(t)
  {
  }

  lemma VersionHasLevels(s: State)
    requires Inv(s)
    ensures |s.version.files| == NUM_LEVELS
  {
    hide ManifestOk, LogsOk, LastOf, WriterOk, NumbersOk, FlushOk, WorkOk, ApplyOk;
  }

  lemma OpenOutputKeeps(s: State, t: State)
    requires Inv(s) && TableStep(s, OpenOutput, t)
    ensures Inv(t)
  {
    hide ManifestOk, TablesOk, LogsOk, LastOf, FreshNumber, OnDisk, EditApplied;
    NextIsFresh(s.disk.manifest, DurableVersion(s), DurableLog(s), s.nextFile);
    assert OutputNumbers(t.work) == OutputNumbers(s.work) + {s.nextFile};
    forall f | f in s.work.outputs ensures f.number != s.nextFile {
      OutputIsNumbered(s.work, f);
    }
  }

  lemma FinishOutputKeeps(s: State, f: File, t: State)
    requires Inv(s) && TableStep(s, FinishOutput(f), t)
    ensures Inv(t)
  {
    hide ManifestOk, TablesOk, LogsOk, LastOf, FreshNumber, EditApplied, WorkOk, ApplyOk, FlushOk, WriterOk, OutputNumbers, OnDisk, Elements;
    CurrentIsOutput(s, f.number);
    TablesWithFresh(s.disk.manifest, s.disk.tables, s.version, DurableVersion(s), DurableLog(s), f.number, f.table);
    OneMoreOutput(s.work, f);
    OutputWork(s, f, t);
    OutputRest(s, f, t);
  }

  lemma CurrentIsOutput(s: State, n: nat)
    requires Inv(s) && s.work.Working? && s.work.current == Some(n)
    ensures n in OutputNumbers(s.work) && FreshNumber(s.disk.manifest, n)
    ensures s.applying.Apply? ==> s.applying.kind.OfFlush?
  {
    hide ManifestOk, TablesOk, LogsOk, LastOf, FreshNumber, EditApplied, OnDisk;
  }

  lemma OutputWork(s: State, f: File, t: State)
    requires Inv(s) && TableStep(s, FinishOutput(f), t)
    requires OutputNumbers(t.work) == OutputNumbers(s.work)
    ensures WorkOk(t)
  {
    hide ManifestOk, TablesOk, LogsOk, LastOf, FreshNumber, EditApplied, ApplyOk, WriterOk, OutputNumbers, Elements;
    OtherTables(s, f.number, f.table);
  }

  lemma OutputRest(s: State, f: File, t: State)
    requires Inv(s) && TableStep(s, FinishOutput(f), t)
    requires OutputNumbers(t.work) == OutputNumbers(s.work) && f.number in OutputNumbers(s.work)
    requires s.applying.Apply? ==> s.applying.kind.OfFlush?
    ensures FlushOk(t) && WriterOk(t) && ApplyOk(t)
  {
    hide ManifestOk, TablesOk, LogsOk, LastOf, FreshNumber, EditApplied, WorkOk, OutputNumbers, Elements, FlushEditOf;
  }

  lemma OneMoreOutput(work: Work, f: File)
    requires work.Working? && work.current == Some(f.number)
    ensures OutputNumbers(work.(outputs := work.outputs + [f], current := None)) == OutputNumbers(work)
  {
    assert FileSet(work.outputs + [f]) == FileSet(work.outputs) + {f};
    assert Numbers(FileSet(work.outputs) + {f}) == Numbers(FileSet(work.outputs)) + {f.number};
  }

  lemma CleanupKeeps(s: State, t: State)
    requires Inv(s) && (TableStep(s, Cleanup, t) || TableStep(s, Abandon, t))
    ensures Inv(t)
  {
    hide ManifestOk, TablesOk, LogsOk, LastOf, FreshNumber, OnDisk, EditApplied, InputsOk;
    BuildingStaysPending(s);
  }

  lemma BuildingStaysPending(s: State)
    requires FlushOk(s)
    ensures s.flush.Building? ==> s.flush.number in s.pending - OutputNumbers(s.work)
  {
  }

  // ---------------------------------------------------------------- deleting obsolete files

  lemma DeleteTableKeeps(s: State, n: nat, t: State)
    requires Inv(s) && DeleteStep(s, DeleteTable(n), t)
    ensures Inv(t)
  {
    hide ManifestOk, LogsOk, LastOf, FreshNumber, EditApplied, InputsOk, FilesAdded;
    forall l, f | 0 <= l < |s.version.files| && f in s.version.files[l] ensures OnDisk(t.disk.tables, f) {
      assert f.number != n;
      assert OnDisk(s.disk.tables, f);
    }
    if s.work.Working? {
      forall f | f in s.work.outputs ensures OnDisk(t.disk.tables, f) {
        OutputIsNumbered(s.work, f);
      }
    }
  }

  lemma DeleteLogKeeps(s: State, n: nat, t: State)
    requires Inv(s) && DeleteStep(s, DeleteLog(n), t)
    ensures Inv(t)
  {
    LogDeleted(s.disk.logs, s.mem + InFlight(s), ImmSet(s), s.logNumber, s.logfileNumber, n);
    LastWithoutLog(s.disk.logs, DurableLog(s), LastSequenceOf(s.disk.manifest).value, DurableSequence(s), n);
    hide ManifestOk, TablesOk, LogsOk, LastOf, FreshNumber, OnDisk, EditApplied, InputsOk;
    LogBounds(s.disk.logs, s.mem + InFlight(s), ImmSet(s), s.logNumber, s.logfileNumber);
  }

  lemma LogDeleted(logs: map<nat, seq<Batch>>, current: set<Entry>, older: set<Entry>, ln: nat, lf: nat, n: nat)
    requires LogsOk(logs, current, older, ln, lf) && n < ln
    ensures LogsOk(logs - {n}, current, older, ln, lf)
  {
    hide LogEntries;
    SameBetween(logs - {n}, logs, ln, lf);
  }

  lemma LastWithoutLog(logs: map<nat, seq<Batch>>, from: nat, base: nat, last: nat, n: nat)
    requires LastOf(logs, from, base, last) && n < from
    ensures LastOf(logs - {n}, from, base, last)
  {
    if base != last {
      var k, b :| k in logs && from <= k && b in logs[k] && End(b) == last + 1;
      assert k in logs - {n} && b in (logs - {n})[k];
    }
  }
}
