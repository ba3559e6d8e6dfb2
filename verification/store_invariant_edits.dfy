/** The steps of LogAndApply keep the invariant. */
module EditsKeepInvariant {
  import opened DbFormat
  import opened Versions
  import opened Builders
  import opened Databases
  import opened Recovery
  import opened StoreSteps
  import opened StoreInvariant
  import opened TablesKeepInvariant
  import opened WriterKeepsInvariant

  // ---------------------------------------------------------------- one more record in the manifest

  /** The edit adds files to one level only: new ones, or one that it takes away from the level above. */
  ghost predicate GoodEdit(m: seq<Record>, v: Version, e: VersionEdit, target: nat)
    requires |v.files| == NUM_LEVELS
  {
    && ValidEdit(e) && target < NUM_LEVELS
    && (forall l :: 0 <= l < NUM_LEVELS && l != target ==> AddedAt(e, l) == {})
    && (forall f, g :: f in AddedAt(e, target) && g in AddedAt(e, target) && f.number == g.number ==> f == g)
    && (forall f :: f in AddedAt(e, target) ==>
          FreshNumber(m, f.number) || (target > 0 && f in v.files[target - 1] && f.number in DeletedAt(e, target - 1)))
  }

  lemma OneMoreEdit(m: seq<Record>, r: Record, l: nat)
    ensures Edits(m + [r]) == Edits(m) + [r.edit]
    ensures AllAdded(Edits(m + [r]), l) == AllAdded(Edits(m), l) + AddedAt(r.edit, l)
    ensures OneByOne({}, Edits(m + [r]), l)
            == Survivors(OneByOne({}, Edits(m), l), DeletedAt(r.edit, l) - Numbers(AddedAt(r.edit, l)), AddedAt(r.edit, l))
  {
    hide AddedAt, DeletedAt, Survivors, Numbers;
    assert (m + [r])[..|m|] == m;
    var es := Edits(m) + [r.edit];
    assert es[..|es| - 1] == Edits(m);
  }

  lemma DescribesMore(m: seq<Record>, v: Version, r: Record, w: Version)
    requires Describes(m, v) && EditApplied(v, r.edit, w)
    ensures Describes(m + [r], w)
  {
    hide AddedAt, DeletedAt, Survivors, Numbers, SortedBySmallest, OneByOne;
    forall l | 0 <= l < NUM_LEVELS ensures LevelOf(w.files[l], OneByOne({}, Edits(m + [r]), l)) {
      OneMoreEdit(m, r, l);
    }
  }

  /** No level is given a file number that it was given before. */
  lemma NewToLevel(m: seq<Record>, v: Version, e: VersionEdit, target: nat, l: nat)
    requires |v.files| == NUM_LEVELS && GoodEdit(m, v, e, target) && DownOnly(m, v) && l < NUM_LEVELS
    ensures FreshAt(e, l, AllAdded(Edits(m), l))
  {
    hide ValidEdit, AllAdded, DeletedAt, AddedAt;
    forall f, g | f in AddedAt(e, l) && g in AllAdded(Edits(m), l) ensures f.number != g.number {
      assert l == target;
      assert FreshNumber(m, f.number) ==> f.number != g.number;
    }
  }

  lemma AddedOnceMore(m: seq<Record>, r: Record, l: nat)
    requires AddedOnce({}, Edits(m), l) && FreshAt(r.edit, l, AllAdded(Edits(m), l))
    ensures AddedOnce({}, Edits(m + [r]), l)
  {
    OneMoreEdit(m, r, l);
    AddedOnceSnoc(Edits(m), r.edit, l);
    hide AddedOnce, FreshAt;
  }

  lemma AddedOnceSnoc(es: seq<VersionEdit>, e: VersionEdit, l: nat)
    requires AddedOnce({}, es, l) && FreshAt(e, l, AllAdded(es, l))
    ensures AddedOnce({}, es + [e], l)
  {
    hide FreshAt, AllAdded;
    assert {} + AllAdded(es, l) == AllAdded(es, l);
    forall i | 0 <= i < |es + [e]| ensures FreshAt((es + [e])[i], l, {} + AllAdded((es + [e])[..i], l)) {
      if i < |es| {
        assert (es + [e])[..i] == es[..i];
      } else {
        assert (es + [e])[..i] == es;
      }
    }
  }

  lemma ValidMore(m: seq<Record>, v: Version, r: Record, target: nat)
    requires |v.files| == NUM_LEVELS && ValidManifest(m) && GoodEdit(m, v, r.edit, target) && DownOnly(m, v)
    ensures ValidManifest(m + [r])
  {
    forall l | 0 <= l < NUM_LEVELS ensures AddedOnce({}, Edits(m + [r]), l) {
      NewToLevel(m, v, r.edit, target, l);
      AddedOnceMore(m, r, l);
    }
    hide AddedOnce, FreshNumber, DownOnly;
  }

  lemma SurvivorsOf(v: Version, e: VersionEdit, w: Version, k: nat, f: File)
    requires EditApplied(v, e, w) && k < NUM_LEVELS && f in w.files[k]
    ensures f in AddedAt(e, k) || (f in v.files[k] && f.number !in DeletedAt(e, k) - Numbers(AddedAt(e, k)))
  {
    hide AddedAt, DeletedAt, Numbers, SortedBySmallest;
    assert f in FileSet(w.files[k]);
  }

  lemma DownOnlyMore(m: seq<Record>, v: Version, r: Record, target: nat, w: Version)
    requires LeadsTo(m, v) && GoodEdit(m, v, r.edit, target) && EditApplied(v, r.edit, w)
    ensures DownOnly(m + [r], w)
  {
    DurableWasAdded(m, v);
    hide ValidManifest, Describes, EditApplied, ValidEdit, AllAdded, AddedAt, DeletedAt, FreshNumber;
    forall l, k, g, f | 0 <= l < NUM_LEVELS && 0 <= k < NUM_LEVELS && g in AllAdded(Edits(m + [r]), l) && f in w.files[k] && f.number == g.number
      ensures l <= k
    {
      OneMoreEdit(m, r, l);
      SurvivorsOf(v, r.edit, w, k, f);
      NoHigher(m, v, r.edit, target, l, k, g, f);
    }
  }

  lemma NoHigher(m: seq<Record>, v: Version, e: VersionEdit, target: nat, l: nat, k: nat, g: File, f: File)
    requires FilesAdded(m, v) && DownOnly(m, v) && GoodEdit(m, v, e, target)
    requires l < NUM_LEVELS && k < NUM_LEVELS && f.number == g.number
    requires g in AllAdded(Edits(m), l) || g in AddedAt(e, l)
    requires f in AddedAt(e, k) || (f in v.files[k] && f.number !in DeletedAt(e, k) - Numbers(AddedAt(e, k)))
    ensures l <= k
  {
    hide ValidEdit, AllAdded, AddedAt, DeletedAt;
    if g in AllAdded(Edits(m), l) {
      if f in AddedAt(e, k) {
        assert FreshNumber(m, f.number) ==> f.number != g.number;
      }
    }
  }

  lemma LatestNumbers(m: seq<Record>, r: Record)
    requires r.logNumber.Some? && r.nextFile.Some? && r.lastSequence.Some?
    ensures LogNumberOf(m + [r]) == r.logNumber && NextFileOf(m + [r]) == r.nextFile && LastSequenceOf(m + [r]) == r.lastSequence
  {
  }

  lemma LeadsFurther(m: seq<Record>, v: Version, r: Record, target: nat, w: Version)
    requires LeadsTo(m, v) && GoodEdit(m, v, r.edit, target) && EditApplied(v, r.edit, w)
    ensures LeadsTo(m + [r], w)
  {
    DescribesMore(m, v, r, w);
    ValidMore(m, v, r, target);
    DownOnlyMore(m, v, r, target, w);
    hide Describes, ValidManifest, DownOnly, GoodEdit;
  }

  lemma BelowMore(m: seq<Record>, r: Record, n: nat, k: nat)
    requires AddedBelow(m, n) && n <= k
    requires forall l, f :: 0 <= l < NUM_LEVELS && f in AddedAt(r.edit, l) ==> f.number < k
    ensures AddedBelow(m + [r], k)
  {
    hide AllAdded, AddedAt;
    forall l, g | 0 <= l < NUM_LEVELS && g in AllAdded(Edits(m + [r]), l) ensures g.number < k {
      OneMoreEdit(m, r, l);
    }
  }

  lemma ManifestGrows(m: seq<Record>, v: Version, ln: nat, r: Record, target: nat, w: Version)
    requires ManifestOk(m, v, ln) && GoodEdit(m, v, r.edit, target) && EditApplied(v, r.edit, w)
    requires r.logNumber.Some? && r.nextFile.Some? && r.lastSequence.Some? && NextFileOf(m).value <= r.nextFile.value
    requires r.logNumber.value < r.nextFile.value
    requires forall l, f :: 0 <= l < NUM_LEVELS && f in AddedAt(r.edit, l) ==> f.number < r.nextFile.value
    ensures ManifestOk(m + [r], w, r.logNumber.value)
  {
    hide LeadsTo, GoodEdit, AddedBelow, AddedAt;
    LeadsFurther(m, v, r, target, w);
    LatestNumbers(m, r);
    BelowMore(m, r, NextFileOf(m).value, r.nextFile.value);
  }

  // ---------------------------------------------------------------- the edits that are made

  lemma FlushEditIsGood(s: State)
    requires Inv(s) && s.flush.Built? && !AheadOf(s, OfFlush)
    ensures |s.version.files| == NUM_LEVELS && GoodEdit(s.disk.manifest, s.version, FlushEditOf(s.flush), s.flush.level)
    ensures forall l, f :: 0 <= l < NUM_LEVELS && f in AddedAt(FlushEditOf(s.flush), l) ==> f.number < s.nextFile
  {
    VersionHasLevels(s);
    hide ManifestOk, TablesOk, LogsOk, LastOf, WriterOk, WorkOk, ApplyOk, NumbersOk, FreshNumber, OnDisk, OutputNumbers, Elements;
    var e := FlushEditOf(s.flush);
    forall l, f | 0 <= l < NUM_LEVELS && f in AddedAt(e, l) ensures l == s.flush.level && s.flush.file == Some(f) {
      var i :| 0 <= i < |e.newFiles| && e.newFiles[i] == (l, f);
    }
  }

  lemma CompactionEditIsGood(s: State)
    requires Inv(s) && s.work.Working? && !AheadOf(s, OfCompaction)
    ensures |s.version.files| == NUM_LEVELS && s.work.level + 1 < NUM_LEVELS
    ensures var e := CompactionEditOf(s.work.level, s.work.upper, s.work.lower, s.work.outputs);
            && GoodEdit(s.disk.manifest, s.version, e, s.work.level + 1)
            && forall l, f :: 0 <= l < NUM_LEVELS && f in AddedAt(e, l) ==> f.number < s.nextFile
  {
    hide ManifestOk, TablesOk, LogsOk, LastOf, WriterOk, FlushOk, ApplyOk, FreshNumber, OnDisk, InputsOk, OutputNumbers;
    var w := s.work;
    var e := CompactionEditOf(w.level, w.upper, w.lower, w.outputs);
    EditIsValid(w.level, w.upper, w.lower, w.outputs);
    forall l ensures AddedAt(e, l) == FileSet(if l == w.level + 1 then w.outputs else []) {
      EditSets(w.level, w.upper, w.lower, w.outputs, l);
    }
    hide AddedAt, DeletedAt;
    forall f | f in w.outputs ensures f.number < s.nextFile && FreshNumber(s.disk.manifest, f.number) {
      OutputIsNumbered(w, f);
    }
    assert FileSet([]) == {};
  }

  lemma EditIsValid(level: nat, upper: seq<File>, lower: seq<File>, outputs: seq<File>)
    requires level + 1 < NUM_LEVELS
    ensures ValidEdit(CompactionEditOf(level, upper, lower, outputs))
  {
  }

  lemma MoveEditIsGood(m: seq<Record>, v: Version, ln: nat, level: nat, f: File)
    requires ManifestOk(m, v, ln) && level + 1 < NUM_LEVELS && f in v.files[level]
    ensures GoodEdit(m, v, CompactionEditOf(level, [f], [], [f]), level + 1)
    ensures forall l, g :: 0 <= l < NUM_LEVELS && g in AddedAt(CompactionEditOf(level, [f], [], [f]), l) ==> g == f
    ensures f.number < NextFileOf(m).value
  {
    DurableWasAdded(m, v);
    assert f in AllAdded(Edits(m), level);
    hide LeadsTo, AllAdded, FreshNumber;
    var e := CompactionEditOf(level, [f], [], [f]);
    EditIsValid(level, [f], [], [f]);
    forall l ensures AddedAt(e, l) == FileSet(if l == level + 1 then [f] else []) {
      EditSets(level, [f], [], [f], l);
    }
    EditSets(level, [f], [], [f], level);
    hide AddedAt, DeletedAt;
    assert FileSet([]) == {} && FileSet([f]) == {f} && Numbers({f}) == {f.number};
  }

  // ---------------------------------------------------------------- the steps

  /** A batch that is in the log accounts for its updates. */
  lemma LastFrom(s: State, from: nat)
    requires Inv(s) && DurableLog(s) <= from <= s.logfileNumber
    ensures LastOf(s.disk.logs, from, s.lastSequence, DurableSequence(s))
  {
    hide ManifestOk, TablesOk, LogsOk, FlushOk, WorkOk, ApplyOk;
    if DurableSequence(s) != s.lastSequence {
      assert s.writer.batch in s.disk.logs[s.logfileNumber] && End(s.writer.batch) == DurableSequence(s) + 1;
    }
  }

  lemma BeginFlushEditKeeps(s: State, next: Version, t: State)
    requires Inv(s) && EditStep(s, BeginFlushEdit(next), t)
    ensures Inv(t)
  {
    hide ManifestOk, TablesOk, LogsOk, LastOf, FreshNumber, OnDisk, EditApplied, InputsOk, OutputNumbers, GoodEdit, AddedAt, Elements;
    LogBounds(s.disk.logs, s.mem + InFlight(s), ImmSet(s), s.logNumber, s.logfileNumber);
    FlushEditIsGood(s);
    LastFrom(s, s.logfileNumber);
  }

  lemma BeginCompactionEditKeeps(s: State, next: Version, t: State)
    requires Inv(s) && EditStep(s, BeginCompactionEdit(next), t)
    ensures Inv(t)
  {
    hide ManifestOk, TablesOk, LogsOk, LastOf, FreshNumber, OnDisk, EditApplied, InputsOk, OutputNumbers, GoodEdit, AddedAt, CompactionEditOf;
    LogBounds(s.disk.logs, s.mem + InFlight(s), ImmSet(s), s.logNumber, s.logfileNumber);
    CompactionEditIsGood(s);
    LastFrom(s, s.logNumber);
  }

  lemma BeginMoveKeeps(s: State, level: nat, f: File, next: Version, t: State)
    requires Inv(s) && EditStep(s, BeginMove(level, f, next), t)
    ensures Inv(t)
  {
    hide ManifestOk, TablesOk, LogsOk, LastOf, FreshNumber, OnDisk, EditApplied, InputsOk, OutputNumbers, GoodEdit, AddedAt, CompactionEditOf;
    VersionHasLevels(s);
    LogBounds(s.disk.logs, s.mem + InFlight(s), ImmSet(s), s.logNumber, s.logfileNumber);
    MoveEditIsGood(s.disk.manifest, s.version, s.logNumber, level, f);
    LastFrom(s, s.logNumber);
  }

  /** The edit being applied is good as long as it is not in the manifest. */
  lemma AppliedIsGood(s: State) returns (target: nat)
    requires Inv(s) && s.applying.Apply? && !s.applying.appended
    ensures |s.version.files| == NUM_LEVELS && GoodEdit(s.disk.manifest, s.version, s.applying.record.edit, target)
  {
    VersionHasLevels(s);
    match s.applying.kind
    case OfFlush =>
      FlushEditIsGood(s);
      target := s.flush.level;
    case OfCompaction =>
      CompactionEditIsGood(s);
      target := s.work.level + 1;
    case OfMove(level, f) =>
      MoveEditIsGood(s.disk.manifest, s.version, s.logNumber, level, f);
      target := level + 1;
  }

  /** Every file of the new version was there before or is added. */
  lemma NewFilesOnDisk(s: State)
    requires Inv(s) && s.applying.Apply? && !s.applying.appended
    ensures AllOnDisk(s.disk.tables, s.applying.next)
  {
    VersionHasLevels(s);
    forall k, f | 0 <= k < NUM_LEVELS && f in s.applying.next.files[k] ensures OnDisk(s.disk.tables, f) {
      SurvivorsOf(s.version, s.applying.record.edit, s.applying.next, k, f);
      if f in AddedAt(s.applying.record.edit, k) {
        AddedOnDisk(s, k, f);
      } else {
        OldOnDisk(s.disk.tables, s.version, k, f);
      }
    }
  }

  lemma OldOnDisk(tables: map<nat, seq<Entry>>, v: Version, k: nat, f: File)
    requires AllOnDisk(tables, v) && k < |v.files| && f in v.files[k]
    ensures OnDisk(tables, f)
  {
  }

  lemma AddedOnDisk(s: State, k: nat, f: File)
    requires Inv(s) && s.applying.Apply? && !s.applying.appended && k < NUM_LEVELS
    requires f in AddedAt(s.applying.record.edit, k)
    ensures OnDisk(s.disk.tables, f)
  {
    VersionHasLevels(s);
    var e := s.applying.record.edit;
    match s.applying.kind
    case OfFlush =>
      var i :| 0 <= i < |e.newFiles| && e.newFiles[i] == (k, f);
    case OfCompaction =>
      EditSets(s.work.level, s.work.upper, s.work.lower, s.work.outputs, k);
    case OfMove(level, g) =>
      EditSets(level, [g], [], [g], k);
      OldOnDisk(s.disk.tables, s.version, level, g);
  }

  lemma AppendKeeps(s: State, t: State)
    requires Inv(s) && EditStep(s, Append, t)
    ensures Inv(t)
  {
    hide ManifestOk, LogsOk, LastOf, FreshNumber, OnDisk, EditApplied, InputsOk, OutputNumbers, GoodEdit, AddedAt, CompactionEditOf, AllOnDisk,
         FilesAdded, FlushEditOf, Elements;
    var r := s.applying.record;
    var target := AppliedIsGood(s);
    NewFilesOnDisk(s);
    ManifestGrows(s.disk.manifest, s.version, s.logNumber, r, target, s.applying.next);
    LatestNumbers(s.disk.manifest, r);
    StillAdded(s.disk.manifest, s.version, r);
    if s.work.Working? && s.applying.kind.OfFlush? {
      forall n | n in OutputNumbers(s.work) ensures FreshNumber(t.disk.manifest, n) {
        StillFresh(s, n);
      }
    }
  }

  lemma StillAdded(m: seq<Record>, v: Version, r: Record)
    requires FilesAdded(m, v)
    ensures FilesAdded(m + [r], v)
  {
    hide AllAdded, AddedAt;
    forall l, f | 0 <= l < NUM_LEVELS && f in v.files[l] ensures f in AllAdded(Edits(m + [r]), l) {
      OneMoreEdit(m, r, l);
    }
  }

  /** The output numbers of a compaction are not touched by a flush in between. */
  lemma StillFresh(s: State, n: nat)
    requires Inv(s) && s.applying.Apply? && s.applying.kind.OfFlush? && !s.applying.appended
    requires s.work.Working? && n in OutputNumbers(s.work)
    ensures FreshNumber(s.disk.manifest + [s.applying.record], n)
  {
    hide ManifestOk, TablesOk, LogsOk, LastOf, WriterOk, NumbersOk, OutputNumbers, AllAdded, Elements, OnDisk, EditApplied;
    var m, r := s.disk.manifest, s.applying.record;
    forall l, g | 0 <= l < NUM_LEVELS && g in AllAdded(Edits(m + [r]), l) ensures g.number != n {
      OneMoreEdit(m, r, l);
      if g in AddedAt(r.edit, l) {
        var i :| 0 <= i < |r.edit.newFiles| && r.edit.newFiles[i] == (l, g);
        assert s.flush.file == Some(g);
      }
    }
  }

  lemma FlushInstalled(logs: map<nat, seq<Batch>>, current: set<Entry>, older: set<Entry>, ln: nat, lf: nat)
    requires LogsOk(logs, current, older, ln, lf)
    ensures LogsOk(logs, current, {}, lf, lf)
  {
  }

  lemma InstallKeeps(s: State, t: State)
    requires Inv(s) && EditStep(s, Install, t)
    ensures Inv(t)
  {
    hide ManifestOk, LogsOk, LastOf, FreshNumber, OnDisk, EditApplied, InputsOk, OutputNumbers, CompactionEditOf, AllOnDisk, FilesAdded,
         FlushEditOf, Elements;
    DurableFilesAdded(s);
    FlushInstalled(s.disk.logs, s.mem + InFlight(s), ImmSet(s), s.logNumber, s.logfileNumber);
    if s.work.Working? && s.applying.kind.OfFlush? {
      InputsStay(s);
    }
  }

  lemma DurableFilesAdded(s: State)
    requires Inv(s)
    ensures FilesAdded(s.disk.manifest, DurableVersion(s))
  {
    hide LogsOk, LastOf, WriterOk, NumbersOk, FlushOk, WorkOk, ApplyOk, TablesOk, LeadsTo, FilesAdded;
    DurableWasAdded(s.disk.manifest, DurableVersion(s));
  }

  /** A flush takes no file away. */
  lemma InputsStay(s: State)
    requires Inv(s) && Ahead(s) && s.applying.kind.OfFlush? && s.work.Working?
    ensures |s.applying.next.files| == NUM_LEVELS && s.work.level + 1 < NUM_LEVELS && InputsOk(s.applying.next, s.work)
  {
    hide ManifestOk, TablesOk, LogsOk, LastOf, WriterOk, NumbersOk, OutputNumbers, OnDisk, FreshNumber, Elements;
    var e := s.applying.record.edit;
    forall l, f | 0 <= l < NUM_LEVELS && f in s.version.files[l] ensures f in s.applying.next.files[l] {
      assert DeletedAt(e, l) == {};
      assert f in FileSet(s.version.files[l]);
      assert f in FileSet(s.applying.next.files[l]);
    }
  }

  lemma FailKeeps(s: State, t: State)
    requires Inv(s) && EditStep(s, Fail, t)
    ensures Inv(t)
  {
    hide ManifestOk, TablesOk, LogsOk, LastOf, FreshNumber, OnDisk, EditApplied, InputsOk, OutputNumbers, CompactionEditOf, FlushEditOf, Elements;
  }

  // ---------------------------------------------------------------- all steps

  /** Every step of the writer and of the background thread keeps the invariant. */
  lemma StepKeepsInv(s: State, step: Step, t: State)
    requires Inv(s) && Next(s, step, t)
    ensures Inv(t)
  {
    hide Inv;
    match step
    case LogBatch(b) => WriterStepKeeps(s, step, t);
    case ApplyBatch => WriterStepKeeps(s, step, t);
    case Publish => WriterStepKeeps(s, step, t);
    case CreateLog => WriterStepKeeps(s, step, t);
    case SwitchLog => WriterStepKeeps(s, step, t);
    case StartFlush => StartFlushKeeps(s, t);
    case WriteTable(n, table) => WriteKeeps(s, n, table, t);
    case FinishFlush(f, level) => FinishFlushKeeps(s, f, level, t);
    case FlushNothing => FlushNothingKeeps(s, t);
    case StartCompaction(level, upper, lower) => StartCompactionKeeps(s, level, upper, lower, t);
    case OpenOutput => OpenOutputKeeps(s, t);
    case FinishOutput(f) => FinishOutputKeeps(s, f, t);
    case Cleanup => CleanupKeeps(s, t);
    case Abandon => CleanupKeeps(s, t);
    case BeginFlushEdit(next) => BeginFlushEditKeeps(s, next, t);
    case BeginCompactionEdit(next) => BeginCompactionEditKeeps(s, next, t);
    case BeginMove(level, f, next) => BeginMoveKeeps(s, level, f, next, t);
    case Append => AppendKeeps(s, t);
    case Install => InstallKeeps(s, t);
    case Fail => FailKeeps(s, t);
    case DeleteTable(n) => DeleteTableKeeps(s, n, t);
    case DeleteLog(n) => DeleteLogKeeps(s, n, t);
  }

  lemma WriteKeeps(s: State, n: nat, table: seq<Entry>, t: State)
    requires Inv(s) && TableStep(s, WriteTable(n, table), t)
    ensures Inv(t)
  {
    assert FreshNumber(s.disk.manifest, n) by {
      hide ManifestOk, TablesOk, LogsOk, LastOf, WriterOk, NumbersOk, FreshNumber, OnDisk, EditApplied, InputsOk;
      if s.flush != Building(n) {
        assert n in OutputNumbers(s.work);
      }
    }
    hide Inv, FreshNumber;
    WriteTableKeeps(s, n, table, t);
  }
}
