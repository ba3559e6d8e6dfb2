/** What can be recovered at every point of every run: steps, crashes, and openings that may
    themselves be cut short (Open, Recover and RecoverLogFile of db/db_impl.cc). */
module StoreRecovery {
  import opened DbFormat
  import opened Versions
  import opened Builders
  import opened Databases
  import opened Recovery
  import opened StoreSteps
  import opened StoreInvariant
  import opened TablesKeepInvariant
  import opened EditsKeepInvariant

  /** All entries that are on the disk at this point. */
  ghost function Durable(s: State): set<Entry> {
    Entries(DurableVersion(s)) + Unflushed(s)
  }

  /** All entries that a reader finds at this point, and those on their way into the memtable. */
  ghost function Contents(s: State): set<Entry> {
    Entries(s.version) + ImmSet(s) + s.mem + InFlight(s)
  }

  // ---------------------------------------------------------------- what a step changes

  /** `w` is `v` with, possibly, one more file at one level. */
  ghost predicate OneMoreFile(v: Version, flush: Flush, w: Version)
    requires flush.Built?
  {
    && |v.files| == |w.files| == NUM_LEVELS
    && forall l: nat, f: File :: l < NUM_LEVELS ==> (f in w.files[l] <==> f in v.files[l] || (l == flush.level && flush.file.Some? && flush.file.value == f))
  }

  lemma FlushAddsFile(v: Version, flush: Flush, w: Version)
    requires flush.Built? && flush.level < NUM_LEVELS && EditApplied(v, FlushEditOf(flush), w)
    ensures OneMoreFile(v, flush, w)
  {
    var e := FlushEditOf(flush);
    hide SortedBySmallest;
    forall l: nat, f: File | l < NUM_LEVELS ensures f in w.files[l] <==> f in v.files[l] || (l == flush.level && flush.file.Some? && flush.file.value == f) {
      assert f in w.files[l] <==> f in FileSet(w.files[l]);
      assert f in v.files[l] <==> f in FileSet(v.files[l]);
      assert l == flush.level && flush.file == Some(f) ==> e.newFiles[0] == (l, f);
    }
    assert |v.files| == |w.files| == NUM_LEVELS;
    assert forall l: nat, f: File :: l < NUM_LEVELS ==> (f in w.files[l] <==> f in v.files[l] || (l == flush.level && flush.file.Some? && flush.file.value == f));
  }

  lemma FlushEntries(v: Version, flush: Flush, w: Version, imm: set<Entry>)
    requires flush.Built? && flush.level < NUM_LEVELS && EditApplied(v, FlushEditOf(flush), w)
    requires imm == if flush.file.Some? then Elements(flush.file.value.table) else {}
    ensures Entries(w) == Entries(v) + imm
  {
    FlushAddsFile(v, flush, w);
    hide EditApplied, FlushEditOf;
    forall e | e in Entries(w) ensures e in Entries(v) + imm {
      var l: nat, f: File :| l < NUM_LEVELS && f in w.files[l] && e in f.table;
      assert f in v.files[l] || flush.file == Some(f);
    }
    forall e | e in Entries(v) + imm ensures e in Entries(w) {
      if e in Entries(v) {
        var l: nat, f: File :| l < NUM_LEVELS && f in v.files[l] && e in f.table;
        assert f in w.files[l];
      } else {
        assert flush.file.value in w.files[flush.level];
      }
    }
  }

  /** A trivial move takes one file from one level to the next. */
  lemma MoveEntries(m: seq<Record>, v: Version, level: nat, f: File, w: Version)
    requires ValidManifest(m) && FilesAdded(m, v) && level + 1 < NUM_LEVELS && f in v.files[level]
    requires EditApplied(v, CompactionEditOf(level, [f], [], [f]), w)
    ensures Entries(w) == Entries(v)
  {
    EachNumberOnce(m, v);
    hide ValidManifest, FilesAdded, SortedBySmallest, AllAdded;
    forall l, g | 0 <= l < NUM_LEVELS
      ensures g in w.files[l] <==> (g in v.files[l] && !(l == level && g == f)) || (l == level + 1 && g == f)
    {
      EditSets(level, [f], [], [f], l);
      MovedAt(v, level, f, w, l, g);
    }
    hide EditApplied, CompactionEditOf;
    forall e | e in Entries(w) ensures e in Entries(v) {
      var l, g :| 0 <= l < NUM_LEVELS && g in w.files[l] && e in g.table;
      assert g in v.files[l] || g in v.files[level];
    }
    forall e | e in Entries(v) ensures e in Entries(w) {
      var l, g :| 0 <= l < NUM_LEVELS && g in v.files[l] && e in g.table;
      assert g in w.files[if l == level && g == f then level + 1 else l];
    }
  }

  lemma MovedAt(v: Version, level: nat, f: File, w: Version, l: nat, g: File)
    requires level + 1 < NUM_LEVELS && l < NUM_LEVELS && |v.files| == NUM_LEVELS && f in v.files[level]
    requires forall h :: h in v.files[level] && h.number == f.number ==> h == f
    requires EditApplied(v, CompactionEditOf(level, [f], [], [f]), w)
    requires var e := CompactionEditOf(level, [f], [], [f]);
             && DeletedAt(e, l) == Numbers(FileSet(if l == level then [f] else []))
             && AddedAt(e, l) == FileSet(if l == level + 1 then [f] else [])
    ensures g in w.files[l] <==> (g in v.files[l] && !(l == level && g == f)) || (l == level + 1 && g == f)
  {
    hide SortedBySmallest, DeletedAt, AddedAt, CompactionEditOf;
    assert g in w.files[l] <==> g in FileSet(w.files[l]);
    assert FileSet([f]) == {f} && Numbers({f}) == {f.number};
    assert FileSet([]) == {} && Numbers({}) == {};
  }

  lemma EachNumberOnce(m: seq<Record>, v: Version)
    requires ValidManifest(m) && FilesAdded(m, v)
    ensures forall l, f, g :: 0 <= l < NUM_LEVELS && f in v.files[l] && g in v.files[l] && f.number == g.number ==> f == g
  {
    forall l, f, g | 0 <= l < NUM_LEVELS && f in v.files[l] && g in v.files[l] && f.number == g.number ensures f == g {
      AddedNumbersOnce(Edits(m), l, f, g);
    }
  }

  lemma {:induction false} AddedNumbersOnce(es: seq<VersionEdit>, l: nat, f: File, g: File)
    requires AddedOnce({}, es, l) && f in AllAdded(es, l) && g in AllAdded(es, l) && f.number == g.number
    ensures f == g
  {
    var n := |es| - 1;
    var rest := es[..n];
    assert {} + AllAdded(es[..n], l) == AllAdded(rest, l);
    assert FreshAt(es[n], l, AllAdded(rest, l));
    hide AddedAt;
    if f in AllAdded(rest, l) && g in AllAdded(rest, l) {
      assert forall i :: 0 <= i < n ==> rest[..i] == es[..i];
      AddedNumbersOnce(rest, l, f, g);
    }
  }

  /** A batch is on the disk once its log record is written, and nothing else adds to what is there or
      takes from it, except that the results of a compaction take the place of its inputs. */
  lemma StepDurable(s: State, step: Step, t: State)
    requires Inv(s) && Next(s, step, t)
    ensures !(step.Append? && s.applying.kind.OfCompaction?) ==>
              Durable(t) == Durable(s) + if step.LogBatch? then BatchEntries(step.batch) else {}
    ensures step.Append? && s.applying.kind.OfCompaction? ==> Durable(t) == Entries(s.applying.next) + Unflushed(s)
    ensures DurableSequence(t) == DurableSequence(s) + if step.LogBatch? then |step.batch.ops| else 0
  {
    hide Inv, Durable, DurableSequence, WriterStep, TableStep, EditStep, DeleteStep, BatchEntries, Entries, Unflushed;
    if WriterStep(s, step, t) {
      WriterDurable(s, step, t);
    } else if TableStep(s, step, t) {
      TableDurable(s, step, t);
    } else if EditStep(s, step, t) {
      EditDurable(s, step, t);
    } else {
      DeleteDurable(s, step, t);
    }
  }

  lemma WriterDurable(s: State, step: Step, t: State)
    requires Inv(s) && WriterStep(s, step, t)
    ensures !step.Append? && Durable(t) == Durable(s) + if step.LogBatch? then BatchEntries(step.batch) else {}
    ensures DurableSequence(t) == DurableSequence(s) + if step.LogBatch? then |step.batch.ops| else 0
  {
    hide Inv, Entries, BatchEntries;
    if step.SwitchLog? {
      SwitchDurable(s, t);
    }
  }

  lemma TableDurable(s: State, step: Step, t: State)
    requires Inv(s) && TableStep(s, step, t)
    ensures !step.Append? && !step.LogBatch? && Durable(t) == Durable(s) && DurableSequence(t) == DurableSequence(s)
  {
    hide Inv, Entries, BatchEntries, Elements, OutputNumbers;
  }

  lemma DeleteDurable(s: State, step: Step, t: State)
    requires Inv(s) && DeleteStep(s, step, t)
    ensures !step.Append? && !step.LogBatch? && Durable(t) == Durable(s) && DurableSequence(t) == DurableSequence(s)
  {
    hide Inv, Entries, BatchEntries, Live;
  }

  lemma EditDurable(s: State, step: Step, t: State)
    requires Inv(s) && EditStep(s, step, t)
    ensures !step.LogBatch? && DurableSequence(t) == DurableSequence(s)
    ensures !(step.Append? && s.applying.kind.OfCompaction?) ==> Durable(t) == Durable(s)
    ensures step.Append? && s.applying.kind.OfCompaction? ==> Durable(t) == Entries(s.applying.next) + Unflushed(s)
  {
    hide Inv, Entries, BatchEntries, Elements, OutputNumbers, EditApplied, CompactionEditOf, FlushEditOf, RecordFor;
    if step.Append? {
      AppendDurable(s, t);
    } else if step.Install? {
      InstallDurable(s, t);
    }
  }

  lemma SwitchDurable(s: State, t: State)
    requires Inv(s) && WriterStep(s, SwitchLog, t)
    ensures Durable(t) == Durable(s) && DurableSequence(t) == DurableSequence(s)
  {
    hide ManifestOk, TablesOk, LogsOk, LastOf, NumbersOk, WorkOk, Entries, BatchEntries, EditApplied, Elements, OutputNumbers,
         CompactionEditOf, FlushEditOf;
  }

  lemma InstallDurable(s: State, t: State)
    requires Inv(s) && EditStep(s, Install, t)
    ensures Durable(t) == Durable(s) && DurableSequence(t) == DurableSequence(s)
  {
    hide ManifestOk, TablesOk, LogsOk, LastOf, NumbersOk, WorkOk, Entries, BatchEntries, EditApplied, Elements, OutputNumbers,
         CompactionEditOf, FlushEditOf;
  }

  lemma AppendDurable(s: State, t: State)
    requires Inv(s) && EditStep(s, Append, t)
    ensures if s.applying.kind.OfCompaction? then Durable(t) == Entries(s.applying.next) + Unflushed(s) else Durable(t) == Durable(s)
    ensures DurableSequence(t) == DurableSequence(s)
  {
    hide LogsOk, LastOf, WriterOk, NumbersOk, WorkOk, BatchEntries, EditApplied, Entries, Elements, Describes, ValidManifest, DownOnly, AddedBelow,
         FilesAdded, AllOnDisk;
    match s.applying.kind
    case OfFlush =>
      FlushEntries(s.version, s.flush, s.applying.next, s.imm.value);
      assert Durable(t) == Entries(s.version) + s.imm.value + (s.mem + InFlight(s));
    case OfCompaction =>
    case OfMove(level, f) =>
      MoveEntries(s.disk.manifest, s.version, level, f, s.applying.next);
  }

  /** What is on the disk is what readers find, unless the manifest is ahead with a compaction. */
  lemma DurableIsContents(s: State)
    requires Inv(s) && !AheadOf(s, OfCompaction)
    ensures Durable(s) == Contents(s)
  {
    hide LogsOk, LastOf, WriterOk, NumbersOk, WorkOk, TablesOk, BatchEntries, EditApplied, Entries, Elements, AddedBelow;
    if Ahead(s) {
      AheadEntries(s);
    }
  }

  lemma AheadEntries(s: State)
    requires Inv(s) && Ahead(s) && !s.applying.kind.OfCompaction?
    ensures Entries(s.applying.next) == Entries(s.version) + if s.applying.kind.OfFlush? then ImmSet(s) else {}
  {
    hide LogsOk, LastOf, WriterOk, NumbersOk, WorkOk, BatchEntries, EditApplied, Entries, Elements, AddedBelow;
    match s.applying.kind
    case OfFlush =>
      FlushEntries(s.version, s.flush, s.applying.next, s.imm.value);
    case OfMove(level, f) =>
      MoveEntries(s.disk.manifest, s.version, level, f, s.applying.next);
  }
}
