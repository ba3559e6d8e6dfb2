/** Replaying the logs when a database is opened: memtables are filled from the batches in the order of
    the logs and written out as tables (RecoverLogFile and Recover of db/db_impl.cc, InsertInto of
    db/write_batch.cc). */
module LogReplay {
  import opened DbFormat
  import opened Versions
  import opened Databases
  import opened Recovery
  import opened StoreLife
  import C = StoreContents

  /** Everything in `a` was written before everything in `b`. */
  ghost predicate Earlier(a: set<Entry>, b: set<Entry>) {
    forall x, y :: x in a && y in b ==> x.key.sequence < y.key.sequence
  }

  ghost predicate EndsBefore(es: set<Entry>, sequence: nat) {
    forall e :: e in es ==> e.key.sequence < sequence
  }

  /** The batches of a log have increasing sequence numbers. */
  ghost predicate InOrder(log: seq<Batch>) {
    forall i, j :: 0 <= i < j < |log| ==> End(log[i]) <= log[j].sequence
  }

  /** All that is in `es` was written before the batches of `log` from the `i`-th on. */
  ghost predicate BeforeLog(es: set<Entry>, log: seq<Batch>, i: nat) {
    forall j :: i <= j < |log| ==> EndsBefore(es, log[j].sequence)
  }

  ghost predicate SmallSequences(es: set<Entry>) {
    forall e :: e in es ==> e.key.sequence <= MAX_SEQUENCE
  }

  /** A table with a higher number was written later. */
  ghost predicate Aged(files: seq<File>) {
    forall f, g :: f in files && g in files && f.number > g.number ==> Earlier(Elements(g.table), Elements(f.table))
  }

  ghost predicate NumbersFrom(files: seq<File>, first: nat, next: nat) {
    && (forall f :: f in files ==> first <= f.number < next)
    && (forall f, g :: f in files && g in files && f.number == g.number ==> f == g)
  }

  /** `last` is the greatest of `base` and the last sequence numbers of the batches. */
  ghost predicate Latest(log: seq<Batch>, base: nat, last: nat) {
    && base <= last
    && (forall b :: b in log ==> End(b) <= last + 1)
    && (base == last || exists b :: b in log && End(b) == last + 1)
  }

  lemma AgedIsReplayed(files: seq<File>)
    requires WellFormedFiles(files) && Aged(files)
    ensures ReplayedTables(files)
  {
    hide WellFormed;
    forall f, g | f in files && g in files && f.number > g.number ensures Newer(f.table, g.table) {
      assert Earlier(Elements(g.table), Elements(f.table));
      forall x, y | x in f.table && y in g.table && x.key.user == y.key.user ensures x.key.sequence > y.key.sequence {
        assert x in Elements(f.table) && y in Elements(g.table);
      }
    }
  }

  // ---------------------------------------------------------------- one batch

  /** InsertInto: the updates of a batch go into the memtable with consecutive sequence numbers. */
  method InsertInto(batch: Batch, mem: seq<Entry>) returns (r: seq<Entry>)
    requires SortedTable(mem) && EndsBefore(Elements(mem), batch.sequence)
    ensures SortedTable(r) && Elements(r) == Elements(mem) + BatchEntries(batch)
  {
    hide SortedTable, BatchEntries, Less, InsertEntry;
    r := mem;
    var i := 0;
    NoUpdates(batch.sequence);
    assert batch.ops[..0] == [];
    while i < |batch.ops|
      invariant 0 <= i <= |batch.ops|
      invariant SortedTable(r) && Elements(r) == Elements(mem) + BatchEntries(Batch(batch.sequence, batch.ops[..i]))
    {
      var op := batch.ops[i];
      var e := Entry(InternalKey(op.user, batch.sequence + i, op.kind), op.value);
      PartEnds(batch, i);
      LaterCompares(r, mem, batch, i, e);
      C.OneMoreEntry(batch, i);
      InsertedElements(r, e);
      r := InsertEntry(r, e);
      i := i + 1;
    }
    assert batch.ops[..i] == batch.ops && Batch(batch.sequence, batch.ops) == batch;
  }

  lemma NoUpdates(sequence: nat)
    ensures BatchEntries(Batch(sequence, [])) == {}
  {
  }

  lemma PartEnds(batch: Batch, i: nat)
    requires i <= |batch.ops|
    ensures EndsBefore(BatchEntries(Batch(batch.sequence, batch.ops[..i])), batch.sequence + i)
  {
  }

  lemma LaterCompares(r: seq<Entry>, mem: seq<Entry>, batch: Batch, i: nat, e: Entry)
    requires i < |batch.ops| && e.key.sequence == batch.sequence + i && EndsBefore(Elements(mem), batch.sequence)
    requires Elements(r) == Elements(mem) + BatchEntries(Batch(batch.sequence, batch.ops[..i]))
    requires EndsBefore(BatchEntries(Batch(batch.sequence, batch.ops[..i])), batch.sequence + i)
    ensures forall d :: d in r ==> Less(d.key, e.key) || Less(e.key, d.key)
  {
    hide BatchEntries;
    forall d | d in r ensures d.key.sequence < e.key.sequence {
      assert d in Elements(r);
    }
  }

  lemma InsertedElements(t: seq<Entry>, e: Entry)
    requires SortedTable(t) && forall d :: d in t ==> Less(d.key, e.key) || Less(e.key, d.key)
    ensures Elements(InsertEntry(t, e)) == Elements(t) + {e}
  {
    hide InsertEntry, SortedTable, Less;
  }

  lemma LogWith(log: seq<Batch>, i: nat)
    requires i < |log|
    ensures LogEntries(log[..i + 1]) == LogEntries(log[..i]) + BatchEntries(log[i])
  {
    hide BatchEntries;
    assert log[..i + 1] == log[..i] + [log[i]];
    assert log[i] in log[..i + 1];
  }

  lemma BatchEnds(b: Batch)
    ensures EndsBefore(BatchEntries(b), End(b)) && forall e :: e in BatchEntries(b) ==> e.key.sequence >= b.sequence
  {
  }

  lemma LatestWith(log: seq<Batch>, i: nat, base: nat, last: nat)
    requires i < |log| && Latest(log[..i], base, last)
    ensures Latest(log[..i + 1], base, if End(log[i]) > last + 1 then End(log[i]) - 1 else last)
  {
    assert log[..i + 1] == log[..i] + [log[i]];
    assert log[i] in log[..i + 1];
  }

  // ---------------------------------------------------------------- one log

  lemma TableIsWellFormed(f: File, mem: seq<Entry>)
    requires mem != [] && SortedTable(mem) && SmallSequences(Elements(mem))
    requires f.table == mem && f.smallest == mem[0].key && f.largest == mem[|mem| - 1].key
    ensures WellFormed(f)
  {
    hide SortedTable;
    forall e | e in f.table ensures e.key.sequence <= MAX_SEQUENCE {
      assert e in Elements(mem);
    }
  }

  lemma TableAdded(files: seq<File>, f: File, first: nat)
    requires WellFormedFiles(files) && Aged(files) && NumbersFrom(files, first, f.number) && first <= f.number
    requires WellFormed(f) && Earlier(FileEntries(files), Elements(f.table))
    ensures WellFormedFiles(files + [f]) && Aged(files + [f]) && NumbersFrom(files + [f], first, f.number + 1)
    ensures FileEntries(files + [f]) == FileEntries(files) + Elements(f.table)
  {
    hide WellFormed;
    var r := files + [f];
    forall g, h | g in r && h in r && g.number > h.number ensures Earlier(Elements(h.table), Elements(g.table)) {
      if g == f {
        forall x, y | x in Elements(h.table) && y in Elements(g.table) ensures x.key.sequence < y.key.sequence {
          assert x in FileEntries(files);
        }
      }
    }
    forall e | e in FileEntries(files) + Elements(f.table) ensures e in FileEntries(r) {
      if e in FileEntries(files) {
        var g :| g in files && e in g.table;
        assert g in r;
      } else {
        assert f in r;
      }
    }
  }

  lemma NothingEarlier(es: set<Entry>)
    ensures Earlier(es, {}) && Elements([]) == {} && SortedTable([]) && es + {} == es
  {
  }

  lemma StartOfLog(log: seq<Batch>, base: nat)
    ensures LogEntries(log[..0]) == {} && Latest(log[..0], base, base)
  {
  }

  /** The next batch is later than all that was read before, and the batches behind it are later still. */
  lemma NextBatch(stored: set<Entry>, mem: set<Entry>, log: seq<Batch>, i: nat)
    requires i < |log| && InOrder(log) && Earlier(stored, mem) && BeforeLog(stored + mem, log, i)
    ensures EndsBefore(mem, log[i].sequence)
    ensures Earlier(stored, mem + BatchEntries(log[i]))
    ensures BeforeLog(stored + (mem + BatchEntries(log[i])), log, i + 1)
  {
    hide BatchEntries;
    BatchEnds(log[i]);
  }

  lemma LogPart(log: seq<Batch>, i: nat)
    requires i <= |log| && SmallSequences(LogEntries(log))
    ensures SmallSequences(LogEntries(log[..i]))
  {
    hide BatchEntries;
    assert forall b :: b in log[..i] ==> b in log;
    assert LogEntries(log[..i]) <= LogEntries(log);
  }

  lemma SmallPart(a: set<Entry>, b: set<Entry>)
    requires SmallSequences(a) && b <= a
    ensures SmallSequences(b)
  {
  }

  ghost function MemEntries(mem: Option<seq<Entry>>): set<Entry> {
    if mem.Some? then Elements(mem.value) else {}
  }

  /** What RecoverLogFile works on: the tables of its edit, all at level 0, and two counters. */
  class Replay {
    var edit: seq<File>
    var nextFile: nat
    var maxSequence: nat
    const firstFile: nat

    constructor (next: nat)
      ensures Valid() && edit == [] && maxSequence == 0 && nextFile == firstFile == next
    {
      edit, nextFile, maxSequence, firstFile := [], next, 0, next;
    }

    ghost predicate Valid()
      reads this
    {
      WellFormedFiles(edit) && Aged(edit) && NumbersFrom(edit, firstFile, nextFile) && firstFile <= nextFile
    }

    ghost function Stored(): set<Entry>
      reads this
    {
      FileEntries(edit)
    }

    /** WriteLevel0Table without a version to pick a level from; an empty table is not kept. */
    method WriteLevel0Table(mem: seq<Entry>, size: nat)
      requires Valid() && SortedTable(mem) && SmallSequences(Elements(mem)) && Earlier(Stored(), Elements(mem))
      modifies this
      ensures Valid() && Stored() == old(Stored()) + Elements(mem)
      ensures nextFile == old(nextFile) + 1 && maxSequence == old(maxSequence)
    {
      var number := nextFile;
      nextFile := nextFile + 1;
      if mem != [] {
        var f := File(number, size, mem[0].key, mem[|mem| - 1].key, mem);
        TableIsWellFormed(f, mem);
        TableAdded(edit, f, firstFile);
        edit := edit + [f];
      }
    }

    /** MarkFileNumberUsed. */
    method MarkUsed(number: nat)
      requires Valid()
      modifies `nextFile
      ensures Valid() && Stored() == old(Stored())
      ensures nextFile == if number >= old(nextFile) then number + 1 else old(nextFile)
    {
      if nextFile <= number {
        nextFile := number + 1;
      }
    }

    method SetLast(last: nat)
      requires Valid()
      modifies `maxSequence
      ensures Valid() && Stored() == old(Stored()) && maxSequence == last
    {
      maxSequence := last;
    }

    /** One log: every batch goes into the memtable, which is written out when it is full and at the end. */
    method RecoverLogFile(log: seq<Batch>, full: seq<Entry> -> bool, size: seq<Entry> -> nat)
      requires Valid() && InOrder(log) && SmallSequences(LogEntries(log)) && BeforeLog(Stored(), log, 0)
      modifies this
      ensures Valid() && Stored() == old(Stored()) + LogEntries(log)
      ensures Latest(log, old(maxSequence), maxSequence) && nextFile >= old(nextFile)
    {
      hide Valid, Stored, SortedTable, LogEntries, BatchEntries, InOrder, SmallSequences, Earlier, BeforeLog, Latest, EndsBefore, Elements;
      var mem: Option<seq<Entry>> := None;
      var i := 0;
      NothingEarlier(Stored());
      StartOfLog(log, maxSequence);
      while i < |log|
        invariant 0 <= i <= |log| && Valid() && (mem.Some? ==> SortedTable(mem.value))
        invariant Stored() + MemEntries(mem) == old(Stored()) + LogEntries(log[..i]) && MemEntries(mem) <= LogEntries(log[..i])
        invariant Earlier(Stored(), MemEntries(mem)) && BeforeLog(Stored() + MemEntries(mem), log, i)
        invariant Latest(log[..i], old(maxSequence), maxSequence) && nextFile >= old(nextFile)
      {
        var batch := log[i];
        ghost var stored, before := Stored(), MemEntries(mem);
        NextBatch(stored, before, log, i);
        NothingEarlier(stored);
        if mem.None? {
          mem := Some([]);
        }
        assert Elements(mem.value) == before;
        var table := InsertInto(batch, mem.value);
        mem := Some(table);
        LogWith(log, i);
        LatestWith(log, i, old(maxSequence), maxSequence);
        if End(batch) > maxSequence + 1 {
          SetLast(End(batch) - 1);
        }
        i := i + 1;
        if full(table) {
          LogPart(log, i);
          SmallPart(LogEntries(log[..i]), Elements(table));
          WriteLevel0Table(table, size(table));
          mem := None;
          NothingEarlier(Stored());
        }
      }
      assert log[..i] == log;
      if mem.Some? {
        SmallPart(LogEntries(log), Elements(mem.value));
        WriteLevel0Table(mem.value, size(mem.value));
      }
    }
  }

  // ---------------------------------------------------------------- all logs

  /** The logs from `from` on, one behind the other, have increasing sequence numbers. */
  ghost predicate LogsInOrder(logs: map<nat, seq<Batch>>, from: nat) {
    && (forall n :: n in logs && from <= n ==> InOrder(logs[n]))
    && (forall n, m, b, c :: n in logs && m in logs && from <= n < m && b in logs[n] && c in logs[m] ==> End(b) <= c.sequence)
  }

  /** `numbers` lists the logs from `from` on, in order. */
  ghost predicate Listed(numbers: seq<nat>, logs: map<nat, seq<Batch>>, from: nat) {
    && (forall i, j :: 0 <= i < j < |numbers| ==> numbers[i] < numbers[j])
    && (forall n :: n in numbers <==> n in logs && from <= n)
  }

  ghost function LogsOf(logs: map<nat, seq<Batch>>, numbers: seq<nat>): set<Entry> {
    set n, e | n in numbers && n in logs && e in LogEntries(logs[n]) :: e
  }

  ghost predicate LatestOf(logs: map<nat, seq<Batch>>, numbers: seq<nat>, last: nat) {
    && (forall n, b :: n in numbers && n in logs && b in logs[n] ==> End(b) <= last + 1)
    && (last == 0 || exists n, b :: n in numbers && n in logs && b in logs[n] && End(b) == last + 1)
  }

  /** What was read from the first logs is earlier than all the others. */
  ghost predicate BeforeLogs(es: set<Entry>, logs: map<nat, seq<Batch>>, numbers: seq<nat>, i: nat) {
    forall j :: i <= j < |numbers| && numbers[j] in logs ==> BeforeLog(es, logs[numbers[j]], 0)
  }

  lemma ListedLog(numbers: seq<nat>, logs: map<nat, seq<Batch>>, from: nat, i: nat)
    requires Listed(numbers, logs, from) && LogsInOrder(logs, from) && i < |numbers| && SmallSequences(LogsFrom(logs, from))
    ensures numbers[i] in logs && from <= numbers[i] && InOrder(logs[numbers[i]]) && SmallSequences(LogEntries(logs[numbers[i]]))
  {
    hide LogEntries, InOrder;
    assert numbers[i] in numbers;
    forall e | e in LogEntries(logs[numbers[i]]) ensures e.key.sequence <= MAX_SEQUENCE {
      assert e in LogsFrom(logs, from);
    }
  }

  lemma LogsWith(numbers: seq<nat>, logs: map<nat, seq<Batch>>, i: nat)
    requires i < |numbers| && numbers[i] in logs
    ensures LogsOf(logs, numbers[..i + 1]) == LogsOf(logs, numbers[..i]) + LogEntries(logs[numbers[i]])
  {
    hide LogEntries;
    assert numbers[..i + 1] == numbers[..i] + [numbers[i]];
    assert numbers[i] in numbers[..i + 1];
  }

  lemma LatestOfWith(numbers: seq<nat>, logs: map<nat, seq<Batch>>, i: nat, last: nat, next: nat)
    requires i < |numbers| && numbers[i] in logs
    requires LatestOf(logs, numbers[..i], last) && Latest(logs[numbers[i]], last, next)
    ensures LatestOf(logs, numbers[..i + 1], next)
  {
    assert numbers[..i + 1] == numbers[..i] + [numbers[i]];
    assert numbers[i] in numbers[..i + 1];
  }

  /** A log read in order is earlier than the logs behind it. */
  lemma LogIsBefore(numbers: seq<nat>, logs: map<nat, seq<Batch>>, from: nat, i: nat, es: set<Entry>)
    requires Listed(numbers, logs, from) && LogsInOrder(logs, from) && i < |numbers| && numbers[i] in logs
    requires BeforeLogs(es, logs, numbers, i)
    ensures BeforeLogs(es + LogEntries(logs[numbers[i]]), logs, numbers, i + 1)
  {
    hide BatchEntries, InOrder;
    forall j | i + 1 <= j < |numbers| && numbers[j] in logs ensures BeforeLog(es + LogEntries(logs[numbers[i]]), logs[numbers[j]], 0) {
      assert numbers[i] in numbers && numbers[j] in numbers;
      LogBeforeLog(logs[numbers[i]], logs[numbers[j]]);
      assert BeforeLog(es, logs[numbers[j]], 0);
    }
  }

  lemma LogBeforeLog(a: seq<Batch>, b: seq<Batch>)
    requires forall x, y :: x in a && y in b ==> End(x) <= y.sequence
    ensures BeforeLog(LogEntries(a), b, 0)
  {
    hide BatchEntries;
    forall j, e | 0 <= j < |b| && e in LogEntries(a) ensures e.key.sequence < b[j].sequence {
      var x :| x in a && e in BatchEntries(x);
      BatchEnds(x);
    }
  }

  lemma AllListed(numbers: seq<nat>, logs: map<nat, seq<Batch>>, from: nat, base: nat, last: nat)
    requires Listed(numbers, logs, from) && LatestOf(logs, numbers, last)
    ensures LogsOf(logs, numbers) == LogsFrom(logs, from)
    ensures LastOf(logs, from, base, if base < last then last else base)
  {
    hide LogEntries;
  }

  lemma NoLogsYet(numbers: seq<nat>, logs: map<nat, seq<Batch>>)
    ensures LogsOf(logs, numbers[..0]) == {} && LatestOf(logs, numbers[..0], 0) && BeforeLogs({}, logs, numbers, 0)
  {
  }

  /** The part of Recover behind the manifest: all the logs that it still needs, in order. The tables are
      what an opening may add to the version, and the counters go past all that the logs name. */
  method RecoverLogs(logs: map<nat, seq<Batch>>, numbers: seq<nat>, minLog: nat, lastSequence: nat, nextFile: nat,
                     full: seq<Entry> -> bool, size: seq<Entry> -> nat) returns (edit: seq<File>, last: nat, next: nat)
    requires Listed(numbers, logs, minLog) && LogsInOrder(logs, minLog) && SmallSequences(LogsFrom(logs, minLog))
    ensures ReplayedTables(edit) && FileEntries(edit) == LogsFrom(logs, minLog)
    ensures nextFile <= next && NumbersFrom(edit, nextFile, next) && forall n :: n in numbers ==> n < next
    ensures LastOf(logs, minLog, lastSequence, last)
  {
    hide Replay.Valid, Replay.Stored, Listed, LogsInOrder, SmallSequences, LogEntries, LogsOf, LatestOf, Latest, BeforeLogs, BeforeLog, InOrder, LogsFrom;
    var replay := new Replay(nextFile);
    assert replay.Stored() == {} by { NothingStored(replay); }
    var i := 0;
    NoLogsYet(numbers, logs);
    while i < |numbers|
      invariant 0 <= i <= |numbers| && fresh(replay) && replay.Valid() && replay.firstFile == nextFile <= replay.nextFile
      invariant replay.Stored() == LogsOf(logs, numbers[..i]) && BeforeLogs(replay.Stored(), logs, numbers, i)
      invariant LatestOf(logs, numbers[..i], replay.maxSequence)
      invariant forall j :: 0 <= j < i ==> numbers[j] < replay.nextFile
    {
      ListedLog(numbers, logs, minLog, i);
      ghost var before, max := replay.Stored(), replay.maxSequence;
      LogNow(before, logs, numbers, i);
      replay.RecoverLogFile(logs[numbers[i]], full, size);
      LogsWith(numbers, logs, i);
      LatestOfWith(numbers, logs, i, max, replay.maxSequence);
      LogIsBefore(numbers, logs, minLog, i, before);
      replay.MarkUsed(numbers[i]);
      i := i + 1;
    }
    assert numbers[..i] == numbers;
    AllListed(numbers, logs, minLog, lastSequence, replay.maxSequence);
    ReplayParts(replay);
    AgedIsReplayed(replay.edit);
    edit, next := replay.edit, replay.nextFile;
    last := if lastSequence < replay.maxSequence then replay.maxSequence else lastSequence;
  }

  lemma LogNow(es: set<Entry>, logs: map<nat, seq<Batch>>, numbers: seq<nat>, i: nat)
    requires BeforeLogs(es, logs, numbers, i) && i < |numbers| && numbers[i] in logs
    ensures BeforeLog(es, logs[numbers[i]], 0)
  {
  }

  lemma NothingStored(replay: Replay)
    requires replay.edit == []
    ensures replay.Stored() == {}
  {
  }

  lemma ReplayParts(replay: Replay)
    requires replay.Valid()
    ensures WellFormedFiles(replay.edit) && Aged(replay.edit) && NumbersFrom(replay.edit, replay.firstFile, replay.nextFile)
    ensures replay.Stored() == FileEntries(replay.edit)
  {
  }
}
