/** What holds between any two steps of the database, whatever the interleaving, and why it makes
    recovery exact. */
module StoreInvariant {
  import opened DbFormat
  import opened Versions
  import opened Builders
  import opened Databases
  import opened Recovery
  import opened StoreSteps

  // ---------------------------------------------------------------- the parts of the invariant

  /** No edit has ever added a file with this number. */
  ghost predicate FreshNumber(m: seq<Record>, n: nat) {
    forall l, g :: 0 <= l < NUM_LEVELS && g in AllAdded(Edits(m), l) ==> g.number != n
  }

  ghost predicate AddedBelow(m: seq<Record>, n: nat) {
    forall l, g :: 0 <= l < NUM_LEVELS && g in AllAdded(Edits(m), l) ==> g.number < n
  }

  /** A file lives no higher than any level it was ever added to. */
  ghost predicate DownOnly(m: seq<Record>, v: Version)
    requires |v.files| == NUM_LEVELS
  {
    forall l, k, g, f :: 0 <= l < NUM_LEVELS && 0 <= k < NUM_LEVELS && g in AllAdded(Edits(m), l) && f in v.files[k] && f.number == g.number
                         ==> l <= k
  }

  /** The manifest leads to `v`, and gives no level a file number twice. */
  ghost predicate LeadsTo(m: seq<Record>, v: Version) {
    Describes(m, v) && ValidManifest(m) && DownOnly(m, v)
  }

  ghost predicate ManifestOk(m: seq<Record>, v: Version, logNumber: nat) {
    && LeadsTo(m, v)
    && LogNumberOf(m) == Some(logNumber) && NextFileOf(m).Some? && LastSequenceOf(m).Some?
    && logNumber < NextFileOf(m).value && AddedBelow(m, NextFileOf(m).value)
  }

  ghost predicate FilesAdded(m: seq<Record>, v: Version) {
    |v.files| == NUM_LEVELS && forall l, f :: 0 <= l < NUM_LEVELS && f in v.files[l] ==> f in AllAdded(Edits(m), l)
  }

  /** The tables of both the version in memory and the one in the manifest are there. */
  ghost predicate TablesOk(m: seq<Record>, tables: map<nat, seq<Entry>>, v: Version, durable: Version) {
    AllOnDisk(tables, v) && AllOnDisk(tables, durable) && FilesAdded(m, v)
  }

  ghost function LogsBetween(logs: map<nat, seq<Batch>>, from: nat, to: nat): set<Entry> {
    set n, e | n in logs && from <= n < to && e in LogEntries(logs[n]) :: e
  }

  lemma SameBetween(a: map<nat, seq<Batch>>, b: map<nat, seq<Batch>>, from: nat, to: nat)
    requires forall n :: from <= n < to ==> (n in a <==> n in b) && (n in a ==> a[n] == b[n])
    ensures LogsBetween(a, from, to) == LogsBetween(b, from, to)
  {
    hide LogEntries;
    forall e ensures e in LogsBetween(a, from, to) <==> e in LogsBetween(b, from, to) {
      if e in LogsBetween(a, from, to) {
        var n :| n in a && from <= n < to && e in LogEntries(a[n]);
        assert n in b;
      }
      if e in LogsBetween(b, from, to) {
        var n :| n in b && from <= n < to && e in LogEntries(b[n]);
        assert n in a;
      }
    }
  }

  /** The current log holds the memtable, the older ones hold the immutable memtable. */
  ghost predicate LogsOk(logs: map<nat, seq<Batch>>, current: set<Entry>, older: set<Entry>, logNumber: nat, logfileNumber: nat) {
    && logNumber <= logfileNumber && logfileNumber in logs
    && LogEntries(logs[logfileNumber]) == current
    && LogsBetween(logs, logNumber, logfileNumber) == older
    && forall n :: n in logs && n > logfileNumber ==> logs[n] == []
  }

  lemma LogBounds(logs: map<nat, seq<Batch>>, current: set<Entry>, older: set<Entry>, ln: nat, lf: nat)
    requires LogsOk(logs, current, older, ln, lf)
    ensures ln <= lf && lf in logs
  {
  }

  ghost predicate WriterOk(s: State) {
    && (s.writer.Creating? ==> s.imm.None? && s.writer.number in s.disk.logs && s.disk.logs[s.writer.number] == []
                               && s.logfileNumber < s.writer.number)
    && (s.writer.Logged? || s.writer.Applied? ==>
          && s.logfileNumber in s.disk.logs && s.writer.batch in s.disk.logs[s.logfileNumber]
          && s.writer.batch.sequence == s.lastSequence + 1)
  }

  ghost predicate NumbersOk(s: State) {
    && NextFileOf(s.disk.manifest).Some? && NextFileOf(s.disk.manifest).value <= s.nextFile
    && LastSequenceOf(s.disk.manifest).Some?
    && (forall n :: n in s.disk.logs ==> n < s.nextFile)
    && (forall n :: n in s.pending ==> n < s.nextFile)
  }

  ghost predicate FlushOk(s: State) {
    match s.flush
    case NoFlush => true
    case Building(n) =>
      s.imm.Some? && n in s.pending && n !in OutputNumbers(s.work) && FreshNumber(s.disk.manifest, n)
    case Built(file, level) =>
      && s.imm.Some? && level < NUM_LEVELS
      && (file.None? ==> s.imm.value == {})
      && (file.Some? ==>
            && Elements(file.value.table) == s.imm.value && file.value.number < s.nextFile
            && file.value.number !in OutputNumbers(s.work) && OnDisk(s.disk.tables, file.value)
            && (!AheadOf(s, OfFlush) ==> FreshNumber(s.disk.manifest, file.value.number)))
  }

  ghost predicate WorkOk(s: State) {
    (s.work.Cleaning? ==> s.flush.NoFlush?) &&
    (s.work.Working? ==>
      && s.work.level + 1 < NUM_LEVELS && |s.version.files| == NUM_LEVELS
      && OutputNumbers(s.work) <= s.pending
      && (forall f :: f in s.work.outputs ==> OnDisk(s.disk.tables, f))
      && (forall f, g :: f in s.work.outputs && g in s.work.outputs && f.number == g.number ==> f == g)
      && (s.work.current.Some? ==> forall f :: f in s.work.outputs ==> f.number != s.work.current.value)
      && (!AheadOf(s, OfCompaction) ==> InputsOk(s.version, s.work) && forall n :: n in OutputNumbers(s.work) ==> FreshNumber(s.disk.manifest, n)))
  }

  ghost predicate InputsOk(v: Version, work: Work)
    requires work.Working? && work.level + 1 < NUM_LEVELS && |v.files| == NUM_LEVELS
  {
    && (forall f :: f in work.upper ==> f in v.files[work.level])
    && (forall f :: f in work.lower ==> f in v.files[work.level + 1])
  }

  /** What the record being written has to do with the rest of the state. */
  ghost predicate KindOk(s: State)
    requires s.applying.Apply?
  {
    var a := s.applying;
    match a.kind
    case OfFlush => s.flush.Built? && a.record.edit == FlushEditOf(s.flush) && a.record.logNumber == Some(s.logfileNumber)
    case OfCompaction =>
      && a.record.logNumber == Some(s.logNumber) && s.flush.NoFlush?
      && if s.work.Working? then
           s.work.current.None? && a.record.edit == CompactionEditOf(s.work.level, s.work.upper, s.work.lower, s.work.outputs)
         else s.failed && a.appended
    case OfMove(level, f) =>
      && a.record.logNumber == Some(s.logNumber) && level + 1 < NUM_LEVELS && |s.version.files| == NUM_LEVELS
      && a.record.edit == CompactionEditOf(level, [f], [], [f]) && f in s.version.files[level]
      && s.flush.NoFlush? && s.work.NoWork?
  }

  ghost predicate ApplyOk(s: State) {
    s.applying.Apply? ==>
      var r := s.applying.record;
      && EditApplied(s.version, r.edit, s.applying.next) && KindOk(s)
      && r.logNumber.Some? && r.nextFile.Some? && r.lastSequence.Some?
      && s.logNumber <= r.logNumber.value <= s.logfileNumber && r.logNumber.value < r.nextFile.value
      && NextFileOf(s.disk.manifest).Some? && NextFileOf(s.disk.manifest).value <= r.nextFile.value <= s.nextFile
      && (forall l, f :: 0 <= l < NUM_LEVELS && f in AddedAt(r.edit, l) ==> f.number < r.nextFile.value)
      && (!s.applying.appended ==> LastOf(s.disk.logs, r.logNumber.value, r.lastSequence.value, DurableSequence(s)))
  }

  ghost predicate Inv(s: State) {
    && ManifestOk(s.disk.manifest, DurableVersion(s), DurableLog(s))
    && TablesOk(s.disk.manifest, s.disk.tables, s.version, DurableVersion(s))
    && LogsOk(s.disk.logs, s.mem + InFlight(s), ImmSet(s), s.logNumber, s.logfileNumber)
    && NumbersOk(s)
    && LastOf(s.disk.logs, DurableLog(s), LastSequenceOf(s.disk.manifest).value, DurableSequence(s))
    && WriterOk(s) && FlushOk(s) && WorkOk(s) && ApplyOk(s)
  }

  // ---------------------------------------------------------------- the invariant makes recovery exact

  lemma LogsFromParts(logs: map<nat, seq<Batch>>, current: set<Entry>, older: set<Entry>, logNumber: nat, logfileNumber: nat)
    requires LogsOk(logs, current, older, logNumber, logfileNumber)
    ensures LogsFrom(logs, logNumber) == older + current && LogsFrom(logs, logfileNumber) == current
  {
    hide LogEntries;
    assert LogEntries([]) == {} by { NoBatches(); }
  }

  lemma NoBatches()
    ensures LogEntries([]) == {}
  {
  }

  /** Between any two steps a crash of the process loses nothing and brings nothing back: recovery finds the version
      of the manifest with all its tables, and in the logs exactly what no table of it holds. */
  lemma InvRecovers(s: State)
    requires Inv(s)
    ensures Recovers(s.disk, DurableVersion(s), Unflushed(s), DurableSequence(s))
  {
    hide LogsFrom, LogsOk, LastOf, Describes, AllOnDisk, DownOnly, AddedBelow, ValidManifest, WorkOk, NumbersOk, WriterOk, FilesAdded, FlushOk;
    LogsFromParts(s.disk.logs, s.mem + InFlight(s), ImmSet(s), s.logNumber, s.logfileNumber);
  }
}
