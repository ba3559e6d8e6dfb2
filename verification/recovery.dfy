/** What is recovered from the files of a database: the manifest, the logs and the tables (Recover of
    db/version_set.cc and db/db_impl.cc). */
module Recovery {
  import opened DbFormat
  import opened Versions
  import opened Builders
  import opened Databases

  /** A write batch with its sequence number: one record of a log. */
  datatype Batch = Batch(sequence: nat, ops: seq<Op>)

  /** One record of the manifest. */
  datatype Record = Record(edit: VersionEdit, logNumber: Option<nat>, nextFile: Option<nat>, lastSequence: Option<nat>)

  datatype Disk = Disk(manifest: seq<Record>, logs: map<nat, seq<Batch>>, tables: map<nat, seq<Entry>>)

  // ---------------------------------------------------------------- the logs

  ghost function BatchEntries(b: Batch): set<Entry> {
    set i | 0 <= i < |b.ops| :: Entry(InternalKey(b.ops[i].user, b.sequence + i, b.ops[i].kind), b.ops[i].value)
  }

  ghost function LogEntries(bs: seq<Batch>): set<Entry> {
    set b, e | b in bs && e in BatchEntries(b) :: e
  }

  /** The entries of the logs numbered from `from` on. */
  ghost function LogsFrom(logs: map<nat, seq<Batch>>, from: nat): set<Entry> {
    set n, e | n in logs && from <= n && e in LogEntries(logs[n]) :: e
  }

  /** The sequence number behind the last update of a batch. */
  function End(b: Batch): nat {
    b.sequence + |b.ops|
  }

  // ---------------------------------------------------------------- the manifest

  function Edits(manifest: seq<Record>): seq<VersionEdit> {
    if manifest == [] then [] else Edits(manifest[..|manifest| - 1]) + [manifest[|manifest| - 1].edit]
  }

  /** The latest number of each kind that the manifest gives. */
  function LogNumberOf(manifest: seq<Record>): Option<nat> {
    if manifest == [] then None else
      var r := manifest[|manifest| - 1];
      if r.logNumber.Some? then r.logNumber else LogNumberOf(manifest[..|manifest| - 1])
  }

  function NextFileOf(manifest: seq<Record>): Option<nat> {
    if manifest == [] then None else
      var r := manifest[|manifest| - 1];
      if r.nextFile.Some? then r.nextFile else NextFileOf(manifest[..|manifest| - 1])
  }

  function LastSequenceOf(manifest: seq<Record>): Option<nat> {
    if manifest == [] then None else
      var r := manifest[|manifest| - 1];
      if r.lastSequence.Some? then r.lastSequence else LastSequenceOf(manifest[..|manifest| - 1])
  }

  ghost predicate OnDisk(tables: map<nat, seq<Entry>>, f: File) {
    f.number in tables && tables[f.number] == f.table
  }

  ghost predicate AllOnDisk(tables: map<nat, seq<Entry>>, v: Version) {
    forall l, f :: 0 <= l < |v.files| && f in v.files[l] ==> OnDisk(tables, f)
  }

  /** The version that the edits of a manifest lead to. */
  ghost predicate Describes(manifest: seq<Record>, v: Version) {
    |v.files| == NUM_LEVELS && forall l :: 0 <= l < NUM_LEVELS ==> LevelOf(v.files[l], OneByOne({}, Edits(manifest), l))
  }

  /** Everything that a recovery from `d` brings back: a version with all its tables, the updates
      of the logs that are still needed, and the sequence number behind the last one. */
  ghost predicate Recovers(d: Disk, v: Version, unflushed: set<Entry>, last: nat) {
    && Describes(d.manifest, v) && AllOnDisk(d.tables, v)
    && LogNumberOf(d.manifest).Some? && NextFileOf(d.manifest).Some? && LastSequenceOf(d.manifest).Some?
    && unflushed == LogsFrom(d.logs, LogNumberOf(d.manifest).value)
    && LastOf(d.logs, LogNumberOf(d.manifest).value, LastSequenceOf(d.manifest).value, last)
  }

  /** `last` is the greatest of `base` and the last sequence numbers of the batches in the logs. */
  ghost predicate LastOf(logs: map<nat, seq<Batch>>, from: nat, base: nat, last: nat) {
    && base <= last
    && (forall n, b :: n in logs && from <= n && b in logs[n] ==> End(b) <= last + 1)
    && (base == last || exists n, b :: n in logs && from <= n && b in logs[n] && End(b) == last + 1)
  }

  lemma RecoveryIsDetermined(d: Disk, v: Version, a: set<Entry>, x: nat, w: Version, b: set<Entry>, y: nat)
    requires Recovers(d, v, a, x) && Recovers(d, w, b, y)
    ensures v == w && a == b && x == y
  {
    forall l | 0 <= l < NUM_LEVELS ensures v.files[l] == w.files[l] {
      LevelIsUnique(v.files[l], w.files[l]);
    }
    assert v.files == w.files;
  }

  // ---------------------------------------------------------------- reading the manifest

  lemma EditsAt(manifest: seq<Record>, i: nat)
    requires i <= |manifest|
    ensures |Edits(manifest)| == |manifest| && Edits(manifest)[..i] == Edits(manifest[..i])
    ensures i < |manifest| ==> Edits(manifest)[i] == manifest[i].edit
  {
    if manifest != [] {
      var rest := manifest[..|manifest| - 1];
      if i < |manifest| {
        EditsAt(rest, i);
        assert rest[..i] == manifest[..i];
      } else {
        EditsAt(rest, |rest|);
        assert manifest[..i] == manifest;
      }
    }
  }

  ghost predicate ValidManifest(manifest: seq<Record>) {
    && (forall i :: 0 <= i < |manifest| ==> ValidEdit(manifest[i].edit))
    && (forall l :: 0 <= l < NUM_LEVELS ==> AddedOnce({}, Edits(manifest), l))
  }

  datatype Recovered = Recovered(version: Version, logNumber: nat, nextFile: nat, lastSequence: nat)

  /** VersionSet::Recover: one builder takes every edit, and the latest numbers count. A manifest
      without them is corrupt. */
  method RecoverVersion(manifest: seq<Record>) returns (r: Option<Recovered>)
    requires ValidManifest(manifest)
    ensures r.Some? <==> LogNumberOf(manifest).Some? && NextFileOf(manifest).Some? && LastSequenceOf(manifest).Some?
    ensures r.Some? ==>
              && Describes(manifest, r.value.version)
              && r.value.logNumber == LogNumberOf(manifest).value
              && r.value.nextFile == NextFileOf(manifest).value
              && r.value.lastSequence == LastSequenceOf(manifest).value
  {
    hide AddedOnce, OneByOne, Builder.Valid;
    var base := Version([[], [], [], [], [], [], []]);
    var edits := [];
    var logNumber, nextFile, lastSequence := None, None, None;
    var i := 0;
    while i < |manifest|
      invariant 0 <= i <= |manifest| && edits == Edits(manifest[..i])
      invariant logNumber == LogNumberOf(manifest[..i]) && nextFile == NextFileOf(manifest[..i])
      invariant lastSequence == LastSequenceOf(manifest[..i])
    {
      var record := manifest[i];
      assert manifest[..i + 1][..i] == manifest[..i];
      edits := edits + [record.edit];
      if record.logNumber.Some? {
        logNumber := record.logNumber;
      }
      if record.nextFile.Some? {
        nextFile := record.nextFile;
      }
      if record.lastSequence.Some? {
        lastSequence := record.lastSequence;
      }
      i := i + 1;
    }
    assert manifest[..i] == manifest;
    if logNumber == None || nextFile == None || lastSequence == None {
      return None;
    }
    EditsAt(manifest, |manifest|);
    forall j | 0 <= j < |edits| ensures ValidEdit(edits[j]) {
      EditsAt(manifest, j);
    }
    EmptyLevel();
    assert forall l :: 0 <= l < NUM_LEVELS ==> base.files[l] == [] && FileSet([]) == {};
    var v := Replay(base, edits);
    r := Some(Recovered(v, logNumber.value, nextFile.value, lastSequence.value));
  }
}
