/** The log as a file: write batches as the records of a log, read back into the updates they hold, and
    what a crash leaves of them when it cuts the file at any byte (Write and RecoverLogFile of
    db/db_impl.cc). */
module LogFiles {
  import opened Bytes
  import opened Coding
  import opened DbFormat
  import opened Databases
  import opened Recovery
  import opened LogFormat
  import opened LogReaders
  import opened WriteBatches
  import opened StoreHistory
  import opened StoreLife
  import G = GroupSteps
  import S = StoreSteps
  import W = LogWriters

  // ---------------------------------------------------------------- what a record stands for

  /** What the bytes of a key and of a value stand for is a parameter. */
  datatype Meaning = Meaning(key: seq<Byte> -> UserKey, value: seq<Byte> -> string)

  function OpOf(u: Update, m: Meaning): Op {
    match u
    case Put(key, value) => Op(m.key(key), Value, m.value(value))
    case Delete(key) => Op(m.key(key), Deletion, "")
  }

  function OpsOf(us: seq<Update>, m: Meaning): (r: seq<Op>)
    ensures |r| == |us|
  {
    seq(|us|, i requires 0 <= i < |us| => OpOf(us[i], m))
  }

  function BatchOf(r: G.LogRecord, m: Meaning): Batch {
    Batch(r.start, OpsOf(r.updates, m))
  }

  function BatchesOf(rs: seq<G.LogRecord>, m: Meaning): (r: seq<Batch>)
    ensures |r| == |rs| && forall i :: 0 <= i < |rs| ==> r[i] == BatchOf(rs[i], m)
  {
    seq(|rs|, i requires 0 <= i < |rs| => BatchOf(rs[i], m))
  }

  function RecordBytes(r: G.LogRecord): seq<Byte> {
    EncodeFixed64(r.start % TWO_64) + EncodeFixed32(|r.updates| % TWO_32) + BytesOf(r.updates)
  }

  function AllBytes(rs: seq<G.LogRecord>): (r: seq<seq<Byte>>)
    ensures |r| == |rs|
  {
    seq(|rs|, i requires 0 <= i < |rs| => RecordBytes(rs[i]))
  }

  ghost predicate Writable(r: G.LogRecord) {
    r.start < TWO_64 && |r.updates| < TWO_32 && AllFit(r.updates)
  }

  ghost predicate AllWritable(rs: seq<G.LogRecord>) {
    forall i :: 0 <= i < |rs| ==> Writable(rs[i])
  }

  // ---------------------------------------------------------------- writing

  /** A batch with its updates and its sequence number set. */
  method Encode(r: G.LogRecord) returns (bytes: seq<Byte>)
    requires Writable(r)
    ensures bytes == RecordBytes(r)
  {
    hide BytesOf, EncodeFixed32, EncodeFixed64;
    var batch := new WriteBatch();
    var i := 0;
    while i < |r.updates|
      invariant 0 <= i <= |r.updates| && fresh(batch) && batch.Valid() && batch.updates == r.updates[..i]
    {
      match r.updates[i] {
        case Put(key, value) => batch.Put(key, value);
        case Delete(key) => batch.Delete(key);
      }
      assert r.updates[..i] + [r.updates[i]] == r.updates[..i + 1];
      i := i + 1;
    }
    assert r.updates[..i] == r.updates;
    batch.SetSequence(r.start);
    bytes := batch.rep;
  }

  /** Every group of writers makes one record of the log. */
  method WriteLog(rs: seq<G.LogRecord>) returns (file: seq<Byte>)
    requires AllWritable(rs)
    ensures file == LogOf(AllBytes(rs))
  {
    hide RecordBytes, LogOf, LogFormat.Encoded, W.Writer.Valid, Writable;
    var writer := new W.Writer([]);
    var i := 0;
    NoRecordsYet(rs);
    while i < |rs|
      invariant 0 <= i <= |rs| && fresh(writer) && writer.Valid()
      invariant writer.dest == LogOf(AllBytes(rs[..i]))
    {
      var record := Encode(rs[i]);
      OneMoreRecord(rs, i);
      writer.AddRecord(record);
      i := i + 1;
    }
    assert rs[..i] == rs;
    file := writer.dest;
  }

  lemma NoRecordsYet(rs: seq<G.LogRecord>)
    ensures LogOf(AllBytes(rs[..0])) == []
  {
  }

  lemma OneMoreRecord(rs: seq<G.LogRecord>, i: nat)
    requires i < |rs|
    ensures AllBytes(rs[..i + 1]) == AllBytes(rs[..i]) + [RecordBytes(rs[i])]
    ensures LogOf(AllBytes(rs[..i + 1])) == LogOf(AllBytes(rs[..i])) + LogFormat.Encoded(|LogOf(AllBytes(rs[..i]))|, RecordBytes(rs[i]))
  {
    hide RecordBytes, LogFormat.Encoded;
    var more := AllBytes(rs[..i + 1]);
    assert more[..|more| - 1] == AllBytes(rs[..i]);
    assert more == AllBytes(rs[..i]) + [RecordBytes(rs[i])];
  }

  // ---------------------------------------------------------------- reading

  /** One record of a log, with `ok` false if it is too short or malformed. What could be read of a
      malformed one is used all the same. */
  method ReadBatch(record: seq<Byte>, m: Meaning, ghost r: G.LogRecord)
    returns (ok: bool, batch: Option<Batch>)
    ensures Writable(r) && record == RecordBytes(r) ==> ok && batch == Some(BatchOf(r, m))
  {
    hide BytesOf, EncodeFixed32, EncodeFixed64, DecodeFixed32, DecodeFixed64, AllFit;
    ghost var good := Writable(r) && record == RecordBytes(r);
    if |record| < WriteBatches.HEADER {
      return false, None;
    }
    var contents := new WriteBatch();
    contents.rep := record;
    contents.sequence, contents.updates := r.start, r.updates;
    if good {
      contents.Parts();
    }
    var status, us := contents.Iterate();
    ok, batch := status == Ok, Some(Batch(contents.Sequence(), OpsOf(us, m)));
  }

  /** The loop of RecoverLogFile over the bytes of a log. */
  method ReadBatches(file: seq<Byte>, paranoid: bool, m: Meaning, ghost rs: seq<G.LogRecord>)
    returns (ok: bool, batches: seq<Batch>)
    ensures AllWritable(rs) && file <= LogOf(AllBytes(rs)) ==>
              ok && batches == BatchesOf(rs[..Complete(AllBytes(rs), |file|)], m)
  {
    hide LogOf, Complete, RecordBytes, Writable, BatchOf;
    var records, reports := ReadLog(file, true, AllBytes(rs));
    ghost var good := AllWritable(rs) && file <= LogOf(AllBytes(rs));
    ok, batches := !paranoid || reports == [], [];
    var i := 0;
    while ok && i < |records|
      invariant 0 <= i <= |records|
      invariant good ==> ok && |records| <= |rs| && records == AllBytes(rs)[..|records|] && |records| == Complete(AllBytes(rs), |file|)
      invariant good ==> batches == BatchesOf(rs[..i], m)
      decreases |records| - i
    {
      ghost var r := if good then rs[i] else G.LogRecord(0, []);
      var whole, batch := ReadBatch(records[i], m, r);
      if batch.Some? {
        batches := batches + [batch.value];
      }
      ok := whole || !paranoid;
      i := i + 1;
      assert good ==> BatchesOf(rs[..i], m) == BatchesOf(rs[..i - 1], m) + [BatchOf(r, m)];
    }
  }

  // ---------------------------------------------------------------- cut at any byte

  lemma {:induction false} LogGrows(records: seq<seq<Byte>>, k: nat)
    requires k <= |records|
    ensures |LogOf(records[..k])| <= |LogOf(records)|
  {
    hide LogFormat.Encoded;
    if k == |records| {
      assert records[..k] == records;
    } else {
      var init := records[..|records| - 1];
      LogGrows(init, k);
      assert init[..k] == records[..k];
    }
  }

  /** A cut behind the first `k` records leaves these. */
  lemma {:induction false} CompleteFrom(records: seq<seq<Byte>>, k: nat, cut: nat)
    requires k <= |records| && |LogOf(records[..k])| <= cut
    ensures k <= Complete(records, cut)
  {
    hide LogFormat.Encoded;
    if k == |records| {
      assert records[..k] == records;
    } else if |LogOf(records)| > cut {
      var init := records[..|records| - 1];
      assert init[..k] == records[..k];
      CompleteFrom(init, k, cut);
    }
  }

  /** The batches of all logs. */
  function LogsOf(records: map<nat, seq<G.LogRecord>>, m: Meaning): map<nat, seq<Batch>> {
    map n | n in records :: BatchesOf(records[n], m)
  }

  /** What is read from the files of the logs, each of which may have been cut. */
  function ReadFrom(files: map<nat, seq<Byte>>, records: map<nat, seq<G.LogRecord>>, m: Meaning)
    : map<nat, seq<Batch>>
  {
    map n | n in files && n in records :: BatchesOf(records[n][..Complete(AllBytes(records[n]), |files[n]|)], m)
  }

  /** Each file is its log cut somewhere at or behind the byte up to which it was forced to the disk. */
  ghost predicate CutFiles(records: map<nat, seq<G.LogRecord>>, synced: map<nat, nat>, from: nat, files: map<nat, seq<Byte>>) {
    && (forall n :: n in files ==> n in records && AllWritable(records[n]) && files[n] <= LogOf(AllBytes(records[n])))
    && (forall n :: n in records && from <= n && n in synced && 0 < synced[n] <= |records[n]| ==>
          n in files && |LogOf(AllBytes(records[n][..synced[n]]))| <= |files[n]|)
  }

  /** Cutting the files at any byte behind what was forced to the disk is a crash as StoreLife has it. */
  lemma CutFilesAreCutLogs(records: map<nat, seq<G.LogRecord>>, synced: map<nat, nat>, from: nat, files: map<nat, seq<Byte>>,
                           m: Meaning)
    requires CutFiles(records, synced, from, files) && forall n :: n in records && n in synced ==> synced[n] <= |records[n]|
    ensures CutLogs(LogsOf(records, m), synced, from, ReadFrom(files, records, m))
  {
    hide LogOf, RecordBytes, Complete, BatchOf, AllWritable;
    var logs, left := LogsOf(records, m), ReadFrom(files, records, m);
    forall n | n in left && from <= n ensures n in logs && left[n] <= logs[n] {
      var k := Complete(AllBytes(records[n]), |files[n]|);
      assert BatchesOf(records[n][..k], m) == BatchesOf(records[n], m)[..k];
    }
    forall n | n in logs && from <= n && Forced(logs, synced, n) > 0 ensures n in left && Forced(logs, synced, n) <= |left[n]| {
      var k := synced[n];
      assert AllBytes(records[n])[..k] == AllBytes(records[n][..k]);
      CompleteFrom(AllBytes(records[n]), k, |files[n]|);
    }
  }

  /** Reads every log, as Recover does before it replays them. */
  method ReadFiles(files: map<nat, seq<Byte>>, numbers: seq<nat>, paranoid: bool, m: Meaning,
                   ghost records: map<nat, seq<G.LogRecord>>) returns (ok: bool, logs: map<nat, seq<Batch>>)
    requires forall n :: n in numbers <==> n in files
    requires forall n :: n in files ==> n in records && AllWritable(records[n]) && files[n] <= LogOf(AllBytes(records[n]))
    ensures ok && logs == ReadFrom(files, records, m)
  {
    hide LogOf, Complete, RecordBytes, Writable, BatchesOf, AllWritable;
    ok, logs := true, map[];
    var i := 0;
    while i < |numbers|
      invariant 0 <= i <= |numbers| && ok
      invariant forall n :: n in logs <==> n in numbers[..i]
      invariant forall n :: n in numbers[..i] ==> logs[n] == ReadFrom(files, records, m)[n]
    {
      var n := numbers[i];
      var whole, batches := ReadBatches(files[n], paranoid, m, records[n]);
      ok := ok && whole;
      logs := logs[n := batches];
      i := i + 1;
      assert numbers[..i] == numbers[..i - 1] + [n];
    }
    assert numbers[..i] == numbers;
  }

  /** A crash of a running database that cuts the files of its logs: what is read back is a crash event. */
  lemma CutIsCrash(x: Store, records: map<nat, seq<G.LogRecord>>, files: map<nat, seq<Byte>>, tables: map<nat, seq<Entry>>,
                   m: Meaning)
    requires x.state.disk.logs == LogsOf(records, m) && AllOnDisk(tables, S.DurableVersion(x.state))
    requires CutFiles(records, x.synced, S.DurableLog(x.state), files) && forall n :: n in records && n in x.synced ==> x.synced[n] <= |records[n]|
    ensures CrashLeaves(x, Disk(x.state.disk.manifest, ReadFrom(files, records, m), tables))
  {
    hide CutFiles, CutLogs, LogsOf, ReadFrom, AllOnDisk;
    CutFilesAreCutLogs(records, x.synced, S.DurableLog(x.state), files, m);
  }
}
