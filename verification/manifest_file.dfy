/** The manifest as a file: version edits encoded into log records, and read back into the version they
    lead to (LogAndApply and Recover of db/version_set.cc). */
module ManifestFiles {
  import opened Bytes
  import opened DbFormat
  import opened Versions
  import opened Recovery
  import opened LogFormat
  import opened LogReaders
  import B = Builders
  import V = VersionEdits
  import W = LogWriters

  // ---------------------------------------------------------------- what an edit stands for

  /** The file that an edit names. What the bytes of a key and the number of a table stand for is a
      parameter: `keyOf` reads an internal key, `tableOf` a table file. */
  function FileOf(f: V.FileMetaData, keyOf: seq<Byte> -> InternalKey, tableOf: nat -> seq<Entry>): File {
    File(f.number, f.size, keyOf(f.smallest), keyOf(f.largest), tableOf(f.number))
  }

  function RecordOf(e: V.Edit, keyOf: seq<Byte> -> InternalKey, tableOf: nat -> seq<Entry>): Recovery.Record {
    var added := seq(|e.newFiles|, i requires 0 <= i < |e.newFiles| => (e.newFiles[i].0, FileOf(e.newFiles[i].1, keyOf, tableOf)));
    Recovery.Record(B.VersionEdit(e.deleted, added), e.logNumber, e.nextFile, e.lastSequence)
  }

  function RecordsOf(es: seq<V.Edit>, keyOf: seq<Byte> -> InternalKey, tableOf: nat -> seq<Entry>): seq<Recovery.Record> {
    seq(|es|, i requires 0 <= i < |es| => RecordOf(es[i], keyOf, tableOf))
  }

  function EditBytes(e: V.Edit): seq<Byte> {
    V.BytesOf(V.Items(e))
  }

  function AllBytes(es: seq<V.Edit>): seq<seq<Byte>> {
    seq(|es|, i requires 0 <= i < |es| => EditBytes(es[i]))
  }

  ghost predicate Writable(es: seq<V.Edit>) {
    forall i :: 0 <= i < |es| ==> V.EditFits(es[i]) && V.Increasing(es[i].deleted)
  }

  // ---------------------------------------------------------------- writing

  method Encode(e: V.Edit) returns (r: seq<Byte>)
    requires V.EditFits(e)
    ensures r == EditBytes(e)
  {
    hide V.EditFits, V.BytesOf, V.Items, V.Increasing;
    var edit := new V.VersionEdit();
    edit.comparator, edit.logNumber, edit.prevLogNumber := e.comparator, e.logNumber, e.prevLogNumber;
    edit.nextFile, edit.lastSequence := e.nextFile, e.lastSequence;
    edit.compactPointers, edit.deleted, edit.newFiles := e.compactPointers, e.deleted, e.newFiles;
    assert edit.Abs() == e;
    r := edit.EncodeTo([]);
    assert [] + EditBytes(e) == EditBytes(e);
  }

  /** Every edit becomes one record of the manifest. */
  method WriteManifest(es: seq<V.Edit>) returns (file: seq<Byte>)
    requires Writable(es)
    ensures file == LogOf(AllBytes(es))
  {
    hide V.EditFits, V.BytesOf, V.Items, V.Increasing, LogOf, LogFormat.Encoded, W.Writer.Valid;
    var writer := new W.Writer([]);
    var i := 0;
    NoRecordsYet(es);
    while i < |es|
      invariant 0 <= i <= |es| && fresh(writer) && writer.Valid()
      invariant writer.dest == LogOf(AllBytes(es[..i]))
    {
      var record := Encode(es[i]);
      OneMoreRecord(es, i);
      writer.AddRecord(record);
      i := i + 1;
    }
    assert es[..i] == es;
    file := writer.dest;
  }

  lemma NoRecordsYet(es: seq<V.Edit>)
    ensures LogOf(AllBytes(es[..0])) == []
  {
  }

  lemma OneMoreRecord(es: seq<V.Edit>, i: nat)
    requires i < |es|
    ensures AllBytes(es[..i + 1]) == AllBytes(es[..i]) + [EditBytes(es[i])]
    ensures LogOf(AllBytes(es[..i + 1])) == LogOf(AllBytes(es[..i])) + LogFormat.Encoded(|LogOf(AllBytes(es[..i]))|, EditBytes(es[i]))
  {
    hide EditBytes, LogFormat.Encoded;
    var more := AllBytes(es[..i + 1]);
    assert more[..|more| - 1] == AllBytes(es[..i]);
    assert more == AllBytes(es[..i]) + [EditBytes(es[i])];
  }

  // ---------------------------------------------------------------- reading

  predicate Fitting(es: seq<V.Edit>, comparator: seq<Byte>) {
    forall i :: 0 <= i < |es| ==> es[i].comparator.None? || es[i].comparator == Some(comparator)
  }

  /** One record of the manifest; an edit for another comparator is refused. */
  method ReadRecord(record: seq<Byte>, comparator: seq<Byte>, keyOf: seq<Byte> -> InternalKey, tableOf: nat -> seq<Entry>, ghost e: V.Edit)
    returns (r: Option<Recovery.Record>)
    ensures V.EditFits(e) && V.Increasing(e.deleted) && record == EditBytes(e) ==>
              r == if e.comparator.None? || e.comparator == Some(comparator) then Some(RecordOf(e, keyOf, tableOf)) else None
  {
    hide V.EditFits, V.BytesOf, V.Items, V.Increasing;
    var edit := new V.VersionEdit();
    var ok := edit.DecodeFrom(record, e);
    if !ok || (edit.comparator.Some? && edit.comparator.value != comparator) {
      return None;
    }
    r := Some(RecordOf(edit.Abs(), keyOf, tableOf));
  }

  /** The records of a manifest, which a crash may have cut in the last one. */
  method ReadManifest(file: seq<Byte>, comparator: seq<Byte>, keyOf: seq<Byte> -> InternalKey, tableOf: nat -> seq<Entry>, ghost es: seq<V.Edit>)
    returns (r: Option<seq<Recovery.Record>>)
    ensures Writable(es) && file <= LogOf(AllBytes(es)) ==>
              var whole := es[..Complete(AllBytes(es), |file|)];
              r == if Fitting(whole, comparator) then Some(RecordsOf(whole, keyOf, tableOf)) else None
  {
    hide V.EditFits, V.BytesOf, V.Items, V.Increasing, LogOf, Complete, RecordOf;
    var records, reports := ReadLog(file, true, AllBytes(es));
    ghost var good := Writable(es) && file <= LogOf(AllBytes(es));
    if reports != [] {
      return None;
    }
    var manifest: seq<Recovery.Record> := [];
    var i := 0;
    while i < |records|
      invariant 0 <= i <= |records|
      invariant good ==> |records| <= |es| && records == AllBytes(es)[..|records|]
      invariant good ==> Fitting(es[..i], comparator) && manifest == RecordsOf(es[..i], keyOf, tableOf)
    {
      ghost var e := if good then es[i] else V.Edit(None, None, None, None, None, [], [], []);
      var record := ReadRecord(records[i], comparator, keyOf, tableOf, e);
      if record == None {
        assert good ==> !Fitting(es[..|records|], comparator) by {
          if good {
            assert es[..|records|][i] == e;
          }
        }
        return None;
      }
      manifest := manifest + [record.value];
      i := i + 1;
      assert good ==> RecordsOf(es[..i], keyOf, tableOf) == manifest;
    }
    r := Some(manifest);
  }

  // ---------------------------------------------------------------- from the bytes to the version

  lemma {:induction false} EditsOfPrefix(m: seq<Recovery.Record>, n: nat)
    requires n <= |m|
    ensures |Edits(m)| == |m| && Edits(m)[..n] == Edits(m[..n])
  {
    EditsAt(m, n);
  }

  lemma ValidPrefix(m: seq<Recovery.Record>, n: nat)
    requires ValidManifest(m) && n <= |m|
    ensures ValidManifest(m[..n])
  {
    EditsOfPrefix(m, n);
    var es := Edits(m);
    hide Edits;
    forall l | 0 <= l < NUM_LEVELS ensures B.AddedOnce({}, Edits(m[..n]), l) {
      assert B.AddedOnce({}, es, l);
      forall i | 0 <= i < n ensures B.FreshAt(es[..n][i], l, {} + B.AllAdded(es[..n][..i], l)) {
        assert es[..n][..i] == es[..i];
      }
    }
  }

  /** VersionSet::Recover on the bytes of a manifest: wherever the file was cut, the complete records
      decide, and the version is the one that their edits lead to, one by one. */
  method RecoverFromFile(file: seq<Byte>, comparator: seq<Byte>, keyOf: seq<Byte> -> InternalKey, tableOf: nat -> seq<Entry>, ghost es: seq<V.Edit>)
    returns (r: Option<Recovered>)
    requires Writable(es) && file <= LogOf(AllBytes(es)) && ValidManifest(RecordsOf(es, keyOf, tableOf))
    ensures var m := RecordsOf(es[..Complete(AllBytes(es), |file|)], keyOf, tableOf);
            && (r.Some? <==> Fitting(es[..Complete(AllBytes(es), |file|)], comparator)
                             && LogNumberOf(m).Some? && NextFileOf(m).Some? && LastSequenceOf(m).Some?)
            && (r.Some? ==> Describes(m, r.value.version) && Some(r.value.logNumber) == LogNumberOf(m)
                            && Some(r.value.nextFile) == NextFileOf(m) && Some(r.value.lastSequence) == LastSequenceOf(m))
  {
    hide Writable, LogOf, Complete, AllBytes, RecordOf, ValidManifest, Describes, LogNumberOf, NextFileOf, LastSequenceOf, Fitting;
    ghost var n := Complete(AllBytes(es), |file|);
    assert |AllBytes(es)| == |es| by { BytesCount(es); }
    var manifest := ReadManifest(file, comparator, keyOf, tableOf, es);
    if manifest == None {
      return None;
    }
    ValidPrefix(RecordsOf(es, keyOf, tableOf), n);
    assert RecordsOf(es, keyOf, tableOf)[..n] == RecordsOf(es[..n], keyOf, tableOf);
    r := RecoverVersion(manifest.value);
  }

  lemma BytesCount(es: seq<V.Edit>)
    ensures |AllBytes(es)| == |es|
  {
  }

  /** A manifest that was written whole is read back whole. */
  method WriteAndRecover(es: seq<V.Edit>, comparator: seq<Byte>, keyOf: seq<Byte> -> InternalKey, tableOf: nat -> seq<Entry>)
    returns (r: Option<Recovered>)
    requires Writable(es) && Fitting(es, comparator) && ValidManifest(RecordsOf(es, keyOf, tableOf))
    ensures var m := RecordsOf(es, keyOf, tableOf);
            && (r.Some? <==> LogNumberOf(m).Some? && NextFileOf(m).Some? && LastSequenceOf(m).Some?)
            && (r.Some? ==> Describes(m, r.value.version))
  {
    hide Writable, LogOf, AllBytes, RecordOf, ValidManifest, Describes, LogNumberOf, NextFileOf, LastSequenceOf, Fitting, Complete;
    var file := WriteManifest(es);
    assert Complete(AllBytes(es), |file|) == |es| by { WholeIsComplete(es); }
    assert es[..|es|] == es;
    r := RecoverFromFile(file, comparator, keyOf, tableOf, es);
  }

  lemma WholeIsComplete(es: seq<V.Edit>)
    ensures Complete(AllBytes(es), |LogOf(AllBytes(es))|) == |es|
  {
    hide LogOf;
    BytesCount(es);
  }
}
