/** Reading records back from a log, possibly one cut short by a crash (db/log_reader.cc, and the
    loop over records in RecoverLogFile of db/db_impl.cc). */
module LogReaders {
  import opened Bytes
  import opened Crc32c
  import opened Coding
  import opened LogFormat

  /** What one attempt to read a fragment gives. */
  datatype Physical = Eof | Bad | Record(kind: Byte, fragment: seq<Byte>)

  /** A corruption reported: bytes dropped and why. */
  datatype Corruption = Corruption(bytes: nat, reason: string)

  /** From `q` on, the file holds the given fragments, cut anywhere. */
  ghost predicate CutLayout(file: seq<Byte>, q: nat, fragments: seq<Fragment>) {
    Fits(q, fragments) && q <= |file| && file[q..] <= Layout(q, fragments)
  }

  ghost predicate FirstIsWhole(file: seq<Byte>, q: nat, fragments: seq<Fragment>) {
    fragments != [] && EndOf(q, fragments[0]) <= |file|
  }

  lemma TrailerOfCut(file: seq<Byte>, q: nat, fragments: seq<Fragment>)
    requires CutLayout(file, q, fragments) && Start(q) <= |file|
    ensures CutLayout(file, Start(q), fragments)
  {
    if fragments != [] {
      LayoutFromStart(q, fragments);
      hide Layout, Fits, Start;
      DropPrefix(file[q..], ZeroBytes(Start(q) - q), Layout(Start(q), fragments));
      SuffixSlices(file, q, Start(q) - q, |file| - q);
    }
  }

  lemma DropPrefix(cut: seq<Byte>, a: seq<Byte>, b: seq<Byte>)
    requires cut <= a + b && |a| <= |cut|
    ensures cut[|a|..] <= b
  {
  }

  lemma HeaderOfCut(file: seq<Byte>, q: nat, fragments: seq<Fragment>)
    requires CutLayout(file, q, fragments) && Start(q) == q && q + HEADER_SIZE <= |file|
    ensures fragments != [] && |fragments[0].payload| < 0x10000 && file[q..q + HEADER_SIZE] == Header(fragments[0])
  {
    hide Header, Start;
    if fragments != [] {
      assert ZeroBytes(0) == [];
      assert Layout(q, fragments)[..HEADER_SIZE] == Header(fragments[0]);
      assert file[q..][..HEADER_SIZE] == file[q..q + HEADER_SIZE];
    }
  }

  lemma PayloadOfCut(file: seq<Byte>, q: nat, fragments: seq<Fragment>)
    requires CutLayout(file, q, fragments) && Start(q) == q && FirstIsWhole(file, q, fragments)
    ensures file[q + HEADER_SIZE..EndOf(q, fragments[0])] == fragments[0].payload
    ensures CutLayout(file, EndOf(q, fragments[0]), fragments[1..])
  {
    hide FragmentBytes, Start, Layout, Fits;
    var f, e := fragments[0], EndOf(q, fragments[0]);
    FirstFragment(q, fragments);
    WholeFragment(file[q..], f, Layout(e, fragments[1..]));
    SuffixSlices(file, q, HEADER_SIZE, e - q);
    SuffixSlices(file, q, e - q, |file| - q);
  }

  lemma FirstFragment(q: nat, fragments: seq<Fragment>)
    requires Fits(q, fragments) && fragments != [] && Start(q) == q
    ensures |fragments[0].payload| < 0x10000 && Fits(EndOf(q, fragments[0]), fragments[1..])
    ensures Layout(q, fragments) == FragmentBytes(fragments[0]) + Layout(EndOf(q, fragments[0]), fragments[1..])
  {
    hide FragmentBytes, Start, ZeroBytes;
    var f, e := fragments[0], EndOf(q, fragments[0]);
    assert |ZeroBytes(0)| == 0;
    assert ZeroBytes(0) + FragmentBytes(f) == FragmentBytes(f);
    assert Layout(q, fragments) == ZeroBytes(Start(q) - q) + FragmentBytes(f) + Layout(e, fragments[1..]);
  }

  lemma SuffixSlices(file: seq<Byte>, q: nat, i: nat, j: nat)
    requires q + j <= |file| && i <= j
    ensures file[q..][i..j] == file[q + i..q + j]
    ensures q + j == |file| ==> file[q..][i..] == file[q + i..]
  {
    assert file[q..q + (|file| - q)] == file[q..];
    Slice(file, q, |file| - q, i, j);
    assert q + j == |file| ==> file[q..][i..] == file[q..][i..j];
  }

  lemma WholeFragment(cut: seq<Byte>, f: Fragment, rest: seq<Byte>)
    requires |f.payload| < 0x10000
    requires cut <= FragmentBytes(f) + rest && HEADER_SIZE + |f.payload| <= |cut|
    ensures cut[HEADER_SIZE..HEADER_SIZE + |f.payload|] == f.payload
    ensures cut[HEADER_SIZE + |f.payload|..] <= rest
  {
    hide Header;
  }

  lemma HeaderFields(f: Fragment, rest: seq<Byte>)
    requires |f.payload| < 0x10000
    ensures var b := Header(f) + rest;
            Length(b[4], b[5]) == |f.payload| && b[6] == f.kind && Unmask(ToWord(DecodeFixed32(b))) == Checksum(f)
  {
    hide Mask, Unmask, Checksum, EncodeFixed32, DecodeFixed32, ToWord, WordValue, LowLength, HighLength, Length;
    var tail := [LowLength(|f.payload|), HighLength(|f.payload|), f.kind];
    Fixed32RoundTrip(WordValue(Mask(Checksum(f))), tail + rest);
    WordRoundTrip(Mask(Checksum(f)));
    UnmaskOfMask(Checksum(f));
    LengthRoundTrip(|f.payload|);
    var b := Header(f) + rest;
    assert b == EncodeFixed32(WordValue(Mask(Checksum(f)))) + (tail + rest);
    assert b[4] == tail[0] && b[5] == tail[1] && b[6] == tail[2];
  }

  lemma Slice(file: seq<Byte>, q: nat, n: nat, i: nat, j: nat)
    requires q + n <= |file| && i <= j <= n
    ensures file[q..q + n][i..j] == file[q + i..q + j]
  {
    var a, b := file[q..q + n][i..j], file[q + i..q + j];
    assert |a| == |b| && forall k :: 0 <= k < |a| ==> a[k] == b[k];
  }

  /** What the reader finds at a fragment that starts where it stands. */
  lemma FragmentInBuffer(file: seq<Byte>, q: nat, fragments: seq<Fragment>, buffer: seq<Byte>)
    requires CutLayout(file, q, fragments) && Start(q) == q
    requires |buffer| >= HEADER_SIZE && q + |buffer| <= |file| && buffer == file[q..q + |buffer|]
    ensures fragments != [] && |fragments[0].payload| < 0x10000
    ensures Length(buffer[4], buffer[5]) == |fragments[0].payload| && buffer[6] == fragments[0].kind
    ensures fragments[0].kind != ZERO_TYPE
    ensures EndOf(q, fragments[0]) <= q + |buffer| ==>
              && Unmask(ToWord(DecodeFixed32(buffer))) == Value(buffer[6..HEADER_SIZE + |fragments[0].payload|])
              && buffer[HEADER_SIZE..HEADER_SIZE + |fragments[0].payload|] == fragments[0].payload
              && CutLayout(file, EndOf(q, fragments[0]), fragments[1..])
  {
    hide CutLayout, Header, Start, DecodeFixed32, ToWord, Unmask, Value, Layout, Fits, Length;
    HeaderOfCut(file, q, fragments);
    EndsInBlock(file, q, fragments);
    var f := fragments[0];
    Slice(file, q, |buffer|, 0, HEADER_SIZE);
    assert buffer == Header(f) + buffer[HEADER_SIZE..];
    HeaderFields(f, buffer[HEADER_SIZE..]);
    if EndOf(q, f) <= q + |buffer| {
      PayloadOfCut(file, q, fragments);
      Slice(file, q, |buffer|, HEADER_SIZE, HEADER_SIZE + |f.payload|);
      assert buffer[6..HEADER_SIZE + |f.payload|] == [f.kind] + f.payload;
    }
  }

  predicate WithinBlock(q: nat, n: nat) {
    q % BLOCK_SIZE + n <= BLOCK_SIZE
  }

  class Reader {
    const file: seq<Byte>
    const checksum: bool
    var position: nat  // how much of the file has been read
    var buffer: seq<Byte>
    var eof: bool
    var reports: seq<Corruption>

    ghost predicate Valid()
      reads this
    {
      && |buffer| <= position <= |file|
      && buffer == file[position - |buffer|..position]
      && WithinBlock(position - |buffer|, |buffer|)
      && (if eof then position == |file| else position % BLOCK_SIZE == 0)
    }

    /** Where the next fragment is looked for. */
    ghost function Offset(): nat
      reads this
      requires Valid()
    {
      position - |buffer|
    }

    lemma InBuffer()
      requires Valid()
      ensures Offset() + |buffer| <= |file| && buffer == file[Offset()..Offset() + |buffer|]
      ensures WithinBlock(Offset(), |buffer|)
      ensures if eof then Offset() + |buffer| == |file| else (Offset() + |buffer|) % BLOCK_SIZE == 0
    {
    }

    constructor (file: seq<Byte>, checksum: bool)
      ensures Valid() && Offset() == 0 && reports == []
      ensures this.file == file && this.checksum == checksum
    {
      this.file, this.checksum := file, checksum;
      position, buffer, eof, reports := 0, [], false, [];
    }

    method ReportCorruption(bytes: nat, reason: string)
      requires Valid()
      modifies this`reports
      ensures Valid() && Offset() == old(Offset())
      ensures reports == old(reports) + [Corruption(bytes, reason)]
    {
      reports := reports + [Corruption(bytes, reason)];
    }

    method ReadBlock()
      requires Valid() && !eof && |buffer| < HEADER_SIZE
      modifies this
      ensures Valid() && reports == old(reports)
      ensures Offset() == old(position) && (eof || |buffer| == BLOCK_SIZE)
    {
      var n := if |file| - position < BLOCK_SIZE then |file| - position else BLOCK_SIZE;
      buffer := file[position..position + n];
      position := position + n;
      if n < BLOCK_SIZE {
        eof := true;
      }
    }

    /** Reads on until the buffer holds a header, unless the file ends before that. */
    method FindHeader(ghost fragments: seq<Fragment>) returns (ok: bool)
      requires Valid()
      modifies this
      ensures Valid() && Offset() >= old(Offset()) && reports == old(reports)
      ensures if ok then |buffer| >= HEADER_SIZE else Offset() == |file| && eof
      ensures old(CutLayout(file, Offset(), fragments)) ==>
                if ok then Offset() == Start(old(Offset())) && CutLayout(file, Offset(), fragments)
                else !FirstIsWhole(file, old(Offset()), fragments)
    {
      hide CutLayout, Layout, Fits, Start, FirstIsWhole;
      ghost var q := Offset();
      ghost var good := CutLayout(file, q, fragments);
      while |buffer| < HEADER_SIZE
        invariant Valid() && reports == old(reports)
        invariant Offset() == q || Offset() == Start(q)
        invariant good ==> CutLayout(file, Offset(), fragments)
        decreases if eof then 0 else 1, HEADER_SIZE - |buffer|
      {
        if eof {
          // a header cut short at the end of the file
          AtTheEnd(file, q, Offset(), fragments);
          RemovePrefix(|buffer|);
          return false;
        }
        // what is left of the buffer is a trailer to skip
        TrailerOfBlock(q, Offset(), position, |buffer|);
        if good {
          TrailerOfCut(file, Offset(), fragments);
        }
        ReadBlock();
      }
      InsideBlock(q, Offset(), |buffer|);
      ok := true;
    }

    /** Whatever the file holds, the reader gets further or is at the end. In a cut log it finds the
        next fragment exactly if that is there as a whole, and reports nothing. */
    method ReadPhysicalRecord(ghost fragments: seq<Fragment>) returns (r: Physical)
      requires Valid()
      modifies this
      ensures Valid() && old(Offset()) <= Offset() <= |file|
      ensures if r.Eof? then Offset() == |file| else Offset() > old(Offset())
      ensures old(CutLayout(file, Offset(), fragments)) ==>
                && reports == old(reports)
                && if FirstIsWhole(file, old(Offset()), fragments)
                   then && r == Record(fragments[0].kind, fragments[0].payload)
                        && Offset() == EndOf(old(Offset()), fragments[0]) && CutLayout(file, Offset(), fragments[1..])
                   else r == Eof
    {
      hide CutLayout, Start;
      var ok := FindHeader(fragments);
      if !ok {
        return Eof;
      }
      StartIsStart(old(Offset()));
      r := ParseFragment(fragments);
    }

    method RemovePrefix(n: nat)
      requires Valid() && n <= |buffer|
      modifies this`buffer
      ensures Valid() && buffer == old(buffer)[n..] && Offset() == old(Offset()) + n
    {
      StaysInBlock(Offset(), |buffer|, n);
      hide WithinBlock;
      Slice(file, Offset(), |buffer|, n, |buffer|);
      buffer := buffer[n..];
    }

    method ParseFragment(ghost fragments: seq<Fragment>) returns (r: Physical)
      requires Valid() && |buffer| >= HEADER_SIZE
      modifies this
      ensures Valid() && old(Offset()) <= Offset() <= |file|
      ensures if r.Eof? then Offset() == |file| else Offset() > old(Offset())
      ensures old(CutLayout(file, Offset(), fragments)) && Start(old(Offset())) == old(Offset()) ==>
                && reports == old(reports)
                && if FirstIsWhole(file, old(Offset()), fragments)
                   then && r == Record(fragments[0].kind, fragments[0].payload)
                        && Offset() == EndOf(old(Offset()), fragments[0]) && CutLayout(file, Offset(), fragments[1..])
                   else r == Eof
    {
      hide Valid, Offset, CutLayout, DecodeFixed32, ToWord, Unmask, Extended, Layout, Fits, Start, Length, WithinBlock;
      InBuffer();
      if CutLayout(file, Offset(), fragments) && Start(Offset()) == Offset() {
        FragmentInBuffer(file, Offset(), fragments, buffer);
        EndsInBlock(file, Offset(), fragments);
        if !eof {
          FitsInBuffer(Offset(), |buffer|, HEADER_SIZE + |fragments[0].payload|);
        }
      }
      var length := Length(buffer[4], buffer[5]);
      var kind := buffer[6];
      if HEADER_SIZE + length > |buffer| {
        var dropSize := |buffer|;
        RemovePrefix(|buffer|);
        if !eof {
          ReportCorruption(dropSize, "bad record length");
          return Bad;
        }
        // the writer died in the middle of this fragment
        return Eof;
      }
      if kind == ZERO_TYPE && length == 0 {
        RemovePrefix(|buffer|);
        return Bad;
      }
      if checksum {
        var expected := Unmask(ToWord(DecodeFixed32(buffer)));
        var actual := Extend(0, buffer[6..HEADER_SIZE + length], 0);
        if actual != expected {
          var dropSize := |buffer|;
          RemovePrefix(|buffer|);
          ReportCorruption(dropSize, "checksum mismatch");
          return Bad;
        }
      }
      r := Record(kind, buffer[HEADER_SIZE..HEADER_SIZE + length]);
      RemovePrefix(HEADER_SIZE + length);
    }

    /** The next record of a log. In a cut log it is found exactly if all of it is there, and nothing
        is reported. */
    method ReadRecord(ghost records: seq<seq<Byte>>) returns (ok: bool, record: seq<Byte>)
      requires Valid()
      modifies this
      ensures Valid() && Offset() <= |file|
      ensures if ok then Offset() > old(Offset()) else Offset() == |file|
      ensures old(CutRecords(file, Offset(), records)) ==>
                && reports == old(reports)
                && if records != [] && old(Offset()) + |Encoded(old(Offset()), records[0])| <= |file|
                   then && ok && record == records[0]
                        && Offset() == old(Offset()) + |Encoded(old(Offset()), records[0])|
                        && CutRecords(file, Offset(), records[1..])
                   else !ok
    {
      hide Valid, Offset, Joined, Reading, CutRecords, CutLayout, Split, Encoded, EndOf;
      InBuffer();
      ghost var q := Offset();
      ghost var good := CutRecords(file, q, records);
      ghost var left, end := if records != [] then records[0] else [], if records != [] then q + |Encoded(q, records[0])| else q;
      if good && records != [] {
        ReadingStarts(file, q, records);
        AllJoined(records[0]);
      }
      var scratch := [];
      var inFragmentedRecord := false;
      while true
        invariant Valid() && q <= Offset() <= |file|
        invariant if inFragmentedRecord then Offset() > q else scratch == []
        invariant good && records == [] ==> reports == old(reports) && Offset() == q
        invariant good && records != [] ==>
                    && reports == old(reports) && Joined(scratch, left, records[0])
                    && Reading(file, Offset(), left, !inFragmentedRecord, end, records[1..])
        decreases |file| - Offset()
      {
        ghost var p := Offset();
        ghost var fragments := if records == [] then [] else Split(p, left, !inFragmentedRecord) + Fragments(end, records[1..]);
        if good {
          if records == [] {
            NothingWhole(file, p, records);
          } else {
            ReadingStep(file, p, left, !inFragmentedRecord, end, records[1..]);
            JoinedStep(scratch, left, |fragments[0].payload|, records[0]);
          }
        }
        var r := ReadPhysicalRecord(fragments);
        match r {
          case Eof =>
            return false, [];
          case Bad =>
            if inFragmentedRecord {
              ReportCorruption(|scratch|, "error in middle of record");
              inFragmentedRecord := false;
              scratch := [];
            }
          case Record(kind, fragment) =>
            if kind == FULL_TYPE {
              if inFragmentedRecord && scratch != [] {
                ReportCorruption(|scratch|, "partial record without end(1)");
              }
              return true, fragment;
            } else if kind == FIRST_TYPE {
              if inFragmentedRecord && scratch != [] {
                ReportCorruption(|scratch|, "partial record without end(2)");
              }
              scratch := fragment;
              inFragmentedRecord := true;
              left := left[if good && records != [] then |fragment| else 0..];
            } else if kind == MIDDLE_TYPE {
              if !inFragmentedRecord {
                ReportCorruption(|fragment|, "missing start of fragmented record(1)");
              } else {
                scratch := scratch + fragment;
                left := left[if good && records != [] then |fragment| else 0..];
              }
            } else if kind == LAST_TYPE {
              if !inFragmentedRecord {
                ReportCorruption(|fragment|, "missing start of fragmented record(2)");
              } else {
                scratch := scratch + fragment;
                return true, scratch;
              }
            } else {
              ReportCorruption(|fragment| + (if inFragmentedRecord then |scratch| else 0), "unknown record type");
              inFragmentedRecord := false;
              scratch := [];
            }
        }
      }
    }
  }

  /** From `q` on, the file holds the given records, cut anywhere. */
  ghost predicate CutRecords(file: seq<Byte>, q: nat, records: seq<seq<Byte>>) {
    CutLayout(file, q, Fragments(q, records))
  }

  /** From `q` on, the file holds the rest of a record, up to `end`, and further records behind it. */
  ghost predicate Reading(file: seq<Byte>, q: nat, left: seq<Byte>, begin: bool, end: nat, records: seq<seq<Byte>>) {
    && CutLayout(file, q, Split(q, left, begin) + Fragments(end, records))
    && q + |EncodedRest(q, left, begin)| == end
  }

  ghost predicate Joined(a: seq<Byte>, b: seq<Byte>, whole: seq<Byte>) {
    a + b == whole
  }

  lemma AllJoined(whole: seq<Byte>)
    ensures Joined([], whole, whole)
  {
  }

  lemma JoinedStep(a: seq<Byte>, b: seq<Byte>, n: nat, whole: seq<Byte>)
    requires Joined(a, b, whole) && n <= |b|
    ensures Joined(a + b[..n], b[n..], whole)
    ensures a == [] ==> Joined(b[..n], b[n..], whole) && (n == |b| ==> b[..n] == whole)
    ensures n == |b| ==> a + b[..n] == whole
  {
    assert b[..n] + b[n..] == b;
    assert (a + b[..n]) + b[n..] == a + (b[..n] + b[n..]);
  }

  lemma ReadingStarts(file: seq<Byte>, q: nat, records: seq<seq<Byte>>)
    requires CutRecords(file, q, records) && records != []
    ensures Reading(file, q, records[0], true, q + |Encoded(q, records[0])|, records[1..])
  {
  }

  lemma NothingWhole(file: seq<Byte>, q: nat, records: seq<seq<Byte>>)
    requires CutRecords(file, q, records) && records == []
    ensures CutLayout(file, q, [])
  {
  }

  /** The fragment that comes next, and what is left behind it. */
  lemma ReadingStep(file: seq<Byte>, q: nat, left: seq<Byte>, begin: bool, end: nat, records: seq<seq<Byte>>)
    requires Reading(file, q, left, begin, end, records)
    ensures var fragments := Split(q, left, begin) + Fragments(end, records);
            var f := fragments[0];
            var n := |f.payload|;
            && CutLayout(file, q, fragments)
            && n <= |left| && f.payload == left[..n] && EndOf(q, f) <= end
            && f.kind == (if begin && n == |left| then FULL_TYPE else if begin then FIRST_TYPE else if n == |left| then LAST_TYPE else MIDDLE_TYPE)
            && (n == |left| ==> EndOf(q, f) == end && (CutLayout(file, end, fragments[1..]) ==> CutRecords(file, end, records)))
            && (n < |left| && CutLayout(file, EndOf(q, f), fragments[1..]) ==> Reading(file, EndOf(q, f), left[n..], false, end, records))
  {
    hide CutLayout, EncodedRest, FragmentBytes, Start, Fragments, Split;
    SplitFirst(q, left, begin);
    var whole := Split(q, left, begin);
    var fragments := whole + Fragments(end, records);
    var f := fragments[0];
    var n := |f.payload|;
    assert f == whole[0];
    assert fragments[1..] == whole[1..] + Fragments(end, records);
    SplitStep(q, left, begin, BLOCK_SIZE - Start(q) % BLOCK_SIZE - HEADER_SIZE, n, f.kind);
    assert n == |left| ==> fragments[1..] == Fragments(end, records);
  }

  lemma SplitFirst(q: nat, left: seq<Byte>, begin: bool)
    ensures var f := Split(q, left, begin)[0];
            var avail := BLOCK_SIZE - Start(q) % BLOCK_SIZE - HEADER_SIZE;
            var n := if |left| < avail then |left| else avail;
            && f.payload == left[..n]
            && f.kind == (if begin && n == |left| then FULL_TYPE else if begin then FIRST_TYPE else if n == |left| then LAST_TYPE else MIDDLE_TYPE)
            && Split(q, left, begin)[1..] == if n == |left| then [] else Split(EndOf(q, f), left[n..], false)
  {
    hide Start;
  }

  /** At the end of a block a fragment that fits is whole in the buffer. */
  lemma FitsInBuffer(q: nat, n: nat, length: nat)
    requires WithinBlock(q, n) && q % BLOCK_SIZE + length <= BLOCK_SIZE && n > 0
    requires (q + n) % BLOCK_SIZE == 0
    ensures length <= n
  {
  }

  lemma StaysInBlock(q: nat, n: nat, k: nat)
    requires WithinBlock(q, n) && k <= n
    ensures WithinBlock(q + k, n - k)
  {
  }

  lemma StartIsStart(q: nat)
    ensures Start(Start(q)) == Start(q)
  {
  }

  lemma EndsInBlock(file: seq<Byte>, q: nat, fragments: seq<Fragment>)
    requires CutLayout(file, q, fragments) && Start(q) == q && fragments != []
    ensures q % BLOCK_SIZE + HEADER_SIZE + |fragments[0].payload| <= BLOCK_SIZE && fragments[0].kind != ZERO_TYPE
  {
  }

  lemma AtTheEnd(file: seq<Byte>, q: nat, p: nat, fragments: seq<Fragment>)
    requires p == q || p == Start(q)
    requires |file| < p + HEADER_SIZE
    ensures !FirstIsWhole(file, q, fragments)
  {
  }

  lemma TrailerOfBlock(q: nat, p: nat, position: nat, left: nat)
    requires p == q || p == Start(q)
    requires position == p + left && left < HEADER_SIZE && position % BLOCK_SIZE == 0
    ensures Start(p) == position == Start(q)
  {
  }

  lemma InsideBlock(q: nat, p: nat, left: nat)
    requires p == q || p == Start(q)
    requires left >= HEADER_SIZE && p % BLOCK_SIZE + left <= BLOCK_SIZE
    ensures Start(q) == p
  {
  }

  // ---------------------------------------------------------------- a whole log

  /** How many records lie wholly before the cut. */
  function Complete(records: seq<seq<Byte>>, cut: nat): (k: nat)
    ensures k <= |records|
  {
    if records == [] || |LogOf(records)| <= cut then |records| else Complete(records[..|records| - 1], cut)
  }

  lemma {:induction false} CompleteIs(records: seq<seq<Byte>>, cut: nat)
    ensures var k := Complete(records, cut);
            && k <= |records| && |LogOf(records[..k])| <= cut
            && (k < |records| ==> |LogOf(records[..k + 1])| > cut)
  {
    hide Encoded;
    var k := Complete(records, cut);
    assert records[..|records|] == records;
    if records != [] && |LogOf(records)| > cut {
      var init := records[..|records| - 1];
      CompleteIs(init, cut);
      hide LogOf;
      assert init[..k] == records[..k];
      assert k < |init| ==> init[..k + 1] == records[..k + 1];
    }
  }

  /** The loop over the records of a log in RecoverLogFile. A log that was cut at any byte gives back
      exactly the records that were complete, in order, and no corruption is reported. */
  method ReadLog(file: seq<Byte>, checksum: bool, ghost written: seq<seq<Byte>>)
    returns (records: seq<seq<Byte>>, reports: seq<Corruption>)
    ensures file <= LogOf(written) ==> records == written[..Complete(written, |file|)] && reports == []
  {
    hide CutRecords, Complete, LogOf, Encoded, Reader.Valid, Reader.Offset;
    var reader := new Reader(file, checksum);
    records := [];
    ghost var good := file <= LogOf(written);
    if good {
      LogIsCutRecords(file, written);
    }
    var ok := true;
    while ok
      invariant reader.Valid() && reader.file == file && reader.Offset() <= |file|
      invariant good ==>
                  && |records| <= |written| && records == written[..|records|] && reader.reports == []
                  && if ok then CutRecords(file, reader.Offset(), written[|records|..]) && reader.Offset() == |LogOf(records)| <= |file|
                     else |records| == Complete(written, |file|)
      decreases ok, |file| - reader.Offset()
    {
      var record;
      ghost var k := |records|;
      ok, record := reader.ReadRecord(if good then written[k..] else []);
      if good {
        OneMore(written, k, |file|);
      }
      if ok {
        records := records + [record];
      }
    }
    reports := reader.reports;
  }

  lemma LogIsCutRecords(file: seq<Byte>, records: seq<seq<Byte>>)
    requires file <= LogOf(records)
    ensures CutRecords(file, 0, records) && records[0..] == records && LogOf([]) == []
  {
    LogIsLayout(records);
    FragmentsFit(0, records);
    assert file[0..] == file;
  }

  lemma OneMore(written: seq<seq<Byte>>, k: nat, size: nat)
    requires k <= |written| && |LogOf(written[..k])| <= size
    ensures k < |written| ==>
              && written[k..][0] == written[k] && written[k..][1..] == written[k + 1..] && written[..k + 1] == written[..k] + [written[k]]
              && LogOf(written[..k + 1]) == LogOf(written[..k]) + Encoded(|LogOf(written[..k])|, written[k])
    ensures k == |written| || |LogOf(written[..k + 1])| > size ==> Complete(written, size) == k
  {
    hide Encoded, Complete;
    CompleteIs(written, size);
    if k < |written| {
      assert written[..k + 1][..k] == written[..k];
    }
    var c := Complete(written, size);
    if c < k {
      LogGrows(written, c + 1, k);
    } else if k < c {
      LogGrows(written, k + 1, c);
    }
  }

  lemma {:induction false} LogGrows(records: seq<seq<Byte>>, i: nat, j: nat)
    requires i <= j <= |records|
    ensures |LogOf(records[..i])| <= |LogOf(records[..j])|
  {
    hide Encoded;
    if i < j {
      LogGrows(records, i, j - 1);
      assert records[..j][..j - 1] == records[..j - 1];
    }
  }
}
