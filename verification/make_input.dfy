/** The merged input of a compaction, read off a merging iterator (MakeInputIterator of
    db/version_set.cc and the loop that drives it in db/db_impl.cc). */
module MakeInputs {
  import opened DbFormat
  import opened Cursors
  import opened MergingIterators
  import opened Versions
  import opened CompactionInputs
  import opened Compactions
  import opened CompactionReads

  // ---------------------------------------------------------------- sorted unions exist

  ghost predicate Comparable(a: seq<Entry>, b: seq<Entry>) {
    forall x, y :: x in a && y in b ==> Less(x.key, y.key) || Less(y.key, x.key)
  }

  ghost function Merge2(a: seq<Entry>, b: seq<Entry>): seq<Entry>
    decreases |a| + |b|
  {
    if a == [] then b
    else if b == [] then a
    else if Less(a[0].key, b[0].key) then [a[0]] + Merge2(a[1..], b)
    else [b[0]] + Merge2(a, b[1..])
  }

  lemma {:induction false} Merge2Members(a: seq<Entry>, b: seq<Entry>)
    ensures forall e :: e in Merge2(a, b) <==> e in a || e in b
    decreases |a| + |b|
  {
    if a != [] && b != [] {
      assert forall e :: e in a <==> e == a[0] || e in a[1..];
      assert forall e :: e in b <==> e == b[0] || e in b[1..];
      if Less(a[0].key, b[0].key) {
        Merge2Members(a[1..], b);
      } else {
        Merge2Members(a, b[1..]);
      }
    }
  }

  lemma {:induction false} Merge2Sorted(a: seq<Entry>, b: seq<Entry>)
    requires SortedTable(a) && SortedTable(b) && Comparable(a, b)
    ensures SortedTable(Merge2(a, b))
    decreases |a| + |b|
  {
    if a != [] && b != [] {
      assert a[0] in a && b[0] in b;
      if Less(a[0].key, b[0].key) {
        assert forall e :: e in a[1..] ==> e in a;
        Merge2Sorted(a[1..], b);
        Merge2Members(a[1..], b);
        FirstIsLeast(a, b, Merge2(a[1..], b));
      } else {
        assert forall e :: e in b[1..] ==> e in b;
        Merge2Sorted(a, b[1..]);
        Merge2Members(a, b[1..]);
        FirstIsLeast(b, a, Merge2(a, b[1..]));
      }
    }
  }

  lemma FirstIsLeast(a: seq<Entry>, b: seq<Entry>, rest: seq<Entry>)
    requires SortedTable(a) && SortedTable(b) && SortedTable(rest)
    requires a != [] && b != [] && Less(a[0].key, b[0].key)
    requires forall e :: e in rest ==> e in a[1..] || e in b
    ensures SortedTable([a[0]] + rest)
  {
    forall e | e in rest ensures Less(a[0].key, e.key) {
      if e in a[1..] {
        var i :| 0 <= i < |a[1..]| && a[1..][i] == e;
        assert a[i + 1] == e;
      } else {
        var i :| 0 <= i < |b| && b[i] == e;
        assert i > 0 ==> Less(b[0].key, b[i].key);
      }
    }
    assert forall i :: 0 <= i < |rest| ==> rest[i] in rest;
  }

  ghost function MergeAll(tables: seq<seq<Entry>>): seq<Entry> {
    if tables == [] then [] else Merge2(MergeAll(tables[..|tables| - 1]), tables[|tables| - 1])
  }

  ghost predicate InSome(tables: seq<seq<Entry>>, e: Entry) {
    exists i :: 0 <= i < |tables| && e in tables[i]
  }

  ghost predicate AllComparable(tables: seq<seq<Entry>>) {
    forall i, j :: 0 <= i < j < |tables| ==> Comparable(tables[i], tables[j])
  }

  lemma {:induction false} MergeAllMembers(tables: seq<seq<Entry>>)
    ensures forall e :: e in MergeAll(tables) <==> InSome(tables, e)
  {
    if tables != [] {
      var rest, last := tables[..|tables| - 1], tables[|tables| - 1];
      MergeAllMembers(rest);
      Merge2Members(MergeAll(rest), last);
      forall e ensures InSome(tables, e) <==> InSome(rest, e) || e in last {
        if InSome(rest, e) {
          var i :| 0 <= i < |rest| && e in rest[i];
          assert tables[i] == rest[i];
        }
        if InSome(tables, e) {
          var i :| 0 <= i < |tables| && e in tables[i];
          assert i < |rest| ==> tables[i] == rest[i];
        }
      }
    }
  }

  lemma {:induction false} MergeAllSorted(tables: seq<seq<Entry>>)
    requires forall i :: 0 <= i < |tables| ==> SortedTable(tables[i])
    requires AllComparable(tables)
    ensures SortedTable(MergeAll(tables))
  {
    if tables != [] {
      var rest, last := tables[..|tables| - 1], tables[|tables| - 1];
      MergeAllSorted(rest);
      MergeAllMembers(rest);
      forall x, y | x in MergeAll(rest) && y in last ensures Less(x.key, y.key) || Less(y.key, x.key) {
        var i :| 0 <= i < |rest| && x in rest[i];
        assert Comparable(tables[i], tables[|rest|]);
      }
      Merge2Sorted(MergeAll(rest), last);
    }
  }

  // ---------------------------------------------------------------- reading off an iterator

  /** Runs a merging iterator from its first entry to its end. */
  method Drain(it: MergingIterator) returns (t: seq<Entry>)
    requires it.Ok()
    modifies it, it.children
    ensures t == it.merged
  {
    it.SeekToFirst();
    t := [];
    while it.Valid()
      invariant it.Ok() && t == it.merged[..it.at]
      decreases |it.merged| - it.at
    {
      t := t + [it.children[it.current].entries[it.children[it.current].pos]];
      it.Next();
    }
  }

  /** NewMergingIterator over one iterator per table. */
  method NewMergingIterator(tables: seq<seq<Entry>>) returns (it: MergingIterator)
    requires forall i :: 0 <= i < |tables| ==> SortedTable(tables[i])
    requires AllComparable(tables)
    ensures fresh(it) && (forall i :: 0 <= i < |it.children| ==> fresh(it.children[i]))
    ensures it.Ok() && it.merged == MergeAll(tables)
  {
    hide SortedTable, Comparable;
    var children: seq<Cursor> := [];
    var i := 0;
    while i < |tables|
      invariant 0 <= i <= |tables| && |children| == i
      invariant forall j :: 0 <= j < i ==> fresh(children[j]) && children[j].Ok() && children[j].entries == tables[j]
      invariant forall j, k :: 0 <= j < k < i ==> children[j] != children[k]
    {
      var c := new Cursor(tables[i]);
      children := children + [c];
      i := i + 1;
    }
    ghost var merged := MergeAll(tables);
    MergeAllMembers(tables);
    MergeAllSorted(tables);
    forall j | 0 <= j < |children| ensures UnionHas(merged, children[j].entries) {
      assert forall e :: e in tables[j] ==> InSome(tables, e);
    }
    forall e | e in merged ensures Held(children, e) {
      var j :| 0 <= j < |tables| && e in tables[j];
      assert e in children[j].entries;
    }
    ComparableApart(tables);
    it := new MergingIterator(children, merged);
  }

  /** One iterator per table, merged and drained. */
  method MergeTables(tables: seq<seq<Entry>>) returns (t: seq<Entry>)
    requires forall i :: 0 <= i < |tables| ==> SortedTable(tables[i])
    requires AllComparable(tables)
    ensures SortedTable(t)
    ensures forall e :: e in t <==> InSome(tables, e)
  {
    MergeAllMembers(tables);
    MergeAllSorted(tables);
    var it := NewMergingIterator(tables);
    t := Drain(it);
  }

  lemma ComparableApart(tables: seq<seq<Entry>>)
    requires AllComparable(tables)
    ensures forall i, j, e :: 0 <= i < j < |tables| && e in tables[i] ==> e !in tables[j]
  {
    forall i, j, e | 0 <= i < j < |tables| && e in tables[i] ensures e !in tables[j] {
      assert Comparable(tables[i], tables[j]);
      assert e in tables[j] ==> Less(e.key, e.key);
    }
  }

  // ---------------------------------------------------------------- the inputs of a compaction

  /** An entry of a valid version is in one file only. */
  lemma OneFile(v: Version, l1: nat, f: File, l2: nat, g: File, e: Entry)
    requires ValidVersion(v) && l1 < NUM_LEVELS && l2 < NUM_LEVELS
    requires f in v.files[l1] && g in v.files[l2] && e in f.table && e in g.table
    ensures l1 == l2 && f == g
  {
    assert l1 < l2 ==> Newer(f.table, g.table);
    assert l2 < l1 ==> Newer(g.table, f.table);
    assert WellFormedFiles(v.files[l1]);
    if l1 > 0 {
      InOneFile(v.files[l1], f, g, e);
    } else {
      HoldersShareNumber(v.files[0], f, g, e);
      SameNumber(v.files[0], f, g);
    }
  }

  lemma HoldersShareNumber(files: seq<File>, f: File, g: File, e: Entry)
    requires NumberedByAge(files) && f in files && g in files && e in f.table && e in g.table
    ensures f.number == g.number
  {
  }

  lemma DistinctEntriesCompare(v: Version, l1: nat, f: File, l2: nat, g: File, x: Entry, y: Entry)
    requires ValidVersion(v) && UniqueSequences(Entries(v)) && l1 < NUM_LEVELS && l2 < NUM_LEVELS
    requires f in v.files[l1] && g in v.files[l2] && x in f.table && y in g.table
    requires l1 != l2 || f != g
    ensures Less(x.key, y.key) || Less(y.key, x.key)
  {
    hide ValidVersion;
    assert |v.files| == NUM_LEVELS by { LevelCount(v); }
    assert x != y by {
      if x == y {
        OneFile(v, l1, f, l2, g, x);
      }
    }
    assert x in Entries(v) && y in Entries(v);
  }

  lemma {:induction false} ContentsSorted(files: seq<File>)
    requires WellFormedFiles(files) && SortedLevel(files)
    ensures SortedTable(Contents(files))
  {
    if files != [] {
      var rest, last := files[..|files| - 1], files[|files| - 1];
      assert forall f :: f in rest ==> f in files;
      ContentsSorted(rest);
      ContentsMembers(rest);
      assert last in files;
      hide SortedTable, WellFormed;
      forall i, j | 0 <= i < |Contents(rest)| && 0 <= j < |last.table|
        ensures Less(Contents(rest)[i].key, last.table[j].key)
      {
        assert Contents(rest)[i] in Contents(rest) && last.table[j] in last.table;
        var f :| f in rest && Contents(rest)[i] in f.table;
        TableBounds(f, Contents(rest)[i]);
        TableBounds(last, last.table[j]);
        var k :| 0 <= k < |rest| && rest[k] == f;
        assert files[k] == f;
      }
    }
  }

  lemma {:induction false} OverlappingInOrder(files: seq<File>, r: Range)
    requires SortedBySmallest(files)
    ensures SortedBySmallest(Overlapping(files, r))
  {
    if files != [] {
      var rest, last := files[..|files| - 1], files[|files| - 1];
      OverlappingInOrder(rest, r);
      OverlappingMembers(rest, r);
      forall i | 0 <= i < |Overlapping(rest, r)| ensures BySmallestKey(Overlapping(rest, r)[i], last) {
        assert Overlapping(rest, r)[i] in rest;
      }
    }
  }

  lemma RunIsSorted(files: seq<File>, run: seq<File>)
    requires SortedLevel(files) && IsRun(files, run)
    ensures SortedLevel(run)
  {
    var lo: nat :| RunAt(files, run, lo);
    forall i, j | 0 <= i < j < |run| ensures Less(run[i].largest, run[j].smallest) {
      assert run[i] == files[lo + i] && run[j] == files[lo + j];
    }
  }

  /** The tables that are merged: on level 0 one per file, deeper one per level. */
  function InputTables(level: nat, upper: seq<File>, lower: seq<File>): seq<seq<Entry>> {
    (if level == 0 then seq(|upper|, i requires 0 <= i < |upper| => upper[i].table) else [Contents(upper)])
    + if lower == [] then [] else [Contents(lower)]
  }

  lemma InputTablesMembers(level: nat, upper: seq<File>, lower: seq<File>)
    ensures forall e :: InSome(InputTables(level, upper, lower), e) <==> exists f :: f in upper + lower && e in f.table
  {
    var tables := InputTables(level, upper, lower);
    var n := if level == 0 then |upper| else 1;
    ContentsMembers(upper);
    ContentsMembers(lower);
    assert lower != [] ==> tables[n] == Contents(lower);
    assert level > 0 ==> tables[0] == Contents(upper);
    forall e | InSome(tables, e) ensures exists f :: f in upper + lower && e in f.table {
      var i :| 0 <= i < |tables| && e in tables[i];
      if level == 0 && i < n {
        assert upper[i] in upper + lower;
      } else if i == n {
        var f :| f in lower && e in f.table;
        assert f in upper + lower;
      } else {
        var f :| f in upper && e in f.table;
        assert f in upper + lower;
      }
    }
    forall f, e | f in upper + lower && e in f.table ensures InSome(tables, e) {
      if f in upper && level == 0 {
        var i :| 0 <= i < |upper| && upper[i] == f;
        assert tables[i] == f.table;
      } else if f in upper {
        assert e in tables[0];
      } else {
        assert e in tables[n];
      }
    }
  }

  /** The input files as the code needs them: in order, without duplicates. */
  lemma InputsInOrder(v: Version, level: nat, upper: seq<File>, lower: seq<File>)
    requires ValidVersion(v) && level + 1 < NUM_LEVELS && Chosen(v, level, upper, lower)
    ensures WellFormedFiles(upper) && WellFormedFiles(lower)
    ensures SortedLevel(lower)
    ensures level > 0 ==> SortedLevel(upper)
    ensures level == 0 ==> SortedBySmallest(upper)
  {
    hide LevelsByAge;
    UpperAreFiles(v.files[level], level, upper);
    LowerAreFiles(v.files[level + 1], upper, lower);
    assert WellFormedFiles(v.files[level]) && WellFormedFiles(v.files[level + 1]);
    var r :| Hull(upper, r) && lower == Overlapping(v.files[level + 1], r);
    OverlappingIsRun(v.files[level + 1], r);
    RunIsSorted(v.files[level + 1], lower);
    if level > 0 {
      assert IsRun(v.files[level], upper);
      RunIsSorted(v.files[level], upper);
    } else {
      var s :| Closed(v.files[0], s) && upper == Overlapping(v.files[0], s);
      OverlappingInOrder(v.files[0], s);
    }
  }

  lemma InputTablesCompare(v: Version, level: nat, upper: seq<File>, lower: seq<File>)
    requires ValidVersion(v) && level + 1 < NUM_LEVELS && Chosen(v, level, upper, lower)
    requires UniqueSequences(Entries(v))
    ensures AllComparable(InputTables(level, upper, lower))
  {
    hide ValidVersion, UniqueSequences, Chosen, SortedLevel, WellFormedFiles;
    assert |v.files| == NUM_LEVELS by { LevelCount(v); }
    var tables := InputTables(level, upper, lower);
    InputsInOrder(v, level, upper, lower);
    InputsAreFiles(v, level, upper, lower);
    ContentsMembers(upper);
    ContentsMembers(lower);
    forall i, j | 0 <= i < j < |tables| ensures Comparable(tables[i], tables[j]) {
      forall x: Entry, y: Entry | x in tables[i] && y in tables[j] ensures Less(x.key, y.key) || Less(y.key, x.key) {
        if level == 0 && j < |upper| {
          assert BySmallestKey(upper[i], upper[j]);
          assert upper[i] in upper && upper[j] in upper;
          DistinctEntriesCompare(v, 0, upper[i], 0, upper[j], x, y);
        } else {
          var g :| g in lower && y in g.table;
          var f := UpperHolder(level, upper, lower, i, x);
          DistinctEntriesCompare(v, level, f, level + 1, g, x, y);
        }
      }
    }
  }

  lemma UpperHolder(level: nat, upper: seq<File>, lower: seq<File>, i: nat, x: Entry) returns (f: File)
    requires i < (if level == 0 then |upper| else 1) && x in InputTables(level, upper, lower)[i]
    ensures f in upper && x in f.table
  {
    ContentsMembers(upper);
    if level == 0 {
      f := upper[i];
    } else {
      f :| f in upper && x in f.table;
    }
  }

  lemma InputsAreFiles(v: Version, level: nat, upper: seq<File>, lower: seq<File>)
    requires ValidVersion(v) && level + 1 < NUM_LEVELS && Chosen(v, level, upper, lower)
    ensures forall f :: f in upper ==> f in v.files[level]
    ensures forall f :: f in lower ==> f in v.files[level + 1]
    ensures forall f, e :: f in upper + lower && e in f.table ==> e.key.sequence <= MAX_SEQUENCE
  {
    hide LevelsByAge;
    UpperAreFiles(v.files[level], level, upper);
    LowerAreFiles(v.files[level + 1], upper, lower);
    assert WellFormedFiles(v.files[level]) && WellFormedFiles(v.files[level + 1]);
  }

  /** MakeInputIterator and the reading of it: every entry of the inputs, once, in key order. */
  method MakeInput(v: Version, level: nat, upper: seq<File>, lower: seq<File>) returns (t: seq<Entry>)
    requires ValidVersion(v) && level + 1 < NUM_LEVELS && Chosen(v, level, upper, lower)
    requires UniqueSequences(Entries(v))
    ensures Merged(t, upper + lower)
    ensures forall e :: e in t ==> e.key.sequence <= MAX_SEQUENCE
  {
    hide ValidVersion, UniqueSequences, Chosen;
    InputTablesCompare(v, level, upper, lower);
    InputsInOrder(v, level, upper, lower);
    InputsAreFiles(v, level, upper, lower);
    var tables := InputTables(level, upper, lower);
    TablesSorted(level, upper, lower);
    InputTablesMembers(level, upper, lower);
    t := MergeTables(tables);
  }

  lemma TablesSorted(level: nat, upper: seq<File>, lower: seq<File>)
    requires WellFormedFiles(upper) && WellFormedFiles(lower) && SortedLevel(lower)
    requires level > 0 ==> SortedLevel(upper)
    ensures forall i :: 0 <= i < |InputTables(level, upper, lower)| ==> SortedTable(InputTables(level, upper, lower)[i])
  {
    ContentsSorted(lower);
    if level > 0 {
      ContentsSorted(upper);
    } else {
      forall i | 0 <= i < |upper| ensures SortedTable(upper[i].table) {
        assert upper[i] in upper;
      }
    }
  }
}
