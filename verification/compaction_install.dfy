/** Installing the results of a compaction keeps the version well ordered: its deeper levels sorted
    and disjoint, and newer data above older data. */
module CompactionInstall {
  import opened DbFormat
  import opened Versions
  import opened CompactionInputs
  import opened Compactions
  import opened CompactionReads

  ghost predicate NumbersBelow(v: Version, n: nat) {
    forall l, f :: 0 <= l < |v.files| && f in v.files[l] ==> f.number < n
  }

  /** The files of `r` can be put in a row without overlap. */
  ghost predicate PairwiseApart(r: seq<File>) {
    forall f, g :: f in r && g in r && f != g ==> Less(f.largest, g.smallest) || Less(g.largest, f.smallest)
  }

  lemma ApartAndSorted(r: seq<File>)
    requires WellFormedFiles(r) && SortedBySmallest(r) && PairwiseApart(r)
    ensures SortedLevel(r)
  {
    forall i, j | 0 <= i < j < |r| ensures Less(r[i].largest, r[j].smallest) {
      assert BySmallestKey(r[i], r[j]);
      SmallestLargest(r, i);
      SmallestLargest(r, j);
    }
  }

  lemma SortedIsApart(files: seq<File>, f: File, g: File)
    requires SortedLevel(files) && f in files && g in files && f != g
    ensures Less(f.largest, g.smallest) || Less(g.largest, f.smallest)
  {
    var i :| 0 <= i < |files| && files[i] == f;
    var j :| 0 <= j < |files| && files[j] == g;
  }

  /** All the entries of the outputs come from the inputs. */
  lemma OutputEntry(upper: seq<File>, lower: seq<File>, input: seq<Entry>, outputs: seq<File>, o: File, e: Entry) returns (f: File)
    requires Merged(input, upper + lower) && FromInput(outputs, input)
    requires o in outputs && e in o.table
    ensures f in upper + lower && e in f.table && e in input
  {
    ContentsMembers(outputs);
    assert e in Contents(outputs);
    f :| f in upper + lower && e in f.table;
  }

  /** A left-out file of the lower level lies before all the inputs or behind all of them. */
  lemma LeftOutSide(files: seq<File>, above: seq<File>, upper: seq<File>, lower: seq<File>, g: File) returns (before: bool)
    requires WellFormedFiles(files) && SortedLevel(files) && WellFormedFiles(above)
    requires LowerInputs(files, upper, lower) && forall h :: h in upper ==> h in above
    requires g in files && g !in lower
    ensures before ==> forall f :: f in upper + lower ==> Less(g.largest, f.smallest)
    ensures !before ==> forall f :: f in upper + lower ==> Less(f.largest, g.smallest)
  {
    var r :| Hull(upper, r) && lower == Overlapping(files, r);
    OverlappingMembers(files, r);
    before := AfterFile(r.lo, g);
    TableBounds(g, g.table[0]);
    forall f | f in upper + lower ensures if before then Less(g.largest, f.smallest) else Less(f.largest, g.smallest) {
      if f in upper {
        assert Inside(f, r);
        TableBounds(f, f.table[0]);
      } else {
        assert Overlaps(f, r);
        SortedIsApart(files, f, g);
        TableBounds(f, f.table[0]);
      }
    }
  }

  lemma OutputApart(v: Version, level: nat, upper: seq<File>, lower: seq<File>, input: seq<Entry>, outputs: seq<File>,
                    o: File, g: File)
    requires ValidVersion(v) && level + 1 < NUM_LEVELS && Chosen(v, level, upper, lower)
    requires Merged(input, upper + lower) && FromInput(outputs, input)
    requires GoodOutputs(outputs) && o in outputs
    requires g in v.files[level + 1] && g !in lower
    ensures Less(o.largest, g.smallest) || Less(g.largest, o.smallest)
  {
    hide LevelsByAge, UpperInputs, NumberedByAge, Merged, SortedBySmallest, Contents;
    UpperAreFiles(v.files[level], level, upper);
    LowerAreFiles(v.files[level + 1], upper, lower);
    hide LowerInputs;
    var before := LeftOutSide(v.files[level + 1], v.files[level], upper, lower, g);
    assert o.table[0] in o.table && o.table[|o.table| - 1] in o.table;
    var f1 := OutputEntry(upper, lower, input, outputs, o, o.table[0]);
    var f2 := OutputEntry(upper, lower, input, outputs, o, o.table[|o.table| - 1]);
    assert WellFormed(f1) && WellFormed(f2);
    TableBounds(f1, o.table[0]);
    TableBounds(f2, o.table[|o.table| - 1]);
  }

  /** The numbers of `added` are all different and new to `files`. */
  ghost predicate NewNumbers(files: seq<File>, added: seq<File>) {
    && (forall f, g :: f in added && g in added && f.number == g.number ==> f == g)
    && (forall f, g :: f in added && g in files ==> f.number != g.number)
  }

  lemma FreshAreNew(files: seq<File>, added: seq<File>, from: nat, to: nat)
    requires FreshNumbers(added, from, to) && forall g :: g in files ==> g.number < from
    ensures NewNumbers(files, added)
  {
    forall f, g | f in added && g in added && f.number == g.number ensures f == g {
      var a :| 0 <= a < |added| && added[a] == f;
      var b :| 0 <= b < |added| && added[b] == g;
    }
    forall f | f in added ensures f.number >= from {
      var a :| 0 <= a < |added| && added[a] == f;
    }
  }

  lemma ReplacedDistinct(files: seq<File>, gone: seq<File>, added: seq<File>, r: seq<File>)
    requires Replaced(files, gone, added, r) && DistinctNumbers(files)
    requires NewNumbers(files, added)
    ensures DistinctNumbers(r)
  {
    forall i, j | 0 <= i < j < |r| ensures r[i].number != r[j].number {
      assert BySmallestKey(r[i], r[j]);
      assert r[i] in r && r[j] in r;
      if r[i].number == r[j].number {
        if r[i] !in added && r[j] !in added {
          SameNumber(files, r[i], r[j]);
        }
      }
    }
  }

  lemma UpperLevelKept(files: seq<File>, gone: seq<File>, r: seq<File>)
    requires WellFormedFiles(files) && DistinctNumbers(files) && Replaced(files, gone, [], r)
    ensures WellFormedFiles(r) && DistinctNumbers(r) && SortedBySmallest(r)
    ensures SortedLevel(files) ==> SortedLevel(r)
    ensures NumberedByAge(files) ==> NumberedByAge(r)
  {
    ReplacedDistinct(files, gone, [], r);
    if SortedLevel(files) {
      forall f, g | f in r && g in r && f != g ensures Less(f.largest, g.smallest) || Less(g.largest, f.smallest) {
        SortedIsApart(files, f, g);
      }
      ApartAndSorted(r);
    }
  }

  ghost predicate FromInput(outputs: seq<File>, input: seq<Entry>) {
    forall e :: e in Contents(outputs) ==> e in input
  }

  /** `w` is `v` with the chosen inputs replaced by files that hold nothing but input entries. */
  ghost predicate Rearranged(v: Version, w: Version, level: nat, upper: seq<File>, lower: seq<File>,
                             input: seq<Entry>, outputs: seq<File>) {
    && ValidVersion(v)
    && Installed(v, w, level, upper, lower, outputs)
    && Chosen(v, level, upper, lower)
    && Merged(input, upper + lower)
    && FromInput(outputs, input)
    && GoodOutputs(outputs)
    && NewNumbers(v.files[level + 1], outputs)
  }

  lemma CompactedRearranges(v: Version, w: Version, level: nat, upper: seq<File>, lower: seq<File>, input: seq<Entry>,
                            outputs: seq<File>, snapshot: nat, from: nat, to: nat)
    requires Compacted(v, w, level, upper, lower, input, outputs, snapshot)
    requires GoodOutputs(outputs) && FreshNumbers(outputs, from, to) && NumbersBelow(v, from)
    ensures Rearranged(v, w, level, upper, lower, input, outputs)
  {
    hide ValidVersion, Chosen, Merged, GoodOutputs;
    KeptMembers(v, level, input, |input|, snapshot);
    FreshAreNew(v.files[level + 1], outputs, from, to);
  }

  lemma LowerLevelKept(v: Version, w: Version, level: nat, upper: seq<File>, lower: seq<File>, input: seq<Entry>, outputs: seq<File>)
    requires Rearranged(v, w, level, upper, lower, input, outputs)
    ensures WellFormedFiles(w.files[level + 1]) && DistinctNumbers(w.files[level + 1])
    ensures SortedBySmallest(w.files[level + 1]) && SortedLevel(w.files[level + 1])
  {
    hide LevelsByAge, UpperInputs;
    var files, r := v.files[level + 1], w.files[level + 1];
    assert WellFormedFiles(files) && DistinctNumbers(files) && SortedLevel(files);
    ReplacedDistinct(files, lower, outputs, r);
    forall f, g | f in r && g in r && f != g ensures Less(f.largest, g.smallest) || Less(g.largest, f.smallest) {
      if f in outputs && g in outputs {
        SortedIsApart(outputs, f, g);
      } else if f in outputs {
        OutputApart(v, level, upper, lower, input, outputs, f, g);
      } else if g in outputs {
        OutputApart(v, level, upper, lower, input, outputs, g, f);
      } else {
        SortedIsApart(files, f, g);
      }
    }
    ApartAndSorted(r);
  }

  /** Newer data stays above older data: an output against an untouched file. */
  lemma OutputAge(v: Version, level: nat, upper: seq<File>, lower: seq<File>, input: seq<Entry>, outputs: seq<File>,
                  o: File, l: nat, g: File)
    requires ValidVersion(v) && level + 1 < NUM_LEVELS && Chosen(v, level, upper, lower)
    requires Merged(input, upper + lower) && FromInput(outputs, input)
    requires UniqueSequences(Entries(v))
    requires o in outputs && l < NUM_LEVELS && g in v.files[l] && !Input(l, g, level, upper, lower)
    ensures l <= level ==> Newer(g.table, o.table)
    ensures level + 2 <= l ==> Newer(o.table, g.table)
  {
    UpperAreFiles(v.files[level], level, upper);
    LowerAreFiles(v.files[level + 1], upper, lower);
    if l <= level {
      forall x, y | x in g.table && y in o.table && x.key.user == y.key.user ensures x.key.sequence > y.key.sequence {
        var f := OutputEntry(upper, lower, input, outputs, o, y);
        OlderThanAbove(v, level, upper, lower, input, l, g, x, f, y);
      }
    }
    if level + 2 <= l {
      forall x, y | x in o.table && y in g.table && x.key.user == y.key.user ensures x.key.sequence > y.key.sequence {
        var f := OutputEntry(upper, lower, input, outputs, o, x);
        var m := if f in upper then level else level + 1;
        assert f in v.files[m] && Newer(f.table, g.table);
      }
    }
  }

  lemma OlderThanAbove(v: Version, level: nat, upper: seq<File>, lower: seq<File>, input: seq<Entry>, l: nat, g: File, x: Entry, f: File, y: Entry)
    requires ValidVersion(v) && level + 1 < NUM_LEVELS && Chosen(v, level, upper, lower)
    requires Merged(input, upper + lower) && UniqueSequences(Entries(v))
    requires l <= level && g in v.files[l] && x in g.table && !Input(l, g, level, upper, lower)
    requires f in upper + lower && y in f.table && x.key.user == y.key.user
    ensures x.key.sequence > y.key.sequence
  {
    hide SortedTable, Merged, UniqueSequences, SortedLevel;
    UpperAreFiles(v.files[level], level, upper);
    LowerAreFiles(v.files[level + 1], upper, lower);
    if l == level && f in upper {
      DifferentSequences(v, level, upper, lower, input, l, g, x, f, y);
      assert WellFormedFiles(v.files[level]);
      UpperLeftIsNewer(v.files[level], level, upper, g, f, x, y);
    } else {
      var m := if f in upper then level else level + 1;
      assert f in v.files[m] && l < m && Newer(g.table, f.table);
    }
  }

  lemma DifferentSequences(v: Version, level: nat, upper: seq<File>, lower: seq<File>, input: seq<Entry>, l: nat, g: File, x: Entry, f: File, y: Entry)
    requires ValidVersion(v) && level + 1 < NUM_LEVELS && Chosen(v, level, upper, lower)
    requires Merged(input, upper + lower) && UniqueSequences(Entries(v))
    requires l < NUM_LEVELS && g in v.files[l] && x in g.table && !Input(l, g, level, upper, lower)
    requires f in upper + lower && y in f.table && x.key.user == y.key.user
    ensures x.key.sequence != y.key.sequence
  {
    hide ValidVersion, Chosen, SortedTable;
    assert |v.files| == NUM_LEVELS by { LevelCount(v); }
    InputsAreApart(v, level, upper, lower, input);
    EntriesBefore(v, level, upper, lower, input);
    assert x in Untouched(v, level, upper, lower) && y in input;
    assert x in Entries(v) && y in Entries(v) && x != y;
  }

  lemma AgesKept(v: Version, w: Version, level: nat, upper: seq<File>, lower: seq<File>, input: seq<Entry>, outputs: seq<File>)
    requires Rearranged(v, w, level, upper, lower, input, outputs)
    requires UniqueSequences(Entries(v))
    ensures LevelsByAge(w)
  {
    hide UpperInputs, LowerInputs, Newer, SortedBySmallest, UniqueSequences, SortedLevel, WellFormedFiles;
    forall l1, l2, f, g | 0 <= l1 < l2 < NUM_LEVELS && f in w.files[l1] && g in w.files[l2] ensures Newer(f.table, g.table) {
      var out1 := l1 == level + 1 && f in outputs;
      var out2 := l2 == level + 1 && g in outputs;
      if out1 {
        OutputAge(v, level, upper, lower, input, outputs, f, l2, g);
      } else if out2 {
        OutputAge(v, level, upper, lower, input, outputs, g, l1, f);
      } else {
        assert f in v.files[l1] && g in v.files[l2];
      }
    }
  }

  /** A compaction or a trivial move leads from one valid version to another. */
  lemma RearrangedIsValid(v: Version, w: Version, level: nat, upper: seq<File>, lower: seq<File>, input: seq<Entry>, outputs: seq<File>)
    requires Rearranged(v, w, level, upper, lower, input, outputs)
    requires UniqueSequences(Entries(v))
    ensures ValidVersion(w)
  {
    hide Chosen, Newer, UniqueSequences, Merged, FromInput, GoodOutputs, NewNumbers, Replaced, Entries,
         LevelsByAge, NumberedByAge, WellFormedFiles, SortedLevel, DistinctNumbers, SortedBySmallest;
    AgesKept(v, w, level, upper, lower, input, outputs);
    UpperLevelKept(v.files[level], upper, w.files[level]);
    LowerLevelKept(v, w, level, upper, lower, input, outputs);
  }

  lemma EntriesShrink(v: Version, w: Version, level: nat, upper: seq<File>, lower: seq<File>, input: seq<Entry>, outputs: seq<File>)
    requires Rearranged(v, w, level, upper, lower, input, outputs)
    ensures Entries(w) <= Entries(v)
  {
    hide ValidVersion, Chosen, Merged, Installed;
    InstalledLevel(v, w, level, upper, lower, outputs);
    EntriesBefore(v, level, upper, lower, input);
    EntriesAfter(v, w, level, upper, lower, outputs);
  }

  /** A compaction keeps file numbers apart across all levels. */
  lemma NumbersKept(v: Version, w: Version, level: nat, upper: seq<File>, lower: seq<File>, outputs: seq<File>, from: nat, to: nat)
    requires Installed(v, w, level, upper, lower, outputs)
    requires FreshNumbers(outputs, from, to) && NumbersBelow(v, from) && from <= to && UniqueNumbers(v)
    ensures NumbersBelow(w, to) && UniqueNumbers(w)
  {
    forall l, f | 0 <= l < NUM_LEVELS && f in w.files[l]
      ensures f.number < to && (if l == level + 1 && f in outputs then f.number >= from else f in v.files[l])
    {
      if l == level + 1 && f in outputs {
        var i :| 0 <= i < |outputs| && outputs[i] == f;
      }
    }
  }

  /** No file number occurs on two levels. */
  ghost predicate UniqueNumbers(v: Version) {
    forall l1, l2, f, g :: 0 <= l1 < l2 < |v.files| && f in v.files[l1] && g in v.files[l2] ==> f.number != g.number
  }
}
