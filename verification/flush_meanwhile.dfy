/** Memtables flushed while a compaction is at work: the loop of DoCompactionWork stops for
    CompactMemTable, so the version its results go into is not the one its inputs came from
    (db/db_impl.cc, PickLevelForMemTableOutput of db/version_set.cc). */
module FlushesMeanwhile {
  import opened DbFormat
  import opened Versions
  import opened Builders
  import opened CompactionInputs
  import opened Compactions
  import opened CompactionReads
  import opened CompactionInstall
  import opened Flushes

  /** A file that was flushed to a level. */
  datatype Placed = Placed(level: nat, file: File)

  function KeyRange(f: File): Range {
    Range(Some(f.smallest.user), Some(f.largest.user))
  }

  /** `v` holds the files of `base` and those flushed since. */
  ghost predicate Grown(base: Version, added: set<Placed>, v: Version) {
    && |base.files| == |v.files| == NUM_LEVELS
    && forall l: nat, f: File :: l < NUM_LEVELS ==> (f in v.files[l] <==> f in base.files[l] || Placed(l, f) in added)
  }

  /** The file was flushed when the files of `base` were there: it has newer data and a higher number,
      and a place other than level 0 only if no level down to it overlaps it. */
  ghost predicate FlushedOnto(base: Version, p: Placed) {
    p.level < NUM_LEVELS && FreshFile(base, p.file, p.level)
  }

  ghost predicate AllFlushedOnto(base: Version, added: set<Placed>) {
    forall p :: p in added ==> FlushedOnto(base, p)
  }

  ghost predicate Apart(f: File, g: File) {
    Less(f.largest, g.smallest) || Less(g.largest, f.smallest)
  }

  /** No file flushed to the lower level shares its range with an output. */
  ghost predicate NoneBetween(added: set<Placed>, level: nat, outputs: seq<File>) {
    forall p, o :: p in added && p.level == level + 1 && o in outputs ==> Apart(p.file, o)
  }

  // ---------------------------------------------------------------- the version without the flushes

  ghost function Without(files: seq<File>, added: set<Placed>, l: nat): seq<File> {
    if files == [] then [] else
      var rest := Without(files[..|files| - 1], added, l);
      if Placed(l, files[|files| - 1]) in added then rest else rest + [files[|files| - 1]]
  }

  lemma {:induction false} WithoutIs(files: seq<File>, added: set<Placed>, l: nat)
    requires SortedBySmallest(files)
    ensures SortedBySmallest(Without(files, added, l))
    ensures forall f :: f in Without(files, added, l) <==> f in files && Placed(l, f) !in added
  {
    if files != [] {
      var init, last := files[..|files| - 1], files[|files| - 1];
      assert files == init + [last];
      WithoutIs(init, added, l);
      var rest := Without(init, added, l);
      forall f | f in rest ensures BySmallestKey(f, last) {
        var i :| 0 <= i < |init| && init[i] == f;
        assert files[i] == f;
      }
      assert forall i :: 0 <= i < |rest| ==> rest[i] in rest;
    }
  }

  /** What the compaction alone would have made of the version it started from. */
  ghost function Alone(w: Version, added: set<Placed>): Version {
    Version(seq(|w.files|, l requires 0 <= l < |w.files| => Without(w.files[l], added, l)))
  }

  /** The flushed files are none of the old ones and none of the outputs. */
  ghost predicate NewOnes(base: Version, added: set<Placed>, level: nat, outputs: seq<File>)
    requires |base.files| == NUM_LEVELS
  {
    && (forall l: nat, f :: l < NUM_LEVELS && Placed(l, f) in added ==> f !in base.files[l])
    && (forall f :: f in outputs ==> Placed(level + 1, f) !in added)
  }

  lemma AreNewOnes(base: Version, added: set<Placed>, v: Version, level: nat, outputs: seq<File>)
    requires Grown(base, added, v) && AllFlushedOnto(base, added)
    requires level + 1 < NUM_LEVELS && NewNumbers(v.files[level + 1], outputs)
    ensures NewOnes(base, added, level, outputs)
  {
    hide WellFormed, Newer, NoOverlap;
    forall l: nat, f | l < NUM_LEVELS && Placed(l, f) in added ensures f !in base.files[l] {
      assert FlushedOnto(base, Placed(l, f)) && NumbersBelow(base, f.number);
    }
    forall p | p in added && p.level == level + 1 ensures p.file !in outputs {
      assert Placed(p.level, p.file) == p;
      assert p.file in v.files[level + 1];
    }
  }

  lemma AloneInstalls(base: Version, added: set<Placed>, v: Version, w: Version, level: nat, upper: seq<File>, lower: seq<File>, outputs: seq<File>)
    requires ValidVersion(base) && Grown(base, added, v) && Installed(v, w, level, upper, lower, outputs)
    requires NewOnes(base, added, level, outputs)
    requires forall f :: f in upper ==> f in base.files[level]
    requires forall f :: f in lower ==> f in base.files[level + 1]
    requires forall l :: 0 <= l < NUM_LEVELS ==> SortedBySmallest(w.files[l])
    ensures Installed(base, Alone(w, added), level, upper, lower, outputs)
  {
    var a := Alone(w, added);
    forall l: nat | l < NUM_LEVELS
      ensures SortedBySmallest(a.files[l]) && SortedBySmallest(base.files[l])
      ensures forall f :: f in a.files[l] <==> f in w.files[l] && Placed(l, f) !in added
    {
      WithoutIs(w.files[l], added, l);
      assert a.files[l] == Without(w.files[l], added, l);
    }
    hide ValidVersion, SortedBySmallest, Alone, Without;
    forall l: nat | l < NUM_LEVELS && l != level && l != level + 1 ensures a.files[l] == base.files[l] {
      assert forall f :: f in a.files[l] <==> f in base.files[l];
      SameMembers(a.files[l], base.files[l]);
    }
    assert |a.files| == NUM_LEVELS by { AloneCount(w, added); }
  }

  lemma AloneCount(w: Version, added: set<Placed>)
    ensures |Alone(w, added).files| == |w.files|
  {
  }

  lemma SameMembers(a: seq<File>, b: seq<File>)
    requires SortedBySmallest(a) && SortedBySmallest(b) && forall f :: f in a <==> f in b
    ensures a == b
  {
    assert FileSet(a) == FileSet(b);
    LevelIsUnique(a, b);
  }

  lemma AloneEntries(w: Version, added: set<Placed>)
    requires |w.files| == NUM_LEVELS && forall l :: 0 <= l < NUM_LEVELS ==> SortedBySmallest(w.files[l])
    requires forall p :: p in added ==> p.level < NUM_LEVELS && p.file in w.files[p.level]
    ensures Entries(w) == Entries(Alone(w, added)) + PlacedEntries(added)
  {
    var a := Alone(w, added);
    forall l: nat | l < NUM_LEVELS ensures forall f :: f in a.files[l] <==> f in w.files[l] && Placed(l, f) !in added {
      WithoutIs(w.files[l], added, l);
      assert a.files[l] == Without(w.files[l], added, l);
    }
    hide Alone, Without, SortedBySmallest;
    assert |a.files| == NUM_LEVELS by { AloneCount(w, added); }
    forall e | e in Entries(w) ensures e in Entries(a) + PlacedEntries(added) {
      var l: nat, f :| l < NUM_LEVELS && f in w.files[l] && e in f.table;
      if Placed(l, f) in added {
        assert e in Placed(l, f).file.table;
      }
    }
    forall e | e in PlacedEntries(added) ensures e in Entries(w) {
      var p :| p in added && e in p.file.table;
      assert p.file in w.files[p.level];
    }
    forall e | e in Entries(a) ensures e in Entries(w) {
      var l: nat, f :| l < NUM_LEVELS && f in a.files[l] && e in f.table;
    }
  }

  ghost function PlacedEntries(added: set<Placed>): set<Entry> {
    set p, e | p in added && e in p.file.table :: e
  }

  // ---------------------------------------------------------------- installing on top of the flushes

  /** A compaction of `base` that has done its work when the version has become `v`, and `w` is `v`
      with its results. */
  ghost predicate InstalledOver(base: Version, added: set<Placed>, v: Version, w: Version, level: nat, upper: seq<File>, lower: seq<File>,
                                input: seq<Entry>, outputs: seq<File>) {
    && ValidVersion(base) && ValidVersion(v) && Grown(base, added, v) && AllFlushedOnto(base, added)
    && Installed(v, w, level, upper, lower, outputs)
    && Chosen(base, level, upper, lower)
    && Merged(input, upper + lower) && FromInput(outputs, input) && GoodOutputs(outputs)
    && NewNumbers(v.files[level + 1], outputs)
  }

  lemma AloneRearranges(base: Version, added: set<Placed>, v: Version, w: Version, level: nat, upper: seq<File>, lower: seq<File>,
                        input: seq<Entry>, outputs: seq<File>)
    requires InstalledOver(base, added, v, w, level, upper, lower, input, outputs)
    ensures Rearranged(base, Alone(w, added), level, upper, lower, input, outputs)
    ensures Entries(w) == Entries(Alone(w, added)) + PlacedEntries(added)
    ensures Entries(v) == Entries(base) + PlacedEntries(added)
  {
    LevelsSorted(v, w, level, upper, lower, outputs);
    hide ValidVersion, Merged, FromInput, GoodOutputs, SortedBySmallest, Alone, FlushedOnto;
    AreNewOnes(base, added, v, level, outputs);
    UpperAreFiles(base.files[level], level, upper);
    LowerAreFiles(base.files[level + 1], upper, lower);
    hide Chosen;
    AloneInstalls(base, added, v, w, level, upper, lower, outputs);
    AddedSurvive(base, added, v, w, level, upper, lower, outputs);
    AloneEntries(w, added);
    GrownEntries(base, added, v);
    assert NewNumbers(base.files[level + 1], outputs) by { FewerNew(base, added, v, level, outputs); }
  }

  lemma FewerNew(base: Version, added: set<Placed>, v: Version, level: nat, outputs: seq<File>)
    requires Grown(base, added, v) && level + 1 < NUM_LEVELS && NewNumbers(v.files[level + 1], outputs)
    ensures NewNumbers(base.files[level + 1], outputs)
  {
  }

  lemma LevelsSorted(v: Version, w: Version, level: nat, upper: seq<File>, lower: seq<File>, outputs: seq<File>)
    requires ValidVersion(v) && Installed(v, w, level, upper, lower, outputs)
    ensures forall l :: 0 <= l < NUM_LEVELS ==> SortedBySmallest(w.files[l])
  {
  }

  lemma AddedSurvive(base: Version, added: set<Placed>, v: Version, w: Version, level: nat, upper: seq<File>, lower: seq<File>, outputs: seq<File>)
    requires Grown(base, added, v) && AllFlushedOnto(base, added) && Installed(v, w, level, upper, lower, outputs)
    requires NewOnes(base, added, level, outputs)
    requires forall f :: f in upper ==> f in base.files[level]
    requires forall f :: f in lower ==> f in base.files[level + 1]
    ensures forall p :: p in added ==> p.level < NUM_LEVELS && p.file in w.files[p.level]
  {
    hide FreshFile, SortedBySmallest;
    forall p | p in added ensures p.level < NUM_LEVELS && p.file in w.files[p.level] {
      assert FlushedOnto(base, p);
      assert Placed(p.level, p.file) == p;
      assert p.file in v.files[p.level] && p.file !in base.files[p.level];
    }
  }

  lemma GrownEntries(base: Version, added: set<Placed>, v: Version)
    requires Grown(base, added, v) && AllFlushedOnto(base, added)
    ensures Entries(v) == Entries(base) + PlacedEntries(added)
  {
    hide FreshFile;
    forall e | e in Entries(v) ensures e in Entries(base) + PlacedEntries(added) {
      var l: nat, f: File :| l < NUM_LEVELS && f in v.files[l] && e in f.table;
      if Placed(l, f) in added {
        assert e in Placed(l, f).file.table;
      } else {
        assert f in base.files[l];
      }
    }
    forall e | e in Entries(base) ensures e in Entries(v) {
      var l: nat, f: File :| l < NUM_LEVELS && f in base.files[l] && e in f.table;
      assert f in v.files[l];
    }
    forall e | e in PlacedEntries(added) ensures e in Entries(v) {
      var p :| p in added && e in p.file.table;
      assert FlushedOnto(base, p) && Placed(p.level, p.file) == p;
      assert p.file in v.files[p.level];
    }
  }

  /** An output against a file flushed meanwhile: newer data stays above older data. */
  lemma AddedAge(base: Version, added: set<Placed>, level: nat, upper: seq<File>, lower: seq<File>, input: seq<Entry>, outputs: seq<File>,
                 o: File, p: Placed)
    requires |base.files| == NUM_LEVELS && level + 1 < NUM_LEVELS && AllFlushedOnto(base, added)
    requires forall f :: f in upper ==> f in base.files[level] && WellFormed(f)
    requires forall f :: f in lower ==> f in base.files[level + 1] && WellFormed(f)
    requires Merged(input, upper + lower) && FromInput(outputs, input)
    requires o in outputs && p in added
    ensures Newer(p.file.table, o.table)
    ensures p.level > level + 1 ==> Newer(o.table, p.file.table)
  {
    assert FlushedOnto(base, p);
    hide Merged, FromInput, WellFormed, FlushedOnto, AllFlushedOnto;
    forall x, y | x in p.file.table && y in o.table && x.key.user == y.key.user
      ensures x.key.sequence > y.key.sequence && p.level <= level + 1
    {
      var f := OutputEntry(upper, lower, input, outputs, o, y);
      var m := if f in upper then level else level + 1;
      assert f in base.files[m];
      AddedAgainst(base, p, m, f, x, y);
    }
  }

  lemma AddedAgainst(base: Version, p: Placed, m: nat, f: File, x: Entry, y: Entry)
    requires FlushedOnto(base, p) && m < |base.files| && f in base.files[m] && WellFormed(f)
    requires x in p.file.table && y in f.table && x.key.user == y.key.user
    ensures x.key.sequence > y.key.sequence && p.level < if m == 0 then 1 else m
  {
    assert Newer(p.file.table, f.table);
    if p.level > 0 && m <= p.level {
      assert NoOverlap(base.files[m], KeyRange(p.file));
      ApartFromRange(p.file, f);
    }
  }

  lemma OverAges(base: Version, added: set<Placed>, v: Version, w: Version, level: nat, upper: seq<File>, lower: seq<File>,
                 input: seq<Entry>, outputs: seq<File>)
    requires InstalledOver(base, added, v, w, level, upper, lower, input, outputs)
    requires LevelsByAge(Alone(w, added)) && NewOnes(base, added, level, outputs)
    ensures LevelsByAge(w)
  {
    hide ValidVersion, Merged, FromInput, GoodOutputs, SortedBySmallest, FlushedOnto, Chosen, WellFormed, Newer, NewNumbers, Alone;
    InputsWellFormed(base, level, upper, lower);
    LevelsSorted(v, w, level, upper, lower, outputs);
    ByAge(v);
    forall l1: nat, l2: nat, f, g | l1 < l2 < NUM_LEVELS && f in w.files[l1] && g in w.files[l2] ensures Newer(f.table, g.table) {
      var out1, out2 := l1 == level + 1 && f in outputs, l2 == level + 1 && g in outputs;
      if out1 && Placed(l2, g) in added {
        AddedAge(base, added, level, upper, lower, input, outputs, f, Placed(l2, g));
      } else if out2 && Placed(l1, f) in added {
        AddedAge(base, added, level, upper, lower, input, outputs, g, Placed(l1, f));
      } else if out1 || out2 {
        OutsideAdded(w, added, l1, f);
        OutsideAdded(w, added, l2, g);
      } else {
        assert f in v.files[l1] && g in v.files[l2];
      }
    }
  }

  lemma ByAge(v: Version)
    requires ValidVersion(v)
    ensures LevelsByAge(v)
  {
  }

  lemma InputsWellFormed(v: Version, level: nat, upper: seq<File>, lower: seq<File>)
    requires ValidVersion(v) && level + 1 < NUM_LEVELS && Chosen(v, level, upper, lower)
    ensures forall f :: f in upper ==> f in v.files[level] && WellFormed(f)
    ensures forall f :: f in lower ==> f in v.files[level + 1] && WellFormed(f)
  {
    UpperAreFiles(v.files[level], level, upper);
    LowerAreFiles(v.files[level + 1], upper, lower);
    assert WellFormedFiles(v.files[level]) && WellFormedFiles(v.files[level + 1]);
  }

  lemma OutsideAdded(w: Version, added: set<Placed>, l: nat, f: File)
    requires l < |w.files| && f in w.files[l] && Placed(l, f) !in added && SortedBySmallest(w.files[l])
    ensures l < |Alone(w, added).files| && f in Alone(w, added).files[l]
  {
    WithoutIs(w.files[l], added, l);
  }

  lemma OverLowerLevel(base: Version, added: set<Placed>, v: Version, w: Version, level: nat, upper: seq<File>, lower: seq<File>,
                       input: seq<Entry>, outputs: seq<File>)
    requires InstalledOver(base, added, v, w, level, upper, lower, input, outputs)
    requires NoneBetween(added, level, outputs) && SortedLevel(Alone(w, added).files[level + 1])
    ensures WellFormedFiles(w.files[level + 1]) && DistinctNumbers(w.files[level + 1]) && SortedLevel(w.files[level + 1])
  {
    hide ValidVersion, Merged, FromInput, FlushedOnto, Chosen, WellFormed, NewNumbers, Alone, SortedBySmallest, SortedLevel, DistinctNumbers, Apart;
    LevelsSorted(v, w, level, upper, lower, outputs);
    LevelParts(v, level + 1);
    var files, r := v.files[level + 1], w.files[level + 1];
    ReplacedDistinct(files, lower, outputs, r);
    forall f, g | f in r && g in r && f != g ensures Apart(f, g) {
      if f in files && g in files {
        SortedIsApart(files, f, g);
        assert Apart(f, g) by { ApartIs(f, g); }
      } else if Placed(level + 1, f) in added && g in outputs {
        assert Placed(level + 1, f).file == f;
      } else if Placed(level + 1, g) in added && f in outputs {
        assert Apart(g, f) by { assert Placed(level + 1, g).file == g; }
        ApartBoth(f, g);
      } else {
        OutsideAdded(w, added, level + 1, f);
        OutsideAdded(w, added, level + 1, g);
        SortedIsApart(Alone(w, added).files[level + 1], f, g);
        assert Apart(f, g) by { ApartIs(f, g); }
      }
    }
    assert PairwiseApart(r) by { AllApart(r); }
    assert WellFormedFiles(r);
    ApartAndSorted(r);
  }

  lemma ApartIs(f: File, g: File)
    ensures Apart(f, g) <==> Less(f.largest, g.smallest) || Less(g.largest, f.smallest)
  {
  }

  lemma ApartBoth(f: File, g: File)
    ensures Apart(f, g) <==> Apart(g, f)
  {
  }

  lemma AllApart(r: seq<File>)
    requires forall f, g :: f in r && g in r && f != g ==> Apart(f, g)
    ensures PairwiseApart(r)
  {
    forall f, g | f in r && g in r && f != g ensures Less(f.largest, g.smallest) || Less(g.largest, f.smallest) {
      assert Apart(f, g);
    }
  }

  lemma LevelParts(v: Version, l: nat)
    requires ValidVersion(v) && l < NUM_LEVELS
    ensures WellFormedFiles(v.files[l]) && DistinctNumbers(v.files[l]) && SortedBySmallest(v.files[l])
    ensures l > 0 ==> SortedLevel(v.files[l])
    ensures l == 0 ==> NumberedByAge(v.files[l])
  {
  }

  /** The other levels only lose files. */
  lemma OverOtherLevel(v: Version, w: Version, level: nat, upper: seq<File>, lower: seq<File>, outputs: seq<File>, l: nat)
    requires ValidVersion(v) && Installed(v, w, level, upper, lower, outputs) && l < NUM_LEVELS && l != level + 1
    ensures WellFormedFiles(w.files[l]) && DistinctNumbers(w.files[l]) && SortedBySmallest(w.files[l])
    ensures l > 0 ==> SortedLevel(w.files[l])
    ensures l == 0 ==> NumberedByAge(w.files[l])
  {
    hide ValidVersion, WellFormedFiles, DistinctNumbers, SortedBySmallest, SortedLevel, NumberedByAge, Replaced;
    LevelParts(v, l);
    if l == level {
      UpperLevelKept(v.files[l], upper, w.files[l]);
    }
  }

  /** The results of a compaction can be installed on top of the flushes that came between exactly
      when none of these has put a file of the lower level inside the range of an output. */
  lemma InstallsOverIff(base: Version, added: set<Placed>, v: Version, w: Version, level: nat, upper: seq<File>, lower: seq<File>,
                        input: seq<Entry>, outputs: seq<File>)
    requires InstalledOver(base, added, v, w, level, upper, lower, input, outputs)
    requires UniqueSequences(Entries(base))
    ensures ValidVersion(w) <==> NoneBetween(added, level, outputs)
  {
    hide ValidVersion, InstalledOver, Grown, AllFlushedOnto, Installed, Chosen, Merged, FromInput, GoodOutputs, NewNumbers, NoneBetween,
         WellFormedFiles, DistinctNumbers, SortedBySmallest, SortedLevel, NumberedByAge, LevelsByAge, Rearranged, Alone, Entries, UniqueSequences;
    OverParts(base, added, v, w, level, upper, lower, input, outputs);
    AreNewOnes(base, added, v, level, outputs);
    AloneRearranges(base, added, v, w, level, upper, lower, input, outputs);
    RearrangedIsValid(base, Alone(w, added), level, upper, lower, input, outputs);
    ByAge(Alone(w, added));
    LevelParts(Alone(w, added), level + 1);
    OverAges(base, added, v, w, level, upper, lower, input, outputs);
    LevelsSorted(v, w, level, upper, lower, outputs);
    if NoneBetween(added, level, outputs) {
      OverLowerLevel(base, added, v, w, level, upper, lower, input, outputs);
      forall l: nat | l < NUM_LEVELS
        ensures WellFormedFiles(w.files[l]) && DistinctNumbers(w.files[l]) && SortedBySmallest(w.files[l])
        ensures l > 0 ==> SortedLevel(w.files[l])
        ensures l == 0 ==> NumberedByAge(w.files[l])
      {
        if l != level + 1 {
          OverOtherLevel(v, w, level, upper, lower, outputs, l);
        }
      }
      assert ValidVersion(w) by { VersionFromParts(w); }
    } else {
      OverlapIsInvalid(base, added, v, w, level, upper, lower, input, outputs);
    }
  }

  lemma OverParts(base: Version, added: set<Placed>, v: Version, w: Version, level: nat, upper: seq<File>, lower: seq<File>,
                  input: seq<Entry>, outputs: seq<File>)
    requires InstalledOver(base, added, v, w, level, upper, lower, input, outputs)
    ensures ValidVersion(base) && ValidVersion(v) && Grown(base, added, v) && AllFlushedOnto(base, added)
    ensures Installed(v, w, level, upper, lower, outputs) && level + 1 < NUM_LEVELS && |w.files| == |v.files| == |base.files| == NUM_LEVELS
    ensures NewNumbers(v.files[level + 1], outputs)
    ensures GoodOutputs(outputs)
    ensures forall o :: o in outputs ==> o in w.files[level + 1]
  {
  }

  lemma VersionFromParts(v: Version)
    requires |v.files| == NUM_LEVELS && LevelsByAge(v)
    requires forall l: nat :: l < NUM_LEVELS ==>
               && WellFormedFiles(v.files[l]) && DistinctNumbers(v.files[l]) && SortedBySmallest(v.files[l])
               && (l > 0 ==> SortedLevel(v.files[l])) && (l == 0 ==> NumberedByAge(v.files[l]))
    ensures ValidVersion(v)
  {
  }

  lemma OverlapIsInvalid(base: Version, added: set<Placed>, v: Version, w: Version, level: nat, upper: seq<File>, lower: seq<File>,
                         input: seq<Entry>, outputs: seq<File>)
    requires InstalledOver(base, added, v, w, level, upper, lower, input, outputs)
    requires !NoneBetween(added, level, outputs)
    ensures !ValidVersion(w)
  {
    hide InstalledOver, ValidVersion, Grown, Chosen, Merged, FromInput, GoodOutputs, NewNumbers, Apart, FreshFile;
    OverParts(base, added, v, w, level, upper, lower, input, outputs);
    var p, o :| p in added && p.level == level + 1 && o in outputs && !Apart(p.file, o);
    AreNewOnes(base, added, v, level, outputs);
    ChosenAreFiles(base, added, v, w, level, upper, lower, input, outputs);
    AddedSurvive(base, added, v, w, level, upper, lower, outputs);
    assert Placed(p.level, p.file) == p && p.file != o;
    if ValidVersion(w) {
      LevelParts(w, level + 1);
      SortedIsApart(w.files[level + 1], p.file, o);
      ApartIs(p.file, o);
    }
  }

  lemma ChosenAreFiles(base: Version, added: set<Placed>, v: Version, w: Version, level: nat, upper: seq<File>, lower: seq<File>,
                       input: seq<Entry>, outputs: seq<File>)
    requires InstalledOver(base, added, v, w, level, upper, lower, input, outputs)
    ensures level + 1 < |base.files|
    ensures forall f :: f in upper ==> f in base.files[level]
    ensures forall f :: f in lower ==> f in base.files[level + 1]
  {
    hide ValidVersion, Merged, FromInput, GoodOutputs, NewNumbers;
    UpperAreFiles(base.files[level], level, upper);
    LowerAreFiles(base.files[level + 1], upper, lower);
  }

  // ---------------------------------------------------------------- what a reader sees

  lemma PlacedAreNewer(base: Version, added: set<Placed>)
    requires AllFlushedOnto(base, added)
    ensures NewerSet(PlacedEntries(added), Entries(base))
  {
    hide WellFormed, NoOverlap, NumbersBelow;
    forall x, y | x in PlacedEntries(added) && y in Entries(base) && x.key.user == y.key.user ensures x.key.sequence > y.key.sequence {
      var p :| p in added && x in p.file.table;
      assert FlushedOnto(base, p);
      var l, g :| 0 <= l < |base.files| && g in base.files[l] && y in g.table;
    }
  }

  /** Flushes in the meantime do not change what a compaction promises to readers, nor the condition. */
  lemma OverKeepsReadsIff(base: Version, added: set<Placed>, v: Version, w: Version, level: nat, upper: seq<File>, lower: seq<File>,
                       input: seq<Entry>, outputs: seq<File>, oldest: nat, newer: set<Entry>)
    requires InstalledOver(base, added, v, w, level, upper, lower, input, outputs)
    requires Contents(outputs) == Kept(base, level, input, |input|, oldest)
    requires NewerSet(newer, Entries(v)) && UniqueSequences(newer + Entries(v))
    ensures |base.files| == NUM_LEVELS && level + 1 < NUM_LEVELS
    ensures SameReads(newer + Entries(v), newer + Entries(w), oldest)
            <==> NothingUncovered(base, level, input, oldest, newer + Entries(v), LeftOut(base.files[level + 1], lower))
    ensures Entries(w) <= Entries(v)
  {
    hide ValidVersion, InstalledOver, Grown, AllFlushedOnto, Installed, Chosen, Merged, FromInput, GoodOutputs, NewNumbers, Alone, Entries,
         UniqueSequences, Rearranged, NewerSet, SameReads, Kept, PlacedEntries, NothingUncovered;
    OverParts(base, added, v, w, level, upper, lower, input, outputs);
    AloneRearranges(base, added, v, w, level, upper, lower, input, outputs);
    PlacedAreNewer(base, added);
    var a := Alone(w, added);
    var placed := PlacedEntries(added);
    BothNewer(newer, placed, Entries(base));
    assert newer + placed + Entries(base) == newer + Entries(v);
    assert newer + placed + Entries(a) == newer + Entries(w);
    RearrangedCompacts(base, a, level, upper, lower, input, outputs, oldest);
    CompactionKeepsReadsIff(base, a, level, upper, lower, input, outputs, oldest, newer + placed);
    EntriesShrink(base, a, level, upper, lower, input, outputs);
  }

  /** It holds when no left-out file of the lower level goes on at the user key that a lower input ends with. */
  lemma OverClosedUncoversNothing(base: Version, added: set<Placed>, v: Version, level: nat, upper: seq<File>, lower: seq<File>,
                                  input: seq<Entry>, oldest: nat, newer: set<Entry>)
    requires ValidVersion(base) && Grown(base, added, v) && AllFlushedOnto(base, added)
    requires level + 1 < NUM_LEVELS && Chosen(base, level, upper, lower) && Merged(input, upper + lower)
    requires UniqueSequences(newer + Entries(v)) && ClosedBelow(base.files[level + 1], lower)
    ensures NothingUncovered(base, level, input, oldest, newer + Entries(v), LeftOut(base.files[level + 1], lower))
  {
    hide ValidVersion, Grown, AllFlushedOnto, Chosen, Merged, Entries, UniqueSequences, ClosedBelow, NothingUncovered;
    GrownEntries(base, added, v);
    assert newer + PlacedEntries(added) + Entries(base) == newer + Entries(v);
    ClosedUncoversNothing(base, level, upper, lower, input, oldest, newer + PlacedEntries(added));
  }

  lemma BothNewer(a: set<Entry>, b: set<Entry>, es: set<Entry>)
    requires NewerSet(a, es + b) && NewerSet(b, es)
    ensures NewerSet(a + b, es)
  {
  }

  lemma RearrangedCompacts(v: Version, w: Version, level: nat, upper: seq<File>, lower: seq<File>, input: seq<Entry>, outputs: seq<File>, oldest: nat)
    requires Rearranged(v, w, level, upper, lower, input, outputs)
    requires Contents(outputs) == Kept(v, level, input, |input|, oldest)
    ensures Compacted(v, w, level, upper, lower, input, outputs, oldest)
  {
    hide ValidVersion, Installed, Chosen, Merged;
  }

  // ---------------------------------------------------------------- inputs without a gap

  /** A file that overlaps no input lies before all the inputs or behind all of them, if these leave
      no gap. */
  lemma BesideConnected(inputs: seq<File>, f: File, o: File)
    requires Connected(inputs) && WellFormedFiles(inputs) && WellFormed(f) && WellFormed(o)
    requires forall g :: g in inputs ==> !Overlaps(g, KeyRange(f))
    requires exists g :: g in inputs && g.smallest.user <= o.smallest.user
    requires exists g :: g in inputs && o.largest.user <= g.largest.user
    ensures Apart(f, o)
  {
    var a :| a in inputs && a.smallest.user <= o.smallest.user;
    var b :| b in inputs && o.largest.user <= b.largest.user;
    TableBounds(f, f.table[0]);
    TableBounds(o, o.table[0]);
    TableBounds(a, a.table[0]);
    NotCovered(inputs, f);
  }

  lemma NotCovered(inputs: seq<File>, f: File)
    requires WellFormed(f) && forall g :: g in inputs ==> !Overlaps(g, KeyRange(f))
    ensures !Covered(inputs, f.smallest.user)
  {
    TableBounds(f, f.table[0]);
  }

  /** Whenever the inputs of a compaction leave no gap, flushes in the meantime do no harm. */
  lemma ConnectedHasNoneBetween(base: Version, added: set<Placed>, level: nat, upper: seq<File>, lower: seq<File>,
                                input: seq<Entry>, outputs: seq<File>)
    requires ValidVersion(base) && level + 1 < NUM_LEVELS && Chosen(base, level, upper, lower) && AllFlushedOnto(base, added)
    requires Merged(input, upper + lower) && FromInput(outputs, input) && GoodOutputs(outputs)
    requires Connected(upper + lower)
    ensures NoneBetween(added, level, outputs)
  {
    hide ValidVersion, Chosen, Merged, FromInput, Connected, SortedTable, SortedLevel, Newer;
    InputsWellFormed(base, level, upper, lower);
    LevelCount(base);
    assert WellFormedFiles(upper + lower);
    forall p, o | p in added && p.level == level + 1 && o in outputs ensures Apart(p.file, o) {
      assert FlushedOnto(base, p);
      assert o.table[0] in o.table && o.table[|o.table| - 1] in o.table;
      var a := OutputEntry(upper, lower, input, outputs, o, o.table[0]);
      var b := OutputEntry(upper, lower, input, outputs, o, o.table[|o.table| - 1]);
      TableBounds(a, o.table[0]);
      TableBounds(b, o.table[|o.table| - 1]);
      forall g | g in upper + lower ensures !Overlaps(g, KeyRange(p.file)) {
        var m := if g in upper then level else level + 1;
        assert NoOverlap(base.files[m], KeyRange(p.file));
      }
      BesideConnected(upper + lower, p.file, o);
    }
  }
}
