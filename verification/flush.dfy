/** Where a flushed memtable goes, and why the version stays valid (PickLevelForMemTableOutput of
    db/version_set.cc, WriteLevel0Table of db/db_impl.cc). */
module Flushes {
  import opened DbFormat
  import opened Versions
  import opened CompactionInputs
  import opened CompactionReads
  import opened CompactionInstall

  const MAX_MEM_COMPACT_LEVEL := 2

  ghost predicate NoOverlap(files: seq<File>, r: Range) {
    forall f :: f in files ==> !Overlaps(f, r)
  }

  /** A memtable for `range` that may rest at level `l` may as well go one level down. */
  ghost predicate CanGoDown(v: Version, l: nat, range: Range, maxGrandParentOverlapBytes: nat)
    requires l + 2 < |v.files|
  {
    NoOverlap(v.files[l + 1], range) && TotalFileSize(Overlapping(v.files[l + 2], range)) <= maxGrandParentOverlapBytes
  }

  /** It can go down to `level`, and no deeper. */
  ghost predicate IsDeepest(v: Version, range: Range, maxGrandParentOverlapBytes: nat, level: nat)
    requires |v.files| == NUM_LEVELS && level <= MAX_MEM_COMPACT_LEVEL
  {
    && (forall l: nat :: l < level ==> CanGoDown(v, l, range, maxGrandParentOverlapBytes))
    && (level < MAX_MEM_COMPACT_LEVEL ==> !CanGoDown(v, level, range, maxGrandParentOverlapBytes))
  }

  /** PickLevelForMemTableOutput: the deepest allowed level such that no level down to it overlaps
      the range; a level is also refused when the one below it overlaps too many bytes. */
  method PickLevelForMemTableOutput(v: Version, range: Range, maxGrandParentOverlapBytes: nat) returns (level: nat)
    requires ValidVersion(v)
    ensures level <= MAX_MEM_COMPACT_LEVEL
    ensures level > 0 ==> forall l :: 0 <= l <= level ==> NoOverlap(v.files[l], range)
    ensures !NoOverlap(v.files[0], range) ==> level == 0
    ensures NoOverlap(v.files[0], range) ==> IsDeepest(v, range, maxGrandParentOverlapBytes, level)
  {
    hide ValidVersion, SortedLevel, WellFormedFiles, Overlapping, Overlaps, TotalFileSize, CanGoDown;
    level := 0;
    LevelsInOrder(v);
    var overlap := SomeFileOverlapsRange(false, v.files[0], range);
    if !overlap {
      while level < MAX_MEM_COMPACT_LEVEL
        invariant level <= MAX_MEM_COMPACT_LEVEL
        invariant forall l :: 0 <= l <= level ==> NoOverlap(v.files[l], range)
        invariant forall l: nat :: l < level ==> CanGoDown(v, l, range, maxGrandParentOverlapBytes)
      {
        GoingDown(v, level, range, maxGrandParentOverlapBytes);
        var below := SomeFileOverlapsRange(true, v.files[level + 1], range);
        if below {
          break;
        }
        if level + 2 < NUM_LEVELS {
          var overlaps := GetOverlappingInputs(v.files[level + 2], level + 2, range);
          if TotalFileSize(overlaps) > maxGrandParentOverlapBytes {
            break;
          }
        }
        level := level + 1;
      }
    }
  }

  lemma LevelsInOrder(v: Version)
    requires ValidVersion(v)
    ensures |v.files| == NUM_LEVELS && forall l :: 0 <= l < NUM_LEVELS ==> WellFormedFiles(v.files[l]) && (l > 0 ==> SortedLevel(v.files[l]))
  {
  }

  lemma GoingDown(v: Version, l: nat, range: Range, max: nat)
    requires l + 2 < |v.files|
    ensures CanGoDown(v, l, range, max) <==> NoOverlap(v.files[l + 1], range) && TotalFileSize(Overlapping(v.files[l + 2], range)) <= max
  {
  }

  /** `w` is `v` with one more file at `level`. */
  ghost predicate Flushed(v: Version, w: Version, level: nat, f: File) {
    && |v.files| == |w.files| == NUM_LEVELS && level < NUM_LEVELS
    && (forall l :: 0 <= l < NUM_LEVELS && l != level ==> w.files[l] == v.files[l])
    && Replaced(v.files[level], [], [f], w.files[level])
  }

  ghost predicate FreshFile(v: Version, f: File, level: nat) {
    && WellFormed(f)
    && NumbersBelow(v, f.number)
    && (forall l, g :: 0 <= l < |v.files| && g in v.files[l] ==> Newer(f.table, g.table))
    && (level > 0 ==> forall l :: 0 <= l <= level && l < |v.files| ==>
          NoOverlap(v.files[l], Range(Some(f.smallest.user), Some(f.largest.user))))
  }

  lemma ApartFromRange(f: File, g: File)
    requires WellFormed(f) && WellFormed(g) && !Overlaps(g, Range(Some(f.smallest.user), Some(f.largest.user)))
    ensures g.largest.user < f.smallest.user || f.largest.user < g.smallest.user
    ensures Newer(f.table, g.table) && Newer(g.table, f.table)
  {
    forall x, y | x in f.table && y in g.table ensures x.key.user != y.key.user {
      TableBounds(f, x);
      TableBounds(g, y);
    }
  }

  lemma FlushedLevel(files: seq<File>, level: nat, f: File, r: seq<File>)
    requires WellFormedFiles(files) && DistinctNumbers(files) && Replaced(files, [], [f], r)
    requires WellFormed(f) && forall g :: g in files ==> g.number < f.number
    ensures WellFormedFiles(r) && DistinctNumbers(r) && SortedBySmallest(r)
    ensures SortedLevel(files) && NoOverlap(files, Range(Some(f.smallest.user), Some(f.largest.user))) ==> SortedLevel(r)
    ensures NumberedByAge(files) && (forall g :: g in files ==> Newer(f.table, g.table)) ==> NumberedByAge(r)
  {
    ReplacedDistinct(files, [], [f], r);
    if SortedLevel(files) && NoOverlap(files, Range(Some(f.smallest.user), Some(f.largest.user))) {
      forall g, h | g in r && h in r && g != h ensures Less(g.largest, h.smallest) || Less(h.largest, g.smallest) {
        if g == f {
          ApartFromRange(f, h);
        } else if h == f {
          ApartFromRange(f, g);
        } else {
          SortedIsApart(files, g, h);
        }
      }
      ApartAndSorted(r);
    }
  }

  lemma FlushedAges(v: Version, w: Version, level: nat, f: File)
    requires ValidVersion(v) && Flushed(v, w, level, f) && FreshFile(v, f, level)
    ensures LevelsByAge(w)
  {
    forall l1, l2, g, h | 0 <= l1 < l2 < NUM_LEVELS && g in w.files[l1] && h in w.files[l2] ensures Newer(g.table, h.table) {
      if l1 == level && g == f {
        assert h in v.files[l2];
      } else if l2 == level && h == f {
        assert g in v.files[l1] && WellFormedFiles(v.files[l1]);
        assert !Overlaps(g, Range(Some(f.smallest.user), Some(f.largest.user)));
        ApartFromRange(f, g);
      } else {
        assert g in v.files[l1] && h in v.files[l2];
      }
    }
  }

  /** A flush at the level picked for it leads from one valid version to another. */
  lemma FlushKeepsVersionValid(v: Version, w: Version, level: nat, f: File)
    requires ValidVersion(v) && Flushed(v, w, level, f) && FreshFile(v, f, level)
    ensures ValidVersion(w)
    ensures Entries(w) == Entries(v) + Elements(f.table)
  {
    hide LevelsByAge, WellFormedFiles, SortedLevel, DistinctNumbers, SortedBySmallest, FreshFile, Replaced, NumberedByAge, Entries, Elements, NoOverlap, Newer;
    FlushedEntries(v, w, level, f);
    FlushedAges(v, w, level, f);
    FlushedLevelValid(v, w, level, f);
  }

  lemma FlushedLevelValid(v: Version, w: Version, level: nat, f: File)
    requires ValidVersion(v) && Flushed(v, w, level, f) && FreshFile(v, f, level)
    ensures WellFormedFiles(w.files[level]) && DistinctNumbers(w.files[level]) && SortedBySmallest(w.files[level])
    ensures level > 0 ==> SortedLevel(w.files[level])
    ensures level == 0 ==> NumberedByAge(w.files[level])
  {
    var files := v.files[level];
    assert WellFormedFiles(files) && DistinctNumbers(files);
    assert forall g :: g in files ==> g.number < f.number;
    assert forall g :: g in files ==> Newer(f.table, g.table);
    hide LevelsByAge, WellFormedFiles, SortedLevel, DistinctNumbers, SortedBySmallest, Newer, Replaced, NumberedByAge, NoOverlap;
    FlushedLevel(files, level, f, w.files[level]);
  }

  lemma FlushedEntries(v: Version, w: Version, level: nat, f: File)
    requires Flushed(v, w, level, f)
    ensures Entries(w) == Entries(v) + Elements(f.table)
  {
    hide SortedBySmallest;
    forall e | e in Entries(w) ensures e in Entries(v) + Elements(f.table) {
      var l, g :| 0 <= l < NUM_LEVELS && g in w.files[l] && e in g.table;
      if g != f {
        assert g in v.files[l];
      }
    }
    forall e | e in Entries(v) ensures e in Entries(w) {
      var l, g :| 0 <= l < NUM_LEVELS && g in v.files[l] && e in g.table;
      assert g in w.files[l];
    }
    assert f in w.files[level];
  }
}
