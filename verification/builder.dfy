/** Version edits and the builder that applies them (class VersionSet::Builder of
    db/version_set.cc). */
module Builders {
  import opened DbFormat
  import opened Versions

  /** The part of a version edit that changes files: (level, number) pairs to delete, then
      (level, file) pairs to add. */
  datatype VersionEdit = VersionEdit(deletedFiles: seq<(nat, nat)>, newFiles: seq<(nat, File)>)

  /** What a builder has collected for one level. */
  datatype LevelState = LevelState(deleted: set<nat>, added: seq<File>)

  ghost predicate ValidEdit(e: VersionEdit) {
    && (forall i :: 0 <= i < |e.deletedFiles| ==> e.deletedFiles[i].0 < NUM_LEVELS)
    && (forall i :: 0 <= i < |e.newFiles| ==> e.newFiles[i].0 < NUM_LEVELS)
  }

  lemma SameTag(a: InternalKey, b: InternalKey)
    requires Tag(a) == Tag(b)
    ensures a.sequence == b.sequence && a.kind == b.kind
  {
  }

  /** Insertion into a set ordered by `BySmallestKey`, which keeps an equal element. */
  function InsertFile(s: seq<File>, f: File): (r: seq<File>)
    requires SortedBySmallest(s)
    ensures SortedBySmallest(r)
    ensures forall g :: g in r ==> g in s || g == f
    ensures forall g :: g in s ==> g in r
    ensures (forall g :: g in s ==> g.number != f.number) ==> f in r
  {
    if s == [] then [f]
    else if BySmallestKey(f, s[0]) then [f] + s
    else if BySmallestKey(s[0], f) then
      var rest := InsertFile(s[1..], f);
      assert forall g :: g in s <==> g == s[0] || g in s[1..];
      assert forall g :: g in rest ==> BySmallestKey(s[0], g);
      [s[0]] + rest
    else
      SameTag(f.smallest, s[0].smallest);
      assert s[0] in s;
      s
  }

  // ---------------------------------------------------------------- what an edit does to a level

  ghost function DeletedAt(e: VersionEdit, l: nat): set<nat> {
    set i | 0 <= i < |e.deletedFiles| && e.deletedFiles[i].0 == l :: e.deletedFiles[i].1
  }

  ghost function AddedAt(e: VersionEdit, l: nat): set<File> {
    set i | 0 <= i < |e.newFiles| && e.newFiles[i].0 == l :: e.newFiles[i].1
  }

  ghost function Numbers(fs: set<File>): set<nat> {
    set f | f in fs :: f.number
  }

  ghost function FileSet(s: seq<File>): set<File> {
    set f | f in s
  }

  /** The files of a level after `deleted` and `added` are applied to `base`. */
  ghost function Survivors(base: set<File>, deleted: set<nat>, added: set<File>): set<File> {
    set f | f in base + added && f.number !in deleted
  }

  /** `r` is a level holding exactly `fs`. */
  ghost predicate LevelOf(r: seq<File>, fs: set<File>) {
    SortedBySmallest(r) && FileSet(r) == fs
  }

  /** A level is determined by its files. */
  lemma {:induction false} LevelIsUnique(a: seq<File>, b: seq<File>)
    requires SortedBySmallest(a) && SortedBySmallest(b) && FileSet(a) == FileSet(b)
    ensures a == b
  {
    NoFiles(a);
    NoFiles(b);
    if a != [] {
      assert a[0] in FileSet(b);
      assert b[0] in FileSet(a);
      FirstIsSame(a, b);
      RestIsSame(a, b);
      LevelIsUnique(a[1..], b[1..]);
    }
  }

  lemma NoFiles(a: seq<File>)
    ensures FileSet(a) == {} <==> a == []
  {
    if a != [] {
      assert a[0] in FileSet(a);
    }
  }

  lemma FirstIsSame(a: seq<File>, b: seq<File>)
    requires SortedBySmallest(a) && SortedBySmallest(b)
    requires |a| > 0 && |b| > 0 && a[0] in b && b[0] in a
    ensures a[0] == b[0]
  {
    var i :| 0 <= i < |b| && b[i] == a[0];
    var j :| 0 <= j < |a| && a[j] == b[0];
    assert i > 0 ==> BySmallestKey(b[0], b[i]);
    assert j > 0 ==> BySmallestKey(a[0], a[j]);
  }

  lemma RestIsSame(a: seq<File>, b: seq<File>)
    requires SortedBySmallest(a) && SortedBySmallest(b) && FileSet(a) == FileSet(b)
    requires |a| > 0 && |b| > 0 && a[0] == b[0]
    ensures FileSet(a[1..]) == FileSet(b[1..])
  {
    RestOf(a);
    RestOf(b);
  }

  lemma RestOf(a: seq<File>)
    requires SortedBySmallest(a) && |a| > 0
    ensures FileSet(a[1..]) == FileSet(a) - {a[0]}
  {
    assert forall f :: f in a <==> f == a[0] || f in a[1..];
    forall f | f in a[1..] ensures f != a[0] {
      var i :| 0 <= i < |a[1..]| && a[1..][i] == f;
      assert BySmallestKey(a[0], a[i + 1]);
    }
  }

  // ---------------------------------------------------------------- saving a level

  /** The library's upper_bound on a sorted vector: the first index from `from` on whose file sorts
      behind `f`. */
  function UpperBound(files: seq<File>, from: nat, f: File): (i: nat)
    requires from <= |files|
    ensures from <= i <= |files|
    ensures forall j :: from <= j < i ==> !BySmallestKey(f, files[j])
    ensures i < |files| ==> BySmallestKey(f, files[i])
    decreases |files| - from
  {
    if from == |files| || BySmallestKey(f, files[from]) then from else UpperBound(files, from + 1, f)
  }

  function MaybeAddFile(r: seq<File>, deleted: set<nat>, f: File): seq<File> {
    if f.number in deleted then r else r + [f]
  }

  /** SaveTo for one level: merges the base files with the added ones and drops the deleted. */
  method SaveLevel(base: seq<File>, state: LevelState) returns (r: seq<File>)
    requires SortedBySmallest(base) && SortedBySmallest(state.added)
    requires forall f, g :: f in base && g in state.added ==> f.number != g.number
    ensures LevelOf(r, Survivors(FileSet(base), state.deleted, FileSet(state.added)))
  {
    var added := state.added;
    r := [];
    var b, a := 0, 0;
    while a < |added|
      invariant 0 <= a <= |added| && 0 <= b <= |base|
      invariant MergeSoFar(base, added, state.deleted, b, a, r)
    {
      var bpos := UpperBound(base, b, added[a]);
      while b != bpos
        invariant b <= bpos <= |base|
        invariant MergeSoFar(base, added, state.deleted, b, a, r)
        invariant forall j :: b <= j < bpos ==> !BySmallestKey(added[a], base[j])
        decreases bpos - b
      {
        TakeBase(base, added, state.deleted, b, a, r);
        r := MaybeAddFile(r, state.deleted, base[b]);
        b := b + 1;
      }
      TakeAdded(base, added, state.deleted, b, a, r);
      r := MaybeAddFile(r, state.deleted, added[a]);
      a := a + 1;
    }
    while b < |base|
      invariant 0 <= b <= |base|
      invariant MergeSoFar(base, added, state.deleted, b, a, r)
    {
      TakeBase(base, added, state.deleted, b, a, r);
      r := MaybeAddFile(r, state.deleted, base[b]);
      b := b + 1;
    }
    assert base[..b] == base && added[..a] == added;
  }

  /** `r` is the merge of the first `b` base files and the first `a` added ones. */
  ghost predicate MergeSoFar(base: seq<File>, added: seq<File>, deleted: set<nat>, b: nat, a: nat, r: seq<File>)
    requires b <= |base| && a <= |added|
  {
    && SortedBySmallest(r)
    && FileSet(r) == Survivors(FileSet(base[..b]), deleted, FileSet(added[..a]))
    && (b < |base| ==> forall g :: g in r ==> BySmallestKey(g, base[b]))
    && (a < |added| ==> forall g :: g in r ==> BySmallestKey(g, added[a]))
  }

  lemma Before(f: File, g: File, h: File)
    requires BySmallestKey(f, g) && BySmallestKey(g, h)
    ensures BySmallestKey(f, h)
  {
  }

  lemma NotBehind(f: File, g: File)
    requires !BySmallestKey(f, g) && f.number != g.number
    ensures BySmallestKey(g, f)
  {
    if Tag(f.smallest) == Tag(g.smallest) {
      SameTag(f.smallest, g.smallest);
    }
  }

  lemma Snoc(r: seq<File>, f: File)
    ensures FileSet(r + [f]) == FileSet(r) + {f}
    ensures SortedBySmallest(r) && (forall g :: g in r ==> BySmallestKey(g, f)) ==> SortedBySmallest(r + [f])
  {
    assert forall i :: 0 <= i < |r| ==> r[i] in r;
  }

  lemma TakeBase(base: seq<File>, added: seq<File>, deleted: set<nat>, b: nat, a: nat, r: seq<File>)
    requires SortedBySmallest(base) && SortedBySmallest(added)
    requires forall f, g :: f in base && g in added ==> f.number != g.number
    requires b < |base| && a <= |added| && MergeSoFar(base, added, deleted, b, a, r)
    requires a < |added| ==> !BySmallestKey(added[a], base[b])
    ensures MergeSoFar(base, added, deleted, b + 1, a, MaybeAddFile(r, deleted, base[b]))
  {
    assert base[..b + 1] == base[..b] + [base[b]];
    Snoc(base[..b], base[b]);
    Snoc(r, base[b]);
    assert base[b] in base;
    if a < |added| {
      assert added[a] in added;
      NotBehind(added[a], base[b]);
    }
    if b + 1 < |base| {
      forall g | g in r ensures BySmallestKey(g, base[b + 1]) {
        Before(g, base[b], base[b + 1]);
      }
    }
  }

  lemma TakeAdded(base: seq<File>, added: seq<File>, deleted: set<nat>, b: nat, a: nat, r: seq<File>)
    requires SortedBySmallest(base) && SortedBySmallest(added)
    requires b <= |base| && a < |added| && MergeSoFar(base, added, deleted, b, a, r)
    requires b < |base| ==> BySmallestKey(added[a], base[b])
    ensures MergeSoFar(base, added, deleted, b, a + 1, MaybeAddFile(r, deleted, added[a]))
  {
    assert added[..a + 1] == added[..a] + [added[a]];
    Snoc(added[..a], added[a]);
    Snoc(r, added[a]);
    assert b < |base| ==> forall g :: g in MaybeAddFile(r, deleted, added[a]) ==> BySmallestKey(g, base[b]);
    if a + 1 < |added| {
      assert BySmallestKey(added[a], added[a + 1]);
      BeforeNext(r, added[a], added[a + 1]);
    }
  }

  lemma BeforeNext(r: seq<File>, f: File, next: File)
    requires BySmallestKey(f, next) && forall g :: g in r ==> BySmallestKey(g, f)
    ensures forall g :: g in r ==> BySmallestKey(g, next)
  {
  }

  // ---------------------------------------------------------------- the builder

  ghost predicate SortedVersion(v: Version) {
    |v.files| == NUM_LEVELS && forall l :: 0 <= l < NUM_LEVELS ==> SortedBySmallest(v.files[l])
  }

  ghost predicate SortedStates(states: seq<LevelState>) {
    |states| == NUM_LEVELS && forall l :: 0 <= l < NUM_LEVELS ==> SortedBySmallest(states[l].added)
  }

  /** The effect of one edit on what the builder has collected for a level. */
  ghost predicate Collected(e: VersionEdit, l: nat, before: LevelState, after: LevelState) {
    && after.deleted == before.deleted + DeletedAt(e, l) - Numbers(AddedAt(e, l))
    && FileSet(after.added) == FileSet(before.added) + AddedAt(e, l)
  }

  /** The edit adds to a level no number that is there already, and no number twice. */
  ghost predicate FreshAt(e: VersionEdit, l: nat, present: set<File>) {
    && (forall f, g :: f in AddedAt(e, l) && g in present ==> f.number != g.number)
    && (forall f, g :: f in AddedAt(e, l) && g in AddedAt(e, l) && f.number == g.number ==> f == g)
  }

  class Builder {
    const base: Version
    var levels: seq<LevelState>

    ghost predicate Valid()
      reads this
    {
      SortedVersion(base) && SortedStates(levels)
    }

    constructor (base: Version)
      requires SortedVersion(base)
      ensures Valid() && this.base == base
      ensures forall l :: 0 <= l < NUM_LEVELS ==> levels[l] == LevelState({}, [])
    {
      this.base := base;
      levels := seq(NUM_LEVELS, _ => LevelState({}, []));
    }

    /** Apply: first the deletions, then the additions, each of which revokes a deletion. */
    method Apply(e: VersionEdit)
      requires Valid() && ValidEdit(e)
      requires forall l :: 0 <= l < NUM_LEVELS ==> FreshAt(e, l, FileSet(levels[l].added))
      modifies this
      ensures Valid()
      ensures forall l :: 0 <= l < NUM_LEVELS ==> Collected(e, l, old(levels)[l], levels[l])
    {
      ghost var before := levels;
      ApplyDeletions(e);
      ApplyAdditions(e, before);
    }

    method ApplyDeletions(e: VersionEdit)
      requires Valid() && ValidEdit(e)
      modifies this
      ensures Valid()
      ensures forall l :: 0 <= l < NUM_LEVELS ==>
                levels[l] == old(levels)[l].(deleted := old(levels)[l].deleted + DeletedAt(e, l))
    {
      ghost var before := levels;
      var i := 0;
      while i < |e.deletedFiles|
        invariant 0 <= i <= |e.deletedFiles|
        invariant Valid()
        invariant forall l :: 0 <= l < NUM_LEVELS ==>
                    levels[l] == before[l].(deleted := before[l].deleted + DeletedAt(Edited(e, i, 0), l))
      {
        var (level, number) := e.deletedFiles[i];
        levels := levels[level := levels[level].(deleted := levels[level].deleted + {number})];
        DeletedStep(e, i);
        i := i + 1;
      }
      assert Edited(e, |e.deletedFiles|, 0) == VersionEdit(e.deletedFiles, []);
    }

    method ApplyAdditions(e: VersionEdit, ghost before: seq<LevelState>)
      requires Valid() && ValidEdit(e) && SortedStates(before)
      requires forall l :: 0 <= l < NUM_LEVELS ==> FreshAt(e, l, FileSet(before[l].added))
      requires forall l :: 0 <= l < NUM_LEVELS ==> levels[l] == before[l].(deleted := before[l].deleted + DeletedAt(e, l))
      modifies this
      ensures Valid()
      ensures forall l :: 0 <= l < NUM_LEVELS ==> Collected(e, l, before[l], levels[l])
    {
      hide FreshAt, DeletedAt, AddedAt;
      var i := 0;
      ghost var d := |e.deletedFiles|;
      NothingAdded(e, before, levels);
      while i < |e.newFiles|
        invariant 0 <= i <= |e.newFiles|
        invariant Valid()
        invariant forall l :: 0 <= l < NUM_LEVELS ==> Collected(Edited(e, d, i), l, before[l], levels[l])
      {
        var (level, f) := e.newFiles[i];
        ghost var now := levels;
        AddedStep(e, i, level, f, before[level], levels[level]);
        levels := levels[level := LevelState(levels[level].deleted - {f.number}, InsertFile(levels[level].added, f))];
        OtherLevels(e, i);
        forall l | 0 <= l < NUM_LEVELS ensures Collected(Edited(e, d, i + 1), l, before[l], levels[l]) {
          assert l != level ==> levels[l] == now[l];
        }
        i := i + 1;
      }
      assert Edited(e, d, |e.newFiles|) == e;
    }

    method SaveTo() returns (v: Version)
      requires Valid()
      requires forall l :: 0 <= l < NUM_LEVELS ==> forall f, g :: f in base.files[l] && g in levels[l].added ==> f.number != g.number
      ensures |v.files| == NUM_LEVELS
      ensures forall l :: 0 <= l < NUM_LEVELS ==>
                LevelOf(v.files[l], Survivors(FileSet(base.files[l]), levels[l].deleted, FileSet(levels[l].added)))
    {
      var files := [];
      var l := 0;
      while l < NUM_LEVELS
        invariant 0 <= l <= NUM_LEVELS && |files| == l
        invariant forall k :: 0 <= k < l ==>
                    LevelOf(files[k], Survivors(FileSet(base.files[k]), levels[k].deleted, FileSet(levels[k].added)))
      {
        var r := SaveLevel(base.files[l], levels[l]);
        files := files + [r];
        l := l + 1;
      }
      v := Version(files);
    }
  }

  /** The first `d` deletions and the first `n` additions of an edit. */
  ghost function Edited(e: VersionEdit, d: nat, n: nat): VersionEdit
    requires d <= |e.deletedFiles| && n <= |e.newFiles|
  {
    VersionEdit(e.deletedFiles[..d], e.newFiles[..n])
  }

  lemma NothingAdded(e: VersionEdit, before: seq<LevelState>, now: seq<LevelState>)
    requires |before| == |now| == NUM_LEVELS
    requires forall l :: 0 <= l < NUM_LEVELS ==> now[l] == before[l].(deleted := before[l].deleted + DeletedAt(e, l))
    ensures forall l :: 0 <= l < NUM_LEVELS ==> Collected(Edited(e, |e.deletedFiles|, 0), l, before[l], now[l])
  {
    var d := Edited(e, |e.deletedFiles|, 0);
    assert forall l :: DeletedAt(d, l) == DeletedAt(e, l);
    assert forall l :: AddedAt(d, l) == {};
  }

  lemma DeletedStep(e: VersionEdit, i: nat)
    requires i < |e.deletedFiles|
    ensures forall l :: DeletedAt(Edited(e, i + 1, 0), l) ==
                        DeletedAt(Edited(e, i, 0), l) + if e.deletedFiles[i].0 == l then {e.deletedFiles[i].1} else {}
  {
    var a, b := Edited(e, i, 0), Edited(e, i + 1, 0);
    forall l ensures DeletedAt(b, l) == DeletedAt(a, l) + if e.deletedFiles[i].0 == l then {e.deletedFiles[i].1} else {} {
      forall n | n in DeletedAt(a, l) ensures n in DeletedAt(b, l) {
        var k :| 0 <= k < i && a.deletedFiles[k].0 == l && a.deletedFiles[k].1 == n;
        assert b.deletedFiles[k] == a.deletedFiles[k];
      }
      forall n | n in DeletedAt(b, l) && !(e.deletedFiles[i].0 == l && e.deletedFiles[i].1 == n) ensures n in DeletedAt(a, l) {
        var k :| 0 <= k < i + 1 && b.deletedFiles[k].0 == l && b.deletedFiles[k].1 == n;
        assert b.deletedFiles[k] == a.deletedFiles[k];
      }
      if e.deletedFiles[i].0 == l {
        assert b.deletedFiles[i] == e.deletedFiles[i];
      }
    }
  }

  lemma AddedAtStep(e: VersionEdit, d: nat, i: nat, l: nat)
    requires d <= |e.deletedFiles| && i < |e.newFiles|
    ensures AddedAt(Edited(e, d, i + 1), l) ==
            AddedAt(Edited(e, d, i), l) + if e.newFiles[i].0 == l then {e.newFiles[i].1} else {}
    ensures AddedAt(Edited(e, d, i), l) <= AddedAt(e, l)
    ensures e.newFiles[i].0 == l ==> e.newFiles[i].1 in AddedAt(e, l)
  {
    var a, b := Edited(e, d, i), Edited(e, d, i + 1);
    forall f | f in AddedAt(a, l) ensures f in AddedAt(b, l) && f in AddedAt(e, l) {
      var k :| 0 <= k < i && a.newFiles[k].0 == l && a.newFiles[k].1 == f;
      assert b.newFiles[k] == a.newFiles[k] == e.newFiles[k];
    }
    forall f | f in AddedAt(b, l) && !(e.newFiles[i].0 == l && e.newFiles[i].1 == f) ensures f in AddedAt(a, l) {
      var k :| 0 <= k < i + 1 && b.newFiles[k].0 == l && b.newFiles[k].1 == f;
      assert b.newFiles[k] == a.newFiles[k];
    }
    if e.newFiles[i].0 == l {
      assert b.newFiles[i] == e.newFiles[i];
    }
  }

  lemma AddedStep(e: VersionEdit, i: nat, l: nat, f: File, before: LevelState, now: LevelState)
    requires i < |e.newFiles| && e.newFiles[i] == (l, f)
    requires SortedBySmallest(now.added) && FreshAt(e, l, FileSet(before.added))
    requires Collected(Edited(e, |e.deletedFiles|, i), l, before, now)
    ensures Collected(Edited(e, |e.deletedFiles|, i + 1), l, before, LevelState(now.deleted - {f.number}, InsertFile(now.added, f)))
  {
    AddedAtStep(e, |e.deletedFiles|, i, l);
    if forall g :: g in now.added ==> g.number != f.number {
      assert f in InsertFile(now.added, f);
    } else {
      var g :| g in now.added && g.number == f.number;
      assert g in FileSet(now.added);
      assert g == f;
    }
  }

  lemma OtherLevels(e: VersionEdit, i: nat)
    requires i < |e.newFiles|
    ensures forall l :: l != e.newFiles[i].0 ==>
              AddedAt(Edited(e, |e.deletedFiles|, i + 1), l) == AddedAt(Edited(e, |e.deletedFiles|, i), l)
    ensures forall l :: DeletedAt(Edited(e, |e.deletedFiles|, i + 1), l) == DeletedAt(Edited(e, |e.deletedFiles|, i), l)
  {
    forall l | l != e.newFiles[i].0
      ensures AddedAt(Edited(e, |e.deletedFiles|, i + 1), l) == AddedAt(Edited(e, |e.deletedFiles|, i), l)
    {
      AddedAtStep(e, |e.deletedFiles|, i, l);
    }
  }

  // ---------------------------------------------------------------- many edits

  /** A level after one version is saved for every edit. */
  ghost function OneByOne(base: set<File>, edits: seq<VersionEdit>, l: nat): set<File> {
    if edits == [] then base else
      var e := edits[|edits| - 1];
      Survivors(OneByOne(base, edits[..|edits| - 1], l), DeletedAt(e, l) - Numbers(AddedAt(e, l)), AddedAt(e, l))
  }

  ghost function AllDeleted(edits: seq<VersionEdit>, l: nat): set<nat> {
    if edits == [] then {} else
      var e := edits[|edits| - 1];
      AllDeleted(edits[..|edits| - 1], l) + DeletedAt(e, l) - Numbers(AddedAt(e, l))
  }

  ghost function AllAdded(edits: seq<VersionEdit>, l: nat): set<File> {
    if edits == [] then {} else AllAdded(edits[..|edits| - 1], l) + AddedAt(edits[|edits| - 1], l)
  }

  /** A file number is added to a level at most once. */
  ghost predicate AddedOnce(base: set<File>, edits: seq<VersionEdit>, l: nat) {
    forall i :: 0 <= i < |edits| ==> FreshAt(edits[i], l, base + AllAdded(edits[..i], l))
  }

  /** Collecting all the edits and saving once gives the level that saving after each edit gives. */
  lemma {:induction false} ReplayIsOneByOne(base: set<File>, edits: seq<VersionEdit>, l: nat)
    requires AddedOnce(base, edits, l)
    ensures Survivors(base, AllDeleted(edits, l), AllAdded(edits, l)) == OneByOne(base, edits, l)
  {
    hide FreshAt, DeletedAt, AddedAt, Survivors, Numbers;
    if edits != [] {
      var n := |edits| - 1;
      var rest, e := edits[..n], edits[n];
      assert forall i :: 0 <= i < n ==> rest[..i] == edits[..i];
      ReplayIsOneByOne(base, rest, l);
      FreshMeansApart(e, l, base + AllAdded(rest, l));
      SurvivorsStep(base, AllDeleted(rest, l), AllAdded(rest, l), DeletedAt(e, l), AddedAt(e, l));
    } else {
      NothingCollected(base);
    }
  }

  lemma NothingCollected(base: set<File>)
    ensures Survivors(base, {}, {}) == base
  {
  }

  lemma FreshMeansApart(e: VersionEdit, l: nat, present: set<File>)
    requires FreshAt(e, l, present)
    ensures forall f, g :: f in AddedAt(e, l) && g in present ==> f.number != g.number
  {
  }

  lemma SurvivorsStep(base: set<File>, d: set<nat>, a: set<File>, d2: set<nat>, a2: set<File>)
    requires forall f, g :: f in a2 && g in base + a ==> f.number != g.number
    ensures Survivors(base, d + d2 - Numbers(a2), a + a2) == Survivors(Survivors(base, d, a), d2 - Numbers(a2), a2)
  {
    forall f | f in base + a ensures f.number !in Numbers(a2) {
    }
    forall f | f in a2 ensures f.number in Numbers(a2) {
    }
  }

  /** Recovery of the manifest: one builder takes all the edits and saves once. */
  method Replay(base: Version, edits: seq<VersionEdit>) returns (v: Version)
    requires SortedVersion(base) && forall i :: 0 <= i < |edits| ==> ValidEdit(edits[i])
    requires forall l :: 0 <= l < NUM_LEVELS ==> AddedOnce(FileSet(base.files[l]), edits, l)
    ensures SortedVersion(v)
    ensures forall l :: 0 <= l < NUM_LEVELS ==> FileSet(v.files[l]) == OneByOne(FileSet(base.files[l]), edits, l)
  {
    hide FreshAt, DeletedAt, AddedAt;
    var builder := new Builder(base);
    var i := 0;
    while i < |edits|
      invariant 0 <= i <= |edits|
      invariant builder.Valid() && builder.base == base
      invariant forall l :: 0 <= l < NUM_LEVELS ==> CollectedAll(edits[..i], l, builder.levels[l])
    {
      forall l | 0 <= l < NUM_LEVELS ensures FreshAt(edits[i], l, FileSet(builder.levels[l].added)) {
        FreshInLess(edits[i], l, FileSet(base.files[l]) + AllAdded(edits[..i], l), AllAdded(edits[..i], l));
      }
      builder.Apply(edits[i]);
      assert edits[..i + 1][..i] == edits[..i];
      i := i + 1;
    }
    assert edits[..i] == edits;
    forall l | 0 <= l < NUM_LEVELS
      ensures forall f, g :: f in base.files[l] && g in builder.levels[l].added ==> f.number != g.number
    {
      AddedApart(FileSet(base.files[l]), edits, l);
      assert forall f :: f in base.files[l] ==> f in FileSet(base.files[l]);
      assert forall g :: g in builder.levels[l].added ==> g in FileSet(builder.levels[l].added);
    }
    v := builder.SaveTo();
    forall l | 0 <= l < NUM_LEVELS ensures FileSet(v.files[l]) == OneByOne(FileSet(base.files[l]), edits, l) {
      ReplayIsOneByOne(FileSet(base.files[l]), edits, l);
    }
  }

  ghost predicate CollectedAll(edits: seq<VersionEdit>, l: nat, state: LevelState) {
    state.deleted == AllDeleted(edits, l) && FileSet(state.added) == AllAdded(edits, l)
  }

  lemma FreshInLess(e: VersionEdit, l: nat, more: set<File>, less: set<File>)
    requires FreshAt(e, l, more) && less <= more
    ensures FreshAt(e, l, less)
  {
  }

  lemma {:induction false} AddedApart(base: set<File>, edits: seq<VersionEdit>, l: nat)
    requires AddedOnce(base, edits, l)
    ensures forall f, g :: f in base && g in AllAdded(edits, l) ==> f.number != g.number
  {
    hide FreshAt, DeletedAt, AddedAt;
    if edits != [] {
      var n := |edits| - 1;
      assert forall i :: 0 <= i < n ==> edits[..n][..i] == edits[..i];
      AddedApart(base, edits[..n], l);
      FreshMeansApart(edits[n], l, base + AllAdded(edits[..n], l));
    }
  }
}
