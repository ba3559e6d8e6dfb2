/** How a compaction chooses its input files (db/version_set.cc). */
module CompactionInputs {
  import opened DbFormat
  import opened Versions

  // ---------------------------------------------------------------- overlapping files

  /** The files that touch `r`, in their order. */
  function Overlapping(files: seq<File>, r: Range): seq<File> {
    if files == [] then [] else
      var rest := Overlapping(files[..|files| - 1], r);
      var f := files[|files| - 1];
      if Overlaps(f, r) then rest + [f] else rest
  }

  lemma {:induction false} OverlappingMembers(files: seq<File>, r: Range)
    ensures forall f :: f in Overlapping(files, r) <==> f in files && Overlaps(f, r)
  {
    if files != [] {
      OverlappingMembers(files[..|files| - 1], r);
      assert files == files[..|files| - 1] + [files[|files| - 1]];
    }
  }

  predicate Inside(f: File, r: Range) {
    && (r.lo.Some? ==> r.lo.value <= f.smallest.user)
    && (r.hi.Some? ==> f.largest.user <= r.hi.value)
  }

  /** No file sticks out of the range it touches. */
  ghost predicate Closed(files: seq<File>, r: Range) {
    forall f :: f in files && Overlaps(f, r) ==> Inside(f, r)
  }

  predicate Covers(outer: Range, inner: Range) {
    && (outer.lo.Some? ==> inner.lo.Some? && outer.lo.value <= inner.lo.value)
    && (outer.hi.Some? ==> inner.hi.Some? && inner.hi.value <= outer.hi.value)
  }

  /** `r` lies within every closed range around `range`. */
  ghost predicate Least(files: seq<File>, range: Range, r: Range) {
    forall c :: Covers(c, range) && Closed(files, c) ==> Covers(c, r)
  }

  ghost predicate LeastClosed(files: seq<File>, range: Range, r: Range) {
    Covers(r, range) && Closed(files, r) && Least(files, range, r)
  }

  ghost function Below(files: seq<File>, lo: Option<UserKey>): nat {
    if files == [] then 0 else
      (if lo.Some? && files[0].smallest.user < lo.value then 1 else 0) + Below(files[1..], lo)
  }

  ghost function Above(files: seq<File>, hi: Option<UserKey>): nat {
    if files == [] then 0 else
      (if hi.Some? && files[0].largest.user > hi.value then 1 else 0) + Above(files[1..], hi)
  }

  lemma {:induction false} BelowShrinks(files: seq<File>, lo: UserKey, f: File)
    requires f.smallest.user < lo
    ensures Below(files, Some(f.smallest.user)) <= Below(files, Some(lo))
    ensures f in files ==> Below(files, Some(f.smallest.user)) < Below(files, Some(lo))
  {
    if files != [] {
      BelowShrinks(files[1..], lo, f);
    }
  }

  lemma {:induction false} AboveShrinks(files: seq<File>, hi: UserKey, f: File)
    requires f.largest.user > hi
    ensures Above(files, Some(f.largest.user)) <= Above(files, Some(hi))
    ensures f in files ==> Above(files, Some(f.largest.user)) < Above(files, Some(hi))
  {
    if files != [] {
      AboveShrinks(files[1..], hi, f);
    }
  }

  /** Version::GetOverlappingInputs. On level 0, where files overlap each other, the search starts
      again whenever a file extends the range, and so ends with the least closed range. */
  method GetOverlappingInputs(files: seq<File>, level: nat, range: Range) returns (inputs: seq<File>)
    requires WellFormedFiles(files)
    ensures level > 0 ==> inputs == Overlapping(files, range)
    ensures level == 0 ==> exists r :: LeastClosed(files, range, r) && inputs == Overlapping(files, r)
  {
    inputs := [];
    var current := range;
    var i := 0;
    while i < |files|
      invariant 0 <= i <= |files|
      invariant inputs == Overlapping(files[..i], current)
      invariant level > 0 ==> current == range
      invariant Covers(current, range)
      invariant level == 0 ==> Closed(files[..i], current)
      invariant level == 0 ==> Least(files, range, current)
      decreases Below(files, current.lo) + Above(files, current.hi), |files| - i
    {
      var f := files[i];
      assert f in files;
      OverlappingStep(files, i, current);
      i := i + 1;
      if current.lo.Some? && f.largest.user < current.lo.value {
      } else if current.hi.Some? && f.smallest.user > current.hi.value {
      } else {
        inputs := inputs + [f];
        if level == 0 {
          if current.lo.Some? && f.smallest.user < current.lo.value {
            WidenLow(files, range, current, f);
            current := current.(lo := Some(f.smallest.user));
            inputs := [];
            i := 0;
          } else if current.hi.Some? && f.largest.user > current.hi.value {
            WidenHigh(files, range, current, f);
            current := current.(hi := Some(f.largest.user));
            inputs := [];
            i := 0;
          }
        }
      }
    }
    assert files[..i] == files;
    assert level == 0 ==> LeastClosed(files, range, current);
  }

  lemma OverlappingStep(files: seq<File>, i: nat, r: Range)
    requires i < |files|
    ensures Overlapping(files[..i + 1], r) == Overlapping(files[..i], r) + if Overlaps(files[i], r) then [files[i]] else []
    ensures Closed(files[..i], r) && (Overlaps(files[i], r) ==> Inside(files[i], r)) ==> Closed(files[..i + 1], r)
  {
    assert files[..i + 1][..i] == files[..i];
    assert files[..i + 1] == files[..i] + [files[i]];
  }

  lemma WidenLow(files: seq<File>, range: Range, current: Range, f: File)
    requires f in files && Overlaps(f, current) && Least(files, range, current) && Covers(current, range)
    requires current.lo.Some? && f.smallest.user < current.lo.value
    ensures Below(files, Some(f.smallest.user)) < Below(files, current.lo)
    ensures var wider := current.(lo := Some(f.smallest.user)); Least(files, range, wider) && Covers(wider, range)
  {
    BelowShrinks(files, current.lo.value, f);
    ClosedReaches(files, range, current, f);
  }

  lemma WidenHigh(files: seq<File>, range: Range, current: Range, f: File)
    requires f in files && Overlaps(f, current) && Least(files, range, current) && Covers(current, range)
    requires current.hi.Some? && f.largest.user > current.hi.value
    ensures Above(files, Some(f.largest.user)) < Above(files, current.hi)
    ensures var wider := current.(hi := Some(f.largest.user)); Least(files, range, wider) && Covers(wider, range)
  {
    AboveShrinks(files, current.hi.value, f);
    ClosedReaches(files, range, current, f);
  }

  lemma ClosedReaches(files: seq<File>, range: Range, current: Range, f: File)
    requires f in files && Overlaps(f, current)
    requires Least(files, range, current)
    ensures forall c :: Covers(c, range) && Closed(files, c) ==> Inside(f, c)
  {
    forall c | Covers(c, range) && Closed(files, c) ensures Inside(f, c) {
      assert Covers(c, current);
      assert Overlaps(f, c);
    }
  }

  // ---------------------------------------------------------------- boundary files

  ghost predicate IsLargest(files: seq<File>, k: InternalKey) {
    && (exists f :: f in files && f.largest == k)
    && (forall f :: f in files ==> !Less(k, f.largest))
  }

  method FindLargestKey(files: seq<File>) returns (k: InternalKey)
    requires files != []
    ensures IsLargest(files, k)
  {
    k := files[0].largest;
    var i := 1;
    assert files[0] in files[..1];
    while i < |files|
      invariant 1 <= i <= |files|
      invariant IsLargest(files[..i], k)
    {
      ghost var before := k;
      assert files[..i + 1] == files[..i] + [files[i]];
      assert files[i] in files[..i + 1];
      if Less(k, files[i].largest) {
        k := files[i].largest;
      }
      i := i + 1;
    }
    assert files[..i] == files;
  }

  /** A file that continues the user key `k` ends with, behind `k`. */
  predicate Boundary(f: File, k: InternalKey) {
    Less(k, f.smallest) && f.smallest.user == k.user
  }

  ghost predicate Continues(inputs: seq<File>, f: File) {
    exists k :: IsLargest(inputs, k) && Boundary(f, k)
  }

  method FindSmallestBoundaryFile(files: seq<File>, k: InternalKey) returns (r: Option<File>)
    ensures r.None? <==> forall f :: f in files ==> !Boundary(f, k)
    ensures r.Some? ==> r.value in files && Boundary(r.value, k)
    ensures r.Some? ==> forall f :: f in files && Boundary(f, k) ==> !Less(f.smallest, r.value.smallest)
  {
    r := None;
    var i := 0;
    while i < |files|
      invariant 0 <= i <= |files|
      invariant r.None? <==> forall f :: f in files[..i] ==> !Boundary(f, k)
      invariant r.Some? ==> r.value in files[..i] && Boundary(r.value, k)
      invariant r.Some? ==> forall f :: f in files[..i] && Boundary(f, k) ==> !Less(f.smallest, r.value.smallest)
    {
      assert files[..i + 1] == files[..i] + [files[i]];
      assert files[i] in files[..i + 1];
      if Boundary(files[i], k) {
        if r.None? || Less(files[i].smallest, r.value.smallest) {
          r := Some(files[i]);
        }
      }
      i := i + 1;
    }
    assert files[..i] == files;
  }

  ghost function Behind(files: seq<File>, k: InternalKey): nat {
    if files == [] then 0 else (if Less(k, files[0].smallest) then 1 else 0) + Behind(files[1..], k)
  }

  lemma {:induction false} BehindShrinks(files: seq<File>, k: InternalKey, f: File)
    requires Less(k, f.smallest) && !Less(f.largest, f.smallest)
    ensures Behind(files, f.largest) <= Behind(files, k)
    ensures f in files ==> Behind(files, f.largest) < Behind(files, k)
  {
    if files != [] {
      BehindShrinks(files[1..], k, f);
    }
  }

  /** `inputs` is the run of `files` starting at index `lo`. */
  ghost predicate RunAt(files: seq<File>, inputs: seq<File>, lo: nat) {
    lo + |inputs| <= |files| && inputs == files[lo..lo + |inputs|]
  }

  /** AddBoundaryInputs: extends `inputs` by every file that continues its last user key. It ends,
      adds no file twice, and on a sorted level extends a run to a longer run. */
  method AddBoundaryInputs(files: seq<File>, inputs: seq<File>) returns (r: seq<File>)
    requires WellFormedFiles(files)
    ensures inputs <= r && (inputs == [] ==> r == [])
    ensures forall j :: |inputs| <= j < |r| ==> r[j] in files && r[j] !in r[..j] && Continues(r[..j], r[j])
    ensures inputs != [] ==> exists k :: IsLargest(r, k) && forall f :: f in files ==> !Boundary(f, k)
    ensures forall lo: nat :: SortedLevel(files) && RunAt(files, inputs, lo) ==> RunAt(files, r, lo)
  {
    hide SortedLevel, IsLargest, RunAt;
    r := inputs;
    if inputs == [] {
      return;
    }
    var k := FindLargestKey(inputs);
    var continueSearching := true;
    while continueSearching
      invariant inputs <= r
      invariant IsLargest(r, k)
      invariant forall j :: |inputs| <= j < |r| ==> r[j] in files && r[j] !in r[..j] && Continues(r[..j], r[j])
      invariant !continueSearching ==> forall f :: f in files ==> !Boundary(f, k)
      invariant forall lo: nat :: SortedLevel(files) && RunAt(files, inputs, lo) ==> RunAt(files, r, lo)
      decreases continueSearching, Behind(files, k)
    {
      var b := FindSmallestBoundaryFile(files, k);
      if b.Some? {
        TableBounds(b.value, b.value.table[0]);
        BoundaryIsOutside(r, k, b.value);
        BehindShrinks(files, k, b.value);
        forall lo: nat | SortedLevel(files) && RunAt(files, inputs, lo) ensures RunAt(files, r + [b.value], lo) {
          BoundaryIsNext(files, r, lo, k, b.value);
        }
        ExtendLargest(r, k, b.value);
        assert forall j :: 0 <= j <= |r| ==> (r + [b.value])[..j] == r[..j];
        assert Continues(r[..|r|], b.value) by { assert r[..|r|] == r; }
        r := r + [b.value];
        k := b.value.largest;
      } else {
        continueSearching := false;
      }
    }
  }

  lemma BoundaryIsOutside(r: seq<File>, k: InternalKey, b: File)
    requires IsLargest(r, k) && Boundary(b, k) && WellFormed(b)
    ensures b !in r
  {
    TableBounds(b, b.table[0]);
  }

  lemma ExtendLargest(r: seq<File>, k: InternalKey, b: File)
    requires IsLargest(r, k) && Boundary(b, k) && WellFormed(b)
    ensures IsLargest(r + [b], b.largest)
  {
    TableBounds(b, b.table[0]);
    assert b in r + [b];
  }

  lemma BoundaryIsNext(files: seq<File>, r: seq<File>, lo: nat, k: InternalKey, b: File)
    requires WellFormedFiles(files) && SortedLevel(files)
    requires RunAt(files, r, lo) && IsLargest(r, k) && r != []
    requires b in files && Boundary(b, k)
    requires forall f :: f in files && Boundary(f, k) ==> !Less(f.smallest, b.smallest)
    ensures RunAt(files, r + [b], lo)
  {
    var m :| 0 <= m < |files| && files[m] == b;
    LastIsLargest(files, r, lo, k);
    BoundaryIndex(files, lo + |r|, k, m);
  }

  lemma LastIsLargest(files: seq<File>, r: seq<File>, lo: nat, k: InternalKey)
    requires WellFormedFiles(files) && SortedLevel(files)
    requires RunAt(files, r, lo) && IsLargest(r, k)
    ensures r != [] && k == files[lo + |r| - 1].largest
  {
    var j :| 0 <= j < |r| && r[j].largest == k;
    assert files[lo + j] == r[j];
    assert files[lo + |r| - 1] == r[|r| - 1] && r[|r| - 1] in r;
    SmallestLargest(files, lo + |r| - 1);
  }

  lemma BoundaryIndex(files: seq<File>, hi: nat, k: InternalKey, m: nat)
    requires WellFormedFiles(files) && SortedLevel(files)
    requires 0 < hi <= |files| && m < |files|
    requires k == files[hi - 1].largest && Boundary(files[m], k)
    requires forall f :: f in files && Boundary(f, k) ==> !Less(f.smallest, files[m].smallest)
    ensures m == hi
  {
    SmallestLargest(files, m);
    SmallestLargest(files, hi - 1);
    if hi < m {
      SmallestLargest(files, hi);
      assert files[hi] in files && Boundary(files[hi], k);
    }
  }

  // ---------------------------------------------------------------- inputs without a gap

  /** The ranges of the files together leave out no user key between the first and the last. */
  ghost predicate Connected(files: seq<File>) {
    forall f, g, u: UserKey :: f in files && g in files && f.smallest.user <= u <= g.largest.user ==> Covered(files, u)
  }

  ghost predicate Covered(files: seq<File>, u: UserKey) {
    exists f :: f in files && f.smallest.user <= u <= f.largest.user
  }

  ghost predicate Touches(files: seq<File>, f: File) {
    exists g, u: UserKey :: g in files && HasKey(g, u) && HasKey(f, u)
  }

  ghost predicate HasKey(f: File, u: UserKey) {
    f.smallest.user <= u <= f.largest.user
  }

  lemma CoveredIn(a: seq<File>, b: seq<File>, u: UserKey)
    requires Covered(a, u) && forall f :: f in a ==> f in b
    ensures Covered(b, u)
  {
  }

  lemma BetweenCovered(files: seq<File>, f: File, g: File, u: UserKey)
    requires Connected(files) && f in files && g in files && f.smallest.user <= u <= g.largest.user
    ensures Covered(files, u)
  {
  }

  /** Files that each share a user key with connected files can be added to them. */
  lemma JoinConnected(core: seq<File>, all: seq<File>)
    requires Connected(core) && forall f :: f in core ==> f in all
    requires forall f :: f in all ==> f in core || Touches(core, f)
    ensures Connected(all)
  {
    hide Connected, Covered;
    forall f, g, u: UserKey | f in all && g in all && f.smallest.user <= u <= g.largest.user ensures Covered(all, u) {
      var (a, x) := Anchor(core, f);
      var (b, y) := Anchor(core, g);
      if u < x {
        HasCovers(all, f, u);
      } else if y < u {
        HasCovers(all, g, u);
      } else {
        BetweenCovered(core, a, b, u);
        CoveredIn(core, all, u);
      }
    }
    assert Connected(all) by { AllCovered(all); }
  }

  lemma AllCovered(files: seq<File>)
    requires forall f, g, u: UserKey :: f in files && g in files && f.smallest.user <= u <= g.largest.user ==> Covered(files, u)
    ensures Connected(files)
  {
  }

  /** A file of `core` and a user key of it that `f` has as well. */
  ghost function Anchor(core: seq<File>, f: File): (r: (File, UserKey))
    requires f in core || Touches(core, f)
    ensures r.0 in core
    ensures f in core ==> r == (f, f.smallest.user)
    ensures f !in core ==> HasKey(r.0, r.1) && HasKey(f, r.1)
  {
    if f in core then (f, f.smallest.user) else var g, u: UserKey :| g in core && HasKey(g, u) && HasKey(f, u); (g, u)
  }

  lemma HasCovers(files: seq<File>, f: File, u: UserKey)
    requires f in files && HasKey(f, u)
    ensures Covered(files, u)
  {
  }

  /** A file that overlaps the hull of some connected files shares a user key with one of them. */
  lemma OverlapTouches(core: seq<File>, part: seq<File>, r: Range, f: File)
    requires Connected(core) && WellFormed(f) && Hull(part, r) && Overlaps(f, r)
    requires WellFormedFiles(part) && forall g :: g in part ==> g in core
    ensures Touches(core, f)
  {
    hide Connected, WellFormed;
    var a :| a in part && a.smallest.user == r.lo.value;
    var b :| b in part && b.largest.user == r.hi.value;
    InOrder(a);
    InOrder(b);
    InOrder(f);
    assert Inside(a, r) && Inside(b, r);
    var u := if f.smallest.user < r.lo.value then r.lo.value else f.smallest.user;
    BetweenCovered(core, a, b, u);
    var g :| g in core && g.smallest.user <= u <= g.largest.user;
    assert HasKey(g, u) && HasKey(f, u);
  }

  lemma InOrder(f: File)
    requires WellFormed(f)
    ensures f.smallest.user <= f.largest.user
  {
    TableBounds(f, f.table[0]);
  }

  /** AddBoundaryInputs goes on at the user key it ends with. */
  lemma {:induction false} BoundaryConnected(files: seq<File>, inputs: seq<File>, extra: seq<File>, r: seq<File>)
    requires WellFormedFiles(files) && Connected(inputs + extra) && inputs <= r
    requires forall f :: f in inputs ==> f.smallest.user <= f.largest.user
    requires forall j :: |inputs| <= j < |r| ==> r[j] in files && Continues(r[..j], r[j])
    ensures Connected(r + extra)
    ensures forall f :: f in r ==> f.smallest.user <= f.largest.user
  {
    hide Connected, WellFormed, IsLargest, Boundary, Touches;
    if |inputs| == |r| {
      assert r == inputs;
    } else {
      var n := |r| - 1;
      var init, b := r[..n], r[n];
      assert r == init + [b] && forall j :: 0 <= j <= n ==> init[..j] == r[..j];
      BoundaryConnected(files, inputs, extra, init);
      InOrder(b);
      ContinuesTouches(init, b);
      TouchesMore(init, init + extra, b);
      JoinConnected(init + extra, r + extra);
    }
  }

  lemma ContinuesTouches(r: seq<File>, b: File)
    requires Continues(r, b) && b.smallest.user <= b.largest.user
    requires forall f :: f in r ==> f.smallest.user <= f.largest.user
    ensures Touches(r, b)
  {
    var k :| IsLargest(r, k) && Boundary(b, k);
    var f :| f in r && f.largest == k;
    assert HasKey(f, k.user) && HasKey(b, k.user);
  }

  lemma TouchesMore(a: seq<File>, b: seq<File>, f: File)
    requires Touches(a, f) && forall g :: g in a ==> g in b
    ensures Touches(b, f)
  {
    var g, u: UserKey :| g in a && HasKey(g, u) && HasKey(f, u);
    assert g in b;
  }

  /** The files of the least closed range around connected files leave no gap. */
  lemma LeastIsConnected(files: seq<File>, core: seq<File>, range: Range, final: Range, all: seq<File>)
    requires WellFormedFiles(files) && WellFormedFiles(core) && Connected(core) && Hull(core, range)
    requires LeastClosed(files, range, final)
    requires forall f :: f in all <==> f in core || f in Overlapping(files, final)
    ensures Connected(all)
  {
    hide Connected, WellFormed, LeastClosed;
    OverlappingMembers(files, final);
    assert Covers(final, range) by { LeastParts(files, range, final); }
    var a :| a in core && a.smallest.user == range.lo.value;
    var b :| b in core && b.largest.user == range.hi.value;
    forall f, g, u: UserKey | f in all && g in all && f.smallest.user <= u <= g.largest.user ensures Covered(all, u) {
      InOrder(f);
      InOrder(g);
      if range.lo.value <= u <= range.hi.value {
        BetweenCovered(core, a, b, u);
        CoveredIn(core, all, u);
      } else if !Covered(all, u) {
        LeastParts(files, range, final);
        assert f in core ==> Inside(f, range);
        assert g in core ==> Inside(g, range);
        GapSplits(files, range, final, u, all, f, g);
      }
    }
    AllCovered(all);
  }

  lemma LeastParts(files: seq<File>, range: Range, final: Range)
    requires LeastClosed(files, range, final)
    ensures Covers(final, range) && Closed(files, final) && Least(files, range, final)
  {
  }

  lemma GapSplits(files: seq<File>, range: Range, final: Range, u: UserKey, all: seq<File>, f: File, g: File)
    requires WellFormedFiles(files) && range.lo.Some? && range.hi.Some? && Covers(final, range) && Closed(files, final)
    requires forall h :: h in files && Overlaps(h, final) ==> h in all
    requires !Covered(all, u) && !(range.lo.value <= u <= range.hi.value)
    requires f.smallest.user <= u <= g.largest.user
    requires (f in files && Overlaps(f, final)) || Inside(f, range)
    requires (g in files && Overlaps(g, final)) || Inside(g, range)
    ensures !Least(files, range, final)
  {
    hide WellFormed;
    var lower := u < range.lo.value;
    var c := if lower then Range(Some(u + 1), final.hi) else Range(final.lo, Some(u - 1));
    assert Covers(c, range);
    forall h | h in files && Overlaps(h, c) ensures Inside(h, c) {
      InOrder(h);
      if Overlaps(h, final) {
        assert h in all && Inside(h, final);
      }
    }
    assert Closed(files, c);
    assert if lower then Inside(f, final) else Inside(g, final);
    assert !Covers(c, final);
  }

  // ---------------------------------------------------------------- the inputs of a compaction

  /** The inputs at the upper level: on level 0 everything that touches a closed range, above it a
      run of files that does not stop in the middle of a user key. */
  ghost predicate UpperInputs(files: seq<File>, level: nat, inputs: seq<File>) {
    && inputs != []
    && if level == 0 then ClosedInputs(files, inputs) else exists lo: nat :: RunAt(files, inputs, lo) && KeyEndsAt(files, lo + |inputs|)
  }

  ghost predicate ClosedInputs(files: seq<File>, inputs: seq<File>) {
    exists r :: Closed(files, r) && inputs == Overlapping(files, r)
  }

  ghost predicate IsRun(files: seq<File>, inputs: seq<File>) {
    exists lo: nat :: RunAt(files, inputs, lo)
  }

  ghost predicate KeyEndsAt(files: seq<File>, hi: nat) {
    0 < hi < |files| ==> files[hi].smallest.user != files[hi - 1].largest.user
  }

  /** The least range of user keys around all of `files`. */
  ghost predicate Hull(files: seq<File>, r: Range) {
    && r.lo.Some? && r.hi.Some?
    && (exists f :: f in files && f.smallest.user == r.lo.value)
    && (exists f :: f in files && f.largest.user == r.hi.value)
    && (forall f :: f in files ==> Inside(f, r))
  }

  /** GetRange: the user keys of the least and the greatest key of `inputs`. */
  method GetRange(inputs: seq<File>) returns (r: Range, largest: InternalKey)
    requires inputs != []
    ensures Hull(inputs, r) && IsLargest(inputs, largest)
  {
    var smallest := inputs[0].smallest;
    largest := inputs[0].largest;
    ghost var s, l := inputs[0], inputs[0];
    var i := 1;
    while i < |inputs|
      invariant 1 <= i <= |inputs|
      invariant s in inputs && l in inputs && s.smallest == smallest && l.largest == largest
      invariant forall j :: 0 <= j < i ==> !Less(inputs[j].smallest, smallest) && !Less(largest, inputs[j].largest)
    {
      if Less(inputs[i].smallest, smallest) {
        smallest := inputs[i].smallest;
        s := inputs[i];
      }
      if Less(largest, inputs[i].largest) {
        largest := inputs[i].largest;
        l := inputs[i];
      }
      i := i + 1;
    }
    r := Range(Some(smallest.user), Some(largest.user));
  }

  function TotalFileSize(files: seq<File>): nat {
    if files == [] then 0 else files[0].size + TotalFileSize(files[1..])
  }

  /** On a sorted level the files that touch `r` are the ones from `lo` up to `hi`. */
  lemma {:induction false} TouchingIndices(files: seq<File>, r: Range, n: nat) returns (lo: nat, hi: nat)
    requires WellFormedFiles(files) && SortedLevel(files) && n <= |files|
    ensures lo <= hi <= n
    ensures forall i :: 0 <= i < lo ==> AfterFile(r.lo, files[i])
    ensures forall i :: lo <= i < hi ==> Overlaps(files[i], r)
    ensures forall i :: hi <= i < n ==> BeforeFile(r.hi, files[i])
  {
    if n == 0 {
      lo, hi := 0, 0;
    } else {
      lo, hi := TouchingIndices(files, r, n - 1);
      SmallestLargest(files, n - 1);
      if 1 < n {
        SmallestLargest(files, n - 2);
      }
      if hi == n - 1 && !BeforeFile(r.hi, files[n - 1]) {
        if lo == hi && AfterFile(r.lo, files[n - 1]) {
          lo := n;
        }
        hi := n;
      }
    }
  }

  lemma {:induction false} OverlappingNone(files: seq<File>, r: Range, n: nat)
    requires n <= |files|
    requires forall i :: 0 <= i < n ==> !Overlaps(files[i], r)
    ensures Overlapping(files[..n], r) == []
  {
    if n > 0 {
      OverlappingNone(files, r, n - 1);
      OverlappingStep(files, n - 1, r);
    }
  }

  lemma {:induction false} OverlappingAll(files: seq<File>, r: Range, lo: nat, n: nat)
    requires lo <= n <= |files|
    requires forall i :: 0 <= i < n ==> (Overlaps(files[i], r) <==> lo <= i)
    ensures Overlapping(files[..n], r) == files[lo..n]
  {
    hide Overlapping, Overlaps;
    if n == lo {
      OverlappingNone(files, r, n);
    } else {
      OverlappingAll(files, r, lo, n - 1);
      OverlappingStep(files, n - 1, r);
      assert files[lo..n] == files[lo..n - 1] + [files[n - 1]];
    }
  }

  lemma {:induction false} OverlappingSlice(files: seq<File>, r: Range, lo: nat, hi: nat, n: nat)
    requires lo <= hi <= n <= |files|
    requires forall i :: 0 <= i < n ==> (Overlaps(files[i], r) <==> lo <= i < hi)
    ensures Overlapping(files[..n], r) == files[lo..hi]
  {
    hide Overlapping, Overlaps;
    if n == hi {
      OverlappingAll(files, r, lo, n);
    } else {
      OverlappingSlice(files, r, lo, hi, n - 1);
      OverlappingStep(files, n - 1, r);
    }
  }

  lemma OverlappingIsRun(files: seq<File>, r: Range)
    requires WellFormedFiles(files) && SortedLevel(files)
    ensures IsRun(files, Overlapping(files, r))
  {
    var lo, hi := TouchingIndices(files, r, |files|);
    forall i | hi <= i < |files| ensures !Overlaps(files[i], r) {
      assert BeforeFile(r.hi, files[i]);
    }
    forall i | 0 <= i < lo ensures !Overlaps(files[i], r) {
      assert AfterFile(r.lo, files[i]);
    }
    OverlappingSlice(files, r, lo, hi, |files|);
    assert files[..|files|] == files;
    var at := if lo < |files| then lo else 0;
    assert RunAt(files, Overlapping(files, r), at);
  }

  lemma OverlapOnLevel(files: seq<File>, level: nat, r: Range)
    requires WellFormedFiles(files)
    requires if level == 0 then Closed(files, r) else SortedLevel(files)
    ensures if level == 0 then ClosedInputs(files, Overlapping(files, r)) else IsRun(files, Overlapping(files, r))
  {
    if level > 0 {
      OverlappingIsRun(files, r);
    }
  }

  /** AddBoundaryInputs turns a closed set or a run into valid inputs; a closed set needs nothing. */
  lemma BoundaryMakesInputs(files: seq<File>, level: nat, inputs: seq<File>, r: seq<File>)
    requires WellFormedFiles(files) && inputs != []
    requires if level == 0 then ClosedInputs(files, inputs) else SortedLevel(files) && IsRun(files, inputs)
    requires inputs <= r
    requires forall j :: |inputs| <= j < |r| ==> r[j] in files && Continues(r[..j], r[j])
    requires exists k :: IsLargest(r, k) && forall f :: f in files ==> !Boundary(f, k)
    requires forall lo: nat :: SortedLevel(files) && RunAt(files, inputs, lo) ==> RunAt(files, r, lo)
    ensures UpperInputs(files, level, r)
    ensures level == 0 ==> r == inputs
  {
    if level == 0 {
      if |inputs| < |r| {
        assert r[..|inputs|] == inputs;
        NoBoundaryOutside(files, inputs, r[|inputs|]);
      }
    } else {
      var lo: nat :| RunAt(files, inputs, lo);
      assert RunAt(files, r, lo);
      var k :| IsLargest(r, k) && forall f :: f in files ==> !Boundary(f, k);
      RunEndsKey(files, r, lo, k);
    }
  }

  lemma RunEndsKey(files: seq<File>, r: seq<File>, lo: nat, k: InternalKey)
    requires WellFormedFiles(files) && SortedLevel(files)
    requires RunAt(files, r, lo) && IsLargest(r, k)
    requires forall f :: f in files ==> !Boundary(f, k)
    ensures KeyEndsAt(files, lo + |r|)
  {
    LastIsLargest(files, r, lo, k);
    var hi := lo + |r|;
    if hi < |files| {
      assert files[hi] in files;
    }
  }

  lemma NoBoundaryOutside(files: seq<File>, inputs: seq<File>, g: File)
    requires WellFormedFiles(files) && ClosedInputs(files, inputs)
    requires g in files
    ensures !Continues(inputs, g)
  {
    if Continues(inputs, g) {
      var k :| IsLargest(inputs, k) && Boundary(g, k);
      var r :| Closed(files, r) && inputs == Overlapping(files, r);
      OverlappingMembers(files, r);
      var f :| f in inputs && f.largest == k;
      TableBounds(g, g.table[0]);
    }
  }

  lemma HullTouches(files: seq<File>, r: Range, outer: Range, f: File)
    requires Hull(files, r) && f in files && WellFormed(f) && Covers(outer, r)
    ensures Overlaps(f, outer)
  {
    TableBounds(f, f.table[0]);
  }

  ghost predicate LowerInputs(files: seq<File>, upper: seq<File>, lower: seq<File>) {
    exists r :: Hull(upper, r) && lower == Overlapping(files, r)
  }

  /** What every compaction of `level` starts from. */
  ghost predicate Chosen(v: Version, level: nat, upper: seq<File>, lower: seq<File>)
    requires |v.files| == NUM_LEVELS && level + 1 < NUM_LEVELS
  {
    && UpperInputs(v.files[level], level, upper)
    && LowerInputs(v.files[level + 1], upper, lower)
  }

  ghost predicate Seed(v: Version, level: nat, upper: seq<File>)
    requires |v.files| == NUM_LEVELS && level + 1 < NUM_LEVELS
  {
    && upper != []
    && if level == 0 then ClosedInputs(v.files[0], upper) else IsRun(v.files[level], upper)
  }

  /** The files two levels down that touch the range of the whole compaction. */
  ghost predicate Grandparents(v: Version, level: nat, inputs: seq<File>, grandparents: seq<File>) {
    if level + 2 < |v.files| then exists r :: Hull(inputs, r) && grandparents == Overlapping(v.files[level + 2], r) else grandparents == []
  }

  /** SetupOtherInputs: completes the upper inputs, finds the lower ones, and takes more upper
      inputs when that costs no further lower one. */
  method SetupOtherInputs(v: Version, level: nat, seed: seq<File>, expandedLimit: nat)
    returns (upper: seq<File>, lower: seq<File>, grandparents: seq<File>, compactPointer: InternalKey)
    requires ValidVersion(v) && level + 1 < NUM_LEVELS
    requires Seed(v, level, seed)
    ensures Chosen(v, level, upper, lower)
    ensures forall f :: f in seed ==> f in upper
    ensures Connected(seed) ==> Connected(upper + lower)
    ensures IsLargest(upper, compactPointer) && Grandparents(v, level, upper + lower, grandparents)
  {
    hide Connected, WellFormedFiles, SortedLevel, ValidVersion, UpperInputs, IsLargest, IsRun, ClosedInputs, RunAt, Inside, Overlaps, TotalFileSize;
    LevelsWellFormed(v, level);
    upper := AddBoundaryInputs(v.files[level], seed);
    BoundaryMakesInputs(v.files[level], level, seed, upper);
    UpperIsWellFormed(v.files[level], level, upper);
    var range, all, pointer;
    range, compactPointer := GetRange(upper);
    lower := GetOverlappingInputs(v.files[level + 1], level + 1, range);
    LowerIsWellFormed(v.files[level + 1], range, lower);
    all, pointer := GetRange(upper + lower);
    SeedConnects(v, level, seed, upper, range, lower);
    if lower != [] {
      var expanded := ExpandUpper(v.files[level], level, upper, all, lower);
      if |expanded| > |upper| && TotalFileSize(lower) + TotalFileSize(expanded) < expandedLimit {
        var newRange, newLargest := GetRange(expanded);
        var expandedLower := GetOverlappingInputs(v.files[level + 1], level + 1, newRange);
        if |expandedLower| == |lower| {
          ExpandedConnects(v, level, upper, lower, expanded, newRange, expandedLower);
          upper, lower, compactPointer := expanded, expandedLower, newLargest;
          all, pointer := GetRange(upper + lower);
        }
      }
    }
    grandparents := [];
    if level + 2 < NUM_LEVELS {
      grandparents := GetOverlappingInputs(v.files[level + 2], level + 2, all);
    }
  }

  lemma UpperAreFiles(files: seq<File>, level: nat, upper: seq<File>)
    requires UpperInputs(files, level, upper)
    ensures forall f :: f in upper ==> f in files
  {
    if level == 0 {
      var r :| Closed(files, r) && upper == Overlapping(files, r);
      OverlappingMembers(files, r);
    }
  }

  /** The range a call of GetOverlappingInputs ended with. */
  ghost function Reached(files: seq<File>, level: nat, range: Range, inputs: seq<File>): (r: Range)
    requires level > 0 ==> inputs == Overlapping(files, range)
    requires level == 0 ==> exists r :: LeastClosed(files, range, r) && inputs == Overlapping(files, r)
    ensures Covers(r, range) && inputs == Overlapping(files, r)
    ensures if level == 0 then Closed(files, r) && Least(files, range, r) else r == range
  {
    if level > 0 then range else var r :| LeastClosed(files, range, r) && inputs == Overlapping(files, r); r
  }

  lemma LevelsWellFormed(v: Version, level: nat)
    requires ValidVersion(v) && level + 1 < NUM_LEVELS
    ensures |v.files| == NUM_LEVELS && WellFormedFiles(v.files[level]) && WellFormedFiles(v.files[level + 1])
    ensures level + 2 < NUM_LEVELS ==> WellFormedFiles(v.files[level + 2])
    ensures (level > 0 ==> SortedLevel(v.files[level])) && SortedLevel(v.files[level + 1])
  {
  }

  lemma UpperIsWellFormed(files: seq<File>, level: nat, upper: seq<File>)
    requires WellFormedFiles(files) && UpperInputs(files, level, upper)
    ensures upper != [] && WellFormedFiles(upper)
  {
    UpperAreFiles(files, level, upper);
  }

  lemma LowerIsWellFormed(files: seq<File>, range: Range, lower: seq<File>)
    requires WellFormedFiles(files) && lower == Overlapping(files, range)
    ensures WellFormedFiles(lower)
  {
    OverlappingMembers(files, range);
  }

  lemma SeedConnects(v: Version, level: nat, seed: seq<File>, upper: seq<File>, range: Range, lower: seq<File>)
    requires ValidVersion(v) && level + 1 < NUM_LEVELS && Seed(v, level, seed) && UpperInputs(v.files[level], level, upper)
    requires seed <= upper && forall j :: |seed| <= j < |upper| ==> upper[j] in v.files[level] && Continues(upper[..j], upper[j])
    requires Hull(upper, range) && lower == Overlapping(v.files[level + 1], range)
    ensures Connected(seed) ==> Connected(upper + lower)
  {
    hide Connected, WellFormed, SortedLevel, ValidVersion, Hull, Seed, UpperInputs, Continues;
    LevelsWellFormed(v, level);
    if Connected(seed) {
      UpperIsWellFormed(v.files[level], level, upper);
      forall f | f in seed ensures f.smallest.user <= f.largest.user {
        assert f in upper;
        InOrder(f);
      }
      assert seed + [] == seed && upper + [] == upper;
      BoundaryConnected(v.files[level], seed, [], upper);
      LowerConnected(v.files[level + 1], upper, [], range, lower);
    }
  }

  /** The files that overlap the hull of the upper inputs add no gap to connected files. */
  lemma LowerConnected(files: seq<File>, upper: seq<File>, more: seq<File>, range: Range, lower: seq<File>)
    requires WellFormedFiles(files) && WellFormedFiles(upper) && Connected(upper + more)
    requires Hull(upper, range) && lower == Overlapping(files, range) && forall f :: f in more ==> f in lower
    ensures Connected(upper + lower)
  {
    hide Connected, WellFormed, Hull;
    OverlappingMembers(files, range);
    forall f | f in upper + lower ensures f in upper + more || Touches(upper + more, f) {
      if f !in upper {
        OverlapTouches(upper + more, upper, range, f);
      }
    }
    JoinConnected(upper + more, upper + lower);
  }

  lemma ExpandedConnects(v: Version, level: nat, upper: seq<File>, lower: seq<File>, expanded: seq<File>, range: Range, expandedLower: seq<File>)
    requires ValidVersion(v) && level + 1 < NUM_LEVELS && UpperInputs(v.files[level], level, expanded)
    requires LowerInputs(v.files[level + 1], upper, lower) && forall f :: f in upper ==> f in expanded
    requires Hull(expanded, range) && expandedLower == Overlapping(v.files[level + 1], range)
    ensures Connected(expanded + lower) ==> Connected(expanded + expandedLower)
  {
    hide Connected, WellFormedFiles, ValidVersion, UpperInputs, LowerInputs, Hull;
    LevelsWellFormed(v, level);
    UpperIsWellFormed(v.files[level], level, expanded);
    LowerGrows(v.files[level + 1], upper, lower, expanded, range);
    if Connected(expanded + lower) {
      LowerConnected(v.files[level + 1], expanded, lower, range, expandedLower);
    }
  }

  lemma LowerGrows(files: seq<File>, upper: seq<File>, lower: seq<File>, expanded: seq<File>, range: Range)
    requires LowerInputs(files, upper, lower) && Hull(expanded, range) && forall f :: f in upper ==> f in expanded
    ensures forall f :: f in lower ==> f in Overlapping(files, range)
  {
    var r :| Hull(upper, r) && lower == Overlapping(files, r);
    OverlappingMembers(files, range);
    OverlappingMembers(files, r);
    assert Covers(range, r);
  }

  /** The upper inputs that touch the whole range of the compaction. */
  method ExpandUpper(files: seq<File>, level: nat, upper: seq<File>, all: Range, ghost lower: seq<File>) returns (expanded: seq<File>)
    requires WellFormedFiles(files) && (level > 0 ==> SortedLevel(files))
    requires UpperInputs(files, level, upper)
    requires WellFormedFiles(lower) && Hull(upper + lower, all)
    ensures UpperInputs(files, level, expanded)
    ensures forall f :: f in upper ==> f in expanded
    ensures Connected(upper + lower) ==> Connected(expanded + lower)
  {
    hide Connected, WellFormed, SortedLevel;
    assert forall f :: f in upper ==> Inside(f, all);
    UpperAreFiles(files, level, upper);
    var touching := GetOverlappingInputs(files, level, all);
    ghost var final := Reached(files, level, all, touching);
    OverlappingMembers(files, final);
    forall f | f in upper ensures f in touching {
      InOrder(f);
    }
    assert upper[0] in touching;
    OverlapOnLevel(files, level, final);
    expanded := AddBoundaryInputs(files, touching);
    BoundaryMakesInputs(files, level, touching, expanded);
    if Connected(upper + lower) {
      TouchingConnects(files, level, upper, lower, all, final, touching);
      forall f | f in touching ensures f.smallest.user <= f.largest.user {
        InOrder(f);
      }
      BoundaryConnected(files, touching, lower, expanded);
    }
  }

  lemma TouchingConnects(files: seq<File>, level: nat, upper: seq<File>, lower: seq<File>, all: Range, final: Range, touching: seq<File>)
    requires WellFormedFiles(files) && WellFormedFiles(lower) && Hull(upper + lower, all) && Connected(upper + lower)
    requires if level == 0 then LeastClosed(files, all, final) else final == all
    requires touching == Overlapping(files, final)
    requires forall f :: f in upper ==> f in files && f in touching
    ensures Connected(touching + lower)
  {
    hide Connected, WellFormed, LeastClosed, Hull;
    if level == 0 {
      LeastIsConnected(files, upper + lower, all, final, touching + lower);
    } else {
      OverlappingMembers(files, final);
      assert WellFormedFiles(upper + lower);
      forall f | f in touching + lower ensures f in upper + lower || Touches(upper + lower, f) {
        if f !in lower {
          OverlapTouches(upper + lower, upper + lower, all, f);
        }
      }
      JoinConnected(upper + lower, touching + lower);
    }
  }

  /** `r` is what CutShort leaves of `inputs`: no more than it takes to reach the limit. */
  ghost predicate ShortOf(inputs: seq<File>, limit: nat, r: seq<File>) {
    && r <= inputs
    && (r == inputs || TotalFileSize(r) >= limit)
    && (r != [] ==> r[..|r| - 1] == [] || TotalFileSize(r[..|r| - 1]) < limit)
  }

  /** On level 0 all the files of the least closed range, deeper the first of the touching files. */
  ghost predicate CutAtLimit(files: seq<File>, level: nat, range: Range, limit: nat, seed: seq<File>) {
    if level == 0 then exists r :: LeastClosed(files, range, r) && seed == Overlapping(files, r)
    else ShortOf(Overlapping(files, range), limit, seed)
  }

  /** VersionSet::CompactRange: the files touching a range, above level 0 cut short once they add
      up to `limit` bytes. */
  method CompactRange(v: Version, level: nat, range: Range, limit: nat) returns (seed: seq<File>)
    requires ValidVersion(v) && level + 1 < NUM_LEVELS
    ensures seed == [] || Seed(v, level, seed)
    ensures seed == [] <==> forall f :: f in v.files[level] ==> !Overlaps(f, range)
    ensures CutAtLimit(v.files[level], level, range, limit, seed)
  {
    seed := FilesInRange(v.files[level], level, range, limit);
  }

  method FilesInRange(files: seq<File>, level: nat, range: Range, limit: nat) returns (seed: seq<File>)
    requires WellFormedFiles(files) && (level > 0 ==> SortedLevel(files))
    ensures seed != [] ==> if level == 0 then ClosedInputs(files, seed) else IsRun(files, seed)
    ensures seed == [] <==> forall f :: f in files ==> !Overlaps(f, range)
    ensures CutAtLimit(files, level, range, limit, seed)
  {
    var inputs := GetOverlappingInputs(files, level, range);
    ghost var final := Reached(files, level, range, inputs);
    OverlapOnLevel(files, level, final);
    FinalTouches(files, level, range, final);
    seed := inputs;
    if level > 0 {
      seed := CutShort(inputs, limit);
      PrefixIsRun(files, inputs, seed);
    }
  }

  lemma PrefixIsRun(files: seq<File>, inputs: seq<File>, r: seq<File>)
    requires IsRun(files, inputs) && r <= inputs
    ensures IsRun(files, r)
  {
    var lo: nat :| RunAt(files, inputs, lo);
    assert RunAt(files, r, lo);
  }

  method CutShort(inputs: seq<File>, limit: nat) returns (r: seq<File>)
    ensures ShortOf(inputs, limit, r)
    ensures r == [] <==> inputs == []
  {
    var total, i := 0, 0;
    assert inputs[..0] == [];
    while i < |inputs|
      invariant 0 <= i <= |inputs|
      invariant total == TotalFileSize(inputs[..i]) && (i > 0 ==> total < limit)
    {
      SizeWith(inputs, i);
      total := total + inputs[i].size;
      if total >= limit {
        assert inputs[..i + 1][..i] == inputs[..i];
        return inputs[..i + 1];
      }
      i := i + 1;
    }
    SizesGrow(inputs);
    assert inputs[..i] == inputs;
    return inputs;
  }

  lemma {:induction false} SizeWith(inputs: seq<File>, i: nat)
    requires i < |inputs|
    ensures TotalFileSize(inputs[..i + 1]) == TotalFileSize(inputs[..i]) + inputs[i].size
  {
    if i > 0 {
      SizeWith(inputs[1..], i - 1);
      assert inputs[..i + 1][1..] == inputs[1..][..i] && inputs[..i][1..] == inputs[1..][..i - 1];
    }
  }

  lemma SizesGrow(inputs: seq<File>)
    ensures inputs != [] ==> TotalFileSize(inputs[..|inputs| - 1]) <= TotalFileSize(inputs)
  {
    if inputs != [] {
      SizeWith(inputs, |inputs| - 1);
      assert inputs[..|inputs|] == inputs;
    }
  }

  lemma FinalTouches(files: seq<File>, level: nat, range: Range, final: Range)
    requires Covers(final, range)
    requires if level == 0 then Least(files, range, final) else final == range
    ensures Overlapping(files, final) == [] <==> forall f :: f in files ==> !Overlaps(f, range)
  {
    OverlappingMembers(files, final);
    if forall f :: f in files ==> !Overlaps(f, range) {
      assert Covers(range, range) && Closed(files, range);
      assert final == range;
      assert Overlapping(files, final) != [] ==> Overlapping(files, final)[0] in Overlapping(files, final);
    } else {
      var f :| f in files && Overlaps(f, range);
      assert f in Overlapping(files, final);
    }
  }

  /** VersionSet::PickCompaction: a level that is too large starts from the first file behind its
      compaction pointer; otherwise a file that was searched in vain too often is taken. */
  method PickCompaction(v: Version, sizeLevel: Option<nat>, compactPointer: Option<InternalKey>, seek: Option<(nat, File)>)
    returns (level: nat, seed: seq<File>)
    requires ValidVersion(v)
    requires sizeLevel.Some? ==> sizeLevel.value + 1 < NUM_LEVELS && v.files[sizeLevel.value] != []
    requires seek.Some? ==> seek.value.0 + 1 < NUM_LEVELS && seek.value.1 in v.files[seek.value.0]
    ensures level + 1 < NUM_LEVELS
    ensures seed == [] <==> sizeLevel.None? && seek.None?
    ensures seed == [] || (Seed(v, level, seed) && Connected(seed))
    ensures sizeLevel.Some? ==> level == sizeLevel.value && exists pick :: pick in seed && IsFirstBehind(v.files[level], compactPointer, pick)
    ensures sizeLevel.None? && seek.Some? ==> level == seek.value.0 && seek.value.1 in seed
    ensures level > 0 ==> |seed| <= 1
  {
    if sizeLevel.None? && seek.None? {
      return 0, [];
    }
    var pick;
    if sizeLevel.Some? {
      level := sizeLevel.value;
      pick := FirstBehind(v.files[level], compactPointer);
    } else {
      level, pick := seek.value.0, seek.value.1;
    }
    seed := SeedFrom(v.files[level], level, pick);
  }

  predicate BehindPointer(compactPointer: Option<InternalKey>, f: File) {
    compactPointer.None? || Less(compactPointer.value, f.largest)
  }

  /** The first file behind the pointer, or the first file of all if there is none behind it. */
  ghost predicate IsFirstBehind(files: seq<File>, compactPointer: Option<InternalKey>, pick: File) {
    exists i :: 0 <= i < |files| && files[i] == pick && (forall j :: 0 <= j < i ==> !BehindPointer(compactPointer, files[j]))
                && (BehindPointer(compactPointer, pick) || (i == 0 && forall j :: 0 <= j < |files| ==> !BehindPointer(compactPointer, files[j])))
  }

  method FirstBehind(files: seq<File>, compactPointer: Option<InternalKey>) returns (pick: File)
    requires files != []
    ensures IsFirstBehind(files, compactPointer, pick)
  {
    var i := 0;
    while i < |files|
      invariant 0 <= i <= |files|
      invariant forall j :: 0 <= j < i ==> !BehindPointer(compactPointer, files[j])
    {
      if BehindPointer(compactPointer, files[i]) {
        return files[i];
      }
      i := i + 1;
    }
    return files[0];
  }

  lemma OneConnected(f: File)
    ensures Connected([f])
  {
    forall u: UserKey | f.smallest.user <= u <= f.largest.user ensures Covered([f], u) {
      assert f in [f];
    }
  }

  method SeedFrom(files: seq<File>, level: nat, pick: File) returns (seed: seq<File>)
    requires WellFormedFiles(files) && pick in files
    ensures seed != []
    ensures if level == 0 then ClosedInputs(files, seed) else IsRun(files, seed)
    ensures pick in seed && (level > 0 ==> seed == [pick])
    ensures Connected(seed)
  {
    seed := [pick];
    OneConnected(pick);
    if level == 0 {
      var range, largest := GetRange(seed);
      seed := GetOverlappingInputs(files, 0, range);
      ghost var final := Reached(files, 0, range, seed);
      OverlappingMembers(files, final);
      assert pick in seed by { HullTouches([pick], range, final, pick); }
      hide Connected;
      LeastIsConnected(files, [pick], range, final, seed);
    } else {
      ghost var k: nat :| k < |files| && files[k] == pick;
      assert RunAt(files, seed, k);
    }
  }
}
