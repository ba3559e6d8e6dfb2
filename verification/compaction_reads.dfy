/** What a reader can see of a compaction: the drop rule of db/db_impl.cc together with the input
    selection of db/version_set.cc. */
module CompactionReads {
  import opened DbFormat
  import opened Versions
  import opened CompactionInputs
  import opened Compactions

  /** A reader learns the value or that there is none. */
  function Answer(s: Saver): Option<string> {
    if s.Found? then Some(s.value) else None
  }

  ghost predicate SameReads(a: set<Entry>, b: set<Entry>, from: nat) {
    forall user, s: nat :: s >= from ==> Answer(Probe(a, user, s)) == Answer(Probe(b, user, s))
  }

  /** `dropped(i)`, for entries of a table, is the drop rule of the compaction loop. */
  ghost predicate KeptSet(v: Version, level: nat, t: seq<Entry>, snapshot: nat, k: set<Entry>) {
    forall e :: e in k <==> exists i :: 0 <= i < |t| && t[i] == e && !Dropped(v, level, t, i, snapshot)
  }

  /** Older entries of the key of a droppable deletion survive only in `left`. */
  ghost predicate OlderOnlyIn(v: Version, level: nat, t: seq<Entry>, snapshot: nat, rest: set<Entry>, left: set<Entry>) {
    && left <= rest
    && forall r, e :: r in rest && e in t && r.key.user == e.key.user && ObsoleteKey(v, level, e.key, snapshot)
                      ==> r.key.sequence > e.key.sequence || r in left
  }

  /** No deletion that is dropped while it is the visible answer uncovers a value in `left`. */
  ghost predicate NothingUncovered(v: Version, level: nat, t: seq<Entry>, snapshot: nat, es: set<Entry>, left: set<Entry>) {
    forall e :: e in t && ObsoleteKey(v, level, e.key, snapshot) && Newest(es, e.key.user, snapshot, e)
                ==> !Probe(left, e.key.user, e.key.sequence).Found?
  }

  lemma LaterIsHidden(t: seq<Entry>, snapshot: nat, i: nat, j: nat)
    requires SortedTable(t) && i < j < |t|
    requires t[i].key.user == t[j].key.user && t[i].key.sequence <= snapshot
    ensures Hidden(t, j, snapshot)
  {
    assert !Less(t[j - 1].key, t[i].key) && Less(t[j - 1].key, t[j].key);
  }

  lemma OlderIsNotKept(v: Version, level: nat, t: seq<Entry>, snapshot: nat, k: set<Entry>, e: Entry, c: Entry)
    requires SortedTable(t) && KeptSet(v, level, t, snapshot, k)
    requires e in t && ObsoleteKey(v, level, e.key, snapshot)
    requires c in k && c.key.user == e.key.user
    ensures c.key.sequence > e.key.sequence || (c.key.sequence == e.key.sequence && c != e)
  {
    var i :| 0 <= i < |t| && t[i] == e;
    var j :| 0 <= j < |t| && t[j] == c && !Dropped(v, level, t, j, snapshot);
    if i < j {
      LaterIsHidden(t, snapshot, i, j);
    } else if j < i {
      assert Less(t[j].key, t[i].key);
    }
  }

  /** The reader's view of one key at one snapshot, when nothing is uncovered. */
  lemma KeyReadsSame(v: Version, level: nat, t: seq<Entry>, snapshot: nat, rest: set<Entry>, k: set<Entry>, left: set<Entry>,
                     user: UserKey, s: nat)
    requires SortedTable(t) && KeptSet(v, level, t, snapshot, k)
    requires UniqueSequences(rest + Elements(t)) && OlderOnlyIn(v, level, t, snapshot, rest, left)
    requires NothingUncovered(v, level, t, snapshot, rest + Elements(t), left)
    requires s >= snapshot
    ensures Answer(Probe(rest + Elements(t), user, s)) == Answer(Probe(rest + k, user, s))
  {
    var before, after := rest + Elements(t), rest + k;
    ProbeNotHere(before, user, s);
    ProbeNotHere(after, user, s);
    if d :| d in before && Visible(d, user, s) {
      var e := NewestExists(before, user, s, d);
      ProbeIs(before, user, s, e);
      if e in after {
        assert Newest(after, user, s, e);
        ProbeIs(after, user, s, e);
      } else {
        DroppedAnswer(v, level, t, snapshot, rest, k, left, s, e);
      }
    }
  }

  /** Dropping the entry that answers a read changes nothing, as it is a deletion with nothing left
      behind it. */
  lemma DroppedAnswer(v: Version, level: nat, t: seq<Entry>, snapshot: nat, rest: set<Entry>, k: set<Entry>, left: set<Entry>,
                      s: nat, e: Entry)
    requires SortedTable(t) && KeptSet(v, level, t, snapshot, k)
    requires UniqueSequences(rest + Elements(t)) && OlderOnlyIn(v, level, t, snapshot, rest, left)
    requires NothingUncovered(v, level, t, snapshot, rest + Elements(t), left)
    requires s >= snapshot && Newest(rest + Elements(t), e.key.user, s, e) && e !in rest + k
    ensures e.key.kind.Deletion?
    ensures !Probe(rest + k, e.key.user, s).Found?
  {
    var before, after, user := rest + Elements(t), rest + k, e.key.user;
    var i :| 0 <= i < |t| && t[i] == e;
    assert !Hidden(t, i, snapshot) by {
      assert i > 0 ==> t[i - 1] in Elements(t) && Less(t[i - 1].key, t[i].key);
    }
    assert Newest(before, user, snapshot, e);
    if c :| Newest(after, user, s, c) {
      ProbeIs(after, user, s, c);
      if c in k {
        OlderIsNotKept(v, level, t, snapshot, k, e, c);
      }
      assert c in left;
      assert Newest(left, user, e.key.sequence, c);
      ProbeIs(left, user, e.key.sequence, c);
    }
  }

  /** A value that is uncovered shows at the oldest snapshot. */
  lemma UncoveredShows(v: Version, level: nat, t: seq<Entry>, snapshot: nat, rest: set<Entry>, k: set<Entry>, left: set<Entry>, e: Entry)
    requires SortedTable(t) && KeptSet(v, level, t, snapshot, k)
    requires UniqueSequences(rest + Elements(t)) && OlderOnlyIn(v, level, t, snapshot, rest, left)
    requires e in t && ObsoleteKey(v, level, e.key, snapshot) && Newest(rest + Elements(t), e.key.user, snapshot, e)
    requires Probe(left, e.key.user, e.key.sequence).Found?
    ensures Answer(Probe(rest + Elements(t), e.key.user, snapshot)) == None
    ensures Answer(Probe(rest + k, e.key.user, snapshot)) != None
  {
    var before, after, user := rest + Elements(t), rest + k, e.key.user;
    ProbeIs(before, user, snapshot, e);
    var d :| Newest(left, user, e.key.sequence, d) && ToSaver(d).Found?;
    forall c | c in after && Visible(c, user, snapshot) ensures c.key.sequence <= d.key.sequence {
      assert c in before;
      if c in k {
        OlderIsNotKept(v, level, t, snapshot, k, e, c);
      }
    }
    assert Newest(after, user, snapshot, d);
    ProbeIs(after, user, snapshot, d);
  }

  /** For every key and every snapshot not older than the oldest live one, reads are the same if
      and only if no dropped deletion uncovers a value in a left-out file. */
  lemma ReadsSameIff(v: Version, level: nat, t: seq<Entry>, snapshot: nat, rest: set<Entry>, k: set<Entry>, left: set<Entry>)
    requires SortedTable(t) && KeptSet(v, level, t, snapshot, k)
    requires UniqueSequences(rest + Elements(t)) && OlderOnlyIn(v, level, t, snapshot, rest, left)
    ensures SameReads(rest + Elements(t), rest + k, snapshot)
            <==> NothingUncovered(v, level, t, snapshot, rest + Elements(t), left)
  {
    if NothingUncovered(v, level, t, snapshot, rest + Elements(t), left) {
      forall user, s: nat | s >= snapshot
        ensures Answer(Probe(rest + Elements(t), user, s)) == Answer(Probe(rest + k, user, s))
      {
        KeyReadsSame(v, level, t, snapshot, rest, k, left, user, s);
      }
    } else {
      var e :| e in t && ObsoleteKey(v, level, e.key, snapshot) && Newest(rest + Elements(t), e.key.user, snapshot, e)
               && Probe(left, e.key.user, e.key.sequence).Found?;
      UncoveredShows(v, level, t, snapshot, rest, k, left, e);
    }
  }

  // ---------------------------------------------------------------- the files around a compaction

  /** The entries of the files that a compaction does not touch. */
  ghost function Untouched(v: Version, level: nat, upper: seq<File>, lower: seq<File>): set<Entry> {
    set l, f, e | 0 <= l < |v.files| && f in v.files[l] && !Input(l, f, level, upper, lower) && e in f.table :: e
  }

  ghost predicate Input(l: nat, f: File, level: nat, upper: seq<File>, lower: seq<File>) {
    (l == level && f in upper) || (l == level + 1 && f in lower)
  }

  /** The files of the lower level that a compaction leaves out. */
  ghost function LeftOut(files: seq<File>, lower: seq<File>): set<Entry> {
    set f, e | f in files && f !in lower && e in f.table :: e
  }

  /** A left-out file of the upper level holds only newer data for the keys of an input. */
  lemma UpperLeftIsNewer(files: seq<File>, level: nat, upper: seq<File>, g: File, f: File, x: Entry, y: Entry)
    requires WellFormedFiles(files) && (level > 0 ==> SortedLevel(files))
    requires UpperInputs(files, level, upper)
    requires g in files && g !in upper && f in upper && x in g.table && y in f.table
    requires x.key.user == y.key.user && x.key.sequence != y.key.sequence
    ensures x.key.sequence > y.key.sequence
  {
    hide SortedLevel, WellFormed;
    UpperAreFiles(files, level, upper);
    if level == 0 {
      ClosedIsApart(files, upper, g, f);
      TableBounds(g, x);
      TableBounds(f, y);
    } else {
      var lo: nat :| RunAt(files, upper, lo) && KeyEndsAt(files, lo + |upper|);
      var m :| 0 <= m < |files| && files[m] == g;
      var j :| 0 <= j < |upper| && upper[j] == f;
      assert files[lo + j] == f;
      RunLeftIsNewer(files, upper, lo, m, lo + j, x, y);
    }
  }

  lemma RunLeftIsNewer(files: seq<File>, run: seq<File>, lo: nat, m: nat, j: nat, x: Entry, y: Entry)
    requires WellFormedFiles(files) && SortedLevel(files)
    requires RunAt(files, run, lo) && KeyEndsAt(files, lo + |run|)
    requires m < |files| && lo <= j < lo + |run| && files[m] !in run
    requires x in files[m].table && y in files[j].table
    requires x.key.user == y.key.user && x.key.sequence != y.key.sequence
    ensures x.key.sequence > y.key.sequence
  {
    NotInRun(files, run, lo, m);
    if lo + |run| <= m {
      BehindRun(files, lo + |run|, j, m);
      assert files[m] in files && files[j] in files;
      TableBounds(files[m], x);
      TableBounds(files[j], y);
    } else {
      BeforeIsNewer(files, m, j, x, y);
    }
  }

  lemma ClosedIsApart(files: seq<File>, upper: seq<File>, g: File, f: File)
    requires WellFormedFiles(files) && ClosedInputs(files, upper)
    requires g in files && g !in upper && f in upper
    ensures g.largest.user < f.smallest.user || f.largest.user < g.smallest.user
  {
    var r :| Closed(files, r) && upper == Overlapping(files, r);
    OverlappingMembers(files, r);
    assert Inside(f, r) && !Overlaps(g, r);
  }

  lemma BeforeIsNewer(files: seq<File>, m: nat, j: nat, x: Entry, y: Entry)
    requires WellFormedFiles(files) && SortedLevel(files) && m < j < |files|
    requires x in files[m].table && y in files[j].table
    requires x.key.user == y.key.user && x.key.sequence != y.key.sequence
    ensures x.key.sequence > y.key.sequence
  {
    assert files[m] in files && files[j] in files;
    TableBounds(files[m], x);
    TableBounds(files[j], y);
  }

  lemma NotInRun(files: seq<File>, run: seq<File>, lo: nat, m: nat)
    requires RunAt(files, run, lo) && m < |files| && files[m] !in run
    ensures m < lo || lo + |run| <= m
  {
    forall i | lo <= i < lo + |run| ensures files[i] in run {
      assert files[i] == run[i - lo];
    }
  }

  lemma BehindRun(files: seq<File>, hi: nat, j: nat, m: nat)
    requires WellFormedFiles(files) && SortedLevel(files)
    requires j < hi <= m < |files| && KeyEndsAt(files, hi)
    ensures files[j].largest.user < files[m].smallest.user
  {
    SmallestLargest(files, hi - 1);
    SmallestLargest(files, hi);
  }

  /** A left-out file of the lower level shares no user key with an upper input. */
  lemma LowerLeftIsApart(files: seq<File>, upper: seq<File>, lower: seq<File>, g: File, f: File)
    requires LowerInputs(files, upper, lower)
    requires g in files && g !in lower && f in upper && WellFormed(f)
    ensures g.largest.user < f.smallest.user || f.largest.user < g.smallest.user
  {
    var r :| Hull(upper, r) && lower == Overlapping(files, r);
    OverlappingMembers(files, r);
    assert Inside(f, r) && !Overlaps(g, r);
  }

  lemma LowerAreFiles(files: seq<File>, upper: seq<File>, lower: seq<File>)
    requires LowerInputs(files, upper, lower)
    ensures forall f :: f in lower ==> f in files
  {
    var r :| Hull(upper, r) && lower == Overlapping(files, r);
    OverlappingMembers(files, r);
  }

  lemma BaseMeansNone(v: Version, level: nat, l: nat, g: File, r: Entry)
    requires ValidVersion(v) && level + 2 <= l < NUM_LEVELS
    requires g in v.files[l] && r in g.table
    ensures !BaseLevel(v, level, r.key.user)
  {
    assert WellFormedFiles(v.files[l]);
    TableBounds(g, r);
    assert Spans(g, r.key.user);
  }

  /** Where the older data of a key can be, seen from an input of the compaction. */
  lemma OlderData(v: Version, level: nat, upper: seq<File>, lower: seq<File>, l: nat, g: File, r: Entry, f: File, e: Entry, snapshot: nat)
    requires ValidVersion(v) && level + 1 < NUM_LEVELS && Chosen(v, level, upper, lower)
    requires l < NUM_LEVELS && g in v.files[l] && r in g.table && !Input(l, g, level, upper, lower)
    requires f in upper + lower && e in f.table
    requires r.key.user == e.key.user && r.key.sequence != e.key.sequence
    requires ObsoleteKey(v, level, e.key, snapshot)
    ensures r.key.sequence > e.key.sequence || l == level + 1
  {
    UpperAreFiles(v.files[level], level, upper);
    LowerAreFiles(v.files[level + 1], upper, lower);
    if l < level {
      var m := if f in upper then level else level + 1;
      assert f in v.files[m];
      assert Newer(g.table, f.table);
    } else if l == level {
      assert WellFormedFiles(v.files[level]);
      if f in upper {
        UpperLeftIsNewer(v.files[level], level, upper, g, f, r, e);
      } else {
        assert f in v.files[level + 1];
        assert Newer(g.table, f.table);
      }
    } else if l >= level + 2 {
      BaseMeansNone(v, level, l, g, r);
    }
  }

  // ---------------------------------------------------------------- installing the results

  /** `r` holds `files` without `gone` and with `added`, in the order of the version builder. */
  ghost predicate Replaced(files: seq<File>, gone: seq<File>, added: seq<File>, r: seq<File>) {
    && SortedBySmallest(r)
    && forall f :: f in r <==> (f in files && f !in gone) || f in added
  }

  /** `w` is `v` after a compaction of `level` with the given inputs and outputs. */
  ghost predicate Installed(v: Version, w: Version, level: nat, upper: seq<File>, lower: seq<File>, outputs: seq<File>) {
    && |v.files| == |w.files| == NUM_LEVELS && level + 1 < NUM_LEVELS
    && (forall l :: 0 <= l < NUM_LEVELS && l != level && l != level + 1 ==> w.files[l] == v.files[l])
    && Replaced(v.files[level], upper, [], w.files[level])
    && Replaced(v.files[level + 1], lower, outputs, w.files[level + 1])
  }

  /** What is known when a compaction is installed. */
  ghost predicate Compacted(v: Version, w: Version, level: nat, upper: seq<File>, lower: seq<File>,
                            input: seq<Entry>, outputs: seq<File>, snapshot: nat) {
    && ValidVersion(v)
    && Installed(v, w, level, upper, lower, outputs)
    && Chosen(v, level, upper, lower)
    && Merged(input, upper + lower)
    && Contents(outputs) == Kept(v, level, input, |input|, snapshot)
  }

  /** Every entry of `a` is newer than every entry of `b` with the same user key. */
  ghost predicate NewerSet(a: set<Entry>, b: set<Entry>) {
    forall x, y :: x in a && y in b && x.key.user == y.key.user ==> x.key.sequence > y.key.sequence
  }

  /** No left-out file of the lower level continues the last user key of a lower input. */
  ghost predicate ClosedBelow(files: seq<File>, lower: seq<File>) {
    forall g, f :: g in files && g !in lower && f in lower ==> !Boundary(g, f.largest)
  }

  lemma EntriesBefore(v: Version, level: nat, upper: seq<File>, lower: seq<File>, input: seq<Entry>)
    requires ValidVersion(v) && level + 1 < NUM_LEVELS && Chosen(v, level, upper, lower)
    requires Merged(input, upper + lower)
    ensures Entries(v) == Untouched(v, level, upper, lower) + Elements(input)
  {
    hide ValidVersion, UpperInputs, LowerInputs, SortedTable;
    assert |v.files| == NUM_LEVELS by { LevelCount(v); }
    UpperAreFiles(v.files[level], level, upper);
    LowerAreFiles(v.files[level + 1], upper, lower);
    forall e | e in Entries(v) ensures e in Untouched(v, level, upper, lower) + Elements(input) {
      var l, f :| 0 <= l < NUM_LEVELS && f in v.files[l] && e in f.table;
      if Input(l, f, level, upper, lower) {
        assert f in upper + lower;
      }
    }
    forall e | e in input ensures e in Entries(v) {
      var f :| f in upper + lower && e in f.table;
      if f in upper {
        assert f in v.files[level];
      } else {
        assert f in v.files[level + 1];
      }
    }
  }

  lemma LevelCount(v: Version)
    requires ValidVersion(v)
    ensures |v.files| == NUM_LEVELS
  {
  }

  lemma EntriesAfter(v: Version, w: Version, level: nat, upper: seq<File>, lower: seq<File>, outputs: seq<File>)
    requires Installed(v, w, level, upper, lower, outputs)
    ensures Entries(w) == Untouched(v, level, upper, lower) + Elements(Contents(outputs))
  {
    hide SortedBySmallest;
    ContentsMembers(outputs);
    forall e | e in Entries(w) ensures e in Untouched(v, level, upper, lower) + Elements(Contents(outputs)) {
      var l, f :| 0 <= l < NUM_LEVELS && f in w.files[l] && e in f.table;
      if !(l == level + 1 && f in outputs) {
        assert f in v.files[l] && !Input(l, f, level, upper, lower);
      }
    }
    forall e | e in Untouched(v, level, upper, lower) ensures e in Entries(w) {
      var l, f :| 0 <= l < NUM_LEVELS && f in v.files[l] && !Input(l, f, level, upper, lower) && e in f.table;
      assert f in w.files[l];
    }
    forall e | e in Contents(outputs) ensures e in Entries(w) {
      var f :| f in outputs && e in f.table;
      assert f in w.files[level + 1];
    }
  }

  lemma OlderOnlyInLeftOut(v: Version, level: nat, upper: seq<File>, lower: seq<File>, input: seq<Entry>, newer: set<Entry>, snapshot: nat)
    requires ValidVersion(v) && level + 1 < NUM_LEVELS && Chosen(v, level, upper, lower)
    requires Merged(input, upper + lower)
    requires NewerSet(newer, Entries(v)) && UniqueSequences(newer + Entries(v))
    requires Disjoint(Untouched(v, level, upper, lower), input)
    ensures OlderOnlyIn(v, level, input, snapshot, newer + Untouched(v, level, upper, lower), LeftOut(v.files[level + 1], lower))
  {
    hide ValidVersion, UpperInputs, LowerInputs, SortedTable, Chosen;
    assert |v.files| == NUM_LEVELS by { LevelCount(v); }
    EntriesBefore(v, level, upper, lower, input);
    var rest, left := newer + Untouched(v, level, upper, lower), LeftOut(v.files[level + 1], lower);
    forall e | e in left ensures e in rest {
      var f :| f in v.files[level + 1] && f !in lower && e in f.table;
      assert !Input(level + 1, f, level, upper, lower);
    }
    forall r, e | r in rest && e in input && r.key.user == e.key.user && ObsoleteKey(v, level, e.key, snapshot)
      ensures r.key.sequence > e.key.sequence || r in left
    {
      assert e in Entries(v);
      if r !in newer {
        var l, g :| 0 <= l < NUM_LEVELS && g in v.files[l] && !Input(l, g, level, upper, lower) && r in g.table;
        var f :| f in upper + lower && e in f.table;
        assert r in Entries(v) && r != e;
        OlderData(v, level, upper, lower, l, g, r, f, e, snapshot);
      }
    }
  }

  ghost predicate Disjoint(a: set<Entry>, t: seq<Entry>) {
    forall e :: e in t ==> e !in a
  }

  lemma InOneFile(files: seq<File>, g: File, f: File, e: Entry)
    requires WellFormedFiles(files) && SortedLevel(files)
    requires g in files && f in files && e in g.table && e in f.table
    ensures g == f
  {
    TableBounds(g, e);
    TableBounds(f, e);
  }

  lemma InputsAreApart(v: Version, level: nat, upper: seq<File>, lower: seq<File>, input: seq<Entry>)
    requires ValidVersion(v) && level + 1 < NUM_LEVELS && Chosen(v, level, upper, lower)
    requires Merged(input, upper + lower)
    ensures Disjoint(Untouched(v, level, upper, lower), input)
  {
    hide ValidVersion, SortedTable, Chosen;
    assert |v.files| == NUM_LEVELS by { LevelCount(v); }
    forall e | e in input ensures e !in Untouched(v, level, upper, lower) {
      var f :| f in upper + lower && e in f.table;
      forall l, g | 0 <= l < NUM_LEVELS && g in v.files[l] && e in g.table ensures Input(l, g, level, upper, lower) {
        InputIsOnly(v, level, upper, lower, f, l, g, e);
      }
    }
  }

  lemma InputIsOnly(v: Version, level: nat, upper: seq<File>, lower: seq<File>, f: File, l: nat, g: File, e: Entry)
    requires ValidVersion(v) && level + 1 < NUM_LEVELS && Chosen(v, level, upper, lower)
    requires f in upper + lower && e in f.table
    requires l < NUM_LEVELS && g in v.files[l] && e in g.table
    ensures Input(l, g, level, upper, lower)
  {
    UpperAreFiles(v.files[level], level, upper);
    LowerAreFiles(v.files[level + 1], upper, lower);
    var m := if f in upper then level else level + 1;
    assert f in v.files[m];
    assert l < m ==> Newer(g.table, f.table);
    assert m < l ==> Newer(f.table, g.table);
    assert l == m;
    assert WellFormedFiles(v.files[m]);
    if m > 0 {
      InOneFile(v.files[m], g, f, e);
    } else if g !in upper {
      ClosedIsApart(v.files[0], upper, g, f);
      TableBounds(g, e);
      TableBounds(f, e);
    }
  }

  /** The main result on compaction: for every key and every snapshot not older than the oldest
      live one, a read gives the same answer before and after, if and only if no deletion that the
      loop drops uncovers a value in a left-out file of the lower level. */
  lemma CompactionKeepsReadsIff(v: Version, w: Version, level: nat, upper: seq<File>, lower: seq<File>,
                                input: seq<Entry>, outputs: seq<File>, snapshot: nat, newer: set<Entry>)
    requires Compacted(v, w, level, upper, lower, input, outputs, snapshot)
    requires NewerSet(newer, Entries(v)) && UniqueSequences(newer + Entries(v))
    ensures SameReads(newer + Entries(v), newer + Entries(w), snapshot)
            <==> NothingUncovered(v, level, input, snapshot, newer + Entries(v), LeftOut(v.files[level + 1], lower))
  {
    hide ValidVersion, Installed, Chosen, NewerSet, UniqueSequences, SameReads, NothingUncovered, OlderOnlyIn;
    assert level + 1 < NUM_LEVELS by { InstalledLevel(v, w, level, upper, lower, outputs); }
    assert |v.files| == NUM_LEVELS by { LevelCount(v); }
    var rest, k, left := newer + Untouched(v, level, upper, lower), Elements(Contents(outputs)), LeftOut(v.files[level + 1], lower);
    EntriesBefore(v, level, upper, lower, input);
    EntriesAfter(v, w, level, upper, lower, outputs);
    InputsAreApart(v, level, upper, lower, input);
    OlderOnlyInLeftOut(v, level, upper, lower, input, newer, snapshot);
    KeptMembers(v, level, input, |input|, snapshot);
    assert newer + Entries(v) == rest + Elements(input);
    assert newer + Entries(w) == rest + k;
    ReadsSameIff(v, level, input, snapshot, rest, k, left);
  }

  lemma InstalledLevel(v: Version, w: Version, level: nat, upper: seq<File>, lower: seq<File>, outputs: seq<File>)
    requires Installed(v, w, level, upper, lower, outputs)
    ensures level + 1 < NUM_LEVELS && |w.files| == NUM_LEVELS
  {
  }

  /** When no left-out file continues the key a lower input ends with, nothing is uncovered. */
  lemma ClosedBelowUncoversNothing(v: Version, level: nat, upper: seq<File>, lower: seq<File>, e: Entry, d: Entry)
    requires ValidVersion(v) && level + 1 < NUM_LEVELS && Chosen(v, level, upper, lower)
    requires ClosedBelow(v.files[level + 1], lower)
    requires exists f :: f in upper + lower && e in f.table
    requires d in LeftOut(v.files[level + 1], lower)
    requires d.key.user == e.key.user
    ensures d.key.sequence >= e.key.sequence
  {
    LowerAreFiles(v.files[level + 1], upper, lower);
    UpperAreFiles(v.files[level], level, upper);
    var f :| f in upper + lower && e in f.table;
    var g :| g in v.files[level + 1] && g !in lower && d in g.table;
    LeftOutIsNewer(v.files[level + 1], v.files[level], upper, lower, f, e, g, d);
  }

  lemma LeftOutIsNewer(files: seq<File>, above: seq<File>, upper: seq<File>, lower: seq<File>, f: File, e: Entry, g: File, d: Entry)
    requires WellFormedFiles(files) && SortedLevel(files) && WellFormedFiles(above)
    requires forall h :: h in upper ==> h in above
    requires LowerInputs(files, upper, lower) && ClosedBelow(files, lower)
    requires f in upper + lower && e in f.table && g in files && g !in lower && d in g.table
    requires d.key.user == e.key.user
    ensures d.key.sequence >= e.key.sequence
  {
    LowerAreFiles(files, upper, lower);
    TableBounds(f, e);
    TableBounds(g, d);
    if f in upper {
      LowerLeftIsApart(files, upper, lower, g, f);
    } else {
      var i :| 0 <= i < |files| && files[i] == f;
      var j :| 0 <= j < |files| && files[j] == g;
      assert !Boundary(g, f.largest);
    }
  }

  /** The promise of the drop rule, under the closure that the input selection keeps for the upper
      level only: no read at a live snapshot can tell that a compaction took place. */
  lemma CompactionKeepsReads(v: Version, w: Version, level: nat, upper: seq<File>, lower: seq<File>,
                             input: seq<Entry>, outputs: seq<File>, snapshot: nat, newer: set<Entry>)
    requires Compacted(v, w, level, upper, lower, input, outputs, snapshot)
    requires NewerSet(newer, Entries(v)) && UniqueSequences(newer + Entries(v))
    requires ClosedBelow(v.files[level + 1], lower)
    ensures SameReads(newer + Entries(v), newer + Entries(w), snapshot)
  {
    hide ValidVersion, NewerSet, UniqueSequences, SameReads, ClosedBelow, Replaced, NothingUncovered;
    CompactionKeepsReadsIff(v, w, level, upper, lower, input, outputs, snapshot, newer);
    ClosedUncoversNothing(v, level, upper, lower, input, snapshot, newer);
  }

  /** The condition of the main result, from the files alone. */
  lemma ClosedUncoversNothing(v: Version, level: nat, upper: seq<File>, lower: seq<File>, input: seq<Entry>, snapshot: nat, newer: set<Entry>)
    requires ValidVersion(v) && level + 1 < NUM_LEVELS && Chosen(v, level, upper, lower) && Merged(input, upper + lower)
    requires UniqueSequences(newer + Entries(v)) && ClosedBelow(v.files[level + 1], lower)
    ensures NothingUncovered(v, level, input, snapshot, newer + Entries(v), LeftOut(v.files[level + 1], lower))
  {
    hide ValidVersion, UniqueSequences, ClosedBelow;
    assert |v.files| == NUM_LEVELS by { LevelCount(v); }
    var left := LeftOut(v.files[level + 1], lower);
    forall e | e in input && ObsoleteKey(v, level, e.key, snapshot) && Newest(newer + Entries(v), e.key.user, snapshot, e)
      ensures !Probe(left, e.key.user, e.key.sequence).Found?
    {
      if d :| Newest(left, e.key.user, e.key.sequence, d) && ToSaver(d).Found? {
        ClosedBelowUncoversNothing(v, level, upper, lower, e, d);
        LeftOutUnique(v, level, upper, lower, input, newer, e, d);
      }
    }
  }

  lemma LeftOutUnique(v: Version, level: nat, upper: seq<File>, lower: seq<File>, input: seq<Entry>, newer: set<Entry>, e: Entry, d: Entry)
    requires ValidVersion(v) && level + 1 < NUM_LEVELS && Chosen(v, level, upper, lower) && Merged(input, upper + lower)
    requires UniqueSequences(newer + Entries(v))
    requires e in input && d in LeftOut(v.files[level + 1], lower) && d.key.user == e.key.user
    ensures d.key.sequence != e.key.sequence
  {
    hide ValidVersion, Chosen;
    EntriesBefore(v, level, upper, lower, input);
    InputsAreApart(v, level, upper, lower, input);
    assert |v.files| == NUM_LEVELS by { LevelCount(v); }
    var g :| g in v.files[level + 1] && g !in lower && d in g.table;
    assert !Input(level + 1, g, level, upper, lower);
    assert d in Untouched(v, level, upper, lower) && e in Entries(v) && d in Entries(v);
  }
}
