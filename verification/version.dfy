/** A version of the database: the table files of every level, and how a read searches them
    (class Version of db/version_set.cc). */
module Versions {
  import opened DbFormat

  /** A table file with its metadata. `table` is the contents stored under `number`. */
  datatype File = File(number: nat, size: nat, smallest: InternalKey, largest: InternalKey, table: seq<Entry>)

  datatype Version = Version(files: seq<seq<File>>)

  ghost predicate WellFormed(f: File) {
    && |f.table| > 0
    && SortedTable(f.table)
    && (forall e :: e in f.table ==> e.key.sequence <= MAX_SEQUENCE)
    && f.smallest == f.table[0].key
    && f.largest == f.table[|f.table| - 1].key
  }

  /** Files in key order with disjoint ranges of internal keys: levels 1 and up. */
  ghost predicate SortedLevel(files: seq<File>) {
    forall i, j :: 0 <= i < j < |files| ==> Less(files[i].largest, files[j].smallest)
  }

  /** The order of the version builder: by smallest key, ties broken by file number. */
  predicate BySmallestKey(f: File, g: File) {
    Less(f.smallest, g.smallest) || (f.smallest == g.smallest && f.number < g.number)
  }

  ghost predicate SortedBySmallest(files: seq<File>) {
    forall i, j :: 0 <= i < j < |files| ==> BySmallestKey(files[i], files[j])
  }

  ghost predicate DistinctNumbers(files: seq<File>) {
    forall i, j :: 0 <= i < j < |files| ==> files[i].number != files[j].number
  }

  /** Level 0: files may overlap, but a higher number means newer data. */
  ghost predicate NumberedByAge(files: seq<File>) {
    forall f, g :: f in files && g in files && f.number > g.number ==> Newer(f.table, g.table)
  }

  ghost predicate WellFormedFiles(files: seq<File>) {
    forall f :: f in files ==> WellFormed(f)
  }

  /** Data never hops across levels: a lower-numbered level holds the newer entries of a key. */
  ghost predicate LevelsByAge(v: Version) {
    forall l1, l2, f, g :: 0 <= l1 < l2 < |v.files| && f in v.files[l1] && g in v.files[l2] ==> Newer(f.table, g.table)
  }

  ghost predicate ValidVersion(v: Version) {
    && |v.files| == NUM_LEVELS
    && (forall l :: 0 <= l < NUM_LEVELS ==>
          WellFormedFiles(v.files[l]) && DistinctNumbers(v.files[l]) && SortedBySmallest(v.files[l]))
    && (forall l :: 1 <= l < NUM_LEVELS ==> SortedLevel(v.files[l]))
    && NumberedByAge(v.files[0])
    && LevelsByAge(v)
  }

  ghost function FileEntries(files: seq<File>): set<Entry> {
    set f, e | f in files && e in f.table :: e
  }

  ghost function Entries(v: Version): set<Entry> {
    set l, f, e | 0 <= l < |v.files| && f in v.files[l] && e in f.table :: e
  }

  // ---------------------------------------------------------------- facts about valid levels

  lemma TableBounds(f: File, e: Entry)
    requires WellFormed(f) && e in f.table
    ensures !Less(e.key, f.smallest) && !Less(f.largest, e.key)
  {
    var i :| 0 <= i < |f.table| && f.table[i] == e;
  }

  // ---------------------------------------------------------------- searching a level

  /** Binary search for the first file whose largest key is at or after `key`. */
  method FindFile(files: seq<File>, key: InternalKey) returns (index: nat)
    requires SortedLevel(files) && WellFormedFiles(files)
    ensures index <= |files|
    ensures forall i :: 0 <= i < index ==> Less(files[i].largest, key)
    ensures forall i :: index <= i < |files| ==> !Less(files[i].largest, key)
  {
    var left, right := 0, |files|;
    while left < right
      invariant 0 <= left <= right <= |files|
      invariant forall i :: 0 <= i < left ==> Less(files[i].largest, key)
      invariant forall i :: right <= i < |files| ==> !Less(files[i].largest, key)
    {
      var mid := (left + right) / 2;
      if Less(files[mid].largest, key) {
        forall i | 0 <= i <= mid ensures Less(files[i].largest, key) {
          SmallestLargest(files, i);
          SmallestLargest(files, mid);
        }
        left := mid + 1;
      } else {
        forall i | mid <= i < |files| ensures !Less(files[i].largest, key) {
          SmallestLargest(files, i);
          SmallestLargest(files, mid);
        }
        right := mid;
      }
    }
    index := right;
  }

  lemma SmallestLargest(files: seq<File>, i: nat)
    requires WellFormedFiles(files) && i < |files|
    ensures !Less(files[i].largest, files[i].smallest)
  {
    assert files[i] in files;
    TableBounds(files[i], files[i].table[0]);
  }

  /** A range of user keys; None stands for the null pointer, a bound beyond all keys. */
  datatype Range = Range(lo: Option<UserKey>, hi: Option<UserKey>)

  predicate AfterFile(lo: Option<UserKey>, f: File) {
    lo.Some? && lo.value > f.largest.user
  }

  predicate BeforeFile(hi: Option<UserKey>, f: File) {
    hi.Some? && hi.value < f.smallest.user
  }

  predicate Overlaps(f: File, r: Range) {
    !AfterFile(r.lo, f) && !BeforeFile(r.hi, f)
  }

  /** Whether some file touches the user keys in `range`; binary search for a sorted level, linear
      for level 0. */
  method SomeFileOverlapsRange(disjointSorted: bool, files: seq<File>, range: Range) returns (r: bool)
    requires WellFormedFiles(files)
    requires disjointSorted ==> SortedLevel(files)
    ensures r <==> exists f :: f in files && Overlaps(f, range)
  {
    if !disjointSorted {
      var i := 0;
      while i < |files|
        invariant 0 <= i <= |files|
        invariant forall j :: 0 <= j < i ==> !Overlaps(files[j], range)
      {
        if AfterFile(range.lo, files[i]) || BeforeFile(range.hi, files[i]) {
        } else {
          assert files[i] in files;
          return true;
        }
        i := i + 1;
      }
      return false;
    }
    var index := 0;
    if range.lo.Some? {
      index := FindFile(files, InternalKey(range.lo.value, MAX_SEQUENCE, Value));
      forall i | 0 <= i < index ensures AfterFile(range.lo, files[i]) {
        var f := files[i];
        assert f in files;
        assert f.table[|f.table| - 1] in f.table;
      }
    }
    if index >= |files| {
      return false;
    }
    r := !BeforeFile(range.hi, files[index]);
    if r {
      assert files[index] in files && Overlaps(files[index], range);
    } else {
      forall i | index <= i < |files| ensures BeforeFile(range.hi, files[i]) {
        SmallestLargest(files, index);
      }
    }
  }

  // ---------------------------------------------------------------- reading a version

  /** `files` ordered from the highest file number down (the library sort with `NewestFirst`). */
  function NewestFirst(files: seq<File>): (r: seq<File>)
    ensures forall f :: f in r <==> f in files
    ensures forall i, j :: 0 <= i < j < |r| ==> r[i].number >= r[j].number
  {
    if files == [] then [] else Place(files[0], NewestFirst(files[1..]))
  }

  function Place(f: File, sorted: seq<File>): (r: seq<File>)
    requires forall i, j :: 0 <= i < j < |sorted| ==> sorted[i].number >= sorted[j].number
    ensures forall g :: g in r <==> g == f || g in sorted
    ensures forall i, j :: 0 <= i < j < |r| ==> r[i].number >= r[j].number
  {
    if sorted == [] || f.number >= sorted[0].number then [f] + sorted
    else
      assert forall g :: g in sorted <==> g == sorted[0] || g in sorted[1..];
      var rest := Place(f, sorted[1..]);
      assert forall g :: g in rest ==> g.number <= sorted[0].number;
      [sorted[0]] + rest
  }

  /** The level-0 files whose range covers `user`. */
  method Covering(files: seq<File>, user: UserKey) returns (tmp: seq<File>)
    ensures forall f :: f in tmp <==> f in files && f.smallest.user <= user <= f.largest.user
  {
    tmp := [];
    var i := 0;
    while i < |files|
      invariant 0 <= i <= |files|
      invariant forall f :: f in tmp <==> f in files[..i] && f.smallest.user <= user <= f.largest.user
    {
      if files[i].smallest.user <= user && user <= files[i].largest.user {
        tmp := tmp + [files[i]];
      }
      i := i + 1;
    }
    assert files[..i] == files;
  }

  /** `r` suffices to answer a read from `files`: a visible entry outside it is outranked by one
      in it. */
  ghost predicate Suffices(files: seq<File>, r: seq<File>, user: UserKey, snapshot: nat) {
    && (forall f :: f in r ==> f in files)
    && (forall f, e :: f in files && f !in r && e in f.table && Visible(e, user, snapshot)
                       ==> |r| == 1 && Outranks(r[0], user, snapshot, e))
    && (|r| <= 1 || (NumberedByAge(files) && forall i, j :: 0 <= i < j < |r| ==> r[i].number >= r[j].number))
  }

  ghost predicate Nothing(files: seq<File>, user: UserKey, snapshot: nat) {
    forall d :: d in FileEntries(files) ==> !Visible(d, user, snapshot)
  }

  ghost predicate Outranks(f: File, user: UserKey, snapshot: nat, e: Entry) {
    exists d :: d in f.table && Visible(d, user, snapshot) && d.key.sequence >= e.key.sequence
  }

  /** The files of one level a read must look at, in the order it looks at them. */
  method Candidates(v: Version, level: nat, user: UserKey, snapshot: nat) returns (r: seq<File>)
    requires ValidVersion(v) && level < NUM_LEVELS
    ensures Suffices(v.files[level], r, user, snapshot)
  {
    assert WellFormedFiles(v.files[level]);
    if level == 0 {
      var tmp := Covering(v.files[0], user);
      r := NewestFirst(tmp);
      forall f, e | f in v.files[0] && e in f.table && Visible(e, user, snapshot) ensures f in r {
        TableBounds(f, e);
      }
    } else {
      var index := FindFile(v.files[level], LookupKey(user, snapshot));
      if index >= |v.files[level]| || user < v.files[level][index].smallest.user {
        r := [];
      } else {
        r := [v.files[level][index]];
      }
      forall f, e | f in v.files[level] && f !in r && e in f.table && Visible(e, user, snapshot)
        ensures |r| == 1 && Outranks(r[0], user, snapshot, e)
      {
        OutrankedBySearch(v.files[level], index, user, snapshot, f, e);
      }
    }
  }

  lemma OutrankedBySearch(files: seq<File>, index: nat, user: UserKey, snapshot: nat, f: File, e: Entry)
    requires SortedLevel(files) && WellFormedFiles(files)
    requires index <= |files|
    requires forall i :: 0 <= i < index ==> Less(files[i].largest, LookupKey(user, snapshot))
    requires forall i :: index <= i < |files| ==> !Less(files[i].largest, LookupKey(user, snapshot))
    requires f in files && e in f.table && Visible(e, user, snapshot)
    ensures index < |files| && user >= files[index].smallest.user
    ensures f == files[index] || Outranks(files[index], user, snapshot, e)
  {
    var k :| 0 <= k < |files| && files[k] == f;
    TableBounds(f, e);
    assert index <= k;
    var h := files[index];
    assert h in files;
    var last := h.table[|h.table| - 1];
    assert last in h.table;
    TableBounds(h, h.table[0]);
    if index < k {
      assert Less(h.largest, f.smallest);
      assert Visible(last, user, snapshot);
    }
  }

  /** Searches `files` in order up to the first one that knows about `user`. */
  method SearchFiles(files: seq<File>, user: UserKey, snapshot: nat) returns (r: Saver, ghost i: nat, ghost e: Entry)
    requires WellFormedFiles(files)
    requires |files| > 0
    ensures r == NotHere ==> forall f, d :: f in files && d in f.table ==> !Visible(d, user, snapshot)
    ensures i < |files|
    ensures r != NotHere ==> Newest(Elements(files[i].table), user, snapshot, e) && r == ToSaver(e)
    ensures r != NotHere ==> forall j, d :: 0 <= j < i && d in files[j].table ==> !Visible(d, user, snapshot)
  {
    i := 0;
    e := files[0].table[0] by { assert files[0] in files; }
    var k := 0;
    while k < |files|
      invariant 0 <= k <= |files|
      invariant forall j, d :: 0 <= j < k && d in files[j].table ==> !Visible(d, user, snapshot)
    {
      assert files[k] in files;
      r := SearchTable(files[k].table, user, snapshot);
      SearchTableFinds(files[k].table, user, snapshot);
      if r != NotHere {
        i := k;
        e :| Newest(Elements(files[k].table), user, snapshot, e) && r == ToSaver(e);
        return;
      }
      k := k + 1;
    }
    r := NotHere;
  }

  lemma NewerWins(a: seq<Entry>, b: seq<Entry>, x: Entry, y: Entry)
    requires Newer(a, b) && x in a && y in b && x.key.user == y.key.user
    ensures x.key.sequence > y.key.sequence
  {
  }

  lemma FirstHitIsNewestInLevel(files: seq<File>, r: seq<File>, i: nat, user: UserKey, snapshot: nat, e: Entry)
    requires WellFormedFiles(files) && DistinctNumbers(files)
    requires Suffices(files, r, user, snapshot)
    requires i < |r|
    requires forall j, d :: 0 <= j < i && d in r[j].table ==> !Visible(d, user, snapshot)
    requires Newest(Elements(r[i].table), user, snapshot, e)
    ensures Newest(FileEntries(files), user, snapshot, e)
  {
    hide WellFormed, Newer, SortedTable;
    var h := r[i];
    assert h in r && h in files && e in h.table;
    forall f, d | f in files && d in f.table && Visible(d, user, snapshot)
      ensures d.key.sequence <= e.key.sequence
    {
      if f in r {
        var j :| 0 <= j < |r| && r[j] == f;
        if f.number == h.number {
          SameNumber(files, f, h);
          assert d in Elements(h.table);
        } else {
          assert i < j;
          assert h.number > f.number;
          assert Newer(h.table, f.table);
          NewerWins(h.table, f.table, e, d);
        }
      } else {
        assert h == r[0];
        var c :| c in h.table && Visible(c, user, snapshot) && c.key.sequence >= d.key.sequence;
        assert c in Elements(h.table);
      }
    }
  }

  lemma NewestInVersion(v: Version, level: nat, user: UserKey, snapshot: nat, e: Entry)
    requires ValidVersion(v) && level < NUM_LEVELS
    requires forall l :: 0 <= l < level ==> Nothing(v.files[l], user, snapshot)
    requires Newest(FileEntries(v.files[level]), user, snapshot, e)
    ensures Newest(Entries(v), user, snapshot, e)
  {
    var h :| h in v.files[level] && e in h.table;
    forall d | d in Entries(v) && Visible(d, user, snapshot) ensures d.key.sequence <= e.key.sequence {
      var l, f :| 0 <= l < |v.files| && f in v.files[l] && d in f.table;
      assert d in FileEntries(v.files[l]);
      if l > level {
        assert Newer(h.table, f.table);
      }
    }
  }

  lemma CandidatesAreFiles(files: seq<File>, r: seq<File>, user: UserKey, snapshot: nat)
    requires WellFormedFiles(files) && Suffices(files, r, user, snapshot)
    ensures WellFormedFiles(r)
  {
  }

  lemma HitDecides(v: Version, level: nat, r: seq<File>, i: nat, user: UserKey, snapshot: nat, e: Entry)
    requires ValidVersion(v) && level < NUM_LEVELS && UniqueSequences(Entries(v))
    requires forall l :: 0 <= l < level ==> Nothing(v.files[l], user, snapshot)
    requires Suffices(v.files[level], r, user, snapshot)
    requires i < |r|
    requires forall j, d :: 0 <= j < i && d in r[j].table ==> !Visible(d, user, snapshot)
    requires Newest(Elements(r[i].table), user, snapshot, e)
    ensures Probe(Entries(v), user, snapshot) == ToSaver(e)
  {
    FirstHitIsNewestInLevel(v.files[level], r, i, user, snapshot, e);
    NewestInVersion(v, level, user, snapshot, e);
    ProbeIs(Entries(v), user, snapshot, e);
  }

  lemma ValidLevels(v: Version)
    requires ValidVersion(v)
    ensures |v.files| == NUM_LEVELS && forall l :: 0 <= l < NUM_LEVELS ==> WellFormedFiles(v.files[l])
  {
  }

  /** Version::Get: the newest visible entry over all the levels decides. */
  method Get(v: Version, user: UserKey, snapshot: nat) returns (r: Saver)
    requires ValidVersion(v)
    requires UniqueSequences(Entries(v))
    ensures r == Probe(Entries(v), user, snapshot)
  {
    hide ValidVersion, UniqueSequences, WellFormedFiles, Suffices, Nothing, Entries, Newest, Visible, Elements, WellFormed, Probe, ToSaver;
    ValidLevels(v);
    var level := 0;
    while level < NUM_LEVELS
      invariant 0 <= level <= NUM_LEVELS
      invariant forall l :: 0 <= l < level ==> Nothing(v.files[l], user, snapshot)
    {
      var files := Candidates(v, level, user, snapshot);
      if |files| > 0 {
        CandidatesAreFiles(v.files[level], files, user, snapshot);
        ghost var i, e;
        r, i, e := SearchFiles(files, user, snapshot);
        if r != NotHere {
          HitDecides(v, level, files, i, user, snapshot, e);
          return;
        }
      }
      NothingInLevel(v.files[level], files, user, snapshot);
      level := level + 1;
    }
    NothingInVersion(v, user, snapshot);
    return NotHere;
  }

  lemma NothingInVersion(v: Version, user: UserKey, snapshot: nat)
    requires |v.files| == NUM_LEVELS
    requires forall l :: 0 <= l < NUM_LEVELS ==> Nothing(v.files[l], user, snapshot)
    ensures Probe(Entries(v), user, snapshot) == NotHere
  {
    forall d | d in Entries(v) ensures !Visible(d, user, snapshot) {
      var l, f :| 0 <= l < |v.files| && f in v.files[l] && d in f.table;
      assert d in FileEntries(v.files[l]);
    }
    ProbeNotHere(Entries(v), user, snapshot);
  }

  lemma NothingInLevel(files: seq<File>, r: seq<File>, user: UserKey, snapshot: nat)
    requires Suffices(files, r, user, snapshot)
    requires forall f, d :: f in r && d in f.table ==> !Visible(d, user, snapshot)
    ensures Nothing(files, user, snapshot)
  {
    forall f, d | f in files && d in f.table ensures !Visible(d, user, snapshot) {
      if f !in r && |r| == 1 {
        assert r[0] in r;
      }
    }
  }

  lemma SameNumber(files: seq<File>, f: File, g: File)
    requires DistinctNumbers(files) && f in files && g in files && f.number == g.number
    ensures f == g
  {
    var i :| 0 <= i < |files| && files[i] == f;
    var j :| 0 <= j < |files| && files[j] == g;
  }
}
