/** The database as a whole: writes, snapshots, flushes and compactions, read through a plain map
    (class DBImpl of db/db_impl.cc). */
module Databases {
  import opened DbFormat
  import opened Versions
  import opened Builders
  import opened CompactionInputs
  import opened Compactions
  import opened CompactionReads
  import opened CompactionInstall
  import opened MakeInputs
  import opened Flushes

  /** One update of a write batch. */
  datatype Op = Op(user: UserKey, kind: ValueType, value: string)

  // ---------------------------------------------------------------- the reference: a map

  function ApplyOp(m: map<UserKey, string>, op: Op): map<UserKey, string> {
    if op.kind.Value? then m[op.user := op.value] else m - {op.user}
  }

  /** The updates of a batch, as they enter the history. A number in the history without an update stands
      for one that was lost or never used. */
  function Made(ops: seq<Op>): (r: seq<Option<Op>>)
    ensures |r| == |ops| && forall i :: 0 <= i < |ops| ==> r[i] == Some(ops[i])
  {
    seq(|ops|, i requires 0 <= i < |ops| => Some(ops[i]))
  }

  /** The database after its first `n` updates. */
  function MapAfter(history: seq<Option<Op>>, n: nat): map<UserKey, string>
    requires n <= |history|
  {
    if n == 0 then map[]
    else if history[n - 1].Some? then ApplyOp(MapAfter(history, n - 1), history[n - 1].value)
    else MapAfter(history, n - 1)
  }

  function Lookup(m: map<UserKey, string>, user: UserKey): Option<string> {
    if user in m then Some(m[user]) else None
  }

  /** Every stored entry is an update that was made: the one its sequence number names. */
  ghost predicate Genuine(es: set<Entry>, history: seq<Option<Op>>) {
    forall e :: e in es ==> 1 <= e.key.sequence <= |history| && IsMade(e, history[e.key.sequence - 1])
  }

  predicate IsMade(e: Entry, op: Option<Op>) {
    op.Some? && IsOp(e, op.value)
  }

  predicate IsOp(e: Entry, op: Op) {
    e.key.user == op.user && e.key.kind == op.kind && (op.kind.Value? ==> e.value == op.value) && (op.kind.Deletion? ==> e.value == "")
  }

  lemma GenuineIsUnique(es: set<Entry>, history: seq<Option<Op>>)
    requires Genuine(es, history)
    ensures UniqueSequences(es)
  {
  }

  /** Reads at every sequence number from `oldest` on answer as the map did at that point. */
  ghost predicate Faithful(es: set<Entry>, history: seq<Option<Op>>, oldest: nat) {
    forall user, s: nat :: oldest <= s <= |history| ==> Answer(Probe(es, user, s)) == Lookup(MapAfter(history, s), user)
  }

  // ---------------------------------------------------------------- one more update

  lemma {:induction false} MapAfterPrefix(history: seq<Option<Op>>, op: Option<Op>, n: nat)
    requires n <= |history|
    ensures MapAfter(history + [op], n) == MapAfter(history, n)
  {
    if n > 0 {
      MapAfterPrefix(history, op, n - 1);
    }
  }

  lemma UnseenEntry(es: set<Entry>, e: Entry, user: UserKey, s: nat)
    requires UniqueSequences(es) && !Visible(e, user, s)
    ensures Probe(es + {e}, user, s) == Probe(es, user, s)
  {
    forall d ensures Newest(es + {e}, user, s, d) <==> Newest(es, user, s, d) {
    }
    if d :| Newest(es, user, s, d) {
      ProbeIs(es, user, s, d);
      SameProbe(es, e, user, s, d);
    }
  }

  lemma SameProbe(es: set<Entry>, e: Entry, user: UserKey, s: nat, d: Entry)
    requires UniqueSequences(es) && !Visible(e, user, s) && Newest(es, user, s, d)
    ensures Probe(es + {e}, user, s) == ToSaver(d)
  {
    forall c | Newest(es + {e}, user, s, c) ensures c == d {
    }
    assert Newest(es + {e}, user, s, d);
  }

  lemma LaterSnapshot(es: set<Entry>, user: UserKey, s: nat)
    requires UniqueSequences(es) && forall e :: e in es ==> e.key.sequence <= s
    ensures Probe(es, user, s + 1) == Probe(es, user, s)
  {
    if d :| Newest(es, user, s, d) {
      assert Newest(es, user, s + 1, d);
      ProbeIs(es, user, s, d);
      ProbeIs(es, user, s + 1, d);
    } else {
      ProbeNotHere(es, user, s);
      ProbeNotHere(es, user, s + 1);
      if c :| c in es && Visible(c, user, s) {
        var n := NewestExists(es, user, s, c);
      }
    }
  }

  lemma UpdateRead(es: set<Entry>, history: seq<Option<Op>>, oldest: nat, op: Op, e: Entry, user: UserKey, s: nat)
    requires Faithful(es, history, oldest) && oldest <= |history| && oldest <= s <= |history| + 1
    requires UniqueSequences(es) && UniqueSequences(es + {e}) && Genuine(es, history)
    requires IsOp(e, op) && e.key.sequence == |history| + 1
    ensures Answer(Probe(es + {e}, user, s)) == Lookup(MapAfter(history + [Some(op)], s), user)
  {
    hide UniqueSequences, Probe;
    if s <= |history| {
      UnseenEntry(es, e, user, s);
      MapAfterPrefix(history, Some(op), s);
    } else {
      MapAfterPrefix(history, Some(op), |history|);
      if user == op.user {
        NewestUpdate(es, history, e, s);
        ProbeIs(es + {e}, user, s, e);
      } else {
        UnseenEntry(es, e, user, s);
        LaterSnapshot(es, user, |history|);
      }
    }
  }

  lemma NewestUpdate(es: set<Entry>, history: seq<Option<Op>>, e: Entry, s: nat)
    requires Genuine(es, history) && UniqueSequences(es + {e}) && e.key.sequence == s == |history| + 1
    ensures Newest(es + {e}, e.key.user, s, e)
  {
  }

  /** An update with the next sequence number is seen from then on, and by no earlier snapshot. */
  lemma UpdateIsFaithful(es: set<Entry>, history: seq<Option<Op>>, oldest: nat, op: Op, e: Entry)
    requires Genuine(es, history) && Faithful(es, history, oldest) && oldest <= |history|
    requires IsOp(e, op) && e.key.sequence == |history| + 1
    ensures Genuine(es + {e}, history + [Some(op)])
    ensures Faithful(es + {e}, history + [Some(op)], oldest)
  {
    var after := history + [Some(op)];
    forall d | d in es + {e} ensures 1 <= d.key.sequence <= |after| && IsMade(d, after[d.key.sequence - 1]) {
    }
    GenuineIsUnique(es, history);
    GenuineIsUnique(es + {e}, after);
    hide *;
    forall user, s: nat | oldest <= s <= |after|
      ensures Answer(Probe(es + {e}, user, s)) == Lookup(MapAfter(after, s), user)
    {
      UpdateRead(es, history, oldest, op, e, user, s);
    }
  }

  // ---------------------------------------------------------------- memtables

  /** MemTable::Add: the skip list keeps its entries in key order. */
  function InsertEntry(t: seq<Entry>, e: Entry): (r: seq<Entry>)
    requires SortedTable(t)
    requires forall d :: d in t ==> Less(d.key, e.key) || Less(e.key, d.key)
    ensures SortedTable(r)
    ensures forall d :: d in r <==> d in t || d == e
  {
    if t == [] then [e]
    else
      assert t[0] in t;
      if Less(e.key, t[0].key) then [e] + t
      else
        assert forall d :: d in t <==> d == t[0] || d in t[1..];
        var rest := InsertEntry(t[1..], e);
        assert forall d :: d in rest ==> Less(t[0].key, d.key) by {
          forall d | d in t[1..] ensures Less(t[0].key, d.key) {
            var i :| 0 <= i < |t[1..]| && t[1..][i] == d;
            assert t[i + 1] == d;
          }
        }
        assert forall i :: 0 <= i < |rest| ==> rest[i] in rest;
        [t[0]] + rest
  }

  ghost function ImmEntries(imm: Option<seq<Entry>>): set<Entry> {
    if imm.Some? then Elements(imm.value) else {}
  }

  /** Newer data lies above older data: memtable, immutable memtable, version. */
  ghost predicate Layered(mem: seq<Entry>, imm: Option<seq<Entry>>, v: Version) {
    && SortedTable(mem)
    && (imm.Some? ==> SortedTable(imm.value))
    && NewerSet(Elements(mem), ImmEntries(imm) + Entries(v))
    && NewerSet(ImmEntries(imm), Entries(v))
  }

  ghost function Everything(mem: seq<Entry>, imm: Option<seq<Entry>>, v: Version): set<Entry> {
    Elements(mem) + ImmEntries(imm) + Entries(v)
  }

  /** A table holding nothing for `user` does not matter to a read. */
  lemma ProbeBelow(above: set<Entry>, below: set<Entry>, user: UserKey, s: nat)
    requires UniqueSequences(above + below)
    requires forall e :: e in above ==> !Visible(e, user, s)
    ensures Probe(above + below, user, s) == Probe(below, user, s)
  {
    forall e ensures Newest(above + below, user, s, e) <==> Newest(below, user, s, e) {
    }
    if d :| Newest(below, user, s, d) {
      ProbeIs(below, user, s, d);
      ProbeIs(above + below, user, s, d);
    }
  }

  /** A hit in the upper layer decides a read. */
  lemma HitAbove(t: seq<Entry>, below: set<Entry>, user: UserKey, s: nat)
    requires SortedTable(t) && UniqueSequences(Elements(t) + below) && NewerSet(Elements(t), below)
    ensures Probe(Elements(t) + below, user, s)
            == if SearchTable(t, user, s) != NotHere then SearchTable(t, user, s) else Probe(below, user, s)
  {
    SearchTableFinds(t, user, s);
    if SearchTable(t, user, s) != NotHere {
      var e :| Newest(Elements(t), user, s, e) && SearchTable(t, user, s) == ToSaver(e);
      assert Newest(Elements(t) + below, user, s, e);
      ProbeIs(Elements(t) + below, user, s, e);
    } else {
      ProbeBelow(Elements(t), below, user, s);
    }
  }

  // ---------------------------------------------------------------- installing a new version

  /** LogAndApply: the current version with one edit applied. */
  method LogAndApply(current: Version, edit: VersionEdit) returns (v: Version)
    requires SortedVersion(current) && ValidEdit(edit)
    requires forall l :: 0 <= l < NUM_LEVELS ==> FreshAt(edit, l, FileSet(current.files[l]))
    ensures |v.files| == NUM_LEVELS
    ensures forall l :: 0 <= l < NUM_LEVELS ==> EditedLevel(current.files[l], edit, l, v.files[l])
  {
    hide FreshAt, Survivors;
    forall l | 0 <= l < NUM_LEVELS ensures AddedOnce(FileSet(current.files[l]), [edit], l) {
      FirstEdit(FileSet(current.files[l]), edit, l);
    }
    v := Replay(current, [edit]);
    forall l | 0 <= l < NUM_LEVELS ensures EditedLevel(current.files[l], edit, l, v.files[l]) {
      OneEdit(FileSet(current.files[l]), edit, l);
    }
  }

  lemma OneEdit(base: set<File>, edit: VersionEdit, l: nat)
    ensures OneByOne(base, [edit], l) == Survivors(base, DeletedAt(edit, l) - Numbers(AddedAt(edit, l)), AddedAt(edit, l))
  {
    var edits := [edit];
    assert edits[..|edits| - 1] == [];
    assert OneByOne(base, edits[..|edits| - 1], l) == base;
  }

  lemma FirstEdit(base: set<File>, edit: VersionEdit, l: nat)
    requires FreshAt(edit, l, base)
    ensures AddedOnce(base, [edit], l)
  {
    assert [edit][..0] == [];
    assert base + AllAdded([], l) == base;
  }

  ghost predicate EditedLevel(files: seq<File>, edit: VersionEdit, l: nat, r: seq<File>) {
    LevelOf(r, Survivors(FileSet(files), DeletedAt(edit, l) - Numbers(AddedAt(edit, l)), AddedAt(edit, l)))
  }

  /** (level, number) pairs of files to delete, and (level, file) pairs of files to add. */
  function Deletions(l: nat, files: seq<File>): seq<(nat, nat)> {
    seq(|files|, i requires 0 <= i < |files| => (l, files[i].number))
  }

  function Additions(l: nat, files: seq<File>): seq<(nat, File)> {
    seq(|files|, i requires 0 <= i < |files| => (l, files[i]))
  }

  /** AddInputDeletions and the additions of InstallCompactionResults. */
  method CompactionEdit(level: nat, upper: seq<File>, lower: seq<File>, outputs: seq<File>) returns (edit: VersionEdit)
    ensures edit == VersionEdit(Deletions(level, upper) + Deletions(level + 1, lower), Additions(level + 1, outputs))
  {
    edit := VersionEdit([], []);
    var i := 0;
    while i < |upper|
      invariant 0 <= i <= |upper|
      invariant edit == VersionEdit(Deletions(level, upper)[..i], [])
    {
      edit := edit.(deletedFiles := edit.deletedFiles + [(level, upper[i].number)]);
      i := i + 1;
    }
    i := 0;
    while i < |lower|
      invariant 0 <= i <= |lower|
      invariant edit == VersionEdit(Deletions(level, upper) + Deletions(level + 1, lower)[..i], [])
    {
      edit := edit.(deletedFiles := edit.deletedFiles + [(level + 1, lower[i].number)]);
      i := i + 1;
    }
    i := 0;
    while i < |outputs|
      invariant 0 <= i <= |outputs|
      invariant edit == VersionEdit(Deletions(level, upper) + Deletions(level + 1, lower), Additions(level + 1, outputs)[..i])
    {
      edit := edit.(newFiles := edit.newFiles + [(level + 1, outputs[i])]);
      i := i + 1;
    }
  }

  lemma EditSets(level: nat, upper: seq<File>, lower: seq<File>, outputs: seq<File>, l: nat)
    ensures var edit := VersionEdit(Deletions(level, upper) + Deletions(level + 1, lower), Additions(level + 1, outputs));
            && DeletedAt(edit, l) == Numbers(FileSet(if l == level then upper else if l == level + 1 then lower else []))
            && AddedAt(edit, l) == FileSet(if l == level + 1 then outputs else [])
  {
    var edit := VersionEdit(Deletions(level, upper) + Deletions(level + 1, lower), Additions(level + 1, outputs));
    var gone := if l == level then upper else if l == level + 1 then lower else [];
    forall n | n in DeletedAt(edit, l) ensures n in Numbers(FileSet(gone)) {
      var i :| 0 <= i < |edit.deletedFiles| && edit.deletedFiles[i].0 == l && edit.deletedFiles[i].1 == n;
      if i < |upper| {
        assert upper[i] in FileSet(gone);
      } else {
        assert lower[i - |upper|] in FileSet(gone);
      }
    }
    forall f | f in gone ensures f.number in DeletedAt(edit, l) {
      var i :| 0 <= i < |gone| && gone[i] == f;
      var k := if l == level then i else |upper| + i;
      assert edit.deletedFiles[k] == (l, f.number);
    }
    forall f | f in AddedAt(edit, l) ensures l == level + 1 && f in outputs {
      var i :| 0 <= i < |edit.newFiles| && edit.newFiles[i].0 == l && edit.newFiles[i].1 == f;
    }
    if l == level + 1 {
      forall f | f in outputs ensures f in AddedAt(edit, l) {
        var i :| 0 <= i < |outputs| && outputs[i] == f;
        assert edit.newFiles[i] == (l, f);
      }
    }
  }

  /** An edit that deletes `gone` and adds files with new numbers replaces just these. */
  lemma EditReplaces(files: seq<File>, gone: seq<File>, added: seq<File>, edit: VersionEdit, l: nat, r: seq<File>)
    requires EditedLevel(files, edit, l, r)
    requires DeletedAt(edit, l) == Numbers(FileSet(gone)) && AddedAt(edit, l) == FileSet(added)
    requires DistinctNumbers(files) && (forall f :: f in gone ==> f in files) && NewNumbers(files, added)
    ensures Replaced(files, gone, added, r)
  {
    forall f ensures f in r <==> (f in files && f !in gone) || f in added {
      assert f in r <==> f in FileSet(r);
      if f in added {
        assert f.number in Numbers(FileSet(added)) by { assert f in FileSet(added); }
      } else if f in files {
        if f.number in Numbers(FileSet(gone)) {
          var g :| g in FileSet(gone) && g.number == f.number;
          SameNumber(files, f, g);
        }
        if f in gone {
          assert f in FileSet(gone);
          NumberNotAdded(files, added, f);
        }
      }
    }
  }

  lemma NumberNotAdded(files: seq<File>, added: seq<File>, f: File)
    requires NewNumbers(files, added) && f in files
    ensures f.number !in Numbers(FileSet(added))
  {
  }

  lemma FreshEdit(files: seq<File>, added: seq<File>, edit: VersionEdit, l: nat)
    requires AddedAt(edit, l) == FileSet(added) && NewNumbers(files, added)
    ensures FreshAt(edit, l, FileSet(files))
  {
  }

  // ---------------------------------------------------------------- the database

  ghost predicate SnapshotsOk(snapshots: seq<nat>, last: nat) {
    && (forall i :: 0 <= i < |snapshots| ==> snapshots[i] <= last)
    && (forall i, j :: 0 <= i < j < |snapshots| ==> snapshots[i] <= snapshots[j])
  }

  /** What holds of the stored data between any two operations. */
  ghost predicate GoodStore(mem: seq<Entry>, imm: Option<seq<Entry>>, v: Version, history: seq<Option<Op>>, next: nat) {
    && ValidVersion(v) && NumbersBelow(v, next) && UniqueNumbers(v)
    && Layered(mem, imm, v)
    && |history| < MAX_SEQUENCE
    && Genuine(Everything(mem, imm, v), history)
  }

  // ---------------------------------------------------------------- what each operation keeps

  lemma EmptyStore(v: Version)
    requires v == Version([[], [], [], [], [], [], []])
    ensures GoodStore([], None, v, [], 2) && Faithful(Everything([], None, v), [], 0)
  {
    EmptyVersion(v);
    assert Everything([], None, v) == {};
    hide ValidVersion, NumbersBelow, UniqueNumbers;
    forall user ensures Answer(Probe({}, user, 0)) == None {
      ProbeNotHere({}, user, 0);
    }
  }

  lemma EmptyVersion(v: Version)
    requires v == Version([[], [], [], [], [], [], []])
    ensures ValidVersion(v) && NumbersBelow(v, 2) && UniqueNumbers(v) && Entries(v) == {}
  {
    hide WellFormedFiles, DistinctNumbers, SortedBySmallest, SortedLevel, NumberedByAge, LevelsByAge, NumbersBelow, UniqueNumbers;
    EmptyLevel();
    assert forall l :: 0 <= l < NUM_LEVELS ==> v.files[l] == [];
    NoFilesAtAll(v);
  }

  lemma NoFilesAtAll(v: Version)
    requires forall l :: 0 <= l < |v.files| ==> v.files[l] == []
    ensures LevelsByAge(v) && NumbersBelow(v, 2) && UniqueNumbers(v) && Entries(v) == {}
  {
  }

  lemma EmptyLevel()
    ensures WellFormedFiles([]) && DistinctNumbers([]) && SortedBySmallest([]) && SortedLevel([]) && NumberedByAge([])
  {
  }

  lemma StoreParts(mem: seq<Entry>, imm: Option<seq<Entry>>, v: Version, history: seq<Option<Op>>, next: nat)
    requires GoodStore(mem, imm, v, history, next)
    ensures ValidVersion(v) && NumbersBelow(v, next) && UniqueNumbers(v)
    ensures Layered(mem, imm, v) && |history| < MAX_SEQUENCE && Genuine(Everything(mem, imm, v), history)
  {
  }

  lemma FaithfulLater(es: set<Entry>, history: seq<Option<Op>>, o1: nat, o2: nat)
    requires Faithful(es, history, o1) && o1 <= o2
    ensures Faithful(es, history, o2)
  {
  }

  lemma AddToMem(mem: seq<Entry>, imm: Option<seq<Entry>>, v: Version, history: seq<Option<Op>>, next: nat, op: Op, e: Entry, oldest: nat)
    requires GoodStore(mem, imm, v, history, next) && Faithful(Everything(mem, imm, v), history, oldest)
    requires oldest <= |history| && |history| + 1 < MAX_SEQUENCE
    requires IsOp(e, op) && e.key.sequence == |history| + 1
    ensures SortedTable(mem) && forall d :: d in mem ==> Less(d.key, e.key) || Less(e.key, d.key)
    ensures GoodStore(InsertEntry(mem, e), imm, v, history + [Some(op)], next)
    ensures Faithful(Everything(InsertEntry(mem, e), imm, v), history + [Some(op)], oldest)
  {
    hide ValidVersion, NumbersBelow, UniqueNumbers, Faithful;
    var es := Everything(mem, imm, v);
    forall d | d in mem ensures Less(d.key, e.key) || Less(e.key, d.key) {
      assert d in es;
    }
    UpdateIsFaithful(es, history, oldest, op, e);
    assert Everything(InsertEntry(mem, e), imm, v) == es + {e};
  }

  /** A read that goes through the layers from the top finds what is newest overall. */
  lemma ReadsInLayers(mem: seq<Entry>, imm: Option<seq<Entry>>, v: Version, history: seq<Option<Op>>, next: nat, user: UserKey, s: nat)
    requires GoodStore(mem, imm, v, history, next)
    ensures ValidVersion(v) && UniqueSequences(Entries(v))
    ensures Probe(Everything(mem, imm, v), user, s)
            == if SearchTable(mem, user, s) != NotHere then SearchTable(mem, user, s)
               else if imm.Some? && SearchTable(imm.value, user, s) != NotHere then SearchTable(imm.value, user, s)
               else Probe(Entries(v), user, s)
  {
    hide ValidVersion, NumbersBelow, UniqueNumbers;
    GenuineIsUnique(Everything(mem, imm, v), history);
    assert Everything(mem, imm, v) == Elements(mem) + (ImmEntries(imm) + Entries(v));
    HitAbove(mem, ImmEntries(imm) + Entries(v), user, s);
    if imm.Some? {
      HitAbove(imm.value, Entries(v), user, s);
    } else {
      assert ImmEntries(imm) + Entries(v) == Entries(v);
    }
  }

  lemma EmptyImm(mem: seq<Entry>, imm: Option<seq<Entry>>, v: Version, history: seq<Option<Op>>, next: nat)
    requires GoodStore(mem, imm, v, history, next) && imm == Some([])
    ensures GoodStore(mem, None, v, history, next) && Everything(mem, None, v) == Everything(mem, imm, v)
  {
    hide ValidVersion, NumbersBelow, UniqueNumbers;
    assert ImmEntries(imm) == {};
  }

  lemma ImmIsFresh(mem: seq<Entry>, imm: Option<seq<Entry>>, v: Version, history: seq<Option<Op>>, next: nat, f: File)
    requires GoodStore(mem, imm, v, history, next) && imm.Some? && imm.value != []
    requires f.number == next && f.table == imm.value && f.smallest == f.table[0].key && f.largest == f.table[|f.table| - 1].key
    ensures FreshFile(v, f, 0) && ValidVersion(v) && NumbersBelow(v, next)
  {
    hide ValidVersion, UniqueNumbers;
    forall e | e in f.table ensures e.key.sequence <= MAX_SEQUENCE {
      assert e in Everything(mem, imm, v);
    }
    forall l, g | 0 <= l < |v.files| && g in v.files[l] ensures Newer(f.table, g.table) {
      forall x, y | x in f.table && y in g.table && x.key.user == y.key.user ensures x.key.sequence > y.key.sequence {
        assert x in ImmEntries(imm) && y in Entries(v);
      }
    }
  }

  lemma ValidIsSorted(v: Version)
    requires ValidVersion(v)
    ensures SortedVersion(v)
    ensures forall l :: 0 <= l < NUM_LEVELS ==> DistinctNumbers(v.files[l])
  {
  }

  lemma FlushSets(level: nat, f: File, l: nat)
    ensures var edit := VersionEdit([], [(level, f)]);
            DeletedAt(edit, l) == Numbers(FileSet([])) && AddedAt(edit, l) == FileSet(if l == level then [f] else [])
  {
    var edit := VersionEdit([], [(level, f)]);
    assert edit.newFiles[0] == (level, f);
  }

  lemma NewAtLevel(v: Version, next: nat, level: nat, f: File, l: nat)
    requires NumbersBelow(v, next) && f.number >= next && l < |v.files|
    ensures NewNumbers(v.files[l], if l == level then [f] else [])
  {
  }

  lemma FlushEdit(v: Version, level: nat, f: File, edit: VersionEdit)
    requires ValidVersion(v) && level < NUM_LEVELS && edit == VersionEdit([], [(level, f)]) && NumbersBelow(v, f.number)
    ensures SortedVersion(v) && ValidEdit(edit)
    ensures forall l :: 0 <= l < NUM_LEVELS ==> FreshAt(edit, l, FileSet(v.files[l]))
  {
    ValidIsSorted(v);
    hide ValidVersion;
    forall l | 0 <= l < NUM_LEVELS ensures FreshAt(edit, l, FileSet(v.files[l])) {
      FlushSets(level, f, l);
      NewAtLevel(v, f.number, level, f, l);
      FreshEdit(v.files[l], if l == level then [f] else [], edit, l);
    }
  }

  /** A level that an edit does not name stays as it is. */
  lemma UntouchedLevel(files: seq<File>, edit: VersionEdit, l: nat, r: seq<File>)
    requires SortedBySmallest(files) && DistinctNumbers(files)
    requires EditedLevel(files, edit, l, r)
    requires DeletedAt(edit, l) == Numbers(FileSet([])) && AddedAt(edit, l) == FileSet([])
    ensures r == files
  {
    EditReplaces(files, [], [], edit, l, r);
    assert FileSet(r) == FileSet(files);
    LevelIsUnique(r, files);
  }

  lemma FlushReplaces(v: Version, level: nat, f: File, edit: VersionEdit, w: Version)
    requires ValidVersion(v) && level < NUM_LEVELS && edit == VersionEdit([], [(level, f)]) && NumbersBelow(v, f.number)
    requires |w.files| == NUM_LEVELS
    requires forall l :: 0 <= l < NUM_LEVELS ==> EditedLevel(v.files[l], edit, l, w.files[l])
    ensures Flushed(v, w, level, f)
  {
    ValidIsSorted(v);
    hide ValidVersion, EditedLevel;
    forall l | 0 <= l < NUM_LEVELS
      ensures if l == level then Replaced(v.files[l], [], [f], w.files[l]) else w.files[l] == v.files[l]
    {
      FlushSets(level, f, l);
      NewAtLevel(v, f.number, level, f, l);
      if l == level {
        EditReplaces(v.files[l], [], [f], edit, l, w.files[l]);
      } else {
        UntouchedLevel(v.files[l], edit, l, w.files[l]);
      }
    }
  }

  lemma FlushInstalls(mem: seq<Entry>, imm: Option<seq<Entry>>, v: Version, history: seq<Option<Op>>, next: nat,
                      level: nat, f: File, edit: VersionEdit, w: Version)
    requires GoodStore(mem, imm, v, history, next) && imm.Some? && f.table == imm.value && f.number == next
    requires level < NUM_LEVELS && edit == VersionEdit([], [(level, f)])
    requires FreshFile(v, f, 0)
    requires level > 0 ==> forall l :: 0 <= l <= level ==> NoOverlap(v.files[l], Range(Some(f.smallest.user), Some(f.largest.user)))
    requires |w.files| == NUM_LEVELS
    requires forall l :: 0 <= l < NUM_LEVELS ==> EditedLevel(v.files[l], edit, l, w.files[l])
    ensures GoodStore(mem, None, w, history, next + 1)
    ensures Everything(mem, None, w) == Everything(mem, imm, v)
  {
    hide ValidVersion, EditedLevel, NumbersBelow, UniqueNumbers, NoOverlap, Newer, WellFormed, Flushed;
    assert FreshFile(v, f, level) && NumbersBelow(v, f.number);
    FlushReplaces(v, level, f, edit, w);
    FlushNumbers(v, w, level, f);
    FlushKeepsVersionValid(v, w, level, f);
    LayersAfterFlush(mem, imm, v, w);
  }

  lemma LayersAfterFlush(mem: seq<Entry>, imm: Option<seq<Entry>>, v: Version, w: Version)
    requires Layered(mem, imm, v) && imm.Some? && Entries(w) == Entries(v) + Elements(imm.value)
    ensures Layered(mem, None, w) && Everything(mem, None, w) == Everything(mem, imm, v)
  {
  }

  lemma FlushNumbers(v: Version, w: Version, level: nat, f: File)
    requires Flushed(v, w, level, f) && NumbersBelow(v, f.number) && UniqueNumbers(v)
    ensures NumbersBelow(w, f.number + 1) && UniqueNumbers(w)
  {
    forall l, g | 0 <= l < NUM_LEVELS && g in w.files[l]
      ensures g.number < f.number + 1 && if g == f then l == level else g in v.files[l] && g.number < f.number
    {
      if l != level || g != f {
        assert g in v.files[l];
      }
    }
  }

  // ---------------------------------------------------------------- moves and compactions

  lemma StoreBasics(mem: seq<Entry>, imm: Option<seq<Entry>>, v: Version, history: seq<Option<Op>>, next: nat)
    requires GoodStore(mem, imm, v, history, next)
    ensures ValidVersion(v) && UniqueSequences(Entries(v)) && |history| < MAX_SEQUENCE
    ensures UniqueSequences(Elements(mem) + ImmEntries(imm) + Entries(v))
    ensures NewerSet(Elements(mem) + ImmEntries(imm), Entries(v))
  {
    GenuineIsUnique(Everything(mem, imm, v), history);
  }

  lemma StoreLater(mem: seq<Entry>, imm: Option<seq<Entry>>, v: Version, history: seq<Option<Op>>, n1: nat, n2: nat)
    requires GoodStore(mem, imm, v, history, n1) && n1 <= n2
    ensures GoodStore(mem, imm, v, history, n2)
  {
  }

  lemma InputSorted(input: seq<Entry>, upper: seq<File>, lower: seq<File>)
    requires Merged(input, upper + lower)
    ensures SortedTable(input)
  {
  }

  lemma OutputsFresh(state: CompactionState, outputs: seq<File>)
    requires state.Valid() && state.builder == None && outputs == state.outputs
    ensures GoodOutputs(outputs) && FreshNumbers(outputs, state.firstFileNumber, state.nextFileNumber)
  {
    assert state.All() == outputs;
  }

  function NewAt(level: nat, outputs: seq<File>, l: nat): seq<File> {
    if l == level + 1 then outputs else []
  }

  /** The outputs have numbers that no file of the lower level has, and the inputs are files. */
  ghost predicate Installable(v: Version, level: nat, upper: seq<File>, lower: seq<File>, outputs: seq<File>) {
    && ValidVersion(v) && level + 1 < NUM_LEVELS
    && (forall f :: f in upper ==> f in v.files[level])
    && (forall f :: f in lower ==> f in v.files[level + 1])
    && NewNumbers(v.files[level + 1], outputs)
  }

  lemma InstallEdit(v: Version, level: nat, upper: seq<File>, lower: seq<File>, outputs: seq<File>, edit: VersionEdit)
    requires Installable(v, level, upper, lower, outputs)
    requires edit == VersionEdit(Deletions(level, upper) + Deletions(level + 1, lower), Additions(level + 1, outputs))
    ensures SortedVersion(v) && ValidEdit(edit)
    ensures forall l :: 0 <= l < NUM_LEVELS ==> FreshAt(edit, l, FileSet(v.files[l]))
  {
    ValidIsSorted(v);
    hide ValidVersion;
    forall l | 0 <= l < NUM_LEVELS ensures FreshAt(edit, l, FileSet(v.files[l])) {
      EditSets(level, upper, lower, outputs, l);
      FreshEdit(v.files[l], NewAt(level, outputs, l), edit, l);
    }
  }

  lemma EditInstalls(v: Version, level: nat, upper: seq<File>, lower: seq<File>, outputs: seq<File>, edit: VersionEdit, w: Version)
    requires Installable(v, level, upper, lower, outputs)
    requires edit == VersionEdit(Deletions(level, upper) + Deletions(level + 1, lower), Additions(level + 1, outputs))
    requires |w.files| == NUM_LEVELS
    requires forall l :: 0 <= l < NUM_LEVELS ==> EditedLevel(v.files[l], edit, l, w.files[l])
    ensures Installed(v, w, level, upper, lower, outputs)
  {
    ValidIsSorted(v);
    hide ValidVersion, EditedLevel, NewNumbers;
    forall l | 0 <= l < NUM_LEVELS
      ensures if l == level then Replaced(v.files[l], upper, [], w.files[l])
              else if l == level + 1 then Replaced(v.files[l], lower, outputs, w.files[l])
              else w.files[l] == v.files[l]
    {
      EditSets(level, upper, lower, outputs, l);
      if l == level {
        NothingNew(v.files[l]);
        EditReplaces(v.files[l], upper, [], edit, l, w.files[l]);
      } else if l == level + 1 {
        EditReplaces(v.files[l], lower, outputs, edit, l, w.files[l]);
      } else {
        UntouchedLevel(v.files[l], edit, l, w.files[l]);
      }
    }
  }

  lemma NothingNew(files: seq<File>)
    ensures NewNumbers(files, [])
  {
  }

  lemma AreInstallable(v: Version, level: nat, upper: seq<File>, lower: seq<File>, outputs: seq<File>)
    requires ValidVersion(v) && level + 1 < |v.files| == NUM_LEVELS
    requires forall f :: f in upper ==> f in v.files[level]
    requires forall f :: f in lower ==> f in v.files[level + 1]
    requires NewNumbers(v.files[level + 1], outputs)
    ensures Installable(v, level, upper, lower, outputs)
  {
  }

  lemma MoveEdit(mem: seq<Entry>, imm: Option<seq<Entry>>, v: Version, history: seq<Option<Op>>, next: nat, level: nat, upper: seq<File>, edit: VersionEdit)
    requires GoodStore(mem, imm, v, history, next) && level + 1 < NUM_LEVELS
    requires |upper| == 1 && Chosen(v, level, upper, [])
    requires edit == VersionEdit(Deletions(level, upper) + Deletions(level + 1, []), Additions(level + 1, upper))
    ensures Installable(v, level, upper, [], upper)
    ensures SortedVersion(v) && ValidEdit(edit)
    ensures forall l :: 0 <= l < NUM_LEVELS ==> FreshAt(edit, l, FileSet(v.files[l]))
  {
    hide *;
    StoreParts(mem, imm, v, history, next);
    LevelCount(v);
    InputsAreFiles(v, level, upper, []);
    MoveIsNew(v, level, upper);
    AreInstallable(v, level, upper, [], upper);
    InstallEdit(v, level, upper, [], upper, edit);
  }

  lemma MoveIsNew(v: Version, level: nat, upper: seq<File>)
    requires UniqueNumbers(v) && level + 1 < |v.files|
    requires |upper| == 1 && upper[0] in v.files[level]
    ensures NewNumbers(v.files[level + 1], upper)
  {
    assert upper == [upper[0]];
  }

  lemma MoveInstalls(mem: seq<Entry>, imm: Option<seq<Entry>>, v: Version, history: seq<Option<Op>>, next: nat, level: nat, upper: seq<File>, edit: VersionEdit, w: Version)
    requires GoodStore(mem, imm, v, history, next) && level + 1 < NUM_LEVELS
    requires |upper| == 1 && Chosen(v, level, upper, []) && Installable(v, level, upper, [], upper)
    requires edit == VersionEdit(Deletions(level, upper) + Deletions(level + 1, []), Additions(level + 1, upper))
    requires |w.files| == NUM_LEVELS
    requires forall l :: 0 <= l < NUM_LEVELS ==> EditedLevel(v.files[l], edit, l, w.files[l])
    ensures GoodStore(mem, imm, w, history, next)
    ensures Everything(mem, imm, w) == Everything(mem, imm, v)
  {
    hide GoodStore, ValidVersion, EditedLevel, Chosen, NumbersBelow, UniqueNumbers, Installed, Rearranged, Layered, Genuine,
         UniqueSequences, NewNumbers, Deletions, Additions, Installable, Entries, Contents, NewerSet;
    StoreBasics(mem, imm, v, history, next);
    StoreParts(mem, imm, v, history, next);
    EditInstalls(v, level, upper, [], upper, edit, w);
    InstallableParts(v, level, upper, [], upper);
    MoveNumbers(v, w, level, upper, next);
    MoveRearranges(v, w, level, upper);
    RearrangedIsValid(v, w, level, upper, [], Contents(upper), upper);
    FewerEntries(mem, imm, v, w, history);
    assert GoodStore(mem, imm, w, history, next) by {
      Assemble(mem, imm, w, history, next);
    }
  }

  lemma InstallableParts(v: Version, level: nat, upper: seq<File>, lower: seq<File>, outputs: seq<File>)
    requires Installable(v, level, upper, lower, outputs)
    ensures |v.files| == NUM_LEVELS && level + 1 < NUM_LEVELS && NewNumbers(v.files[level + 1], outputs)
    ensures |upper| > 0 ==> upper[0] in v.files[level]
  {
    assert |upper| > 0 ==> upper[0] in upper;
  }

  lemma Assemble(mem: seq<Entry>, imm: Option<seq<Entry>>, v: Version, history: seq<Option<Op>>, next: nat)
    requires ValidVersion(v) && NumbersBelow(v, next) && UniqueNumbers(v)
    requires Layered(mem, imm, v) && |history| < MAX_SEQUENCE && Genuine(Everything(mem, imm, v), history)
    ensures GoodStore(mem, imm, v, history, next)
  {
  }

  lemma MoveRearranges(v: Version, w: Version, level: nat, upper: seq<File>)
    requires ValidVersion(v) && |upper| == 1 && Installed(v, w, level, upper, [], upper) && Chosen(v, level, upper, [])
    requires NewNumbers(v.files[level + 1], upper)
    ensures Rearranged(v, w, level, upper, [], Contents(upper), upper)
    ensures Entries(w) == Entries(v)
  {
    hide ValidVersion, Chosen, Installed, NewNumbers, WellFormed, Newer, SortedTable, Entries, Contents, Elements;
    InstalledLevel(v, w, level, upper, [], upper);
    InputsInOrder(v, level, upper, []);
    assert upper == [upper[0]];
    ContentsSorted(upper);
    ContentsMembers(upper);
    assert upper + [] == upper;
    EntriesBefore(v, level, upper, [], Contents(upper));
    EntriesAfter(v, w, level, upper, [], upper);
  }

  lemma MoveNumbers(v: Version, w: Version, level: nat, upper: seq<File>, next: nat)
    requires ValidVersion(v) && |upper| == 1 && Installed(v, w, level, upper, [], upper) && upper[0] in v.files[level]
    requires NumbersBelow(v, next) && UniqueNumbers(v)
    ensures NumbersBelow(w, next) && UniqueNumbers(w)
  {
    ValidIsSorted(v);
    hide ValidVersion;
    var f := upper[0];
    forall l, g | 0 <= l < NUM_LEVELS && g in w.files[l] ensures MovedFrom(v, level, f, l, g) {
    }
    hide Installed;
    forall l1, l2, g, h | 0 <= l1 < l2 < NUM_LEVELS && g in w.files[l1] && h in w.files[l2] ensures g.number != h.number {
      MovedApart(v, level, f, l1, l2, g, h);
    }
  }

  /** A file at level `l` after the move of `f` away from `level`. */
  ghost predicate MovedFrom(v: Version, level: nat, f: File, l: nat, g: File)
    requires |v.files| == NUM_LEVELS && level < NUM_LEVELS && l < NUM_LEVELS
  {
    if l == level + 1 && g == f then g in v.files[level] else g in v.files[l] && (l == level ==> g != f)
  }

  lemma MovedApart(v: Version, level: nat, f: File, l1: nat, l2: nat, g: File, h: File)
    requires |v.files| == NUM_LEVELS && UniqueNumbers(v) && level < NUM_LEVELS && DistinctNumbers(v.files[level])
    requires f in v.files[level] && l1 < l2 < NUM_LEVELS
    requires MovedFrom(v, level, f, l1, g) && MovedFrom(v, level, f, l2, h)
    ensures g.number != h.number
  {
    if g.number == h.number {
      if l1 == level && l2 == level + 1 && h == f {
        SameNumber(v.files[level], g, h);
      }
    }
  }

  lemma BelowAt(v: Version, n: nat, l: nat)
    requires NumbersBelow(v, n) && l < |v.files|
    ensures forall f :: f in v.files[l] ==> f.number < n
  {
  }

  lemma CompactEdit(mem: seq<Entry>, imm: Option<seq<Entry>>, v: Version, history: seq<Option<Op>>, from: nat, to: nat, level: nat,
                    upper: seq<File>, lower: seq<File>, outputs: seq<File>, edit: VersionEdit)
    requires GoodStore(mem, imm, v, history, from) && level + 1 < NUM_LEVELS && Chosen(v, level, upper, lower)
    requires FreshNumbers(outputs, from, to)
    requires edit == VersionEdit(Deletions(level, upper) + Deletions(level + 1, lower), Additions(level + 1, outputs))
    ensures Installable(v, level, upper, lower, outputs)
    ensures SortedVersion(v) && ValidEdit(edit)
    ensures forall l :: 0 <= l < NUM_LEVELS ==> FreshAt(edit, l, FileSet(v.files[l]))
  {
    hide *;
    StoreParts(mem, imm, v, history, from);
    LevelCount(v);
    InputsAreFiles(v, level, upper, lower);
    BelowAt(v, from, level + 1);
    FreshAreNew(v.files[level + 1], outputs, from, to);
    AreInstallable(v, level, upper, lower, outputs);
    InstallEdit(v, level, upper, lower, outputs, edit);
  }

  lemma CompactInstalls(mem: seq<Entry>, imm: Option<seq<Entry>>, v: Version, history: seq<Option<Op>>, from: nat, to: nat, level: nat,
                        upper: seq<File>, lower: seq<File>, input: seq<Entry>, outputs: seq<File>, oldest: nat, edit: VersionEdit, w: Version)
    requires GoodStore(mem, imm, v, history, from)
    requires Installable(v, level, upper, lower, outputs)
    requires Chosen(v, level, upper, lower)
    requires Merged(input, upper + lower) && Contents(outputs) == Kept(v, level, input, |input|, oldest)
    requires GoodOutputs(outputs) && FreshNumbers(outputs, from, to) && from <= to
    requires edit == VersionEdit(Deletions(level, upper) + Deletions(level + 1, lower), Additions(level + 1, outputs))
    requires |w.files| == NUM_LEVELS
    requires forall l :: 0 <= l < NUM_LEVELS ==> EditedLevel(v.files[l], edit, l, w.files[l])
    ensures GoodStore(mem, imm, w, history, to)
    ensures SameReads(Everything(mem, imm, v), Everything(mem, imm, w), oldest)
            <==> NothingUncovered(v, level, input, oldest, Everything(mem, imm, v), LeftOut(v.files[level + 1], lower))
    ensures ClosedBelow(v.files[level + 1], lower) ==> SameReads(Everything(mem, imm, v), Everything(mem, imm, w), oldest)
  {
    StoreBasics(mem, imm, v, history, from);
    EditInstalls(v, level, upper, lower, outputs, edit, w);
    hide ValidVersion, EditedLevel, Chosen, Installed, NumbersBelow, UniqueNumbers, Merged, GoodOutputs, FreshNumbers,
         ClosedBelow, Layered, Genuine, Installable, NothingUncovered, SameReads, Entries, NewerSet, UniqueSequences;
    assert Compacted(v, w, level, upper, lower, input, outputs, oldest) by {
      LevelFits(v, level, upper, lower, outputs);
    }
    CompactedRearranges(v, w, level, upper, lower, input, outputs, oldest, from, to);
    NumbersKept(v, w, level, upper, lower, outputs, from, to);
    EntriesShrink(v, w, level, upper, lower, input, outputs);
    LevelFits(v, level, upper, lower, outputs);
    var newer := Elements(mem) + ImmEntries(imm);
    CompactionKeepsReadsIff(v, w, level, upper, lower, input, outputs, oldest, newer);
    if ClosedBelow(v.files[level + 1], lower) {
      CompactionKeepsReads(v, w, level, upper, lower, input, outputs, oldest, newer);
    }
    RearrangedIsValid(v, w, level, upper, lower, input, outputs);
    FewerEntries(mem, imm, v, w, history);
  }

  lemma LevelFits(v: Version, level: nat, upper: seq<File>, lower: seq<File>, outputs: seq<File>)
    requires Installable(v, level, upper, lower, outputs)
    ensures level + 1 < NUM_LEVELS
  {
  }

  lemma StillFaithful(a: set<Entry>, b: set<Entry>, history: seq<Option<Op>>, oldest: nat)
    requires Faithful(a, history, oldest) && SameReads(a, b, oldest)
    ensures Faithful(b, history, oldest)
  {
  }

  lemma FewerEntries(mem: seq<Entry>, imm: Option<seq<Entry>>, v: Version, w: Version, history: seq<Option<Op>>)
    requires Layered(mem, imm, v) && Genuine(Everything(mem, imm, v), history) && Entries(w) <= Entries(v)
    ensures Layered(mem, imm, w) && Genuine(Everything(mem, imm, w), history)
  {
  }

  // ---------------------------------------------------------------- the database object

  class DBImpl {
    var mem: seq<Entry>
    var imm: Option<seq<Entry>>
    var version: Version
    var lastSequence: nat
    var nextFileNumber: nat
    var snapshots: seq<nat>  // in the order they were taken
    ghost var history: seq<Option<Op>>  // every update ever made

    /** The oldest sequence number that can still be read. */
    function SmallestSnapshot(): nat
      reads this
    {
      if snapshots == [] then lastSequence else snapshots[0]
    }

    ghost predicate Valid()
      reads this
    {
      && GoodStore(mem, imm, version, history, nextFileNumber)
      && |history| == lastSequence
      && SnapshotsOk(snapshots, lastSequence)
      && Faithful(Everything(mem, imm, version), history, SmallestSnapshot())
    }

    constructor ()
      ensures Valid() && history == [] && snapshots == [] && lastSequence == 0
    {
      mem, imm := [], None;
      version := Version([[], [], [], [], [], [], []]);
      lastSequence, nextFileNumber, snapshots, history := 0, 2, [], [];
      new;
      EmptyStore(version);
    }

    /** Write: the updates of one batch get the next sequence numbers, in order. */
    method Write(batch: seq<Op>)
      requires Valid()
      requires lastSequence + |batch| < MAX_SEQUENCE
      requires forall i :: 0 <= i < |batch| ==> batch[i].kind.Value? || batch[i].value == ""
      modifies this
      ensures Valid()
      ensures history == old(history) + Made(batch) && lastSequence == old(lastSequence) + |batch|
      ensures snapshots == old(snapshots) && version == old(version) && imm == old(imm)
    {
      hide GoodStore, Faithful;
      ghost var oldest := SmallestSnapshot();
      var i := 0;
      while i < |batch|
        invariant 0 <= i <= |batch|
        invariant history == old(history) + Made(batch[..i])
        invariant lastSequence == old(lastSequence) && snapshots == old(snapshots) && version == old(version) && imm == old(imm)
        invariant GoodStore(mem, imm, version, history, nextFileNumber)
        invariant Faithful(Everything(mem, imm, version), history, oldest)
      {
        var op := batch[i];
        var e := Entry(InternalKey(op.user, lastSequence + 1 + i, op.kind), op.value);
        AddToMem(mem, imm, version, history, nextFileNumber, op, e, oldest);
        mem := InsertEntry(mem, e);
        history := history + [Some(op)];
        i := i + 1;
      }
      assert batch[..i] == batch;
      lastSequence := lastSequence + |batch|;
      FaithfulLater(Everything(mem, imm, version), history, oldest, SmallestSnapshot());
    }

    /** Get: memtable, then immutable memtable, then the version. What it returns is what the plain
        map holds at the snapshot. */
    method Get(user: UserKey, snapshot: Option<nat>) returns (r: Option<string>)
      requires Valid()
      requires snapshot.Some? ==> snapshot.value in snapshots
      ensures r == Lookup(MapAfter(history, if snapshot.Some? then snapshot.value else lastSequence), user)
    {
      var s := if snapshot.Some? then snapshot.value else lastSequence;
      assert SmallestSnapshot() <= s <= |history|;
      ReadsInLayers(mem, imm, version, history, nextFileNumber, user, s);
      assert Answer(Probe(Everything(mem, imm, version), user, s)) == Lookup(MapAfter(history, s), user);
      hide GoodStore, Faithful;
      var found := SearchTable(mem, user, s);
      if found == NotHere && imm.Some? {
        found := SearchTable(imm.value, user, s);
      }
      if found == NotHere {
        found := Versions.Get(version, user, s);
      }
      r := Answer(found);
    }

    method GetSnapshot() returns (s: nat)
      requires Valid()
      modifies this
      ensures Valid() && s == lastSequence && snapshots == old(snapshots) + [s]
      ensures history == old(history) && version == old(version)
    {
      hide GoodStore, Faithful;
      s := lastSequence;
      snapshots := snapshots + [s];
    }

    method ReleaseSnapshot(i: nat)
      requires Valid() && i < |snapshots|
      modifies this
      ensures Valid() && snapshots == old(snapshots)[..i] + old(snapshots)[i + 1..]
      ensures history == old(history) && version == old(version)
    {
      hide GoodStore;
      ghost var oldest := SmallestSnapshot();
      snapshots := snapshots[..i] + snapshots[i + 1..];
      FaithfulLater(Everything(mem, imm, version), history, oldest, SmallestSnapshot());
    }

    /** The switch to a new memtable in MakeRoomForWrite. */
    method SwitchMemTable()
      requires Valid() && imm == None
      modifies this
      ensures Valid() && imm == Some(old(mem)) && mem == []
      ensures history == old(history) && snapshots == old(snapshots) && version == old(version)
    {
      assert Everything([], Some(mem), version) == Everything(mem, None, version);
      imm := Some(mem);
      mem := [];
    }

    /** CompactMemTable: the immutable memtable becomes a table file. */
    method CompactMemTable(size: nat, maxGrandParentOverlapBytes: nat)
      requires Valid() && imm.Some?
      modifies this
      ensures Valid() && imm == None && mem == old(mem)
      ensures history == old(history) && snapshots == old(snapshots)
      ensures Everything(mem, imm, version) == old(Everything(mem, imm, version))
    {
      hide GoodStore, Faithful, ValidVersion, FreshAt, ValidEdit, SortedVersion, EditedLevel, Everything, Entries, Elements, SnapshotsOk,
           NewerSet, Newer, SortedTable, FreshFile, NoOverlap, NumbersBelow;
      if imm.value == [] {
        EmptyImm(mem, imm, version, history, nextFileNumber);
        imm := None;
      } else {
        var t := imm.value;
        var f := File(nextFileNumber, size, t[0].key, t[|t| - 1].key, t);
        ImmIsFresh(mem, imm, version, history, nextFileNumber, f);
        var level := PickLevelForMemTableOutput(version, Range(Some(f.smallest.user), Some(f.largest.user)), maxGrandParentOverlapBytes);
        var edit := VersionEdit([], [(level, f)]);
        FlushEdit(version, level, f, edit);
        var w := LogAndApply(version, edit);
        FlushInstalls(mem, imm, version, history, nextFileNumber, level, f, edit, w);
        version := w;
        imm := None;
        nextFileNumber := nextFileNumber + 1;
      }
    }

    /** The trivial move of BackgroundCompaction: one file goes down a level, nothing is rewritten. */
    method TrivialMove(level: nat, upper: seq<File>)
      requires Valid() && level + 1 < NUM_LEVELS
      requires |upper| == 1 && Chosen(version, level, upper, [])
      modifies this
      ensures Valid()
      ensures history == old(history) && snapshots == old(snapshots) && mem == old(mem) && imm == old(imm)
      ensures Everything(mem, imm, version) == old(Everything(mem, imm, version))
    {
      hide GoodStore, Faithful, Chosen, ValidVersion, FreshAt, ValidEdit, SortedVersion, Deletions, Additions, Installable, EditedLevel,
           Everything, Entries, Elements, SnapshotsOk;
      var edit := CompactionEdit(level, upper, [], upper);
      MoveEdit(mem, imm, version, history, nextFileNumber, level, upper, edit);
      var w := LogAndApply(version, edit);
      MoveInstalls(mem, imm, version, history, nextFileNumber, level, upper, edit, w);
      version := w;
    }

    /** The merging part of BackgroundCompaction: DoCompactionWork and InstallCompactionResults.
        When the work fails or is cut short, nothing is installed. Otherwise all is kept but what
        readers see, and that exactly if no dropped deletion uncovers a value in a left-out lower file. */
    method CompactFiles(level: nat, upper: seq<File>, lower: seq<File>) returns (ok: bool)
      requires Valid() && level + 1 < NUM_LEVELS
      requires Chosen(version, level, upper, lower)
      modifies this
      ensures history == old(history) && snapshots == old(snapshots) && mem == old(mem) && imm == old(imm) && lastSequence == old(lastSequence)
      ensures GoodStore(mem, imm, version, history, nextFileNumber)
      ensures !ok ==> version == old(version) && Valid()
      ensures exists input :: Merged(input, upper + lower) &&
                (ok ==> (SameReads(old(Everything(mem, imm, version)), Everything(mem, imm, version), SmallestSnapshot())
                         <==> NothingUncovered(old(version), level, input, SmallestSnapshot(), old(Everything(mem, imm, version)),
                                               LeftOut(old(version).files[level + 1], lower))))
      ensures SameReads(old(Everything(mem, imm, version)), Everything(mem, imm, version), SmallestSnapshot()) ==> Valid()
      ensures ClosedBelow(old(version).files[level + 1], lower) ==> Valid()
    {
      hide GoodStore, Faithful, Chosen, ClosedBelow, ValidVersion, UniqueSequences, NewerSet, Merged, GoodOutputs, FreshNumbers, BaseLevel,
           FreshAt, ValidEdit, SortedVersion, Deletions, Additions, Installable, EditedLevel, SortedTable, Contents, Kept, Entries, SameReads,
           NothingUncovered, LeftOut, Everything;
      ghost var before := Everything(mem, imm, version);
      StoreBasics(mem, imm, version, history, nextFileNumber);
      var smallest := SmallestSnapshot();
      var c := new Compaction(version, level);
      var state := new CompactionState(nextFileNumber);
      var input := MakeInput(version, level, upper, lower);
      InputSorted(input, upper, lower);
      ok := DoCompactionWork(c, state, input, smallest);
      ghost var next := nextFileNumber;
      nextFileNumber := state.nextFileNumber;
      StoreLater(mem, imm, version, history, next, nextFileNumber);
      if ok {
        var outputs := state.outputs;
        OutputsFresh(state, outputs);
        var edit := CompactionEdit(level, upper, lower, outputs);
        CompactEdit(mem, imm, version, history, next, nextFileNumber, level, upper, lower, outputs, edit);
        var w := LogAndApply(version, edit);
        CompactInstalls(mem, imm, version, history, next, nextFileNumber, level, upper, lower, input, outputs, smallest, edit, w);
        version := w;
        if SameReads(before, Everything(mem, imm, version), smallest) {
          StillFaithful(before, Everything(mem, imm, version), history, smallest);
        }
      }
    }
  }
}
