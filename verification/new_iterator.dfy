/** The iterator that a user of the database gets: the rows of a plain map, read through the merged
    memtables, tables and levels (NewIterator and NewInternalIterator of db/db_impl.cc, AddIterators of
    db/version_set.cc). */
module NewIterators {
  import opened DbFormat
  import opened Cursors
  import opened MergingIterators
  import opened DbIterators
  import opened Versions
  import opened Compactions
  import opened CompactionReads
  import opened MakeInputs
  import opened Databases
  import opened StoreSteps
  import opened StoreInvariant
  import R = StoreRecovery
  import opened StoreContents
  import opened StoreHistory
  import opened StepsKeepHistory
  import opened StoreLife
  import opened StoreReads

  // ---------------------------------------------------------------- the tables that are merged

  /** The tables are sorted, share no entry, and together hold `es`. */
  ghost predicate Parts(tables: seq<seq<Entry>>, es: set<Entry>) {
    && (forall i :: 0 <= i < |tables| ==> SortedTable(tables[i]))
    && (forall i, j, e :: 0 <= i < j < |tables| && e in tables[i] ==> e !in tables[j])
    && (forall e :: InSome(tables, e) <==> e in es)
  }

  lemma OnePart(t: seq<Entry>)
    requires SortedTable(t)
    ensures Parts([t], Elements(t))
  {
    hide SortedTable;
    forall e ensures InSome([t], e) <==> e in Elements(t) {
      assert [t][0] == t;
    }
  }

  lemma AddPart(tables: seq<seq<Entry>>, es: set<Entry>, t: seq<Entry>)
    requires Parts(tables, es) && SortedTable(t) && forall e :: e in t ==> e !in es
    ensures Parts(tables + [t], es + Elements(t))
  {
    hide SortedTable;
    var r := tables + [t];
    forall i, j, e | 0 <= i < j < |r| && e in r[i] ensures e !in r[j] {
      if j == |tables| {
        assert InSome(tables, e);
      }
    }
    forall e ensures InSome(r, e) <==> e in es + Elements(t) {
      if InSome(tables, e) {
        var i :| 0 <= i < |tables| && e in tables[i];
        assert r[i] == tables[i];
      }
      if InSome(r, e) {
        var i :| 0 <= i < |r| && e in r[i];
        assert i < |tables| ==> tables[i] == r[i];
      }
      assert r[|tables|] == t;
    }
  }

  lemma PartsCompare(tables: seq<seq<Entry>>, es: set<Entry>)
    requires Parts(tables, es) && UniqueSequences(es)
    ensures AllComparable(tables)
    ensures forall i :: 0 <= i < |tables| ==> SortedTable(tables[i])
  {
    hide SortedTable;
    forall i, j | 0 <= i < j < |tables| ensures Comparable(tables[i], tables[j]) {
      forall x: Entry, y: Entry | x in tables[i] && y in tables[j] ensures Less(x.key, y.key) || Less(y.key, x.key) {
        assert InSome(tables, x) && InSome(tables, y) && x != y;
      }
    }
  }

  /** The entries of the first `n` levels. */
  ghost function LevelsUpTo(v: Version, n: nat): set<Entry>
    requires n <= |v.files|
  {
    set l, f, e | 0 <= l < n && f in v.files[l] && e in f.table :: e
  }

  lemma LevelIsApart(v: Version, l: nat, e: Entry)
    requires ValidVersion(v) && l < NUM_LEVELS && e in FileEntries(v.files[l])
    ensures e !in LevelsUpTo(v, l)
  {
    hide ValidVersion;
    assert |v.files| == NUM_LEVELS by { LevelCount(v); }
    var f :| f in v.files[l] && e in f.table;
    forall k, g | 0 <= k < l && g in v.files[k] ensures e !in g.table {
      if e in g.table {
        OneFile(v, k, g, l, f, e);
      }
    }
  }

  lemma NextLevel(v: Version, l: nat)
    requires l < |v.files|
    ensures LevelsUpTo(v, l + 1) == LevelsUpTo(v, l) + FileEntries(v.files[l])
  {
  }

  lemma NextFile(files: seq<File>, i: nat)
    requires i < |files|
    ensures FileEntries(files[..i + 1]) == FileEntries(files[..i]) + Elements(files[i].table)
  {
    assert files[..i + 1] == files[..i] + [files[i]];
    forall e | e in FileEntries(files[..i]) + Elements(files[i].table) ensures e in FileEntries(files[..i + 1]) {
      if e in FileEntries(files[..i]) {
        var f :| f in files[..i] && e in f.table;
        assert f in files[..i + 1];
      } else {
        assert files[i] in files[..i + 1];
      }
    }
  }

  lemma FileIsApart(v: Version, i: nat, e: Entry)
    requires ValidVersion(v) && i < |v.files[0]| && e in v.files[0][i].table
    ensures e !in FileEntries(v.files[0][..i])
  {
    hide WellFormedFiles, SortedLevel, LevelsByAge, NumberedByAge, SortedBySmallest;
    assert DistinctNumbers(v.files[0]);
    hide ValidVersion;
    if e in FileEntries(v.files[0][..i]) {
      var f :| f in v.files[0][..i] && e in f.table;
      var j :| 0 <= j < i && v.files[0][..i][j] == f;
      assert v.files[0][j] == f;
      OneFile(v, 0, f, 0, v.files[0][i], e);
    }
  }

  lemma LevelTable(v: Version, l: nat)
    requires ValidVersion(v) && 0 < l < NUM_LEVELS
    ensures SortedTable(Contents(v.files[l])) && Elements(Contents(v.files[l])) == FileEntries(v.files[l])
  {
    assert WellFormedFiles(v.files[l]) && SortedLevel(v.files[l]);
    hide ValidVersion, WellFormedFiles, SortedLevel, SortedTable, Contents;
    ContentsSorted(v.files[l]);
    ContentsMembers(v.files[l]);
  }

  lemma FileTable(v: Version, i: nat)
    requires ValidVersion(v) && i < |v.files[0]|
    ensures SortedTable(v.files[0][i].table)
  {
    assert WellFormedFiles(v.files[0]) && v.files[0][i] in v.files[0];
  }

  /** Version::AddIterators: one iterator for each file of level 0, and one for each other level that
      has files, which runs over its tables one behind the other. */
  method AddIterators(v: Version, list: seq<seq<Entry>>, ghost above: set<Entry>) returns (r: seq<seq<Entry>>)
    requires ValidVersion(v) && Parts(list, above) && forall e :: e in above ==> e !in Entries(v)
    ensures Parts(r, above + Entries(v))
  {
    hide ValidVersion, Parts, SortedTable, FileEntries, LevelsUpTo, Elements, Contents, Entries;
    assert |v.files| == NUM_LEVELS by { LevelCount(v); }
    r := list;
    var i := 0;
    NoEntries(v);
    assert v.files[0][..0] == [] && above + {} == above;
    while i < |v.files[0]|
      invariant 0 <= i <= |v.files[0]| && Parts(r, above + FileEntries(v.files[0][..i]))
    {
      FileTable(v, i);
      forall e | e in v.files[0][i].table ensures e !in above + FileEntries(v.files[0][..i]) {
        FileIsApart(v, i, e);
        IsEntry(v, 0, v.files[0][i], e);
      }
      AddPart(r, above + FileEntries(v.files[0][..i]), v.files[0][i].table);
      NextFile(v.files[0], i);
      assert above + FileEntries(v.files[0][..i]) + Elements(v.files[0][i].table) == above + FileEntries(v.files[0][..i + 1]);
      r := r + [v.files[0][i].table];
      i := i + 1;
    }
    assert v.files[0][..i] == v.files[0];
    NextLevel(v, 0);
    assert {} + FileEntries(v.files[0]) == FileEntries(v.files[0]);
    var level := 1;
    while level < NUM_LEVELS
      invariant 1 <= level <= NUM_LEVELS && Parts(r, above + LevelsUpTo(v, level))
    {
      NextLevel(v, level);
      LevelTable(v, level);
      if v.files[level] != [] {
        forall e | e in Contents(v.files[level]) ensures e !in above + LevelsUpTo(v, level) {
          assert e in FileEntries(v.files[level]) by { InElements(Contents(v.files[level]), e); }
          LevelIsApart(v, level, e);
          IsLevelEntry(v, level, e);
        }
        AddPart(r, above + LevelsUpTo(v, level), Contents(v.files[level]));
        r := r + [Contents(v.files[level])];
      } else {
        NoFileEntries();
        assert above + LevelsUpTo(v, level) == above + LevelsUpTo(v, level) + FileEntries(v.files[level]);
      }
      assert above + LevelsUpTo(v, level) + FileEntries(v.files[level]) == above + LevelsUpTo(v, level + 1);
      level := level + 1;
    }
    assert LevelsUpTo(v, NUM_LEVELS) == Entries(v) by { AllLevels(v); }
  }

  lemma NoFileEntries()
    ensures FileEntries([]) == {}
  {
  }

  lemma NoEntries(v: Version)
    requires |v.files| == NUM_LEVELS
    ensures FileEntries([]) == {} && LevelsUpTo(v, 0) == {}
  {
  }

  lemma InElements(t: seq<Entry>, e: Entry)
    ensures e in Elements(t) <==> e in t
  {
  }

  lemma IsEntry(v: Version, l: nat, f: File, e: Entry)
    requires l < |v.files| && f in v.files[l] && e in f.table
    ensures e in Entries(v)
  {
  }

  lemma IsLevelEntry(v: Version, l: nat, e: Entry)
    requires l < |v.files| && e in FileEntries(v.files[l])
    ensures e in Entries(v)
  {
  }

  lemma AllLevels(v: Version)
    ensures LevelsUpTo(v, |v.files|) == Entries(v)
  {
  }

  // ---------------------------------------------------------------- what the iterator shows

  lemma LayersApart(x: Store, mem: seq<Entry>, imm: Option<seq<Entry>>)
    requires StoreInv(x) && MemTables(x.state, mem, imm)
    ensures ValidVersion(x.state.version) && SortedTable(mem) && (imm.Some? ==> SortedTable(imm.value))
    ensures ImmEntries(imm) == ImmSet(x.state)
    ensures forall e :: e in Elements(mem) ==> e !in ImmEntries(imm)
    ensures forall e :: e in Elements(mem) + ImmEntries(imm) ==> e !in Entries(x.state.version)
    ensures UniqueSequences(Elements(mem) + ImmEntries(imm) + Entries(x.state.version))
  {
    hide Inv, Good, HistoryOk, FlushPlaced, JobOk, Entries, SortedTable, ValidVersion, UniqueSequences;
    var v := x.state.version;
    GoodGenuine(v, Unsaved(x.state), x.history, Floor(x));
    GoodIsUnique(v, Unsaved(x.state), x.history, Floor(x));
    UnsavedHolds(x.state);
    UniquePart(Unsaved(x.state) + Entries(v), Elements(mem) + ImmEntries(imm) + Entries(v));
    NewerIsApart(Unsaved(x.state), Entries(v));
    NewerIsApart(x.state.mem + InFlight(x.state), ImmSet(x.state));
  }

  lemma NewerIsApart(a: set<Entry>, b: set<Entry>)
    requires NewerSet(a, b)
    ensures forall e :: e in a ==> e !in b
  {
  }

  /** The rows are those of the map: each live key once, in order, with its value. */
  ghost predicate ShowsMap(rows: seq<(UserKey, string)>, m: map<UserKey, string>) {
    && StrictlyIncreasing(rows)
    && forall user, value :: (user, value) in rows <==> Lookup(m, user) == Some(value)
  }

  lemma RowsShowMap(t: seq<Entry>, es: set<Entry>, s: nat, m: map<UserKey, string>)
    requires SortedTable(t) && Elements(t) == es && UniqueSequences(es)
    requires forall user :: Answer(Probe(es, user, s)) == Lookup(m, user)
    ensures ShowsMap(Rows(t, |t|, s), m)
  {
    hide SortedTable, UniqueSequences, Probe, Rows, Elements, Lookup;
    forall user: UserKey, value: string ensures (user, value) in Rows(t, |t|, s) <==> Lookup(m, user) == Some(value) {
      RowsAreTheLiveKeys(t, s, user, value);
      assert Answer(Probe(es, user, s)) == Lookup(m, user);
    }
    RowsIncrease(t, |t|, s);
  }

  lemma MergedElements(tables: seq<seq<Entry>>, es: set<Entry>)
    requires Parts(tables, es)
    ensures Elements(MergeAll(tables)) == es
  {
    hide MergeAll, SortedTable, InSome;
    MergeAllMembers(tables);
  }

  lemma InternalReads(x: Store, mem: seq<Entry>, imm: Option<seq<Entry>>, es: set<Entry>, s: nat)
    requires StoreInv(x) && MemTables(x.state, mem, imm) && Oldest(x) <= s <= x.state.lastSequence
    requires es == Elements(mem) + ImmEntries(imm) + Entries(x.state.version)
    ensures s <= |x.history|
    ensures forall user :: Answer(Probe(es, user, s)) == Lookup(MapAfter(x.history, s), user)
  {
    hide StoreInv, Probe, Entries, MapAfter, Lookup, Oldest, R.Contents, SortedTable;
    PastIsLogged(x);
    assert ImmEntries(imm) == ImmSet(x.state);
    assert es == x.state.mem + (ImmSet(x.state) + Entries(x.state.version));
    forall user ensures Answer(Probe(es, user, s)) == Lookup(MapAfter(x.history, s), user) {
      InFlightUnseen(x, user, s);
      UpAnswers(x, user, s);
    }
  }

  /** NewIterator at any moment of a run, at a live snapshot or at the last sequence number: a database
      iterator over the merger of the memtables, the tables of level 0 and the other levels. Its table
      of rows is the map that the updates up to the snapshot have left. */
  method NewIterator(x: Store, mem: seq<Entry>, imm: Option<seq<Entry>>, snapshot: nat) returns (it: DBIter)
    requires StoreInv(x) && MemTables(x.state, mem, imm) && Oldest(x) <= snapshot <= x.state.lastSequence
    ensures snapshot <= |x.history|
    ensures fresh(it) && it.Ok() && !it.valid && ShowsMap(it.Table(), MapAfter(x.history, snapshot))
  {
    hide StoreInv, MemTables, Parts, Entries, Elements, SortedTable, ValidVersion, UniqueSequences, MergingIterator.Ok, ShowsMap, MapAfter, Rows;
    LayersApart(x, mem, imm);
    var list := [mem];
    OnePart(mem);
    if imm.Some? {
      forall e | e in imm.value ensures e !in Elements(mem) {
        InElements(imm.value, e);
      }
      AddPart(list, Elements(mem), imm.value);
      list := list + [imm.value];
    } else {
      assert Elements(mem) + {} == Elements(mem);
    }
    assert Parts(list, Elements(mem) + ImmEntries(imm));
    list := AddIterators(x.state.version, list, Elements(mem) + ImmEntries(imm));
    ghost var es := Elements(mem) + ImmEntries(imm) + Entries(x.state.version);
    PartsCompare(list, es);
    MergedElements(list, es);
    InternalReads(x, mem, imm, es, snapshot);
    var internal := NewMergingIterator(list);
    RowsShowMap(internal.merged, es, snapshot, MapAfter(x.history, snapshot));
    it := new DBIter(internal, snapshot);
  }
}
