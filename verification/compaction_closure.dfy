/** A concrete compaction that a reader notices: the input selection closes only the upper level
    over user keys (SetupOtherInputs of db/version_set.cc). */
module CompactionClosure {
  import opened DbFormat
  import opened Versions
  import opened CompactionInputs
  import opened Compactions
  import opened CompactionReads

  function One(user: UserKey, sequence: nat, kind: ValueType): Entry {
    Entry(InternalKey(user, sequence, kind), if kind.Value? then "v" else "")
  }

  function TableFile(number: nat, t: seq<Entry>): File
    requires t != []
  {
    File(number, 1, t[0].key, t[|t| - 1].key, t)
  }

  function Newest1(): Entry { One(1, 10, Value) }
  function Older1(): Entry { One(1, 9, Value) }
  function Gone5(): Entry { One(5, 8, Deletion) }
  function Value5(): Entry { One(5, 3, Value) }

  /** The upper input, the lower input it overlaps, and the file that continues the lower one. */
  function Upper(): File { TableFile(4, [Newest1()]) }
  function Lower(): File { TableFile(5, [Older1(), Gone5()]) }
  function Continued(): File { TableFile(6, [Value5()]) }
  function Output(): File { TableFile(7, [Newest1(), Older1()]) }

  function Before(): Version { Version([[], [Upper()], [Lower(), Continued()], [], [], [], []]) }
  function After(): Version { Version([[], [], [Output(), Continued()], [], [], [], []]) }

  function Input(): seq<Entry> { [Newest1(), Older1(), Gone5()] }

  lemma BeforeFiles(l: nat, f: File)
    requires l < NUM_LEVELS && f in Before().files[l]
    ensures (l == 1 && f == Upper()) || (l == 2 && (f == Lower() || f == Continued()))
  {
  }

  lemma TwoFiles(f: File, g: File)
    requires WellFormed(f) && WellFormed(g) && f.number < g.number && Less(f.largest, g.smallest) && Less(f.smallest, g.smallest)
    ensures WellFormedFiles([f, g]) && DistinctNumbers([f, g]) && SortedBySmallest([f, g]) && SortedLevel([f, g])
    ensures WellFormedFiles([f]) && DistinctNumbers([f]) && SortedBySmallest([f]) && SortedLevel([f])
    ensures WellFormedFiles([]) && DistinctNumbers([]) && SortedBySmallest([]) && SortedLevel([]) && NumberedByAge([])
  {
  }

  lemma FilesAreWellFormed()
    ensures WellFormed(Upper()) && WellFormed(Lower()) && WellFormed(Continued())
    ensures Newer(Upper().table, Lower().table) && Newer(Upper().table, Continued().table)
  {
  }

  lemma LevelIsValid(l: nat)
    requires l < NUM_LEVELS
    ensures var files := Before().files[l];
            WellFormedFiles(files) && DistinctNumbers(files) && SortedBySmallest(files) && SortedLevel(files)
  {
    FilesAreWellFormed();
    TwoFiles(Upper(), Continued());
    TwoFiles(Lower(), Continued());
    hide *;
    assert Before().files[l] == if l == 1 then [Upper()] else if l == 2 then [Lower(), Continued()] else [] by { LevelFiles(l); }
  }

  lemma LevelFiles(l: nat)
    requires l < NUM_LEVELS
    ensures |Before().files| == NUM_LEVELS
    ensures Before().files[l] == if l == 1 then [Upper()] else if l == 2 then [Lower(), Continued()] else []
  {
  }

  lemma BeforeIsValid()
    ensures ValidVersion(Before())
  {
    hide WellFormedFiles, DistinctNumbers, SortedBySmallest, SortedLevel, LevelsByAge, TableFile;
    AgesBefore();
    forall l | 0 <= l < NUM_LEVELS
      ensures var files := Before().files[l];
              WellFormedFiles(files) && DistinctNumbers(files) && SortedBySmallest(files) && SortedLevel(files)
    {
      LevelIsValid(l);
    }
    LevelFiles(0);
  }

  lemma AgesBefore()
    ensures LevelsByAge(Before())
  {
    hide Newer, Before;
    LevelFiles(0);
    forall l1, l2, f, g | 0 <= l1 < l2 < NUM_LEVELS && f in Before().files[l1] && g in Before().files[l2] ensures Newer(f.table, g.table) {
      NewerBefore(l1, l2, f, g);
    }
  }

  lemma NewerBefore(l1: nat, l2: nat, f: File, g: File)
    requires l1 < l2 < NUM_LEVELS && |Before().files| == NUM_LEVELS && f in Before().files[l1] && g in Before().files[l2]
    ensures Newer(f.table, g.table)
  {
    FilesAreWellFormed();
    BeforeFiles(l1, f);
    BeforeFiles(l2, g);
    hide *;
  }

  lemma InputsAreChosen()
    ensures Chosen(Before(), 1, [Upper()], [Lower()])
  {
    var r := Range(Some(1), Some(1));
    var files := Before().files[2];
    assert RunAt(Before().files[1], [Upper()], 0) && KeyEndsAt(Before().files[1], 1);
    assert Upper() in [Upper()];
    assert Hull([Upper()], r);
    assert files[..1] == [Lower()] && files[..1][..0] == [];
    assert Overlapping(files[..1], r) == [Lower()];
    assert Overlapping(files, r) == [Lower()];
  }

  lemma DropsTheDeletion()
    ensures Kept(Before(), 1, Input(), 3, 8) == [Newest1(), Older1()]
  {
    var v, t := Before(), Input();
    assert BaseLevel(v, 1, 5);
    assert Kept(v, 1, t, 0, 8) == [];
    assert !Dropped(v, 1, t, 0, 8) && Kept(v, 1, t, 1, 8) == [Newest1()];
    assert !Dropped(v, 1, t, 1, 8) && Kept(v, 1, t, 2, 8) == [Newest1(), Older1()];
    assert Dropped(v, 1, t, 2, 8);
  }

  lemma InputIsMerged()
    ensures Merged(Input(), [Upper()] + [Lower()])
  {
    var files := [Upper()] + [Lower()];
    assert files[0] == Upper() && files[1] == Lower();
    forall e | e in Input() ensures exists f :: f in files && e in f.table {
      assert if e == Newest1() then e in files[0].table else e in files[1].table;
    }
  }

  lemma IsCompacted()
    ensures Compacted(Before(), After(), 1, [Upper()], [Lower()], Input(), [Output()], 8)
  {
    hide ValidVersion, Chosen, Merged, Kept;
    BeforeIsValid();
    InputsAreChosen();
    InputIsMerged();
    DropsTheDeletion();
    var outputs := [Output()];
    assert outputs[..0] == [];
    assert Contents([]) == [];
    assert Contents(outputs) == Output().table;
  }

  /** A deletion at the end of a lower input is dropped while the value it deletes stays in the next
      file, and a live snapshot sees that value again. */
  lemma UnclosedCompactionIsSeen()
    ensures Compacted(Before(), After(), 1, [Upper()], [Lower()], Input(), [Output()], 8)
    ensures UniqueSequences(Entries(Before()))
    ensures !ClosedBelow(Before().files[2], [Lower()])
    ensures Answer(Probe(Entries(Before()), 5, 8)) == None
    ensures Answer(Probe(Entries(After()), 5, 8)) == Some("v")
  {
    hide *;
    IsCompacted();
    NotClosed();
    EntriesOfBoth();
    AnswersOf5();
  }

  lemma NotClosed()
    ensures !ClosedBelow(Before().files[2], [Lower()])
  {
    assert Boundary(Continued(), Lower().largest);
    assert Lower() in [Lower()] && Continued() in [Lower(), Continued()];
  }

  lemma AnswersOf5()
    ensures UniqueSequences({Newest1(), Older1(), Gone5(), Value5()})
    ensures Answer(Probe({Newest1(), Older1(), Gone5(), Value5()}, 5, 8)) == None
    ensures Answer(Probe({Newest1(), Older1(), Value5()}, 5, 8)) == Some("v")
  {
    ProbeIs({Newest1(), Older1(), Gone5(), Value5()}, 5, 8, Gone5());
    ProbeIs({Newest1(), Older1(), Value5()}, 5, 8, Value5());
  }

  lemma EntriesOfBoth()
    ensures Entries(Before()) == {Newest1(), Older1(), Gone5(), Value5()}
    ensures Entries(After()) == {Newest1(), Older1(), Value5()}
  {
    forall e ensures e in Entries(Before()) <==> e in Upper().table || e in Lower().table || e in Continued().table {
      EntryBefore(e);
    }
    forall e ensures e in Entries(After()) <==> e in Output().table || e in Continued().table {
      EntryAfter(e);
    }
    hide Entries;
  }

  lemma EntryBefore(e: Entry)
    ensures e in Entries(Before()) <==> e in Upper().table || e in Lower().table || e in Continued().table
  {
    hide TableFile;
    var v := Before();
    assert Upper() in v.files[1] && Lower() in v.files[2] && Continued() in v.files[2];
    if e in Entries(v) {
      var l, f :| 0 <= l < NUM_LEVELS && f in v.files[l] && e in f.table;
      BeforeFiles(l, f);
    }
  }

  lemma EntryAfter(e: Entry)
    ensures e in Entries(After()) <==> e in Output().table || e in Continued().table
  {
    hide TableFile;
    var w := After();
    assert Output() in w.files[2] && Continued() in w.files[2];
    if e in Entries(w) {
      var l, f :| 0 <= l < NUM_LEVELS && f in w.files[l] && e in f.table;
      assert l == 2;
    }
  }
}
