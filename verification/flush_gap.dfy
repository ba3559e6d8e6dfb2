/** A concrete compaction over a gap during which a memtable is flushed into the gap: the results then
    overlap the flushed file, and a write is lost to readers (CompactRange of db/version_set.cc,
    DoCompactionWork of db/db_impl.cc). */
module FlushGap {
  import opened DbFormat
  import opened Versions
  import opened CompactionInputs
  import opened Compactions
  import opened CompactionReads
  import opened CompactionInstall
  import opened Flushes
  import opened FlushesMeanwhile
  import C = CompactionClosure

  function Value1(): Entry { C.One(1, 5, Value) }
  function Value9(): Entry { C.One(9, 6, Value) }
  function Value5(): Entry { C.One(5, 7, Value) }

  /** Two inputs with nothing between them, their joint output, and the file flushed in between. */
  function Left(): File { C.TableFile(4, [Value1()]) }
  function Right(): File { C.TableFile(5, [Value9()]) }
  function Output(): File { C.TableFile(6, [Value1(), Value9()]) }
  function Between(): File { C.TableFile(7, [Value5()]) }

  function Input(): seq<Entry> { [Value1(), Value9()] }
  function Added(): set<Placed> { {Placed(2, Between())} }

  function Base(): Version { Version([[], [Left(), Right()], [], [], [], [], []]) }
  function Flushed7(): Version { Version([[], [Left(), Right()], [Between()], [], [], [], []]) }
  function Installed7(): Version { Version([[], [], [Output(), Between()], [], [], [], []]) }

  lemma FilesAreWellFormed()
    ensures WellFormed(Left()) && WellFormed(Right()) && WellFormed(Output()) && WellFormed(Between())
    ensures Less(Left().largest, Right().smallest) && Less(Left().smallest, Right().smallest)
    ensures Newer(Left().table, Between().table) && Newer(Right().table, Between().table)
    ensures Newer(Between().table, Left().table) && Newer(Between().table, Right().table)
  {
  }

  lemma TwoLevels(v: Version)
    requires v == Base() || v == Flushed7()
    ensures ValidVersion(v)
  {
    hide WellFormedFiles, DistinctNumbers, SortedBySmallest, SortedLevel, NumberedByAge, LevelsByAge, Base, Flushed7;
    LevelFiles(v, 0);
    NoFilesLevel();
    forall l: nat | l < NUM_LEVELS
      ensures WellFormedFiles(v.files[l]) && DistinctNumbers(v.files[l]) && SortedBySmallest(v.files[l])
      ensures (l > 0 ==> SortedLevel(v.files[l])) && (l == 0 ==> NumberedByAge(v.files[l]))
    {
      LevelIsValid(v, l);
    }
    AgesOf(v);
    VersionFromParts(v);
  }

  lemma LevelIsValid(v: Version, l: nat)
    requires (v == Base() || v == Flushed7()) && l < NUM_LEVELS && |v.files| == NUM_LEVELS
    ensures WellFormedFiles(v.files[l]) && DistinctNumbers(v.files[l]) && SortedBySmallest(v.files[l])
    ensures SortedLevel(v.files[l]) && (l == 0 ==> NumberedByAge(v.files[l]))
  {
    FilesAreWellFormed();
    C.TwoFiles(Left(), Right());
    OneFileLevel(Between());
    NoFilesLevel();
    hide *;
    LevelFiles(v, l);
  }

  lemma LevelFiles(v: Version, l: nat)
    requires (v == Base() || v == Flushed7()) && l < NUM_LEVELS
    ensures |v.files| == NUM_LEVELS
    ensures v.files[l] == if l == 1 then [Left(), Right()] else if l == 2 && v == Flushed7() then [Between()] else []
    ensures l == 2 ==> v.files[l] == (if v == Flushed7() then [Between()] else [])
  {
  }

  lemma NoFilesLevel()
    ensures WellFormedFiles([]) && DistinctNumbers([]) && SortedBySmallest([]) && SortedLevel([]) && NumberedByAge([])
  {
  }

  lemma OneFileLevel(f: File)
    requires WellFormed(f)
    ensures WellFormedFiles([f]) && DistinctNumbers([f]) && SortedBySmallest([f]) && SortedLevel([f])
  {
  }

  lemma AgesOf(v: Version)
    requires v == Base() || v == Flushed7()
    ensures LevelsByAge(v)
  {
    hide Newer, Base, Flushed7;
    LevelFiles(v, 0);
    forall l1: nat, l2: nat, f, g | l1 < l2 < NUM_LEVELS && f in v.files[l1] && g in v.files[l2] ensures Newer(f.table, g.table) {
      NewerOf(v, l1, l2, f, g);
    }
  }

  lemma NewerOf(v: Version, l1: nat, l2: nat, f: File, g: File)
    requires (v == Base() || v == Flushed7()) && |v.files| == NUM_LEVELS && l1 < l2 < NUM_LEVELS && f in v.files[l1] && g in v.files[l2]
    ensures Newer(f.table, g.table)
  {
    FilesAreWellFormed();
    FileOf(v, l1, f);
    FileOf(v, l2, g);
    hide *;
  }

  lemma FileOf(v: Version, l: nat, f: File)
    requires (v == Base() || v == Flushed7()) && |v.files| == NUM_LEVELS && l < NUM_LEVELS && f in v.files[l]
    ensures (l == 1 && (f == Left() || f == Right())) || (l == 2 && f == Between() && v == Flushed7())
  {
    LevelFiles(v, l);
    hide *;
  }

  lemma GrownBy()
    ensures Grown(Base(), Added(), Flushed7())
  {
    hide C.TableFile;
    forall l: nat, f: File | l < NUM_LEVELS ensures f in Flushed7().files[l] <==> f in Base().files[l] || Placed(l, f) in Added() {
      LevelFiles(Base(), l);
      LevelFiles(Flushed7(), l);
    }
  }

  /** The level picked for the flush is one that PickLevelForMemTableOutput allows. */
  lemma FlushIsAllowed()
    ensures AllFlushedOnto(Base(), Added())
  {
    hide Newer, WellFormed, Left, Right, Between, Base, Flushed7, Less;
    FilesAreWellFormed();
    LevelFiles(Base(), 0);
    RangesApart();
    assert Base() != Flushed7() by { BothDiffer(); }
    forall l: nat, g | l < NUM_LEVELS && g in Base().files[l] ensures g == Left() || g == Right() {
      FileOf(Base(), l, g);
    }
    assert FlushedOnto(Base(), Placed(2, Between()));
  }

  lemma BothDiffer()
    ensures Base() != Flushed7()
  {
    assert Base().files[2] == [] && Flushed7().files[2] != [];
  }

  lemma RangesApart()
    ensures Left().number < Between().number && Right().number < Between().number
    ensures !Overlaps(Left(), KeyRange(Between())) && !Overlaps(Right(), KeyRange(Between()))
  {
  }

  lemma InputsAreChosen()
    ensures Chosen(Base(), 1, [Left(), Right()], [])
  {
    var upper, r := [Left(), Right()], Range(Some(1), Some(9));
    assert RunAt(Base().files[1], upper, 0) && KeyEndsAt(Base().files[1], 2);
    assert Left() in upper && Right() in upper;
    assert Hull(upper, r);
    assert Overlapping([], r) == [];
  }

  lemma InputIsMerged()
    ensures Merged(Input(), [Left(), Right()] + [])
  {
    var files := [Left(), Right()] + [];
    assert files[0] == Left() && files[1] == Right();
    forall e | e in Input() ensures exists f :: f in files && e in f.table {
      assert if e == Value1() then e in files[0].table else e in files[1].table;
    }
  }

  lemma NothingIsDropped()
    ensures Kept(Base(), 1, Input(), 2, 6) == Input() && Contents([Output()]) == Input()
  {
    var v, t := Base(), Input();
    assert Kept(v, 1, t, 0, 6) == [];
    assert !Dropped(v, 1, t, 0, 6) && Kept(v, 1, t, 1, 6) == [Value1()];
    assert !Dropped(v, 1, t, 1, 6);
    var outputs := [Output()];
    assert outputs[..0] == [] && Contents([]) == [];
  }

  lemma ResultsAreInstalled()
    ensures Installed(Flushed7(), Installed7(), 1, [Left(), Right()], [], [Output()])
    ensures NewNumbers(Flushed7().files[2], [Output()]) && GoodOutputs([Output()])
  {
    hide WellFormed, Newer;
    FilesAreWellFormed();
    assert BySmallestKey(Output(), Between());
    assert Replaced(Flushed7().files[2], [], [Output()], Installed7().files[2]);
  }

  lemma HasAGap()
    ensures !Connected([Left(), Right()] + [])
  {
    var inputs := [Left(), Right()] + [];
    assert inputs[0] == Left() && inputs[1] == Right();
    assert Left() in inputs && Right() in inputs && Left().smallest.user <= 5 <= Right().largest.user;
    assert !Covered(inputs, 5);
  }

  /** Every step is allowed, and yet the installed version is not valid: a read of the flushed key
      goes to the output that covers the gap, and finds nothing. */
  lemma FlushIntoGapIsLost()
    ensures InstalledOver(Base(), Added(), Flushed7(), Installed7(), 1, [Left(), Right()], [], Input(), [Output()])
    ensures Contents([Output()]) == Kept(Base(), 1, Input(), |Input()|, 6)
    ensures !Connected([Left(), Right()] + [])
    ensures !NoneBetween(Added(), 1, [Output()]) && !ValidVersion(Installed7())
    ensures Probe(Entries(Flushed7()), 5, 7) == Probe(Entries(Installed7()), 5, 7) == Found("v")
    ensures var files := Installed7().files[2];
            files[0] == Output() && !Less(files[0].largest, LookupKey(5, 7)) && SearchTable(files[0].table, 5, 7) == NotHere
  {
    hide ValidVersion, Chosen, Merged, Kept, Contents, Installed, Entries, Grown, AllFlushedOnto, Connected, NewNumbers, GoodOutputs;
    TwoLevels(Base());
    TwoLevels(Flushed7());
    GrownBy();
    FlushIsAllowed();
    InputsAreChosen();
    InputIsMerged();
    NothingIsDropped();
    ResultsAreInstalled();
    HasAGap();
    GapIsFilled();
    OverlapIsInvalid(Base(), Added(), Flushed7(), Installed7(), 1, [Left(), Right()], [], Input(), [Output()]);
    ValueIsStored();
    OutputHasNo5();
  }

  lemma GapIsFilled()
    ensures !NoneBetween(Added(), 1, [Output()])
  {
    assert Placed(2, Between()) in Added() && Output() in [Output()] && !Apart(Between(), Output());
  }

  lemma OutputHasNo5()
    ensures var files := Installed7().files[2];
            files[0] == Output() && !Less(files[0].largest, LookupKey(5, 7)) && SearchTable(files[0].table, 5, 7) == NotHere
  {
    SeekIs(Output().table, LookupKey(5, 7), 1);
  }

  lemma ValueIsStored()
    ensures Probe(Entries(Flushed7()), 5, 7) == Probe(Entries(Installed7()), 5, 7) == Found("v")
  {
    var es := {Value1(), Value9(), Value5()};
    EntriesOfBoth();
    hide Entries;
    assert Newest(es, 5, 7, Value5());
    ProbeIs(es, 5, 7, Value5());
  }

  lemma EntriesOfBoth()
    ensures Entries(Flushed7()) == Entries(Installed7()) == {Value1(), Value9(), Value5()}
  {
    hide Left, Right, Output, Between, Flushed7, Installed7;
    TablesOf();
    var v, w := Flushed7(), Installed7();
    LevelFiles(v, 1);
    LevelFiles(v, 2);
    assert w.files[2] == [Output(), Between()] && |w.files| == NUM_LEVELS && forall l :: 0 <= l < NUM_LEVELS && l != 2 ==> w.files[l] == [] by {
      InstalledFiles();
    }
    assert Left() in v.files[1] && Right() in v.files[1] && Between() in v.files[2];
    assert Output() in w.files[2] && Between() in w.files[2];
    assert Value1() in Left().table && Value9() in Right().table && Value5() in Between().table;
    assert Value1() in Output().table && Value9() in Output().table;
    forall e | e in Entries(v) ensures e in {Value1(), Value9(), Value5()} {
      var l: nat, f :| l < NUM_LEVELS && f in v.files[l] && e in f.table;
      LevelFiles(v, l);
    }
    forall e | e in Entries(w) ensures e in {Value1(), Value9(), Value5()} {
      var l: nat, f :| l < NUM_LEVELS && f in w.files[l] && e in f.table;
      assert l == 2;
    }
  }

  lemma InstalledFiles()
    ensures var w := Installed7();
            w.files[2] == [Output(), Between()] && |w.files| == NUM_LEVELS && forall l :: 0 <= l < NUM_LEVELS && l != 2 ==> w.files[l] == []
  {
  }

  lemma TablesOf()
    ensures Left().table == [Value1()] && Right().table == [Value9()]
    ensures Output().table == [Value1(), Value9()] && Between().table == [Value5()]
  {
  }
}
