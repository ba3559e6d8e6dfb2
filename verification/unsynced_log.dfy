/** A concrete run in which a write with the sync option survives a crash of the machine and an earlier
    write does not: between the two the log was switched, and nothing forces the old one to the disk
    (MakeRoomForWrite of db/db_impl.cc). */
module UnsyncedLog {
  import opened DbFormat
  import opened Versions
  import opened Builders
  import opened Databases
  import opened Recovery
  import opened StoreSteps
  import opened StoreContents
  import opened StoreHistory
  import opened StoreLife
  import opened CrashDurability
  import opened CrashPrefix
  import O = StoreOpen

  function First(): Op { Op(1, Value, "first") }
  function Second(): Op { Op(2, Value, "second") }
  function Batch1(): Batch { Batch(1, [First()]) }
  function Batch2(): Batch { Batch(2, [Second()]) }

  function NoFiles(): Version { Version([[], [], [], [], [], [], []]) }

  function Manifest(): seq<Record> {
    [O.SnapshotRecord(NoFiles()), Record(O.LogFilesEdit([]), Some(3), Some(4), Some(0))]
  }

  /** A new database, opened. */
  function Opened(): Store {
    var disk := Disk(Manifest(), map[][3 := []], map[]);
    Store(State(disk, {}, None, NoFiles(), 3, 3, 4, 0, {}, Idle, NoFlush, NoWork, NotApplying, false), [], NoJob, [], 0, 0, map[])
  }

  function Logged1(): Store {
    var s := Opened().state;
    Opened().(state := s.(disk := s.disk.(logs := s.disk.logs[3 := [Batch1()]]), writer := Logged(Batch1())), history := [Some(First())])
  }

  ghost function Applied1(): Store {
    Logged1().(state := Logged1().state.(mem := {} + BatchEntries(Batch1()), writer := Applied(Batch1())))
  }

  ghost function Published1(): Store {
    Applied1().(state := Applied1().state.(lastSequence := 1, writer := Idle))
  }

  ghost function Created(): Store {
    var s := Published1().state;
    Published1().(state := s.(disk := s.disk.(logs := s.disk.logs[4 := []]), nextFile := 5, writer := Creating(4)))
  }

  ghost function Switched(): Store {
    var s := Created().state;
    Created().(state := s.(logfileNumber := 4, imm := Some(s.mem), mem := {}, writer := Idle), immEnd := 1)
  }

  ghost function Logged2(): Store {
    var s := Switched().state;
    Switched().(state := s.(disk := s.disk.(logs := s.disk.logs[4 := [Batch2()]]), writer := Logged(Batch2())),
                history := [Some(First()), Some(Second())])
  }

  ghost function Synced(): Store {
    Logged2().(synced := map[][4 := 1])
  }

  /** The old log has lost its batch, the new one has not. */
  ghost function Left(): Disk {
    Synced().state.disk.(logs := map[][3 := []][4 := [Batch2()]])
  }

  lemma NewNumbersAre()
    ensures NextFileOf(O.NewDisk().manifest) == Some(2) && O.NewDisk().logs == map[] && O.NewDisk().tables == map[]
  {
    assert O.NewDisk().manifest[0].nextFile == Some(2);
  }

  lemma Opens()
    ensures Happens(Down(O.NewDisk(), []), Open([]), Up(Opened()))
  {
    hide O.Openable, EditApplied, O.LogFilesEdit, O.SnapshotRecord, NextFileOf, O.NewDisk, OnDisk;
    var v, t := NoFiles(), Opened().state;
    O.NewDiskOpens();
    NewNumbersAre();
    NothingAdded(v);
    assert O.Opened(O.NewDisk(), v, {}, 0, [], t);
    assert ReplayedTables([]);
  }

  lemma NothingAdded(v: Version)
    requires v == NoFiles()
    ensures EditApplied(v, O.LogFilesEdit([]), v)
  {
    forall l | 0 <= l < NUM_LEVELS ensures EditedLevel(v.files[l], O.LogFilesEdit([]), l, v.files[l]) {
      O.LogFilesSets([], l);
      assert FileSet([]) == {} && v.files[l] == [];
      EmptyLevel();
      hide AddedAt, DeletedAt;
    }
  }

  /** A step of the writer that owes nothing. */
  lemma Writes(x: Store, step: Step, y: Store)
    requires WriterStep(x.state, step, y.state) && (step.ApplyBatch? || step.Publish? || step.CreateLog?) && y == x.(state := y.state)
    ensures Happens(Up(x), Act(Internal(step)), Up(y))
  {
    hide WriterStep, TableStep, EditStep, DeleteStep;
    assert x.history + [] == x.history;
  }

  lemma LogsBatch(x: Store, b: Batch, y: Store)
    requires WriterStep(x.state, LogBatch(b), y.state) && |x.history| + |b.ops| < MAX_SEQUENCE && PlainOps(b.ops)
    requires y == x.(state := y.state, history := x.history + Made(b.ops))
    ensures Happens(Up(x), Act(Internal(LogBatch(b))), Up(y))
  {
    hide WriterStep, TableStep, EditStep, DeleteStep;
  }

  lemma SwitchesLog(x: Store, y: Store)
    requires WriterStep(x.state, SwitchLog, y.state) && y == x.(state := y.state, immEnd := x.state.lastSequence)
    ensures Happens(Up(x), Act(Internal(SwitchLog)), Up(y))
  {
    hide WriterStep, TableStep, EditStep, DeleteStep;
    assert x.history + [] == x.history;
  }

  lemma FirstWrite()
    ensures Happens(Up(Opened()), Act(Internal(LogBatch(Batch1()))), Up(Logged1()))
    ensures Happens(Up(Logged1()), Act(Internal(ApplyBatch)), Up(Applied1()))
    ensures Happens(Up(Applied1()), Act(Internal(Publish)), Up(Published1()))
  {
    hide BatchEntries, Manifest, NoFiles, Happens;
    assert Made([First()]) == [Some(First())] && [] + [Some(First())] == [Some(First())];
    assert Opened().state.disk.logs[3] + [Batch1()] == [Batch1()];
    LogsBatch(Opened(), Batch1(), Logged1());
    Writes(Logged1(), ApplyBatch, Applied1());
    Writes(Applied1(), Publish, Published1());
  }

  lemma Switch()
    ensures Happens(Up(Published1()), Act(Internal(CreateLog)), Up(Created()))
    ensures Happens(Up(Created()), Act(Internal(SwitchLog)), Up(Switched()))
  {
    hide BatchEntries, Manifest, NoFiles, Happens;
    Writes(Published1(), CreateLog, Created());
    SwitchesLog(Created(), Switched());
  }

  lemma SecondWrite()
    ensures Happens(Up(Switched()), Act(Internal(LogBatch(Batch2()))), Up(Logged2()))
    ensures Happens(Up(Logged2()), Act(Sync), Up(Synced()))
  {
    hide BatchEntries, Manifest, NoFiles, Next;
    assert Made([Second()]) == [Some(Second())];
    assert [Some(First())] + [Some(Second())] == [Some(First()), Some(Second())];
    assert Switched().state.disk.logs[4] + [Batch2()] == [Batch2()];
    LogsBatch(Switched(), Batch2(), Logged2());
  }

  lemma LogsThen()
    ensures Synced().state.disk.logs == map[3 := [Batch1()], 4 := [Batch2()]] && Left().logs == map[3 := [], 4 := [Batch2()]]
    ensures DurableLog(Synced().state) == 3 && Synced().history == [Some(First()), Some(Second())] && Synced().synced == map[4 := 1]
    ensures DurableVersion(Synced().state) == NoFiles() && Left().manifest == Synced().state.disk.manifest == Manifest() && Left().tables == map[]
  {
    hide BatchEntries, Manifest, NoFiles;
  }

  lemma HeldThen()
    ensures Holding(LogsFrom(map[3 := [Batch1()], 4 := [Batch2()]], 3), 1)
    ensures Holding(LogsFrom(map[3 := [], 4 := [Batch2()]], 3), 2) && !Holding(LogsFrom(map[3 := [], 4 := [Batch2()]], 3), 1)
  {
    hide LogsFrom, Holding;
    var logs, left := map[3 := [Batch1()], 4 := [Batch2()]], map[3 := [], 4 := [Batch2()]];
    NumberedHolds(logs, 3, 3, logs[3][0], 1);
    NumberedHolds(left, 3, 4, left[4][0], 2);
    if Holding(LogsFrom(left, 3), 1) {
      var k, i := HoldsNumbered(left, 3, 1);
    }
  }

  lemma LastThen()
    ensures LastOf(map[3 := [], 4 := [Batch2()]], 3, 0, 2)
  {
    var left := map[3 := [], 4 := [Batch2()]];
    assert left[4][0] in left[4] && End(left[4][0]) == 3;
  }

  lemma CutThen()
    ensures CutLogs(map[3 := [Batch1()], 4 := [Batch2()]], map[4 := 1], 3, map[3 := [], 4 := [Batch2()]])
    ensures AllOnDisk(map[], NoFiles())
  {
    hide Batch1, Batch2;
  }

  lemma ManifestThen()
    ensures LastSequenceOf(Manifest()) == Some(0)
  {
    assert Manifest()[1].lastSequence == Some(0);
  }

  lemma CrashTakesFirst()
    ensures Happens(Up(Synced()), Crash(Left()), Down(Left(), [None, Some(Second())]))
  {
    hide Synced, Left, Manifest, LogsFrom, Holding, LastOf, LastSequenceOf, CutLogs, AllOnDisk, NoFiles, DurableLog, DurableVersion, Batch1, Batch2,
         First, Second;
    LogsThen();
    HeldThen();
    LastThen();
    CutThen();
    ManifestThen();
    var after := [None, Some(Second())];
    assert |after| == 2;
    assert Survives(Synced(), Left(), after);
  }

  lemma NotAsOf(n: nat)
    ensures !AsOf([Some(First()), Some(Second())], [None, Some(Second())], n)
  {
    var after := [None, Some(Second())];
    assert after[0] == None && after[1] == Some(Second());
  }

  lemma OneMoreEvent(worlds: seq<World>, events: seq<Event>, event: Event, z: World)
    requires IsRun(worlds, events) && Happens(worlds[|events|], event, z)
    ensures IsRun(worlds + [z], events + [event])
  {
    hide Happens;
    var ws, es := worlds + [z], events + [event];
    forall i | 0 <= i < |es| ensures Happens(ws[i], es[i], ws[i + 1]) {
      assert i < |events| ==> ws[i] == worlds[i] && ws[i + 1] == worlds[i + 1] && es[i] == events[i];
    }
  }

  /** The second write is forced to the disk, and the first one, which went to the log before, is lost:
      what is left is not what was there after any number of updates. */
  lemma SyncedWriteOutlivesEarlier() returns (worlds: seq<World>, events: seq<Event>)
    ensures IsRun(worlds, events) && |events| == 9 && worlds[0] == Down(O.NewDisk(), []) && events[7] == Act(Sync) && events[8].Crash?
    ensures HistoryOf(worlds[8]) == [Some(First()), Some(Second())] && HistoryOf(worlds[9]) == [None, Some(Second())]
    ensures forall n: nat :: !AsOf(HistoryOf(worlds[8]), HistoryOf(worlds[9]), n)
  {
    hide IsRun, AsOf, First, Second, Happens, O.NewDisk, Opened, Logged1, Applied1, Published1, Created, Switched, Logged2, Synced, Left, Batch1, Batch2;
    Opens();
    FirstWrite();
    Switch();
    SecondWrite();
    CrashTakesFirst();
    LogsThen();
    assert IsRun([Down(O.NewDisk(), [])], []) by { NoEvents(Down(O.NewDisk(), [])); }
    OneMoreEvent([Down(O.NewDisk(), [])], [], Open([]), Up(Opened()));
    worlds, events := [Down(O.NewDisk(), [])] + [Up(Opened())], [] + [Open([])];
    OneMoreEvent(worlds, events, Act(Internal(LogBatch(Batch1()))), Up(Logged1()));
    worlds, events := worlds + [Up(Logged1())], events + [Act(Internal(LogBatch(Batch1())))];
    OneMoreEvent(worlds, events, Act(Internal(ApplyBatch)), Up(Applied1()));
    worlds, events := worlds + [Up(Applied1())], events + [Act(Internal(ApplyBatch))];
    OneMoreEvent(worlds, events, Act(Internal(Publish)), Up(Published1()));
    worlds, events := worlds + [Up(Published1())], events + [Act(Internal(Publish))];
    OneMoreEvent(worlds, events, Act(Internal(CreateLog)), Up(Created()));
    worlds, events := worlds + [Up(Created())], events + [Act(Internal(CreateLog))];
    OneMoreEvent(worlds, events, Act(Internal(SwitchLog)), Up(Switched()));
    worlds, events := worlds + [Up(Switched())], events + [Act(Internal(SwitchLog))];
    OneMoreEvent(worlds, events, Act(Internal(LogBatch(Batch2()))), Up(Logged2()));
    worlds, events := worlds + [Up(Logged2())], events + [Act(Internal(LogBatch(Batch2())))];
    OneMoreEvent(worlds, events, Act(Sync), Up(Synced()));
    worlds, events := worlds + [Up(Synced())], events + [Act(Sync)];
    OneMoreEvent(worlds, events, Crash(Left()), Down(Left(), [None, Some(Second())]));
    worlds, events := worlds + [Down(Left(), [None, Some(Second())])], events + [Crash(Left())];
    forall n: nat ensures !AsOf([Some(First()), Some(Second())], [None, Some(Second())], n) {
      NotAsOf(n);
    }
  }

  lemma NoEvents(w: World)
    ensures IsRun([w], [])
  {
  }
}
