/** The logs of a database are in order at any point of its life, so that replaying them is what an
    opening needs (Write and Recover of db/db_impl.cc). */
module LogOrder {
  import opened DbFormat
  import opened Versions
  import opened Builders
  import opened CompactionReads
  import opened Databases
  import opened Recovery
  import opened StoreSteps
  import opened StoreInvariant
  import opened StoreContents
  import opened StoreHistory
  import opened StepsKeepHistory
  import opened StoreLife
  import opened LogReplay
  import E = EditsKeepInvariant
  import O = StoreOpen

  /** Fewer logs, some of them perhaps new and empty, from a later number on. */
  ghost predicate NoMoreLogs(a: map<nat, seq<Batch>>, b: map<nat, seq<Batch>>) {
    forall n :: n in b ==> b[n] == [] || (n in a && a[n] == b[n])
  }

  lemma FewerInOrder(a: map<nat, seq<Batch>>, from: nat, b: map<nat, seq<Batch>>, to: nat)
    requires LogsInOrder(a, from) && NoMoreLogs(a, b) && from <= to
    ensures LogsInOrder(b, to)
  {
    hide InOrder;
    forall n | n in b && to <= n ensures InOrder(b[n]) {
      assert InOrder([]) by { EmptyInOrder(); }
    }
  }

  lemma EmptyInOrder()
    ensures InOrder([])
  {
  }

  /** A batch at the end of the last log that is not empty. */
  lemma OneMoreBatch(logs: map<nat, seq<Batch>>, from: nat, n: nat, b: Batch)
    requires LogsInOrder(logs, from) && n in logs
    requires forall m, c :: m in logs && from <= m && c in logs[m] ==> End(c) <= b.sequence
    requires forall m :: m in logs && m > n ==> logs[m] == []
    ensures LogsInOrder(logs[n := logs[n] + [b]], from)
  {
    hide InOrder;
    var after := logs[n := logs[n] + [b]];
    if from <= n {
      LongerInOrder(logs[n], b);
    }
    assert forall k :: k in after && k > n ==> after[k] == [];
    forall m: nat, k: nat, c: Batch, d: Batch | m in after && k in after && from <= m < k && c in after[m] && d in after[k]
      ensures End(c) <= d.sequence
    {
      assert m != n && c in logs[m];
    }
  }

  lemma LongerInOrder(log: seq<Batch>, b: Batch)
    requires InOrder(log) && forall c :: c in log ==> End(c) <= b.sequence
    ensures InOrder(log + [b])
  {
    var after := log + [b];
    forall i, j | 0 <= i < j < |after| ensures End(after[i]) <= after[j].sequence {
      if j == |log| {
        assert log[i] in log;
      }
    }
  }

  lemma BatchesEnd(s: State)
    requires Inv(s) && s.writer.Idle?
    ensures DurableLog(s) <= s.logfileNumber && s.logfileNumber in s.disk.logs
    ensures forall m, c :: m in s.disk.logs && DurableLog(s) <= m && c in s.disk.logs[m] ==> End(c) <= s.lastSequence + 1
    ensures forall m :: m in s.disk.logs && m > s.logfileNumber ==> s.disk.logs[m] == []
  {
    hide ManifestOk, TablesOk, NumbersOk, FlushOk, WorkOk, LogEntries, EditApplied, KindOk, AddedAt;
  }

  lemma StepLogs(s: State, step: Step, t: State)
    requires Inv(s) && Next(s, step, t) && !step.LogBatch?
    ensures NoMoreLogs(s.disk.logs, t.disk.logs) && DurableLog(s) <= DurableLog(t)
  {
    hide WriterStep, TableStep, EditStep, DeleteStep, Inv, NoMoreLogs, DurableLog;
    if EditStep(s, step, t) {
      EditLogs(s, step, t);
    } else {
      OtherLogs(s, step, t);
    }
  }

  lemma EditLogs(s: State, step: Step, t: State)
    requires Inv(s) && EditStep(s, step, t)
    ensures t.disk.logs == s.disk.logs && NoMoreLogs(s.disk.logs, t.disk.logs) && DurableLog(s) <= DurableLog(t)
  {
    hide ManifestOk, TablesOk, FlushOk, WorkOk, LogEntries, EditApplied, KindOk, AddedAt, LastOf, WriterOk, OutputNumbers, BatchEntries, Elements,
         FlushEditOf, CompactionEditOf, LogsOk, NumbersOk;
  }

  lemma OtherLogs(s: State, step: Step, t: State)
    requires (WriterStep(s, step, t) || TableStep(s, step, t) || DeleteStep(s, step, t)) && !step.LogBatch?
    ensures NoMoreLogs(s.disk.logs, t.disk.logs) && DurableLog(s) <= DurableLog(t)
  {
    hide OutputNumbers, Live, BatchEntries, Elements;
  }

  lemma StepKeepsOrder(s: State, step: Step, t: State)
    requires Inv(s) && Next(s, step, t) && LogsInOrder(s.disk.logs, DurableLog(s))
    ensures LogsInOrder(t.disk.logs, DurableLog(t))
  {
    hide Inv, LogsInOrder, Next, DurableLog;
    if step.LogBatch? {
      LogStep(s, step.batch, t);
      BatchesEnd(s);
      OneMoreBatch(s.disk.logs, DurableLog(s), s.logfileNumber, step.batch);
    } else {
      StepLogs(s, step, t);
      FewerInOrder(s.disk.logs, DurableLog(s), t.disk.logs, DurableLog(t));
    }
  }

  lemma LogStep(s: State, b: Batch, t: State)
    requires Next(s, LogBatch(b), t)
    ensures s.writer.Idle? && b.sequence == s.lastSequence + 1 && DurableLog(t) == DurableLog(s) && s.logfileNumber in s.disk.logs
    ensures t.disk.logs == s.disk.logs[s.logfileNumber := s.disk.logs[s.logfileNumber] + [b]]
  {
    hide BatchEntries;
  }

  // ---------------------------------------------------------------- over a whole life

  function DiskOf(w: World): Disk {
    if w.Up? then w.store.state.disk else w.disk
  }

  /** The logs that a recovery would read are in order, and their sequence numbers fit. */
  ghost predicate LogsReadable(d: Disk) {
    LogNumberOf(d.manifest).Some? && LogsInOrder(d.logs, LogNumberOf(d.manifest).value)
    && SmallSequences(LogsFrom(d.logs, LogNumberOf(d.manifest).value))
  }

  ghost predicate InLogOrder(w: World) {
    var d := DiskOf(w);
    LogNumberOf(d.manifest).Some? && LogsInOrder(d.logs, LogNumberOf(d.manifest).value)
  }

  lemma DurableLogIs(s: State)
    requires Inv(s)
    ensures LogNumberOf(s.disk.manifest) == Some(DurableLog(s))
  {
    hide TablesOk, LogsOk, NumbersOk, FlushOk, WorkOk, LastOf, WriterOk, ApplyOk, LeadsTo, AddedBelow;
  }

  lemma OpenableLog(d: Disk, v: Version, unflushed: set<Entry>, last: nat)
    requires O.Openable(d, v, unflushed, last)
    ensures LogNumberOf(d.manifest).Some? && unflushed == LogsFrom(d.logs, LogNumberOf(d.manifest).value)
  {
    hide ManifestOk, Describes, LogsFrom, LastOf;
  }

  lemma OpenedLog(d: Disk, v: Version, unflushed: set<Entry>, last: nat, flushed: seq<File>, t: State)
    requires O.Opened(d, v, unflushed, last, flushed, t)
    ensures LogNumberOf(t.disk.manifest) == Some(t.logfileNumber) && t.disk.logs == d.logs[t.logfileNumber := []]
    ensures forall n :: n in d.logs ==> n < t.logfileNumber
  {
    hide EditApplied, O.SnapshotRecord, O.LogFilesEdit, OnDisk;
    assert t.disk.manifest[|t.disk.manifest| - 1].logNumber == Some(t.logfileNumber);
  }

  lemma OnlyEmptyLog(logs: map<nat, seq<Batch>>, k: nat)
    requires forall n :: n in logs ==> n < k
    ensures LogsInOrder(logs[k := []], k)
  {
  }

  /** What is left of logs that are in order is in order. */
  lemma CutInOrder(logs: map<nat, seq<Batch>>, synced: map<nat, nat>, from: nat, left: map<nat, seq<Batch>>)
    requires LogsInOrder(logs, from) && CutLogs(logs, synced, from, left)
    ensures LogsInOrder(left, from)
  {
    forall n | n in left && from <= n ensures InOrder(left[n]) {
      assert n in logs && left[n] <= logs[n];
    }
    forall n: nat, m: nat, b: Batch, c: Batch | n in left && m in left && from <= n < m && b in left[n] && c in left[m]
      ensures End(b) <= c.sequence
    {
      assert b in logs[n] && c in logs[m];
    }
  }

  lemma CrashOrder(x: Store, left: Disk, after: seq<Option<Op>>)
    requires StoreInv(x) && CrashLeaves(x, left) && InLogOrder(Up(x))
    ensures InLogOrder(Down(left, after))
  {
    hide Inv, BothGood, FlushPlaced, JobOk, HistoryOk, SavedOk, MemoryOk, LogsInOrder, DurableLog, CutLogs, AllOnDisk, LogNumberOf;
    DurableLogIs(x.state);
    CutInOrder(x.state.disk.logs, x.synced, DurableLog(x.state), left.logs);
  }

  lemma EventKeepsOrder(w: World, event: Event, z: World)
    requires WorldInv(w) && Happens(w, event, z) && InLogOrder(w)
    ensures InLogOrder(z)
  {
    hide StoreInv, Owed, NextJob, Good, O.Openable, O.Opened, Inv, Next, DurableLog, LogsInOrder, LogNumberOf, CrashLeaves, Survives;
    match event
    case Act(action) =>
      ActionOrder(w.store, action, z.store);
    case Crash(left) =>
      CrashOrder(w.store, left, z.history);
    case OpenPart(part) =>
      FewerInOrder(w.disk.logs, LogNumberOf(w.disk.manifest).value, z.disk.logs, LogNumberOf(z.disk.manifest).value);
    case Open(flushed) =>
      var v, unflushed, last :| O.Openable(w.disk, v, unflushed, last) && O.Opened(w.disk, v, unflushed, last, flushed, z.store.state);
      OpenedLog(w.disk, v, unflushed, last, flushed, z.store.state);
      OnlyEmptyLog(w.disk.logs, z.store.state.logfileNumber);
  }

  lemma ActionOrder(x: Store, action: Action, y: Store)
    requires StoreInv(x) && Does(x, action, y) && InLogOrder(Up(x))
    ensures InLogOrder(Up(y))
  {
    hide StoreInv, Owed, NextJob, Inv, Next, DurableLog, LogsInOrder, LogNumberOf;
    if action.Internal? {
      StepOf(x, action.step, y);
      DurableLogIs(x.state);
      StepKeepsOrder(x.state, action.step, y.state);
      E.StepKeepsInv(x.state, action.step, y.state);
      DurableLogIs(y.state);
    }
  }

  lemma {:induction false} RunKeepsOrder(worlds: seq<World>, events: seq<Event>, n: nat)
    requires IsRun(worlds, events) && n <= |events| && WorldInv(worlds[0]) && InLogOrder(worlds[0])
    ensures InLogOrder(worlds[n])
  {
    hide WorldInv, Happens, InLogOrder;
    if n > 0 {
      RunKeepsOrder(worlds, events, n - 1);
      RunKeepsInv(worlds, events, n - 1);
      EventKeepsOrder(worlds[n - 1], events[n - 1], worlds[n]);
    }
  }

  /** Whenever a database is down, its logs can be replayed as RecoverLogs demands. */
  lemma DownIsReadable(worlds: seq<World>, events: seq<Event>, n: nat)
    requires IsRun(worlds, events) && n <= |events| && worlds[0] == Down(O.NewDisk(), []) && worlds[n].Down?
    ensures LogsReadable(worlds[n].disk)
  {
    hide WorldInv, Happens, InLogOrder, O.NewDisk;
    NewWorld();
    assert InLogOrder(worlds[0]) by { NewInOrder(); }
    RunKeepsInv(worlds, events, n);
    RunKeepsOrder(worlds, events, n);
    ReadableDown(worlds[n].disk, worlds[n].history);
  }

  lemma NewInOrder()
    ensures InLogOrder(Down(O.NewDisk(), []))
  {
    assert O.NewDisk().manifest[0].logNumber == Some(0);
  }

  lemma ReadableDown(d: Disk, history: seq<Option<Op>>)
    requires WorldInv(Down(d, history)) && InLogOrder(Down(d, history))
    ensures LogsReadable(d)
  {
    hide O.Openable, LogsInOrder, LogsFrom, LogNumberOf, ValidVersion, Faithful, NewerSet, Entries;
    var v, unflushed :| DiskHolds(d, history, v, unflushed);
    OpenableLog(d, v, unflushed, |history|);
    assert Genuine(unflushed + Entries(v), history);
    forall e | e in unflushed ensures e.key.sequence <= MAX_SEQUENCE {
      assert e in unflushed + Entries(v);
    }
  }
}
