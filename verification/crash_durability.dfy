/** What a write with the sync option is good for: what is on the disk by then survives every later
    crash, and exactly when what survives is all that was written up to some point (Write and
    MakeRoomForWrite of db/db_impl.cc, sync of include/leveldb/options.h). */
module CrashDurability {
  import opened DbFormat
  import opened Versions
  import opened Builders
  import opened CompactionReads
  import opened Databases
  import opened Recovery
  import opened StoreSteps
  import opened StoreInvariant
  import opened StoreContents
  import opened StoreHistory
  import opened StepsKeepHistory
  import opened StoreLife
  import opened LogReplay
  import opened LogOrder
  import O = StoreOpen

  /** The batch holds the update with this number. */
  predicate HasUpdate(b: Batch, n: nat) {
    b.sequence <= n < End(b)
  }

  /** The `n`-th update is in a table of the manifest's version, or in a log that is needed, forced to the
      disk. */
  ghost predicate Safe(x: Store, n: nat) {
    1 <= n <= |x.history| && (n <= SavedDurable(x) || InForced(x.state.disk.logs, x.synced, DurableLog(x.state), n))
  }

  ghost predicate InForced(logs: map<nat, seq<Batch>>, synced: map<nat, nat>, from: nat, n: nat) {
    exists k, i :: k in logs && from <= k && 0 <= i < Forced(logs, synced, k) && HasUpdate(logs[k][i], n)
  }

  lemma NumberedHolds(logs: map<nat, seq<Batch>>, from: nat, k: nat, b: Batch, n: nat)
    requires k in logs && from <= k && b in logs[k] && HasUpdate(b, n)
    ensures Holding(LogsFrom(logs, from), n)
  {
    var i := n - b.sequence;
    var e := Entry(InternalKey(b.ops[i].user, b.sequence + i, b.ops[i].kind), b.ops[i].value);
    assert e in BatchEntries(b) && e in LogEntries(logs[k]) && e in LogsFrom(logs, from);
  }

  lemma HoldsNumbered(logs: map<nat, seq<Batch>>, from: nat, n: nat) returns (k: nat, i: nat)
    requires Holding(LogsFrom(logs, from), n)
    ensures k in logs && from <= k && i < |logs[k]| && HasUpdate(logs[k][i], n)
  {
    var e :| e in LogsFrom(logs, from) && e.key.sequence == n;
    k :| k in logs && from <= k && e in LogEntries(logs[k]);
    var b :| b in logs[k] && e in BatchEntries(b);
    i :| i < |logs[k]| && logs[k][i] == b;
  }

  // ---------------------------------------------------------------- crashes

  lemma ForcedStays(logs: map<nat, seq<Batch>>, synced: map<nat, nat>, from: nat, left: map<nat, seq<Batch>>, n: nat)
    requires InForced(logs, synced, from, n) && CutLogs(logs, synced, from, left)
    ensures exists k, b :: k in left && from <= k && b in left[k] && HasUpdate(b, n)
  {
    var k, i :| k in logs && from <= k && 0 <= i < Forced(logs, synced, k) && HasUpdate(logs[k][i], n);
    assert k in left && left[k][i] == logs[k][i];
  }

  /** A crash keeps what is safe. */
  lemma CrashKeepsSafe(x: Store, left: Disk, after: seq<Option<Op>>, n: nat)
    requires StoreInv(x) && CrashLeaves(x, left) && Survives(x, left, after) && Safe(x, n)
    ensures n <= |after| && after[n - 1] == x.history[n - 1]
  {
    hide StoreInv, AllOnDisk, LogsFrom, SavedDurable, DurableLog, InForced, CutLogs;
    SurvivesLeaves(x, left, after);
    if n > SavedDurable(x) {
      var from := DurableLog(x.state);
      ForcedStays(x.state.disk.logs, x.synced, from, left.logs, n);
      var k, b :| k in left.logs && from <= k && b in left.logs[k] && HasUpdate(b, n);
      NumberedHolds(left.logs, from, k, b, n);
    }
  }

  // ---------------------------------------------------------------- steps

  /** The logs that are needed afterwards have lost nothing that was forced to the disk. */
  ghost predicate ForcedKept(a: map<nat, seq<Batch>>, s: map<nat, nat>, b: map<nat, seq<Batch>>, t: map<nat, nat>, from: nat) {
    forall k :: k in a && from <= k ==> k in b && a[k] <= b[k] && Forced(a, s, k) <= Forced(b, t, k)
  }

  lemma ForcedLater(a: map<nat, seq<Batch>>, s: map<nat, nat>, b: map<nat, seq<Batch>>, t: map<nat, nat>, from: nat, to: nat, n: nat)
    requires InForced(a, s, from, n) && ForcedKept(a, s, b, t, to)
    ensures InForced(b, t, to, n) || exists k, c :: k in a && from <= k < to && c in a[k] && HasUpdate(c, n)
  {
    var k, i :| k in a && from <= k && 0 <= i < Forced(a, s, k) && HasUpdate(a[k][i], n);
    if to <= k {
      assert k in b && b[k][i] == a[k][i];
    } else {
      assert a[k][i] in a[k];
    }
  }

  lemma StepKeepsForced(s: State, step: Step, t: State, synced: map<nat, nat>)
    requires NumbersOk(s) && Next(s, step, t)
    ensures ForcedKept(s.disk.logs, synced, t.disk.logs, synced, DurableLog(t))
  {
    hide WriterStep, TableStep, EditStep, DeleteStep;
    if WriterStep(s, step, t) {
      WriterKeepsForced(s, step, t, synced);
    } else if DeleteStep(s, step, t) {
      DeleteKeepsForced(s, step, t, synced);
    } else {
      SameLogs(s, step, t);
    }
  }

  lemma WriterKeepsForced(s: State, step: Step, t: State, synced: map<nat, nat>)
    requires NumbersOk(s) && WriterStep(s, step, t)
    ensures ForcedKept(s.disk.logs, synced, t.disk.logs, synced, DurableLog(t))
  {
    hide BatchEntries, NextFileOf, LastSequenceOf;
  }

  lemma DeleteKeepsForced(s: State, step: Step, t: State, synced: map<nat, nat>)
    requires DeleteStep(s, step, t)
    ensures ForcedKept(s.disk.logs, synced, t.disk.logs, synced, DurableLog(t))
  {
    hide Live;
  }

  lemma SameLogs(s: State, step: Step, t: State)
    requires TableStep(s, step, t) || EditStep(s, step, t)
    ensures t.disk.logs == s.disk.logs
  {
    hide EditApplied, FlushEditOf, CompactionEditOf, OutputNumbers, Elements;
  }

  lemma SyncKeepsForced(logs: map<nat, seq<Batch>>, synced: map<nat, nat>, k: nat, from: nat)
    requires k in logs
    ensures ForcedKept(logs, synced, logs, synced[k := |logs[k]|], from)
  {
  }

  lemma SavedLater(x: Store, action: Action, y: Store)
    requires StoreInv(x) && Does(x, action, y)
    ensures SavedDurable(x) <= SavedDurable(y) && x.history <= y.history
    ensures action.Internal? && action.step.Append? && x.state.applying.Apply? && x.state.applying.kind.OfFlush? ==>
              x.state.imm.Some? && SavedDurable(y) == x.immEnd
    ensures !action.Internal? ==> y.state == x.state
  {
    hide Inv, Good, BothGood, FlushPlaced, JobOk, HistoryOk, Owed, NextJob, MemoryOk, UpTo, Entries, LastSequenceOf;
  }

  /** Only the record of a flush makes logs superfluous. */
  lemma DurableLogMoves(s: State, step: Step, t: State)
    requires Inv(s) && Next(s, step, t)
    ensures DurableLog(t) == DurableLog(s)
            || (step.Append? && s.applying.Apply? && s.applying.kind.OfFlush? && DurableLog(s) == s.logNumber && DurableLog(t) == s.logfileNumber)
  {
    hide WriterStep, TableStep, EditStep, DeleteStep, Inv, DurableLog;
    if EditStep(s, step, t) {
      EditMovesLog(s, step, t);
    } else {
      OthersMoveNoLog(s, step, t);
    }
  }

  lemma EditMovesLog(s: State, step: Step, t: State)
    requires Inv(s) && EditStep(s, step, t)
    ensures DurableLog(t) == DurableLog(s)
            || (step.Append? && s.applying.Apply? && s.applying.kind.OfFlush? && DurableLog(s) == s.logNumber && DurableLog(t) == s.logfileNumber)
  {
    hide ManifestOk, TablesOk, LogsOk, LastOf, NumbersOk, WriterOk, FlushOk, WorkOk, EditApplied, FlushEditOf, CompactionEditOf, OutputNumbers, AddedAt;
  }

  lemma OthersMoveNoLog(s: State, step: Step, t: State)
    requires WriterStep(s, step, t) || TableStep(s, step, t) || DeleteStep(s, step, t)
    ensures DurableLog(t) == DurableLog(s)
  {
    hide BatchEntries, Elements, OutputNumbers, Live;
  }

  /** What the older logs hold is in the immutable memtable. */
  lemma OlderIsImmutable(x: Store, k: nat, b: Batch, n: nat)
    requires StoreInv(x) && k in x.state.disk.logs && x.state.logNumber <= k < x.state.logfileNumber && b in x.state.disk.logs[k] && HasUpdate(b, n)
    ensures n <= x.immEnd
  {
    hide ManifestOk, TablesOk, LastOf, NumbersOk, WriterOk, FlushOk, WorkOk, ApplyOk, Good, BothGood, FlushPlaced, JobOk, HistoryOk, SavedOk, HoldsFrom;
    var i := n - b.sequence;
    var e := Entry(InternalKey(b.ops[i].user, b.sequence + i, b.ops[i].kind), b.ops[i].value);
    assert e in BatchEntries(b) && e in LogEntries(x.state.disk.logs[k]);
    assert e in LogsBetween(x.state.disk.logs, x.state.logNumber, x.state.logfileNumber);
  }

  /** No step makes an update unsafe. */
  lemma ActionKeepsSafe(x: Store, action: Action, y: Store, n: nat)
    requires StoreInv(x) && Does(x, action, y) && Safe(x, n)
    ensures Safe(y, n) && y.history[n - 1] == x.history[n - 1]
  {
    hide StoreInv, Next, Owed, NextJob, InForced, DurableLog, SavedDurable, ForcedKept, HasUpdate;
    SavedLater(x, action, y);
    if n > SavedDurable(x) {
      var from, to := DurableLog(x.state), DurableLog(y.state);
      StoreParts(x);
      if action.Internal? {
        StepKeepsForced(x.state, action.step, y.state, x.synced);
        DurableLogMoves(x.state, action.step, y.state);
      } else {
        SyncKeepsForced(x.state.disk.logs, x.synced, x.state.logfileNumber, to);
        NothingForced(x.state.disk.logs, x.synced, to);
      }
      ForcedLater(x.state.disk.logs, x.synced, y.state.disk.logs, y.synced, from, to, n);
      if !InForced(y.state.disk.logs, y.synced, to, n) {
        var k, b :| k in x.state.disk.logs && from <= k < to && b in x.state.disk.logs[k] && HasUpdate(b, n);
        OlderIsImmutable(x, k, b, n);
      }
    }
  }

  lemma NothingForced(logs: map<nat, seq<Batch>>, synced: map<nat, nat>, from: nat)
    ensures ForcedKept(logs, synced, logs, synced, from)
  {
  }

  lemma StoreParts(x: Store)
    requires StoreInv(x)
    ensures Inv(x.state) && NumbersOk(x.state) && x.state.logfileNumber in x.state.disk.logs && DurableLog(x.state) <= x.state.logfileNumber
  {
    hide ManifestOk, TablesOk, LogsBetween, LogEntries, LastOf, NumbersOk, WriterOk, FlushOk, WorkOk, Good, BothGood, FlushPlaced, JobOk, HistoryOk,
         SavedOk, MemoryOk, KindOk, EditApplied, AddedAt;
  }

  /** A write with the sync option is safe once the log is forced to the disk, with all that went to the
      same log before. */
  lemma SyncMakesSafe(x: Store, y: Store, b: Batch, n: nat)
    requires StoreInv(x) && Does(x, Sync, y) && b in x.state.disk.logs[x.state.logfileNumber] && HasUpdate(b, n) && 1 <= n <= |x.history|
    ensures Safe(y, n)
  {
    hide StoreInv, SavedDurable, DurableLog;
    StoreParts(x);
    var log := y.state.disk.logs[y.state.logfileNumber];
    var i :| 0 <= i < |log| && log[i] == b;
    assert Forced(y.state.disk.logs, y.synced, y.state.logfileNumber) == |log|;
  }

  /** The batch being written is the one that is forced to the disk. */
  lemma WriteIsLogged(x: Store)
    requires StoreInv(x) && x.state.writer.Logged?
    ensures x.state.logfileNumber in x.state.disk.logs && x.state.writer.batch in x.state.disk.logs[x.state.logfileNumber]
    ensures x.state.writer.batch.sequence >= 1 && End(x.state.writer.batch) == |x.history| + 1
  {
    hide ManifestOk, TablesOk, LogsOk, LastOf, NumbersOk, FlushOk, WorkOk, ApplyOk, Good, BothGood, FlushPlaced, JobOk, SavedOk, MemoryOk, SnapshotsOk;
  }

  // ---------------------------------------------------------------- runs

  /** An update of the history that no crash can take any more. */
  ghost predicate Durable(w: World, n: nat) {
    1 <= n <= |HistoryOf(w)| && (w.Up? ==> Safe(w.store, n))
  }

  lemma EventKeepsDurable(w: World, event: Event, z: World, n: nat)
    requires WorldInv(w) && Happens(w, event, z) && Durable(w, n)
    ensures Durable(z, n) && HistoryOf(z)[n - 1] == HistoryOf(w)[n - 1]
  {
    hide StoreInv, Does, CrashLeaves, Survives, Safe, O.Openable, O.Opened, O.Opening, ReplayedTables;
    match event
    case Act(action) =>
      SafeIsLogged(w.store, n);
      ActionKeepsSafe(w.store, action, z.store, n);
      SafeIsLogged(z.store, n);
    case Crash(left) =>
      CrashKeepsSafe(w.store, left, z.history, n);
    case OpenPart(part) =>
    case Open(flushed) =>
      OpenedIsSafe(w, flushed, z, n);
  }

  lemma SafeIsLogged(x: Store, n: nat)
    requires Safe(x, n)
    ensures 1 <= n <= |x.history|
  {
  }

  /** An opening has put all there is into tables. */
  lemma OpenedIsSafe(w: World, flushed: seq<File>, z: World, n: nat)
    requires WorldInv(w) && Happens(w, Open(flushed), z) && 1 <= n <= |HistoryOf(w)|
    ensures Safe(z.store, n) && HistoryOf(z) == HistoryOf(w)
  {
    hide WorldInv, O.Openable, ReplayedTables, InForced, EditApplied, O.SnapshotRecord, O.LogFilesEdit, OnDisk;
  }

  /** What is safe at some point of a run is there for good, whatever crashes follow. */
  lemma {:induction false} SafeSurvives(worlds: seq<World>, events: seq<Event>, from: nat, to: nat, n: nat)
    requires IsRun(worlds, events) && WorldInv(worlds[0]) && from <= to <= |events|
    requires worlds[from].Up? && Safe(worlds[from].store, n)
    ensures Durable(worlds[to], n) && HistoryOf(worlds[to])[n - 1] == worlds[from].store.history[n - 1]
  {
    hide WorldInv, Happens, Durable, Safe;
    if from == to {
      SafeIsLogged(worlds[from].store, n);
      assert Durable(worlds[to], n) by { IsDurable(worlds[to].store, n); }
    } else {
      SafeSurvives(worlds, events, from, to - 1, n);
      RunKeepsInv(worlds, events, to - 1);
      EventKeepsDurable(worlds[to - 1], events[to - 1], worlds[to], n);
    }
  }

  lemma IsDurable(x: Store, n: nat)
    requires Safe(x, n)
    ensures Durable(Up(x), n)
  {
  }

  // ---------------------------------------------------------------- a write with the sync option

  function UpdateOf(b: Batch, n: nat): Entry
    requires HasUpdate(b, n)
  {
    var op := b.ops[n - b.sequence];
    Entry(InternalKey(op.user, n, op.kind), op.value)
  }

  /** The updates of the batch being written are the last ones of the history. */
  lemma WrittenIsMade(x: Store, n: nat)
    requires StoreInv(x) && x.state.writer.Logged? && HasUpdate(x.state.writer.batch, n)
    ensures 1 <= n <= |x.history| && IsMade(UpdateOf(x.state.writer.batch, n), x.history[n - 1])
  {
    hide StoreInv, Good, Entries, Floor, Oldest, IsMade;
    GoodVersion(x);
    GoodGenuine(x.state.version, Unsaved(x.state), x.history, Floor(x));
    var b := x.state.writer.batch;
    var i, e := n - b.sequence, UpdateOf(b, n);
    assert e == Entry(InternalKey(b.ops[i].user, b.sequence + i, b.ops[i].kind), b.ops[i].value);
    assert e in InFlight(x.state) && e in Unsaved(x.state) + Entries(x.state.version);
    MadeAt(Unsaved(x.state) + Entries(x.state.version), x.history, e);
  }

  /** Once the log is forced to the disk behind a batch, its updates are in the history for good: whatever
      steps, crashes and openings follow, every recovery brings them back. */
  lemma SyncedWriteSurvives(worlds: seq<World>, events: seq<Event>, i: nat, to: nat, n: nat)
    requires IsRun(worlds, events) && worlds[0] == Down(O.NewDisk(), []) && i < to <= |events| && events[i] == Act(Sync) && worlds[i].Up?
    requires worlds[i].store.state.writer.Logged? && HasUpdate(worlds[i].store.state.writer.batch, n)
    ensures 1 <= n <= |HistoryOf(worlds[to])|
    ensures IsMade(UpdateOf(worlds[i].store.state.writer.batch, n), HistoryOf(worlds[to])[n - 1])
  {
    hide StoreInv, Safe, O.NewDisk, HasUpdate, UpdateOf, IsMade, Durable;
    NewWorld();
    RunKeepsInv(worlds, events, i);
    var x := worlds[i].store;
    WriteIsLogged(x);
    WrittenIsMade(x, n);
    assert Happens(worlds[i], events[i], worlds[i + 1]);
    SyncMakesSafe(x, worlds[i + 1].store, x.state.writer.batch, n);
    SafeSurvives(worlds, events, i + 1, to, n);
    DurableIsLogged(worlds[to], n);
  }

  lemma DurableIsLogged(w: World, n: nat)
    requires Durable(w, n)
    ensures 1 <= n <= |HistoryOf(w)|
  {
  }
}
