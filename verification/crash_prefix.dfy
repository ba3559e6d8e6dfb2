/** When what a crash of the machine leaves is all that was written up to some point, and that it need
    not be: MakeRoomForWrite leaves a log behind without forcing it to the disk (db/db_impl.cc, sync of
    include/leveldb/options.h). */
module CrashPrefix {
  import opened DbFormat
  import opened Versions
  import opened Builders
  import opened CompactionReads
  import opened Databases
  import opened Recovery
  import opened StoreSteps
  import opened StoreInvariant
  import opened StoreContents
  import opened StoreHistory
  import opened StepsKeepHistory
  import opened StoreLife
  import opened LogReplay
  import opened LogOrder
  import opened CrashDurability
  import O = StoreOpen

  /** `after` is what was left of `history` after its first `n` updates. */
  ghost predicate AsOf(history: seq<Option<Op>>, after: seq<Option<Op>>, n: nat) {
    && n <= |after| <= |history|
    && (forall i :: 0 <= i < n ==> after[i] == history[i])
    && (forall i :: n <= i < |after| ==> after[i] == None)
  }

  /** No log has lost a batch while a later one has kept one. */
  ghost predicate NoGap(logs: map<nat, seq<Batch>>, left: map<nat, seq<Batch>>, from: nat) {
    forall m, n, b, c :: m in logs && n in left && from <= m < n && b in logs[m] && c in left[n] && b.ops != [] && c.ops != []
                         ==> m in left && b in left[m]
  }

  // ---------------------------------------------------------------- what is left can be told

  lemma {:induction false} LastExists(logs: map<nat, seq<Batch>>, from: nat, base: nat, bound: nat) returns (last: nat)
    requires base <= bound && forall n, b :: n in logs && from <= n && b in logs[n] ==> End(b) <= bound + 1
    ensures LastOf(logs, from, base, last) && last <= bound
    decreases bound
  {
    if base == bound || exists n, b :: n in logs && from <= n && b in logs[n] && End(b) == bound + 1 {
      last := bound;
    } else {
      last := LastExists(logs, from, base, bound - 1);
    }
  }

  lemma BatchesWithin(logs: map<nat, seq<Batch>>, from: nat, base: nat, last: nat, synced: map<nat, nat>, left: map<nat, seq<Batch>>)
    requires LastOf(logs, from, base, last) && CutLogs(logs, synced, from, left)
    ensures base <= last && forall n, b :: n in left && from <= n && b in left[n] ==> End(b) <= last + 1
  {
    forall n, b | n in left && from <= n && b in left[n] ensures End(b) <= last + 1 {
      assert b in logs[n];
    }
  }

  /** Every crash leaves some of the updates. */
  lemma CrashIsPossible(x: Store, left: Disk) returns (after: seq<Option<Op>>)
    requires StoreInv(x) && CrashLeaves(x, left)
    ensures Survives(x, left, after)
  {
    hide Inv, BothGood, FlushPlaced, JobOk, SavedOk, MemoryOk, AllOnDisk, CutLogs, LastOf, Unflushed, LogsFrom, Lost, ManifestOk, Describes, DurableLog,
         SnapshotsOk, LastSequenceOf;
    LogsHold(x.state);
    var logs, from, base := x.state.disk.logs, DurableLog(x.state), LastSequenceOf(left.manifest).value;
    BatchesWithin(logs, from, base, |x.history|, x.synced, left.logs);
    var last := LastExists(left.logs, from, base, |x.history|);
    after := seq(last, i requires 0 <= i < last => if Lost(logs, left.logs, from, i + 1) then None else x.history[i]);
  }

  // ---------------------------------------------------------------- the order of what was written

  /** Earlier updates are in earlier logs, or earlier in the same log. */
  lemma InWrittenOrder(logs: map<nat, seq<Batch>>, from: nat, m: nat, p: nat, i: nat, n: nat, q: nat, j: nat)
    requires LogsInOrder(logs, from) && m in logs && n in logs && from <= m && from <= n && p < |logs[m]| && q < |logs[n]|
    requires HasUpdate(logs[m][p], i) && HasUpdate(logs[n][q], j) && i <= j
    ensures m < n || (m == n && p <= q)
    ensures i == j ==> m == n && p == q
  {
    assert logs[m][p] in logs[m] && logs[n][q] in logs[n];
    if m == n {
      assert InOrder(logs[m]);
    }
  }

  lemma EarlierIsKept(logs: map<nat, seq<Batch>>, synced: map<nat, nat>, from: nat, left: map<nat, seq<Batch>>, i: nat, j: nat)
    requires LogsInOrder(logs, from) && CutLogs(logs, synced, from, left) && NoGap(logs, left, from)
    requires Holding(LogsFrom(logs, from), i) && Holding(LogsFrom(left, from), j) && i <= j
    ensures Holding(LogsFrom(left, from), i)
  {
    hide LogsFrom, LogsInOrder;
    var m, p := HoldsNumbered(logs, from, i);
    var n, q := HoldsNumbered(left, from, j);
    assert left[n][q] == logs[n][q];
    InWrittenOrder(logs, from, m, p, i, n, q, j);
    var b := logs[m][p];
    assert b in logs[m] && left[n][q] in left[n];
    if m == n {
      assert left[n][p] == b;
    }
    assert m in left && b in left[m];
    NumberedHolds(left, from, m, b, i);
  }

  /** The last update that is left, counted from one. */
  function LastLeft(after: seq<Option<Op>>): (n: nat)
    ensures n <= |after| && (n > 0 ==> after[n - 1].Some?) && forall i :: n <= i < |after| ==> after[i] == None
  {
    if after == [] || after[|after| - 1].Some? then |after| else LastLeft(after[..|after| - 1])
  }

  lemma NoGapLeavesPrefix(x: Store, left: Disk, after: seq<Option<Op>>)
    requires StoreInv(x) && InLogOrder(Up(x)) && CrashLeaves(x, left) && Survives(x, left, after)
    requires NoGap(x.state.disk.logs, left.logs, DurableLog(x.state))
    ensures AsOf(x.history, after, LastLeft(after))
  {
    hide Inv, BothGood, FlushPlaced, JobOk, SavedOk, MemoryOk, HistoryOk, AllOnDisk, CutLogs, LastOf, Unflushed, LogsFrom, ManifestOk, Describes,
         DurableLog, LogsInOrder, NoGap, LastSequenceOf, Entries, UpTo, Good, SavedDurable, LogNumberOf, Holding;
    var n, logs, from := LastLeft(after), x.state.disk.logs, DurableLog(x.state);
    LogsHold(x.state);
    DurableIsGood(x);
    forall i | 0 <= i < n ensures after[i] == x.history[i] {
      if Lost(logs, left.logs, from, i + 1) {
        assert Holding(Unflushed(x.state), n) by { HeldBehind(Unflushed(x.state), x.history, SavedDurable(x), i + 1, n); }
        EarlierIsKept(logs, x.synced, from, left.logs, i + 1, n);
      }
    }
  }

  /** Behind an update in memory every update is in memory. */
  lemma HeldBehind(es: set<Entry>, history: seq<Option<Op>>, saved: nat, i: nat, n: nat)
    requires HoldsFrom(es, history, saved) && Holding(es, i) && i <= n <= |history| && history[n - 1].Some?
    ensures Holding(es, n)
  {
  }

  lemma StillMade(x: Store, es: set<Entry>, n: nat)
    requires StoreInv(x) && es <= Unflushed(x.state) && Holding(es, n)
    ensures 1 <= n <= |x.history| && x.history[n - 1].Some?
  {
    hide StoreInv, ValidVersion, Faithful, NewerSet, Entries, UpTo, HoldsFrom, Genuine, Unflushed, SavedDurable, Oldest, DurableVersion;
    DurableIsGood(x);
    var e :| e in es && e.key.sequence == n;
    MadeAt(Unflushed(x.state) + Entries(DurableVersion(x.state)), x.history, e);
  }

  lemma BatchesApart(logs: map<nat, seq<Batch>>, synced: map<nat, nat>, from: nat, left: map<nat, seq<Batch>>, k: nat, b: Batch, m: nat, c: Batch)
    requires LogsInOrder(logs, from) && CutLogs(logs, synced, from, left)
    requires k in logs && m in left && from <= k < m && b in logs[k] && c in left[m]
    ensures End(b) <= c.sequence && m in logs && c in logs[m]
  {
    hide InOrder;
    var i :| 0 <= i < |left[m]| && left[m][i] == c;
    assert logs[m][i] == c;
  }

  lemma OnlyBatchWith(logs: map<nat, seq<Batch>>, synced: map<nat, nat>, from: nat, left: map<nat, seq<Batch>>, k: nat, b: Batch, n: nat)
    requires LogsInOrder(logs, from) && CutLogs(logs, synced, from, left)
    requires k in logs && from <= k && b in logs[k] && HasUpdate(b, n) && Holding(LogsFrom(left, from), n)
    ensures k in left && b in left[k]
  {
    hide LogsFrom, LogsInOrder, Holding, HasUpdate;
    var m, q := HoldsNumbered(left, from, n);
    var p :| 0 <= p < |logs[k]| && logs[k][p] == b;
    assert left[m][q] == logs[m][q];
    InWrittenOrder(logs, from, k, p, n, m, q, n);
  }

  lemma GapLeavesNoPrefix(x: Store, left: Disk, after: seq<Option<Op>>, n: nat)
    requires StoreInv(x) && InLogOrder(Up(x)) && CrashLeaves(x, left) && Survives(x, left, after) && AsOf(x.history, after, n)
    ensures NoGap(x.state.disk.logs, left.logs, DurableLog(x.state))
  {
    hide Inv, BothGood, FlushPlaced, JobOk, SavedOk, MemoryOk, HistoryOk, AllOnDisk, CutLogs, LastOf, Unflushed, LogsFrom, ManifestOk, Describes,
         DurableLog, LogsInOrder, LastSequenceOf, Entries, UpTo, Good, SavedDurable, LogNumberOf, Holding;
    var logs, from := x.state.disk.logs, DurableLog(x.state);
    LogsHold(x.state);
    DurableIsGood(x);
    EndsAtLast(left.logs, from, LastSequenceOf(left.manifest).value, |after|);
    forall k: nat, m: nat, b: Batch, c: Batch | k in logs && m in left.logs && from <= k < m && b in logs[k] && c in left.logs[m] && b.ops != [] && c.ops != []
      ensures k in left.logs && b in left.logs[k]
    {
      NumberedHolds(logs, from, k, b, b.sequence);
      NumberedHolds(left.logs, from, m, c, c.sequence);
      BatchesApart(logs, x.synced, from, left.logs, k, b, m, c);
      KeptPart(logs, x.synced, from, left.logs);
      StillMade(x, LogsFrom(left.logs, from), c.sequence);
      StillMade(x, LogsFrom(logs, from), b.sequence);
      KeptUpTo(LogsFrom(left.logs, from), |after|, c.sequence);
      assert after[c.sequence - 1] == x.history[c.sequence - 1];
      assert after[b.sequence - 1] == x.history[b.sequence - 1];
      OnlyBatchWith(logs, x.synced, from, left.logs, k, b, b.sequence);
    }
  }

  lemma KeptUpTo(es: set<Entry>, n: nat, i: nat)
    requires UpTo(es, n) && Holding(es, i)
    ensures i <= n
  {
  }

  /** What a crash of the machine leaves is all that was written up to some point if and only if no log
      has lost a batch while a later one has kept one. */
  lemma LeavesPrefixIff(x: Store, left: Disk, after: seq<Option<Op>>)
    requires StoreInv(x) && InLogOrder(Up(x)) && CrashLeaves(x, left) && Survives(x, left, after)
    ensures (exists n :: AsOf(x.history, after, n)) <==> NoGap(x.state.disk.logs, left.logs, DurableLog(x.state))
  {
    hide StoreInv, InLogOrder, CrashLeaves, Survives, AsOf, NoGap;
    if NoGap(x.state.disk.logs, left.logs, DurableLog(x.state)) {
      NoGapLeavesPrefix(x, left, after);
    }
    if n :| AsOf(x.history, after, n) {
      GapLeavesNoPrefix(x, left, after, n);
    }
  }

  lemma SomeBetween(logs: map<nat, seq<Batch>>, from: nat, to: nat, m: nat, b: Batch)
    requires m in logs && from <= m < to && b in logs[m] && b.ops != []
    ensures LogsBetween(logs, from, to) != {}
  {
    var e := Entry(InternalKey(b.ops[0].user, b.sequence + 0, b.ops[0].kind), b.ops[0].value);
    assert e in BatchEntries(b) && e in LogEntries(logs[m]);
    assert e in LogsBetween(logs, from, to);
  }

  lemma OneLogMatters(logs: map<nat, seq<Batch>>, synced: map<nat, nat>, from: nat, current: nat, left: map<nat, seq<Batch>>)
    requires CutLogs(logs, synced, from, left)
    requires forall n :: n in logs && n > current ==> logs[n] == []
    requires forall m, b :: m in logs && from <= m < current && b in logs[m] ==> b.ops == []
    ensures NoGap(logs, left, from)
  {
  }

  /** When no memtable is being flushed only one log matters, and then there is no gap. */
  lemma OneLogHasNoGap(x: Store, left: Disk)
    requires StoreInv(x) && CrashLeaves(x, left) && x.state.imm.None?
    ensures NoGap(x.state.disk.logs, left.logs, DurableLog(x.state))
  {
    hide ManifestOk, TablesOk, LastOf, NumbersOk, WriterOk, FlushOk, WorkOk, Good, BothGood, FlushPlaced, JobOk, HistoryOk, SavedOk, MemoryOk,
         EditApplied, AddedAt, LogEntries, AllOnDisk, LogsBetween, CutLogs, NoGap;
    var logs, from, current := x.state.disk.logs, DurableLog(x.state), x.state.logfileNumber;
    forall m, b | m in logs && from <= m < current && b in logs[m] ensures b.ops == [] {
      if b.ops != [] {
        SomeBetween(logs, x.state.logNumber, current, m, b);
      }
    }
    OneLogMatters(logs, x.synced, from, current, left.logs);
  }

  // ---------------------------------------------------------------- batches are whole

  ghost predicate AllThere(history: seq<Option<Op>>, after: seq<Option<Op>>, b: Batch) {
    forall n: nat :: HasUpdate(b, n) ==> 1 <= n <= |after| && n <= |history| && after[n - 1] == history[n - 1]
  }

  ghost predicate NoneThere(after: seq<Option<Op>>, b: Batch) {
    forall n: nat :: HasUpdate(b, n) && 1 <= n <= |after| ==> after[n - 1] == None
  }

  /** A crash leaves the updates of a batch all together or not at all. */
  lemma CrashLeavesWholeBatches(x: Store, left: Disk, after: seq<Option<Op>>, k: nat, b: Batch)
    requires StoreInv(x) && InLogOrder(Up(x)) && CrashLeaves(x, left) && Survives(x, left, after)
    requires k in x.state.disk.logs && DurableLog(x.state) <= k && b in x.state.disk.logs[k]
    ensures if k in left.logs && b in left.logs[k] then AllThere(x.history, after, b) else NoneThere(after, b)
  {
    hide Inv, BothGood, FlushPlaced, JobOk, SavedOk, MemoryOk, HistoryOk, AllOnDisk, CutLogs, LastOf, Unflushed, LogsFrom, ManifestOk, Describes,
         DurableLog, LogsInOrder, LastSequenceOf, Entries, UpTo, Good, SavedDurable, LogNumberOf, Holding, HasUpdate;
    var logs, from := x.state.disk.logs, DurableLog(x.state);
    LogsHold(x.state);
    EndsAtLast(left.logs, from, LastSequenceOf(left.manifest).value, |after|);
    KeptPart(logs, x.synced, from, left.logs);
    forall n: nat | HasUpdate(b, n)
      ensures 1 <= n <= |x.history|
      ensures if k in left.logs && b in left.logs[k] then n <= |after| && after[n - 1] == x.history[n - 1]
              else n <= |after| ==> after[n - 1] == None
    {
      NumberedHolds(logs, from, k, b, n);
      StillMade(x, LogsFrom(logs, from), n);
      if k in left.logs && b in left.logs[k] {
        NumberedHolds(left.logs, from, k, b, n);
        KeptUpTo(LogsFrom(left.logs, from), |after|, n);
      } else if Holding(LogsFrom(left.logs, from), n) {
        OnlyBatchWith(logs, x.synced, from, left.logs, k, b, n);
      }
    }
  }
}
