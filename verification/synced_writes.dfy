/** The writers in their queue and the database they write to, as one machine: what a call of Write may
    rely on when it returns (Write, MakeRoomForWrite and BuildBatchGroup of db/db_impl.cc). */
module SyncedWrites {
  import opened DbFormat
  import opened WriteBatches
  import opened GroupCommits
  import opened Databases
  import opened Recovery
  import opened StoreSteps
  import opened StoreInvariant
  import opened StoreHistory
  import opened StepsKeepHistory
  import opened StoreLife
  import opened CrashDurability
  import opened LogFiles
  import G = GroupSteps
  import R = GroupRuns

  /** `base` is the last sequence number when the database was opened: the queue counts from there. */
  datatype Joint = Joint(queue: G.State, store: Store, base: nat, meaning: Meaning)

  datatype JointStep = Queue(step: G.Step) | Background(action: Action)

  /** The batch that the first `n` writers make. */
  function GroupBatch(j: Joint, n: nat): Batch
    requires n <= |j.queue.queue|
  {
    Batch(j.base + j.queue.lastSequence + 1, OpsOf(G.Updates(j.queue, n), j.meaning))
  }

  /** The writer at the head of the queue has asked for its batch to be forced to the disk. */
  predicate LeaderSyncs(q: G.State) {
    q.queue != [] && q.queue[0] in q.requests && G.Leader(q).sync
  }

  /** What a step of the queue does to the database. An append that fails is not part of this model. */
  ghost predicate Moves(j: Joint, step: G.Step, y: Store) {
    var q, x := j.queue, j.store;
    match step
    case Arrive(_, _) => y == x
    case Lead => y == x
    case RoomMade(ok, _) => y == x && !x.state.writer.Creating? && (ok ==> !x.state.failed)
    case Append(ok) => ok && q.stage.Grouped? && q.stage.n <= |q.queue| && Does(x, Internal(LogBatch(GroupBatch(j, q.stage.n))), y)
    case Sync(ok) => if ok && LeaderSyncs(q) then Does(x, Action.Sync, y) else y == x
    case Insert => if q.stage.Synced? && q.stage.ok then Does(x, Internal(ApplyBatch), y) else y == x
    case Release =>
      // a log that could not be forced to the disk stops all further writes
      if !(q.stage.Ending? && q.stage.counted) then y == x
      else if q.stage.ok then Does(x, Internal(Publish), y)
      else Does(x, Internal(Fail), y)
  }

  /** What the other threads do, and the writer that makes room for a new memtable. */
  ghost predicate Elsewhere(q: G.State, action: Action) {
    && !action.Sync?
    && (action.Internal? ==> !action.step.LogBatch? && !action.step.ApplyBatch? && !action.step.Publish?)
    && (action.Internal? && (action.step.CreateLog? || action.step.SwitchLog?) ==> q.stage.MakingRoom?)
  }

  ghost predicate JointNext(j: Joint, step: JointStep, k: Joint) {
    && k.base == j.base && k.meaning == j.meaning
    && match step
       case Queue(gs) => G.Next(j.queue, gs, k.queue) && Moves(j, gs, k.store)
       case Background(action) => k.queue == j.queue && Elsewhere(j.queue, action) && Does(j.store, action, k.store)
  }

  /** A database that has just been opened, with nobody in the queue. */
  ghost predicate JointStarts(j: Joint) {
    G.Starts(j.queue) && StoreInv(j.store) && j.store.state.writer.Idle? && j.base == j.store.state.lastSequence
  }

  // ---------------------------------------------------------------- what always holds

  /** The updates of a batch are in the history at their numbers. */
  ghost predicate Written(history: seq<Option<Op>>, b: Batch) {
    forall n: nat :: HasUpdate(b, n) ==> 1 <= n <= |history| && history[n - 1] == Some(b.ops[n - b.sequence])
  }

  ghost predicate AllSafe(x: Store, b: Batch) {
    forall n: nat :: HasUpdate(b, n) ==> Safe(x, n)
  }

  ghost predicate WantsSync(rs: seq<Request>) {
    exists i :: 0 <= i < |rs| && rs[i].sync
  }

  function ReleasedBatch(j: Joint, g: G.Group): Batch {
    Batch(j.base + g.start, OpsOf(g.updates, j.meaning))
  }

  /** A group that went well is in the history, and if one of its writers asked for it nothing can take
      it away. */
  ghost predicate GroupKept(j: Joint, g: G.Group) {
    g.ok ==>
      && Written(j.store.history, ReleasedBatch(j, g))
      && (WantsSync(G.RequestsOf(j.queue.requests, g.writers)) ==> AllSafe(j.store, ReleasedBatch(j, g)))
  }

  /** The group under way is past the append. */
  predicate PastAppend(q: G.State) {
    (q.stage.Logged? || q.stage.Synced? || (q.stage.Ending? && q.stage.counted)) && q.stage.n <= |q.queue|
  }

  /** The writer at the head of the queue and the writer of the database are at the same place, unless
      the log could not be forced to the disk. */
  ghost predicate InStep(j: Joint) {
    var q, w := j.queue, j.store.state.writer;
    && (!q.failed ==> j.base + q.lastSequence == j.store.state.lastSequence)
    && (q.stage.Logged? || q.stage.Synced? || (q.stage.Ending? && q.stage.counted) ==> PastAppend(q) && !q.failed)
    && match q.stage
       case Free => q.failed || w.Idle?
       case MakingRoom => q.failed || w.Idle? || w.Creating?
       case Grouped(n) => !q.failed && w.Idle?
       case Logged(n, ok) => ok && w == Logged(GroupBatch(j, n))
       case Synced(n, ok, syncError) => syncError == !ok && w == Logged(GroupBatch(j, n))
       case Ending(n, counted, ok, syncError) =>
         if counted then syncError == !ok && w == if ok then Applied(GroupBatch(j, n)) else Logged(GroupBatch(j, n))
         else !syncError && (q.failed || w.Idle?)
  }

  /** What is known of the group under way. */
  ghost predicate UnderWay(j: Joint) {
    var q := j.queue;
    PastAppend(q) ==>
      && Written(j.store.history, GroupBatch(j, q.stage.n))
      && (!q.stage.Logged? && q.stage.ok && LeaderSyncs(q) ==> AllSafe(j.store, GroupBatch(j, q.stage.n)))
  }

  ghost predicate JointInv(j: Joint) {
    && (forall i :: 0 <= i < |j.queue.groups| ==> GroupKept(j, j.queue.groups[i]))
    && InStep(j) && UnderWay(j) && G.Inv(j.queue) && StoreInv(j.store)
  }

  lemma StartIsJoint(j: Joint)
    requires JointStarts(j)
    ensures JointInv(j)
  {
    hide StoreInv;
    G.StartIsOk(j.queue);
  }

  // ---------------------------------------------------------------- the database moves on

  /** Nothing written is forgotten, and nothing safe is lost. */
  ghost predicate Advances(x: Store, y: Store) {
    StoreInv(y) && x.history <= y.history && forall n: nat :: Safe(x, n) ==> Safe(y, n)
  }

  lemma ActionAdvances(x: Store, action: Action, y: Store)
    requires StoreInv(x) && Does(x, action, y)
    ensures Advances(x, y)
  {
    hide StoreInv, Does, Safe, SavedDurable;
    ActionKeepsInv(x, action, y);
    SavedLater(x, action, y);
    forall n: nat | Safe(x, n) ensures Safe(y, n) {
      ActionKeepsSafe(x, action, y, n);
    }
  }

  lemma StillKept(x: Store, y: Store, b: Batch)
    requires Advances(x, y)
    ensures Written(x.history, b) ==> Written(y.history, b)
    ensures AllSafe(x, b) ==> AllSafe(y, b)
  {
    hide StoreInv, Safe, HasUpdate;
  }

  lemma GroupStays(j: Joint, k: Joint, g: G.Group)
    requires GroupKept(j, g) && Advances(j.store, k.store) && k.base == j.base && k.meaning == j.meaning
    requires G.RequestsOf(k.queue.requests, g.writers) == G.RequestsOf(j.queue.requests, g.writers)
    ensures GroupKept(k, g)
  {
    hide Advances, Written, AllSafe, WantsSync, G.RequestsOf;
    StillKept(j.store, k.store, ReleasedBatch(j, g));
  }

  lemma SameRequests(q: G.State, step: G.Step, r: G.State, g: G.Group)
    requires G.Inv(q) && G.Next(q, step, r) && g in q.groups
    ensures G.RequestsOf(r.requests, g.writers) == G.RequestsOf(q.requests, g.writers)
  {
    hide G.InLine, G.Released, G.StageOk, G.AppliedOk, G.Contiguous, Together, G.Updates, G.Numbered;
    var i :| 0 <= i < |q.groups| && q.groups[i] == g;
    assert G.GroupOk(q.requests, q.log, q.synced, q.groups[i]);
  }

  lemma SameGroups(q: G.State, step: G.Step, r: G.State)
    requires G.Next(q, step, r)
    ensures !step.Release? ==> r.groups == q.groups
    ensures step.Release? ==> q.groups <= r.groups && |r.groups| == |q.groups| + 1
  {
    hide G.Updates, G.Numbered, G.RequestsOf, IsGroup;
  }

  /** The groups released before stay as they are. */
  lemma OldGroupsStay(j: Joint, step: JointStep, k: Joint)
    requires JointInv(j) && JointNext(j, step, k) && Advances(j.store, k.store)
    ensures |j.queue.groups| <= |k.queue.groups|
    ensures forall i :: 0 <= i < |j.queue.groups| ==> GroupKept(k, k.queue.groups[i])
    ensures !(step.Queue? && step.step.Release?) ==> |k.queue.groups| == |j.queue.groups|
    ensures step.Queue? && step.step.Release? ==> |k.queue.groups| == |j.queue.groups| + 1
  {
    hide G.Inv, StoreInv, InStep, UnderWay, GroupKept, Advances, G.Next, Moves, Does, G.RequestsOf;
    if step.Queue? {
      SameGroups(j.queue, step.step, k.queue);
    }
    forall i | 0 <= i < |j.queue.groups| ensures GroupKept(k, k.queue.groups[i]) {
      if step.Queue? {
        SameRequests(j.queue, step.step, k.queue, j.queue.groups[i]);
      }
      GroupStays(j, k, j.queue.groups[i]);
    }
  }

  // ---------------------------------------------------------------- the other threads

  lemma ElsewhereFrame(q: G.State, x: Store, action: Action, y: Store)
    requires Does(x, action, y) && Elsewhere(q, action)
    ensures y.state.lastSequence == x.state.lastSequence
    ensures y.state.writer == x.state.writer
            || (q.stage.MakingRoom? && ((x.state.writer.Idle? && y.state.writer.Creating?) || (x.state.writer.Creating? && y.state.writer.Idle?)))
  {
    hide Owed, NextJob;
    if action.Internal? {
      StepFrame(x.state, action.step, y.state);
    }
  }

  lemma StepFrame(s: State, step: Step, t: State)
    requires Next(s, step, t) && !step.LogBatch? && !step.ApplyBatch? && !step.Publish?
    ensures t.lastSequence == s.lastSequence
    ensures t.writer == s.writer || (step.CreateLog? && s.writer.Idle? && t.writer.Creating?) || (step.SwitchLog? && s.writer.Creating? && t.writer.Idle?)
  {
    hide BatchEntries, EditApplied, FlushEditOf, CompactionEditOf, OutputNumbers, Elements, Live;
  }

  lemma BackgroundKeeps(j: Joint, action: Action, k: Joint)
    requires JointInv(j) && JointNext(j, Background(action), k)
    ensures JointInv(k)
  {
    hide G.Inv, StoreInv, Does, Written, AllSafe, GroupKept, G.Updates;
    ActionAdvances(j.store, action, k.store);
    ElsewhereFrame(j.queue, j.store, action, k.store);
    OldGroupsStay(j, Background(action), k);
    if PastAppend(j.queue) {
      assert GroupBatch(k, k.queue.stage.n) == GroupBatch(j, j.queue.stage.n);
      StillKept(j.store, k.store, GroupBatch(j, j.queue.stage.n));
    }
    AdvancesInv(j.store, k.store);
  }

  lemma AdvancesInv(x: Store, y: Store)
    requires Advances(x, y)
    ensures StoreInv(y)
  {
    hide StoreInv, Safe;
  }

  lemma NothingMoves(x: Store)
    requires StoreInv(x)
    ensures Advances(x, x)
  {
    hide StoreInv, Safe;
  }

  // ---------------------------------------------------------------- the queue

  /** The writers in the queue and what they ask for are the same. */
  ghost predicate SameQueue(j: Joint, k: Joint) {
    k.queue.queue == j.queue.queue && k.queue.requests == j.queue.requests && k.queue.lastSequence == j.queue.lastSequence
    && k.queue.failed == j.queue.failed && k.base == j.base && k.meaning == j.meaning
  }

  lemma SameBatch(j: Joint, k: Joint, n: nat)
    requires SameQueue(j, k) && n <= |j.queue.queue|
    ensures GroupBatch(k, n) == GroupBatch(j, n) && LeaderSyncs(k.queue) == LeaderSyncs(j.queue)
  {
    hide Together;
  }

  lemma ArriveKeeps(j: Joint, id: nat, r: Request, k: Joint)
    requires JointInv(j) && JointNext(j, Queue(G.Arrive(id, r)), k)
    ensures InStep(k) && UnderWay(k)
  {
    hide StoreInv, Written, AllSafe, GroupKept, G.Updates, Together, G.Released, G.GroupsOk, G.StageOk, G.AppliedOk, G.Contiguous, G.WritersOf;
    R.InLineIn(j.queue);
    if PastAppend(j.queue) {
      R.ArriveUpdates(j.queue, id, r, k.queue, j.queue.stage.n);
      assert GroupBatch(k, j.queue.stage.n) == GroupBatch(j, j.queue.stage.n);
      assert j.queue.queue != [] by { PastAppendWaits(j.queue); }
      assert k.queue.queue[0] == j.queue.queue[0] && j.queue.queue[0] in j.queue.queue;
    }
  }

  lemma PastAppendWaits(q: G.State)
    requires G.Inv(q) && PastAppend(q)
    ensures q.stage.n > 0
  {
    hide G.Released, G.GroupsOk, G.AppliedOk, G.Contiguous, G.WritersOf, G.InLine, Together, G.RequestsOf;
  }

  lemma LeadKeeps(j: Joint, k: Joint)
    requires JointInv(j) && JointNext(j, Queue(G.Lead), k)
    ensures InStep(k) && UnderWay(k)
  {
    hide G.Inv, StoreInv, Written, AllSafe, GroupKept, G.Updates;
  }

  lemma RoomKeeps(j: Joint, ok: bool, n: nat, k: Joint)
    requires JointInv(j) && JointNext(j, Queue(G.RoomMade(ok, n)), k)
    ensures InStep(k) && UnderWay(k)
  {
    hide G.Inv, StoreInv, Written, AllSafe, GroupKept, G.Updates, IsGroup, G.RequestsOf;
  }

  lemma LogFrame(x: Store, b: Batch, y: Store)
    requires StoreInv(x) && Does(x, Internal(LogBatch(b)), y)
    ensures y.state.writer == Logged(b) && y.state.lastSequence == x.state.lastSequence && y.history == x.history + Made(b.ops)
    ensures b.sequence == |x.history| + 1
  {
    hide Inv, SavedOk, MemoryOk, BothGood, FlushPlaced, JobOk, SnapshotsOk, BatchEntries, Owed, NextJob;
  }

  lemma MadeIsWritten(history: seq<Option<Op>>, b: Batch)
    requires b.sequence == |history| + 1
    ensures Written(history + Made(b.ops), b)
  {
  }

  lemma AppendKeeps(j: Joint, ok: bool, k: Joint)
    requires JointInv(j) && JointNext(j, Queue(G.Append(ok)), k)
    ensures InStep(k) && UnderWay(k)
  {
    hide G.Inv, StoreInv, Does, Written, AllSafe, GroupKept, G.Updates;
    var b := GroupBatch(j, j.queue.stage.n);
    SameBatch(j, k, j.queue.stage.n);
    LogFrame(j.store, b, k.store);
    MadeIsWritten(j.store.history, b);
  }

  lemma SyncSafe(x: Store, y: Store, b: Batch)
    requires StoreInv(x) && Does(x, Action.Sync, y) && x.state.writer == Logged(b) && Written(x.history, b)
    ensures AllSafe(y, b) && y.state == x.state && y.history == x.history
  {
    hide StoreInv, Safe, HasUpdate;
    WriteIsLogged(x);
    forall n: nat | HasUpdate(b, n) ensures Safe(y, n) {
      SyncMakesSafe(x, y, b, n);
    }
  }

  lemma SyncKeeps(j: Joint, ok: bool, k: Joint)
    requires JointInv(j) && JointNext(j, Queue(G.Sync(ok)), k)
    ensures InStep(k) && UnderWay(k)
  {
    hide G.Inv, StoreInv, Does, Written, AllSafe, GroupKept, G.Updates;
    var n := j.queue.stage.n;
    SameBatch(j, k, n);
    if ok && LeaderSyncs(j.queue) {
      SyncSafe(j.store, k.store, GroupBatch(j, n));
    }
  }

  lemma ApplyFrame(x: Store, y: Store, b: Batch)
    requires Does(x, Internal(ApplyBatch), y) && x.state.writer == Logged(b)
    ensures y.state.writer == Applied(b) && y.state.lastSequence == x.state.lastSequence
  {
    hide BatchEntries, Owed, NextJob;
  }

  lemma InsertKeeps(j: Joint, k: Joint)
    requires JointInv(j) && JointNext(j, Queue(G.Insert), k)
    ensures InStep(k) && UnderWay(k)
  {
    hide G.Inv, StoreInv, Does, Written, AllSafe, GroupKept, G.Updates, G.Numbered;
    var n := j.queue.stage.n;
    SameBatch(j, k, n);
    if j.queue.stage.ok {
      ApplyFrame(j.store, k.store, GroupBatch(j, n));
      ActionAdvances(j.store, Internal(ApplyBatch), k.store);
      StillKept(j.store, k.store, GroupBatch(j, n));
    }
  }

  lemma PublishFrame(x: Store, y: Store, b: Batch)
    requires Does(x, Internal(Publish), y) && x.state.writer == Applied(b)
    ensures y.state.writer.Idle? && y.state.lastSequence == x.state.lastSequence + |b.ops|
  {
    hide Owed, NextJob;
  }

  /** Nobody who asked for the batch to be forced to the disk follows a leader who did not. */
  lemma LeaderDecides(q: G.State)
    requires G.Inv(q) && q.stage.Ending? && q.stage.counted && q.stage.n <= |q.queue|
    ensures WantsSync(G.RequestsOf(q.requests, q.queue[..q.stage.n])) ==> LeaderSyncs(q)
  {
    hide G.Released, G.GroupsOk, G.AppliedOk, G.Contiguous, G.WritersOf, Together, G.Updates;
    var n := q.stage.n;
    R.GroupUpdates(q, n);
    var rs := G.RequestsOf(q.requests, q.queue[..n]);
    if i :| 0 <= i < |rs| && rs[i].sync {
      assert rs[i] == G.RequestsOf(q.requests, q.queue)[i];
      if i == 0 {
        assert rs[0] == G.Leader(q);
      }
    }
  }

  lemma ReleaseFrame(q: G.State, r: G.State)
    requires G.Next(q, G.Release, r)
    ensures q.stage.Ending? && q.stage.n <= |q.queue| && r.requests == q.requests && r.stage.Free?
    ensures var us := if q.stage.counted then G.Updates(q, q.stage.n) else [];
            && r.failed == (q.failed || q.stage.syncError) && r.lastSequence == q.lastSequence + |us|
            && r.groups == q.groups + [G.Group(q.lastSequence + 1, q.queue[..q.stage.n], us, q.stage.ok)]
  {
    hide G.Updates;
  }

  lemma EmptyIsWritten(x: Store, b: Batch)
    requires b.ops == []
    ensures Written(x.history, b) && AllSafe(x, b)
  {
    hide Safe;
  }

  lemma ReleaseKeeps(j: Joint, k: Joint)
    requires JointInv(j) && JointNext(j, Queue(G.Release), k) && Advances(j.store, k.store)
    ensures InStep(k) && UnderWay(k) && |k.queue.groups| == |j.queue.groups| + 1 && GroupKept(k, k.queue.groups[|j.queue.groups|])
  {
    hide G.Inv, StoreInv, Does, Written, AllSafe, GroupKept, G.Updates, G.Next, G.RequestsOf, Advances, WantsSync;
    var q := j.queue;
    ReleaseFrame(q, k.queue);
    var n, g := q.stage.n, k.queue.groups[|q.groups|];
    if q.stage.counted {
      var b := GroupBatch(j, n);
      assert ReleasedBatch(k, g) == b;
      StillKept(j.store, k.store, b);
      if q.stage.ok {
        PublishFrame(j.store, k.store, b);
        LeaderDecides(q);
        assert GroupKept(k, g) by { IsKept(k, g); }
      } else {
        assert GroupKept(k, g) by { BadIsKept(k, g); }
      }
    } else {
      EmptyIsWritten(k.store, ReleasedBatch(k, g));
      assert GroupKept(k, g) by { IsKept(k, g); }
    }
  }

  lemma IsKept(j: Joint, g: G.Group)
    requires Written(j.store.history, ReleasedBatch(j, g))
    requires WantsSync(G.RequestsOf(j.queue.requests, g.writers)) ==> AllSafe(j.store, ReleasedBatch(j, g))
    ensures GroupKept(j, g)
  {
    hide Written, AllSafe, WantsSync, G.RequestsOf;
  }

  lemma BadIsKept(j: Joint, g: G.Group)
    requires !g.ok
    ensures GroupKept(j, g)
  {
  }

  // ---------------------------------------------------------------- every step

  lemma QueueAdvances(j: Joint, step: G.Step, y: Store)
    requires StoreInv(j.store) && Moves(j, step, y)
    ensures Advances(j.store, y)
  {
    hide StoreInv, Does, Advances, G.Updates;
    if y == j.store {
      NothingMoves(j.store);
    } else if action :| Does(j.store, action, y) {
      ActionAdvances(j.store, action, y);
    }
  }

  lemma JointKeepsInv(j: Joint, step: JointStep, k: Joint)
    requires JointInv(j) && JointNext(j, step, k)
    ensures JointInv(k)
  {
    hide G.Inv, StoreInv, InStep, UnderWay, GroupKept, G.Next, Moves, Does, Elsewhere, Advances;
    match step
    case Background(action) =>
      BackgroundKeeps(j, action, k);
    case Queue(gs) =>
      QueueAdvances(j, gs, k.store);
      AdvancesInv(j.store, k.store);
      R.StepKeepsInv(j.queue, gs, k.queue);
      OldGroupsStay(j, step, k);
      QueueKeeps(j, gs, k);
  }

  lemma QueueKeeps(j: Joint, step: G.Step, k: Joint)
    requires JointInv(j) && JointNext(j, Queue(step), k) && Advances(j.store, k.store)
    ensures InStep(k) && UnderWay(k)
    ensures step.Release? ==> |k.queue.groups| == |j.queue.groups| + 1 && GroupKept(k, k.queue.groups[|j.queue.groups|])
  {
    hide JointInv, JointNext, InStep, UnderWay, GroupKept, Advances;
    match step
    case Arrive(id, r) => ArriveKeeps(j, id, r, k);
    case Lead => LeadKeeps(j, k);
    case RoomMade(ok, n) => RoomKeeps(j, ok, n, k);
    case Append(ok) => AppendKeeps(j, ok, k);
    case Sync(ok) => SyncKeeps(j, ok, k);
    case Insert => InsertKeeps(j, k);
    case Release => ReleaseKeeps(j, k);
  }

  // ---------------------------------------------------------------- what Write promises

  ghost predicate IsJointRun(joints: seq<Joint>, steps: seq<JointStep>) {
    |joints| == |steps| + 1 && JointStarts(joints[0]) && forall i :: 0 <= i < |steps| ==> JointNext(joints[i], steps[i], joints[i + 1])
  }

  lemma {:induction false} JointRunKeepsInv(joints: seq<Joint>, steps: seq<JointStep>, n: nat)
    requires IsJointRun(joints, steps) && n <= |steps|
    ensures JointInv(joints[n])
  {
    hide JointInv, JointNext, JointStarts;
    if n == 0 {
      StartIsJoint(joints[0]);
    } else {
      JointRunKeepsInv(joints, steps, n - 1);
      JointKeepsInv(joints[n - 1], steps[n - 1], joints[n]);
    }
  }

  /** The updates have followed each other in the history, the first of them as number `first`. */
  ghost predicate InHistory(history: seq<Option<Op>>, first: nat, us: seq<Update>, m: Meaning) {
    forall i :: 0 <= i < |us| ==> IsNumber(history, first + i, us[i], m)
  }

  predicate IsNumber(history: seq<Option<Op>>, n: nat, u: Update, m: Meaning) {
    1 <= n <= |history| && history[n - 1] == Some(OpOf(u, m))
  }

  /** A writer that got a good status is in a group, with all its updates in a row. */
  lemma WriterPlace(q: G.State, id: nat) returns (k: nat, at: nat)
    requires G.Inv(q) && id in q.results && q.results[id] && id in q.requests && q.requests[id].batch.Some?
    ensures k < |q.groups| && q.groups[k].ok && at + |q.requests[id].batch.value| <= |q.groups[k].updates|
    ensures q.groups[k].updates[at..at + |q.requests[id].batch.value|] == q.requests[id].batch.value
    ensures q.requests[id].sync ==> WantsSync(G.RequestsOf(q.requests, q.groups[k].writers))
  {
    hide G.InLine, G.StageOk, G.AppliedOk, G.Contiguous, Together;
    k := R.GroupWith(q.groups, id);
    var g := q.groups[k];
    assert G.GroupOk(q.requests, q.log, q.synced, g);
    var rs := G.RequestsOf(q.requests, g.writers);
    var i :| 0 <= i < |g.writers| && g.writers[i] == id;
    assert rs[i] == q.requests[id];
    R.TogetherAt(rs, i, |rs|);
    at := |Together(rs, i)|;
  }

  lemma PartIsInHistory(history: seq<Option<Op>>, b: Batch, us: seq<Update>, at: nat, part: seq<Update>, m: Meaning)
    requires Written(history, b) && b.ops == OpsOf(us, m) && at + |part| <= |us| && us[at..at + |part|] == part
    ensures InHistory(history, b.sequence + at, part, m)
  {
    forall i | 0 <= i < |part| ensures IsNumber(history, b.sequence + at + i, part[i], m) {
      assert HasUpdate(b, b.sequence + at + i);
      assert us[at..at + |part|][i] == us[at + i];
    }
  }

  /** A call of Write that returns well has its updates in the history, one after the other: every later
      read and, as long as only the process crashes, every recovery finds them (StoreReads). */
  lemma ToldIsWritten(joints: seq<Joint>, steps: seq<JointStep>, a: nat, id: nat)
    requires IsJointRun(joints, steps) && a <= |steps| && id in joints[a].queue.results && id in joints[a].queue.requests
    requires joints[a].queue.results[id] && joints[a].queue.requests[id].batch.Some?
    ensures exists first :: InHistory(joints[a].store.history, first, joints[a].queue.requests[id].batch.value, joints[a].meaning)
  {
    hide G.Inv, StoreInv, InStep, UnderWay, JointNext, JointStarts, AllSafe, WantsSync, Written, InHistory, OpsOf;
    JointRunKeepsInv(joints, steps, a);
    var j := joints[a];
    var k, at := WriterPlace(j.queue, id);
    var g := j.queue.groups[k];
    assert GroupKept(j, g);
    var b := ReleasedBatch(j, g);
    PartIsInHistory(j.store.history, b, g.updates, at, j.queue.requests[id].batch.value, j.meaning);
    assert InHistory(j.store.history, b.sequence + at, j.queue.requests[id].batch.value, j.meaning);
  }

  lemma SafeStaysWritten(x: Store, b: Batch, worlds: seq<World>, events: seq<Event>, to: nat)
    requires StoreInv(x) && Written(x.history, b) && AllSafe(x, b) && IsRun(worlds, events) && worlds[0] == Up(x) && to <= |events|
    ensures Written(HistoryOf(worlds[to]), b)
  {
    hide StoreInv, Safe, Happens, CrashDurability.Durable;
    forall n: nat | HasUpdate(b, n)
      ensures 1 <= n <= |HistoryOf(worlds[to])| && HistoryOf(worlds[to])[n - 1] == Some(b.ops[n - b.sequence])
    {
      SafeSurvives(worlds, events, 0, to, n);
      DurableIsLogged(worlds[to], n);
    }
  }

  /** A call of Write with the sync option that returns well survives: whatever steps, crashes of the
      machine and openings follow, its updates are in the history, and every recovery finds them
      (StoreReads). */
  lemma ToldSurvives(joints: seq<Joint>, steps: seq<JointStep>, a: nat, id: nat, worlds: seq<World>, events: seq<Event>, to: nat)
    requires IsJointRun(joints, steps) && a <= |steps| && id in joints[a].queue.results && id in joints[a].queue.requests
    requires joints[a].queue.results[id] && joints[a].queue.requests[id].batch.Some? && joints[a].queue.requests[id].sync
    requires IsRun(worlds, events) && worlds[0] == Up(joints[a].store) && to <= |events|
    ensures exists first :: InHistory(HistoryOf(worlds[to]), first, joints[a].queue.requests[id].batch.value, joints[a].meaning)
  {
    hide G.Inv, StoreInv, InStep, UnderWay, JointNext, JointStarts, AllSafe, WantsSync, Written, InHistory, OpsOf, Happens;
    JointRunKeepsInv(joints, steps, a);
    var j := joints[a];
    var k, at := WriterPlace(j.queue, id);
    var g := j.queue.groups[k];
    assert GroupKept(j, g);
    var b := ReleasedBatch(j, g);
    SafeStaysWritten(j.store, b, worlds, events, to);
    PartIsInHistory(HistoryOf(worlds[to]), b, g.updates, at, j.queue.requests[id].batch.value, j.meaning);
    assert InHistory(HistoryOf(worlds[to]), b.sequence + at, j.queue.requests[id].batch.value, j.meaning);
  }
}
