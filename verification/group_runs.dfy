/** What group commit promises over any run (Write of db/db_impl.cc). */
module GroupRuns {
  import opened DbFormat
  import opened WriteBatches
  import opened GroupCommits
  import opened GroupSteps

  lemma {:induction false} SameTogether(rs: seq<Request>, qs: seq<Request>, n: nat)
    requires n <= |rs| && n <= |qs| && rs[..n] == qs[..n]
    ensures Together(rs, n) == Together(qs, n)
  {
    if n > 0 {
      assert rs[..n - 1] == rs[..n][..n - 1] && qs[..n - 1] == qs[..n][..n - 1];
      SameTogether(rs, qs, n - 1);
      assert rs[n - 1] == rs[..n][n - 1] && qs[n - 1] == qs[..n][n - 1];
    }
  }

  /** A newcomer changes nothing for those who were there. */
  lemma SameRequests(requests: map<nat, Request>, ids: seq<nat>, more: seq<nat>, id: nat, r: Request)
    requires id !in requests && forall i :: 0 <= i < |ids| ==> ids[i] in requests
    ensures RequestsOf(requests[id := r], ids + more)[..|ids|] == RequestsOf(requests, ids)
  {
  }

  // ---------------------------------------------------------------- each step

  lemma InLineIn(s: State)
    requires InLine(s)
    ensures forall id :: id in s.queue || id in WritersOf(s.groups) ==> id in s.requests
  {
    forall id | id in s.queue || id in WritersOf(s.groups) ensures id in s.arrived {
      if id in s.queue {
        var i :| 0 <= i < |s.queue| && s.queue[i] == id;
        assert s.arrived[|WritersOf(s.groups)| + i] == id;
      } else {
        var i :| 0 <= i < |WritersOf(s.groups)| && WritersOf(s.groups)[i] == id;
        assert s.arrived[i] == id;
      }
    }
  }

  lemma ArriveInLine(s: State, id: nat, r: Request, t: State)
    requires InLine(s) && Next(s, Arrive(id, r), t)
    ensures InLine(t) && RequestsOf(t.requests, t.queue)[..|s.queue|] == RequestsOf(s.requests, s.queue)
  {
    InLineIn(s);
    SameRequests(s.requests, s.queue, [id], id, r);
    assert WritersOf(s.groups) + (s.queue + [id]) == WritersOf(s.groups) + s.queue + [id];
    assert forall i :: 0 <= i < |s.arrived| ==> s.arrived[i] in s.requests;
  }

  lemma ArriveGroup(s: State, id: nat, r: Request, t: State, g: Group)
    requires Next(s, Arrive(id, r), t) && GroupOk(s.requests, s.log, s.synced, g)
    ensures GroupOk(t.requests, t.log, t.synced, g)
  {
    hide Together;
    assert RequestsOf(t.requests, g.writers) == RequestsOf(s.requests, g.writers);
  }

  lemma ArriveUpdates(s: State, id: nat, r: Request, t: State, n: nat)
    requires InLine(s) && Next(s, Arrive(id, r), t) && n <= |s.queue|
    ensures Updates(t, n) == Updates(s, n)
  {
    ArriveInLine(s, id, r, t);
    var rs, qs := RequestsOf(s.requests, s.queue), RequestsOf(t.requests, t.queue);
    assert qs[..n] == qs[..|s.queue|][..n];
    SameTogether(rs, qs, n);
  }

  lemma ArriveStage(s: State, id: nat, r: Request, t: State)
    requires InLine(s) && InLine(t) && Next(s, Arrive(id, r), t) && StageOk(s) && AppliedOk(s)
    ensures StageOk(t) && AppliedOk(t)
  {
    hide InLine, Together, Numbered, Updates;
    ArriveInLine(s, id, r, t);
    InLineIn(s);
    var rs, qs := RequestsOf(s.requests, s.queue), RequestsOf(t.requests, t.queue);
    forall n: nat | n <= |s.queue| ensures Updates(t, n) == Updates(s, n) {
      ArriveUpdates(s, id, r, t, n);
    }
    forall i: nat | i < |s.queue| ensures qs[i] == rs[i] {
      assert qs[i] == qs[..|s.queue|][i];
    }
  }

  lemma ArriveKeeps(s: State, id: nat, r: Request, t: State)
    requires Inv(s) && Next(s, Arrive(id, r), t)
    ensures Inv(t)
  {
    hide InLine, StageOk, AppliedOk, GroupOk, Contiguous;
    ArriveInLine(s, id, r, t);
    ArriveStage(s, id, r, t);
    forall i | 0 <= i < |s.groups| ensures GroupOk(t.requests, t.log, t.synced, s.groups[i]) {
      ArriveGroup(s, id, r, t, s.groups[i]);
    }
  }

  lemma LeadKeeps(s: State, t: State)
    requires Inv(s) && Next(s, Lead, t)
    ensures Inv(t)
  {
    hide GroupOk, Contiguous, Together;
  }

  lemma RoomKeeps(s: State, ok: bool, n: nat, t: State)
    requires Inv(s) && Next(s, RoomMade(ok, n), t)
    ensures Inv(t)
  {
    hide GroupOk, Contiguous, Together, TotalSize, AppliedBy, Numbered, WritersOf;
    var rs := RequestsOf(s.requests, s.queue);
    assert rs[0] == Leader(s);
    if ok && Leader(s).batch.Some? {
      forall i | 0 < i < n ensures !(rs[i].sync && !Leader(s).sync) {
        assert Joins(rs, i);
      }
    }
  }

  /** More in the log, and more of it on disk, is no harm to a group. */
  lemma LogGroup(s: State, t: State, g: Group)
    requires GroupOk(s.requests, s.log, s.synced, g) && t.requests == s.requests && s.log <= t.log && s.synced <= t.synced <= |t.log|
    requires s.synced <= |s.log|
    ensures GroupOk(t.requests, t.log, t.synced, g)
  {
    hide Together, RequestsOf;
    Prefixes(s.log, t.log, s.synced, t.synced, LogRecord(g.start, g.updates));
  }

  lemma Prefixes(a: seq<LogRecord>, b: seq<LogRecord>, m: nat, n: nat, x: LogRecord)
    requires a <= b && m <= |a| && m <= n <= |b|
    ensures x in a ==> x in b
    ensures x in a[..m] ==> x in b[..n]
  {
    if x in a[..m] {
      var i :| 0 <= i < m && a[..m][i] == x;
      assert b[..n][i] == x;
    }
    if x in a {
      var i :| 0 <= i < |a| && a[i] == x;
      assert b[i] == x;
    }
  }

  lemma LogKeeps(s: State, step: Step, t: State)
    requires Inv(s) && Next(s, step, t) && (step.Append? || step.Sync?)
    ensures Inv(t)
  {
    hide GroupOk, Contiguous, Together, Numbered, RequestsOf;
    forall i | 0 <= i < |s.groups| ensures GroupOk(t.requests, t.log, t.synced, s.groups[i]) {
      LogGroup(s, t, s.groups[i]);
    }
    assert Updates(t, s.stage.n) == Updates(s, s.stage.n);
    assert t.log[..|t.log|] == t.log;
  }

  lemma InsertKeeps(s: State, t: State)
    requires Inv(s) && Next(s, Insert, t)
    ensures Inv(t)
  {
    hide GroupOk, Contiguous, Together, Numbered, RequestsOf;
    assert Updates(t, s.stage.n) == Updates(s, s.stage.n);
  }

  // ---------------------------------------------------------------- the release

  lemma ReleaseInLine(s: State, t: State)
    requires InLine(s) && Next(s, Release, t)
    ensures InLine(t) && WritersOf(t.groups) == WritersOf(s.groups) + s.queue[..s.stage.n]
  {
    hide Together, Updates;
    var ids := s.queue[..s.stage.n];
    assert t.groups[..|s.groups|] == s.groups;
    assert s.queue == ids + t.queue;
    assert WritersOf(s.groups) + (ids + t.queue) == WritersOf(s.groups) + ids + t.queue;
  }

  lemma ReleaseResults(s: State, t: State)
    requires InLine(s) && Released(s) && Next(s, Release, t) && WritersOf(t.groups) == WritersOf(s.groups) + s.queue[..s.stage.n]
    ensures Released(t)
  {
    hide Together, Updates, InLine, WritersOf, RequestsOf;
    var ids := s.queue[..s.stage.n];
    forall i, id | 0 <= i < |t.groups| && id in t.groups[i].writers ensures id in t.results && t.results[id] == t.groups[i].ok {
      if i < |s.groups| {
        WriterListed(s.groups, i, id);
        Apart(s, id);
      }
    }
  }

  lemma {:induction false} WriterListed(groups: seq<Group>, i: nat, id: nat)
    requires i < |groups| && id in groups[i].writers
    ensures id in WritersOf(groups)
  {
    var n := |groups| - 1;
    if i < n {
      WriterListed(groups[..n], i, id);
    }
  }

  lemma Apart(s: State, id: nat)
    requires InLine(s) && id in WritersOf(s.groups)
    ensures id !in s.queue
  {
    var i :| 0 <= i < |WritersOf(s.groups)| && WritersOf(s.groups)[i] == id;
    assert s.arrived[i] == id;
    forall j | 0 <= j < |s.queue| ensures s.queue[j] != id {
      assert s.arrived[|WritersOf(s.groups)| + j] == s.queue[j];
    }
  }

  lemma GroupUpdates(s: State, n: nat)
    requires n <= |s.queue|
    ensures var rs := RequestsOf(s.requests, s.queue[..n]);
            |rs| == n && Together(rs, n) == Updates(s, n) && rs == RequestsOf(s.requests, s.queue)[..n]
  {
    var rs, qs := RequestsOf(s.requests, s.queue[..n]), RequestsOf(s.requests, s.queue);
    assert rs == qs[..n];
    assert rs[..n] == rs;
    SameTogether(rs, qs, n);
  }

  lemma ReleaseGroup(s: State, t: State)
    requires Inv(s) && Next(s, Release, t)
    ensures GroupOk(t.requests, t.log, t.synced, t.groups[|s.groups|])
  {
    hide Together, Updates, Released, GroupsOk, AppliedOk, Contiguous, Numbered;
    InLineIn(s);
    var n, g := s.stage.n, t.groups[|s.groups|];
    GroupUpdates(s, n);
    var rs, qs := RequestsOf(s.requests, g.writers), RequestsOf(s.requests, s.queue);
    forall i | 0 <= i < n ensures rs[i] == qs[i] {
      assert rs[i] == qs[..n][i];
    }
    assert rs[0] == Leader(s);
  }

  lemma ReleaseRest(s: State, t: State)
    requires Inv(s) && Next(s, Release, t)
    ensures Contiguous(t.groups) && t.lastSequence + 1 == EndOf(t.groups) && AppliedOk(t)
  {
    hide Together, Updates, Released, GroupsOk, InLine, Numbered, GroupOk, RequestsOf, StageOk;
    var n := |s.groups|;
    assert t.groups[..n] == s.groups;
    forall i | 0 <= i < |t.groups| ensures t.groups[i].start == EndOf(t.groups[..i]) {
      if i < n {
        assert t.groups[..i] == s.groups[..i];
      }
    }
    NothingNumbered(s.lastSequence + 1);
  }

  lemma NothingNumbered(start: nat)
    ensures Numbered(start, []) == {}
  {
  }

  lemma ReleaseKeeps(s: State, t: State)
    requires Inv(s) && Next(s, Release, t)
    ensures Inv(t)
  {
    hide InLine, Released, GroupOk, Contiguous, AppliedOk, Together, Numbered;
    ReleaseInLine(s, t);
    ReleaseResults(s, t);
    ReleaseGroup(s, t);
    ReleaseRest(s, t);
    forall i | 0 <= i < |t.groups| ensures GroupOk(t.requests, t.log, t.synced, t.groups[i]) {
      if i < |s.groups| {
        assert GroupOk(s.requests, s.log, s.synced, s.groups[i]);
      }
    }
  }

  lemma StepKeepsInv(s: State, step: Step, t: State)
    requires Inv(s) && Next(s, step, t)
    ensures Inv(t)
  {
    hide Inv, Next;
    match step
    case Arrive(id, r) => ArriveKeeps(s, id, r, t);
    case Lead => LeadKeeps(s, t);
    case RoomMade(ok, n) => RoomKeeps(s, ok, n, t);
    case Append(_) => LogKeeps(s, step, t);
    case Sync(_) => LogKeeps(s, step, t);
    case Insert => InsertKeeps(s, t);
    case Release => ReleaseKeeps(s, t);
  }

  // ---------------------------------------------------------------- sequence numbers

  lemma {:induction false} EndsGrow(groups: seq<Group>, i: nat, j: nat)
    requires Contiguous(groups) && i <= j <= |groups|
    ensures EndOf(groups[..i]) <= EndOf(groups[..j])
    decreases j
  {
    if i < j {
      EndsGrow(groups, i, j - 1);
      assert groups[..j][j - 1] == groups[j - 1];
      assert groups[j - 1].start == EndOf(groups[..j - 1]);
    }
  }

  /** What the first `k` groups applied is what all groups applied below their end. */
  lemma {:induction false} AppliedSplits(groups: seq<Group>, k: nat, e: (nat, Update))
    requires Contiguous(groups) && k <= |groups|
    ensures e in AppliedBy(groups[..k]) <==> e in AppliedBy(groups) && e.0 < EndOf(groups[..k])
  {
    var n := |groups| - 1;
    if k == |groups| {
      assert groups[..k] == groups;
      if e in AppliedBy(groups) {
        AppliedBelow(groups, e);
      }
    } else {
      var rest := groups[..n];
      ContiguousPrefix(groups, n);
      AppliedSplits(rest, k, e);
      assert rest[..k] == groups[..k];
      EndsGrow(groups, k, n);
      assert groups[n].start == EndOf(groups[..n]);
    }
  }

  lemma ContiguousPrefix(groups: seq<Group>, n: nat)
    requires Contiguous(groups) && n <= |groups|
    ensures Contiguous(groups[..n])
  {
    forall i | 0 <= i < n ensures groups[..n][i].start == EndOf(groups[..n][..i]) {
      assert groups[..n][..i] == groups[..i];
    }
  }

  lemma {:induction false} AppliedBelow(groups: seq<Group>, e: (nat, Update))
    requires Contiguous(groups) && e in AppliedBy(groups)
    ensures e.0 < EndOf(groups)
  {
    var n := |groups| - 1;
    var g := groups[n];
    if e in AppliedBy(groups[..n]) {
      ContiguousPrefix(groups, n);
      AppliedBelow(groups[..n], e);
      assert g.start == EndOf(groups[..n]);
    }
  }

  // ---------------------------------------------------------------- runs

  ghost predicate IsRun(states: seq<State>, steps: seq<Step>) {
    |states| == |steps| + 1 && Starts(states[0]) && forall i :: 0 <= i < |steps| ==> Next(states[i], steps[i], states[i + 1])
  }

  lemma {:induction false} RunKeepsInv(states: seq<State>, steps: seq<Step>, n: nat)
    requires IsRun(states, steps) && n <= |steps|
    ensures Inv(states[n])
  {
    hide Inv, Next;
    if n == 0 {
      StartIsOk(states[0]);
    } else {
      RunKeepsInv(states, steps, n - 1);
      StepKeepsInv(states[n - 1], steps[n - 1], states[n]);
    }
  }

  /** Groups and statuses, once there, stay as they are. */
  ghost predicate Keeps(s: State, t: State) {
    s.groups <= t.groups && forall id :: id in s.results ==> id in t.results && t.results[id] == s.results[id]
  }

  lemma StepKeeps(s: State, step: Step, t: State)
    requires Inv(s) && Next(s, step, t)
    ensures Keeps(s, t)
  {
    hide GroupsOk, StageOk, AppliedOk, Contiguous, Together, Numbered;
    if step.Release? {
      forall id | id in s.results ensures id !in s.queue {
        Apart(s, id);
      }
    }
  }

  lemma {:induction false} RunKeeps(states: seq<State>, steps: seq<Step>, a: nat, b: nat)
    requires IsRun(states, steps) && a <= b <= |steps|
    ensures Keeps(states[a], states[b])
    decreases b
  {
    hide Inv, Next;
    if a < b {
      RunKeeps(states, steps, a, b - 1);
      RunKeepsInv(states, steps, b - 1);
      StepKeeps(states[b - 1], steps[b - 1], states[b]);
    }
  }

  lemma SequenceIs(s: State)
    requires Inv(s)
    ensures Contiguous(s.groups) && s.lastSequence + 1 == EndOf(s.groups) && AppliedOk(s)
  {
  }

  /** A snapshot taken at any moment sees, at every later moment, exactly the updates of the groups
      released by then: none of a group under way or to come, and none missing. */
  lemma SnapshotIsStable(states: seq<State>, steps: seq<Step>, a: nat, b: nat, e: (nat, Update))
    requires IsRun(states, steps) && a <= b <= |steps|
    ensures e in states[b].applied && e.0 <= states[a].lastSequence <==> e in AppliedBy(states[a].groups)
  {
    hide Inv, Next, Contiguous, Numbered, Together, AppliedBy, EndOf;
    RunKeepsInv(states, steps, a);
    RunKeepsInv(states, steps, b);
    RunKeeps(states, steps, a, b);
    var s, t := states[a], states[b];
    SequenceIs(s);
    SequenceIs(t);
    var k := |s.groups|;
    assert t.groups[..k] == s.groups && t.groups[..|t.groups|] == t.groups;
    AppliedSplits(t.groups, k, e);
    EndsGrow(t.groups, k, |t.groups|);
    NumberedFrom(t.lastSequence + 1, if t.stage.Ending? && t.stage.n <= |t.queue| then Updates(t, t.stage.n) else [], e);
  }

  lemma NumberedFrom(start: nat, us: seq<Update>, e: (nat, Update))
    ensures e in Numbered(start, us) ==> e.0 >= start
  {
  }

  /** A batch is seen whole or not at all: the sequence numbers of writer `i` of group `k` lie on one
      side of any snapshot that was ever taken. */
  lemma BatchesAreWhole(states: seq<State>, steps: seq<Step>, a: nat, b: nat, k: nat, i: nat)
    requires IsRun(states, steps) && a <= |steps| && b <= |steps| && k < |states[b].groups| && i < |states[b].groups[k].writers|
    ensures var g := states[b].groups[k]; var rs := RequestsOf(states[b].requests, g.writers);
            g.updates == Together(rs, |rs|) ==>
              var first := g.start + |Together(rs, i)|; var count := |UpdatesOf(rs[i])|;
              && |Together(rs, i)| + count <= |g.updates| && g.updates[|Together(rs, i)|..|Together(rs, i)| + count] == UpdatesOf(rs[i])
              && (first + count <= states[a].lastSequence + 1 || states[a].lastSequence < first)
  {
    hide Inv, Next, Contiguous, Together, EndOf;
    RunKeepsInv(states, steps, a);
    RunKeepsInv(states, steps, b);
    if a <= b {
      RunKeeps(states, steps, a, b);
    } else {
      RunKeeps(states, steps, b, a);
    }
    var s, t := states[a], states[b];
    SequenceIs(s);
    SequenceIs(t);
    var g := t.groups[k];
    var rs := RequestsOf(t.requests, g.writers);
    TogetherAt(rs, i, |rs|);
    var all := if a <= b then t.groups else s.groups;
    assert all[k] == g && all[..|s.groups|] == s.groups;
    RangeOf(all, k);
    if k < |s.groups| {
      EndsGrow(all, k + 1, |s.groups|);
    } else {
      EndsGrow(all, |s.groups|, k);
    }
  }

  lemma RangeOf(groups: seq<Group>, k: nat)
    requires Contiguous(groups) && k < |groups|
    ensures groups[k].start == EndOf(groups[..k]) && groups[k].start + |groups[k].updates| == EndOf(groups[..k + 1])
  {
    assert groups[..k + 1][k] == groups[k];
  }

  lemma {:induction false} TogetherAt(rs: seq<Request>, i: nat, n: nat)
    requires i < n <= |rs|
    ensures |Together(rs, i)| + |UpdatesOf(rs[i])| <= |Together(rs, n)|
    ensures Together(rs, n)[|Together(rs, i)|..|Together(rs, i)| + |UpdatesOf(rs[i])|] == UpdatesOf(rs[i])
  {
    hide UpdatesOf;
    var from, count := |Together(rs, i)|, |UpdatesOf(rs[i])|;
    assert Together(rs, n) == Together(rs, n - 1) + UpdatesOf(rs[n - 1]);
    if i < n - 1 {
      TogetherAt(rs, i, n - 1);
      SliceKept(Together(rs, n - 1), UpdatesOf(rs[n - 1]), from, from + count);
    } else {
      SliceNew(Together(rs, n - 1), UpdatesOf(rs[n - 1]));
    }
  }

  lemma SliceKept(a: seq<Update>, b: seq<Update>, i: nat, j: nat)
    requires i <= j <= |a|
    ensures (a + b)[i..j] == a[i..j]
  {
  }

  lemma SliceNew(a: seq<Update>, b: seq<Update>)
    ensures (a + b)[|a|..|a| + |b|] == b
  {
  }

  /** A writer that is told that its batch went well has it in the log, and on disk if it asked for that;
      and its status does not change any more. */
  lemma StatusIsKept(states: seq<State>, steps: seq<Step>, a: nat, b: nat, id: nat)
    requires IsRun(states, steps) && a <= b <= |steps| && id in states[a].results
    ensures id in states[b].results && states[b].results[id] == states[a].results[id]
    ensures exists k :: 0 <= k < |states[b].groups| && id in states[b].groups[k].writers
              && (states[b].results[id] && id in states[b].requests && states[b].requests[id].batch.Some? ==>
                    var g, t := states[b].groups[k], states[b];
                    && LogRecord(g.start, g.updates) in t.log
                    && (t.requests[id].sync ==> t.synced <= |t.log| && LogRecord(g.start, g.updates) in t.log[..t.synced]))
  {
    hide Inv, Next;
    RunKeepsInv(states, steps, b);
    RunKeeps(states, steps, a, b);
    StatusOf(states[b], id);
  }

  lemma StatusOf(s: State, id: nat)
    requires Inv(s) && id in s.results
    ensures exists k :: 0 <= k < |s.groups| && id in s.groups[k].writers
              && (s.results[id] && id in s.requests && s.requests[id].batch.Some? ==>
                    var g := s.groups[k];
                    && LogRecord(g.start, g.updates) in s.log
                    && (s.requests[id].sync ==> s.synced <= |s.log| && LogRecord(g.start, g.updates) in s.log[..s.synced]))
  {
    hide InLine, StageOk, AppliedOk, Contiguous, Together;
    var k := GroupWith(s.groups, id);
    var g := s.groups[k];
    assert GroupOk(s.requests, s.log, s.synced, g);
    var rs := RequestsOf(s.requests, g.writers);
    var i :| 0 <= i < |g.writers| && g.writers[i] == id;
    assert rs[i] == s.requests[id];
  }

  lemma {:induction false} GroupWith(groups: seq<Group>, id: nat) returns (k: nat)
    requires id in WritersOf(groups)
    ensures k < |groups| && id in groups[k].writers
  {
    var n := |groups| - 1;
    if id in groups[n].writers {
      return n;
    }
    k := GroupWith(groups[..n], id);
  }
}
