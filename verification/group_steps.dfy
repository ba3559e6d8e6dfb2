/** Any interleaving of writers: arriving, leading a group through the log and into the memtable, being
    released (Write of db/db_impl.cc). Waiting on a condition variable is a step that is not enabled. */
module GroupSteps {
  import opened DbFormat
  import opened WriteBatches
  import opened GroupCommits

  datatype LogRecord = LogRecord(start: nat, updates: seq<Update>)

  /** A group that has been released: its first sequence number, its writers in order, its updates, and
      the status that they all got. A writer without a batch, or one that found no room, is released
      alone and without updates. */
  datatype Group = Group(start: nat, writers: seq<nat>, updates: seq<Update>, ok: bool)

  /** Where the writer at the head of the queue is. */
  datatype Stage =
    | Free | MakingRoom
    | Grouped(n: nat) | Logged(n: nat, ok: bool) | Synced(n: nat, ok: bool, syncError: bool)
    | Ending(n: nat, counted: bool, ok: bool, syncError: bool)

  datatype State = State(
    arrived: seq<nat>, requests: map<nat, Request>, queue: seq<nat>, stage: Stage, results: map<nat, bool>,
    lastSequence: nat, log: seq<LogRecord>, synced: nat, applied: set<(nat, Update)>, failed: bool, groups: seq<Group>)

  datatype Step =
    | Arrive(id: nat, request: Request) | Lead | RoomMade(ok: bool, n: nat)
    | Append(ok: bool) | Sync(ok: bool) | Insert | Release

  function RequestsOf(requests: map<nat, Request>, ids: seq<nat>): seq<Request> {
    seq(|ids|, i requires 0 <= i < |ids| => if ids[i] in requests then requests[ids[i]] else Request(None, 0, false))
  }

  /** The updates of the first `n` writers in the queue. */
  function Updates(s: State, n: nat): seq<Update>
    requires n <= |s.queue|
  {
    Together(RequestsOf(s.requests, s.queue), n)
  }

  function Numbered(start: nat, us: seq<Update>): set<(nat, Update)> {
    set i | 0 <= i < |us| :: (start + i, us[i])
  }

  function Leader(s: State): Request
    requires s.queue != [] && s.queue[0] in s.requests
  {
    s.requests[s.queue[0]]
  }

  ghost predicate Next(s: State, step: Step, t: State) {
    match step
    case Arrive(id, request) =>
      && id !in s.requests
      && t == s.(arrived := s.arrived + [id], queue := s.queue + [id], requests := s.requests[id := request])
    case Lead =>
      s.stage.Free? && s.queue != [] && t == s.(stage := MakingRoom)
    case RoomMade(ok, n) =>
      // MakeRoomForWrite fails after a background error
      && s.stage.MakingRoom? && (s.failed ==> !ok) && s.queue != [] && s.queue[0] in s.requests
      && if ok && Leader(s).batch.Some? then IsGroup(RequestsOf(s.requests, s.queue), n) && t == s.(stage := Grouped(n))
         else t == s.(stage := Ending(1, false, ok, false))
    case Append(ok) =>
      && s.stage.Grouped? && s.stage.n <= |s.queue|
      && t == s.(stage := Logged(s.stage.n, ok),
                 log := if ok then s.log + [LogRecord(s.lastSequence + 1, Updates(s, s.stage.n))] else s.log)
    case Sync(ok) =>
      && s.stage.Logged? && s.queue != [] && s.queue[0] in s.requests
      && var wanted := s.stage.ok && Leader(s).sync;
      && t == s.(stage := Synced(s.stage.n, s.stage.ok && (wanted ==> ok), wanted && !ok),
                 synced := if wanted && ok then |s.log| else s.synced)
    case Insert =>
      && s.stage.Synced? && s.stage.n <= |s.queue|
      && t == s.(stage := Ending(s.stage.n, true, s.stage.ok, s.stage.syncError),
                 applied := if s.stage.ok then s.applied + Numbered(s.lastSequence + 1, Updates(s, s.stage.n)) else s.applied)
    case Release =>
      && s.stage.Ending? && s.stage.n <= |s.queue|
      && var us := if s.stage.counted then Updates(s, s.stage.n) else [];
      && var ids := s.queue[..s.stage.n];
      && t == s.(stage := Free, failed := s.failed || s.stage.syncError, lastSequence := s.lastSequence + |us|,
                 queue := s.queue[s.stage.n..], results := s.results + (map id | id in ids :: s.stage.ok),
                 groups := s.groups + [Group(s.lastSequence + 1, ids, us, s.stage.ok)])
  }

  // ---------------------------------------------------------------- what always holds

  function WritersOf(groups: seq<Group>): seq<nat> {
    if groups == [] then [] else WritersOf(groups[..|groups| - 1]) + groups[|groups| - 1].writers
  }

  function AppliedBy(groups: seq<Group>): set<(nat, Update)> {
    if groups == [] then {} else
      var g := groups[|groups| - 1];
      AppliedBy(groups[..|groups| - 1]) + if g.ok then Numbered(g.start, g.updates) else {}
  }

  /** The sequence number behind the last group. */
  function EndOf(groups: seq<Group>): nat {
    if groups == [] then 1 else groups[|groups| - 1].start + |groups[|groups| - 1].updates|
  }

  /** The ranges of sequence numbers follow each other without a gap. */
  ghost predicate Contiguous(groups: seq<Group>) {
    forall i :: 0 <= i < |groups| ==> groups[i].start == EndOf(groups[..i])
  }

  /** In line: everybody who arrived, in that order, is released or waits. */
  ghost predicate InLine(s: State) {
    && s.arrived == WritersOf(s.groups) + s.queue && s.requests.Keys == (set id | id in s.arrived)
    && forall i, j :: 0 <= i < j < |s.arrived| ==> s.arrived[i] != s.arrived[j]
  }

  /** Everybody in a group got the status of the group, and nobody else got one. */
  ghost predicate Released(s: State) {
    && s.results.Keys == (set id | id in WritersOf(s.groups))
    && forall i, id :: 0 <= i < |s.groups| && id in s.groups[i].writers ==> id in s.results && s.results[id] == s.groups[i].ok
  }

  /** What the members of a group asked for, all together and in order, or nothing. */
  ghost predicate GroupOk(requests: map<nat, Request>, log: seq<LogRecord>, synced: nat, g: Group) {
    var rs := RequestsOf(requests, g.writers);
    && (forall id :: id in g.writers ==> id in requests)
    && (g.updates == Together(rs, |rs|) || (g.updates == [] && |g.writers| == 1 && (g.ok ==> rs[0].batch.None?)))
    && (g.ok && (exists i :: 0 <= i < |rs| && rs[i].batch.Some?) ==>
          && LogRecord(g.start, g.updates) in log
          && ((exists i :: 0 <= i < |rs| && rs[i].sync) ==> synced <= |log| && LogRecord(g.start, g.updates) in log[..synced]))
  }

  ghost predicate GroupsOk(s: State) {
    forall i :: 0 <= i < |s.groups| ==> GroupOk(s.requests, s.log, s.synced, s.groups[i])
  }

  /** The group under way. */
  ghost predicate StageOk(s: State)
    requires InLine(s)
  {
    var rs := RequestsOf(s.requests, s.queue);
    match s.stage
    case Free => true
    case MakingRoom => s.queue != []
    case Grouped(n) => LeadsGroup(s, n)
    case Logged(n, ok) => LeadsGroup(s, n) && (ok ==> InLog(s, n))
    case Synced(n, ok, _) => LeadsGroup(s, n) && (ok ==> InLog(s, n)) && (ok && Leader(s).sync ==> OnDisk(s, n))
    case Ending(n, counted, ok, _) =>
      && 0 < n <= |s.queue|
      && (counted ==> LeadsGroup(s, n) && (ok ==> InLog(s, n)) && (ok && Leader(s).sync ==> OnDisk(s, n)))
      && (!counted ==> n == 1 && (ok ==> Leader(s).batch.None?))
  }

  /** The first `n` writers are a group, except that others may have lined up behind. */
  ghost predicate LeadsGroup(s: State, n: nat)
    requires InLine(s)
  {
    && 0 < n <= |s.queue| && s.queue[0] in s.requests && Leader(s).batch.Some?
    && forall i :: 0 < i < n ==> !(RequestsOf(s.requests, s.queue)[i].sync && !Leader(s).sync)
  }

  ghost predicate InLog(s: State, n: nat)
    requires n <= |s.queue|
  {
    LogRecord(s.lastSequence + 1, Updates(s, n)) in s.log
  }

  ghost predicate OnDisk(s: State, n: nat)
    requires n <= |s.queue|
  {
    s.synced <= |s.log| && LogRecord(s.lastSequence + 1, Updates(s, n)) in s.log[..s.synced]
  }

  /** The memtables hold the updates of the groups that went well, with their sequence numbers. */
  ghost predicate AppliedOk(s: State) {
    s.applied == AppliedBy(s.groups)
                 + if s.stage.Ending? && s.stage.counted && s.stage.ok && s.stage.n <= |s.queue|
                   then Numbered(s.lastSequence + 1, Updates(s, s.stage.n)) else {}
  }

  ghost predicate Inv(s: State) {
    && InLine(s) && Released(s) && GroupsOk(s) && StageOk(s) && AppliedOk(s)
    && Contiguous(s.groups) && s.lastSequence + 1 == EndOf(s.groups) && s.synced <= |s.log|
  }

  predicate Starts(s: State) {
    s == State([], map[], [], Free, map[], 0, [], 0, {}, false, [])
  }

  lemma StartIsOk(s: State)
    requires Starts(s)
    ensures Inv(s)
  {
  }
}
