/** What every read and every recovery answers, at any point of any run (Get of db/db_impl.cc). */
module StoreReads {
  import opened DbFormat
  import opened Versions
  import opened CompactionReads
  import opened Databases
  import opened Recovery
  import opened StoreSteps
  import opened StoreInvariant
  import opened StoreRecovery
  import opened StoreContents
  import opened StoreHistory
  import opened StepsKeepHistory
  import opened StoreLife
  import O = StoreOpen

  lemma GoodAnswers(v: Version, above: set<Entry>, history: seq<Option<Op>>, oldest: nat, user: UserKey, s: nat)
    requires Good(v, above, history, oldest) && oldest <= s <= |history|
    ensures Answer(Probe(Entries(v) + above, user, s)) == Lookup(MapAfter(history, s), user)
  {
    hide ValidVersion, NewerSet, Genuine, Entries;
    assert above + Entries(v) == Entries(v) + above;
  }

  /** The main result: over any run of a new database, whatever the interleaving of writers, flushes,
      moves and compactions, with crashes and interrupted openings anywhere, every read at a live
      sequence number answers as a plain map would after that many of the updates that reached a log
      and that no crash has taken. This holds of what readers see, of what is on the disk, and of what is
      recovered when the database is down. As long as the crashes are of the process alone, these are
      all updates that reached a log. */
  lemma RunsFollowHistory(worlds: seq<World>, events: seq<Event>, n: nat, user: UserKey, s: nat)
    requires IsRun(worlds, events) && n <= |events| && worlds[0] == Down(O.NewDisk(), [])
    ensures var history, w := HistoryOf(worlds[n]), worlds[n];
            && (w.Up? && Oldest(w.store) <= s <= |history| ==>
                  && Answer(Probe(Durable(w.store.state), user, s)) == Lookup(MapAfter(history, s), user)
                  && Answer(Probe(Contents(w.store.state), user, s)) == Lookup(MapAfter(history, s), user))
            && (w.Down? ==> exists v, unflushed :: O.Openable(w.disk, v, unflushed, |history|))
            && (w.Down? ==>
                  forall v, unflushed, last :: O.Openable(w.disk, v, unflushed, last) ==>
                    last == |history|
                    && Answer(Probe(Entries(v) + unflushed, user, last)) == Lookup(MapAfter(history, last), user))
            && ((forall i :: 0 <= i < n ==> TakesNothing(worlds[i], events[i])) ==> history == UpdatesOf(events, n))
  {
    hide WorldInv, IsRun, Probe, MapAfter, Entries, Durable, Contents, O.Openable, O.NewDisk, Oldest;
    RunLength(worlds, events);
    NewWorld();
    RunKeepsInv(worlds, events, n);
    var history, w := HistoryOf(worlds[n]), worlds[n];
    if forall i :: 0 <= i < n ==> TakesNothing(worlds[i], events[i]) {
      RunLogsAll(worlds, events, n);
      assert [] + UpdatesOf(events, n) == UpdatesOf(events, n);
    }
    if w.Up? {
      if Oldest(w.store) <= s <= |history| {
        UpAnswers(w.store, user, s);
      }
    } else {
      DownOpens(w.disk, w.history);
      forall v, unflushed, last | O.Openable(w.disk, v, unflushed, last)
        ensures last == |history| && Answer(Probe(Entries(v) + unflushed, user, last)) == Lookup(MapAfter(history, last), user)
      {
        DownAnswers(w.disk, w.history, v, unflushed, last, user);
      }
    }
  }

  lemma RunLength(worlds: seq<World>, events: seq<Event>)
    requires IsRun(worlds, events)
    ensures |worlds| == |events| + 1
  {
  }

  lemma UpAnswers(x: Store, user: UserKey, s: nat)
    requires WorldInv(Up(x)) && Oldest(x) <= s <= |x.history|
    ensures Answer(Probe(Durable(x.state), user, s)) == Lookup(MapAfter(x.history, s), user)
    ensures Answer(Probe(Contents(x.state), user, s)) == Lookup(MapAfter(x.history, s), user)
  {
    hide Inv, Good, HistoryOk, FlushPlaced, JobOk, Probe, Entries, MapAfter, Oldest, Unflushed;
    DurableIsGood(x);
    GoodAnswers(DurableVersion(x.state), Unflushed(x.state), x.history, Lesser(Oldest(x), SavedDurable(x)), user, s);
    GoodAnswers(x.state.version, Unsaved(x.state), x.history, Floor(x), user, s);
    assert Contents(x.state) == Entries(x.state.version) + Unsaved(x.state);
  }

  lemma DownOpens(d: Disk, history: seq<Option<Op>>)
    requires WorldInv(Down(d, history))
    ensures exists v, unflushed :: O.Openable(d, v, unflushed, |history|)
  {
    hide Good, O.Openable;
    var v, unflushed :| DiskHolds(d, history, v, unflushed);
  }

  lemma DownAnswers(d: Disk, history: seq<Option<Op>>, v: Version, unflushed: set<Entry>, last: nat, user: UserKey)
    requires WorldInv(Down(d, history)) && O.Openable(d, v, unflushed, last)
    ensures last == |history| && Answer(Probe(Entries(v) + unflushed, user, last)) == Lookup(MapAfter(history, last), user)
  {
    hide Good, O.Openable, Probe, Entries, MapAfter;
    var v2, unflushed2 :| DiskHolds(d, history, v2, unflushed2);
    O.OpenableIsDetermined(d, v, unflushed, last, v2, unflushed2, |history|);
    GoodAnswers(v, unflushed, history, |history|, user, |history|);
  }

  // ---------------------------------------------------------------- reading

  /** The memtables hold what the state says. */
  ghost predicate MemTables(s: State, mem: seq<Entry>, imm: Option<seq<Entry>>) {
    && SortedTable(mem) && Elements(mem) == s.mem
    && (imm.Some? <==> s.imm.Some?)
    && (imm.Some? ==> SortedTable(imm.value) && Elements(imm.value) == s.imm.value)
  }

  lemma InFlightUnseen(x: Store, user: UserKey, s: nat)
    requires StoreInv(x) && s <= x.state.lastSequence
    ensures Probe(Contents(x.state), user, s) == Probe(x.state.mem + (ImmSet(x.state) + Entries(x.state.version)), user, s)
  {
    hide Good, Inv, HistoryOk, FlushPlaced, JobOk, Probe, Entries;
    var below := x.state.mem + (ImmSet(x.state) + Entries(x.state.version));
    GoodIsUnique(x.state.version, Unsaved(x.state), x.history, Floor(x));
    assert InFlight(x.state) + below == Unsaved(x.state) + Entries(x.state.version) == Contents(x.state);
    InFlightIsLater(x.state);
    ProbeBelow(InFlight(x.state), below, user, s);
  }

  lemma InFlightIsLater(s: State)
    requires Inv(s)
    ensures forall e :: e in InFlight(s) ==> e.key.sequence > s.lastSequence
  {
    hide ManifestOk, TablesOk, LogsOk, NumbersOk, LastOf, FlushOk, WorkOk, ApplyOk;
  }

  lemma ReadLayers(x: Store, mem: seq<Entry>, imm: Option<seq<Entry>>, user: UserKey, s: nat)
    requires StoreInv(x) && MemTables(x.state, mem, imm) && s <= x.state.lastSequence
    ensures ValidVersion(x.state.version) && UniqueSequences(Entries(x.state.version))
    ensures Probe(Contents(x.state), user, s)
            == if SearchTable(mem, user, s) != NotHere then SearchTable(mem, user, s)
               else if imm.Some? && SearchTable(imm.value, user, s) != NotHere then SearchTable(imm.value, user, s)
               else Probe(Entries(x.state.version), user, s)
  {
    hide Good, Inv, HistoryOk, FlushPlaced, JobOk, Probe, Entries, SearchTable, NewerSet, UniqueSequences, ValidVersion, SortedTable;
    InFlightUnseen(x, user, s);
    var v, older := x.state.version, ImmSet(x.state);
    GoodGenuine(v, Unsaved(x.state), x.history, Floor(x));
    GoodIsUnique(v, Unsaved(x.state), x.history, Floor(x));
    UnsavedHolds(x.state);
    NewerParts(x.state.mem + InFlight(x.state), older, x.state.mem, older);
    NewerParts(Unsaved(x.state), Entries(v), x.state.mem, Entries(v));
    NewerParts(Unsaved(x.state), Entries(v), older, Entries(v));
    NewerBelowBoth(x.state.mem, older, Entries(v));
    UniquePart(Unsaved(x.state) + Entries(v), x.state.mem + (older + Entries(v)));
    UniquePart(Unsaved(x.state) + Entries(v), older + Entries(v));
    HitAbove(mem, older + Entries(v), user, s);
    if imm.Some? {
      HitAbove(imm.value, Entries(v), user, s);
    } else {
      assert older + Entries(v) == Entries(v);
    }
  }

  /** DBImpl::Get at any moment of a run: memtable, immutable memtable, version. A read at a live
      snapshot, or at the last sequence number, sees exactly the updates up to there. */
  method Get(x: Store, mem: seq<Entry>, imm: Option<seq<Entry>>, user: UserKey, snapshot: nat) returns (r: Option<string>)
    requires StoreInv(x) && MemTables(x.state, mem, imm)
    requires Oldest(x) <= snapshot <= x.state.lastSequence
    ensures snapshot <= |x.history| && r == Lookup(MapAfter(x.history, snapshot), user)
  {
    hide StoreInv, MemTables, Probe, Contents, Entries, MapAfter, ValidVersion, UniqueSequences;
    ReadLayers(x, mem, imm, user, snapshot);
    PastIsLogged(x);
    UpAnswers(x, user, snapshot);
    var found := SearchTable(mem, user, snapshot);
    if found == NotHere && imm.Some? {
      found := SearchTable(imm.value, user, snapshot);
    }
    if found == NotHere {
      found := Versions.Get(x.state.version, user, snapshot);
    }
    r := Answer(found);
  }

  lemma PastIsLogged(x: Store)
    requires StoreInv(x)
    ensures x.state.lastSequence <= |x.history| && WorldInv(Up(x))
  {
    hide Inv, BothGood, FlushPlaced, JobOk;
    OldestIsPast(x);
  }
}
