/** The work of one compaction: which entries of the merged input survive (class Compaction of
    db/version_set.cc, DoCompactionWork of db/db_impl.cc). */
module Compactions {
  import opened DbFormat
  import opened Versions
  import opened CompactionInputs

  /** No file two or more levels below the compaction's level spans `user`. */
  ghost predicate BaseLevel(v: Version, level: nat, user: UserKey) {
    forall l, f :: level + 2 <= l < |v.files| && f in v.files[l] ==> !Spans(f, user)
  }

  predicate Spans(f: File, user: UserKey) {
    f.smallest.user <= user <= f.largest.user
  }

  /** IsBaseLevelForKey keeps, for every deeper level, an index that only moves forward. */
  class Compaction {
    const level: nat
    const inputVersion: Version
    var levelPtrs: array<nat>
    ghost var lastKey: Option<UserKey>  // the key of the latest question

    ghost predicate Passed(l: nat, n: nat)
      reads this
      requires l < |inputVersion.files| && n <= |inputVersion.files[l]|
    {
      forall i :: 0 <= i < n ==> lastKey.Some? && inputVersion.files[l][i].largest.user < lastKey.value
    }

    ghost predicate Valid()
      reads this, levelPtrs
    {
      && ValidVersion(inputVersion)
      && levelPtrs.Length == NUM_LEVELS
      && forall l :: level + 2 <= l < NUM_LEVELS ==> levelPtrs[l] <= |inputVersion.files[l]| && Passed(l, levelPtrs[l])
    }

    constructor (version: Version, level: nat)
      requires ValidVersion(version)
      ensures Valid() && fresh(levelPtrs)
      ensures this.level == level && inputVersion == version && lastKey == None
    {
      this.level := level;
      inputVersion := version;
      lastKey := None;
      levelPtrs := new nat[NUM_LEVELS](_ => 0);
    }

    /** Exact for questions asked in non-decreasing order of keys. */
    method IsBaseLevelForKey(user: UserKey) returns (r: bool)
      requires Valid()
      requires lastKey.Some? ==> lastKey.value <= user
      modifies this, levelPtrs
      ensures Valid() && lastKey == Some(user) && levelPtrs == old(levelPtrs)
      ensures r <==> BaseLevel(inputVersion, level, user)
    {
      lastKey := Some(user);
      var lvl := level + 2;
      while lvl < NUM_LEVELS
        invariant level + 2 <= lvl
        invariant Valid() && lastKey == Some(user) && levelPtrs == old(levelPtrs)
        invariant forall l, f :: level + 2 <= l < lvl && l < NUM_LEVELS && f in inputVersion.files[l] ==> !Spans(f, user)
      {
        var covered := Advance(lvl, user);
        if covered {
          return false;
        }
        lvl := lvl + 1;
      }
      return true;
    }

    /** Whether the compaction loop leaves out an entry, given the sequence number of the entry of
        the same user key right before it (or the greatest one, if there is none). */
    method ShouldDrop(ikey: InternalKey, lastSequenceForKey: nat, smallestSnapshot: nat) returns (drop: bool)
      requires Valid()
      requires lastKey.Some? ==> lastKey.value <= ikey.user
      modifies this, levelPtrs
      ensures Valid() && levelPtrs == old(levelPtrs) && lastKey in {old(lastKey), Some(ikey.user)}
      ensures drop <==> lastSequenceForKey <= smallestSnapshot || ObsoleteKey(inputVersion, level, ikey, smallestSnapshot)
    {
      drop := false;
      if lastSequenceForKey <= smallestSnapshot {
        drop := true;  // (A)
      } else if ikey.kind.Deletion? && ikey.sequence <= smallestSnapshot {
        drop := IsBaseLevelForKey(ikey.user);
      }
    }

    /** Moves the index of one level to the first file that ends at or after `user`. */
    method Advance(l: nat, user: UserKey) returns (covered: bool)
      requires Valid() && level + 2 <= l < NUM_LEVELS && lastKey == Some(user)
      modifies levelPtrs
      ensures Valid()
      ensures covered <==> exists f :: f in inputVersion.files[l] && Spans(f, user)
    {
      var files := inputVersion.files[l];
      while levelPtrs[l] < |files|
        invariant Valid()
        decreases |files| - levelPtrs[l]
      {
        hide ValidVersion;
        var f := files[levelPtrs[l]];
        if user <= f.largest.user {
          if user >= f.smallest.user {
            assert f in files;
            return true;
          }
          break;
        }
        levelPtrs[l] := levelPtrs[l] + 1;
      }
      assert WellFormedFiles(files) && SortedLevel(files);
      hide ValidVersion, SortedLevel, WellFormedFiles;
      NothingSpans(files, levelPtrs[l], user);
      return false;
    }
  }

  lemma NothingSpans(files: seq<File>, n: nat, user: UserKey)
    requires WellFormedFiles(files) && SortedLevel(files) && n <= |files|
    requires forall i :: 0 <= i < n ==> files[i].largest.user < user
    requires n < |files| ==> user < files[n].smallest.user
    ensures forall f :: f in files ==> !Spans(f, user)
  {
    forall i | n <= i < |files| ensures !Spans(files[i], user) {
      if n < i {
        SmallestLargest(files, n);
      }
    }
  }

  // ---------------------------------------------------------------- the drop rule

  /** `t` holds exactly the entries of `files`, in order: the merged input of a compaction. */
  ghost predicate Merged(t: seq<Entry>, files: seq<File>) {
    && SortedTable(t)
    && forall e :: e in t <==> exists f :: f in files && e in f.table
  }

  /** Rule (A): an entry right behind one of the same user key that every snapshot sees. */
  predicate Hidden(t: seq<Entry>, i: nat, snapshot: nat)
    requires i < |t|
  {
    i > 0 && t[i - 1].key.user == t[i].key.user && t[i - 1].key.sequence <= snapshot
  }

  /** A deletion that every snapshot sees, with nothing left for it to delete further down. */
  ghost predicate ObsoleteKey(v: Version, level: nat, k: InternalKey, snapshot: nat) {
    k.kind.Deletion? && k.sequence <= snapshot && BaseLevel(v, level, k.user)
  }

  ghost predicate Dropped(v: Version, level: nat, t: seq<Entry>, i: nat, snapshot: nat)
    requires i < |t|
  {
    Hidden(t, i, snapshot) || ObsoleteKey(v, level, t[i].key, snapshot)
  }

  /** What the first `n` entries of the input leave. */
  ghost function Kept(v: Version, level: nat, t: seq<Entry>, n: nat, snapshot: nat): seq<Entry>
    requires n <= |t|
  {
    if n == 0 then [] else
      Kept(v, level, t, n - 1, snapshot) + if Dropped(v, level, t, n - 1, snapshot) then [] else [t[n - 1]]
  }

  /** The entries of files, one file behind the other. */
  function Contents(outputs: seq<File>): seq<Entry> {
    if outputs == [] then [] else Contents(outputs[..|outputs| - 1]) + outputs[|outputs| - 1].table
  }

  lemma {:induction false} KeptMembers(v: Version, level: nat, t: seq<Entry>, n: nat, snapshot: nat)
    requires n <= |t|
    ensures forall e :: e in Kept(v, level, t, n, snapshot) <==> exists i :: 0 <= i < n && t[i] == e && !Dropped(v, level, t, i, snapshot)
  {
    if n > 0 {
      KeptMembers(v, level, t, n - 1, snapshot);
    }
  }

  lemma {:induction false} ContentsMembers(outputs: seq<File>)
    ensures forall e :: e in Contents(outputs) <==> exists f :: f in outputs && e in f.table
  {
    if outputs != [] {
      var rest, last := outputs[..|outputs| - 1], outputs[|outputs| - 1];
      ContentsMembers(rest);
      assert outputs == rest + [last];
    }
  }

  // ---------------------------------------------------------------- the compaction loop

  /** Output files in key order, each well formed. */
  ghost predicate GoodOutputs(outputs: seq<File>) {
    WellFormedFiles(outputs) && SortedLevel(outputs)
  }

  ghost predicate FreshNumbers(outputs: seq<File>, from: nat, to: nat) {
    && (forall i :: 0 <= i < |outputs| ==> from <= outputs[i].number < to)
    && (forall i, j :: 0 <= i < j < |outputs| ==> outputs[i].number < outputs[j].number)
  }

  /** The state of a running compaction: the finished output files and the one being written. */
  class CompactionState {
    var outputs: seq<File>
    var builder: Option<File>
    var nextFileNumber: nat
    const firstFileNumber: nat

    constructor (next: nat)
      ensures Valid() && outputs == [] && builder == None && nextFileNumber == firstFileNumber == next
    {
      outputs, builder, nextFileNumber, firstFileNumber := [], None, next, next;
    }

    ghost function All(): seq<File>
      reads this
    {
      outputs + if builder.Some? then [builder.value] else []
    }

    ghost predicate Valid()
      reads this
    {
      && firstFileNumber <= nextFileNumber
      && GoodOutputs(All())
      && FreshNumbers(All(), firstFileNumber, nextFileNumber)
    }

    /** OpenCompactionOutputFile if needed, then the entry goes into the open file. */
    method Add(e: Entry)
      requires Valid()
      requires e.key.sequence <= MAX_SEQUENCE
      requires AllBefore(All(), e.key)
      modifies this
      ensures Valid() && builder.Some?
      ensures Contents(All()) == old(Contents(All())) + [e]
      ensures EndsBy(All(), e.key)
    {
      hide GoodOutputs, AllBefore, EndsBy, Contents, FreshNumbers;
      if builder.None? {
        assert All() == outputs;
        builder := Some(File(nextFileNumber, 0, e.key, e.key, [e]));
        nextFileNumber := nextFileNumber + 1;
        StartFile(outputs, e, builder.value);
        NextNumber(outputs, builder.value, firstFileNumber, builder.value.number);
      } else {
        GrowFile(outputs, builder.value, e);
        SameNumbers(outputs, builder.value, builder.value.(largest := e.key, table := builder.value.table + [e]), firstFileNumber, nextFileNumber);
        builder := Some(builder.value.(largest := e.key, table := builder.value.table + [e]));
      }
    }

    /** FinishCompactionOutputFile. */
    method Finish(size: nat)
      requires Valid() && builder.Some?
      modifies this
      ensures Valid() && builder.None?
      ensures Contents(All()) == old(Contents(All()))
      ensures forall k :: old(EndsBy(All(), k)) ==> EndsBy(All(), k)
    {
      hide GoodOutputs, EndsBy, Contents, FreshNumbers;
      SetSize(outputs, builder.value, size);
      SameNumbers(outputs, builder.value, builder.value.(size := size), firstFileNumber, nextFileNumber);
      outputs := outputs + [builder.value.(size := size)];
      builder := None;
      assert All() == outputs;
    }
  }

  ghost predicate AllBefore(files: seq<File>, k: InternalKey) {
    forall f :: f in files ==> Less(f.largest, k)
  }

  ghost predicate EndsBy(files: seq<File>, k: InternalKey) {
    forall f :: f in files ==> !Less(k, f.largest)
  }

  lemma NextNumber(done: seq<File>, f: File, from: nat, to: nat)
    requires FreshNumbers(done, from, to) && f.number == to && from <= to
    ensures FreshNumbers(done + [f], from, to + 1)
  {
  }

  lemma SameNumbers(done: seq<File>, f: File, g: File, from: nat, to: nat)
    requires FreshNumbers(done + [f], from, to) && g.number == f.number
    ensures FreshNumbers(done + [g], from, to)
  {
    var all, new_ := done + [f], done + [g];
    assert forall i :: 0 <= i < |all| ==> new_[i].number == all[i].number;
  }

  lemma ContentsSnoc(done: seq<File>, f: File)
    ensures Contents(done + [f]) == Contents(done) + f.table
  {
    assert (done + [f])[..|done|] == done;
  }

  lemma GoodSnoc(done: seq<File>, f: File)
    requires GoodOutputs(done) && WellFormed(f) && AllBefore(done, f.smallest)
    ensures GoodOutputs(done + [f])
  {
    forall i | 0 <= i < |done| ensures Less(done[i].largest, f.smallest) {
      assert done[i] in done;
    }
  }

  lemma GoodInit(done: seq<File>, f: File)
    requires GoodOutputs(done + [f])
    ensures GoodOutputs(done) && WellFormed(f) && AllBefore(done, f.smallest)
  {
    var all := done + [f];
    assert f == all[|done|] && f in all;
    forall g | g in done ensures WellFormed(g) && Less(g.largest, f.smallest) {
      var i :| 0 <= i < |done| && done[i] == g;
      assert all[i] == g && all[i] in all;
    }
    forall i, j | 0 <= i < j < |done| ensures Less(done[i].largest, done[j].smallest) {
      assert all[i] == done[i] && all[j] == done[j];
    }
  }

  lemma StartFile(done: seq<File>, e: Entry, f: File)
    requires GoodOutputs(done) && e.key.sequence <= MAX_SEQUENCE && AllBefore(done, e.key)
    requires f.table == [e] && f.smallest == f.largest == e.key
    ensures GoodOutputs(done + [f]) && EndsBy(done + [f], e.key)
    ensures Contents(done + [f]) == Contents(done) + [e]
  {
    GoodSnoc(done, f);
    ContentsSnoc(done, f);
  }

  lemma GrowFile(done: seq<File>, f: File, e: Entry)
    requires GoodOutputs(done + [f]) && e.key.sequence <= MAX_SEQUENCE && AllBefore(done + [f], e.key)
    ensures var g := f.(largest := e.key, table := f.table + [e]);
            GoodOutputs(done + [g]) && EndsBy(done + [g], e.key) && Contents(done + [g]) == Contents(done + [f]) + [e]
  {
    var g := f.(largest := e.key, table := f.table + [e]);
    GoodInit(done, f);
    assert f in done + [f];
    forall i | 0 <= i < |f.table| ensures Less(f.table[i].key, e.key) {
      assert f.table[i] in f.table;
      TableBounds(f, f.table[i]);
    }
    GoodSnoc(done, g);
    ContentsSnoc(done, f);
    ContentsSnoc(done, g);
    forall h | h in done + [g] ensures !Less(e.key, h.largest) {
      assert h in done ==> h in done + [f];
    }
  }

  lemma SetSize(done: seq<File>, f: File, size: nat)
    requires GoodOutputs(done + [f])
    ensures var g := f.(size := size);
            GoodOutputs(done + [g]) && Contents(done + [g]) == Contents(done + [f]) &&
            forall k :: EndsBy(done + [f], k) ==> EndsBy(done + [g], k)
  {
    var g := f.(size := size);
    GoodInit(done, f);
    GoodSnoc(done, g);
    ContentsSnoc(done, f);
    ContentsSnoc(done, g);
    forall k | EndsBy(done + [f], k) ensures EndsBy(done + [g], k) {
      assert f in done + [f];
      forall h | h in done + [g] ensures !Less(k, h.largest) {
        assert h in done ==> h in done + [f];
      }
    }
  }

  ghost predicate Behind(files: seq<File>, input: seq<Entry>, i: nat)
    requires i <= |input|
  {
    if i == 0 then files == [] else EndsBy(files, input[i - 1].key)
  }

  lemma EndsByLater(files: seq<File>, input: seq<Entry>, i: nat)
    requires SortedTable(input) && i < |input| && Behind(files, input, i)
    ensures EndsBy(files, input[i].key) && AllBefore(files, input[i].key)
  {
    if i > 0 {
      assert Less(input[i - 1].key, input[i].key);
    }
  }

  /** Writes one surviving entry; a file that has become big enough is closed. */
  method Emit(state: CompactionState, e: Entry)
    requires state.Valid() && e.key.sequence <= MAX_SEQUENCE && AllBefore(state.All(), e.key)
    modifies state
    ensures state.Valid()
    ensures Contents(state.All()) == old(Contents(state.All())) + [e]
    ensures EndsBy(state.All(), e.key)
  {
    state.Add(e);
    var bigEnough: bool := *;
    if bigEnough {
      var size: nat := *;
      state.Finish(size);
    }
  }

  /** DoCompactionWork: one pass over the merged input. Where output files end is left open, as is
      an early stop; a pass that completes writes exactly the entries that are not dropped. */
  method DoCompactionWork(c: Compaction, state: CompactionState, input: seq<Entry>, smallestSnapshot: nat) returns (ok: bool)
    requires c.Valid() && c.lastKey == None
    requires state.Valid() && state.outputs == [] && state.builder == None
    requires SortedTable(input) && forall e :: e in input ==> e.key.sequence <= MAX_SEQUENCE
    requires smallestSnapshot < MAX_SEQUENCE
    modifies c, c.levelPtrs, state
    ensures state.Valid()
    ensures ok ==> state.builder == None
    ensures ok ==> Contents(state.outputs) == Kept(c.inputVersion, c.level, input, |input|, smallestSnapshot)
  {
    hide ValidVersion;
    hide BaseLevel, EndsBy, AllBefore, GoodOutputs, FreshNumbers;
    var currentUserKey: Option<UserKey> := None;
    var lastSequenceForKey := MAX_SEQUENCE;
    var i := 0;
    while i < |input|
      invariant 0 <= i <= |input|
      invariant c.Valid() && c.levelPtrs == old(c.levelPtrs)
      invariant c.lastKey.Some? ==> i > 0 && c.lastKey.value <= input[i - 1].key.user
      invariant i == 0 ==> currentUserKey == None
      invariant i > 0 ==> currentUserKey == Some(input[i - 1].key.user) && lastSequenceForKey == input[i - 1].key.sequence
      invariant state.Valid()
      invariant Behind(state.All(), input, i)
      invariant Contents(state.All()) == Kept(c.inputVersion, c.level, input, i, smallestSnapshot)
    {
      var shuttingDown: bool := *;
      if shuttingDown {
        return false;
      }
      var shouldStopBefore: bool := *;
      if shouldStopBefore && state.builder.Some? {
        var size: nat := *;
        state.Finish(size);
      }
      EndsByLater(state.All(), input, i);
      assert input[i] in input;
      var ikey := input[i].key;
      if currentUserKey != Some(ikey.user) {
        currentUserKey := Some(ikey.user);
        lastSequenceForKey := MAX_SEQUENCE;
      }
      assert lastSequenceForKey <= smallestSnapshot <==> Hidden(input, i, smallestSnapshot);
      assert i > 0 ==> Less(input[i - 1].key, input[i].key);
      var drop := c.ShouldDrop(ikey, lastSequenceForKey, smallestSnapshot);
      lastSequenceForKey := ikey.sequence;
      if !drop {
        Emit(state, input[i]);
      } else {
        EndsByLater(state.All(), input, i);
      }
      i := i + 1;
    }
    if state.builder.Some? {
      var size: nat := *;
      state.Finish(size);
    }
    assert state.All() == state.outputs;
    return true;
  }
}
