/** What a database holds, seen from its updates: a version with newer entries above it answers every
    read as the plain map of the updates does, and keeps doing so through flushes, moves and
    compactions. */
module StoreContents {
  import opened DbFormat
  import opened Versions
  import opened Builders
  import opened CompactionInputs
  import opened Compactions
  import opened CompactionReads
  import opened CompactionInstall
  import opened MakeInputs
  import opened Flushes
  import opened FlushesMeanwhile
  import opened Databases
  import opened Recovery

  /** The version is well ordered, what lies above it is newer, and reads from `oldest` on give what
      the updates in `history` have left at that point. */
  ghost predicate Good(v: Version, above: set<Entry>, history: seq<Option<Op>>, oldest: nat) {
    && ValidVersion(v) && NewerSet(above, Entries(v))
    && Genuine(above + Entries(v), history) && Faithful(above + Entries(v), history, oldest)
  }

  // ---------------------------------------------------------------- more updates

  /** A deletion carries no value. */
  predicate PlainOps(ops: seq<Op>) {
    forall i :: 0 <= i < |ops| ==> ops[i].kind.Value? || ops[i].value == ""
  }

  lemma OneMoreEntry(b: Batch, n: nat)
    requires n < |b.ops|
    ensures var before, after := Batch(b.sequence, b.ops[..n]), Batch(b.sequence, b.ops[..n + 1]);
            var e := Entry(InternalKey(b.ops[n].user, b.sequence + n, b.ops[n].kind), b.ops[n].value);
            BatchEntries(after) == BatchEntries(before) + {e}
  {
    var before, after := Batch(b.sequence, b.ops[..n]), Batch(b.sequence, b.ops[..n + 1]);
    forall i | 0 <= i < n ensures after.ops[i] == before.ops[i] == b.ops[i] {
    }
    forall e | e in BatchEntries(before) ensures e in BatchEntries(after) {
      var i :| 0 <= i < |before.ops| && e == Entry(InternalKey(before.ops[i].user, before.sequence + i, before.ops[i].kind), before.ops[i].value);
      assert e == Entry(InternalKey(after.ops[i].user, after.sequence + i, after.ops[i].kind), after.ops[i].value);
    }
    assert after.ops[n] == b.ops[n];
  }

  /** The updates of a batch, one by one. */
  lemma {:induction false} BatchIsFaithful(es: set<Entry>, history: seq<Option<Op>>, oldest: nat, b: Batch, n: nat)
    requires Genuine(es, history) && Faithful(es, history, oldest) && oldest <= |history|
    requires b.sequence == |history| + 1 && PlainOps(b.ops) && n <= |b.ops|
    ensures var part := Batch(b.sequence, b.ops[..n]);
            Genuine(es + BatchEntries(part), history + Made(part.ops)) && Faithful(es + BatchEntries(part), history + Made(part.ops), oldest)
  {
    hide Genuine, Faithful, BatchEntries;
    if n == 0 {
      assert BatchEntries(Batch(b.sequence, [])) == {} by { NoOps(b.sequence); }
      assert b.ops[..0] == [] && Made([]) == [] && history + [] == history && es + {} == es;
    } else {
      BatchIsFaithful(es, history, oldest, b, n - 1);
      OneMoreEntry(b, n - 1);
      var before := Batch(b.sequence, b.ops[..n - 1]);
      var op := b.ops[n - 1];
      var e := Entry(InternalKey(op.user, b.sequence + n - 1, op.kind), op.value);
      UpdateIsFaithful(es + BatchEntries(before), history + Made(before.ops), oldest, op, e);
      assert history + Made(before.ops) + [Some(op)] == history + Made(b.ops[..n]);
      assert es + BatchEntries(before) + {e} == es + (BatchEntries(before) + {e});
    }
  }

  lemma NoOps(sequence: nat)
    ensures BatchEntries(Batch(sequence, [])) == {}
  {
  }

  lemma BatchIsNewer(es: set<Entry>, history: seq<Option<Op>>, b: Batch)
    requires Genuine(es, history) && b.sequence == |history| + 1
    ensures NewerSet(BatchEntries(b), es)
  {
  }

  lemma NewerBoth(a: set<Entry>, b: set<Entry>, es: set<Entry>)
    requires NewerSet(a, es) && NewerSet(b, es)
    ensures NewerSet(a + b, es)
  {
  }

  lemma NewerParts(a: set<Entry>, es: set<Entry>, b: set<Entry>, fs: set<Entry>)
    requires NewerSet(a, es) && b <= a && fs <= es
    ensures NewerSet(b, fs)
  {
  }

  /** A batch with the next sequence number is seen from its last update on. */
  lemma GoodWithBatch(v: Version, above: set<Entry>, history: seq<Option<Op>>, oldest: nat, b: Batch)
    requires Good(v, above, history, oldest) && oldest <= |history|
    requires b.sequence == |history| + 1 && PlainOps(b.ops)
    ensures Good(v, above + BatchEntries(b), history + Made(b.ops), oldest)
  {
    hide ValidVersion, Genuine, Faithful, NewerSet, BatchEntries, Entries;
    var es := above + Entries(v);
    BatchIsFaithful(es, history, oldest, b, |b.ops|);
    assert b.ops[..|b.ops|] == b.ops && Batch(b.sequence, b.ops) == b;
    BatchIsNewer(es, history, b);
    NewerParts(BatchEntries(b), es, BatchEntries(b), Entries(v));
    NewerBoth(above, BatchEntries(b), Entries(v));
    assert es + BatchEntries(b) == above + BatchEntries(b) + Entries(v);
  }

  lemma GoodLater(v: Version, above: set<Entry>, history: seq<Option<Op>>, o1: nat, o2: nat)
    requires Good(v, above, history, o1) && o1 <= o2
    ensures Good(v, above, history, o2)
  {
    hide ValidVersion, Genuine, NewerSet, Entries;
  }

  // ---------------------------------------------------------------- flushes and moves

  /** A flush takes entries from above the version into it. */
  lemma GoodFlush(v: Version, w: Version, level: nat, f: File, above: set<Entry>, history: seq<Option<Op>>, oldest: nat)
    requires Good(v, above + Elements(f.table), history, oldest) && NewerSet(above, Elements(f.table))
    requires Flushed(v, w, level, f) && FreshFile(v, f, level)
    ensures Good(w, above, history, oldest) && Entries(w) == Entries(v) + Elements(f.table)
  {
    hide ValidVersion, Genuine, Faithful, NewerSet, Entries, Elements, Flushed, FreshFile;
    FlushKeepsVersionValid(v, w, level, f);
    assert above + Elements(f.table) + Entries(v) == above + Entries(w);
    NewerParts(above + Elements(f.table), Entries(v), above, Entries(v));
    NewerBelowBoth(above, Entries(v), Elements(f.table));
  }

  lemma NewerBelowBoth(a: set<Entry>, es: set<Entry>, fs: set<Entry>)
    requires NewerSet(a, es) && NewerSet(a, fs)
    ensures NewerSet(a, es + fs)
  {
  }

  lemma GoodIsUnique(v: Version, above: set<Entry>, history: seq<Option<Op>>, oldest: nat)
    requires Good(v, above, history, oldest)
    ensures UniqueSequences(above + Entries(v)) && UniqueSequences(Entries(v))
  {
    hide ValidVersion, Faithful, NewerSet, Entries;
    GenuineIsUnique(above + Entries(v), history);
  }

  /** A trivial move changes no entry. */
  lemma GoodMove(v: Version, w: Version, level: nat, f: File, above: set<Entry>, history: seq<Option<Op>>, oldest: nat)
    requires Good(v, above, history, oldest) && level + 1 < NUM_LEVELS && Chosen(v, level, [f], [])
    requires Installed(v, w, level, [f], [], [f]) && NewNumbers(v.files[level + 1], [f])
    ensures Good(w, above, history, oldest) && Entries(w) == Entries(v)
  {
    hide ValidVersion, Genuine, Faithful, NewerSet, Entries, Installed, Chosen, NewNumbers, Rearranged, UniqueSequences, Contents;
    GoodIsUnique(v, above, history, oldest);
    assert |v.files| == NUM_LEVELS by { LevelCount(v); }
    assert [f][0] == f;
    MoveRearranges(v, w, level, [f]);
    RearrangedIsValid(v, w, level, [f], [], Contents([f]), [f]);
  }

  // ---------------------------------------------------------------- compactions

  lemma SameReadsLater(a: set<Entry>, b: set<Entry>, o1: nat, o2: nat)
    requires SameReads(a, b, o1) && o1 <= o2
    ensures SameReads(a, b, o2)
  {
  }

  lemma GenuinePart(a: set<Entry>, b: set<Entry>, history: seq<Option<Op>>)
    requires Genuine(a, history) && b <= a
    ensures Genuine(b, history)
  {
  }

  /** Nothing in `es` is newer than `n`. */
  ghost predicate UpTo(es: set<Entry>, n: nat) {
    forall e :: e in es ==> e.key.sequence <= n
  }

  ghost function SeenAt(es: set<Entry>, n: nat): set<Entry> {
    set e | e in es && e.key.sequence <= n
  }

  /** A read sees nothing that is newer than its snapshot. */
  lemma ProbeSeen(es: set<Entry>, user: UserKey, s: nat, n: nat)
    requires UniqueSequences(es) && s <= n
    ensures Probe(SeenAt(es, n), user, s) == Probe(es, user, s)
  {
    var seen := SeenAt(es, n);
    forall e ensures Newest(seen, user, s, e) <==> Newest(es, user, s, e) {
    }
    if e :| Newest(es, user, s, e) {
      ProbeIs(es, user, s, e);
      ProbeIs(seen, user, s, e);
    }
  }

  lemma ProbeLater(es: set<Entry>, user: UserKey, s: nat, n: nat)
    requires UniqueSequences(es) && UpTo(es, s) && s <= n
    ensures Probe(es, user, n) == Probe(es, user, s)
  {
    forall e ensures Newest(es, user, s, e) <==> Newest(es, user, n, e) {
    }
    if e :| Newest(es, user, s, e) {
      ProbeIs(es, user, s, e);
      ProbeIs(es, user, n, e);
    }
  }

  lemma UncoversNoMore(v: Version, level: nat, t: seq<Entry>, snapshot: nat, es: set<Entry>, more: set<Entry>, left: set<Entry>)
    requires NothingUncovered(v, level, t, snapshot, es, left) && forall e :: e in t ==> e in es
    ensures NothingUncovered(v, level, t, snapshot, more + es, left)
  {
    hide ObsoleteKey, Probe;
    forall e | e in t && ObsoleteKey(v, level, e.key, snapshot) && Newest(more + es, e.key.user, snapshot, e)
      ensures !Probe(left, e.key.user, e.key.sequence).Found?
    {
      assert Newest(es, e.key.user, snapshot, e);
    }
  }

  /** A read at a snapshot before `from`, but not before anything in the tables, is as good as one at `from`. */
  lemma EarlierReads(above: set<Entry>, a: set<Entry>, b: set<Entry>, from: nat, user: UserKey, s: nat)
    requires UniqueSequences(above + a) && UniqueSequences(above + b) && UpTo(a, s) && UpTo(b, s) && s <= from
    requires SameReads(SeenAt(above, s) + a, SeenAt(above, s) + b, from)
    ensures Answer(Probe(above + a, user, s)) == Answer(Probe(above + b, user, s))
  {
    hide UniqueSequences, Probe, SameReads;
    var seen := SeenAt(above, s);
    assert SeenAt(above + a, s) == seen + a && SeenAt(above + b, s) == seen + b;
    UniquePart(above + a, seen + a);
    UniquePart(above + b, seen + b);
    ProbeSeen(above + a, user, s, s);
    ProbeSeen(above + b, user, s, s);
    ProbeLater(seen + a, user, s, from);
    ProbeLater(seen + b, user, s, from);
    assert Answer(Probe(seen + a, user, from)) == Answer(Probe(seen + b, user, from)) by { ReadsAt(seen + a, seen + b, from, user); }
  }

  lemma ReadsAt(a: set<Entry>, b: set<Entry>, from: nat, user: UserKey)
    requires SameReads(a, b, from)
    ensures Answer(Probe(a, user, from)) == Answer(Probe(b, user, from))
  {
  }

  /** The results of a compaction, installed over the flushes that came between, hold what was held before:
      for every snapshot that was live when the compaction began or came later, and for every other one that
      is not older than something in the tables, as a crash may make it the last. */
  lemma GoodOver(base: Version, added: set<Placed>, v: Version, w: Version, level: nat, upper: seq<File>, lower: seq<File>,
                 input: seq<Entry>, outputs: seq<File>, from: nat, above: set<Entry>, history: seq<Option<Op>>, oldest: nat)
    requires Good(v, above, history, oldest) && (from <= oldest || UpTo(Entries(v), oldest))
    requires InstalledOver(base, added, v, w, level, upper, lower, input, outputs) && NoneBetween(added, level, outputs)
    requires Contents(outputs) == Kept(base, level, input, |input|, from)
    requires NothingUncovered(base, level, input, from, Entries(v), LeftOut(base.files[level + 1], lower))
    ensures Good(w, above, history, oldest) && Entries(w) <= Entries(v)
  {
    hide ValidVersion, Genuine, Faithful, NewerSet, Entries, InstalledOver, NoneBetween, NothingUncovered, Kept, Contents, UniqueSequences,
         Grown, AllFlushedOnto, Installed, NewNumbers, GoodOutputs, SameReads, Probe, MapAfter, UpTo, Merged, LeftOut;
    GoodIsUnique(v, above, history, oldest);
    OverParts(base, added, v, w, level, upper, lower, input, outputs);
    GrownEntries(base, added, v);
    UniquePart(Entries(v), Entries(base));
    InstallsOverIff(base, added, v, w, level, upper, lower, input, outputs);
    InputHeld(base, added, v, w, level, upper, lower, input, outputs);
    assert Entries(w) <= Entries(v) && SameReads(above + Entries(v), above + Entries(w), from) by {
      UncoversNoMore(base, level, input, from, Entries(v), above, LeftOut(base.files[level + 1], lower));
      OverKeepsReadsIff(base, added, v, w, level, upper, lower, input, outputs, from, above);
    }
    GenuinePart(above + Entries(v), above + Entries(w), history);
    GenuineIsUnique(above + Entries(v), history);
    GenuineIsUnique(above + Entries(w), history);
    forall user, s: nat | oldest <= s <= |history| ensures Answer(Probe(above + Entries(w), user, s)) == Lookup(MapAfter(history, s), user) {
      FaithfulAt(above + Entries(v), history, oldest, user, s);
      if from <= s {
        SameReadsLater(above + Entries(v), above + Entries(w), from, s);
        ReadsAt(above + Entries(v), above + Entries(w), s, user);
      } else {
        var seen := SeenAt(above, s);
        UpToLater(Entries(v), Entries(w), oldest, s);
        NewerParts(above, Entries(v), seen, Entries(v));
        UniquePart(above + Entries(v), seen + Entries(v));
        UncoversNoMore(base, level, input, from, Entries(v), seen, LeftOut(base.files[level + 1], lower));
        OverKeepsReadsIff(base, added, v, w, level, upper, lower, input, outputs, from, seen);
        EarlierReads(above, Entries(v), Entries(w), from, user, s);
      }
    }
    assert Faithful(above + Entries(w), history, oldest) by { IsFaithful(above + Entries(w), history, oldest); }
    NewerParts(above, Entries(v), above, Entries(w));
  }

  lemma InputHeld(base: Version, added: set<Placed>, v: Version, w: Version, level: nat, upper: seq<File>, lower: seq<File>,
                  input: seq<Entry>, outputs: seq<File>)
    requires InstalledOver(base, added, v, w, level, upper, lower, input, outputs)
    ensures |base.files| == NUM_LEVELS && level + 1 < NUM_LEVELS && forall e :: e in input ==> e in Entries(v)
  {
    hide ValidVersion, Grown, AllFlushedOnto, Installed, Chosen, Merged, FromInput, GoodOutputs, NewNumbers, Entries;
    OverParts(base, added, v, w, level, upper, lower, input, outputs);
    GrownEntries(base, added, v);
    EntriesBefore(base, level, upper, lower, input);
  }

  lemma FaithfulAt(es: set<Entry>, history: seq<Option<Op>>, oldest: nat, user: UserKey, s: nat)
    requires Faithful(es, history, oldest) && oldest <= s <= |history|
    ensures Answer(Probe(es, user, s)) == Lookup(MapAfter(history, s), user)
  {
  }

  lemma IsFaithful(es: set<Entry>, history: seq<Option<Op>>, oldest: nat)
    requires forall user, s: nat :: oldest <= s <= |history| ==> Answer(Probe(es, user, s)) == Lookup(MapAfter(history, s), user)
    ensures Faithful(es, history, oldest)
  {
  }

  lemma UpToBoth(a: set<Entry>, b: set<Entry>, m: nat, n: nat)
    requires UpTo(a, m) && UpTo(b, n) && m <= n
    ensures UpTo(a + b, n)
  {
  }

  lemma UpToLater(a: set<Entry>, b: set<Entry>, n: nat, s: nat)
    requires UpTo(a, n) && b <= a && n <= s
    ensures UpTo(a, s) && UpTo(b, s)
  {
  }

  lemma UniquePart(a: set<Entry>, b: set<Entry>)
    requires UniqueSequences(a) && b <= a
    ensures UniqueSequences(b)
  {
  }

  // ---------------------------------------------------------------- what a crash leaves

  ghost predicate Holding(es: set<Entry>, n: nat) {
    exists e :: e in es && e.key.sequence == n
  }

  /** `es` is newer than the first `saved` updates, and holds all the others. */
  ghost predicate HoldsFrom(es: set<Entry>, history: seq<Option<Op>>, saved: nat) {
    && (forall e :: e in es ==> saved < e.key.sequence)
    && (forall i :: saved <= i < |history| && history[i].Some? ==> Holding(es, i + 1))
  }

  lemma HoldsMore(es: set<Entry>, history: seq<Option<Op>>, saved: nat, b: Batch)
    requires HoldsFrom(es, history, saved) && b.sequence == |history| + 1 && saved <= |history|
    ensures HoldsFrom(es + BatchEntries(b), history + Made(b.ops), saved)
  {
    var after := history + Made(b.ops);
    forall i | saved <= i < |after| && after[i].Some? ensures Holding(es + BatchEntries(b), i + 1) {
      if i < |history| {
        assert Holding(es, i + 1);
      } else {
        var j := i - |history|;
        var e := Entry(InternalKey(b.ops[j].user, b.sequence + j, b.ops[j].kind), b.ops[j].value);
        assert e in BatchEntries(b) && e.key.sequence == i + 1;
      }
    }
  }

  /** `after` is what is left of `history` when, behind the first `saved` updates, only those in `kept` are
      left: the number of a lost update is no update's any more. */
  ghost predicate Leaves(history: seq<Option<Op>>, saved: nat, kept: set<Entry>, after: seq<Option<Op>>) {
    && saved <= |after| <= |history| && UpTo(kept, |after|)
    && forall i :: 0 <= i < |after| ==> after[i] == if i < saved || Holding(kept, i + 1) then history[i] else None
  }

  /** The updates before `saved` alone. */
  lemma SavedFaithful(above: set<Entry>, tables: set<Entry>, history: seq<Option<Op>>, oldest: nat, saved: nat)
    requires Genuine(above + tables, history) && Faithful(above + tables, history, oldest)
    requires oldest <= saved <= |history| && UpTo(tables, saved) && forall e :: e in above ==> saved < e.key.sequence
    ensures Genuine(tables, history[..saved]) && Faithful(tables, history[..saved], saved)
  {
    forall e | e in tables ensures 1 <= e.key.sequence <= saved && IsMade(e, history[..saved][e.key.sequence - 1]) {
      assert e in above + tables;
    }
    GenuineIsUnique(above + tables, history);
    assert SeenAt(above + tables, saved) == tables;
    assert history[..saved] + history[saved..] == history;
    hide Probe, MapAfter, Genuine, Faithful, UpTo;
    forall user ensures Answer(Probe(tables, user, saved)) == Lookup(MapAfter(history[..saved], saved), user) {
      FaithfulAt(above + tables, history, oldest, user, saved);
      ProbeSeen(above + tables, user, saved, saved);
      MapAfterMore(history[..saved], history[saved..], saved);
    }
    IsFaithful(tables, history[..saved], saved);
  }

  lemma {:induction false} MapAfterMore(history: seq<Option<Op>>, more: seq<Option<Op>>, n: nat)
    requires n <= |history|
    ensures MapAfter(history + more, n) == MapAfter(history, n)
  {
    if n > 0 {
      MapAfterMore(history, more, n - 1);
    }
  }

  /** A number that no update has changes nothing. */
  lemma NoUpdateIsFaithful(es: set<Entry>, history: seq<Option<Op>>, oldest: nat)
    requires Genuine(es, history) && Faithful(es, history, oldest) && oldest <= |history|
    ensures Genuine(es, history + [None]) && Faithful(es, history + [None], oldest)
  {
    GenuineIsUnique(es, history);
    var n := |history|;
    assert UpTo(es, n) && Genuine(es, history + [None]);
    assert MapAfter(history + [None], n + 1) == MapAfter(history + [None], n);
    hide Probe, MapAfter, Genuine, Faithful, UpTo;
    forall user, s: nat | oldest <= s <= n + 1 ensures Answer(Probe(es, user, s)) == Lookup(MapAfter(history + [None], s), user) {
      MapAfterMore(history, [None], if s <= n then s else n);
      FaithfulAt(es, history, oldest, user, if s <= n then s else n);
      if s == n + 1 {
        ProbeLater(es, user, n, s);
      }
    }
    IsFaithful(es, history + [None], oldest);
  }

  /** The updates of a crash's leavings, one by one. */
  lemma {:induction false} LeftFaithful(above: set<Entry>, tables: set<Entry>, history: seq<Option<Op>>, oldest: nat, saved: nat,
                                        kept: set<Entry>, after: seq<Option<Op>>, n: nat)
    requires Genuine(above + tables, history) && Faithful(above + tables, history, oldest)
    requires oldest <= saved && UpTo(tables, saved) && HoldsFrom(above, history, saved)
    requires kept <= above && Leaves(history, saved, kept, after) && saved <= n <= |after|
    ensures Genuine(SeenAt(kept, n) + tables, after[..n]) && Faithful(SeenAt(kept, n) + tables, after[..n], saved)
  {
    hide Genuine, Faithful;
    if n == saved {
      SavedFaithful(above, tables, history, oldest, saved);
      assert SeenAt(kept, n) + tables == tables && after[..n] == history[..n];
    } else {
      var es, before := SeenAt(kept, n - 1) + tables, after[..n - 1];
      LeftFaithful(above, tables, history, oldest, saved, kept, after, n - 1);
      if Holding(kept, n) {
        var e :| e in kept && e.key.sequence == n;
        MadeAt(above + tables, history, e);
        OneMoreSeen(above + tables, history, kept, n, e);
        UpdateIsFaithful(es, before, saved, history[n - 1].value, e);
        assert before + [Some(history[n - 1].value)] == after[..n];
        assert es + {e} == SeenAt(kept, n) + tables;
      } else {
        assert SeenAt(kept, n) == SeenAt(kept, n - 1);
        NoUpdateIsFaithful(es, before, saved);
        assert before + [None] == after[..n];
      }
    }
  }

  lemma MadeAt(es: set<Entry>, history: seq<Option<Op>>, e: Entry)
    requires Genuine(es, history) && e in es
    ensures 1 <= e.key.sequence <= |history| && IsMade(e, history[e.key.sequence - 1])
  {
  }

  lemma OneMoreSeen(all: set<Entry>, history: seq<Option<Op>>, kept: set<Entry>, n: nat, e: Entry)
    requires Genuine(all, history) && kept <= all && e in kept && e.key.sequence == n > 0
    ensures SeenAt(kept, n) == SeenAt(kept, n - 1) + {e}
  {
    forall d | d in SeenAt(kept, n) && d.key.sequence == n ensures d == e {
      assert d in all && e in all;
    }
  }

  /** What a crash leaves is good for the updates that it leaves. */
  lemma GoodLeft(v: Version, above: set<Entry>, history: seq<Option<Op>>, oldest: nat, saved: nat, kept: set<Entry>, after: seq<Option<Op>>)
    requires Good(v, above, history, oldest) && oldest <= saved && UpTo(Entries(v), saved) && HoldsFrom(above, history, saved)
    requires kept <= above && Leaves(history, saved, kept, after)
    ensures Good(v, kept, after, saved)
  {
    hide ValidVersion, Genuine, Faithful, Entries, NewerSet;
    LeftFaithful(above, Entries(v), history, oldest, saved, kept, after, |after|);
    assert SeenAt(kept, |after|) == kept && after[..|after|] == after;
    NewerParts(above, Entries(v), kept, Entries(v));
  }

  /** A crash that takes nothing leaves every update. */
  lemma AllLeft(history: seq<Option<Op>>, saved: nat, above: set<Entry>, after: seq<Option<Op>>)
    requires HoldsFrom(above, history, saved) && Leaves(history, saved, above, after) && |after| == |history|
    ensures after == history
  {
    forall i | 0 <= i < |after| ensures after[i] == history[i] {
    }
  }
}
