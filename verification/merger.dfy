/** Merging several iterators into one (table/merger.cc). */
module MergingIterators {
  import opened DbFormat
  import opened Cursors

  /** How many entries of `t` sort before the entry of `merged` at index `p`. */
  function Passed(t: seq<Entry>, merged: seq<Entry>, p: nat): (n: nat)
    requires p <= |merged|
    ensures n <= |t|
  {
    if p == |merged| then |t| else DbFormat.Seek(t, merged[p].key)
  }

  /** One step back from a count: the last entry counted, or "not valid". */
  function Back(n: nat, t: seq<Entry>): nat
    requires n <= |t|
  {
    if n == 0 then |t| else n - 1
  }

  /** Where in `merged` an entry of a child is. */
  lemma InMerged(t: seq<Entry>, merged: seq<Entry>, x: nat) returns (k: nat)
    requires SortedTable(merged) && x < |t| && UnionHas(merged, t)
    ensures k < |merged| && merged[k] == t[x]
    ensures forall p :: 0 <= p < |merged| ==> (Less(t[x].key, merged[p].key) <==> k < p)
  {
    assert t[x] in t;
    k :| 0 <= k < |merged| && merged[k] == t[x];
    forall p | 0 <= p < |merged| ensures Less(t[x].key, merged[p].key) <==> k < p {
      assert k < p ==> Less(merged[k].key, merged[p].key);
      assert p < k ==> Less(merged[p].key, merged[k].key);
    }
  }

  /** `n` entries of `t` are among the first `p` of `merged`. */
  lemma PassedIs(t: seq<Entry>, merged: seq<Entry>, p: nat, n: nat)
    requires SortedTable(merged) && p <= |merged| && n <= |t|
    requires UnionHas(merged, t)
    requires forall j :: 0 <= j < n ==> t[j] in merged[..p]
    requires n < |t| ==> t[n] in merged[p..]
    ensures Passed(t, merged, p) == n
  {
    if p < |merged| {
      forall j | 0 <= j < n ensures Less(t[j].key, merged[p].key) {
        var k :| 0 <= k < p && merged[..p][k] == t[j];
        assert Less(merged[k].key, merged[p].key);
      }
      if n < |t| {
        var k :| 0 <= k < |merged| - p && merged[p..][k] == t[n];
        assert k > 0 ==> Less(merged[p].key, merged[p + k].key);
      }
      SeekIs(t, merged[p].key, n);
    }
  }

  /** The entries counted are among the first `p`, the others are not. */
  lemma PassedSplits(t: seq<Entry>, merged: seq<Entry>, p: nat)
    requires SortedTable(t) && SortedTable(merged) && p <= |merged|
    requires UnionHas(merged, t)
    ensures forall j :: 0 <= j < Passed(t, merged, p) ==> t[j] in merged[..p]
    ensures forall j :: Passed(t, merged, p) <= j < |t| ==> t[j] in merged[p..]
  {
    var n := Passed(t, merged, p);
    forall j | 0 <= j < |t| ensures if j < n then t[j] in merged[..p] else t[j] in merged[p..] {
      var k := InMerged(t, merged, j);
      if j < n {
        assert merged[..p][k] == t[j];
      } else {
        assert n < j ==> Less(t[n].key, t[j].key);
        assert merged[p..][k - p] == t[j];
      }
    }
  }

  /** Counting moves in step with the merged sequence. */
  lemma PassedStep(t: seq<Entry>, merged: seq<Entry>, p: nat)
    requires SortedTable(t) && SortedTable(merged) && p < |merged|
    requires UnionHas(merged, t)
    ensures merged[p] in t ==> Passed(t, merged, p) < |t| && t[Passed(t, merged, p)] == merged[p]
    ensures Passed(t, merged, p + 1) == Passed(t, merged, p) + if merged[p] in t then 1 else 0
  {
    if merged[p] in t {
      PassedStepOver(t, merged, p);
    } else {
      PassedStepBeside(t, merged, p);
    }
  }

  lemma Later(merged: seq<Entry>, p: nat, e: Entry)
    requires p < |merged|
    ensures e in merged[p..] && e != merged[p] ==> e in merged[p + 1..]
    ensures e in merged[..p] || e == merged[p] ==> e in merged[..p + 1]
  {
    assert merged[..p + 1] == merged[..p] + [merged[p]];
    assert merged[p..] == [merged[p]] + merged[p + 1..];
  }

  lemma PassedStepOver(t: seq<Entry>, merged: seq<Entry>, p: nat)
    requires SortedTable(t) && SortedTable(merged) && p < |merged| && merged[p] in t
    requires UnionHas(merged, t)
    ensures Passed(t, merged, p) < |t| && t[Passed(t, merged, p)] == merged[p]
    ensures Passed(t, merged, p + 1) == Passed(t, merged, p) + 1
  {
    var j :| 0 <= j < |t| && t[j] == merged[p];
    SeekIs(t, merged[p].key, j);
    PassedSplits(t, merged, p);
    assert j + 1 < |t| ==> Less(t[j].key, t[j + 1].key);
    hide UnionHas, SortedTable, Less, Passed;
    forall i | 0 <= i <= j ensures t[i] in merged[..p + 1] {
      Later(merged, p, t[i]);
    }
    if j + 1 < |t| {
      Later(merged, p, t[j + 1]);
      assert t[j + 1] != merged[p] by { NotLess(t[j].key); }
    }
    PassedIs(t, merged, p + 1, j + 1);
  }

  lemma NotLess(k: InternalKey)
    ensures !Less(k, k)
  {
  }

  lemma PassedStepBeside(t: seq<Entry>, merged: seq<Entry>, p: nat)
    requires SortedTable(t) && SortedTable(merged) && p < |merged| && merged[p] !in t
    requires UnionHas(merged, t)
    ensures Passed(t, merged, p + 1) == Passed(t, merged, p)
  {
    var n := Passed(t, merged, p);
    PassedSplits(t, merged, p);
    hide UnionHas, SortedTable, Less, Passed;
    forall i | 0 <= i < |t|
      ensures t[i] in merged[..p] ==> t[i] in merged[..p + 1]
      ensures t[i] in merged[p..] ==> t[i] in merged[p + 1..]
    {
      assert t[i] in t;
      Later(merged, p, t[i]);
    }
    PassedIs(t, merged, p + 1, n);
  }

  lemma PassedNone(t: seq<Entry>, merged: seq<Entry>)
    requires SortedTable(merged) && UnionHas(merged, t)
    ensures Passed(t, merged, 0) == 0
  {
    assert merged[0..] == merged;
    PassedIs(t, merged, 0, 0);
  }

  /** Seeking a child and seeking the merged sequence for the same key agree. */
  lemma SeekInStep(t: seq<Entry>, merged: seq<Entry>, target: InternalKey)
    requires SortedTable(t) && SortedTable(merged)
    requires UnionHas(merged, t)
    ensures DbFormat.Seek(t, target) == Passed(t, merged, DbFormat.Seek(merged, target))
  {
    var p, n := DbFormat.Seek(merged, target), DbFormat.Seek(t, target);
    SeekSplits(merged, target);
    SeekSplits(t, target);
    forall j | 0 <= j < n ensures t[j] in merged[..p] {
      var k := InMerged(t, merged, j);
      assert merged[..p][k] == t[j];
    }
    if n < |t| {
      var k := InMerged(t, merged, n);
      assert merged[p..][k - p] == t[n];
    }
    PassedIs(t, merged, p, n);
  }

  datatype Direction = Forward | Reverse

  class MergingIterator {
    const children: seq<Cursor>
    var current: int  // index of the child at the current entry; -1 for none
    var direction: Direction
    ghost const merged: seq<Entry>
    ghost var at: nat  // index of the current entry in `merged`

    ghost predicate ChildrenOk()
      reads children
    {
      && (forall i, j :: 0 <= i < j < |children| ==> children[i] != children[j])
      && (forall i :: 0 <= i < |children| ==> children[i].Ok() && UnionHas(merged, children[i].entries))
    }

    /** The children share no entry, and together they hold everything. */
    ghost predicate MergedOk() {
      && SortedTable(merged)
      && (forall e :: e in merged ==> Held(children, e))
      && (forall i, j, e :: 0 <= i < j < |children| && e in children[i].entries ==> e !in children[j].entries)
    }

    /** All children rest at their first entry not before `merged[p]`. */
    ghost predicate AheadOf(p: nat)
      reads children
      requires p <= |merged|
    {
      forall i :: 0 <= i < |children| ==> children[i].pos == Passed(children[i].entries, merged, p)
    }

    /** All children rest at their last entry before `merged[p]`. */
    ghost predicate BehindOf(p: nat)
      reads children
      requires p <= |merged|
    {
      forall i :: 0 <= i < |children| ==> children[i].pos == Back(Passed(children[i].entries, merged, p), children[i].entries)
    }

    /** `c` is the child that holds the current entry, or -1 at the end. */
    ghost predicate Current(c: int, p: nat)
      reads children
      requires p <= |merged|
    {
      && (c == -1 <==> p == |merged|)
      && (c != -1 ==>
            && 0 <= c < |children| && children[c].Valid() && children[c].entries[children[c].pos] == merged[p])
    }

    ghost predicate Ok()
      reads this, children
      ensures Ok() ==> SortedTable(merged) && at <= |merged| && (Valid() <==> at < |merged|)
    {
      && ChildrenOk() && MergedOk()
      && at <= |merged|
      && Current(current, at)
      && (at < |merged| ==> if direction.Forward? then AheadOf(at) else BehindOf(at + 1))
    }

    constructor (children: seq<Cursor>, ghost merged: seq<Entry>)
      requires forall i, j :: 0 <= i < j < |children| ==> children[i] != children[j]
      requires forall i :: 0 <= i < |children| ==> children[i].Ok() && UnionHas(merged, children[i].entries)
      requires SortedTable(merged)
      requires forall e :: e in merged ==> Held(children, e)
      requires forall i, j, e :: 0 <= i < j < |children| && e in children[i].entries ==> e !in children[j].entries
      ensures Ok() && this.children == children && this.merged == merged && at == |merged|
    {
      this.children := children;
      this.merged := merged;
      current, direction, at := -1, Forward, |merged|;
    }

    predicate Valid()
      reads this
    {
      current != -1
    }

    function Key(): (k: InternalKey)
      requires Ok() && Valid()
      reads this, children
      ensures k == merged[at].key
    {
      children[current].Key()
    }

    function Value(): (v: string)
      requires Ok() && Valid()
      reads this, children
      ensures v == merged[at].value
    {
      children[current].Value()
    }

    /** The smallest current entry of all children is the one at `p`. */
    method FindSmallest(ghost p: nat)
      requires ChildrenOk() && MergedOk() && p <= |merged| && AheadOf(p)
      modifies this
      ensures Current(current, p)
      ensures at == p && direction == old(direction)
    {
      hide MergedOk, SortedTable, UnionHas;
      var smallest := -1;
      var i := 0;
      while i < |children|
        invariant 0 <= i <= |children|
        invariant -1 <= smallest < i
        invariant smallest == -1 ==> forall j :: 0 <= j < i ==> !children[j].Valid()
        invariant smallest != -1 ==> children[smallest].Valid()
        invariant smallest != -1 ==> forall j :: 0 <= j < i && children[j].Valid() ==> !Less(children[j].Key(), children[smallest].Key())
      {
        var child := children[i];
        if child.Valid() {
          if smallest == -1 {
            smallest := i;
          } else if Less(child.Key(), children[smallest].Key()) {
            smallest := i;
          }
        }
        i := i + 1;
      }
      current := smallest;
      at := p;
      SmallestIsNext(p, smallest);
    }

    lemma Holder(p: nat) returns (i: nat)
      requires ChildrenOk() && MergedOk() && p < |merged|
      ensures i < |children| && merged[p] in children[i].entries
      ensures children[i].Ok() && UnionHas(merged, children[i].entries)
    {
      assert merged[p] in merged;
      var j :| 0 <= j < |children| && merged[p] in children[j].entries;
      i := j;
    }

    lemma MergedSorted()
      requires MergedOk()
      ensures SortedTable(merged)
    {
    }

    lemma SmallestIsNext(p: nat, s: int)
      requires ChildrenOk() && MergedOk() && p <= |merged| && AheadOf(p)
      requires -1 <= s < |children|
      requires s == -1 ==> forall j :: 0 <= j < |children| ==> !children[j].Valid()
      requires s != -1 ==> children[s].Valid()
      requires s != -1 ==> forall j :: 0 <= j < |children| && children[j].Valid() ==> !Less(children[j].Key(), children[s].Key())
      ensures Current(s, p)
    {
      hide MergedOk, SortedTable, UnionHas;
      MergedSorted();
      if p < |merged| {
        var i := Holder(p);
        PassedStep(children[i].entries, merged, p);
        PassedSplits(children[s].entries, merged, p);
        var k := InMerged(children[s].entries, merged, children[s].pos);
      }
    }

    /** The largest current entry of all children is the one before `p`. */
    method FindLargest(ghost p: nat)
      requires ChildrenOk() && MergedOk() && p <= |merged| && BehindOf(p)
      modifies this
      ensures at == (if p == 0 then |merged| else p - 1) && Current(current, at)
      ensures direction == old(direction)
    {
      hide MergedOk, SortedTable, UnionHas;
      var largest := -1;
      var i := |children| - 1;
      while i >= 0
        invariant -1 <= i < |children|
        invariant largest == -1 || i < largest < |children|
        invariant largest == -1 ==> forall j :: i < j < |children| ==> !children[j].Valid()
        invariant largest != -1 ==> children[largest].Valid()
        invariant largest != -1 ==> forall j :: i < j < |children| && children[j].Valid() ==> !Less(children[largest].Key(), children[j].Key())
      {
        var child := children[i];
        if child.Valid() {
          if largest == -1 {
            largest := i;
          } else if Less(children[largest].Key(), child.Key()) {
            largest := i;
          }
        }
        i := i - 1;
      }
      current := largest;
      at := if p == 0 then |merged| else p - 1;
      LargestIsPrevious(p, largest);
    }

    lemma LargestIsPrevious(p: nat, s: int)
      requires ChildrenOk() && MergedOk() && p <= |merged| && BehindOf(p)
      requires -1 <= s < |children|
      requires s == -1 ==> forall j :: 0 <= j < |children| ==> !children[j].Valid()
      requires s != -1 ==> children[s].Valid()
      requires s != -1 ==> forall j :: 0 <= j < |children| && children[j].Valid() ==> !Less(children[s].Key(), children[j].Key())
      ensures Current(s, if p == 0 then |merged| else p - 1)
    {
      hide MergedOk, SortedTable, UnionHas;
      MergedSorted();
      if p == 0 {
        forall j | 0 <= j < |children| ensures !children[j].Valid() {
          PassedNone(children[j].entries, merged);
        }
      } else {
        var i := Holder(p - 1);
        PassedStep(children[i].entries, merged, p - 1);
        PassedSplits(children[s].entries, merged, p);
        assert children[s].entries[children[s].pos] in merged[..p];
        var k := InMerged(children[s].entries, merged, children[s].pos);
      }
    }

    method SeekToFirst()
      requires Ok()
      modifies this, children
      ensures Ok() && at == 0
    {
      hide MergedOk, SortedTable, UnionHas;
      var i := 0;
      while i < |children|
        invariant 0 <= i <= |children|
        invariant ChildrenOk()
        invariant forall j :: 0 <= j < i ==> children[j].pos == 0
      {
        children[i].SeekToFirst();
        i := i + 1;
      }
      MergedSorted();
      forall j | 0 <= j < |children| ensures children[j].pos == Passed(children[j].entries, merged, 0) {
        PassedNone(children[j].entries, merged);
      }
      direction := Forward;
      FindSmallest(0);
    }

    method SeekToLast()
      requires Ok()
      modifies this, children
      ensures Ok() && at == Last(|merged|)
    {
      hide MergedOk, SortedTable, UnionHas;
      var i := 0;
      while i < |children|
        invariant 0 <= i <= |children|
        invariant ChildrenOk()
        invariant forall j :: 0 <= j < i ==> children[j].pos == Last(|children[j].entries|)
      {
        children[i].SeekToLast();
        i := i + 1;
      }
      direction := Reverse;
      FindLargest(|merged|);
    }

    method Seek(target: InternalKey)
      requires Ok()
      modifies this, children
      ensures Ok() && at == DbFormat.Seek(merged, target)
    {
      hide MergedOk, SortedTable, UnionHas;
      ghost var p := DbFormat.Seek(merged, target);
      MergedSorted();
      var i := 0;
      while i < |children|
        invariant 0 <= i <= |children|
        invariant ChildrenOk()
        invariant forall j :: 0 <= j < i ==> children[j].pos == DbFormat.Seek(children[j].entries, target)
      {
        children[i].Seek(target);
        i := i + 1;
      }
      forall j | 0 <= j < |children| ensures children[j].pos == Passed(children[j].entries, merged, p) {
        SeekInStep(children[j].entries, merged, target);
      }
      direction := Forward;
      FindSmallest(p);
    }

    /** Only the current child holds the current entry. */
    lemma OneHolder(c: int, p: nat)
      requires ChildrenOk() && MergedOk() && p < |merged| && Current(c, p)
      ensures forall i :: 0 <= i < |children| ==> (merged[p] in children[i].entries <==> i == c)
    {
      assert merged[p] in children[c].entries;
    }

    lemma StepAll(p: nat)
      requires ChildrenOk() && MergedOk() && p < |merged|
      ensures forall i :: 0 <= i < |children| ==>
                Passed(children[i].entries, merged, p + 1)
                == Passed(children[i].entries, merged, p) + if merged[p] in children[i].entries then 1 else 0
      ensures forall i :: 0 <= i < |children| && merged[p] in children[i].entries ==>
                Passed(children[i].entries, merged, p) < |children[i].entries|
    {
      forall i | 0 <= i < |children|
        ensures Passed(children[i].entries, merged, p + 1)
                == Passed(children[i].entries, merged, p) + if merged[p] in children[i].entries then 1 else 0
        ensures merged[p] in children[i].entries ==> Passed(children[i].entries, merged, p) < |children[i].entries|
      {
        PassedStep(children[i].entries, merged, p);
      }
    }

    /** Puts all children after the current key, when the last move went backward. */
    method TurnForward()
      requires Ok() && Valid() && direction.Reverse?
      modifies this, children
      ensures ChildrenOk() && current == old(current) && at == old(at) && direction.Forward?
      ensures Current(current, at) && AheadOf(at)
    {
      hide MergedOk, UnionHas, SortedTable, Passed;
      OneHolder(current, at);
      StepAll(at);
      ghost var p := at;
      var key := Key();
      var i := 0;
      while i < |children|
        invariant 0 <= i <= |children|
        invariant ChildrenOk() && current == old(current) && at == p && direction == old(direction)
        invariant children[current].pos == old(children[current].pos)
        invariant forall j :: 0 <= j < i ==> children[j].pos == Passed(children[j].entries, merged, p)
      {
        if i != current {
          children[i].Seek(key);
          KeyIsForeign(i, key);
          if children[i].Valid() && children[i].Key() == key {
            assert false;  // no two children share a key
          }
          PassedMeans(children[i].entries, p);
        }
        i := i + 1;
      }
      direction := Forward;
    }

    lemma PassedMeans(t: seq<Entry>, p: nat)
      requires p < |merged|
      ensures Passed(t, merged, p) == DbFormat.Seek(t, merged[p].key)
    {
    }

    /** Puts all children before the current key, when the last move went forward. */
    method TurnBackward()
      requires Ok() && Valid() && direction.Forward?
      modifies this, children
      ensures ChildrenOk() && current == old(current) && at == old(at) && direction.Reverse?
      ensures Current(current, at) && BehindOf(at + 1)
    {
      hide MergedOk, UnionHas, SortedTable, Passed;
      OneHolder(current, at);
      StepAll(at);
      ghost var p := at;
      var key := Key();
      var i := 0;
      while i < |children|
        invariant 0 <= i <= |children|
        invariant ChildrenOk() && current == old(current) && at == p && direction == old(direction)
        invariant children[current].pos == old(children[current].pos)
        invariant forall j :: 0 <= j < i && j != current ==> BehindKey(children[j], p)
      {
        if i != current {
          SeekBefore(children[i], key);
          PassedMeans(children[i].entries, p);
        }
        i := i + 1;
      }
      direction := Reverse;
    }

    ghost predicate BehindKey(child: Cursor, p: nat)
      reads child
      requires p <= |merged|
    {
      child.pos == Back(Passed(child.entries, merged, p), child.entries)
    }

    lemma KeyIsForeign(i: nat, key: InternalKey)
      requires ChildrenOk() && MergedOk() && at < |merged| && key == merged[at].key
      requires i < |children| && merged[at] !in children[i].entries
      ensures children[i].Valid() ==> children[i].Key() != key
    {
      if children[i].Valid() {
        var k := InMerged(children[i].entries, merged, children[i].pos);
        assert !Less(merged[k].key, merged[at].key) || !Less(merged[at].key, merged[k].key);
        assert k < at ==> Less(merged[k].key, merged[at].key);
        assert at < k ==> Less(merged[at].key, merged[k].key);
      }
    }

    /** Moves the current child on, behind its entry at `p`. */
    method MoveOn(ghost p: nat)
      requires ChildrenOk() && p < |merged| && 0 <= current < |children| && AheadOf(p) && children[current].Valid()
      requires forall i :: 0 <= i < |children| ==>
                 Passed(children[i].entries, merged, p + 1) == Passed(children[i].entries, merged, p) + if i == current then 1 else 0
      modifies children
      ensures ChildrenOk() && AheadOf(p + 1)
    {
      hide UnionHas, SortedTable, Passed;
      children[current].Next();
    }

    method Next()
      requires Ok() && Valid()
      modifies this, children
      ensures Ok() && at == After(old(at), |merged|)
    {
      hide MergedOk, SortedTable, UnionHas, Passed;
      ghost var p := at;
      OneHolder(current, p);
      StepAll(p);
      if direction != Forward {
        TurnForward();
      }
      MoveOn(p);
      FindSmallest(p + 1);
    }

    /** Moves the current child back, behind its entry at `p`. */
    method MoveBack(ghost p: nat)
      requires ChildrenOk() && p < |merged| && 0 <= current < |children| && BehindOf(p + 1)
      requires forall i :: 0 <= i < |children| ==>
                 Passed(children[i].entries, merged, p + 1) == Passed(children[i].entries, merged, p) + if i == current then 1 else 0
      modifies children
      ensures ChildrenOk() && BehindOf(p)
    {
      hide UnionHas, SortedTable, Passed;
      children[current].Prev();
    }

    method Prev()
      requires Ok() && Valid()
      modifies this, children
      ensures Ok() && at == Before(old(at), |merged|)
    {
      hide MergedOk, SortedTable, UnionHas, Passed;
      ghost var p := at;
      OneHolder(current, p);
      StepAll(p);
      if direction != Reverse {
        TurnBackward();
      }
      MoveBack(p);
      FindLargest(p);
    }
  }

  /** Positions a child at its last entry before `key`. */
  method SeekBefore(child: Cursor, key: InternalKey)
    requires child.Ok()
    modifies child
    ensures child.Ok() && child.pos == Back(DbFormat.Seek(child.entries, key), child.entries)
  {
    child.Seek(key);
    if child.Valid() {
      child.Prev();
    } else {
      child.SeekToLast();
    }
  }

  ghost predicate Held(children: seq<Cursor>, e: Entry) {
    exists i :: 0 <= i < |children| && e in children[i].entries
  }

  ghost predicate UnionHas(merged: seq<Entry>, t: seq<Entry>) {
    forall e :: e in t ==> e in merged
  }
}
