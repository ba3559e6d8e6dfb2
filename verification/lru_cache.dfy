/** One shard of the block cache: entries on two circular lists and in the hash table, with a count
    of references each (LRUCache of util/cache.cc). Its methods are proved to do what LruModel says. */
module LruCaches {
  import opened DbFormat
  import opened HandleTables
  import opened LruModel

  /** The dummy heads of the two lists; the handles come after them. */
  const LRU: nat := 0
  const IN_USE: nat := 1

  // ---------------------------------------------------------------- circular lists

  function NodeAt(head: nat, s: seq<nat>, i: int): nat {
    if 0 < i <= |s| then s[i - 1] else head
  }

  ghost predicate PairAt(next: map<nat, nat>, prev: map<nat, nat>, head: nat, s: seq<nat>, i: nat) {
    && NodeAt(head, s, i) in next && next[NodeAt(head, s, i)] == NodeAt(head, s, i + 1)
    && NodeAt(head, s, i + 1) in prev && prev[NodeAt(head, s, i + 1)] == NodeAt(head, s, i)
  }

  /** From `head`, `next` leads through `s` and back, and `prev` the other way round. */
  ghost predicate Ring(next: map<nat, nat>, prev: map<nat, nat>, head: nat, s: seq<nat>) {
    forall i :: 0 <= i <= |s| ==> PairAt(next, prev, head, s, i)
  }

  ghost predicate Distinct(head: nat, s: seq<nat>) {
    NoRepeats(s) && head !in s
  }

  lemma NodesDiffer(head: nat, s: seq<nat>, i: nat, j: nat)
    requires Distinct(head, s) && i <= |s| && j <= |s| && i != j
    ensures NodeAt(head, s, i) != NodeAt(head, s, j)
  {
  }

  lemma RingWithout(next: map<nat, nat>, prev: map<nat, nat>, head: nat, s: seq<nat>, e: nat)
    requires Ring(next, prev, head, s) && Distinct(head, s) && e in s
    ensures e in next && e in prev && (next[e] == head || next[e] in s) && (prev[e] == head || prev[e] in s)
    ensures Ring(next[prev[e] := next[e]], prev[next[e] := prev[e]], head, Without(s, e))
  {
    hide Without, PairAt;
    var k :| 0 <= k < |s| && s[k] == e;
    WithoutOne(s, e, k);
    AroundIs(next, prev, head, s, k);
    var t, next2, prev2 := s[..k] + s[k + 1..], next[prev[e] := next[e]], prev[next[e] := prev[e]];
    forall i | 0 <= i < |s| ensures PairAt(next2, prev2, head, t, i) {
      ShortRing(next, prev, head, s, k, i);
    }
  }

  lemma AroundIs(next: map<nat, nat>, prev: map<nat, nat>, head: nat, s: seq<nat>, k: nat)
    requires Ring(next, prev, head, s) && k < |s|
    ensures s[k] in next && next[s[k]] == NodeAt(head, s, k + 2) && (next[s[k]] == head || next[s[k]] in s)
    ensures s[k] in prev && prev[s[k]] == NodeAt(head, s, k) && (prev[s[k]] == head || prev[s[k]] in s)
  {
    assert PairAt(next, prev, head, s, k) && PairAt(next, prev, head, s, k + 1);
  }

  lemma ShortRing(next: map<nat, nat>, prev: map<nat, nat>, head: nat, s: seq<nat>, k: nat, i: nat)
    requires Ring(next, prev, head, s) && Distinct(head, s) && k < |s| && i < |s|
    requires s[k] in next && next[s[k]] == NodeAt(head, s, k + 2) && s[k] in prev && prev[s[k]] == NodeAt(head, s, k)
    ensures PairAt(next[prev[s[k]] := next[s[k]]], prev[next[s[k]] := prev[s[k]]], head, s[..k] + s[k + 1..], i)
  {
    hide Distinct, NoRepeats, NodeAt;
    ShortNodes(head, s, k, i);
    ShortNodes(head, s, k, i + 1);
    if i < k {
      assert PairAt(next, prev, head, s, i);
      NodesDiffer(head, s, i, k);
      LastDiffers(head, s, i + 1, k + 2);
    } else if i > k {
      assert PairAt(next, prev, head, s, i + 1);
      NodesDiffer(head, s, i + 1, k);
      LastDiffers(head, s, k + 2, i + 2);
    }
  }

  lemma ShortNodes(head: nat, s: seq<nat>, k: nat, i: nat)
    requires k < |s| && i <= |s|
    ensures NodeAt(head, s[..k] + s[k + 1..], i) == NodeAt(head, s, if i <= k then i else i + 1)
  {
  }

  /** The node behind the last one is the head again. */
  lemma LastDiffers(head: nat, s: seq<nat>, i: nat, j: nat)
    requires Distinct(head, s) && 0 < i < j <= |s| + 1
    ensures NodeAt(head, s, i) != NodeAt(head, s, j)
  {
  }

  lemma RingWith(next: map<nat, nat>, prev: map<nat, nat>, head: nat, s: seq<nat>, e: nat)
    requires Ring(next, prev, head, s) && Distinct(head, s) && e !in s && e != head
    ensures head in prev && (prev[head] == head || prev[head] in s)
    ensures Ring(next[e := head][prev[head] := e], prev[e := prev[head]][head := e], head, s + [e])
  {
    assert PairAt(next, prev, head, s, |s|);
    var t := s + [e];
    var next2, prev2 := next[e := head][prev[head] := e], prev[e := prev[head]][head := e];
    forall i | 0 <= i <= |t| ensures PairAt(next2, prev2, head, t, i) {
      if i < |s| {
        assert PairAt(next, prev, head, s, i);
        NodesDiffer(head, s, i, |s|);
        NodesDiffer(head, s, i + 1, 0);
      }
    }
  }

  /** A list whose nodes are not touched stays as it is. */
  lemma RingStays(next: map<nat, nat>, prev: map<nat, nat>, next2: map<nat, nat>, prev2: map<nat, nat>, head: nat, s: seq<nat>)
    requires Ring(next, prev, head, s)
    requires forall x :: x in next && (x == head || x in s) ==> x in next2 && next2[x] == next[x]
    requires forall x :: x in prev && (x == head || x in s) ==> x in prev2 && prev2[x] == prev[x]
    ensures Ring(next2, prev2, head, s)
  {
    forall i | 0 <= i <= |s| ensures PairAt(next2, prev2, head, s, i) {
      assert PairAt(next, prev, head, s, i);
    }
  }

  // ---------------------------------------------------------------- one more eviction

  /** Removing the oldest entry of what `n` evictions left is one more of them. */
  lemma OneMoreGone(c: Model, held: map<nat, nat>, n: nat)
    requires n < |c.lru| && Sound(OldestGone(c, n), held) && Sound(c, held)
    ensures Known(OldestGone(c, n)) && c.lru[n] in c.infos
    ensures Erased(OldestGone(c, n), c.infos[c.lru[n]].id) == OldestGone(c, n + 1)
  {
    hide Charged, Disposed, Mapped, Counted, Listed, Without;
    var d, e := OldestGone(c, n), c.lru[n];
    TableIsKnown(d, held);
    assert d.lru[0] == e;
    GoneEntry(c, d, held, e);
    GoneTable(c, n, e);
    GoneRefs(c, d, held, e, n);
    GoneLists(c, d, held, e, n);
  }

  lemma GoneEntry(c: Model, d: Model, held: map<nat, nat>, e: nat)
    requires Listed(d, held) && Mapped(d) && Mapped(c) && e in d.lru && d.infos == c.infos && d.inCache <= c.inCache
    ensures e in c.infos && e in d.inCache && c.infos[e].id in d.table && d.table[c.infos[e].id] == e
    ensures forall id :: id in c.table && c.table[id] == e ==> id == c.infos[e].id
  {
  }

  lemma GoneTable(c: Model, n: nat, e: nat)
    requires n < |c.lru| && e == c.lru[n] && e in c.infos
    requires forall id :: id in c.table && c.table[id] == e ==> id == c.infos[e].id
    requires c.infos[e].id in OldestGone(c, n).table && OldestGone(c, n).table[c.infos[e].id] == e
    ensures OldestGone(c, n).table - {c.infos[e].id} == OldestGone(c, n + 1).table
    ensures OldestGone(c, n).inCache - {e} == OldestGone(c, n + 1).inCache
  {
    assert c.lru[..n + 1] == c.lru[..n] + [e];
    var before, after, id := OldestGone(c, n).table - {c.infos[e].id}, OldestGone(c, n + 1).table, c.infos[e].id;
    assert c.table[id] == e;
    forall x ensures x in before <==> x in after {
    }
    assert before == after;
  }

  lemma GoneRefs(c: Model, d: Model, held: map<nat, nat>, e: nat, n: nat)
    requires n < |c.lru| && e == c.lru[n] && d == OldestGone(c, n) && Counted(d, held) && Listed(d, held)
    ensures e in d.refs && d.refs[e] == 1 && d.refs[e := 0] == OldestGone(c, n + 1).refs
  {
    assert d.lru[0] == e;
    assert c.lru[..n + 1] == c.lru[..n] + [e];
  }

  lemma GoneLists(c: Model, d: Model, held: map<nat, nat>, e: nat, n: nat)
    requires n < |c.lru| && e == c.lru[n] && d == OldestGone(c, n) && Listed(d, held) && e in c.infos
    ensures Without(d.lru, e) == c.lru[n + 1..] && Without(d.inUse, e) == d.inUse && d.deleted + [e] == OldestGone(c, n + 1).deleted
    ensures d.usage - c.infos[e].charge == OldestGone(c, n + 1).usage
  {
    assert d.lru[0] == e;
    WithoutOne(d.lru, e, 0);
    assert c.lru[..n + 1] == c.lru[..n] + [e];
    SumAppend(c.infos, c.lru[..n], e);
  }

  lemma NothingGone(c: Model)
    ensures OldestGone(c, 0) == c
  {
    assert c.lru[0..] == c.lru && c.deleted + c.lru[..0] == c.deleted;
  }

  // ---------------------------------------------------------------- the cache

  function Ids(infos: map<nat, Info>): map<nat, Id> {
    map h | h in infos :: infos[h].id
  }

  ghost predicate TableKnown(table: map<Id, nat>, infos: map<nat, Info>) {
    forall id :: id in table ==> table[id] in infos
  }

  ghost predicate Bounded(infos: map<nat, Info>, end: nat) {
    IN_USE < end && forall h :: h in infos ==> IN_USE < h < end
  }

  ghost predicate Apart(s: seq<nat>, t: seq<nat>) {
    forall x :: x in s ==> x !in t
  }

  /** Both circular lists, with no handle in common. */
  ghost predicate Lists(next: map<nat, nat>, prev: map<nat, nat>, lru: seq<nat>, inUse: seq<nat>) {
    && Ring(next, prev, LRU, lru) && Ring(next, prev, IN_USE, inUse) && NoRepeats(lru) && NoRepeats(inUse) && Apart(lru, inUse)
    && (forall h :: h in lru ==> h > IN_USE) && (forall h :: h in inUse ==> h > IN_USE)
  }

  lemma KeysOf(infos: map<nat, Info>)
    ensures Ids(infos).Keys == infos.Keys && forall h :: h in infos ==> Ids(infos)[h] == infos[h].id
  {
  }

  class LRUCache {
    var capacity: nat
    var usage: int
    var next: map<nat, nat>
    var prev: map<nat, nat>
    var infos: map<nat, Info>
    var refs: map<nat, int>
    var inCache: set<nat>
    const table: HandleTable
    /** The handle that malloc gives next, and the handles that have been passed to their deleter. */
    var nextHandle: nat
    var deleted: seq<nat>
    ghost var lru: seq<nat>
    ghost var inUse: seq<nat>
    /** The references that clients hold. */
    ghost var held: map<nat, nat>

    ghost function Abs(): Model
      reads this, table
    {
      Model(capacity, usage, infos, refs, inCache, table.table, lru, inUse, deleted)
    }

    /** The links and the buckets stand for the lists and the map; this holds inside an operation too. */
    ghost predicate Linked()
      reads this, table
    {
      && table.Valid(Ids(infos)) && refs.Keys == infos.Keys
      && Lists(next, prev, lru, inUse) && Bounded(infos, nextHandle) && TableKnown(table.table, infos)
    }

    ghost predicate Valid()
      reads this, table
    {
      Linked() && Sound(Abs(), held)
    }

    constructor (capacity: nat)
      ensures Valid() && fresh(table) && held == map[]
      ensures Abs() == Model(capacity, 0, map[], map[], {}, map[], [], [], [])
    {
      this.capacity, usage, infos, refs, inCache := capacity, 0, map[], map[], {};
      next, prev := map[LRU := LRU, IN_USE := IN_USE], map[LRU := LRU, IN_USE := IN_USE];
      table := new HandleTable();
      nextHandle, deleted, lru, inUse, held := 2, [], [], [], map[];
    }

    method LruRemove(e: nat)
      requires Linked() && (e in lru || e in inUse)
      modifies this`next, this`prev, this`lru, this`inUse
      ensures Linked() && Abs() == old(Abs()).(lru := Without(old(lru), e), inUse := Without(old(inUse), e))
    {
      hide Lists, Bounded, HandleTable.Valid, Without, TableKnown;
      RemoveFrom(next, prev, lru, inUse, e);
      prev := prev[next[e] := prev[e]];
      next := next[prev[e] := next[e]];
      lru, inUse := Without(lru, e), Without(inUse, e);
    }

    /** Makes `e` the newest entry of a list. */
    method LruAppend(list: nat, e: nat)
      requires Linked() && (list == LRU || list == IN_USE) && e !in lru && e !in inUse && e > IN_USE
      modifies this`next, this`prev, this`lru, this`inUse
      ensures Linked()
      ensures Abs() == if list == LRU then old(Abs()).(lru := old(lru) + [e]) else old(Abs()).(inUse := old(inUse) + [e])
    {
      hide Lists, Bounded, HandleTable.Valid, TableKnown;
      AppendTo(next, prev, lru, inUse, list, e);
      next := next[e := list];
      prev := prev[e := prev[list]];
      next := next[prev[e] := e];
      prev := prev[next[e] := e];
      if list == LRU {
        lru := lru + [e];
      } else {
        inUse := inUse + [e];
      }
    }

    method Ref(e: nat)
      requires Linked() && e in infos && (refs[e] == 1 && e in inCache ==> e in lru)
      modifies this
      ensures Linked() && Abs() == Refd(old(Abs()), e) && held == old(held) && nextHandle == old(nextHandle)
    {
      hide Lists, Bounded, HandleTable.Valid, Without, TableKnown;
      if refs[e] == 1 && e in inCache {
        OnOneList(next, prev, lru, inUse, infos, nextHandle, e);
        LruRemove(e);
        LruAppend(IN_USE, e);
      }
      refs := refs[e := refs[e] + 1];
    }

    method Unref(e: nat)
      requires Linked() && e in infos && refs[e] > 0 && (refs[e] == 2 && e in inCache ==> e in inUse) && (refs[e] == 1 ==> e !in inCache)
      modifies this
      ensures Linked() && Abs() == Unrefd(old(Abs()), e) && held == old(held) && nextHandle == old(nextHandle)
    {
      hide Lists, Bounded, HandleTable.Valid, Without, TableKnown;
      refs := refs[e := refs[e] - 1];
      if refs[e] == 0 {
        deleted := deleted + [e];
      } else if e in inCache && refs[e] == 1 {
        OnOneList(next, prev, lru, inUse, infos, nextHandle, e);
        LruRemove(e);
        LruAppend(LRU, e);
      }
    }

    /** Finishes removing an entry that is out of the table already. */
    method FinishErase(e: Option<nat>) returns (erased: bool)
      requires Linked()
      requires e.Some? ==> e.value in infos && e.value in inCache && refs[e.value] > 0 && (e.value in lru || e.value in inUse)
      modifies this
      ensures Linked() && erased == e.Some? && held == old(held) && nextHandle == old(nextHandle)
      ensures Abs() == if e.Some? then Dropped(old(Abs()), e.value) else old(Abs())
    {
      hide Lists, Bounded, HandleTable.Valid, Without, TableKnown;
      if e != None {
        LruRemove(e.value);
        inCache := inCache - {e.value};
        usage := usage - infos[e.value].charge;
        Unref(e.value);
      }
      erased := e != None;
    }

    method Lookup(id: Id) returns (r: Option<nat>)
      requires Valid()
      modifies this
      ensures Valid() && r == (if id in old(table.table) then Some(old(table.table)[id]) else None)
      ensures r.None? ==> Abs() == old(Abs()) && held == old(held)
      ensures r.Some? ==> r.value in old(held) && r.value in old(refs)
                          && Abs() == Refd(old(Abs()), r.value) && held == old(held)[r.value := old(held)[r.value] + 1]
    {
      hide Lists, Bounded, HandleTable.Valid, Without, TableKnown, Sound, Refd;
      TableEntry(Abs(), held, id);
      r := table.Lookup(Ids(infos), id);
      if r != None {
        HeldEntry(Abs(), held, r.value);
        RefKeeps(Abs(), held, r.value);
        Ref(r.value);
        held := held[r.value := held[r.value] + 1];
      }
    }

    method Release(handle: nat)
      requires Valid() && handle in held && held[handle] > 0
      modifies this
      ensures handle in old(refs) && Valid() && Abs() == Unrefd(old(Abs()), handle) && held == old(held)[handle := old(held)[handle] - 1]
    {
      hide Lists, Bounded, HandleTable.Valid, Without, TableKnown, Sound, Unrefd;
      HeldEntry(Abs(), held, handle);
      ReleaseKeeps(Abs(), held, handle);
      Unref(handle);
      held := held[handle := held[handle] - 1];
    }

    method Erase(id: Id)
      requires Valid()
      modifies this, table
      ensures Known(old(Abs())) && Valid() && Abs() == Erased(old(Abs()), id) && held == old(held)
    {
      hide Lists, HandleTable.Valid, Without, Sound, Dropped;
      TableEntry(Abs(), held, id);
      DropKeeps(Abs(), held, id);
      if id in table.table {
        HeldEntry(Abs(), held, table.table[id]);
      }
      ghost var was := table.table;
      var e := table.Remove(Ids(infos), id);
      NothingThere2(was, id);
      var _ := FinishErase(e);
    }

    /** A new entry, with a handle for the client. An entry with the same id leaves the cache, and then
        the oldest entries out of use, until the charge fits the capacity or none is left. */
    method Insert(id: Id, value: string, charge: nat) returns (e: nat)
      requires Valid()
      modifies this, table
      ensures Valid() && e == old(nextHandle) && e !in old(held) && held == old(held)[e := 1] && Known(old(Abs()))
      ensures exists n :: JustEnough(Added(Erased(old(Abs()), id), e, Info(id, value, charge)), n)
                          && Abs() == OldestGone(Added(Erased(old(Abs()), id), e, Info(id, value, charge)), n)
      ensures usage <= capacity || lru == []
    {
      hide Lists, HandleTable.Valid, Without, Sound, Sum, OldestGone, Dropped, Added, Erased, Known;
      var info := Info(id, value, charge);
      ghost var c0, held0 := Abs(), held;
      e := AddEntry(info);
      ghost var c, n := Abs(), 0;
      NothingGone(c);
      OldestLink(next, prev, lru, inUse);
      while usage > capacity && next[LRU] != LRU
        invariant LRU in next && (next[LRU] == LRU <==> n == |c.lru|) && Sound(c, held)
        invariant Linked() && n <= |c.lru| && Abs() == OldestGone(c, n) && Sound(Abs(), held) && held == held0[e := 1]
        invariant forall m :: 0 <= m < n ==> c.usage - Sum(c.infos, c.lru[..m]) > c.capacity
        decreases |c.lru| - n
      {
        GoneFields(c, n);
        EvictOldest(c, n);
        n := n + 1;
      }
      GoneFields(c, n);
      assert JustEnough(c, n);
    }

    /** The entry that malloc gives, with its references and on its list, but not in the table yet. */
    method Allocate(info: Info) returns (e: nat)
      requires Linked() && (forall h :: h in lru || h in inUse ==> h in infos)
      modifies this
      ensures Linked() && e == old(nextHandle) && held == old(held) && e !in old(infos)
      ensures Abs() == Added(old(Abs()), e, info).(table := old(table.table))
    {
      hide Lists, Bounded, HandleTable.Valid, TableKnown, Ids;
      e := nextHandle;
      MoreInfos(table, infos, e, lru, inUse, info);
      nextHandle, infos, refs := nextHandle + 1, infos[e := info], refs[e := 1];
      if capacity > 0 {
        SetTwice(old(refs), e);
        refs, inCache := refs[e := refs[e] + 1], inCache + {e};
        LruAppend(IN_USE, e);
        usage := usage + info.charge;
      }
    }

    /** Insert up to the evictions. */
    method AddEntry(info: Info) returns (e: nat)
      requires Valid()
      modifies this, table
      ensures Valid() && e == old(nextHandle) && e !in old(held) && held == old(held)[e := 1] && Known(old(Abs()))
      ensures Abs() == Added(Erased(old(Abs()), info.id), e, info)
    {
      hide Lists, Bounded, HandleTable.Valid, Without, Sound, Dropped, Erased, Ids, Added, TableKnown;
      ghost var c0 := Abs();
      NotThere(infos, nextHandle);
      AddIsSound(c0, held, nextHandle, info);
      NothingDisplaced(c0, held, info.id);
      AddedFields(c0, nextHandle, info);
      e := Allocate(info);
      KeysOf(infos);
      if capacity > 0 {
        if info.id in c0.table {
          DisplacedThenAdded(c0, held, e, info);
        }
        NewInTable(table.table, infos, info.id, e);
        var old_ := table.Insert(Ids(infos), e);
        var _ := FinishErase(old_);
      }
      held := held[e := 1];
    }

    /** One turn of the loop of Insert or Prune. */
    method EvictOldest(ghost c: Model, ghost n: nat)
      requires Linked() && n < |c.lru| && Abs() == OldestGone(c, n) && Sound(Abs(), held) && Sound(c, held)
      modifies this, table
      ensures Linked() && Abs() == OldestGone(c, n + 1) && Sound(Abs(), held) && held == old(held) && nextHandle == old(nextHandle)
      ensures LRU in next && (next[LRU] == LRU <==> n + 1 == |c.lru|)
    {
      hide Lists, HandleTable.Valid, Without, Sound, Dropped;
      OldestLink(next, prev, lru, inUse);
      var e := next[LRU];
      OldestIs(c, n);
      OneMoreGone(c, held, n);
      HeldEntry(Abs(), held, e);
      DropKeeps(Abs(), held, infos[e].id);
      var removed := table.Remove(Ids(infos), infos[e].id);
      var _ := FinishErase(removed);
      GoneFields(c, n + 1);
      OldestLink(next, prev, lru, inUse);
    }

    /** All entries out of use leave the cache. */
    method Prune()
      requires Valid()
      modifies this, table
      ensures Valid() && Abs() == OldestGone(old(Abs()), |old(lru)|) && held == old(held)
    {
      hide Lists, HandleTable.Valid, Without, Sound, Sum, OldestGone, Dropped;
      ghost var c, n := Abs(), 0;
      NothingGone(c);
      OldestLink(next, prev, lru, inUse);
      while next[LRU] != LRU
        invariant LRU in next && (next[LRU] == LRU <==> n == |c.lru|) && Sound(c, held)
        invariant Linked() && n <= |c.lru| && Abs() == OldestGone(c, n) && Sound(Abs(), held) && held == old(held)
        decreases |c.lru| - n
      {
        GoneFields(c, n);
        EvictOldest(c, n);
        n := n + 1;
      }
    }
  }

  lemma OnOneList(next: map<nat, nat>, prev: map<nat, nat>, lru: seq<nat>, inUse: seq<nat>, infos: map<nat, Info>, end: nat, e: nat)
    requires Lists(next, prev, lru, inUse) && Bounded(infos, end) && e in infos
    ensures e > IN_USE && e !in Without(lru, e) && e !in Without(inUse, e)
    ensures e in lru ==> Without(inUse, e) == inUse
    ensures e in inUse ==> Without(lru, e) == lru
  {
    hide Ring, Without;
    WithoutMeans(lru, e);
    WithoutMeans(inUse, e);
  }

  /** The new entry takes the old one's place in the table before the old one leaves the lists. */
  lemma DisplacedThenAdded(c: Model, held: map<nat, nat>, e: nat, info: Info)
    requires Sound(c, held) && e !in held && c.capacity > 0 && info.id in c.table
    ensures Known(c)
    ensures var c2 := Added(c, e, info); var old_ := c.table[info.id];
            && old_ in c2.refs && old_ in c2.infos && old_ in c2.inCache && c2.refs[old_] > 0 && (old_ in c2.lru || old_ in c2.inUse)
            && Dropped(c2, old_) == Added(Erased(c, info.id), e, info)
  {
    hide Charged, Disposed, Mapped, Listed, Counted, Without;
    TableIsKnown(c, held);
    var old_, id := c.table[info.id], info.id;
    TableEntry(c, held, info.id);
    HeldEntry(c, held, old_);
    WithoutLast(c.inUse, old_, e);
    assert (c.table - {id})[id := e] == c.table[id := e];
    assert c.inCache + {e} - {old_} == c.inCache - {old_} + {e};
    assert c.refs[old_ := c.refs[old_] - 1][e := 2] == c.refs[e := 2][old_ := c.refs[old_] - 1];
    DroppedFields(Added(c, e, info), old_);
    DroppedFields(c.(table := c.table - {id}), old_);
  }

  lemma DroppedFields(c: Model, e: nat)
    requires e in c.refs && e in c.infos
    ensures Dropped(c, e) == c.(lru := Without(c.lru, e), inUse := Without(c.inUse, e), inCache := c.inCache - {e},
                                usage := c.usage - c.infos[e].charge, refs := c.refs[e := c.refs[e] - 1],
                                deleted := if c.refs[e] == 1 then c.deleted + [e] else c.deleted)
  {
    hide Without;
  }

  lemma {:induction false} WithoutLast(s: seq<nat>, e: nat, x: nat)
    requires x != e
    ensures Without(s + [x], e) == Without(s, e) + [x]
  {
    if s != [] {
      WithoutLast(s[1..], e, x);
      assert (s + [x])[1..] == s[1..] + [x];
      assert [s[0]] + (Without(s[1..], e) + [x]) == [s[0]] + Without(s[1..], e) + [x];
    }
  }

  lemma NothingDisplaced(c: Model, held: map<nat, nat>, id: Id)
    requires Sound(c, held)
    ensures Known(c) && (id !in c.table ==> Erased(c, id) == c) && (c.capacity == 0 ==> id !in c.table)
  {
  }

  lemma NothingThere2(table: map<Id, nat>, id: Id)
    ensures id !in table ==> table - {id} == table
  {
  }

  lemma AddIsSound(c: Model, held: map<nat, nat>, e: nat, info: Info)
    requires Sound(c, held) && e !in c.infos
    ensures Known(c) && Sound(Added(Erased(c, info.id), e, info), held[e := 1])
    ensures e !in held && e !in c.table.Values && forall h :: h in c.lru || h in c.inUse ==> h in c.infos
  {
    hide Sound, Dropped, Added;
    DropKeeps(c, held, info.id);
    NewHandle(c, held, e);
    ErasedTable(c, info.id);
    AddKeeps(Erased(c, info.id), held, e, info);
  }

  lemma ErasedTable(c: Model, id: Id)
    requires Known(c)
    ensures Erased(c, id).table == c.table - {id}
  {
    NothingThere2(c.table, id);
  }

  lemma NewHandle(c: Model, held: map<nat, nat>, e: nat)
    requires Sound(c, held) && e !in c.infos
    ensures e !in held && e !in c.lru && e !in c.inUse && e !in c.table.Values
    ensures forall h :: h in c.lru || h in c.inUse ==> h in c.infos
  {
  }

  lemma OldestIs(c: Model, n: nat)
    requires n < |c.lru|
    ensures OldestGone(c, n).lru[0] == c.lru[n]
  {
  }

  lemma GoneFields(c: Model, n: nat)
    requires n <= |c.lru|
    ensures var d := OldestGone(c, n); d.capacity == c.capacity && d.usage == c.usage - Sum(c.infos, c.lru[..n]) && |d.lru| == |c.lru| - n
  {
  }

  lemma OldestLink(next: map<nat, nat>, prev: map<nat, nat>, lru: seq<nat>, inUse: seq<nat>)
    requires Lists(next, prev, lru, inUse)
    ensures LRU in next && next[LRU] == (if lru == [] then LRU else lru[0]) && (lru != [] ==> lru[0] != LRU)
  {
    assert PairAt(next, prev, LRU, lru, 0);
    assert lru != [] ==> lru[0] in lru;
  }

  lemma SetTwice(refs: map<nat, int>, e: nat)
    ensures refs[e := 1][e := 2] == refs[e := 2]
  {
  }

  lemma NewInTable(table: map<Id, nat>, infos: map<nat, Info>, id: Id, e: nat)
    requires TableKnown(table, infos) && e in infos
    ensures TableKnown(table[id := e], infos)
  {
  }

  lemma AddedFields(c: Model, e: nat, info: Info)
    ensures var d := Added(c, e, info);
            d.capacity == c.capacity && e in d.infos && d.infos[e] == info && d.table == if c.capacity == 0 then c.table else c.table[info.id := e]
  {
  }

  lemma NotThere(infos: map<nat, Info>, end: nat)
    requires Bounded(infos, end)
    ensures end !in infos
  {
  }

  lemma MoreInfos(t: HandleTable, infos: map<nat, Info>, end: nat, lru: seq<nat>, inUse: seq<nat>, info: Info)
    requires t.Valid(Ids(infos)) && Bounded(infos, end) && TableKnown(t.table, infos) && (forall h :: h in lru || h in inUse ==> h in infos)
    ensures end !in infos && end > IN_USE && end !in lru && end !in inUse
    ensures t.Valid(Ids(infos[end := info])) && Bounded(infos[end := info], end + 1) && TableKnown(t.table, infos[end := info])
  {
    hide HandleTable.Valid;
    MoreIds(t, Ids(infos), end, info.id);
    assert Ids(infos)[end := info.id] == Ids(infos[end := info]);
  }

  lemma HeldEntry(c: Model, held: map<nat, nat>, e: nat)
    requires Sound(c, held) && (e in held || e in c.lru)
    ensures e in held && e in c.refs && e in c.infos
    ensures held[e] > 0 ==> c.refs[e] > 0 && (c.refs[e] == 2 && e in c.inCache ==> e in c.inUse) && (c.refs[e] == 1 ==> e !in c.inCache)
    ensures e in c.inCache ==> c.refs[e] > 0 && (e in c.lru || e in c.inUse) && (c.refs[e] == 1 ==> e in c.lru)
    ensures e in c.inCache ==> c.infos[e].id in c.table && c.table[c.infos[e].id] == e
    ensures e in c.lru ==> e in c.inCache
  {
    hide Charged, Disposed;
  }

  lemma TableEntry(c: Model, held: map<nat, nat>, id: Id)
    requires Sound(c, held)
    ensures id in c.table ==> c.table[id] in c.inCache && c.table[id] in held && c.infos[c.table[id]].id == id
    ensures Known(c)
  {
    hide Charged, Disposed;
  }

  /** `e` is on one of the lists; both stay lists when it leaves. */
  lemma RemoveFrom(next: map<nat, nat>, prev: map<nat, nat>, lru: seq<nat>, inUse: seq<nat>, e: nat)
    requires Lists(next, prev, lru, inUse) && (e in lru || e in inUse)
    ensures e in next && e in prev && next[e] != e && prev[e] != e
    ensures Lists(next[prev[e] := next[e]], prev[next[e] := prev[e]], Without(lru, e), Without(inUse, e))
  {
    hide Ring, Without;
    WithoutMeans(lru, e);
    WithoutMeans(inUse, e);
    if e in lru {
      RingWithout(next, prev, LRU, lru, e);
      RingStays(next, prev, next[prev[e] := next[e]], prev[next[e] := prev[e]], IN_USE, inUse);
      NotItself(next, prev, LRU, lru, e);
    } else {
      RingWithout(next, prev, IN_USE, inUse, e);
      RingStays(next, prev, next[prev[e] := next[e]], prev[next[e] := prev[e]], LRU, lru);
      NotItself(next, prev, IN_USE, inUse, e);
    }
  }

  lemma NotItself(next: map<nat, nat>, prev: map<nat, nat>, head: nat, s: seq<nat>, e: nat)
    requires Ring(next, prev, head, s) && Distinct(head, s) && e in s
    ensures e in next && next[e] != e && e in prev && prev[e] != e
  {
    var k :| 0 <= k < |s| && s[k] == e;
    AroundIs(next, prev, head, s, k);
  }

  lemma AppendTo(next: map<nat, nat>, prev: map<nat, nat>, lru: seq<nat>, inUse: seq<nat>, list: nat, e: nat)
    requires Lists(next, prev, lru, inUse) && e > IN_USE && e !in lru && e !in inUse && (list == LRU || list == IN_USE)
    ensures list in prev && prev[list] != e
    ensures var next2, prev2 := next[e := list][prev[list] := e], prev[e := prev[list]][list := e];
            if list == LRU then Lists(next2, prev2, lru + [e], inUse) else Lists(next2, prev2, lru, inUse + [e])
  {
    hide Ring;
    if list == LRU {
      RingWith(next, prev, LRU, lru, e);
      RingStays(next, prev, next[e := list][prev[list] := e], prev[e := prev[list]][list := e], IN_USE, inUse);
      AppendNew(lru, e);
    } else {
      RingWith(next, prev, IN_USE, inUse, e);
      RingStays(next, prev, next[e := list][prev[list] := e], prev[e := prev[list]][list := e], LRU, lru);
      AppendNew(inUse, e);
    }
  }
}
