/** The hash table of the block cache: buckets of entries chained through `next_hash`
    (HandleTable of util/cache.cc). Handles are named by number. */
module HandleTables {
  import opened DbFormat

  /** What FindPointer compares: two entries are the same if both agree. */
  datatype Id = Id(key: string, hash: nat)

  /** A place that holds a link: the head of a bucket, or the `next_hash` field of a handle. */
  datatype Slot = InBucket(bucket: nat) | NextOf(handle: nat)

  function LinkTo(chain: seq<nat>, k: nat): Option<nat> {
    if k < |chain| then Some(chain[k]) else None
  }

  /** From `first` on, the links go through `chain` and end. */
  ghost predicate Follows(first: Option<nat>, nextHash: map<nat, Option<nat>>, chain: seq<nat>) {
    && first == LinkTo(chain, 0)
    && forall k :: 0 <= k < |chain| ==> chain[k] in nextHash && nextHash[chain[k]] == LinkTo(chain, k + 1)
  }

  ghost predicate NoRepeats(s: seq<nat>) {
    forall i, j :: 0 <= i < j < |s| ==> s[i] != s[j]
  }

  /** Every entry of a chain is the table's entry for its id, and belongs in this bucket. */
  ghost predicate ChainOk(ids: map<nat, Id>, table: map<Id, nat>, length: nat, bucket: nat, chain: seq<nat>)
    requires length > 0
  {
    && NoRepeats(chain)
    && forall k :: 0 <= k < |chain| ==>
         chain[k] in ids && ids[chain[k]].hash % length == bucket && ids[chain[k]] in table && table[ids[chain[k]]] == chain[k]
  }

  predicate PowerOfTwo(n: nat) {
    n == 1 || (n > 1 && n % 2 == 0 && PowerOfTwo(n / 2))
  }

  /** The place of `id`'s entry, or the end of its chain. */
  ghost predicate PlaceOf(ids: map<nat, Id>, chain: seq<nat>, id: Id, k: nat) {
    && k <= |chain| && (forall j :: 0 <= j < k ==> chain[j] in ids && ids[chain[j]] != id)
    && (k < |chain| ==> chain[k] in ids && ids[chain[k]] == id)
  }

  function SlotAt(bucket: nat, chain: seq<nat>, k: nat): Slot
    requires k <= |chain|
  {
    if k == 0 then InBucket(bucket) else NextOf(chain[k - 1])
  }

  /** Which buckets and chains make up a table. */
  ghost predicate Buckets(ids: map<nat, Id>, table: map<Id, nat>, list: seq<Option<nat>>, nextHash: map<nat, Option<nat>>, chains: seq<seq<nat>>) {
    && |list| == |chains| > 0
    && (forall i :: 0 <= i < |list| ==> Follows(list[i], nextHash, chains[i]))
    && (forall i :: 0 <= i < |list| ==> ChainOk(ids, table, |list|, i, chains[i]))
  }

  ghost predicate Complete(ids: map<nat, Id>, table: map<Id, nat>, chains: seq<seq<nat>>)
    requires |chains| > 0
  {
    forall id :: id in table ==> table[id] in ids && ids[table[id]] == id && table[id] in chains[id.hash % |chains|]
  }

  class HandleTable {
    var length: nat
    var elems: nat
    var list: seq<Option<nat>>
    var nextHash: map<nat, Option<nat>>
    ghost var chains: seq<seq<nat>>
    /** What the buckets stand for: a plain map. */
    ghost var table: map<Id, nat>

    ghost predicate Valid(ids: map<nat, Id>)
      reads this
    {
      && length == |list| >= 4 && PowerOfTwo(length) && elems == |table| <= length
      && Buckets(ids, table, list, nextHash, chains) && Complete(ids, table, chains)
    }

    constructor ()
      ensures table == map[] && forall ids :: Valid(ids)
    {
      length, elems, list, nextHash := 4, 0, [None, None, None, None], map[];
      chains, table := [[], [], [], []], map[];
    }

    function Read(slot: Slot): Option<nat>
      requires match slot case InBucket(i) => i < |list| case NextOf(h) => h in nextHash
      reads this
    {
      match slot case InBucket(i) => list[i] case NextOf(h) => nextHash[h]
    }

    method Write(slot: Slot, link: Option<nat>)
      requires slot.InBucket? ==> slot.bucket < |list|
      modifies this`list, this`nextHash
      ensures slot.InBucket? ==> list == old(list)[slot.bucket := link] && nextHash == old(nextHash)
      ensures slot.NextOf? ==> list == old(list) && nextHash == old(nextHash)[slot.handle := link]
    {
      match slot
      case InBucket(i) => list := list[i := link];
      case NextOf(h) => nextHash := nextHash[h := link];
    }

    /** The slot that points to the entry of `id`, or the trailing slot of its bucket. */
    method FindPointer(ids: map<nat, Id>, id: Id) returns (slot: Slot, ghost k: nat)
      requires Valid(ids)
      ensures var b := id.hash % length; b < |chains| && PlaceOf(ids, chains[b], id, k) && slot == SlotAt(b, chains[b], k)
      ensures slot.InBucket? ==> slot.bucket < |list|
      ensures slot.NextOf? ==> slot.handle in nextHash
      ensures Read(slot) == LinkTo(chains[id.hash % length], k)
    {
      ghost var b := id.hash % length;
      ghost var chain := chains[b];
      assert Follows(list[b], nextHash, chain) && ChainOk(ids, table, length, b, chain);
      hide Buckets, Complete, PowerOfTwo;
      slot := InBucket(id.hash % length);
      k := 0;
      while Read(slot).Some? && ids[Read(slot).value] != id
        invariant k <= |chain| && slot == SlotAt(b, chain, k) && Read(slot) == LinkTo(chain, k)
        invariant forall j :: 0 <= j < k ==> ids[chain[j]] != id
        decreases |chain| - k
      {
        slot := NextOf(Read(slot).value);
        k := k + 1;
      }
    }

    method Lookup(ids: map<nat, Id>, id: Id) returns (r: Option<nat>)
      requires Valid(ids)
      ensures r == if id in table then Some(table[id]) else None
    {
      var slot, k := FindPointer(ids, id);
      PlaceIsEntry(ids, table, chains, id, k);
      r := Read(slot);
    }

    /** Puts a new handle in, and returns the entry that it takes the place of. */
    method Insert(ids: map<nat, Id>, h: nat) returns (old_: Option<nat>)
      requires Valid(ids) && h in ids && h !in table.Values
      modifies this
      ensures Valid(ids) && table == old(table)[ids[h] := h]
      ensures old_ == if ids[h] in old(table) then Some(old(table)[ids[h]]) else None
    {
      hide Buckets, Complete, PlaceOf, Follows, ChainOk, PowerOfTwo;
      var ptr, k := FindPointer(ids, ids[h]);
      ghost var b := ids[h].hash % length;
      BucketAt(ids, table, list, nextHash, chains, b);
      PlaceWithin(ids, chains[b], ids[h], k);
      PlaceIsEntry(ids, table, chains, ids[h], k);
      InsertKeeps(ids, table, list, nextHash, chains, h, k);
      old_ := Read(ptr);
      NextThere(ids, table, list, nextHash, chains, b, k);
      nextHash := nextHash[h := if old_ == None then None else nextHash[old_.value]];
      Write(ptr, Some(h));
      chains := chains[b := WithEntry(chains[b], k, h)];
      table := table[ids[h] := h];
      if old_ == None {
        elems := elems + 1;
        if elems > length {
          Resize(ids);
        }
      }
    }

    method Remove(ids: map<nat, Id>, id: Id) returns (result: Option<nat>)
      requires Valid(ids)
      modifies this
      ensures Valid(ids) && table == old(table) - {id}
      ensures result == if id in old(table) then Some(old(table)[id]) else None
    {
      hide Buckets, Complete, PlaceOf, Follows, ChainOk, PowerOfTwo;
      var ptr, k := FindPointer(ids, id);
      ghost var b := id.hash % length;
      BucketAt(ids, table, list, nextHash, chains, b);
      PlaceWithin(ids, chains[b], id, k);
      PlaceIsEntry(ids, table, chains, id, k);
      result := Read(ptr);
      if result != None {
        RemoveKeeps(ids, table, list, nextHash, chains, id, k);
        NextThere(ids, table, list, nextHash, chains, b, k);
        Write(ptr, nextHash[result.value]);
        elems := elems - 1;
        chains := chains[b := chains[b][..k] + chains[b][k + 1..]];
        table := table - {id};
      } else {
        NothingThere(table, id);
      }
    }

    /** A table with as many buckets as entries, or more; every entry is linked anew. */
    method Resize(ids: map<nat, Id>)
      requires length == |list| && elems == |table| && Buckets(ids, table, list, nextHash, chains) && Complete(ids, table, chains)
      modifies this
      ensures Valid(ids) && table == old(table)
    {
      hide Buckets, Complete, Moving;
      SameCount(ids, table, list, nextHash, chains);
      var newLength := 4;
      while newLength < elems
        invariant PowerOfTwo(newLength) && newLength >= 4
        modifies {}
      {
        newLength := newLength * 2;
      }
      var newList: seq<Option<nat>> := seq(newLength, _ => None);
      ghost var newChains: seq<seq<nat>> := seq(newLength, _ => []);
      ghost var left := table.Values;
      StartMoving(ids, table, list, nextHash, chains, newList, newChains);
      var i := 0;
      while i < length
        invariant 0 <= i <= length == |list| == |chains| && table == old(table) && elems == old(elems)
        invariant Moving(ids, table, list, nextHash, chains, newList, newChains, left, i, 0)
        invariant |newList| == |newChains| == newLength
        modifies this`nextHash
      {
        var h := list[i];
        ghost var k := 0;
        FirstOfChain(ids, table, list, nextHash, chains, newList, newChains, left, i);
        while h != None
          invariant k <= |chains[i]| && h == LinkTo(chains[i], k)
          invariant Moving(ids, table, list, nextHash, chains, newList, newChains, left, i, k)
          invariant |newList| == |newChains| == newLength
          modifies this`nextHash
          decreases |chains[i]| - k
        {
          MoveOne(ids, table, list, nextHash, chains, newList, newChains, left, i, k);
          var next := nextHash[h.value];
          var ptr := ids[h.value].hash % newLength;
          nextHash := nextHash[h.value := newList[ptr]];
          newList := newList[ptr := h];
          newChains := newChains[ptr := [h.value] + newChains[ptr]];
          left := left - {h.value};
          h := next;
          k := k + 1;
        }
        NextBucket(ids, table, list, nextHash, chains, newList, newChains, left, i);
        i := i + 1;
      }
      AllMoved(ids, table, list, nextHash, chains, newList, newChains, left);
      list, length := newList, newLength;
      chains := newChains;
    }
  }

  lemma PlaceIsEntry(ids: map<nat, Id>, table: map<Id, nat>, chains: seq<seq<nat>>, id: Id, k: nat)
    requires |chains| > 0 && Complete(ids, table, chains) && ChainOk(ids, table, |chains|, id.hash % |chains|, chains[id.hash % |chains|])
    requires PlaceOf(ids, chains[id.hash % |chains|], id, k)
    ensures LinkTo(chains[id.hash % |chains|], k) == if id in table then Some(table[id]) else None
  {
    var chain := chains[id.hash % |chains|];
    if id in table {
      var j :| 0 <= j < |chain| && chain[j] == table[id];
    }
  }

  lemma NothingThere(table: map<Id, nat>, id: Id)
    requires id !in table
    ensures table - {id} == table
  {
  }

  // ---------------------------------------------------------------- changing one chain

  /** The new entry at the end of the chain, or in the place of the old one. */
  function WithEntry(chain: seq<nat>, k: nat, h: nat): seq<nat>
    requires k <= |chain|
  {
    if k == |chain| then chain + [h] else chain[k := h]
  }

  lemma NextThere(ids: map<nat, Id>, table: map<Id, nat>, list: seq<Option<nat>>, nextHash: map<nat, Option<nat>>, chains: seq<seq<nat>>,
                  b: nat, k: nat)
    requires Buckets(ids, table, list, nextHash, chains) && b < |list|
    ensures k < |chains[b]| ==> chains[b][k] in nextHash && nextHash[chains[b][k]] == LinkTo(chains[b], k + 1)
  {
    assert Follows(list[b], nextHash, chains[b]);
  }

  /** Write, as it changes list and links. */
  function ListAfter(list: seq<Option<nat>>, slot: Slot, link: Option<nat>): seq<Option<nat>>
    requires slot.InBucket? ==> slot.bucket < |list|
  {
    if slot.InBucket? then list[slot.bucket := link] else list
  }

  function NextAfter(nextHash: map<nat, Option<nat>>, slot: Slot, link: Option<nat>): map<nat, Option<nat>> {
    if slot.NextOf? then nextHash[slot.handle := link] else nextHash
  }

  /** Only one bucket changes; no handle of another one is touched. */
  lemma OneBucket(ids: map<nat, Id>, table: map<Id, nat>, list: seq<Option<nat>>, nextHash: map<nat, Option<nat>>, chains: seq<seq<nat>>,
                  table2: map<Id, nat>, list2: seq<Option<nat>>, next2: map<nat, Option<nat>>, b: nat, chain2: seq<nat>)
    requires Buckets(ids, table, list, nextHash, chains) && b < |list| == |list2|
    requires forall i :: 0 <= i < |list| && i != b ==> list2[i] == list[i]
    requires forall x :: x in nextHash && x in ids && ids[x].hash % |list| != b && ids[x] in table && table[ids[x]] == x
                         ==> x in next2 && next2[x] == nextHash[x]
    requires forall id :: id in table && id.hash % |list| != b ==> id in table2 && table2[id] == table[id]
    requires Follows(list2[b], next2, chain2) && ChainOk(ids, table2, |list|, b, chain2)
    ensures Buckets(ids, table2, list2, next2, chains[b := chain2])
  {
    forall i | 0 <= i < |list| ensures Follows(list2[i], next2, chains[b := chain2][i]) && ChainOk(ids, table2, |list|, i, chains[b := chain2][i]) {
      if i != b {
        assert Follows(list[i], nextHash, chains[i]) && ChainOk(ids, table, |list|, i, chains[i]);
      }
    }
  }

  lemma InsertKeeps(ids: map<nat, Id>, table: map<Id, nat>, list: seq<Option<nat>>, nextHash: map<nat, Option<nat>>, chains: seq<seq<nat>>,
                    h: nat, k: nat)
    requires Buckets(ids, table, list, nextHash, chains) && Complete(ids, table, chains) && h in ids && h !in table.Values
    requires PlaceOf(ids, chains[ids[h].hash % |chains|], ids[h], k)
    ensures var b, c := ids[h].hash % |list|, chains[ids[h].hash % |chains|];
            var slot, next2, table2 := SlotAt(b, c, k), nextHash[h := LinkTo(c, k + 1)], table[ids[h] := h];
            && Buckets(ids, table2, ListAfter(list, slot, Some(h)), NextAfter(next2, slot, Some(h)), chains[b := WithEntry(c, k, h)])
            && Complete(ids, table2, chains[b := WithEntry(c, k, h)])
            && |table2| == |table| + if k == |c| then 1 else 0
  {
    hide Buckets, Follows, ChainOk, Complete, PlaceOf, NoRepeats;
    SameCount(ids, table, list, nextHash, chains);
    var id, b := ids[h], ids[h].hash % |list|;
    BucketAt(ids, table, list, nextHash, chains, b);
    var c := chains[b];
    PlaceWithin(ids, c, id, k);
    Untaken(table, h);
    ChainFacts(ids, table, |list|, b, c, h, k);
    var slot, table2 := SlotAt(b, c, k), table[id := h];
    var list2, next2 := ListAfter(list, slot, Some(h)), NextAfter(nextHash[h := LinkTo(c, k + 1)], slot, Some(h));
    PlaceIsEntry(ids, table, chains, id, k);
    WithEntryFollows(list[b], nextHash, c, b, k, h, list2[b], next2);
    WithEntryOk(ids, table, |list|, c, k, h);
    OneBucket(ids, table, list, nextHash, chains, table2, list2, next2, b, WithEntry(c, k, h));
    WithEntryComplete(ids, table, chains, h, k);
    TableSize(table, id, h);
  }

  lemma BucketAt(ids: map<nat, Id>, table: map<Id, nat>, list: seq<Option<nat>>, nextHash: map<nat, Option<nat>>, chains: seq<seq<nat>>, b: nat)
    requires Buckets(ids, table, list, nextHash, chains) && b < |list|
    ensures |list| == |chains| && Follows(list[b], nextHash, chains[b]) && ChainOk(ids, table, |list|, b, chains[b])
  {
  }

  lemma PlaceWithin(ids: map<nat, Id>, chain: seq<nat>, id: Id, k: nat)
    requires PlaceOf(ids, chain, id, k)
    ensures k <= |chain|
  {
  }

  lemma ChainFacts(ids: map<nat, Id>, table: map<Id, nat>, length: nat, b: nat, c: seq<nat>, h: nat, k: nat)
    requires length > 0 && ChainOk(ids, table, length, b, c) && k <= |c|
    ensures NoRepeats(c) && (k > 0 ==> c[k - 1] in ids && ids[c[k - 1]].hash % length == b)
    ensures (forall id :: id in table ==> table[id] != h) ==> h !in c
  {
  }

  lemma Untaken(table: map<Id, nat>, h: nat)
    requires h !in table.Values
    ensures forall id :: id in table ==> table[id] != h
  {
  }

  lemma TableSize(table: map<Id, nat>, id: Id, h: nat)
    ensures |table[id := h]| == |table| + if id in table then 0 else 1
  {
    assert table[id := h].Keys == table.Keys + {id};
  }

  lemma WithEntryFollows(first: Option<nat>, nextHash: map<nat, Option<nat>>, c: seq<nat>, b: nat, k: nat, h: nat,
                         first2: Option<nat>, next2: map<nat, Option<nat>>)
    requires Follows(first, nextHash, c) && k <= |c| && h !in c && NoRepeats(c)
    requires first2 == if k == 0 then Some(h) else first
    requires next2 == NextAfter(nextHash[h := LinkTo(c, k + 1)], SlotAt(b, c, k), Some(h))
    ensures Follows(first2, next2, WithEntry(c, k, h))
  {
    var d := WithEntry(c, k, h);
    forall i | 0 <= i < |d| ensures d[i] in next2 && next2[d[i]] == LinkTo(d, i + 1) {
      if i < k {
        assert d[i] == c[i] != h;
      } else if i > k {
        assert d[i] == c[i] && (k > 0 ==> c[k - 1] != c[i]);
      }
    }
  }

  lemma WithEntryOk(ids: map<nat, Id>, table: map<Id, nat>, length: nat, c: seq<nat>, k: nat, h: nat)
    requires h in ids && length > 0 && ChainOk(ids, table, length, ids[h].hash % length, c) && PlaceOf(ids, c, ids[h], k) && h !in c
    ensures ChainOk(ids, table[ids[h] := h], length, ids[h].hash % length, WithEntry(c, k, h))
  {
    var d, id := WithEntry(c, k, h), ids[h];
    forall i | 0 <= i < |d| && i != k ensures d[i] == c[i] && ids[c[i]] != id {
      if i > k {
        assert table[ids[c[i]]] == c[i] && table[ids[c[k]]] == c[k] && c[i] != c[k];
      }
    }
  }

  lemma WithEntryComplete(ids: map<nat, Id>, table: map<Id, nat>, chains: seq<seq<nat>>, h: nat, k: nat)
    requires |chains| > 0 && Complete(ids, table, chains) && h in ids && PlaceOf(ids, chains[ids[h].hash % |chains|], ids[h], k)
    ensures var b := ids[h].hash % |chains|; Complete(ids, table[ids[h] := h], chains[b := WithEntry(chains[b], k, h)])
  {
    var b := ids[h].hash % |chains|;
    var c, d := chains[b], WithEntry(chains[b], k, h);
    assert d[k] == h;
    forall id | id in table && id != ids[h] ensures table[id] in chains[b := d][id.hash % |chains|] {
      if id.hash % |chains| == b {
        var j :| 0 <= j < |c| && c[j] == table[id];
        assert d[j] == table[id];
      }
    }
  }

  lemma RemoveKeeps(ids: map<nat, Id>, table: map<Id, nat>, list: seq<Option<nat>>, nextHash: map<nat, Option<nat>>, chains: seq<seq<nat>>,
                    id: Id, k: nat)
    requires Buckets(ids, table, list, nextHash, chains) && Complete(ids, table, chains) && id in table
    requires PlaceOf(ids, chains[id.hash % |chains|], id, k) && k < |chains[id.hash % |chains|]|
    ensures var b, c := id.hash % |list|, chains[id.hash % |chains|];
            var slot, link, d := SlotAt(b, c, k), LinkTo(c, k + 1), c[..k] + c[k + 1..];
            && Buckets(ids, table - {id}, ListAfter(list, slot, link), NextAfter(nextHash, slot, link), chains[b := d])
            && Complete(ids, table - {id}, chains[b := d])
            && |table - {id}| == |table| - 1
  {
    hide Buckets, Follows, ChainOk, Complete, PlaceOf, NoRepeats;
    SameCount(ids, table, list, nextHash, chains);
    var b := id.hash % |list|;
    BucketAt(ids, table, list, nextHash, chains, b);
    var c := chains[b];
    ChainFacts(ids, table, |list|, b, c, 0, k);
    var slot, link, d := SlotAt(b, c, k), LinkTo(c, k + 1), c[..k] + c[k + 1..];
    var list2, next2 := ListAfter(list, slot, link), NextAfter(nextHash, slot, link);
    FirstLink(list[b], nextHash, c);
    WithoutFollows(list[b], nextHash, c, b, k, list2[b], next2);
    WithoutOk(ids, table, |list|, c, k, id);
    OneBucket(ids, table, list, nextHash, chains, table - {id}, list2, next2, b, d);
    WithoutComplete(ids, table, chains, id, k);
    assert (table - {id}).Keys == table.Keys - {id};
  }

  lemma FirstLink(first: Option<nat>, nextHash: map<nat, Option<nat>>, c: seq<nat>)
    requires Follows(first, nextHash, c)
    ensures first == LinkTo(c, 0)
  {
  }

  lemma WithoutFollows(first: Option<nat>, nextHash: map<nat, Option<nat>>, c: seq<nat>, b: nat, k: nat,
                       first2: Option<nat>, next2: map<nat, Option<nat>>)
    requires Follows(first, nextHash, c) && k < |c| && NoRepeats(c)
    requires first2 == if k == 0 then LinkTo(c, 1) else first
    requires next2 == NextAfter(nextHash, SlotAt(b, c, k), LinkTo(c, k + 1))
    ensures Follows(first2, next2, c[..k] + c[k + 1..])
  {
    var d := c[..k] + c[k + 1..];
    forall i | 0 <= i < |d| ensures d[i] in next2 && next2[d[i]] == LinkTo(d, i + 1) {
      if i >= k {
        assert d[i] == c[i + 1] && (k > 0 ==> c[k - 1] != c[i + 1]);
      } else {
        assert d[i] == c[i];
      }
    }
  }

  lemma WithoutOk(ids: map<nat, Id>, table: map<Id, nat>, length: nat, c: seq<nat>, k: nat, id: Id)
    requires length > 0 && ChainOk(ids, table, length, id.hash % length, c) && PlaceOf(ids, c, id, k) && k < |c|
    ensures ChainOk(ids, table - {id}, length, id.hash % length, c[..k] + c[k + 1..])
  {
    var d := c[..k] + c[k + 1..];
    forall i | 0 <= i < |d| ensures d[i] == (if i < k then c[i] else c[i + 1]) && ids[d[i]] != id {
      if i >= k {
        assert table[ids[c[i + 1]]] == c[i + 1] && table[ids[c[k]]] == c[k] && c[i + 1] != c[k];
      }
    }
    forall i, j | 0 <= i < j < |d| ensures d[i] != d[j] {
      assert d[i] == (if i < k then c[i] else c[i + 1]) && d[j] == (if j < k then c[j] else c[j + 1]);
    }
  }

  lemma WithoutComplete(ids: map<nat, Id>, table: map<Id, nat>, chains: seq<seq<nat>>, id: Id, k: nat)
    requires |chains| > 0 && Complete(ids, table, chains) && PlaceOf(ids, chains[id.hash % |chains|], id, k)
    requires k < |chains[id.hash % |chains|]|
    ensures var b := id.hash % |chains|; Complete(ids, table - {id}, chains[b := chains[b][..k] + chains[b][k + 1..]])
  {
    var b := id.hash % |chains|;
    var c, d := chains[b], chains[b][..k] + chains[b][k + 1..];
    forall x | x in table && x != id ensures table[x] in chains[b := d][x.hash % |chains|] {
      if x.hash % |chains| == b {
        var j :| 0 <= j < |c| && c[j] == table[x];
        assert d[if j < k then j else j - 1] == table[x];
      }
    }
  }

  // ---------------------------------------------------------------- linking everything anew

  ghost predicate OldChains(ids: map<nat, Id>, table: map<Id, nat>, list: seq<Option<nat>>, chains: seq<seq<nat>>) {
    |list| == |chains| > 0 && forall j :: 0 <= j < |chains| ==> ChainOk(ids, table, |chains|, j, chains[j]) && list[j] == LinkTo(chains[j], 0)
  }

  /** From place `k` of chain `j` on, the old links still stand, and their handles are in `left`. */
  ghost predicate Unmoved(nextHash: map<nat, Option<nat>>, chain: seq<nat>, left: set<nat>, k: nat) {
    forall m :: k <= m < |chain| ==> chain[m] in left && chain[m] in nextHash && nextHash[chain[m]] == LinkTo(chain, m + 1)
  }

  /** Where a handle that is still to be moved can be. */
  ghost predicate Waits(ids: map<nat, Id>, table: map<Id, nat>, chains: seq<seq<nat>>, newChains: seq<seq<nat>>, i: nat, k: nat, x: nat)
    requires |chains| > 0 && |newChains| > 0
  {
    && x in ids && ids[x] in table && table[ids[x]] == x && x !in newChains[ids[x].hash % |newChains|]
    && var j := ids[x].hash % |chains|;
       j >= i && exists m :: (if j == i then k else 0) <= m < |chains[j]| && chains[j][m] == x
  }

  ghost predicate Somewhere(ids: map<nat, Id>, newChains: seq<seq<nat>>, left: set<nat>, id: Id, x: nat)
    requires |newChains| > 0
  {
    x in ids && ids[x] == id && (x in left || x in newChains[id.hash % |newChains|])
  }

  /** The handles in `left` are still on the old chains: from place `k` of bucket `i` on. */
  ghost predicate Moving(ids: map<nat, Id>, table: map<Id, nat>, list: seq<Option<nat>>, nextHash: map<nat, Option<nat>>, chains: seq<seq<nat>>,
                         newList: seq<Option<nat>>, newChains: seq<seq<nat>>, left: set<nat>, i: nat, k: nat)
  {
    && Buckets(ids, table, newList, nextHash, newChains) && OldChains(ids, table, list, chains)
    && (i < |chains| ==> Unmoved(nextHash, chains[i], left, k))
    && (forall j :: i < j < |chains| ==> Unmoved(nextHash, chains[j], left, 0))
    && (forall x :: x in left ==> Waits(ids, table, chains, newChains, i, k, x))
    && (forall id :: id in table ==> Somewhere(ids, newChains, left, id, table[id]))
  }

  lemma StartMoving(ids: map<nat, Id>, table: map<Id, nat>, list: seq<Option<nat>>, nextHash: map<nat, Option<nat>>, chains: seq<seq<nat>>,
                    newList: seq<Option<nat>>, newChains: seq<seq<nat>>)
    requires Buckets(ids, table, list, nextHash, chains) && Complete(ids, table, chains) && |newList| == |newChains| > 0
    requires forall b :: 0 <= b < |newList| ==> newList[b] == None && newChains[b] == []
    ensures Moving(ids, table, list, nextHash, chains, newList, newChains, table.Values, 0, 0)
  {
    hide Buckets, ChainOk, Complete, Waits, Somewhere, Follows, Unmoved;
    SameCount(ids, table, list, nextHash, chains);
    forall j | 0 <= j < |chains|
      ensures ChainOk(ids, table, |chains|, j, chains[j]) && list[j] == LinkTo(chains[j], 0) && Unmoved(nextHash, chains[j], table.Values, 0)
    {
      BucketAt(ids, table, list, nextHash, chains, j);
      FirstLink(list[j], nextHash, chains[j]);
      AllUnmoved(ids, table, |chains|, j, list[j], nextHash, chains[j]);
    }
    NoChains(ids, table, newList, nextHash, newChains);
    forall x | x in table.Values ensures Waits(ids, table, chains, newChains, 0, 0, x) {
      AllWait(ids, table, chains, newChains, x);
    }
    forall id | id in table ensures Somewhere(ids, newChains, table.Values, id, table[id]) {
      AllSomewhere(ids, table, chains, newChains, id);
    }
  }

  lemma AllUnmoved(ids: map<nat, Id>, table: map<Id, nat>, length: nat, j: nat, first: Option<nat>, nextHash: map<nat, Option<nat>>, chain: seq<nat>)
    requires length > 0 && Follows(first, nextHash, chain) && ChainOk(ids, table, length, j, chain)
    ensures Unmoved(nextHash, chain, table.Values, 0)
  {
  }

  lemma AllWait(ids: map<nat, Id>, table: map<Id, nat>, chains: seq<seq<nat>>, newChains: seq<seq<nat>>, x: nat)
    requires |chains| > 0 && |newChains| > 0 && Complete(ids, table, chains) && x in table.Values
    requires forall b :: 0 <= b < |newChains| ==> newChains[b] == []
    ensures Waits(ids, table, chains, newChains, 0, 0, x)
  {
    var id :| id in table && table[id] == x;
    var j := id.hash % |chains|;
    var m :| 0 <= m < |chains[j]| && chains[j][m] == x;
  }

  lemma AllSomewhere(ids: map<nat, Id>, table: map<Id, nat>, chains: seq<seq<nat>>, newChains: seq<seq<nat>>, id: Id)
    requires |chains| > 0 && |newChains| > 0 && Complete(ids, table, chains) && id in table
    ensures Somewhere(ids, newChains, table.Values, id, table[id])
  {
  }

  lemma NoChains(ids: map<nat, Id>, table: map<Id, nat>, list: seq<Option<nat>>, nextHash: map<nat, Option<nat>>, chains: seq<seq<nat>>)
    requires |list| == |chains| > 0 && forall b :: 0 <= b < |list| ==> list[b] == None && chains[b] == []
    ensures Buckets(ids, table, list, nextHash, chains)
  {
  }

  lemma FirstOfChain(ids: map<nat, Id>, table: map<Id, nat>, list: seq<Option<nat>>, nextHash: map<nat, Option<nat>>, chains: seq<seq<nat>>,
                     newList: seq<Option<nat>>, newChains: seq<seq<nat>>, left: set<nat>, i: nat)
    requires Moving(ids, table, list, nextHash, chains, newList, newChains, left, i, 0) && i < |list|
    ensures list[i] == LinkTo(chains[i], 0)
  {
  }

  lemma MoveOne(ids: map<nat, Id>, table: map<Id, nat>, list: seq<Option<nat>>, nextHash: map<nat, Option<nat>>, chains: seq<seq<nat>>,
                newList: seq<Option<nat>>, newChains: seq<seq<nat>>, left: set<nat>, i: nat, k: nat)
    requires Moving(ids, table, list, nextHash, chains, newList, newChains, left, i, k) && i < |chains| && k < |chains[i]|
    ensures var h := chains[i][k];
            && h in ids && h in nextHash && nextHash[h] == LinkTo(chains[i], k + 1) && |newList| == |newChains| > 0
            && var b := ids[h].hash % |newList|;
               Moving(ids, table, list, nextHash[h := newList[b]], chains, newList[b := Some(h)], newChains[b := [h] + newChains[b]], left - {h}, i, k + 1)
  {
    hide Buckets, OldChains, Waits, Somewhere, Follows, ChainOk;
    SameCount(ids, table, newList, nextHash, newChains);
    var h := chains[i][k];
    OldChainAt(ids, table, list, chains, i);
    assert Unmoved(nextHash, chains[i], left, k);
    assert Waits(ids, table, chains, newChains, i, k, h);
    WaitsWhere(ids, table, chains, newChains, i, k, h);
    HashThere(ids, table, |chains|, chains[i], i, k);
    var b := ids[h].hash % |newList|;
    var next2, newChains2 := nextHash[h := newList[b]], newChains[b := [h] + newChains[b]];
    BucketAt(ids, table, newList, nextHash, newChains, b);
    PushFront(ids, table, |newList|, b, newList[b], nextHash, newChains[b], h);
    OneBucket(ids, table, newList, nextHash, newChains, table, newList[b := Some(h)], next2, b, newChains2[b]);
    assert Unmoved(next2, chains[i], left - {h}, k + 1) by { StillUnmoved(ids, table, |chains|, nextHash, chains[i], left, i, k, h, newList[b]); }
    forall j | i < j < |chains| ensures Unmoved(next2, chains[j], left - {h}, 0) {
      OldChainAt(ids, table, list, chains, j);
      assert Unmoved(nextHash, chains[j], left, 0);
      OtherUnmoved(ids, table, |chains|, nextHash, chains[j], left, j, h, newList[b]);
    }
    forall x | x in left - {h} ensures Waits(ids, table, chains, newChains2, i, k + 1, x) {
      StillWaits(ids, table, chains, newChains, i, k, x);
    }
    forall id | id in table ensures Somewhere(ids, newChains2, left - {h}, id, table[id]) {
      StillSomewhere(ids, newChains, left, id, table[id], h);
    }
  }

  lemma OldChainAt(ids: map<nat, Id>, table: map<Id, nat>, list: seq<Option<nat>>, chains: seq<seq<nat>>, j: nat)
    requires OldChains(ids, table, list, chains) && j < |chains|
    ensures |list| == |chains| > 0 && ChainOk(ids, table, |chains|, j, chains[j]) && list[j] == LinkTo(chains[j], 0)
  {
    hide ChainOk;
  }

  lemma HashThere(ids: map<nat, Id>, table: map<Id, nat>, length: nat, chain: seq<nat>, i: nat, k: nat)
    requires length > 0 && ChainOk(ids, table, length, i, chain) && k < |chain|
    ensures chain[k] in ids && ids[chain[k]].hash % length == i
  {
  }

  lemma WaitsWhere(ids: map<nat, Id>, table: map<Id, nat>, chains: seq<seq<nat>>, newChains: seq<seq<nat>>, i: nat, k: nat, x: nat)
    requires |chains| > 0 && |newChains| > 0 && Waits(ids, table, chains, newChains, i, k, x)
    ensures x in ids && ids[x] in table && table[ids[x]] == x && x !in newChains[ids[x].hash % |newChains|]
  {
  }

  lemma SameCount(ids: map<nat, Id>, table: map<Id, nat>, list: seq<Option<nat>>, nextHash: map<nat, Option<nat>>, chains: seq<seq<nat>>)
    requires Buckets(ids, table, list, nextHash, chains)
    ensures |list| == |chains| > 0
  {
  }

  lemma PushFront(ids: map<nat, Id>, table: map<Id, nat>, length: nat, b: nat, first: Option<nat>, nextHash: map<nat, Option<nat>>, c: seq<nat>, h: nat)
    requires length > 0 && Follows(first, nextHash, c) && ChainOk(ids, table, length, b, c)
    requires h in ids && ids[h].hash % length == b && ids[h] in table && table[ids[h]] == h && h !in c
    ensures Follows(Some(h), nextHash[h := first], [h] + c) && ChainOk(ids, table, length, b, [h] + c)
  {
    var d, next2 := [h] + c, nextHash[h := first];
    assert forall i :: 0 <= i < |c| ==> d[i + 1] == c[i];
    forall i | 0 <= i < |d| ensures d[i] in next2 && next2[d[i]] == LinkTo(d, i + 1) {
      if i > 0 {
        assert d[i] == c[i - 1];
      }
    }
  }

  lemma StillUnmoved(ids: map<nat, Id>, table: map<Id, nat>, length: nat, nextHash: map<nat, Option<nat>>, chain: seq<nat>, left: set<nat>,
                     i: nat, k: nat, h: nat, link: Option<nat>)
    requires length > 0 && ChainOk(ids, table, length, i, chain) && Unmoved(nextHash, chain, left, k) && k < |chain| && h == chain[k]
    ensures Unmoved(nextHash[h := link], chain, left - {h}, k + 1)
  {
  }

  lemma OtherUnmoved(ids: map<nat, Id>, table: map<Id, nat>, length: nat, nextHash: map<nat, Option<nat>>, chain: seq<nat>, left: set<nat>,
                     j: nat, h: nat, link: Option<nat>)
    requires length > 0 && ChainOk(ids, table, length, j, chain) && Unmoved(nextHash, chain, left, 0) && h in ids && ids[h].hash % length != j
    ensures Unmoved(nextHash[h := link], chain, left - {h}, 0)
  {
  }

  lemma StillWaits(ids: map<nat, Id>, table: map<Id, nat>, chains: seq<seq<nat>>, newChains: seq<seq<nat>>, i: nat, k: nat, x: nat)
    requires i < |chains| && |newChains| > 0 && Waits(ids, table, chains, newChains, i, k, x) && k < |chains[i]| && x != chains[i][k]
    requires chains[i][k] in ids
    ensures var h := chains[i][k]; var b := ids[h].hash % |newChains|;
            Waits(ids, table, chains, newChains[b := [h] + newChains[b]], i, k + 1, x)
  {
  }

  lemma StillSomewhere(ids: map<nat, Id>, newChains: seq<seq<nat>>, left: set<nat>, id: Id, x: nat, h: nat)
    requires |newChains| > 0 && Somewhere(ids, newChains, left, id, x) && h in ids
    ensures var b := ids[h].hash % |newChains|; Somewhere(ids, newChains[b := [h] + newChains[b]], left - {h}, id, x)
  {
    if x == h {
      assert ([h] + newChains[id.hash % |newChains|])[0] == h;
    }
  }

  lemma NextBucket(ids: map<nat, Id>, table: map<Id, nat>, list: seq<Option<nat>>, nextHash: map<nat, Option<nat>>, chains: seq<seq<nat>>,
                   newList: seq<Option<nat>>, newChains: seq<seq<nat>>, left: set<nat>, i: nat)
    requires i < |chains| && Moving(ids, table, list, nextHash, chains, newList, newChains, left, i, |chains[i]|)
    ensures Moving(ids, table, list, nextHash, chains, newList, newChains, left, i + 1, 0)
  {
    hide Buckets, Unmoved, Somewhere, OldChains;
    SameCount(ids, table, newList, nextHash, newChains);
    forall x | x in left ensures Waits(ids, table, chains, newChains, i + 1, 0, x) {
      assert Waits(ids, table, chains, newChains, i, |chains[i]|, x);
    }
  }

  lemma AllMoved(ids: map<nat, Id>, table: map<Id, nat>, list: seq<Option<nat>>, nextHash: map<nat, Option<nat>>, chains: seq<seq<nat>>,
                 newList: seq<Option<nat>>, newChains: seq<seq<nat>>, left: set<nat>)
    requires Moving(ids, table, list, nextHash, chains, newList, newChains, left, |chains|, 0)
    ensures Buckets(ids, table, newList, nextHash, newChains) && Complete(ids, table, newChains)
  {
    hide Unmoved, ChainOk;
  }

  /** A new handle, in no chain yet, changes nothing. */
  lemma MoreIds(t: HandleTable, ids: map<nat, Id>, h: nat, id: Id)
    requires t.Valid(ids) && h !in ids
    ensures t.Valid(ids[h := id])
  {
    forall i | 0 <= i < |t.list| ensures ChainOk(ids[h := id], t.table, |t.list|, i, t.chains[i]) {
      assert ChainOk(ids, t.table, |t.list|, i, t.chains[i]);
    }
  }
}
