/** The iterator over the bytes of a table: one over the index, and one over the data block that it leads
    to (table/two_level_iterator.cc, NewIterator and BlockReader of table/table.cc). */
module TableIterators {
  import opened Bytes
  import opened Coding
  import opened DbFormat
  import opened BlockFormat
  import opened Blocks
  import opened InternalKeys
  import opened TableFormat
  import opened TableLayouts
  import opened TableSearch
  import opened Tables

  // ---------------------------------------------------------------- the index leads to a place

  /** Where a key leads by way of the index is where it belongs among all entries. */
  lemma PlaceOfKey(index: seq<KV>, blocks: seq<Written>, k: seq<Byte>)
    requires Whole(index, blocks) && |k| >= 8
    ensures |index| == |blocks|
    ensures var b := FirstFrom(index, k, KeyLess);
            FirstFrom(AllEntries(blocks), k, KeyLess)
            == if b == |blocks| then |AllEntries(blocks)| else TableSearch.StartOf(blocks, b) + FirstFrom(blocks[b].layout.entries, k, KeyLess)
  {
    hide KeyLess, AllEntries, Whole, TableSearch.StartOf;
    WholeCount(index, blocks);
    AllOfThem(blocks);
    var all, b := AllEntries(blocks), FirstFrom(index, k, KeyLess);
    FirstFromMeans(index, k, KeyLess);
    if b == |blocks| {
      forall m | 0 <= m < |all| ensures KeyLess(all[m].key, k) {
        BlocksBefore(index, blocks, k, b, m);
      }
      FirstFromIs(all, k, KeyLess, |all|);
    } else {
      var es := blocks[b].layout.entries;
      var j := FirstFrom(es, k, KeyLess);
      FirstFromMeans(es, k, KeyLess);
      EntriesIn(blocks, b);
      if j < |es| {
        InBlock(index, blocks, k, b);
      } else {
        BehindBlock(index, blocks, k, b);
      }
    }
  }

  /** A key that the index leads to block `b`, but that is behind its entries, belongs behind the block. */
  lemma BehindBlock(index: seq<KV>, blocks: seq<Written>, k: seq<Byte>, b: nat)
    requires Whole(index, blocks) && b < |blocks| && |index| == |blocks|
    requires !KeyLess(index[b].key, k) && (b > 0 ==> KeyLess(index[b - 1].key, k))
    requires FirstFrom(blocks[b].layout.entries, k, KeyLess) == |blocks[b].layout.entries|
    ensures FirstFrom(AllEntries(blocks), k, KeyLess) == TableSearch.StartOf(blocks, b) + |blocks[b].layout.entries|
  {
    hide KeyLess, AllEntries, Whole, TableSearch.StartOf;
    var all, es := AllEntries(blocks), blocks[b].layout.entries;
    FirstFromMeans(es, k, KeyLess);
    EntriesIn(blocks, b);
    var n := TableSearch.StartOf(blocks, b) + |es|;
    forall m | 0 <= m < n ensures KeyLess(all[m].key, k) {
      if m < TableSearch.StartOf(blocks, b) {
        BlocksBefore(index, blocks, k, b, m);
      } else {
        EntryIn(blocks, b, m - TableSearch.StartOf(blocks, b));
      }
    }
    if b + 1 < |blocks| {
      IndexKey(index, blocks, b);
      NotEmpty(index, blocks, b + 1);
      EntryIn(blocks, b + 1, 0);
      if KeyLess(FirstKey(blocks[b + 1]), k) {
        KeyLessIsTransitive(index[b].key, FirstKey(blocks[b + 1]), k);
      }
    } else {
      AllOfThem(blocks);
    }
    FirstFromIs(all, k, KeyLess, n);
  }

  lemma NotEmpty(index: seq<KV>, blocks: seq<Written>, b: nat)
    requires Whole(index, blocks) && b < |blocks|
    ensures blocks[b].layout.entries != []
  {
  }

  // ---------------------------------------------------------------- one handle, one block

  lemma {:induction false} VarintsApart(a: nat, b: nat, x: seq<Byte>, y: seq<Byte>)
    requires Varint(a) + x == Varint(b) + y
    ensures a == b
  {
    hide ToByte, FromByte;
    assert (Varint(a) + x)[0] == (Varint(b) + y)[0];
    assert FromByte(Varint(a)[0]) == FromByte(Varint(b)[0]);
    if a >= 128 && b >= 128 {
      assert Varint(a / 128) + x == (Varint(a) + x)[1..];
      assert Varint(b / 128) + y == (Varint(b) + y)[1..];
      VarintsApart(a / 128, b / 128, x, y);
    }
  }

  lemma SameHandle(blocks: seq<Written>, file: seq<Byte>, a: nat, b: nat)
    requires AllWritten(file, blocks) && a < |blocks| && b < |blocks|
    requires HandleBytes(blocks[a].handle) == HandleBytes(blocks[b].handle)
    ensures a == b
  {
    hide Varint, IsWritten;
    VarintsApart(blocks[a].handle.offset, blocks[b].handle.offset, Varint(blocks[a].handle.size), Varint(blocks[b].handle.size));
  }

  // ---------------------------------------------------------------- the iterator

  lemma IndexParts(table: Table, t: TableLayout)
    requires table.Reads(t)
    ensures TableImage(table.file, table.policy, table.filterKey, t) && AllWritten(table.file, t.blocks)
    ensures Image(t.index.contents, t.index.layout) && Shaped(t.index.layout) && |t.index.layout.entries| == |t.blocks|
    ensures Whole(t.index.layout.entries, t.blocks) && IsOrder(KeyLess) && InOrder(t.index.layout.entries, KeyLess)
    ensures table.indexContents == t.index.contents
  {
    hide AllEntries, FilterWritten, FooterWritten, BlockAt, Indexed, Ordered, Whole, FilterBlocks.FilterBlockReader.Reads, KeyLess, InOrder, IsOrder;
    TableIsWhole(table.file, table.policy, table.filterKey, t);
    IndexInOrder(t.index.layout.entries, t.blocks);
    KeyLessIsOrder();
    ImageIsShaped(t.index.contents, t.index.layout);
  }

  lemma DataParts(table: Table, t: TableLayout, b: nat)
    requires table.Reads(t) && b < |t.blocks|
    ensures var w := t.blocks[b];
            && BlockAt(table.file, w.handle, w.contents) && Image(w.contents, w.layout) && Shaped(w.layout) && w.layout.entries != []
            && w.handle.offset < TWO_64 && w.handle.size < TWO_64 && InOrder(w.layout.entries, KeyLess) && IsOrder(KeyLess)
            && |t.index.layout.entries| == |t.blocks| && t.index.layout.entries[b].value == HandleBytes(w.handle)
  {
    hide AllEntries, FilterWritten, FooterWritten, BlockAt, Indexed, Ordered, Whole, FilterBlocks.FilterBlockReader.Reads, KeyLess, InOrder, IsOrder,
         HandleBytes, Image, TableImage;
    IndexParts(table, t);
    BlockLeads(table.file, table.policy, table.filterKey, t, b);
    ImageIsShaped(t.blocks[b].contents, t.blocks[b].layout);
    NotEmpty(t.index.layout.entries, t.blocks, b);
  }

  /** Table::BlockReader: an iterator over the block that an index entry names; None stands for the
      iterator that only has an error. */
  method BlockReader(table: Table, value: seq<Byte>, verifyChecksums: bool, ghost t: TableLayout, ghost b: nat) returns (r: Option<Iter>)
    ensures r.Some? ==> fresh(r.value) && r.value.Ok() && r.value.current == r.value.restarts && r.value.less == KeyLess
    ensures table.Reads(t) && b < |t.blocks| && value == HandleBytes(t.blocks[b].handle) ==>
              r.Some? && r.value.Reads(t.blocks[b].layout) && !r.value.corrupt
  {
    hide Table.Reads, HandleBytes, HandleAt, BlockAt, Image, Shaped, IsOrder, InOrder, KeyLess, Iter.Reads;
    ghost var good := table.Reads(t) && b < |t.blocks| && value == HandleBytes(t.blocks[b].handle);
    ghost var w := if good then t.blocks[b] else Written(BlockHandle(0, 0), [], t.index.layout);
    if good {
      DataParts(table, t, b);
      WholeHandle(value, w.handle);
    }
    r := None;
    var handle := DecodeHandle(value, 0, w.handle);
    if handle.Some? {
      var contents := ReadBlock(table.file, verifyChecksums, handle.value.handle, w.contents);
      if contents.Some? {
        var data := NewIterator(contents.value, KeyLess, w.layout);
        if data.Entries? {
          r := Some(data.iter);
        }
      }
    }
  }

  /** The iterator `iter` is at entry `i` of a block. */
  ghost predicate StandsIn(iter: Iter, l: Layout, i: nat)
    reads iter
  {
    iter.Ok() && iter.less == KeyLess && iter.Reads(l) && Shaped(l) && i <= |l.entries| && iter.At(l, i) && !iter.corrupt
  }

  lemma StandsValid(iter: Iter, l: Layout, i: nat)
    requires StandsIn(iter, l, i)
    ensures iter.Ok() && i <= |l.entries| && (iter.Valid() <==> i < |l.entries|)
  {
    hide Image, Shaped;
    PlaceIs(iter, l, i);
  }

  /** Over a table that was built whole and has not been damaged. */
  class TableIterator {
    const table: Table
    const verifyChecksums: bool
    const indexIter: Iter
    var dataIter: Iter?
    var dataHandle: seq<Byte>
    ghost const t: TableLayout
    ghost var block: nat  // the place of indexIter
    ghost var entry: nat  // the place of dataIter in its block

    ghost predicate DataAt(b: nat, i: nat)
      reads this, dataIter
    {
      && dataIter != null && dataIter != indexIter && b < |t.blocks| && dataHandle == HandleBytes(t.blocks[b].handle)
      && StandsIn(dataIter, t.blocks[b].layout, i)
    }

    ghost predicate IndexOk()
      reads this, indexIter
    {
      table.Reads(t) && block <= |t.blocks| == |t.index.layout.entries| && StandsIn(indexIter, t.index.layout, block)
    }

    ghost predicate Linked()
      reads this, indexIter, dataIter
    {
      IndexOk() && (dataIter != null ==> DataAt(block, entry))
    }

    ghost predicate Ok()
      reads this, indexIter, dataIter
    {
      Linked() && (dataIter != null ==> entry < |t.blocks[block].layout.entries|)
    }

    predicate Valid()
      reads this, dataIter
    {
      dataIter != null && dataIter.Valid()
    }

    /** The place among all entries; their number stands for "not valid". */
    ghost function Place(): nat
      reads this
      requires dataIter != null ==> block < |t.blocks|
    {
      if dataIter == null then |AllEntries(t.blocks)| else TableSearch.StartOf(t.blocks, block) + entry
    }

    constructor (table: Table, verifyChecksums: bool, indexIter: Iter, ghost t: TableLayout)
      requires table.Reads(t) && StandsIn(indexIter, t.index.layout, |t.blocks|)
      ensures Ok() && this.table == table && this.indexIter == indexIter && this.t == t && dataIter == null
      ensures Place() == |AllEntries(t.blocks)|
    {
      hide Table.Reads, Image, Shaped, StandsIn, TableImage, AllWritten, Whole, IsOrder, InOrder, AllEntries, HandleBytes;
      IndexParts(table, t);
      this.table, this.verifyChecksums, this.indexIter, this.t := table, verifyChecksums, indexIter, t;
      dataIter, dataHandle, block, entry := null, [], |t.blocks|, 0;
    }

    /** Makes the data iterator run over the block that the index is at. */
    method InitDataBlock(ghost b: nat, ghost i: nat)
      requires IndexOk() && (dataIter != null ==> DataAt(b, i))
      modifies this`dataIter, this`dataHandle, this`entry
      ensures Linked() && (dataIter == null <==> block == |t.blocks|)
      ensures dataIter == null || dataIter == old(dataIter) || fresh(dataIter)
    {
      hide Table.Reads, HandleBytes, Image, Shaped, IsOrder, InOrder, KeyLess, Iter.Reads, Iter.At, BlockAt, TableImage, AllWritten, Whole;
      IndexParts(table, t);
      StandsValid(indexIter, t.index.layout, block);
      if !indexIter.Valid() {
        dataIter := null;
      } else {
        DataParts(table, t, block);
        var current := Current(indexIter, t.index.layout, block);
        assert current == t.index.layout.entries[block] by { StandsParts(indexIter, t.index.layout, block); }
        if dataIter != null && current.value == dataHandle {
          // the data iterator already runs over this block
          SameHandle(t.blocks, table.file, b, block);
          entry := i;
        } else {
          var iter := BlockReader(table, current.value, verifyChecksums, t, block);
          dataIter, dataHandle := if iter.Some? then iter.value else null, current.value;
          entry := |t.blocks[block].layout.entries|;
          FreshStands(dataIter, t.blocks[block].layout);
        }
      }
    }

    /** Comes to rest at the first entry from the place on. */
    method SkipEmptyDataBlocksForward()
      requires Linked() && (dataIter == null ==> block == |t.blocks|)
      modifies this, indexIter, dataIter
      ensures Ok() && Place() == old(Place())
      ensures dataIter == null || dataIter == old(dataIter) || fresh(dataIter)
    {
      hide Table.Reads, HandleBytes, Image, Shaped, IsOrder, InOrder, KeyLess, Iter.Reads, Iter.At, TableImage, AllWritten, Whole, AllEntries, StandsIn;
      IndexParts(table, t);
      AllOfThem(t.blocks);
      while true
        invariant Linked() && (dataIter == null ==> block == |t.blocks|) && Place() == old(Place())
        invariant dataIter == null || dataIter == old(dataIter) || fresh(dataIter)
        decreases |t.blocks| - block, dataIter != null
      {
        if dataIter != null {
          StandsValid(dataIter, t.blocks[block].layout, entry);
          if dataIter.Valid() {
            return;
          }
          EntriesIn(t.blocks, block);
        }
        StandsValid(indexIter, t.index.layout, block);
        if !indexIter.Valid() {
          dataIter := null;
          return;
        }
        NextStands(indexIter, t.index.layout, block);
        ghost var b, i := block, entry;
        block := block + 1;
        InitDataBlock(b, i);
        if dataIter != null {
          FirstStands(dataIter, t.blocks[block].layout, entry);
          entry := 0;
        }
      }
    }

    /** Comes to rest at the last entry before `end`. */
    method SkipEmptyDataBlocksBackward(ghost end: nat)
      requires Linked() && (dataIter == null ==> block == |t.blocks| && end == 0)
      requires dataIter != null ==>
                 end == TableSearch.StartOf(t.blocks, block) + if entry < |t.blocks[block].layout.entries| then entry + 1 else 0
      modifies this, indexIter, dataIter
      ensures Ok() && Place() == if end == 0 then |AllEntries(t.blocks)| else end - 1
      ensures dataIter == null || dataIter == old(dataIter) || fresh(dataIter)
    {
      hide Table.Reads, HandleBytes, Image, Shaped, IsOrder, InOrder, KeyLess, Iter.Reads, Iter.At, TableImage, AllWritten, Whole, AllEntries, StandsIn;
      IndexParts(table, t);
      AllOfThem(t.blocks);
      while true
        invariant Linked() && (dataIter == null ==> block == |t.blocks| && end == 0)
        invariant dataIter != null ==>
                    end == TableSearch.StartOf(t.blocks, block) + if entry < |t.blocks[block].layout.entries| then entry + 1 else 0
        invariant dataIter == null || dataIter == old(dataIter) || fresh(dataIter)
        decreases if block < |t.blocks| then block + 1 else 0, dataIter != null
      {
        if dataIter != null {
          StandsValid(dataIter, t.blocks[block].layout, entry);
          if dataIter.Valid() {
            return;
          }
        }
        StandsValid(indexIter, t.index.layout, block);
        if !indexIter.Valid() {
          dataIter := null;
          return;
        }
        PrevStands(indexIter, t.index.layout, block);
        ghost var b, i := block, entry;
        if block > 0 {
          EntriesIn(t.blocks, block - 1);
        }
        block := if block == 0 then |t.blocks| else block - 1;
        InitDataBlock(b, i);
        if dataIter != null {
          entry := LastStands(dataIter, t.blocks[block].layout, entry);
        }
      }
    }

    method SeekToFirst()
      requires Ok()
      modifies this, indexIter, dataIter
      ensures Ok() && Place() == 0
      ensures dataIter == null || dataIter == old(dataIter) || fresh(dataIter)
    {
      hide Table.Reads, HandleBytes, Image, Shaped, IsOrder, InOrder, KeyLess, Iter.Reads, Iter.At, TableImage, AllWritten, Whole, AllEntries, StandsIn;
      AllOfThem(t.blocks);
      FirstStands(indexIter, t.index.layout, block);
      ghost var b, i := block, entry;
      block := 0;
      InitDataBlock(b, i);
      if dataIter != null {
        FirstStands(dataIter, t.blocks[block].layout, entry);
        entry := 0;
      }
      SkipEmptyDataBlocksForward();
    }

    method SeekToLast()
      requires Ok()
      modifies this, indexIter, dataIter
      ensures Ok() && Place() == if AllEntries(t.blocks) == [] then 0 else |AllEntries(t.blocks)| - 1
      ensures dataIter == null || dataIter == old(dataIter) || fresh(dataIter)
    {
      hide Table.Reads, HandleBytes, Image, Shaped, IsOrder, InOrder, KeyLess, Iter.Reads, Iter.At, TableImage, AllWritten, Whole, AllEntries, StandsIn;
      AllOfThem(t.blocks);
      ghost var b, i := block, entry;
      block := LastStands(indexIter, t.index.layout, block);
      InitDataBlock(b, i);
      if dataIter != null {
        entry := LastStands(dataIter, t.blocks[block].layout, entry);
        EntriesIn(t.blocks, block);
      }
      SkipEmptyDataBlocksBackward(|AllEntries(t.blocks)|);
    }

    /** Comes to the first entry at or behind the target. */
    method Seek(target: seq<Byte>)
      requires Ok() && |target| >= 8
      modifies this, indexIter, dataIter
      ensures Ok() && Place() == FirstFrom(AllEntries(t.blocks), target, KeyLess)
      ensures dataIter == null || dataIter == old(dataIter) || fresh(dataIter)
    {
      hide Table.Reads, HandleBytes, Image, Shaped, IsOrder, InOrder, KeyLess, Iter.Reads, Iter.At, TableImage, AllWritten, Whole, AllEntries, StandsIn,
           FirstFrom;
      IndexParts(table, t);
      PlaceOfKey(t.index.layout.entries, t.blocks, target);
      SeekStands(indexIter, target, t.index.layout, block);
      ghost var b, i := block, entry;
      block := FirstFrom(t.index.layout.entries, target, KeyLess);
      InitDataBlock(b, i);
      if dataIter != null {
        DataParts(table, t, block);
        SeekStands(dataIter, target, t.blocks[block].layout, entry);
        entry := FirstFrom(t.blocks[block].layout.entries, target, KeyLess);
      }
      SkipEmptyDataBlocksForward();
    }

    method Next()
      requires Ok() && Valid()
      modifies this, indexIter, dataIter
      ensures Ok() && Place() == old(Place()) + 1
      ensures dataIter == null || dataIter == old(dataIter) || fresh(dataIter)
    {
      hide Table.Reads, HandleBytes, Image, Shaped, IsOrder, InOrder, KeyLess, Iter.Reads, Iter.At, TableImage, AllWritten, Whole, AllEntries, StandsIn;
      NextStands(dataIter, t.blocks[block].layout, entry);
      entry := entry + 1;
      SkipEmptyDataBlocksForward();
    }

    method Prev()
      requires Ok() && Valid()
      modifies this, indexIter, dataIter
      ensures Ok() && Place() == if old(Place()) == 0 then |AllEntries(t.blocks)| else old(Place()) - 1
      ensures dataIter == null || dataIter == old(dataIter) || fresh(dataIter)
    {
      hide Table.Reads, HandleBytes, Image, Shaped, IsOrder, InOrder, KeyLess, Iter.Reads, Iter.At, TableImage, AllWritten, Whole, AllEntries, StandsIn;
      ghost var end := Place();
      PrevStands(dataIter, t.blocks[block].layout, entry);
      entry := if entry == 0 then |t.blocks[block].layout.entries| else entry - 1;
      SkipEmptyDataBlocksBackward(end);
    }

    /** What key() and value() show is the entry at the current place. */
    method Show() returns (e: KV)
      requires Ok() && Valid()
      ensures Place() < |AllEntries(t.blocks)| && e == AllEntries(t.blocks)[Place()]
    {
      hide Table.Reads, HandleBytes, Image, Shaped, IsOrder, InOrder, KeyLess, Iter.Reads, Iter.At, TableImage, AllWritten, Whole, AllEntries, StandsIn;
      StandsParts(dataIter, t.blocks[block].layout, entry);
      EntryIn(t.blocks, block, entry);
      e := Current(dataIter, t.blocks[block].layout, entry);
    }

    lemma ValidMeans()
      requires Ok()
      ensures Valid() <==> Place() < |AllEntries(t.blocks)|
    {
      hide Table.Reads, HandleBytes, Image, Shaped, IsOrder, InOrder, KeyLess, Iter.Reads, Iter.At, TableImage, AllWritten, Whole, AllEntries, StandsIn;
      if dataIter != null {
        StandsValid(dataIter, t.blocks[block].layout, entry);
        EntryIn(t.blocks, block, entry);
      }
    }
  }

  /** Table::NewIterator. */
  method NewTableIterator(table: Table, verifyChecksums: bool, ghost t: TableLayout) returns (r: TableIterator)
    requires table.Reads(t)
    ensures fresh(r) && fresh(r.indexIter) && r.dataIter == null && r.Ok() && r.t == t && r.table == table
    ensures r.Place() == |AllEntries(t.blocks)|
  {
    hide Table.Reads, HandleBytes, Image, Shaped, IsOrder, InOrder, KeyLess, Iter.Reads, TableImage, AllWritten, Whole, AllEntries, StandsIn;
    IndexParts(table, t);
    var index := NewIterator(table.indexContents, KeyLess, t.index.layout);
    FreshStands(index.iter, t.index.layout);
    r := new TableIterator(table, verifyChecksums, index.iter, t);
  }

  /** The steps of a block iterator, with what stands where. */
  method NextStands(iter: Iter, ghost l: Layout, ghost i: nat)
    requires StandsIn(iter, l, i) && i < |l.entries|
    modifies iter
    ensures StandsIn(iter, l, i + 1)
  {
    hide Image, Shaped;
    PlaceIs(iter, l, i);
    iter.Next(l, i);
  }

  method FirstStands(iter: Iter, ghost l: Layout, ghost i: nat)
    requires StandsIn(iter, l, i)
    modifies iter
    ensures StandsIn(iter, l, 0)
  {
    hide Image, Shaped;
    iter.SeekToFirst(l);
  }

  method PrevStands(iter: Iter, ghost l: Layout, ghost i: nat)
    requires StandsIn(iter, l, i) && i < |l.entries|
    modifies iter
    ensures StandsIn(iter, l, if i == 0 then |l.entries| else i - 1)
  {
    hide Image, Shaped;
    PlaceIs(iter, l, i);
    iter.Prev(l, i);
  }

  method LastStands(iter: Iter, ghost l: Layout, ghost i: nat) returns (ghost last: nat)
    requires StandsIn(iter, l, i)
    modifies iter
    ensures last == (if l.entries == [] then 0 else |l.entries| - 1) && StandsIn(iter, l, last)
  {
    hide Image, Shaped;
    last := if l.entries == [] then 0 else |l.entries| - 1;
    iter.SeekToLast(l);
  }

  method SeekStands(iter: Iter, target: seq<Byte>, ghost l: Layout, ghost i: nat)
    requires StandsIn(iter, l, i) && IsOrder(KeyLess) && InOrder(l.entries, KeyLess)
    modifies iter
    ensures StandsIn(iter, l, FirstFrom(l.entries, target, KeyLess))
  {
    hide Image, Shaped, IsOrder, InOrder, FirstFrom, KeyLess;
    iter.Seek(target, l);
  }

  lemma StandsParts(iter: Iter, l: Layout, i: nat)
    requires StandsIn(iter, l, i)
    ensures iter.Ok() && iter.Reads(l) && Shaped(l) && i <= |l.entries| && iter.At(l, i) && !iter.corrupt
  {
  }

  lemma FreshStands(iter: Iter, l: Layout)
    requires iter.Ok() && iter.current == iter.restarts && iter.less == KeyLess && iter.Reads(l) && !iter.corrupt && Shaped(l)
    ensures StandsIn(iter, l, |l.entries|)
  {
  }
}
