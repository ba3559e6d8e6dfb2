/** Building a table file: data blocks of bounded size, an index entry for each as soon as the key
    behind it is known, and a filter (table/table_builder.cc). */
module TableBuilders {
  import opened Bytes
  import opened Coding
  import opened DbFormat
  import opened Comparators
  import opened BlockFormat
  import opened Blocks
  import opened InternalKeys
  import opened Blooms
  import opened FilterBlocks
  import opened TableFormat
  import opened TableLayouts

  lemma EntryIsShort(shared: nat, e: KV)
    requires shared <= |e.key| < TWO_32 && |e.value| < TWO_32
    ensures |EntryBytes(shared, e)| <= 15 + |e.key| + |e.value|
  {
    Powers();
    hide Varint, Pow128;
    VarintShort(shared, 5);
    VarintShort(|e.key| - shared, 5);
    VarintShort(|e.value|, 5);
  }

  class TableBuilder {
    const blockSize: nat
    const restartInterval: nat
    const policy: BloomFilterPolicy?
    const filterKey: seq<Byte>  // "filter." and the name of the policy
    const capacity: nat  // what the file can hold; appending more fails
    const dataBlock: BlockBuilder
    const indexBlock: BlockBuilder
    const filterBlock: FilterBlockBuilder?
    var file: seq<Byte>
    var ok: bool
    var lastKey: seq<Byte>
    var numEntries: nat
    var closed: bool
    var pendingIndexEntry: bool
    var pendingHandle: BlockHandle
    ghost var blocks: seq<Written>
    ghost const Repr: set<object>

    /** All entries added so far. */
    ghost function All(): seq<KV>
      reads this, dataBlock
    {
      AllEntries(blocks) + dataBlock.layout.entries
    }

    ghost predicate Parts()
      reads this
    {
      && Repr == {this, dataBlock, indexBlock} + (if filterBlock == null then {} else {filterBlock})
      && dataBlock != indexBlock && (filterBlock == null <==> policy == null)
      && (filterBlock != null ==> filterBlock.policy == policy)
      && 0 < blockSize < TWO_32 && restartInterval >= 1 && |filterKey| + 64 < TWO_32 && capacity < MAX_CAPACITY
    }

    ghost predicate FilterOk()
      reads this, Repr
      requires Parts()
    {
      filterBlock != null ==>
        filterBlock.Valid() && Filtered(blocks, dataBlock.layout.entries, |file|, filterBlock.groups, filterBlock.pending)
    }

    /** What holds between two calls while there has been no error; the data block stays below `limit`. */
    ghost predicate Content(limit: nat)
      reads this, Repr
      requires Parts()
    {
      && dataBlock.Valid() && !dataBlock.finished && indexBlock.Valid() && !indexBlock.finished
      && |file| <= capacity && AllWritten(file, blocks) && |dataBlock.buffer| < limit
      && Building(blocks, dataBlock.layout.entries, indexBlock.layout.entries, lastKey, pendingIndexEntry, pendingHandle)
      && FilterOk()
    }

    ghost predicate Valid()
      reads this, Repr
    {
      Parts() && numEntries == |All()| && (ok ==> Content(blockSize))
    }

    /** The index block has room for another entry; blocks are kept below 4 GB. */
    predicate IndexFits()
      reads this, indexBlock
    {
      |indexBlock.buffer| + |lastKey| + 64 < TWO_32
    }

    constructor (blockSize: nat, restartInterval: nat, policy: BloomFilterPolicy?, filterKey: seq<Byte>, capacity: nat)
      requires 0 < blockSize < TWO_32 && restartInterval >= 1 && |filterKey| + 64 < TWO_32 && capacity < MAX_CAPACITY
      requires policy != null ==> 1 <= policy.k <= 30
      ensures Valid() && fresh(Repr) && All() == [] && ok && !closed && this.policy == policy && this.filterKey == filterKey && file == []
    {
      hide Building, AllWritten, Filtered, AllEntries, FilterBlockBuilder.Valid, BlockBuilder.Valid;
      this.blockSize, this.restartInterval, this.policy, this.filterKey, this.capacity := blockSize, restartInterval, policy, filterKey, capacity;
      var data := new BlockBuilder(restartInterval);
      var index := new BlockBuilder(1);
      dataBlock, indexBlock := data, index;
      if policy == null {
        filterBlock, Repr := null, {this, data, index};
      } else {
        var filter := new FilterBlockBuilder(policy);
        filter.StartBlock(0);
        filterBlock, Repr := filter, {this, data, index, filter};
      }
      file, ok, lastKey, numEntries, closed, pendingIndexEntry, pendingHandle := [], true, [], 0, false, false, BlockHandle(0, 0);
      blocks := [];
      new;
      NothingBuilt();
      if filterBlock != null {
        NothingFiltered(filterBlock.groups, filterBlock.pending);
      }
    }

    /** WriteRawBlock: if there is no room the status is an error from then on. */
    method WriteRaw(contents: seq<Byte>) returns (handle: BlockHandle)
      requires ok
      modifies this`file, this`ok
      ensures old(file) <= file && (ok ==> |file| <= capacity) && (!ok ==> file == old(file))
      ensures ok ==> handle == BlockHandle(|old(file)|, |contents|) && BlockAt(file, handle, contents)
                     && |file| == |old(file)| + |contents| + BLOCK_TRAILER_SIZE
    {
      handle := BlockHandle(|file|, |contents|);
      if |file| + |contents| + BLOCK_TRAILER_SIZE > capacity {
        ok := false;
        return;
      }
      file, handle := TableFormat.WriteRawBlock(file, contents);
    }

    /** WriteBlock: finishes the block, appends it, and makes it empty again. */
    method WriteBlock(block: BlockBuilder) returns (handle: BlockHandle, ghost w: Written)
      requires ok && block.Valid() && !block.finished && |block.buffer| < TWO_32 - 1
      modifies this`file, this`ok, block
      ensures old(file) <= file && (ok ==> |file| <= capacity) && (!ok ==> file == old(file)) && w.layout == old(block.layout)
      ensures ok ==> IsWritten(file, w) && w.handle == handle && handle.offset == |old(file)|
                     && |file| == |old(file)| + handle.size + BLOCK_TRAILER_SIZE
      ensures block.Valid() && !block.finished && block.layout.entries == [] && block.buffer == []
    {
      hide Image, BlockAt;
      block.FewRestarts();
      ghost var layout := block.layout;
      var raw := block.Finish();
      handle := WriteRaw(raw);
      block.Reset();
      w := Written(handle, raw, layout);
    }

    /** The entry goes into the data block, which grows by little more than the entry. */
    method AddToBlock(key: seq<Byte>, value: seq<Byte>)
      requires dataBlock.Valid() && !dataBlock.finished && |dataBlock.buffer| < TWO_32 && |key| < TWO_32 && |value| < TWO_32
      modifies dataBlock
      ensures dataBlock.Valid() && !dataBlock.finished && dataBlock.layout.entries == old(dataBlock.layout.entries) + [KV(key, value)]
      ensures |dataBlock.buffer| <= |old(dataBlock.buffer)| + |key| + |value| + 15
    {
      hide BlockBuilder.Valid, EntryBytes, CommonLength;
      ghost var n := |dataBlock.layout.entries|;
      dataBlock.Add(key, value);
      EntryIsShort(dataBlock.layout.shared[n], KV(key, value));
    }

    method Add(key: seq<Byte>, value: seq<Byte>)
      requires Valid() && !closed && |key| >= 8 && (numEntries > 0 ==> KeyLess(lastKey, key))
      requires |key| + |value| + blockSize + 64 < TWO_32 && IndexFits()
      modifies Repr
      ensures Valid() && !closed
      ensures ok ==> All() == old(All()) + [KV(key, value)] && lastKey == key
    {
      hide Building, AllWritten, Filtered, KeyLess, FilterBlockBuilder.Valid, BlockBuilder.Valid, EntryBytes, AllEntries, KeySeparates, HandleBytes;
      if !ok {
        return;
      }
      ghost var current, index := dataBlock.layout.entries, indexBlock.layout.entries;
      if pendingIndexEntry {
        AddIndexEntry(key);
      }
      AddKeeps(blocks, current, index, old(lastKey), old(pendingIndexEntry), pendingHandle, lastKey, KV(key, value));
      if filterBlock != null {
        FilteredWith(blocks, current, |file|, filterBlock.groups, filterBlock.pending, KV(key, value));
        filterBlock.AddKey(key);
      }
      lastKey := key;
      numEntries := numEntries + 1;
      AddToBlock(key, value);
      OneMoreEntry(AllEntries(blocks), current, KV(key, value));
      if dataBlock.CurrentSizeEstimate() >= blockSize {
        Flush();
      }
    }

    /** The index entry of the block before, under a key between its last and the one that comes now. */
    method AddIndexEntry(key: seq<Byte>)
      requires Parts() && Content(blockSize) && pendingIndexEntry && |key| >= 8 && IndexFits()
      modifies this`lastKey, this`pendingIndexEntry, indexBlock
      ensures !pendingIndexEntry && |old(lastKey)| >= 8 && KeySeparates(lastKey, old(lastKey), key)
      ensures indexBlock.Valid() && !indexBlock.finished
      ensures indexBlock.layout.entries == old(indexBlock.layout.entries) + [KV(lastKey, HandleBytes(pendingHandle))]
    {
      hide Image, BlockBuilder.Valid, HandleBytes, IndexEntry;
      LastIsLong(blocks, dataBlock.layout.entries, indexBlock.layout.entries, lastKey, pendingIndexEntry, pendingHandle);
      PendingIsShort(file, capacity, blocks, pendingHandle);
      NothingBefore(HandleBytes(pendingHandle));
      lastKey := FindShortestKey(lastKey, key);
      var handleEncoding := EncodeHandle(pendingHandle, []);
      indexBlock.Add(lastKey, handleEncoding);
      pendingIndexEntry := false;
    }

    /** The data block, if there is anything in it, is written, and its index entry is due. */
    method Flush()
      requires Parts() && numEntries == |All()| && (ok ==> Content(TWO_32 - 1))
      modifies Repr
      ensures Valid() && closed == old(closed) && lastKey == old(lastKey) && numEntries == old(numEntries)
      ensures ok ==> old(ok) && dataBlock.layout.entries == [] && All() == old(All())
      ensures indexBlock.buffer == old(indexBlock.buffer)
    {
      hide Building, AllWritten, Filtered, FilterBlockBuilder.Valid, BlockBuilder.Valid, AllEntries;
      if !ok {
        return;
      }
      dataBlock.EmptyMeans();
      if dataBlock.Empty() {
        return;
      }
      FlushBlock();
    }

    method FlushBlock()
      requires Parts() && numEntries == |All()| && ok && Content(TWO_32 - 1) && dataBlock.layout.entries != []
      modifies Repr
      ensures Valid() && closed == old(closed) && lastKey == old(lastKey) && numEntries == old(numEntries)
      ensures ok ==> dataBlock.layout.entries == [] && All() == old(All())
      ensures indexBlock.buffer == old(indexBlock.buffer)
    {
      hide Building, AllWritten, IsWritten, Filtered, AllEntries, FilterBlockBuilder.Valid, BlockBuilder.Valid;
      ghost var current := dataBlock.layout.entries;
      ghost var w;
      NotPending(blocks, current, indexBlock.layout.entries, lastKey, pendingIndexEntry, pendingHandle);
      pendingHandle, w := WriteBlock(dataBlock);
      EntriesWith(blocks, w);
      NothingBehind(AllEntries(blocks + [w]));
      if ok {
        BlockAdded(old(file), file, blocks, current, indexBlock.layout.entries, lastKey, old(pendingHandle), w);
        pendingIndexEntry := true;
      }
      StartFilterBlock(|old(file)|, current, w);
      blocks := blocks + [w];
    }

    /** The filter builder goes on to the end of the file. */
    method StartFilterBlock(ghost offset: nat, ghost current: seq<KV>, ghost w: Written)
      requires Parts() && offset <= |file|
      requires filterBlock != null ==> filterBlock.Valid() && Filtered(blocks, current, offset, filterBlock.groups, filterBlock.pending)
      modifies if filterBlock == null then {} else {filterBlock}
      ensures filterBlock != null ==> filterBlock.Valid()
      ensures filterBlock != null && w.handle.offset == offset && w.layout.entries == current ==>
                Filtered(blocks + [w], [], |file|, filterBlock.groups, filterBlock.pending)
    {
      hide Filtered, Kept, FilterBlockBuilder.Valid;
      if filterBlock != null {
        OffsetGrows(offset, |file|);
        FilteredCount(blocks, current, offset, filterBlock.groups, filterBlock.pending);
        ghost var groups, pending := filterBlock.groups, filterBlock.pending;
        filterBlock.StartBlock(|file|);
        if w.handle.offset == offset && w.layout.entries == current {
          FilteredFlush(blocks, current, offset, groups, pending, w, |file|, filterBlock.groups, filterBlock.pending);
        }
      }
    }

    /** The rest of the file: filter, metaindex, index, footer. A table without an error holds every
        entry that was added. */
    method Finish() returns (ghost t: TableLayout)
      requires Valid() && !closed && IndexFits()
      modifies Repr
      ensures Parts() && closed
      ensures ok ==> TableImage(file, policy, filterKey, t) && AllEntries(t.blocks) == old(All())
    {
      hide Building, AllWritten, IsWritten, Filtered, AllEntries, FilterBlockBuilder.Valid, BlockBuilder.Valid, FilterImage, Covers, BlockAt,
           HandleBytes, Ordered, Indexed, FooterBytes;
      Flush();
      closed := true;
      var filterHandle, metaindexHandle, indexHandle := BlockHandle(0, 0), BlockHandle(0, 0), BlockHandle(0, 0);
      ghost var filterPart, metaindex, index := NoFilter, Written(filterHandle, [], indexBlock.layout), Written(filterHandle, [], indexBlock.layout);
      NothingBehind(AllEntries(blocks));
      if ok {
        BuiltInOrder(blocks, indexBlock.layout.entries, lastKey, pendingIndexEntry, pendingHandle);
      }
      ghost var f0 := file;
      if ok {
        filterHandle, filterPart := WriteFilter();
      }
      ghost var f1 := file;
      if ok {
        metaindexHandle, metaindex := WriteMetaindex(filterHandle);
      }
      ghost var f2 := file;
      if ok {
        StillWritten(f0, file, blocks);
        indexHandle, index := WriteIndex();
      }
      t := TableLayout(blocks, index, metaindex, filterPart);
      ghost var f3 := file;
      if ok {
        WriteFooter(metaindexHandle, indexHandle);
        if ok {
          WhollyWritten(f0, f1, f2, f3, file, policy, filterKey, t);
        }
      }
    }

    method WriteFilter() returns (handle: BlockHandle, ghost part: FilterPart)
      requires Parts() && ok && |file| <= capacity && FilterOk()
      modifies this`file, this`ok, if filterBlock == null then {} else {filterBlock}
      ensures old(file) <= file && (ok ==> |file| <= capacity && |HandleBytes(handle)| <= MAX_HANDLE_LENGTH)
      ensures ok && filterBlock == null ==> part == NoFilter
      ensures ok && filterBlock != null ==>
                && part.FilterPart? && part.handle == handle && BlockAt(file, handle, part.contents) && Covers(part.layout.groups, blocks)
                && (|part.contents| < TWO_32 ==> FilterImage(policy, part.contents, part.layout))
    {
      hide FilterBlockBuilder.Valid, FilterImage, EncodeFixed32;
      handle := BlockHandle(0, 0);
      part := NoFilter;
      if filterBlock != null {
        ghost var groups, pending := filterBlock.groups, filterBlock.pending;
        var contents, l := filterBlock.Finish();
        FilterCovers(blocks, dataBlock.layout.entries, |file|, groups, pending, l.groups);
        handle := WriteRaw(contents);
        part := FilterPart(handle, contents, l);
      }
      if ok {
        HandleIsShort(handle);
      }
    }

    method WriteMetaindex(filterHandle: BlockHandle) returns (handle: BlockHandle, ghost w: Written)
      requires Parts() && ok && |HandleBytes(filterHandle)| <= MAX_HANDLE_LENGTH
      modifies this`file, this`ok
      ensures old(file) <= file && (ok ==> |file| <= capacity && |HandleBytes(handle)| <= MAX_HANDLE_LENGTH)
      ensures ok ==> IsWritten(file, w) && w.handle == handle
                     && w.layout.entries == if filterBlock == null then [] else [KV(filterKey, HandleBytes(filterHandle))]
    {
      hide IsWritten, HandleBytes, BlockBuilder.Valid, EntryBytes;
      var meta := new BlockBuilder(restartInterval);
      if filterBlock != null {
        NothingBefore(HandleBytes(filterHandle));
        var handleEncoding := EncodeHandle(filterHandle, []);
        meta.Add(filterKey, handleEncoding);
        EntryIsShort(meta.layout.shared[0], KV(filterKey, handleEncoding));
      }
      handle, w := WriteBlock(meta);
      if ok {
        HandleIsShort(handle);
      }
    }

    method WriteIndex() returns (handle: BlockHandle, ghost w: Written)
      requires Parts() && ok && |file| <= capacity && indexBlock.Valid() && !indexBlock.finished && IndexFits() && AllWritten(file, blocks)
      requires Building(blocks, [], indexBlock.layout.entries, lastKey, pendingIndexEntry, pendingHandle)
      modifies this`file, this`ok, this`lastKey, this`pendingIndexEntry, indexBlock
      ensures old(file) <= file && (ok ==> |file| <= capacity && |HandleBytes(handle)| <= MAX_HANDLE_LENGTH)
      ensures ok ==> IsWritten(file, w) && w.handle == handle && Indexed(w.layout.entries, blocks, []) && |w.layout.entries| == |blocks|
    {
      hide IsWritten, HandleBytes, BlockBuilder.Valid, EntryBytes, AllWritten, Building, Indexed;
      PendingOrNone(blocks, indexBlock.layout.entries, lastKey, pendingIndexEntry, pendingHandle);
      if pendingIndexEntry {
        LastIsLong(blocks, [], indexBlock.layout.entries, lastKey, pendingIndexEntry, pendingHandle);
        PendingIsShort(file, capacity, blocks, pendingHandle);
        NothingBefore(HandleBytes(pendingHandle));
        ghost var index := indexBlock.layout.entries;
        lastKey := FindShortKey(lastKey);
        LastIndexed(blocks, index, old(lastKey), pendingHandle, lastKey);
        var handleEncoding := EncodeHandle(pendingHandle, []);
        indexBlock.Add(lastKey, handleEncoding);
        EntryIsShort(indexBlock.layout.shared[|index|], KV(lastKey, handleEncoding));
        pendingIndexEntry := false;
      }
      handle, w := WriteBlock(indexBlock);
      if ok {
        HandleIsShort(handle);
      }
    }

    method WriteFooter(metaindex: BlockHandle, index: BlockHandle)
      requires Parts() && ok && |HandleBytes(metaindex)| <= MAX_HANDLE_LENGTH && |HandleBytes(index)| <= MAX_HANDLE_LENGTH
      modifies this`file, this`ok
      ensures ok ==> |file| <= capacity && file == old(file) + FooterBytes(metaindex, index)
    {
      hide HandleBytes, FooterBytes;
      var footerEncoding := EncodeFooter(Footer(metaindex, index));
      if |file| + |footerEncoding| > capacity {
        ok := false;
        return;
      }
      file := file + footerEncoding;
    }
  }

  lemma NothingBuilt()
    ensures Building([], [], [], [], false, BlockHandle(0, 0)) && AllWritten([], []) && AllEntries([]) + [] == []
  {
  }

  lemma NothingFiltered(groups: seq<seq<seq<Byte>>>, pending: seq<seq<Byte>>)
    requires |groups| == 0 / FILTER_BASE
    ensures Filtered([], [], 0, groups, pending)
  {
  }

  lemma BuiltInOrder(blocks: seq<Written>, index: seq<KV>, lastKey: seq<Byte>, pending: bool, handle: BlockHandle)
    requires Building(blocks, [], index, lastKey, pending, handle)
    ensures Ordered(AllEntries(blocks))
  {
    NothingBehind(AllEntries(blocks));
  }

  lemma OneMoreEntry(a: seq<KV>, b: seq<KV>, e: KV)
    ensures a + (b + [e]) == a + b + [e]
  {
  }

  lemma PendingOrNone(blocks: seq<Written>, index: seq<KV>, lastKey: seq<Byte>, pending: bool, handle: BlockHandle)
    requires Building(blocks, [], index, lastKey, pending, handle)
    ensures pending ==> blocks != [] && handle == blocks[|blocks| - 1].handle
    ensures !pending ==> Indexed(index, blocks, []) && |index| == |blocks|
  {
  }

  lemma FilterCovers(blocks: seq<Written>, current: seq<KV>, offset: nat, groups: seq<seq<seq<Byte>>>, pending: seq<seq<Byte>>,
                     groups2: seq<seq<seq<Byte>>>)
    requires Filtered(blocks, current, offset, groups, pending)
    requires forall i: nat, key :: key in KeysAt(groups, pending, i) ==> i < |groups2| && key in groups2[i]
    ensures Covers(groups2, blocks)
  {
    hide KeysAt;
    forall i | 0 <= i < |blocks| && blocks[i].layout.entries != []
      ensures var g := blocks[i].handle.offset / FILTER_BASE; g < |groups2| && KeysIn(blocks[i].layout.entries, groups2[g])
    {
      var g := blocks[i].handle.offset / FILTER_BASE;
      assert KeysIn(blocks[i].layout.entries, KeysAt(groups, pending, g));
      assert blocks[i].layout.entries[0].key in KeysAt(groups, pending, g);
    }
  }

  lemma StillThere(file: seq<Byte>, more: seq<Byte>, w: Written)
    requires file <= more && IsWritten(file, w)
    ensures IsWritten(more, w)
  {
    hide BlockAt, Image;
    BlockStays(file, more[|file|..], w.handle, w.contents);
    assert file + more[|file|..] == more;
  }

  lemma BlockStillAt(file: seq<Byte>, more: seq<Byte>, handle: BlockHandle, contents: seq<Byte>)
    requires file <= more && BlockAt(file, handle, contents)
    ensures BlockAt(more, handle, contents)
  {
    hide BlockAt;
    BlockStays(file, more[|file|..], handle, contents);
    assert file + more[|file|..] == more;
  }

  /** The parts of the table were written one after the other. */
  lemma WhollyWritten(f0: seq<Byte>, f1: seq<Byte>, f2: seq<Byte>, f3: seq<Byte>, file: seq<Byte>,
                      policy: BloomFilterPolicy?, filterKey: seq<Byte>, t: TableLayout)
    requires f0 <= f1 <= f2 <= f3 && |file| < TWO_64
    requires AllWritten(f0, t.blocks) && Ordered(AllEntries(t.blocks))
    requires match t.filter
             case NoFilter => policy == null && t.metaindex.layout.entries == []
             case FilterPart(handle, contents, l) =>
               && policy != null && t.metaindex.layout.entries == [KV(filterKey, HandleBytes(handle))]
               && BlockAt(f1, handle, contents) && (|contents| < TWO_32 ==> FilterImage(policy, contents, l)) && Covers(l.groups, t.blocks)
    requires IsWritten(f2, t.metaindex) && IsWritten(f3, t.index)
    requires Indexed(t.index.layout.entries, t.blocks, []) && |t.index.layout.entries| == |t.blocks|
    requires |HandleBytes(t.metaindex.handle)| <= MAX_HANDLE_LENGTH && |HandleBytes(t.index.handle)| <= MAX_HANDLE_LENGTH
    requires file == f3 + FooterBytes(t.metaindex.handle, t.index.handle)
    ensures TableImage(file, policy, filterKey, t)
  {
    hide AllWritten, IsWritten, FilterImage, Covers, BlockAt, HandleBytes, Ordered, Indexed;
    assert f0 <= file && f1 <= file && f2 <= file && f3 <= file;
    StillWritten(f0, file, t.blocks);
    StillThere(f2, file, t.metaindex);
    StillThere(f3, file, t.index);
    if t.filter.FilterPart? {
      BlockStillAt(f1, file, t.filter.handle, t.filter.contents);
    }
    FooterLength(t.metaindex.handle, t.index.handle);
    var footer := FooterBytes(t.metaindex.handle, t.index.handle);
    assert file[|file| - FOOTER_LENGTH..] == footer;
  }

  lemma FooterLength(a: BlockHandle, b: BlockHandle)
    requires |HandleBytes(a)| + |HandleBytes(b)| <= 2 * MAX_HANDLE_LENGTH
    ensures |FooterBytes(a, b)| == FOOTER_LENGTH
  {
    hide HandleBytes, EncodeFixed32;
  }

  lemma NothingBehind(s: seq<KV>)
    ensures s + [] == s
  {
  }

  lemma BlockAdded(file: seq<Byte>, more: seq<Byte>, blocks: seq<Written>, current: seq<KV>, index: seq<KV>, lastKey: seq<Byte>,
                   handle: BlockHandle, w: Written)
    requires Building(blocks, current, index, lastKey, false, handle) && current != [] && w.layout.entries == current
    requires AllWritten(file, blocks) && file <= more && IsWritten(more, w) && w.handle.offset == |file|
    ensures Building(blocks + [w], [], index, lastKey, true, w.handle) && AllWritten(more, blocks + [w])
  {
    hide Building, AllWritten, IsWritten;
    FlushKeeps(blocks, current, index, lastKey, handle, w);
    WrittenBefore(file, blocks);
    StillWritten(file, more, blocks);
    WrittenWith(more, blocks, w);
  }

  lemma NotPending(blocks: seq<Written>, current: seq<KV>, index: seq<KV>, lastKey: seq<Byte>, pending: bool, handle: BlockHandle)
    requires Building(blocks, current, index, lastKey, pending, handle) && current != []
    ensures !pending
  {
  }

  lemma WrittenWith(file: seq<Byte>, blocks: seq<Written>, w: Written)
    requires AllWritten(file, blocks) && IsWritten(file, w) && w.layout.entries != []
    requires forall i :: 0 <= i < |blocks| ==> blocks[i].handle.offset < w.handle.offset
    ensures AllWritten(file, blocks + [w])
  {
    hide IsWritten;
  }

  lemma WrittenBefore(file: seq<Byte>, blocks: seq<Written>)
    requires AllWritten(file, blocks)
    ensures forall i :: 0 <= i < |blocks| ==> blocks[i].handle.offset < |file|
  {
    hide Image, NumberAt;
    forall i | 0 <= i < |blocks| ensures blocks[i].handle.offset < |file| {
      assert IsWritten(file, blocks[i]);
    }
  }

  lemma OffsetGrows(a: nat, b: nat)
    requires a <= b
    ensures a / FILTER_BASE <= b / FILTER_BASE
  {
  }

  lemma FilteredCount(blocks: seq<Written>, current: seq<KV>, offset: nat, groups: seq<seq<seq<Byte>>>, pending: seq<seq<Byte>>)
    requires Filtered(blocks, current, offset, groups, pending)
    ensures |groups| == offset / FILTER_BASE
  {
  }

  lemma PendingIsShort(file: seq<Byte>, capacity: nat, blocks: seq<Written>, handle: BlockHandle)
    requires |file| <= capacity < MAX_CAPACITY && AllWritten(file, blocks) && blocks != [] && handle == blocks[|blocks| - 1].handle
    ensures |HandleBytes(handle)| <= MAX_HANDLE_LENGTH
  {
    assert IsWritten(file, blocks[|blocks| - 1]);
    hide Image;
    HandleIsShort(handle);
  }

  const MAX_CAPACITY: nat := 0x4000_0000_0000_0000
}
