/** What a table file holds: data blocks, an index with one short key for each of them, and a filter
    (table/table_builder.cc). */
module TableLayouts {
  import opened Bytes
  import opened Coding
  import opened DbFormat
  import opened Comparators
  import opened BlockFormat
  import opened Blocks
  import opened InternalKeys
  import opened Blooms
  import opened FilterBlocks
  import opened TableFormat

  /** A block that has been written: where, its bytes, and what they hold. */
  datatype Written = Written(handle: BlockHandle, contents: seq<Byte>, layout: Layout)

  ghost predicate IsWritten(file: seq<Byte>, w: Written) {
    BlockAt(file, w.handle, w.contents) && Image(w.contents, w.layout)
  }

  /** All entries of the blocks, in order. */
  function AllEntries(blocks: seq<Written>): seq<KV> {
    if blocks == [] then [] else AllEntries(blocks[..|blocks| - 1]) + blocks[|blocks| - 1].layout.entries
  }

  ghost predicate AllKeys(entries: seq<KV>) {
    forall i :: 0 <= i < |entries| ==> |entries[i].key| >= 8
  }

  /** Internal keys, strictly increasing. */
  ghost predicate Ordered(entries: seq<KV>) {
    AllKeys(entries) && InOrder(entries, KeyLess)
  }

  /** The first key behind block `i`: of the next block, or of the entries that are not in a block yet. */
  function KeyBehind(blocks: seq<Written>, current: seq<KV>, i: nat): Option<seq<Byte>> {
    if i + 1 < |blocks| then
      if blocks[i + 1].layout.entries == [] then None else Some(blocks[i + 1].layout.entries[0].key)
    else if current == [] then None
    else Some(current[0].key)
  }

  /** The index entry of block `i`: its handle, under a key at or behind its last key, and before the next. */
  ghost predicate IndexEntry(index: KV, blocks: seq<Written>, current: seq<KV>, i: nat)
    requires i < |blocks|
  {
    var last := LastKey(blocks[i].layout);
    && index.value == HandleBytes(blocks[i].handle) && |last| >= 8
    && match KeyBehind(blocks, current, i)
       case Some(next) => |next| >= 8 && KeySeparates(index.key, last, next)
       case None => KeySucceeds(index.key, last)
  }

  /** There is an index entry for every block but possibly the last. */
  ghost predicate Indexed(index: seq<KV>, blocks: seq<Written>, current: seq<KV>) {
    |index| <= |blocks| && forall i :: 0 <= i < |index| ==> IndexEntry(index[i], blocks, current, i)
  }

  /** The blocks lie one behind the other, none of them empty. */
  ghost predicate AllWritten(file: seq<Byte>, blocks: seq<Written>) {
    && (forall i :: 0 <= i < |blocks| ==> IsWritten(file, blocks[i]) && blocks[i].layout.entries != [])
    && (forall i, j :: 0 <= i < j < |blocks| ==> blocks[i].handle.offset < blocks[j].handle.offset)
  }

  // ---------------------------------------------------------------- entries and blocks

  lemma EntriesWith(blocks: seq<Written>, w: Written)
    ensures AllEntries(blocks + [w]) == AllEntries(blocks) + w.layout.entries
  {
    assert (blocks + [w])[..|blocks|] == blocks;
  }

  lemma StillWritten(file: seq<Byte>, more: seq<Byte>, blocks: seq<Written>)
    requires AllWritten(file, blocks) && file <= more
    ensures AllWritten(more, blocks)
  {
    hide Image, BlockAt;
    forall i | 0 <= i < |blocks| ensures IsWritten(more, blocks[i]) && blocks[i].layout.entries != [] {
      assert IsWritten(file, blocks[i]);
      BlockStays(file, more[|file|..], blocks[i].handle, blocks[i].contents);
      assert file + more[|file|..] == more;
    }
  }

  // ---------------------------------------------------------------- building

  /** What holds of blocks, entries that are not in a block yet, and index between two calls. */
  ghost predicate Building(blocks: seq<Written>, current: seq<KV>, index: seq<KV>, lastKey: seq<Byte>, pending: bool, handle: BlockHandle) {
    var all := AllEntries(blocks) + current;
    && Ordered(all) && Indexed(index, blocks, current)
    && (forall i :: 0 <= i < |blocks| ==> blocks[i].layout.entries != [])
    && |index| + (if pending then 1 else 0) == |blocks|
    && (all != [] ==> lastKey == all[|all| - 1].key)
    && (pending ==> current == [] && handle == blocks[|blocks| - 1].handle && lastKey == LastKey(blocks[|blocks| - 1].layout))
    && (!pending && blocks != [] ==> current != [])
  }

  lemma OrderedWith(entries: seq<KV>, e: KV)
    requires Ordered(entries) && |e.key| >= 8 && (entries != [] ==> KeyLess(entries[|entries| - 1].key, e.key))
    ensures Ordered(entries + [e])
  {
    hide KeyLess;
    forall i | 0 <= i < |entries| ensures KeyLess(entries[i].key, e.key) {
      if i < |entries| - 1 {
        KeyLessIsTransitive(entries[i].key, entries[|entries| - 1].key, e.key);
      }
    }
  }

  lemma IndexWith(blocks: seq<Written>, current: seq<KV>, index: seq<KV>, lastKey: seq<Byte>, pending: bool, handle: BlockHandle,
                  separator: seq<Byte>, e: KV)
    requires Building(blocks, current, index, lastKey, pending, handle) && |e.key| >= 8
    requires pending ==> |lastKey| >= 8 && KeySeparates(separator, lastKey, e.key)
    ensures Indexed(if pending then index + [KV(separator, HandleBytes(handle))] else index, blocks, current + [e])
  {
    var index2 := if pending then index + [KV(separator, HandleBytes(handle))] else index;
    forall i | 0 <= i < |index2| ensures IndexEntry(index2[i], blocks, current + [e], i) {
      if i < |index| {
        assert IndexEntry(index[i], blocks, current, i);
      }
    }
  }

  /** A new entry; if an index entry is due, it gets the key that separates the two. */
  lemma AddKeeps(blocks: seq<Written>, current: seq<KV>, index: seq<KV>, lastKey: seq<Byte>, pending: bool, handle: BlockHandle,
                 separator: seq<Byte>, e: KV)
    requires Building(blocks, current, index, lastKey, pending, handle) && |e.key| >= 8
    requires AllEntries(blocks) + current != [] ==> KeyLess(lastKey, e.key)
    requires pending ==> |lastKey| >= 8 && KeySeparates(separator, lastKey, e.key)
    ensures Building(blocks, current + [e], if pending then index + [KV(separator, HandleBytes(handle))] else index, e.key, false, handle)
  {
    var all := AllEntries(blocks) + current;
    OrderedWith(all, e);
    IndexWith(blocks, current, index, lastKey, pending, handle, separator, e);
    assert AllEntries(blocks) + (current + [e]) == all + [e];
  }

  lemma LastIsLong(blocks: seq<Written>, current: seq<KV>, index: seq<KV>, lastKey: seq<Byte>, pending: bool, handle: BlockHandle)
    requires Building(blocks, current, index, lastKey, pending, handle) && pending
    ensures |lastKey| >= 8
  {
    hide KeyLess, IndexEntry;
    var n := |blocks| - 1;
    assert AllEntries(blocks) == AllEntries(blocks[..n]) + blocks[n].layout.entries;
    var all := AllEntries(blocks) + current;
    assert all[|all| - 1].key == lastKey;
  }

  /** The entries go into a block of their own. */
  lemma FlushKeeps(blocks: seq<Written>, current: seq<KV>, index: seq<KV>, lastKey: seq<Byte>, handle: BlockHandle, w: Written)
    requires Building(blocks, current, index, lastKey, false, handle) && current != [] && w.layout.entries == current
    ensures Building(blocks + [w], [], index, lastKey, true, w.handle)
  {
    hide KeyLess, KeySeparates, KeySucceeds, HandleBytes;
    EntriesWith(blocks, w);
    assert AllEntries(blocks + [w]) + [] == AllEntries(blocks) + current;
    forall i | 0 <= i < |index| ensures IndexEntry(index[i], blocks + [w], [], i) {
      assert IndexEntry(index[i], blocks, current, i);
    }
  }

  /** The last index entry. */
  lemma LastIndexed(blocks: seq<Written>, index: seq<KV>, lastKey: seq<Byte>, handle: BlockHandle, successor: seq<Byte>)
    requires Building(blocks, [], index, lastKey, true, handle) && |lastKey| >= 8 && KeySucceeds(successor, lastKey)
    ensures Indexed(index + [KV(successor, HandleBytes(handle))], blocks, []) && |index| + 1 == |blocks|
  {
    hide KeyLess, KeySeparates, KeySucceeds, HandleBytes;
    var index2 := index + [KV(successor, HandleBytes(handle))];
    forall i | 0 <= i < |index2| ensures IndexEntry(index2[i], blocks, [], i) {
      if i < |index| {
        assert IndexEntry(index[i], blocks, [], i);
      }
    }
  }

  // ---------------------------------------------------------------- the filter while building

  ghost predicate KeysIn(entries: seq<KV>, keys: seq<seq<Byte>>) {
    forall j :: 0 <= j < |entries| ==> entries[j].key in keys
  }

  /** The filter has the keys of every block under its offset, and those of the block to come, which
      will be at `offset`. */
  ghost predicate Filtered(blocks: seq<Written>, current: seq<KV>, offset: nat, groups: seq<seq<seq<Byte>>>, pending: seq<seq<Byte>>) {
    && |groups| == offset / FILTER_BASE && KeysIn(current, KeysAt(groups, pending, offset / FILTER_BASE))
    && forall i :: 0 <= i < |blocks| ==> KeysIn(blocks[i].layout.entries, KeysAt(groups, pending, blocks[i].handle.offset / FILTER_BASE))
  }

  lemma FilteredWith(blocks: seq<Written>, current: seq<KV>, offset: nat, groups: seq<seq<seq<Byte>>>, pending: seq<seq<Byte>>, e: KV)
    requires Filtered(blocks, current, offset, groups, pending)
    ensures Filtered(blocks, current + [e], offset, groups, pending + [e.key])
  {
    forall i | 0 <= i < |blocks|
      ensures KeysIn(blocks[i].layout.entries, KeysAt(groups, pending + [e.key], blocks[i].handle.offset / FILTER_BASE))
    {
      assert KeysIn(blocks[i].layout.entries, KeysAt(groups, pending, blocks[i].handle.offset / FILTER_BASE));
    }
  }

  /** The entries go into a block, and the filter builder goes on to the offset behind it. */
  lemma FilteredFlush(blocks: seq<Written>, current: seq<KV>, offset: nat, groups: seq<seq<seq<Byte>>>, pending: seq<seq<Byte>>,
                      w: Written, offset2: nat, groups2: seq<seq<seq<Byte>>>, pending2: seq<seq<Byte>>)
    requires Filtered(blocks, current, offset, groups, pending) && w.layout.entries == current && w.handle.offset == offset
    requires |groups2| == offset2 / FILTER_BASE && Kept(groups, pending, groups2, pending2)
    ensures Filtered(blocks + [w], [], offset2, groups2, pending2)
  {
    forall i | 0 <= i <= |blocks|
      ensures var b := (blocks + [w])[i]; KeysIn(b.layout.entries, KeysAt(groups2, pending2, b.handle.offset / FILTER_BASE))
    {
      if i < |blocks| {
        assert KeysIn(blocks[i].layout.entries, KeysAt(groups, pending, blocks[i].handle.offset / FILTER_BASE));
      }
    }
  }

  // ---------------------------------------------------------------- the finished table

  /** The filter block, if there is one: where it is, its bytes, and their layout. */
  datatype FilterPart = NoFilter | FilterPart(handle: BlockHandle, contents: seq<Byte>, layout: FilterLayout)

  datatype TableLayout = TableLayout(blocks: seq<Written>, index: Written, metaindex: Written, filter: FilterPart)

  /** The keys of every block are in the filter for its offset. */
  ghost predicate Covers(groups: seq<seq<seq<Byte>>>, blocks: seq<Written>) {
    forall i :: 0 <= i < |blocks| && blocks[i].layout.entries != [] ==>
                  var g := blocks[i].handle.offset / FILTER_BASE; g < |groups| && KeysIn(blocks[i].layout.entries, groups[g])
  }

  ghost predicate FilterWritten(file: seq<Byte>, policy: BloomFilterPolicy?, filterKey: seq<Byte>, t: TableLayout) {
    match t.filter
    case NoFilter => policy == null && t.metaindex.layout.entries == []
    case FilterPart(handle, contents, l) =>
      && policy != null && t.metaindex.layout.entries == [KV(filterKey, HandleBytes(handle))]
      && BlockAt(file, handle, contents) && (|contents| < TWO_32 ==> FilterImage(policy, contents, l)) && Covers(l.groups, t.blocks)
  }

  ghost predicate FooterWritten(file: seq<Byte>, t: TableLayout) {
    var a, b := t.metaindex.handle, t.index.handle;
    && |HandleBytes(a)| + |HandleBytes(b)| <= 2 * MAX_HANDLE_LENGTH && |file| >= FOOTER_LENGTH
    && file[|file| - FOOTER_LENGTH..] == FooterBytes(a, b)
  }

  /** `file` is a table that holds `AllEntries(t.blocks)`. */
  ghost predicate TableImage(file: seq<Byte>, policy: BloomFilterPolicy?, filterKey: seq<Byte>, t: TableLayout) {
    && |file| < TWO_64 && AllWritten(file, t.blocks) && Ordered(AllEntries(t.blocks))
    && IsWritten(file, t.index) && Indexed(t.index.layout.entries, t.blocks, []) && |t.index.layout.entries| == |t.blocks|
    && IsWritten(file, t.metaindex) && FilterWritten(file, policy, filterKey, t) && FooterWritten(file, t)
  }
}
