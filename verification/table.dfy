/** Reading a table file: opening it, and looking up one key (table/table.cc). The block cache is left
    out: a block read from it is the block in the file. */
module Tables {
  import opened Bytes
  import opened Coding
  import opened DbFormat
  import opened Comparators
  import opened BlockFormat
  import opened Blocks
  import opened InternalKeys
  import opened Blooms
  import opened FilterBlocks
  import opened TableFormat
  import opened TableLayouts
  import opened TableSearch

  lemma BeforeIsOrder()
    ensures IsOrder(Before)
  {
    hide Before;
    forall a ensures !Before(a, a) {
      NotBeforeItself(a);
    }
    forall a, b, c | Before(a, b) && Before(b, c) ensures Before(a, c) {
      BeforeIsTransitive(a, b, c);
    }
    forall a, b ensures Before(a, b) || Before(b, a) || a == b {
      BeforeIsTotal(a, b);
    }
  }

  /** The entry under an iterator that is valid. */
  method Current(iter: Iter, ghost l: Layout, ghost i: nat) returns (e: KV)
    requires iter.Ok() && iter.Valid()
    ensures iter.Reads(l) && i < |l.entries| && iter.At(l, i) ==> e == l.entries[i]
  {
    hide Image;
    e := KV(iter.key, iter.data[iter.valueStart..iter.valueStart + iter.valueLength]);
  }

  /** A block searched for `k`: the first entry at or behind it. */
  method SearchBlock(contents: seq<Byte>, less: (seq<Byte>, seq<Byte>) -> bool, k: seq<Byte>, ghost l: Layout)
    returns (ok: bool, e: Option<KV>)
    ensures Image(contents, l) && IsOrder(less) && InOrder(l.entries, less) ==>
              var i := FirstFrom(l.entries, k, less);
              ok && e == if i < |l.entries| then Some(l.entries[i]) else None
  {
    hide Image, IsOrder, InOrder, Iter.Reads, FirstFrom, Iter.At;
    ghost var good := Image(contents, l) && IsOrder(less) && InOrder(l.entries, less);
    ghost var i := FirstFrom(l.entries, k, less);
    var block := NewIterator(contents, less, l);
    match block
    case BadBlock => return false, None;
    case NoEntries => return true, None;
    case Entries(iter) =>
      if good {
        ImageIsShaped(contents, l);
      }
      iter.Seek(k, l);
      if good {
        PlaceIs(iter, l, i);
      }
      e := None;
      if iter.Valid() {
        var current := Current(iter, l, i);
        e := Some(current);
      }
      ok := !iter.corrupt;
  }

  lemma ImageIsShaped(contents: seq<Byte>, l: Layout)
    requires Image(contents, l)
    ensures Shaped(l)
  {
  }

  lemma PlaceIs(iter: Iter, l: Layout, i: nat)
    requires iter.Reads(l) && Shaped(l) && i <= |l.entries| && iter.At(l, i)
    ensures iter.Valid() <==> i < |l.entries|
  {
    EndsAt(l, i);
  }

  class Table {
    const file: seq<Byte>
    const policy: BloomFilterPolicy?
    const filterKey: seq<Byte>
    const indexContents: seq<Byte>
    const filter: FilterBlockReader?

    /** The table that has been opened is `t`. A filter block of 4 GB or more does not count. */
    ghost predicate Reads(t: TableLayout) {
      && TableImage(file, policy, filterKey, t) && indexContents == t.index.contents
      && (filter != null ==>
            && policy != null && t.filter.FilterPart? && filter.policy == policy && filter.data == t.filter.contents
            && (|t.filter.contents| < TWO_32 ==> filter.Reads(t.filter.layout)))
    }

    ghost predicate Ok() {
      filter != null ==> filter.Ok()
    }

    constructor (file: seq<Byte>, policy: BloomFilterPolicy?, filterKey: seq<Byte>, indexContents: seq<Byte>, filter: FilterBlockReader?)
      requires filter != null ==> filter.Ok()
      ensures this.file == file && this.policy == policy && this.filterKey == filterKey && this.indexContents == indexContents
      ensures this.filter == filter && Ok()
    {
      this.file, this.policy, this.filterKey, this.indexContents, this.filter := file, policy, filterKey, indexContents, filter;
    }

    /** The footer, the index block, and the filter if there is one. */
    static method Open(file: seq<Byte>, policy: BloomFilterPolicy?, filterKey: seq<Byte>, paranoidChecks: bool, ghost t: TableLayout)
      returns (table: Table?)
      ensures table != null ==> table.Ok() && table.file == file && table.policy == policy
      ensures TableImage(file, policy, filterKey, t) ==> table != null && table.Reads(t) && (table.filter != null <==> policy != null)
    {
      hide Image, BlockAt, AllWritten, Ordered, Indexed, HandleBytes, FooterBytes, FilterImage, Covers, NumberAt;
      if |file| < FOOTER_LENGTH {
        return null;
      }
      if TableImage(file, policy, filterKey, t) {
        HandlesFit(file, t);
      }
      var footer := DecodeFooter(file[|file| - FOOTER_LENGTH..], Footer(t.metaindex.handle, t.index.handle));
      if footer == None {
        return null;
      }
      var indexContents := ReadBlock(file, paranoidChecks, footer.value.index, t.index.contents);
      if indexContents == None {
        return null;
      }
      var filter := ReadMeta(file, policy, filterKey, paranoidChecks, footer.value, t);
      table := new Table(file, policy, filterKey, indexContents.value, filter);
    }

    /** Errors are not passed on: the table works without its filter. */
    static method ReadMeta(file: seq<Byte>, policy: BloomFilterPolicy?, filterKey: seq<Byte>, paranoidChecks: bool, footer: Footer, ghost t: TableLayout)
      returns (filter: FilterBlockReader?)
      ensures filter != null ==> filter.Ok() && policy != null && filter.policy == policy
      ensures TableImage(file, policy, filterKey, t) && footer.metaindex == t.metaindex.handle ==>
                && (filter != null <==> policy != null)
                && (filter != null ==> t.filter.FilterPart? && filter.data == t.filter.contents
                                       && (|t.filter.contents| < TWO_32 ==> filter.Reads(t.filter.layout)))
    {
      hide Image, BlockAt, AllWritten, Ordered, Indexed, HandleBytes, FooterBytes, FilterImage, Covers, Before, FirstFrom, FilterBlockReader.Reads;
      filter := null;
      if policy == null {
        return;
      }
      ghost var good := TableImage(file, policy, filterKey, t) && footer.metaindex == t.metaindex.handle;
      var contents := ReadBlock(file, paranoidChecks, footer.metaindex, t.metaindex.contents);
      if contents == None {
        return;
      }
      if good {
        OneKey(t.metaindex.layout.entries, filterKey);
      }
      var _, found := SearchBlock(contents.value, Before, filterKey, t.metaindex.layout);
      if found.Some? && found.value.key == filterKey {
        filter := ReadFilter(file, policy, paranoidChecks, found.value.value, t.filter);
      }
    }

    static method ReadFilter(file: seq<Byte>, policy: BloomFilterPolicy, paranoidChecks: bool, handleValue: seq<Byte>, ghost part: FilterPart)
      returns (filter: FilterBlockReader?)
      ensures filter != null ==> filter.Ok() && filter.policy == policy
      ensures part.FilterPart? && |file| < TWO_64 && handleValue == HandleBytes(part.handle) && BlockAt(file, part.handle, part.contents) ==>
                filter != null && filter.data == part.contents && (FilterImage(policy, part.contents, part.layout) ==> filter.Reads(part.layout))
    {
      hide HandleBytes, FilterImage, NumberAt, BlockAt, HandleAt, FilterBlockReader.Reads;
      filter := null;
      ghost var h := if part.FilterPart? then part.handle else BlockHandle(0, 0);
      if handleValue == HandleBytes(h) {
        WholeHandle(handleValue, h);
      }
      if part.FilterPart? && |file| < TWO_64 && BlockAt(file, part.handle, part.contents) {
        BlockFits(file, part.handle, part.contents);
      }
      var handle := DecodeHandle(handleValue, 0, h);
      if handle == None {
        return;
      }
      var block := ReadBlock(file, paranoidChecks, handle.value.handle, if part.FilterPart? then part.contents else []);
      if block == None {
        return;
      }
      filter := new FilterBlockReader(policy, block.value, if part.FilterPart? then part.layout else FilterLayout(0, [], []));
    }

    /** Searches for an internal key, and passes on what it finds, if anything. One block is enough: the
        first entry at or behind `k` is found whenever it has the user key of `k`. */
    method InternalGet(k: seq<Byte>, verifyChecksums: bool, ghost t: TableLayout) returns (ok: bool, r: Option<KV>)
      requires Ok() && |k| >= 8
      ensures Reads(t) && (t.filter.FilterPart? ==> |t.filter.contents| < TWO_32) ==> ok && Answers(AllEntries(t.blocks), k, r)
    {
      hide Image, BlockAt, AllWritten, Ordered, Indexed, HandleBytes, FilterImage, Covers, KeyLess, FirstFrom, Answers, AllEntries, IsOrder, InOrder,
           FooterWritten, FilterWritten, FilterBlockReader.Reads, BloomFilterPolicy.Matches, Piece;
      ghost var good := Reads(t) && (t.filter.FilterPart? ==> |t.filter.contents| < TWO_32);
      ghost var index := t.index.layout.entries;
      ghost var b := FirstFrom(index, k, KeyLess);
      if good {
        IndexLeads(file, policy, filterKey, t, k);
      }
      var entry;
      ok, entry := SearchBlock(indexContents, KeyLess, k, t.index.layout);
      r := None;
      if entry == None {
        return;
      }
      ghost var w := if good then t.blocks[b] else Written(BlockHandle(0, 0), [], t.index.layout);
      if good {
        BlockLeads(file, policy, filterKey, t, b);
        WholeHandle(entry.value.value, w.handle);
      }
      var handle := DecodeHandle(entry.value.value, 0, w.handle);
      if filter != null && handle.Some? {
        var mayMatch := filter.KeyMayMatch(handle.value.handle.offset, k, if t.filter.FilterPart? then t.filter.layout else FilterLayout(0, [], []));
        if !mayMatch {
          if good {
            ReaderReads(filter, t.filter.layout);
            FilteredOut(file, policy, filterKey, t, k, b);
          }
          return;
        }
      }
      if handle == None {
        return false, None;
      }
      var contents := ReadBlock(file, verifyChecksums, handle.value.handle, w.contents);
      if contents == None {
        return false, None;
      }
      var found;
      ok, found := SearchBlock(contents.value, KeyLess, k, w.layout);
      if found.Some? {
        r := found;
      }
      if good {
        BlockAnswers(file, policy, filterKey, t, k, b);
      }
    }
  }

  lemma ReaderReads(filter: FilterBlockReader, l: FilterLayout)
    requires filter.Reads(l)
    ensures FilterImage(filter.policy, filter.data, l)
  {
  }

  lemma WholeHandle(data: seq<Byte>, h: BlockHandle)
    requires data == HandleBytes(h)
    ensures HandleAt(data, 0, h)
  {
    hide Varint;
  }

  lemma BlockFits(file: seq<Byte>, h: BlockHandle, contents: seq<Byte>)
    requires BlockAt(file, h, contents) && |file| < TWO_64
    ensures h.offset < TWO_64 && h.size < TWO_64
  {
  }

  lemma HandlesFit(file: seq<Byte>, t: TableLayout)
    requires IsWritten(file, t.index) && IsWritten(file, t.metaindex) && FooterWritten(file, t) && |file| < TWO_64
    ensures t.index.handle.offset < TWO_64 && t.index.handle.size < TWO_64 && t.metaindex.handle.offset < TWO_64 && t.metaindex.handle.size < TWO_64
    ensures |HandleBytes(t.metaindex.handle)| + |HandleBytes(t.index.handle)| <= 2 * MAX_HANDLE_LENGTH
    ensures |file| >= FOOTER_LENGTH && file[|file| - FOOTER_LENGTH..] == FooterBytes(t.metaindex.handle, t.index.handle)
  {
    hide Image, BlockAt, HandleBytes, FooterBytes;
    BlockFits(file, t.index.handle, t.index.contents);
    BlockFits(file, t.metaindex.handle, t.metaindex.contents);
  }

  lemma OneKey(entries: seq<KV>, key: seq<Byte>)
    requires |entries| == 1 && entries[0].key == key
    ensures IsOrder(Before) && InOrder(entries, Before) && FirstFrom(entries, key, Before) == 0
  {
    BeforeIsOrder();
    NotBeforeItself(key);
  }

  lemma TableIsWhole(file: seq<Byte>, policy: BloomFilterPolicy?, filterKey: seq<Byte>, t: TableLayout)
    requires TableImage(file, policy, filterKey, t)
    ensures Whole(t.index.layout.entries, t.blocks)
  {
    hide IsWritten, Ordered, Indexed, FilterWritten, FooterWritten;
  }

  /** The index leads to a block, or says that the key is behind all of them. */
  lemma IndexLeads(file: seq<Byte>, policy: BloomFilterPolicy?, filterKey: seq<Byte>, t: TableLayout, k: seq<Byte>)
    requires TableImage(file, policy, filterKey, t) && |k| >= 8
    ensures var index := t.index.layout.entries; var b := FirstFrom(index, k, KeyLess);
            && Image(t.index.contents, t.index.layout) && IsOrder(KeyLess) && InOrder(index, KeyLess) && |index| == |t.blocks|
            && (b == |index| ==> Answers(AllEntries(t.blocks), k, None))
            && (b < |index| ==> !KeyLess(index[b].key, k) && (b > 0 ==> KeyLess(index[b - 1].key, k)))
  {
    hide Image, KeyLess, AllEntries, FilterWritten, FooterWritten, BlockAt, Answers, Indexed, Ordered, Whole;
    TableIsWhole(file, policy, filterKey, t);
    KeyLessIsOrder();
    var index := t.index.layout.entries;
    IndexInOrder(index, t.blocks);
    FirstFromMeans(index, k, KeyLess);
    if FirstFrom(index, k, KeyLess) == |index| {
      BehindAll(index, t.blocks, k);
    }
  }

  lemma BlockLeads(file: seq<Byte>, policy: BloomFilterPolicy?, filterKey: seq<Byte>, t: TableLayout, b: nat)
    requires TableImage(file, policy, filterKey, t) && b < |t.blocks|
    ensures var w := t.blocks[b];
            && BlockAt(file, w.handle, w.contents) && Image(w.contents, w.layout) && w.handle.offset < TWO_64 && w.handle.size < TWO_64
            && |t.index.layout.entries| == |t.blocks| && t.index.layout.entries[b].value == HandleBytes(w.handle)
            && InOrder(w.layout.entries, KeyLess)
  {
    hide Image, KeyLess, AllEntries, FilterWritten, FooterWritten, BlockAt, HandleBytes, IndexEntry;
    assert IsWritten(file, t.blocks[b]);
    BlockFits(file, t.blocks[b].handle, t.blocks[b].contents);
    assert IndexEntry(t.index.layout.entries[b], t.blocks, [], b);
    IndexValue(t.index.layout.entries[b], t.blocks, b);
    var es := t.blocks[b].layout.entries;
    forall i, j | 0 <= i < j < |es| ensures KeyLess(es[i].key, es[j].key) {
      EntryIn(t.blocks, b, i);
      EntryIn(t.blocks, b, j);
    }
  }

  lemma IndexValue(index: KV, blocks: seq<Written>, b: nat)
    requires b < |blocks| && IndexEntry(index, blocks, [], b)
    ensures index.value == HandleBytes(blocks[b].handle)
  {
  }

  /** What the block says is the answer for the whole table. */
  lemma BlockAnswers(file: seq<Byte>, policy: BloomFilterPolicy?, filterKey: seq<Byte>, t: TableLayout, k: seq<Byte>, b: nat)
    requires TableImage(file, policy, filterKey, t) && |k| >= 8 && b < |t.index.layout.entries|
    requires !KeyLess(t.index.layout.entries[b].key, k) && (b > 0 ==> KeyLess(t.index.layout.entries[b - 1].key, k))
    ensures |t.index.layout.entries| == |t.blocks|
    ensures var es := t.blocks[b].layout.entries; var j := FirstFrom(es, k, KeyLess);
            Answers(AllEntries(t.blocks), k, if j < |es| then Some(es[j]) else None)
  {
    hide IsWritten, KeyLess, AllEntries, Answers, Indexed, Ordered, FilterWritten, FooterWritten, Whole, AllWritten;
    TableIsWhole(file, policy, filterKey, t);
    var es := t.blocks[b].layout.entries;
    if FirstFrom(es, k, KeyLess) < |es| {
      InBlock(t.index.layout.entries, t.blocks, k, b);
    } else {
      BetweenBlocks(t.index.layout.entries, t.blocks, k, b);
    }
  }

  /** A key that the filter does not match is not in the block. */
  lemma FilteredOut(file: seq<Byte>, policy: BloomFilterPolicy, filterKey: seq<Byte>, t: TableLayout, k: seq<Byte>, b: nat)
    requires TableImage(file, policy, filterKey, t) && |k| >= 8 && b < |t.index.layout.entries|
    requires !KeyLess(t.index.layout.entries[b].key, k) && (b > 0 ==> KeyLess(t.index.layout.entries[b - 1].key, k))
    requires t.filter.FilterPart? && FilterImage(policy, t.filter.contents, t.filter.layout)
    requires |t.index.layout.entries| == |t.blocks|
    requires var g := t.blocks[b].handle.offset / FILTER_BASE;
             !policy.Matches(UserOf(k), Piece(t.filter.contents[..t.filter.layout.base], t.filter.layout.offsets, g))
    ensures Answers(AllEntries(t.blocks), k, None)
  {
    hide IsWritten, KeyLess, AllEntries, Indexed, Ordered, FooterWritten, AllWritten, FirstFrom, BloomFilterPolicy.Matches, Piece, FilterImage, BlockAt;
    BlockAnswers(file, policy, filterKey, t, k, b);
    var es := t.blocks[b].layout.entries;
    var j := FirstFrom(es, k, KeyLess);
    if j < |es| && |es[j].key| >= 8 && UserOf(es[j].key) == UserOf(k) {
      var g := t.blocks[b].handle.offset / FILTER_BASE;
      assert KeysIn(es, t.filter.layout.groups[g]);
      assert es[j].key in t.filter.layout.groups[g];
      NoKeyIsLost(policy, t.filter.contents, t.filter.layout, t.blocks[b].handle.offset, es[j].key);
    }
  }
}
