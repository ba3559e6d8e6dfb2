/** An iterator over blocks found through an index (table/two_level_iterator.cc). */
module TwoLevelIterators {
  import opened DbFormat
  import opened Cursors

  function Flatten(blocks: seq<seq<Entry>>): seq<Entry> {
    if blocks == [] then [] else Flatten(blocks[..|blocks| - 1]) + blocks[|blocks| - 1]
  }

  /** Where block `b` starts in the flat sequence. */
  function Offset(blocks: seq<seq<Entry>>, b: nat): nat
    requires b <= |blocks|
  {
    |Flatten(blocks[..b])|
  }

  lemma OffsetStep(blocks: seq<seq<Entry>>, b: nat)
    requires b < |blocks|
    ensures Offset(blocks, b + 1) == Offset(blocks, b) + |blocks[b]|
    ensures Flatten(blocks[..b + 1]) == Flatten(blocks[..b]) + blocks[b]
  {
    assert blocks[..b + 1][..b] == blocks[..b];
  }

  lemma {:induction false} FlatPrefix(blocks: seq<seq<Entry>>, b: nat, n: nat)
    requires b <= n <= |blocks|
    ensures Flatten(blocks[..b]) <= Flatten(blocks[..n])
  {
    if b < n {
      FlatPrefix(blocks, b, n - 1);
      OffsetStep(blocks, n - 1);
    }
  }

  lemma FlatAt(blocks: seq<seq<Entry>>, b: nat, i: nat)
    requires b < |blocks| && i < |blocks[b]|
    ensures Offset(blocks, b) + i < |Flatten(blocks)|
    ensures Flatten(blocks)[Offset(blocks, b) + i] == blocks[b][i]
  {
    OffsetStep(blocks, b);
    FlatPrefix(blocks, b + 1, |blocks|);
    assert blocks[..|blocks|] == blocks;
  }

  /** Every index key is at or after its block and before the blocks behind it. */
  ghost predicate Indexes(index: seq<Entry>, blocks: seq<seq<Entry>>) {
    && |index| == |blocks|
    && SortedTable(index)
    && (forall b, i :: 0 <= b < |blocks| && 0 <= i < |blocks[b]| ==> !Less(index[b].key, blocks[b][i].key))
    && (forall a, b, i :: 0 <= a < b < |blocks| && 0 <= i < |blocks[b]| ==> Less(index[a].key, blocks[b][i].key))
    && (forall b :: 0 <= b < |blocks| ==> SortedTable(blocks[b]))
  }

  class TwoLevelIterator {
    const indexIter: Cursor
    const blocks: seq<seq<Entry>>
    var dataIter: Cursor?
    var dataBlock: nat  // the block that dataIter runs over

    ghost predicate Linked()
      reads this, indexIter, dataIter
    {
      && indexIter.Ok() && Indexes(indexIter.entries, blocks)
      && (dataIter != null ==>
            && dataIter != indexIter
            && dataIter.Ok()
            && dataBlock < |blocks| && dataIter.entries == blocks[dataBlock] && indexIter.pos == dataBlock)
    }

    predicate Valid()
      reads this, dataIter
    {
      dataIter != null && dataIter.Valid()
    }

    /** The place in the flat sequence; its length stands for "not valid". */
    ghost function At(): nat
      reads this, dataIter
      requires dataIter != null ==> dataBlock < |blocks|
    {
      if dataIter == null then |Flatten(blocks)| else Offset(blocks, dataBlock) + dataIter.pos
    }

    ghost predicate Ok()
      reads this, indexIter, dataIter
    {
      Linked() && (dataIter != null ==> dataIter.Valid())
    }

    /** What key() and value() show is the entry at the current place. */
    lemma ShowsEntry()
      requires Ok()
      ensures Valid() <==> At() < |Flatten(blocks)|
      ensures Valid() ==> Flatten(blocks)[At()] == dataIter.entries[dataIter.pos]
    {
      if Valid() {
        FlatAt(blocks, dataBlock, dataIter.pos);
      }
    }

    constructor (indexIter: Cursor, blocks: seq<seq<Entry>>)
      requires indexIter.Ok() && Indexes(indexIter.entries, blocks)
      ensures Ok() && this.indexIter == indexIter && this.blocks == blocks && At() == |Flatten(blocks)|
    {
      this.indexIter := indexIter;
      this.blocks := blocks;
      dataIter := null;
      dataBlock := 0;
    }

    /** Makes the data iterator run over the block that the index is at. */
    method InitDataBlock()
      requires indexIter.Ok() && Indexes(indexIter.entries, blocks)
      requires dataIter != null ==> dataIter != indexIter && dataIter.Ok() && dataBlock < |blocks| && dataIter.entries == blocks[dataBlock]
      modifies this
      ensures Linked()
      ensures dataIter == null <==> !indexIter.Valid()
      ensures dataIter != null ==> fresh(dataIter) || dataIter == old(dataIter)
    {
      if !indexIter.Valid() {
        dataIter := null;
      } else if dataIter != null && dataBlock == indexIter.pos {
        // the data iterator already runs over this block
      } else {
        dataIter := new Cursor(blocks[indexIter.pos]);
        dataBlock := indexIter.pos;
      }
    }

    method SkipEmptyDataBlocksForward()
      requires Linked()
      requires dataIter == null ==> !indexIter.Valid()
      modifies this, indexIter, dataIter
      ensures Ok() && At() == old(At())
      ensures dataIter == null || dataIter == old(dataIter) || fresh(dataIter)
    {
      while dataIter == null || !dataIter.Valid()
        invariant Linked()
        invariant dataIter == null ==> !indexIter.Valid()
        invariant At() == old(At())
        invariant dataIter == null || dataIter == old(dataIter) || fresh(dataIter)
        decreases |indexIter.entries| - indexIter.pos, dataIter != null
      {
        if !indexIter.Valid() {
          dataIter := null;
          return;
        }
        OffsetStep(blocks, dataBlock);
        indexIter.Next();
        InitDataBlock();
        if dataIter != null {
          dataIter.SeekToFirst();
        } else {
          assert blocks[..|blocks|] == blocks;
        }
      }
    }

    /** Comes to rest at the last entry before the block the index is at. */
    method SkipEmptyDataBlocksBackward(ghost end: nat)
      requires Linked()
      requires dataIter == null ==> !indexIter.Valid() && end == 0
      requires dataIter != null ==> if dataIter.Valid() then end == Offset(blocks, dataBlock) + dataIter.pos + 1 else end == Offset(blocks, dataBlock)
      modifies this, indexIter, dataIter
      ensures Ok() && At() == if end == 0 then |Flatten(blocks)| else end - 1
      ensures dataIter == null || dataIter == old(dataIter) || fresh(dataIter)
    {
      while dataIter == null || !dataIter.Valid()
        invariant Linked()
        invariant dataIter == null ==> !indexIter.Valid() && end == 0
        invariant dataIter != null ==> if dataIter.Valid() then end == Offset(blocks, dataBlock) + dataIter.pos + 1 else end == Offset(blocks, dataBlock)
        invariant dataIter == null || dataIter == old(dataIter) || fresh(dataIter)
        decreases if indexIter.Valid() then indexIter.pos + 1 else 0, dataIter != null
      {
        if !indexIter.Valid() {
          dataIter := null;
          return;
        }
        ghost var b := dataBlock;
        if b > 0 {
          OffsetStep(blocks, b - 1);
        }
        indexIter.Prev();
        InitDataBlock();
        if dataIter != null {
          dataIter.SeekToLast();
        }
      }
    }

    method SeekToFirst()
      requires Ok()
      modifies this, indexIter, dataIter
      ensures Ok() && At() == 0
      ensures dataIter == null || dataIter == old(dataIter) || fresh(dataIter)
    {
      indexIter.SeekToFirst();
      InitDataBlock();
      if dataIter != null {
        dataIter.SeekToFirst();
      }
      SkipEmptyDataBlocksForward();
    }

    method SeekToLast()
      requires Ok()
      modifies this, indexIter, dataIter
      ensures Ok() && At() == Last(|Flatten(blocks)|)
      ensures dataIter == null || dataIter == old(dataIter) || fresh(dataIter)
    {
      indexIter.SeekToLast();
      InitDataBlock();
      if dataIter != null {
        dataIter.SeekToLast();
        OffsetStep(blocks, dataBlock);
      }
      assert blocks[..|blocks|] == blocks;
      SkipEmptyDataBlocksBackward(|Flatten(blocks)|);
    }

    method Seek(target: InternalKey)
      requires Ok()
      modifies this, indexIter, dataIter
      ensures Ok() && At() == DbFormat.Seek(Flatten(blocks), target)
      ensures dataIter == null || dataIter == old(dataIter) || fresh(dataIter)
    {
      indexIter.Seek(target);
      InitDataBlock();
      if dataIter != null {
        dataIter.Seek(target);
      }
      SeekThroughIndex(indexIter.entries, blocks, target);
      SkipEmptyDataBlocksForward();
    }

    method Next()
      requires Ok() && Valid()
      modifies this, indexIter, dataIter
      ensures Ok() && At() == old(At()) + 1
      ensures dataIter == null || dataIter == old(dataIter) || fresh(dataIter)
    {
      dataIter.Next();
      SkipEmptyDataBlocksForward();
    }

    method Prev()
      requires Ok() && Valid()
      modifies this, indexIter, dataIter
      ensures Ok() && At() == if old(At()) == 0 then |Flatten(blocks)| else old(At()) - 1
      ensures dataIter == null || dataIter == old(dataIter) || fresh(dataIter)
    {
      ghost var end := At();
      dataIter.Prev();
      SkipEmptyDataBlocksBackward(end);
    }
  }

  /** The first index key at or after the target leads to the block where the target's place is. */
  lemma SeekThroughIndex(index: seq<Entry>, blocks: seq<seq<Entry>>, target: InternalKey)
    requires Indexes(index, blocks)
    ensures var b := DbFormat.Seek(index, target);
            DbFormat.Seek(Flatten(blocks), target)
            == if b == |blocks| then |Flatten(blocks)| else Offset(blocks, b) + DbFormat.Seek(blocks[b], target)
  {
    var b := DbFormat.Seek(index, target);
    var flat := Flatten(blocks);
    var n := if b == |blocks| then |flat| else Offset(blocks, b) + DbFormat.Seek(blocks[b], target);
    BlocksBefore(index, blocks, b, target);
    assert blocks[..|blocks|] == blocks;
    if b < |blocks| {
      OffsetStep(blocks, b);
      FlatPrefix(blocks, b + 1, |blocks|);
      forall j | 0 <= j < n ensures Less(flat[j].key, target) {
        if j < Offset(blocks, b) {
          FlatPrefix(blocks, b, |blocks|);
        } else {
          FlatAt(blocks, b, j - Offset(blocks, b));
        }
      }
      if n < Offset(blocks, b + 1) {
        FlatAt(blocks, b, n - Offset(blocks, b));
      } else {
        BlocksBehind(index, blocks, b, target, |blocks|);
      }
    }
    SeekIs(flat, target, n);
  }

  lemma {:induction false} BlocksBefore(index: seq<Entry>, blocks: seq<seq<Entry>>, b: nat, target: InternalKey)
    requires Indexes(index, blocks) && b <= |blocks|
    requires forall a :: 0 <= a < b ==> Less(index[a].key, target)
    ensures forall j :: 0 <= j < Offset(blocks, b) ==> Less(Flatten(blocks[..b])[j].key, target)
  {
    if b > 0 {
      BlocksBefore(index, blocks, b - 1, target);
      OffsetStep(blocks, b - 1);
    }
  }

  lemma {:induction false} BlocksBehind(index: seq<Entry>, blocks: seq<seq<Entry>>, b: nat, target: InternalKey, n: nat)
    requires Indexes(index, blocks) && b < n <= |blocks|
    requires !Less(index[b].key, target)
    ensures Offset(blocks, b + 1) <= |Flatten(blocks[..n])|
    ensures forall j :: Offset(blocks, b + 1) <= j < |Flatten(blocks[..n])| ==> !Less(Flatten(blocks[..n])[j].key, target)
  {
    if b + 1 < n {
      BlocksBehind(index, blocks, b, target, n - 1);
      OffsetStep(blocks, n - 1);
    }
  }
}
