/** Why looking in one block is enough: the short keys of the index lie between the blocks
    (InternalGet of table/table.cc). */
module TableSearch {
  import opened Bytes
  import opened Coding
  import opened DbFormat
  import opened Comparators
  import opened BlockFormat
  import opened Blocks
  import opened InternalKeys
  import opened TableFormat
  import opened TableLayouts

  // ---------------------------------------------------------------- the order

  lemma LessThenLe(a: seq<Byte>, b: seq<Byte>, c: seq<Byte>)
    requires KeyLess(a, b) && !KeyLess(c, b)
    ensures KeyLess(a, c)
  {
    hide KeyLess;
    KeyLessIsTotal(b, c);
    if KeyLess(b, c) {
      KeyLessIsTransitive(a, b, c);
    }
  }

  lemma LeThenLess(a: seq<Byte>, b: seq<Byte>, c: seq<Byte>)
    requires !KeyLess(b, a) && KeyLess(b, c)
    ensures KeyLess(a, c)
  {
    hide KeyLess;
    KeyLessIsTotal(a, b);
    if KeyLess(a, b) {
      KeyLessIsTransitive(a, b, c);
    }
  }

  lemma {:induction false} FirstFromMeans(entries: seq<KV>, target: seq<Byte>, less: (seq<Byte>, seq<Byte>) -> bool)
    ensures forall m :: 0 <= m < FirstFrom(entries, target, less) ==> less(entries[m].key, target)
    ensures FirstFrom(entries, target, less) < |entries| ==> !less(entries[FirstFrom(entries, target, less)].key, target)
  {
    if entries != [] && less(entries[0].key, target) {
      FirstFromMeans(entries[1..], target, less);
    }
  }

  // ---------------------------------------------------------------- entries and blocks

  /** Where the entries of block `i` begin among all entries. */
  function StartOf(blocks: seq<Written>, i: nat): nat
    requires i <= |blocks|
  {
    |AllEntries(blocks[..i])|
  }

  lemma {:induction false} EntriesIn(blocks: seq<Written>, i: nat)
    requires i < |blocks|
    ensures StartOf(blocks, i) + |blocks[i].layout.entries| == StartOf(blocks, i + 1) <= |AllEntries(blocks)|
    ensures AllEntries(blocks)[StartOf(blocks, i)..StartOf(blocks, i + 1)] == blocks[i].layout.entries
  {
    var n := |blocks| - 1;
    if i < n {
      EntriesIn(blocks[..n], i);
      assert blocks[..n][..i] == blocks[..i] && blocks[..n][..i + 1] == blocks[..i + 1];
    } else {
      assert blocks[..i + 1] == blocks;
    }
  }

  lemma EntryIn(blocks: seq<Written>, i: nat, j: nat)
    requires i < |blocks| && j < |blocks[i].layout.entries|
    ensures StartOf(blocks, i) + j < |AllEntries(blocks)| && AllEntries(blocks)[StartOf(blocks, i) + j] == blocks[i].layout.entries[j]
  {
    hide AllEntries;
    EntriesIn(blocks, i);
    assert blocks[i].layout.entries[j] == AllEntries(blocks)[StartOf(blocks, i)..StartOf(blocks, i + 1)][j];
  }

  lemma AllOfThem(blocks: seq<Written>)
    ensures StartOf(blocks, |blocks|) == |AllEntries(blocks)| && StartOf(blocks, 0) == 0
  {
    assert blocks[..|blocks|] == blocks;
  }

  /** A whole index over blocks that are not empty. */
  ghost predicate Whole(index: seq<KV>, blocks: seq<Written>) {
    && Ordered(AllEntries(blocks)) && Indexed(index, blocks, []) && |index| == |blocks|
    && forall i :: 0 <= i < |blocks| ==> blocks[i].layout.entries != []
  }

  function FirstKey(w: Written): seq<Byte> {
    if w.layout.entries == [] then [] else w.layout.entries[0].key
  }

  /** The index key of a block: at or behind its last key, and before the first key of the next block;
      if it is not that last key, its user key lies strictly between the two. */
  lemma IndexKey(index: seq<KV>, blocks: seq<Written>, i: nat)
    requires Whole(index, blocks) && i < |blocks|
    ensures var last, key := LastKey(blocks[i].layout), index[i].key;
            && |last| >= 8 && |key| >= 8 && !KeyLess(key, last) && index[i].value == HandleBytes(blocks[i].handle)
            && (i + 1 < |blocks| ==>
                  && |FirstKey(blocks[i + 1])| >= 8 && KeyLess(key, FirstKey(blocks[i + 1]))
                  && (key == last || Before(UserOf(key), UserOf(FirstKey(blocks[i + 1])))))
  {
    hide KeyLess, Before, HandleBytes, AllEntries;
    assert IndexEntry(index[i], blocks, [], i);
    var last := LastKey(blocks[i].layout);
    if i + 1 < |blocks| {
      var next := FirstKey(blocks[i + 1]);
      EntriesIn(blocks, i);
      EntryIn(blocks, i, |blocks[i].layout.entries| - 1);
      EntryIn(blocks, i + 1, 0);
      SeparatorIsBetween(index[i].key, last, next);
    } else {
      SuccessorIsBehind(index[i].key, last);
    }
  }

  lemma FirstIsAtMostLast(index: seq<KV>, blocks: seq<Written>, i: nat)
    requires Whole(index, blocks) && i < |blocks|
    ensures !KeyLess(LastKey(blocks[i].layout), FirstKey(blocks[i]))
  {
    hide KeyLess, AllEntries;
    var n := |blocks[i].layout.entries|;
    EntryIn(blocks, i, 0);
    EntryIn(blocks, i, n - 1);
    NotBoth(FirstKey(blocks[i]), LastKey(blocks[i].layout));
  }

  lemma NotBoth(a: seq<Byte>, b: seq<Byte>)
    ensures KeyLess(a, b) || a == b ==> !KeyLess(b, a)
  {
    KeyLessIsOrder();
    hide KeyLess;
  }

  lemma {:induction false} IndexAscends(index: seq<KV>, blocks: seq<Written>, i: nat, j: nat)
    requires Whole(index, blocks) && i < j < |blocks|
    ensures KeyLess(index[i].key, index[j].key)
  {
    hide KeyLess, Whole;
    WholeCount(index, blocks);
    IndexKey(index, blocks, j - 1);
    IndexKey(index, blocks, j);
    FirstIsAtMostLast(index, blocks, j);
    LessThenLe(index[j - 1].key, FirstKey(blocks[j]), LastKey(blocks[j].layout));
    LessThenLe(index[j - 1].key, LastKey(blocks[j].layout), index[j].key);
    if i < j - 1 {
      IndexAscends(index, blocks, i, j - 1);
      KeyLessIsTransitive(index[i].key, index[j - 1].key, index[j].key);
    }
  }

  lemma WholeCount(index: seq<KV>, blocks: seq<Written>)
    requires Whole(index, blocks)
    ensures |index| == |blocks|
  {
  }

  lemma IndexInOrder(index: seq<KV>, blocks: seq<Written>)
    requires Whole(index, blocks)
    ensures InOrder(index, KeyLess)
  {
    hide KeyLess, Whole;
    WholeCount(index, blocks);
    forall i, j | 0 <= i < j < |index| ensures KeyLess(index[i].key, index[j].key) {
      IndexAscends(index, blocks, i, j);
    }
  }

  // ---------------------------------------------------------------- the search

  /** What a search may answer: the first entry at or behind the target, and that one for certain if it
      is for the same user key. */
  ghost predicate Answers(entries: seq<KV>, k: seq<Byte>, r: Option<KV>)
    requires |k| >= 8
  {
    var n := FirstFrom(entries, k, KeyLess);
    && (r.Some? ==> n < |entries| && r.value == entries[n])
    && (n < |entries| && |entries[n].key| >= 8 && UserOf(entries[n].key) == UserOf(k) ==> r.Some?)
  }

  /** Everything in the blocks before the one that the index names is before the target. */
  lemma BlocksBefore(index: seq<KV>, blocks: seq<Written>, k: seq<Byte>, b: nat, m: nat)
    requires Whole(index, blocks) && b <= |blocks| && (b > 0 ==> KeyLess(index[b - 1].key, k)) && m < StartOf(blocks, b)
    ensures m < |AllEntries(blocks)| && KeyLess(AllEntries(blocks)[m].key, k)
  {
    hide KeyLess, AllEntries;
    if b == 0 {
      AllOfThem(blocks);
    } else {
      IndexKey(index, blocks, b - 1);
      var n := |blocks[b - 1].layout.entries|;
      EntriesIn(blocks, b - 1);
      EntryIn(blocks, b - 1, n - 1);
      LeThenLess(LastKey(blocks[b - 1].layout), index[b - 1].key, k);
      var all, last := AllEntries(blocks), StartOf(blocks, b) - 1;
      if m < last {
        KeyLessIsTransitive(all[m].key, all[last].key, k);
      }
    }
  }

  /** The target is behind all entries. */
  lemma BehindAll(index: seq<KV>, blocks: seq<Written>, k: seq<Byte>)
    requires Whole(index, blocks) && (blocks != [] ==> KeyLess(index[|blocks| - 1].key, k)) && |k| >= 8
    ensures Answers(AllEntries(blocks), k, None)
  {
    hide KeyLess, AllEntries, Whole, StartOf;
    AllOfThem(blocks);
    WholeCount(index, blocks);
    var all := AllEntries(blocks);
    forall m | 0 <= m < |all| ensures KeyLess(all[m].key, k) {
      BlocksBefore(index, blocks, k, |blocks|, m);
    }
    FirstFromIs(all, k, KeyLess, |all|);
  }

  /** The block that the index names has an entry at or behind the target: it is the first of all. */
  lemma InBlock(index: seq<KV>, blocks: seq<Written>, k: seq<Byte>, b: nat)
    requires Whole(index, blocks) && b < |blocks| && (b > 0 ==> KeyLess(index[b - 1].key, k)) && |k| >= 8
    requires FirstFrom(blocks[b].layout.entries, k, KeyLess) < |blocks[b].layout.entries|
    ensures var j := FirstFrom(blocks[b].layout.entries, k, KeyLess);
            && Answers(AllEntries(blocks), k, Some(blocks[b].layout.entries[j]))
            && FirstFrom(AllEntries(blocks), k, KeyLess) == StartOf(blocks, b) + j
  {
    hide KeyLess, AllEntries, Whole, StartOf;
    var all, es := AllEntries(blocks), blocks[b].layout.entries;
    var j := FirstFrom(es, k, KeyLess);
    FirstFromMeans(es, k, KeyLess);
    var start := StartOf(blocks, b);
    EntryIn(blocks, b, j);
    forall m | 0 <= m < start + j ensures KeyLess(all[m].key, k) {
      if m < start {
        BlocksBefore(index, blocks, k, b, m);
      } else {
        EntryIn(blocks, b, m - start);
      }
    }
    FirstFromIs(all, k, KeyLess, start + j);
  }

  /** It has none: then the target lies between two blocks, and nobody has its user key. */
  lemma BetweenBlocks(index: seq<KV>, blocks: seq<Written>, k: seq<Byte>, b: nat)
    requires Whole(index, blocks) && b < |blocks| && !KeyLess(index[b].key, k) && (b > 0 ==> KeyLess(index[b - 1].key, k)) && |k| >= 8
    requires FirstFrom(blocks[b].layout.entries, k, KeyLess) == |blocks[b].layout.entries|
    ensures Answers(AllEntries(blocks), k, None)
  {
    hide KeyLess, AllEntries, Whole, StartOf, Before;
    var all, es := AllEntries(blocks), blocks[b].layout.entries;
    WholeCount(index, blocks);
    FirstFromMeans(es, k, KeyLess);
    FirstFromMeans(all, k, KeyLess);
    var n := FirstFrom(all, k, KeyLess);
    EntriesIn(blocks, b);
    forall m | 0 <= m < StartOf(blocks, b + 1) ensures m < |all| && KeyLess(all[m].key, k) {
      if m < StartOf(blocks, b) {
        BlocksBefore(index, blocks, k, b, m);
      } else {
        EntryIn(blocks, b, m - StartOf(blocks, b));
      }
    }
    assert n >= StartOf(blocks, b + 1);
    AllOfThem(blocks);
    if n < |all| {
      Elsewhere(index, blocks, k, b, n);
    }
  }

  lemma Elsewhere(index: seq<KV>, blocks: seq<Written>, k: seq<Byte>, b: nat, n: nat)
    requires Whole(index, blocks) && b < |blocks| && !KeyLess(index[b].key, k) && |k| >= 8
    requires FirstFrom(blocks[b].layout.entries, k, KeyLess) == |blocks[b].layout.entries|
    requires StartOf(blocks, b + 1) <= n < |AllEntries(blocks)|
    ensures |AllEntries(blocks)[n].key| >= 8 && UserOf(AllEntries(blocks)[n].key) != UserOf(k)
  {
    hide KeyLess, AllEntries, Before, StartOf;
    var all := AllEntries(blocks);
    AllOfThem(blocks);
    IndexKey(index, blocks, b);
    FirstFromMeans(blocks[b].layout.entries, k, KeyLess);
    var last, first, key := LastKey(blocks[b].layout), FirstKey(blocks[b + 1]), index[b].key;
    EntryIn(blocks, b + 1, 0);
    assert n > StartOf(blocks, b + 1) ==> KeyLess(first, all[n].key);
    assert key != last;
    UsersApart(k, key, first, all[n].key);
  }

  /** A strict step between user keys keeps what is on both sides of it apart. */
  lemma UsersApart(k: seq<Byte>, key: seq<Byte>, first: seq<Byte>, e: seq<Byte>)
    requires |k| >= 8 && |key| >= 8 && |first| >= 8 && |e| >= 8
    requires !KeyLess(key, k) && Before(UserOf(key), UserOf(first)) && (first == e || KeyLess(first, e))
    ensures UserOf(e) != UserOf(k)
  {
    hide Before, DecodeFixed64;
    BeforeIsTotal(UserOf(k), UserOf(key));
    NotBeforeItself(UserOf(k));
    if Before(UserOf(k), UserOf(key)) {
      BeforeIsTransitive(UserOf(k), UserOf(key), UserOf(first));
    }
    if Before(UserOf(first), UserOf(e)) {
      BeforeIsTransitive(UserOf(k), UserOf(first), UserOf(e));
    }
  }
}
