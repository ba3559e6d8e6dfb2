/** Filter blocks: one filter for the keys of the data blocks that begin in the same 2 KB of the file
    (table/filter_block.cc), made from the user keys (InternalFilterPolicy of db/dbformat.cc). */
module FilterBlocks {
  import opened Bytes
  import opened Coding
  import opened Blooms
  import opened BlockFormat
  import opened InternalKeys

  const FILTER_BASE_LG: nat := 11
  const FILTER_BASE: nat := 2048

  ghost predicate AreKeys(keys: seq<seq<Byte>>) {
    forall i :: 0 <= i < |keys| ==> |keys[i]| >= 8
  }

  function Users(keys: seq<seq<Byte>>): seq<seq<Byte>>
    requires forall i :: 0 <= i < |keys| ==> |keys[i]| >= 8
  {
    seq(|keys|, i requires 0 <= i < |keys| => UserOf(keys[i]))
  }

  /** A filter for `keys`; no filter at all if there are none. */
  ghost predicate Filters(policy: BloomFilterPolicy, filter: seq<Byte>, keys: seq<seq<Byte>>) {
    AreKeys(keys) && if keys == [] then filter == [] else policy.FilterOf(filter, Users(keys))
  }

  lemma FilterMatches(policy: BloomFilterPolicy, filter: seq<Byte>, keys: seq<seq<Byte>>, key: seq<Byte>)
    requires Filters(policy, filter, keys) && key in keys
    ensures |key| >= 8 && policy.Matches(UserOf(key), filter)
  {
    var i :| 0 <= i < |keys| && keys[i] == key;
    policy.NoFalseNegatives(filter, Users(keys), i);
  }

  // ---------------------------------------------------------------- pieces laid end to end

  function PieceEnd(offsets: seq<nat>, end: nat, i: nat): nat {
    if i + 1 < |offsets| then offsets[i + 1] else end
  }

  predicate PieceAt(data: seq<Byte>, offsets: seq<nat>, i: nat) {
    i < |offsets| && offsets[i] <= PieceEnd(offsets, |data|, i) <= |data|
  }

  function Piece(data: seq<Byte>, offsets: seq<nat>, i: nat): seq<Byte> {
    if PieceAt(data, offsets, i) then data[offsets[i]..PieceEnd(offsets, |data|, i)] else []
  }

  /** One more piece at the end leaves the others as they are. */
  lemma PieceAdded(data: seq<Byte>, offsets: seq<nat>, more: seq<Byte>, i: nat)
    requires i <= |offsets| && (i < |offsets| ==> PieceAt(data, offsets, i))
    ensures PieceAt(data + more, offsets + [|data|], i)
    ensures Piece(data + more, offsets + [|data|], i) == if i < |offsets| then Piece(data, offsets, i) else more
  {
    if i < |offsets| {
      var end := PieceEnd(offsets, |data|, i);
      assert (data + more)[offsets[i]..end] == data[offsets[i]..end];
    } else {
      assert (data + more)[|data|..] == more;
    }
  }

  /** The pieces of `result` are the filters of the groups. */
  ghost predicate Grouped(policy: BloomFilterPolicy, result: seq<Byte>, offsets: seq<nat>, groups: seq<seq<seq<Byte>>>) {
    |offsets| == |groups| && forall i :: 0 <= i < |groups| ==> PieceAt(result, offsets, i) && Filters(policy, Piece(result, offsets, i), groups[i])
  }

  lemma GroupAdded(policy: BloomFilterPolicy, result: seq<Byte>, offsets: seq<nat>, groups: seq<seq<seq<Byte>>>, more: seq<Byte>, group: seq<seq<Byte>>)
    requires Grouped(policy, result, offsets, groups) && Filters(policy, more, group)
    ensures Grouped(policy, result + more, offsets + [|result|], groups + [group])
  {
    hide Filters, PieceAt, Piece;
    forall i | 0 <= i <= |groups|
      ensures PieceAt(result + more, offsets + [|result|], i)
      ensures Filters(policy, Piece(result + more, offsets + [|result|], i), (groups + [group])[i])
    {
      if i < |groups| {
        assert PieceAt(result, offsets, i) && Filters(policy, Piece(result, offsets, i), groups[i]);
      }
      PieceAdded(result, offsets, more, i);
    }
  }

  // ---------------------------------------------------------------- the builder

  /** The keys that filter `i` is made of, or will be made of: `pending` are those of the next one. */
  ghost function KeysAt(groups: seq<seq<seq<Byte>>>, pending: seq<seq<Byte>>, i: nat): seq<seq<Byte>> {
    if i < |groups| then groups[i] else if i == |groups| then pending else []
  }

  /** No key is lost from one state to the next. */
  ghost predicate Kept(groups: seq<seq<seq<Byte>>>, pending: seq<seq<Byte>>, groups2: seq<seq<seq<Byte>>>, pending2: seq<seq<Byte>>) {
    forall i: nat, key :: key in KeysAt(groups, pending, i) ==> key in KeysAt(groups2, pending2, i)
  }

  class FilterBlockBuilder {
    const policy: BloomFilterPolicy
    var keys: seq<Byte>  // the keys of the filter to come, end to end
    var start: seq<nat>
    var result: seq<Byte>
    var filterOffsets: seq<nat>
    ghost var groups: seq<seq<seq<Byte>>>
    ghost var pending: seq<seq<Byte>>

    ghost predicate Valid()
      reads this
    {
      && 1 <= policy.k <= 30 && Grouped(policy, result, filterOffsets, groups) && AreKeys(pending)
      && |start| == |pending| && (forall i :: 0 <= i < |start| ==> PieceAt(keys, start, i) && Piece(keys, start, i) == pending[i])
    }

    constructor (policy: BloomFilterPolicy)
      requires 1 <= policy.k <= 30
      ensures Valid() && this.policy == policy && groups == [] && pending == []
    {
      this.policy := policy;
      keys, start, result, filterOffsets, groups, pending := [], [], [], [], [], [];
    }

    /** A data block begins; the ones before it began at a smaller offset or the same. */
    method StartBlock(blockOffset: nat)
      requires Valid() && blockOffset / FILTER_BASE >= |groups|
      modifies this
      ensures Valid() && |groups| == blockOffset / FILTER_BASE && Kept(old(groups), old(pending), groups, pending)
    {
      var filterIndex := blockOffset / FILTER_BASE;
      while filterIndex > |filterOffsets|
        invariant Valid() && |groups| <= filterIndex && Kept(old(groups), old(pending), groups, pending)
        decreases filterIndex - |groups|
      {
        GenerateFilter();
      }
    }

    method AddKey(key: seq<Byte>)
      requires Valid() && |key| >= 8
      modifies this`keys, this`start, this`pending
      ensures Valid() && pending == old(pending) + [key]
    {
      hide Grouped, PieceAt, Piece;
      forall i | 0 <= i <= |start| ensures PieceAt(keys + key, start + [|keys|], i) && Piece(keys + key, start + [|keys|], i) == (pending + [key])[i] {
        PieceAdded(keys, start, key, i);
      }
      start := start + [|keys|];
      keys := keys + key;
      pending := pending + [key];
    }

    method GenerateFilter()
      requires Valid()
      modifies this
      ensures Valid() && groups == old(groups) + [old(pending)] && pending == []
    {
      hide Grouped, BloomFilterPolicy.FilterOf, BloomFilterPolicy.Marked;
      var numKeys := |start|;
      if numKeys == 0 {
        GroupAdded(policy, result, filterOffsets, groups, [], []);
        NothingAdded(result);
        filterOffsets := filterOffsets + [|result|];
        groups := groups + [[]];
        return;
      }
      var tmpKeys: seq<seq<Byte>> := [];
      var i := 0;
      while i < numKeys
        invariant 0 <= i <= numKeys == |start| && tmpKeys == Users(pending)[..i]
        modifies {}
      {
        var limit := if i + 1 < numKeys then start[i + 1] else |keys|;
        assert PieceAt(keys, start, i);
        var key := keys[start[i]..limit];
        assert key == Piece(keys, start, i) == pending[i];
        tmpKeys := tmpKeys + [UserOf(key)];
        i := i + 1;
      }
      assert tmpKeys == Users(pending);
      var r := policy.CreateFilter(tmpKeys, result);
      GroupAdded(policy, result, filterOffsets, groups, r[|result|..], pending);
      Rejoined(result, r);
      filterOffsets := filterOffsets + [|result|];
      result := r;
      groups := groups + [pending];
      keys, start, pending := [], [], [];
    }

    /** The filters, then their offsets, then the offset of the offsets, then the base. All offsets are
        written in 32 bits. */
    method Finish() returns (r: seq<Byte>, ghost l: FilterLayout)
      requires Valid()
      modifies this
      ensures Valid() && pending == [] && l.groups == groups && (|r| < TWO_32 ==> FilterImage(policy, r, l))
      ensures forall i: nat, key :: key in KeysAt(old(groups), old(pending), i) ==> i < |groups| && key in groups[i]
    {
      hide Grouped, EncodeFixed32, NumberAt, ToByte, PieceAt, Piece, AreKeys;
      if start != [] {
        GenerateFilter();
      }
      var arrayOffset := |result|;
      l := FilterLayout(arrayOffset, filterOffsets, groups);
      ghost var numbers := Words(filterOffsets + [arrayOffset]);
      r := result;
      var i := 0;
      while i < |filterOffsets|
        invariant 0 <= i <= |filterOffsets| && |r| == arrayOffset + 4 * i && r[..arrayOffset] == result
        invariant NumbersAt(r, arrayOffset, numbers, i)
        modifies {}
      {
        NumberAppended(r, arrayOffset, numbers, i);
        r := r + EncodeFixed32(filterOffsets[i] % TWO_32);
        i := i + 1;
      }
      NumberAppended(r, arrayOffset, numbers, i);
      r := r + EncodeFixed32(arrayOffset % TWO_32);
      LastByte(r, ToByte(FILTER_BASE_LG), arrayOffset, numbers);
      r := r + [ToByte(FILTER_BASE_LG)];
      if |r| < TWO_32 {
        OffsetsBelow(policy, result, filterOffsets, groups);
        SmallWords(filterOffsets + [arrayOffset]);
      }
    }
  }

  /** What is written of each number. */
  function Words(numbers: seq<nat>): (r: seq<nat>)
    ensures |r| == |numbers| && forall i :: 0 <= i < |r| ==> r[i] == numbers[i] % TWO_32
  {
    seq(|numbers|, i requires 0 <= i < |numbers| => numbers[i] % TWO_32)
  }

  lemma SmallWords(numbers: seq<nat>)
    requires forall i :: 0 <= i < |numbers| ==> numbers[i] < TWO_32
    ensures Words(numbers) == numbers
  {
  }

  /** The first `n` of the numbers lie in `data`, from `base` on. */
  ghost predicate NumbersAt(data: seq<Byte>, base: nat, numbers: seq<nat>, n: nat)
    requires n <= |numbers|
  {
    forall i :: 0 <= i < n ==> NumberAt(data, base + 4 * i, numbers[i])
  }

  lemma NothingAdded(s: seq<Byte>)
    ensures s + [] == s
  {
  }

  lemma Rejoined(a: seq<Byte>, b: seq<Byte>)
    requires |a| <= |b| && b[..|a|] == a
    ensures a + b[|a|..] == b
  {
  }

  /** One more number of four bytes at the end. */
  lemma NumberAppended(data: seq<Byte>, base: nat, numbers: seq<nat>, i: nat)
    requires |data| == base + 4 * i && i < |numbers| && numbers[i] < TWO_32 && NumbersAt(data, base, numbers, i)
    ensures (data + EncodeFixed32(numbers[i]))[..base] == data[..base]
    ensures NumbersAt(data + EncodeFixed32(numbers[i]), base, numbers, i + 1)
  {
    hide EncodeFixed32;
    var more := data + EncodeFixed32(numbers[i]);
    forall j | 0 <= j <= i ensures NumberAt(more, base + 4 * j, numbers[j]) {
      if j < i {
        assert NumberAt(data, base + 4 * j, numbers[j]);
        assert more[base + 4 * j..base + 4 * j + 4] == data[base + 4 * j..base + 4 * j + 4];
      } else {
        assert more[base + 4 * j..base + 4 * j + 4] == EncodeFixed32(numbers[i]);
      }
    }
  }

  lemma LastByte(data: seq<Byte>, b: Byte, base: nat, numbers: seq<nat>)
    requires |data| == base + 4 * |numbers| && NumbersAt(data, base, numbers, |numbers|)
    ensures (data + [b])[..base] == data[..base] && NumbersAt(data + [b], base, numbers, |numbers|)
  {
    hide EncodeFixed32;
    forall j | 0 <= j < |numbers| ensures NumberAt(data + [b], base + 4 * j, numbers[j]) {
      assert NumberAt(data, base + 4 * j, numbers[j]);
      assert (data + [b])[base + 4 * j..base + 4 * j + 4] == data[base + 4 * j..base + 4 * j + 4];
    }
  }

  lemma OffsetsBelow(policy: BloomFilterPolicy, result: seq<Byte>, offsets: seq<nat>, groups: seq<seq<seq<Byte>>>)
    requires Grouped(policy, result, offsets, groups)
    ensures forall i :: 0 <= i < |offsets| ==> offsets[i] <= |result|
  {
    hide Filters;
    forall i | 0 <= i < |offsets| ensures offsets[i] <= |result| {
      assert PieceAt(result, offsets, i);
    }
  }

  // ---------------------------------------------------------------- the finished block

  /** Where the offsets begin, the offsets of the filters, and the keys of each filter. */
  datatype FilterLayout = FilterLayout(base: nat, offsets: seq<nat>, groups: seq<seq<seq<Byte>>>)

  /** `data` is a filter block as laid out. */
  ghost predicate FilterImage(policy: BloomFilterPolicy, data: seq<Byte>, l: FilterLayout) {
    && |data| == l.base + 4 * |l.offsets| + 5 && |data| < TWO_32 && Grouped(policy, data[..l.base], l.offsets, l.groups)
    && NumbersAt(data, l.base, l.offsets + [l.base], |l.offsets| + 1) && data[|data| - 1] == ToByte(FILTER_BASE_LG)
  }

  lemma NumberThere(data: seq<Byte>, base: nat, numbers: seq<nat>, i: nat)
    requires i < |numbers| && NumbersAt(data, base, numbers, |numbers|)
    ensures base + 4 * i + 4 <= |data| && DecodeFixed32(data[base + 4 * i..]) == numbers[i]
  {
    hide EncodeFixed32, DecodeFixed32;
    assert NumberAt(data, base + 4 * i, numbers[i]);
    var p := base + 4 * i;
    Fixed32RoundTrip(numbers[i], data[p + 4..]);
    assert data[p..] == data[p..p + 4] + data[p + 4..];
  }

  function Pow2(n: nat): (r: nat)
    ensures r > 0
  {
    if n == 0 then 1 else 2 * Pow2(n - 1)
  }

  class FilterBlockReader {
    const policy: BloomFilterPolicy
    const data: seq<Byte>
    const offset: nat  // where the array of offsets begins
    const num: nat
    const baseLg: nat

    ghost predicate Ok() {
      num > 0 ==> offset + 4 * num + 5 <= |data|
    }

    /** The block that is read is `l`. */
    ghost predicate Reads(l: FilterLayout) {
      FilterImage(policy, data, l) && offset == l.base && num == |l.offsets| && baseLg == FILTER_BASE_LG
    }

    constructor (policy: BloomFilterPolicy, contents: seq<Byte>, ghost l: FilterLayout)
      ensures Ok() && this.policy == policy && data == contents && (FilterImage(policy, contents, l) ==> Reads(l))
    {
      hide FilterImage, DecodeFixed32, FromByte;
      if FilterImage(policy, contents, l) {
        LastWord(policy, contents, l);
      }
      this.policy, data := policy, contents;
      var n := |contents|;
      offset, num, baseLg := 0, 0, 0;
      if n >= 5 {
        baseLg := FromByte(contents[n - 1]);
        var lastWord := DecodeFixed32(contents[n - 5..]);
        if lastWord <= n - 5 {
          offset := lastWord;
          num := (n - 5 - lastWord) / 4;
        }
      }
    }

    /** Whether a key of the data block at `blockOffset` may have the user key of `key`; errors are
        treated as matches. */
    method KeyMayMatch(blockOffset: nat, key: seq<Byte>, ghost l: FilterLayout) returns (r: bool)
      requires Ok() && |key| >= 8
      ensures Reads(l) ==> r == (blockOffset / FILTER_BASE < |l.offsets| ==>
                                  policy.Matches(UserOf(key), Piece(data[..l.base], l.offsets, blockOffset / FILTER_BASE)))
    {
      hide EncodeFixed32, DecodeFixed32, FilterImage, BloomFilterPolicy.Matches, Pow2, Piece;
      BaseIsPower();
      var index := blockOffset / Pow2(baseLg);
      r := true;
      if index < num {
        if Reads(l) {
          FilterThere(policy, data, l, index);
        }
        var start := DecodeFixed32(data[offset + index * 4..]);
        var limit := DecodeFixed32(data[offset + index * 4 + 4..]);
        if start <= limit && limit <= offset {
          var filter := data[start..limit];
          r := policy.KeyMayMatch(UserOf(key), filter);
        } else if start == limit {
          r := false;
        }
      }
    }
  }

  lemma LastWord(policy: BloomFilterPolicy, data: seq<Byte>, l: FilterLayout)
    requires FilterImage(policy, data, l)
    ensures |data| >= 5 && FromByte(data[|data| - 1]) == FILTER_BASE_LG
    ensures DecodeFixed32(data[|data| - 5..]) == l.base <= |data| - 5 && (|data| - 5 - l.base) / 4 == |l.offsets|
  {
    hide EncodeFixed32, DecodeFixed32, Grouped, NumberAt, FromByte, ToByte;
    NumberThere(data, l.base, l.offsets + [l.base], |l.offsets|);
  }

  lemma BaseIsPower()
    ensures Pow2(FILTER_BASE_LG) == FILTER_BASE
  {
    assert Pow2(1) == 2 && Pow2(2) == 4 && Pow2(4) == 16 && Pow2(6) == 64 && Pow2(8) == 256 && Pow2(10) == 1024;
  }

  lemma FilterThere(policy: BloomFilterPolicy, data: seq<Byte>, l: FilterLayout, i: nat)
    requires FilterImage(policy, data, l) && i < |l.offsets|
    ensures l.base + 4 * i + 8 <= |data|
    ensures var start, limit := DecodeFixed32(data[l.base + i * 4..]), DecodeFixed32(data[l.base + i * 4 + 4..]);
            start <= limit <= l.base <= |data| && data[start..limit] == Piece(data[..l.base], l.offsets, i)
  {
    hide EncodeFixed32, DecodeFixed32, Filters, NumbersAt;
    NumberThere(data, l.base, l.offsets + [l.base], i);
    NumberThere(data, l.base, l.offsets + [l.base], i + 1);
    assert PieceAt(data[..l.base], l.offsets, i);
    var start, limit := l.offsets[i], PieceEnd(l.offsets, l.base, i);
    assert data[..l.base][start..limit] == data[start..limit];
  }

  /** No key is lost: in the block that the builder finished, every key added after a data block began
      at `blockOffset`, and before the next began, matches there. */
  lemma NoKeyIsLost(policy: BloomFilterPolicy, data: seq<Byte>, l: FilterLayout, blockOffset: nat, key: seq<Byte>)
    requires FilterImage(policy, data, l) && blockOffset / FILTER_BASE < |l.groups| && key in l.groups[blockOffset / FILTER_BASE]
    ensures |key| >= 8 && policy.Matches(UserOf(key), Piece(data[..l.base], l.offsets, blockOffset / FILTER_BASE))
  {
    hide Filters, BloomFilterPolicy.Matches, NumbersAt;
    var i := blockOffset / FILTER_BASE;
    assert Filters(policy, Piece(data[..l.base], l.offsets, i), l.groups[i]);
    FilterMatches(policy, Piece(data[..l.base], l.offsets, i), l.groups[i], key);
  }
}
