/** Reading a prefix-compressed block (table/block.cc). */
module Blocks {
  import opened Bytes
  import opened Coding
  import opened DbFormat
  import opened BlockFormat

  /** A strict total order on keys, as a comparator gives it. */
  ghost predicate IsOrder(less: (seq<Byte>, seq<Byte>) -> bool) {
    && (forall a :: !less(a, a))
    && (forall a, b, c :: less(a, b) && less(b, c) ==> less(a, c))
    && (forall a, b :: less(a, b) || less(b, a) || a == b)
  }

  ghost predicate InOrder(entries: seq<KV>, less: (seq<Byte>, seq<Byte>) -> bool) {
    forall i, j :: 0 <= i < j < |entries| ==> less(entries[i].key, entries[j].key)
  }

  /** The first entry at or after `target`. */
  function FirstFrom(entries: seq<KV>, target: seq<Byte>, less: (seq<Byte>, seq<Byte>) -> bool): (i: nat)
    ensures i <= |entries|
  {
    if entries == [] || !less(entries[0].key, target) then 0 else 1 + FirstFrom(entries[1..], target, less)
  }

  lemma {:induction false} FirstFromIs(entries: seq<KV>, target: seq<Byte>, less: (seq<Byte>, seq<Byte>) -> bool, n: nat)
    requires n <= |entries|
    requires forall j :: 0 <= j < n ==> less(entries[j].key, target)
    requires n < |entries| ==> !less(entries[n].key, target)
    ensures FirstFrom(entries, target, less) == n
  {
    if n > 0 {
      FirstFromIs(entries[1..], target, less, n - 1);
    }
  }

  // ---------------------------------------------------------------- one entry

  datatype Decoded = Decoded(p: nat, shared: nat, nonShared: nat, valueLength: nat)

  /** Entry `e`, sharing `shared` bytes, lies at `p`. */
  ghost predicate EntryAt(data: seq<Byte>, p: nat, limit: nat, shared: nat, e: KV) {
    && shared <= |e.key| && |e.key| < TWO_32 && |e.value| < TWO_32
    && p + |EntryBytes(shared, e)| <= limit <= |data| && data[p..p + |EntryBytes(shared, e)|] == EntryBytes(shared, e)
  }

  /** What DecodeEntry gives for that entry. */
  function DecodedOf(p: nat, shared: nat, e: KV): Decoded
    requires shared <= |e.key|
  {
    Decoded(p + |Varint(shared)| + |Varint(|e.key| - shared)| + |Varint(|e.value|)|, shared, |e.key| - shared, |e.value|)
  }

  lemma PartsOfEntry(data: seq<Byte>, p: nat, limit: nat, shared: nat, e: KV)
    requires EntryAt(data, p, limit, shared, e)
    ensures VarintAt(data, p, limit, shared)
    ensures VarintAt(data, p + |Varint(shared)|, limit, |e.key| - shared)
    ensures VarintAt(data, p + |Varint(shared)| + |Varint(|e.key| - shared)|, limit, |e.value|)
    ensures var q := DecodedOf(p, shared, e).p;
            && q + (|e.key| - shared) + |e.value| == p + |EntryBytes(shared, e)|
            && data[q..q + (|e.key| - shared)] == e.key[shared..]
            && data[q + (|e.key| - shared)..q + (|e.key| - shared) + |e.value|] == e.value
  {
    hide Varint;
    var a, b, c, d := Varint(shared), Varint(|e.key| - shared), Varint(|e.value|), e.key[shared..];
    Nested(a, b, c, d, e.value);
    Peel(data, p, a, b + (c + (d + e.value)));
    Peel(data, p + |a|, b, c + (d + e.value));
    Peel(data, p + |a| + |b|, c, d + e.value);
    Peel(data, p + |a| + |b| + |c|, d, e.value);
  }

  lemma Nested(a: seq<Byte>, b: seq<Byte>, c: seq<Byte>, d: seq<Byte>, e: seq<Byte>)
    ensures a + b + c + d + e == a + (b + (c + (d + e)))
  {
  }

  /** What lies at `p` is `a` followed by `rest`. */
  lemma Peel(data: seq<Byte>, p: nat, a: seq<Byte>, rest: seq<Byte>)
    requires p + |a + rest| <= |data| && data[p..p + |a + rest|] == a + rest
    ensures data[p..p + |a|] == a && data[p + |a|..p + |a| + |rest|] == rest
  {
    var whole := data[p..p + |a + rest|];
    assert whole[..|a|] == a && whole[|a|..] == rest;
    assert whole[..|a|] == data[p..p + |a|];
    assert whole[|a|..] == data[p + |a|..p + |a| + |rest|];
  }

  /** The fast path: three lengths below 128 take one byte each. */
  lemma ShortVarints(data: seq<Byte>, p: nat, limit: nat, shared: nat, e: KV)
    requires EntryAt(data, p, limit, shared, e)
    ensures limit >= p + 3
    ensures FromByte(data[p]) < 128 && FromByte(data[p + 1]) < 128 && FromByte(data[p + 2]) < 128
            ==> DecodedOf(p, shared, e) == Decoded(p + 3, FromByte(data[p]), FromByte(data[p + 1]), FromByte(data[p + 2]))
  {
    hide FromByte, ToByte, Varint, EntryAt, VarintAt;
    PartsOfEntry(data, p, limit, shared, e);
    VarintStep(data, p, limit, shared);
    VarintStep(data, p + |Varint(shared)|, limit, |e.key| - shared);
    VarintStep(data, p + |Varint(shared)| + |Varint(|e.key| - shared)|, limit, |e.value|);
  }

  method DecodeEntry(data: seq<Byte>, p: nat, limit: nat, ghost shared: nat, ghost e: KV) returns (r: Option<Decoded>)
    requires limit <= |data|
    ensures r.Some? ==> p + 3 <= r.value.p && r.value.p + r.value.nonShared + r.value.valueLength <= limit
    ensures EntryAt(data, p, limit, shared, e) ==> r == Some(DecodedOf(p, shared, e))
  {
    hide EntryAt, DecodedOf, VarintAt, Varint, FromByte;
    ghost var good := EntryAt(data, p, limit, shared, e);
    if good {
      ShortVarints(data, p, limit, shared, e);
      DecodeParts(data, p, limit, shared, e);
    }
    if limit < p + 3 {
      return None;
    }
    var d := Decoded(p + 3, FromByte(data[p]), FromByte(data[p + 1]), FromByte(data[p + 2]));
    if !(d.shared < 128 && d.nonShared < 128 && d.valueLength < 128) {
      var x := GetVarint32(data, p, limit, shared);
      if x == None {
        return None;
      }
      var y := GetVarint32(data, x.value.next, limit, if good then |e.key| - shared else 0);
      if y == None {
        return None;
      }
      var z := GetVarint32(data, y.value.next, limit, |e.value|);
      if z == None {
        return None;
      }
      d := Decoded(z.value.next, x.value.value, y.value.value, z.value.value);
    }
    if limit - d.p < d.nonShared + d.valueLength {
      return None;
    }
    r := Some(d);
  }

  lemma DecodeParts(data: seq<Byte>, p: nat, limit: nat, shared: nat, e: KV)
    requires EntryAt(data, p, limit, shared, e)
    ensures shared <= |e.key| && shared < TWO_32 && |e.key| - shared < TWO_32 && |e.value| < TWO_32
    ensures VarintAt(data, p, limit, shared)
    ensures VarintAt(data, p + |Varint(shared)|, limit, |e.key| - shared)
    ensures VarintAt(data, p + |Varint(shared)| + |Varint(|e.key| - shared)|, limit, |e.value|)
    ensures var d := DecodedOf(p, shared, e);
            && d.p + d.nonShared + d.valueLength <= limit
            && d == Decoded(p + |Varint(shared)| + |Varint(|e.key| - shared)| + |Varint(|e.value|)|, shared, |e.key| - shared, |e.value|)
  {
    hide Varint, VarintAt, EntryBytes;
    PartsOfEntry(data, p, limit, shared, e);
  }

  // ---------------------------------------------------------------- the layout, as the reader meets it

  lemma EntryOf(data: seq<Byte>, l: Layout, i: nat)
    requires Image(data, l) && i < |l.entries|
    ensures |l.shared| == |l.entries| && |l.offsets| == |l.entries| + 1 && End(l) <= |data|
    ensures EntryAt(data, l.offsets[i], End(l), l.shared[i], l.entries[i])
    ensures l.offsets[i + 1] == l.offsets[i] + |EntryBytes(l.shared[i], l.entries[i])|
  {
    OffsetsGrow(l, i + 1, |l.entries|);
    hide EntryBytes, EncodeFixed32;
    assert ShapedAt(l, i) && LaidAt(data, l, i);
  }

  lemma EndsAt(l: Layout, i: nat)
    requires Shaped(l) && i <= |l.entries|
    ensures l.offsets[i] <= End(l) && (i < |l.entries| <==> l.offsets[i] < End(l))
  {
    OffsetsGrow(l, i, |l.entries|);
  }

  lemma RestartAt(data: seq<Byte>, l: Layout, j: nat)
    requires Image(data, l) && j < |l.restarts|
    ensures End(l) + 4 * j + 4 <= |data| && DecodeFixed32(data[End(l) + 4 * j..End(l) + 4 * j + 4]) == l.offsets[l.restarts[j]]
  {
    hide EncodeFixed32, DecodeFixed32;
    var n := l.offsets[l.restarts[j]];
    assert NumberAt(data, End(l) + 4 * j, n);
    Fixed32RoundTrip(n, []);
    assert EncodeFixed32(n) + [] == EncodeFixed32(n);
  }

  lemma CountAt(data: seq<Byte>, l: Layout)
    requires Image(data, l)
    ensures |data| >= 4 && DecodeFixed32(data[|data| - 4..]) == |l.restarts| > 0
    ensures |data| == End(l) + 4 * |l.restarts| + 4
  {
    hide EncodeFixed32, DecodeFixed32;
    Fixed32RoundTrip(|l.restarts|, []);
    assert EncodeFixed32(|l.restarts|) + [] == EncodeFixed32(|l.restarts|);
    assert data[|data| - 4..] == data[End(l) + 4 * |l.restarts|..End(l) + 4 * |l.restarts| + 4];
  }

  // ---------------------------------------------------------------- the iterator

  class Iter {
    const less: (seq<Byte>, seq<Byte>) -> bool
    const data: seq<Byte>
    const restarts: nat  // offset of the restart array
    const numRestarts: nat
    var current: nat  // offset of the current entry; `restarts` or more if there is none
    var restartIndex: nat
    var key: seq<Byte>
    var valueStart: nat
    var valueLength: nat
    var corrupt: bool

    ghost predicate Ok()
      reads this
    {
      && numRestarts > 0 && |data| == restarts + 4 * numRestarts + 4
      && (current < restarts ==> restartIndex < numRestarts && valueStart + valueLength <= restarts)
    }

    /** The block that the iterator reads is `l`. */
    ghost predicate Reads(l: Layout) {
      Image(data, l) && restarts == End(l) && numRestarts == |l.restarts|
    }

    /** The iterator is at entry `i`, or behind the last one. */
    ghost predicate At(l: Layout, i: nat)
      reads this
      requires Shaped(l) && i <= |l.entries|
    {
      if i == |l.entries| then current == restarts
      else
        && current == l.offsets[i] && key == l.entries[i].key
        && valueStart + valueLength == l.offsets[i + 1] <= |data| && data[valueStart..valueStart + valueLength] == l.entries[i].value
        && restartIndex < |l.restarts| && l.restarts[restartIndex] <= i
    }

    /** What ParseNextKey reads next is entry `i`, if there is one. */
    ghost predicate Before(l: Layout, i: nat)
      reads this
      requires Shaped(l) && i <= |l.entries|
    {
      && valueStart + valueLength == l.offsets[i]
      && restartIndex < |l.restarts| && l.restarts[restartIndex] <= i
      && (i < |l.entries| ==> l.shared[i] <= |key| && key[..l.shared[i]] == l.entries[i].key[..l.shared[i]])
    }

    constructor (less: (seq<Byte>, seq<Byte>) -> bool, data: seq<Byte>, restarts: nat, numRestarts: nat)
      requires numRestarts > 0 && |data| == restarts + 4 * numRestarts + 4
      ensures Ok() && !Valid() && current == restarts && !corrupt
      ensures this.less == less && this.data == data && this.restarts == restarts && this.numRestarts == numRestarts
    {
      this.less, this.data, this.restarts, this.numRestarts := less, data, restarts, numRestarts;
      current, restartIndex, key, valueStart, valueLength, corrupt := restarts, numRestarts, [], restarts, 0, false;
    }

    predicate Valid()
      reads this
    {
      current < restarts
    }

    method GetRestartPoint(index: nat, ghost l: Layout) returns (offset: nat)
      requires Ok() && index < numRestarts
      ensures Reads(l) ==> offset == l.offsets[l.restarts[index]]
    {
      if Reads(l) {
        RestartAt(data, l, index);
      }
      offset := DecodeFixed32(data[restarts + 4 * index..restarts + 4 * index + 4]);
    }

    method SeekToRestartPoint(index: nat, ghost l: Layout)
      requires Ok() && index < numRestarts
      modifies this
      ensures restartIndex == index && corrupt == old(corrupt)
      ensures Reads(l) ==> Before(l, l.restarts[index])
    {
      hide EncodeFixed32;
      key := [];
      restartIndex := index;
      valueStart := GetRestartPoint(index, l);
      valueLength := 0;
    }

    method CorruptionError()
      requires numRestarts > 0 && |data| == restarts + 4 * numRestarts + 4
      modifies this
      ensures Ok() && !Valid() && corrupt
    {
      current, restartIndex, corrupt := restarts, numRestarts, true;
      key, valueStart, valueLength := [], restarts, 0;
    }

    method ParseNextKey(ghost l: Layout, ghost i: nat) returns (ok: bool)
      requires numRestarts > 0 && |data| == restarts + 4 * numRestarts + 4 && restartIndex < numRestarts
      modifies this
      ensures Ok() && ok == Valid()
      ensures ok ==> old(valueStart + valueLength) < valueStart + valueLength <= restarts && current == old(valueStart + valueLength)
      ensures Reads(l) && i <= |l.entries| && old(Before(l, i)) ==> ok == (i < |l.entries|) && At(l, i) && corrupt == old(corrupt)
    {
      hide EntryBytes, Image, IsOrder, EntryAt, DecodedOf, Shaped;
      if Reads(l) {
        ImageParts(data, l);
      }
      ghost var good := Reads(l) && i <= |l.entries| && Before(l, i);
      if good {
        EndsAt(l, i);
        if i < |l.entries| {
          EntryOf(data, l, i);
        }
      }
      current := valueStart + valueLength;
      if current >= restarts {
        current := restarts;
        restartIndex := numRestarts;
        return false;
      }
      var d := DecodeEntry(data, current, restarts, if good then l.shared[i] else 0, if good then l.entries[i] else KV([], []));
      if d == None || |key| < d.value.shared {
        if good {
          DecodedParts(data, l, i);
        }
        CorruptionError();
        return false;
      }
      if good {
        DecodedParts(data, l, i);
      }
      key := key[..d.value.shared] + data[d.value.p..d.value.p + d.value.nonShared];
      valueStart := d.value.p + d.value.nonShared;
      valueLength := d.value.valueLength;
      AdvanceRestart(l, i);
      ok := true;
    }

    /** Moves to the last restart point before the current entry, or stays at it. */
    method AdvanceRestart(ghost l: Layout, ghost i: nat)
      requires Ok() && restartIndex < numRestarts
      modifies this`restartIndex
      ensures Ok() && restartIndex < numRestarts
      ensures Reads(l) && i < |l.entries| && current == l.offsets[i] && old(l.restarts[restartIndex]) <= i ==> l.restarts[restartIndex] <= i
    {
      hide EncodeFixed32, EntryBytes;
      ghost var good := Reads(l) && i < |l.entries| && current == l.offsets[i] && l.restarts[restartIndex] <= i;
      while restartIndex + 1 < numRestarts
        invariant Ok() && restartIndex < numRestarts
        invariant good ==> l.restarts[restartIndex] <= i
        decreases numRestarts - restartIndex
      {
        var next := GetRestartPoint(restartIndex + 1, l);
        if next >= current {
          break;
        }
        if good && l.restarts[restartIndex + 1] > i {
          OffsetsGrow(l, i, l.restarts[restartIndex + 1]);
        }
        restartIndex := restartIndex + 1;
      }
    }

    method Next(ghost l: Layout, ghost i: nat)
      requires Ok() && Valid()
      modifies this
      ensures Ok()
      ensures Reads(l) && i < |l.entries| && old(At(l, i)) ==> At(l, i + 1) && corrupt == old(corrupt)
    {
      hide Image, EntryBytes, Shaped, At, Before;
      if Reads(l) {
        ImageParts(data, l);
        if i < |l.entries| && At(l, i) {
          NextFollows(l, i);
        }
      }
      var ok := ParseNextKey(l, i + 1);
    }

    lemma NextFollows(l: Layout, i: nat)
      requires Image(data, l) && i < |l.entries| && At(l, i)
      ensures Before(l, i + 1)
    {
      hide EntryBytes, EncodeFixed32, Laid;
    }

    method SeekToFirst(ghost l: Layout)
      requires Ok()
      modifies this
      ensures Ok()
      ensures Reads(l) ==> At(l, 0) && corrupt == old(corrupt)
    {
      hide EntryBytes, EncodeFixed32, Laid, At, Before;
      SeekToRestartPoint(0, l);
      var ok := ParseNextKey(l, 0);
    }

    method SeekToLast(ghost l: Layout)
      requires Ok()
      modifies this
      ensures Ok()
      ensures Reads(l) ==> At(l, if l.entries == [] then 0 else |l.entries| - 1) && corrupt == old(corrupt)
    {
      hide Image, EntryBytes, Shaped, At, Before;
      SeekToRestartPoint(numRestarts - 1, l);
      ghost var k: nat := 0;
      if Reads(l) {
        ImageParts(data, l);
        k := l.restarts[numRestarts - 1];
        RestartInside(data, l, numRestarts - 1);
      }
      var ok := ParseNextKey(l, k);
      while ok && valueStart + valueLength < restarts
        invariant Ok() && ok == Valid()
        invariant ok ==> valueStart + valueLength <= restarts
        invariant Reads(l) ==> Shaped(l) && k <= |l.entries| && At(l, k) && corrupt == old(corrupt) && ok == (k < |l.entries|)
                               && (l.entries != [] ==> k < |l.entries|)
        decreases ok, restarts - (valueStart + valueLength)
      {
        if Reads(l) {
          NextFollows(l, k);
          StandsAt(l, k);
        }
        k := k + 1;
        ok := ParseNextKey(l, k);
      }
      if Reads(l) && ok {
        StandsAt(l, k);
      }
    }

    /** Where the current entry starts and ends. */
    lemma StandsAt(l: Layout, i: nat)
      requires Image(data, l) && restarts == End(l) && i < |l.entries| && At(l, i)
      ensures |l.offsets| == |l.entries| + 1 && current == l.offsets[i] && valueStart + valueLength == l.offsets[i + 1]
      ensures current < restarts && (l.offsets[i + 1] < restarts <==> i + 1 < |l.entries|)
      ensures restartIndex < |l.restarts| && l.restarts[restartIndex] <= i
    {
      EndsAt(l, i);
      EndsAt(l, i + 1);
      hide EntryBytes, EncodeFixed32, Laid;
    }

    method Prev(ghost l: Layout, ghost i: nat)
      requires Ok() && Valid()
      modifies this
      ensures Ok()
      ensures Reads(l) && i < |l.entries| && old(At(l, i)) ==>
                At(l, if i == 0 then |l.entries| else i - 1) && corrupt == old(corrupt)
    {
      hide Image, EntryBytes, Shaped, Before;
      ghost var good := false;
      if Reads(l) {
        ImageParts(data, l);
        good := i < |l.entries| && At(l, i);
        if good {
          StandsAt(l, i);
        }
      }
      hide At;
      var original := current;
      var point := GetRestartPoint(restartIndex, l);
      while point >= original
        invariant Ok() && restartIndex < numRestarts && corrupt == old(corrupt)
        invariant good ==> l.restarts[restartIndex] <= i && RestartFits(l, restartIndex) && point == l.offsets[l.restarts[restartIndex]]
        decreases restartIndex
      {
        if restartIndex == 0 {
          current := restarts;
          restartIndex := numRestarts;
          if good {
            FirstRestart(data, l, i);
            AtEnd(l);
          }
          return;
        }
        if good {
          RestartsGrow(data, l, restartIndex - 1, restartIndex);
        }
        restartIndex := restartIndex - 1;
        point := GetRestartPoint(restartIndex, l);
      }
      ghost var k: nat := 0;
      if good {
        k := l.restarts[restartIndex];
        OffsetsInOrder(data, l, k, i);
      }
      SeekToRestartPoint(restartIndex, l);
      var ok := ParseNextKey(l, k);
      while ok && valueStart + valueLength < original
        invariant Ok() && ok == Valid()
        invariant ok ==> valueStart + valueLength <= restarts
        invariant good ==> k < i && At(l, k) && corrupt == old(corrupt) && ok
        decreases ok, restarts - (valueStart + valueLength)
      {
        if good {
          NextFollows(l, k);
          StandsAt(l, k);
          OffsetsInOrder(data, l, k + 1, i);
        }
        k := k + 1;
        ok := ParseNextKey(l, k);
      }
      if good {
        StandsAt(l, k);
        OffsetsInOrder(data, l, k + 1, i);
      }
    }

    lemma AtEnd(l: Layout)
      requires Image(data, l) && current == restarts
      ensures Shaped(l) && At(l, |l.entries|)
    {
    }

    /** The last restart point before `target` by binary search, then entry by entry. */
    method Seek(target: seq<Byte>, ghost l: Layout)
      requires Ok()
      modifies this
      ensures Ok()
      ensures Reads(l) && IsOrder(less) && InOrder(l.entries, less) ==>
                At(l, FirstFrom(l.entries, target, less)) && corrupt == old(corrupt)
    {
      hide Image, EntryBytes, Shaped, Before, At, IsOrder, InOrder, EntryAt, DecodedOf;
      ghost var good := Reads(l) && IsOrder(less) && InOrder(l.entries, less);
      if good {
        ImageParts(data, l);
        FirstRestart(data, l, 0);
      }
      var left, right := 0, numRestarts - 1;
      while left < right
        invariant 0 <= left <= right < numRestarts && Ok() && corrupt == old(corrupt)
        invariant good ==> RestartFits(l, left) && AllBelow(l.entries, l.restarts[left], target, less)
        decreases right - left
      {
        var mid := (left + right + 1) / 2;
        var regionOffset := GetRestartPoint(mid, l);
        if good {
          RestartInside(data, l, mid);
          EntryOf(data, l, l.restarts[mid]);
          DecodedParts(data, l, l.restarts[mid]);
        }
        var d := DecodeEntry(data, regionOffset, restarts, 0, if good then l.entries[l.restarts[mid]] else KV([], []));
        if d == None || d.value.shared != 0 {
          CorruptionError();
          return;
        }
        var midKey := data[d.value.p..d.value.p + d.value.nonShared];
        if good {
          assert midKey == l.entries[l.restarts[mid]].key[0..];
          assert midKey == l.entries[l.restarts[mid]].key;
        }
        if less(midKey, target) {
          if good {
            BelowRestart(l.entries, l.restarts[mid], target, less);
          }
          left := mid;
        } else {
          right := mid - 1;
        }
      }
      SeekToRestartPoint(left, l);
      ghost var k: nat := 0;
      if good {
        k := l.restarts[left];
      }
      var ok := ParseNextKey(l, k);
      while ok && less(key, target)
        invariant Ok() && ok == Valid()
        invariant ok ==> valueStart + valueLength <= restarts
        invariant good ==> k <= |l.entries| && At(l, k) && corrupt == old(corrupt) && ok == (k < |l.entries|)
        invariant good ==> AllBelow(l.entries, k, target, less)
        decreases ok, restarts - (valueStart + valueLength)
      {
        if good {
          NextFollows(l, k);
          KeyAt(l, k);
          OneMoreBelow(l.entries, k, target, less);
        }
        k := k + 1;
        ok := ParseNextKey(l, k);
      }
      if good {
        if ok {
          KeyAt(l, k);
        }
        StopsAt(l.entries, target, less, k);
      }
    }

    lemma KeyAt(l: Layout, i: nat)
      requires Shaped(l) && i < |l.entries| && At(l, i)
      ensures key == l.entries[i].key
    {
    }
  }

  /** What NewIterator gives: an error, an iterator over nothing, or one over the entries. */
  datatype Opened = BadBlock | NoEntries | Entries(iter: Iter)

  /** The checks of the Block constructor and of NewIterator. A block that the builder finished passes. */
  method NewIterator(contents: seq<Byte>, less: (seq<Byte>, seq<Byte>) -> bool, ghost l: Layout) returns (r: Opened)
    ensures r.Entries? ==> r.iter.Ok() && !r.iter.Valid() && r.iter.current == r.iter.restarts && fresh(r.iter) && r.iter.less == less
    ensures Image(contents, l) ==> r.Entries? && r.iter.Reads(l) && !r.iter.corrupt
  {
    hide Image, DecodeFixed32;
    if Image(contents, l) {
      CountAt(contents, l);
    }
    if |contents| < 4 {
      return BadBlock;
    }
    var numRestarts := DecodeFixed32(contents[|contents| - 4..]);
    if numRestarts > (|contents| - 4) / 4 {
      return BadBlock;
    }
    if numRestarts == 0 {
      return NoEntries;
    }
    var iter := new Iter(less, contents, |contents| - (1 + numRestarts) * 4, numRestarts);
    r := Entries(iter);
  }

  ghost predicate RestartFits(l: Layout, j: nat) {
    j < |l.restarts| && l.restarts[j] <= |l.entries| && |l.offsets| == |l.entries| + 1
  }

  lemma RestartInside(data: seq<Byte>, l: Layout, j: nat)
    requires Image(data, l) && j < |l.restarts|
    ensures RestartFits(l, j) && (l.entries != [] || j > 0 ==> l.restarts[j] < |l.entries| && l.restarts[j] < |l.shared| && l.shared[l.restarts[j]] == 0)
  {
    hide EntryBytes, EncodeFixed32, Laid;
  }

  lemma FirstRestart(data: seq<Byte>, l: Layout, i: nat)
    requires Image(data, l) && i <= |l.entries|
    ensures RestartFits(l, 0) && l.restarts[0] == 0 && l.offsets[0] == 0 && (l.offsets[i] == 0 ==> i == 0)
  {
    OffsetsGrow(l, 0, i);
    hide EntryBytes, EncodeFixed32, Laid;
  }

  lemma RestartsGrow(data: seq<Byte>, l: Layout, j: nat, k: nat)
    requires Image(data, l) && j < k < |l.restarts|
    ensures RestartFits(l, j) && l.restarts[j] < l.restarts[k]
  {
    hide EntryBytes, EncodeFixed32, Laid;
  }

  lemma OffsetsInOrder(data: seq<Byte>, l: Layout, i: nat, j: nat)
    requires Image(data, l) && i <= |l.entries| && j <= |l.entries|
    ensures |l.offsets| == |l.entries| + 1 && (l.offsets[i] < l.offsets[j] <==> i < j)
  {
    if i < j {
      OffsetsGrow(l, i, j);
    } else {
      OffsetsGrow(l, j, i);
    }
  }

  ghost predicate AllBelow(entries: seq<KV>, n: nat, target: seq<Byte>, less: (seq<Byte>, seq<Byte>) -> bool) {
    n <= |entries| && forall i :: 0 <= i < n ==> less(entries[i].key, target)
  }

  lemma BelowRestart(entries: seq<KV>, n: nat, target: seq<Byte>, less: (seq<Byte>, seq<Byte>) -> bool)
    requires IsOrder(less) && InOrder(entries, less) && n < |entries| && less(entries[n].key, target)
    ensures AllBelow(entries, n, target, less)
  {
  }

  lemma OneMoreBelow(entries: seq<KV>, n: nat, target: seq<Byte>, less: (seq<Byte>, seq<Byte>) -> bool)
    requires AllBelow(entries, n, target, less) && n < |entries| && less(entries[n].key, target)
    ensures AllBelow(entries, n + 1, target, less)
  {
  }

  lemma StopsAt(entries: seq<KV>, target: seq<Byte>, less: (seq<Byte>, seq<Byte>) -> bool, n: nat)
    requires AllBelow(entries, n, target, less) && (n < |entries| ==> !less(entries[n].key, target))
    ensures FirstFrom(entries, target, less) == n
  {
    FirstFromIs(entries, target, less, n);
  }

  lemma ImageParts(data: seq<Byte>, l: Layout)
    requires Image(data, l)
    ensures Shaped(l) && |l.shared| == |l.entries| && |l.offsets| == |l.entries| + 1 && |l.restarts| > 0 && End(l) <= |data|
    ensures forall i :: 0 <= i < |l.entries| ==> l.shared[i] <= |l.entries[i].key|
  {
    hide EntryBytes, EncodeFixed32;
  }

  lemma DecodedParts(data: seq<Byte>, l: Layout, i: nat)
    requires Image(data, l) && i < |l.entries|
    ensures |l.shared| == |l.entries| && |l.offsets| == |l.entries| + 1 && l.shared[i] <= |l.entries[i].key|
    ensures var e := l.entries[i];
            var d := DecodedOf(l.offsets[i], l.shared[i], e);
            && d.shared == l.shared[i] && d.nonShared == |e.key| - d.shared && d.valueLength == |e.value|
            && d.p + d.nonShared + d.valueLength == l.offsets[i + 1] <= |data|
            && data[d.p..d.p + d.nonShared] == e.key[d.shared..]
            && data[d.p + d.nonShared..d.p + d.nonShared + d.valueLength] == e.value
  {
    ImageParts(data, l);
    EntryOf(data, l, i);
    PartsOfEntry(data, l.offsets[i], End(l), l.shared[i], l.entries[i]);
    hide EntryBytes, Image, Varint, VarintAt;
  }
}
