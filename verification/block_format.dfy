/** Prefix-compressed blocks: entries that share a prefix with the one before, restart points, and
    the block builder (table/block_builder.cc). */
module BlockFormat {
  import opened Bytes
  import opened Coding

  datatype KV = KV(key: seq<Byte>, value: seq<Byte>)

  function EntryBytes(shared: nat, e: KV): (r: seq<Byte>)
    requires shared <= |e.key|
    ensures |r| >= 3
  {
    Varint(shared) + Varint(|e.key| - shared) + Varint(|e.value|) + e.key[shared..] + e.value
  }

  /** How long a prefix two keys share. */
  function CommonLength(a: seq<Byte>, b: seq<Byte>): (n: nat)
    ensures n <= |a| && n <= |b| && a[..n] == b[..n]
    ensures n < |a| && n < |b| ==> a[n] != b[n]
  {
    if a == [] || b == [] || a[0] != b[0] then 0 else 1 + CommonLength(a[1..], b[1..])
  }

  lemma {:induction false} CommonLengthIs(a: seq<Byte>, b: seq<Byte>, n: nat)
    requires n <= |a| && n <= |b| && a[..n] == b[..n] && (n < |a| && n < |b| ==> a[n] != b[n])
    ensures CommonLength(a, b) == n
  {
    if n > 0 {
      assert a[0] == a[..n][0] == b[..n][0] == b[0];
      assert a[1..][..n - 1] == a[..n][1..] && b[1..][..n - 1] == b[..n][1..];
      CommonLengthIs(a[1..], b[1..], n - 1);
    }
  }

  /** What a block holds and where: how much of its key each entry shares with the one before, where
      it starts, and which entries are restart points. The last offset is the end of the entries. */
  datatype Layout = Layout(entries: seq<KV>, shared: seq<nat>, offsets: seq<nat>, restarts: seq<nat>)

  ghost predicate Shaped(l: Layout) {
    && |l.shared| == |l.entries| && |l.offsets| == |l.entries| + 1 && l.offsets[0] == 0
    && (forall i :: 0 <= i < |l.entries| ==> l.shared[i] <= |l.entries[i].key|)
    && (forall i :: 0 <= i < |l.entries| ==> ShapedAt(l, i))
  }

  ghost predicate ShapedAt(l: Layout, i: nat)
    requires i < |l.entries| == |l.shared| && i + 1 < |l.offsets|
  {
    && l.shared[i] <= |l.entries[i].key|
    && |l.entries[i].key| < TWO_32 && |l.entries[i].value| < TWO_32
    && l.offsets[i + 1] == l.offsets[i] + |EntryBytes(l.shared[i], l.entries[i])|
  }

  /** The shared part is a prefix of the key before. */
  ghost predicate SharesPrefixes(l: Layout)
    requires Shaped(l)
  {
    forall i :: 0 <= i < |l.entries| ==>
                  if i == 0 then l.shared[i] == 0
                  else l.shared[i] <= |l.entries[i - 1].key| && l.entries[i].key[..l.shared[i]] == l.entries[i - 1].key[..l.shared[i]]
  }

  /** Restart points share nothing; the first is the first entry, or the end of an empty block. */
  ghost predicate Restarts(l: Layout)
    requires Shaped(l)
  {
    && |l.restarts| > 0 && l.restarts[0] == 0
    && (forall j, k :: 0 <= j < k < |l.restarts| ==> l.restarts[j] < l.restarts[k])
    && (forall j :: 0 <= j < |l.restarts| ==> l.restarts[j] <= |l.entries| && (j > 0 ==> l.restarts[j] < |l.entries|))
    && (forall j :: 0 <= j < |l.restarts| && l.restarts[j] < |l.entries| ==> l.shared[l.restarts[j]] == 0)
  }

  /** The entries lie in `data` as laid out. */
  ghost predicate Laid(data: seq<Byte>, l: Layout)
    requires Shaped(l)
  {
    forall i :: 0 <= i < |l.entries| ==> LaidAt(data, l, i)
  }

  ghost predicate LaidAt(data: seq<Byte>, l: Layout, i: nat)
    requires i < |l.entries| == |l.shared| && i + 1 < |l.offsets| && l.shared[i] <= |l.entries[i].key|
  {
    l.offsets[i] <= l.offsets[i + 1] <= |data| && data[l.offsets[i]..l.offsets[i + 1]] == EntryBytes(l.shared[i], l.entries[i])
  }

  function End(l: Layout): nat
    requires |l.offsets| > 0
  {
    l.offsets[|l.offsets| - 1]
  }

  /** A whole block: the entries, the offsets of the restart points, and their number. */
  ghost predicate Image(data: seq<Byte>, l: Layout) {
    && Shaped(l) && SharesPrefixes(l) && Restarts(l) && Laid(data, l)
    && |data| == End(l) + 4 * |l.restarts| + 4
    && (forall j :: 0 <= j < |l.restarts| ==> NumberAt(data, End(l) + 4 * j, l.offsets[l.restarts[j]]))
    && NumberAt(data, End(l) + 4 * |l.restarts|, |l.restarts|)
  }

  ghost predicate NumberAt(data: seq<Byte>, p: nat, n: nat) {
    p + 4 <= |data| && n < TWO_32 && data[p..p + 4] == EncodeFixed32(n)
  }

  // ---------------------------------------------------------------- the builder

  lemma {:induction false} OffsetsGrow(l: Layout, i: nat, j: nat)
    requires Shaped(l) && i <= j <= |l.entries|
    ensures l.offsets[i] + (j - i) <= l.offsets[j]
  {
    hide EntryBytes;
    if i < j {
      OffsetsGrow(l, i, j - 1);
      assert ShapedAt(l, j - 1);
    }
  }

  /** Appending leaves what is laid out in place. */
  lemma StillLaid(data: seq<Byte>, more: seq<Byte>, l: Layout)
    requires Shaped(l) && Laid(data, l)
    ensures Laid(data + more, l)
  {
    hide EntryBytes, LaidAt;
    forall i | 0 <= i < |l.entries| ensures LaidAt(data + more, l, i) {
      assert ShapedAt(l, i);
      StillLaidAt(data, more, l, i);
    }
  }

  lemma StillLaidAt(data: seq<Byte>, more: seq<Byte>, l: Layout, i: nat)
    requires i < |l.entries| == |l.shared| && i + 1 < |l.offsets| && l.shared[i] <= |l.entries[i].key|
    requires LaidAt(data, l, i)
    ensures LaidAt(data + more, l, i)
  {
    hide EntryBytes;
    assert (data + more)[l.offsets[i]..l.offsets[i + 1]] == data[l.offsets[i]..l.offsets[i + 1]];
  }

  function AddTo(l: Layout, shared: nat, e: KV): Layout
    requires |l.offsets| > 0 && shared <= |e.key|
  {
    Layout(l.entries + [e], l.shared + [shared], l.offsets + [End(l) + |EntryBytes(shared, e)|], l.restarts)
  }

  lemma AddShaped(data: seq<Byte>, l: Layout, shared: nat, e: KV)
    requires Shaped(l) && Laid(data, l) && |data| == End(l)
    requires shared <= |e.key| && |e.key| < TWO_32 && |e.value| < TWO_32
    ensures |l.offsets| > 0 && Shaped(AddTo(l, shared, e)) && Laid(data + EntryBytes(shared, e), AddTo(l, shared, e))
  {
    StillLaid(data, EntryBytes(shared, e), l);
    hide EntryBytes, ShapedAt, LaidAt;
    var m := AddTo(l, shared, e);
    var after := data + EntryBytes(shared, e);
    forall i | 0 <= i < |m.entries| ensures ShapedAt(m, i) {
      if i < |l.entries| {
        SameAt(l, m, after, i);
      } else {
        NewAt(data, l, shared, e);
      }
    }
    forall i | 0 <= i < |m.entries| ensures LaidAt(after, m, i) {
      if i < |l.entries| {
        SameAt(l, m, after, i);
      } else {
        NewAt(data, l, shared, e);
      }
    }
  }

  lemma SameAt(l: Layout, m: Layout, data: seq<Byte>, i: nat)
    requires i < |l.entries| == |l.shared| && i + 1 < |l.offsets| && i < |m.entries| == |m.shared| && i + 1 < |m.offsets|
    requires m.entries[i] == l.entries[i] && m.shared[i] == l.shared[i]
    requires m.offsets[i] == l.offsets[i] && m.offsets[i + 1] == l.offsets[i + 1]
    requires ShapedAt(l, i)
    ensures ShapedAt(m, i) && l.shared[i] <= |l.entries[i].key| && (LaidAt(data, l, i) ==> LaidAt(data, m, i))
  {
    hide EntryBytes;
  }

  lemma NewAt(data: seq<Byte>, l: Layout, shared: nat, e: KV)
    requires |l.shared| == |l.entries| && |l.offsets| == |l.entries| + 1 && |data| == End(l)
    requires shared <= |e.key| && |e.key| < TWO_32 && |e.value| < TWO_32
    ensures ShapedAt(AddTo(l, shared, e), |l.entries|) && LaidAt(data + EntryBytes(shared, e), AddTo(l, shared, e), |l.entries|)
  {
    hide EntryBytes;
    assert (data + EntryBytes(shared, e))[|data|..] == EntryBytes(shared, e);
  }

  ghost predicate RestartOffsets(restarts: seq<nat>, l: Layout)
    requires Shaped(l) && Restarts(l)
  {
    |restarts| == |l.restarts| && forall j :: 0 <= j < |restarts| ==> restarts[j] == l.offsets[l.restarts[j]]
  }

  function LastKey(l: Layout): seq<Byte> {
    if l.entries == [] then [] else l.entries[|l.entries| - 1].key
  }

  class BlockBuilder {
    const restartInterval: nat
    var buffer: seq<Byte>
    var restarts: seq<nat>
    var counter: nat
    var lastKey: seq<Byte>
    var finished: bool
    ghost var layout: Layout

    ghost predicate Valid()
      reads this
    {
      && restartInterval >= 1 && counter <= restartInterval
      && Shaped(layout) && SharesPrefixes(layout) && Restarts(layout)
      && RestartOffsets(restarts, layout)
      && lastKey == LastKey(layout)
      && (!finished ==> Laid(buffer, layout) && |buffer| == End(layout))
      && (layout.entries == [] ==> counter == 0)
    }

    constructor (restartInterval: nat)
      requires restartInterval >= 1
      ensures Valid() && layout.entries == [] && buffer == [] && !finished && this.restartInterval == restartInterval
    {
      this.restartInterval := restartInterval;
      buffer, restarts, counter, lastKey, finished := [], [0], 0, [], false;
      layout := Layout([], [], [0], [0]);
    }

    method Reset()
      requires Valid()
      modifies this
      ensures Valid() && layout.entries == [] && buffer == [] && restarts == [0] && !finished
    {
      buffer, restarts, counter, lastKey, finished := [], [0], 0, [], false;
      layout := Layout([], [], [0], [0]);
    }

    /** The size of the block, were it finished now. */
    function CurrentSizeEstimate(): nat
      reads this
    {
      |buffer| + |restarts| * 4 + 4
    }

    predicate Empty()
      reads this
    {
      buffer == []
    }

    lemma EmptyMeans()
      requires Valid() && !finished
      ensures Empty() <==> layout.entries == []
    {
      OffsetsGrow(layout, 0, |layout.entries|);
    }

    /** An entry takes at least three bytes, and no entry is a restart point twice. */
    lemma FewRestarts()
      requires Valid() && !finished
      ensures |restarts| <= |buffer| + 1
    {
      OffsetsGrow(layout, 0, |layout.entries|);
      RestartsInOrder(layout, |layout.restarts| - 1);
    }

    method Add(key: seq<Byte>, value: seq<Byte>)
      requires Valid() && !finished
      requires |key| < TWO_32 && |value| < TWO_32 && |buffer| < TWO_32
      modifies this
      ensures Valid() && !finished
      ensures layout.entries == old(layout).entries + [KV(key, value)]
      ensures |layout.shared| == |layout.entries| && layout.shared[|layout.entries| - 1] <= |key|
      ensures layout.shared == old(layout).shared + [if old(counter) < restartInterval then CommonLength(old(lastKey), key) else 0]
      ensures layout.offsets == old(layout).offsets + [|buffer|]
      ensures layout.restarts == old(layout).restarts + if old(counter) < restartInterval then [] else [|old(layout).entries|]
      ensures lastKey == key && counter == if old(counter) < restartInterval then old(counter) + 1 else 1
      ensures buffer == old(buffer) + EntryBytes(layout.shared[|layout.entries| - 1], KV(key, value))
    {
      hide Laid, Shaped, SharesPrefixes, Restarts, RestartOffsets, EntryBytes, LastKey;
      ghost var before := layout;
      var shared := 0;
      ghost var isRestart := counter >= restartInterval;
      if counter < restartInterval {
        // how much to share with the key before
        var minLength := if |lastKey| < |key| then |lastKey| else |key|;
        while shared < minLength && lastKey[shared] == key[shared]
          invariant 0 <= shared <= minLength && lastKey[..shared] == key[..shared]
        {
          shared := shared + 1;
        }
        CommonLengthIs(lastKey, key, shared);
      } else {
        restarts := restarts + [|buffer|];
        counter := 0;
      }
      assert restarts == old(restarts) + if isRestart then [|buffer|] else [];
      ghost var e := KV(key, value);
      AddShaped(buffer, layout, shared, e);
      AddKeepsRest(layout, shared, e, isRestart);
      AddKeepsOffsets(old(restarts), layout, shared, e, isRestart);
      AppendEntry(shared, key, value);
      layout := Restarted(AddTo(before, shared, e), before, isRestart);
      LaidAnyRestarts(buffer, AddTo(before, shared, e), layout.restarts);
      ShapedSizes(layout);
      lastKey := lastKey[..shared];
      lastKey := lastKey + key[shared..];
      counter := counter + 1;
    }

    /** The three lengths, the rest of the key, and the value. */
    method AppendEntry(shared: nat, key: seq<Byte>, value: seq<Byte>)
      requires shared <= |key| && |key| < TWO_32 && |value| < TWO_32
      modifies this`buffer
      ensures buffer == old(buffer) + EntryBytes(shared, KV(key, value))
    {
      var nonShared := |key| - shared;
      var a := EncodeVarint32(shared);
      var b := EncodeVarint32(nonShared);
      var c := EncodeVarint32(|value|);
      AssociateEntry(buffer, a, b, c, key[shared..], value);
      hide Varint;
      buffer := buffer + a + b + c;
      buffer := buffer + key[shared..];
      buffer := buffer + value;
    }

    method Finish() returns (r: seq<Byte>)
      requires Valid() && !finished && |buffer| < TWO_32 && |restarts| < TWO_32
      modifies this
      ensures Valid() && finished && layout == old(layout)
      ensures r == buffer && Image(r, layout)
    {
      hide Laid, EntryBytes, EncodeFixed32;
      ghost var data := buffer;
      var i := 0;
      while i < |restarts|
        invariant 0 <= i <= |restarts| && !finished
        invariant restarts == old(restarts) && layout == old(layout) && counter == old(counter) && lastKey == old(lastKey)
        invariant |buffer| == |data| + 4 * i && buffer[..|data|] == data
        invariant forall j :: 0 <= j < i ==> NumberAt(buffer, |data| + 4 * j, restarts[j])
      {
        RestartBelow(layout, i);
        ghost var before := buffer;
        buffer := buffer + EncodeFixed32(restarts[i]);
        NumbersStay(before, EncodeFixed32(restarts[i]), |data|, restarts, i);
        i := i + 1;
      }
      ghost var before := buffer;
      buffer := buffer + EncodeFixed32(|restarts|);
      NumbersStay(before, EncodeFixed32(|restarts|), |data|, restarts, i);
      StillLaid(data, buffer[|data|..], layout);
      assert data + buffer[|data|..] == buffer;
      finished := true;
      r := buffer;
    }
  }

  lemma ShapedSizes(l: Layout)
    requires Shaped(l)
    ensures |l.shared| == |l.entries| && (l.entries != [] ==> l.shared[|l.entries| - 1] <= |l.entries[|l.entries| - 1].key|)
  {
  }

  lemma {:induction false} RestartsInOrder(l: Layout, j: nat)
    requires Shaped(l) && Restarts(l) && j < |l.restarts|
    ensures l.restarts[j] >= j
  {
    if j > 0 {
      RestartsInOrder(l, j - 1);
    }
  }

  lemma AssociateEntry(buffer: seq<Byte>, a: seq<Byte>, b: seq<Byte>, c: seq<Byte>, d: seq<Byte>, e: seq<Byte>)
    ensures buffer + a + b + c + d + e == buffer + (a + b + c + d + e)
  {
  }

  lemma LaidAnyRestarts(data: seq<Byte>, l: Layout, restarts: seq<nat>)
    requires Shaped(l) && Laid(data, l)
    ensures Shaped(l.(restarts := restarts)) && Laid(data, l.(restarts := restarts))
  {
    hide EntryBytes, ShapedAt, LaidAt;
    forall i | 0 <= i < |l.entries|
      ensures ShapedAt(l.(restarts := restarts), i) && l.shared[i] <= |l.entries[i].key| && LaidAt(data, l.(restarts := restarts), i)
    {
      SameAt(l, l.(restarts := restarts), data, i);
    }
  }

  function Restarted(m: Layout, l: Layout, isRestart: bool): Layout {
    m.(restarts := l.restarts + if isRestart then [|l.entries|] else [])
  }

  lemma AddKeepsRest(l: Layout, shared: nat, e: KV, isRestart: bool)
    requires Shaped(l) && SharesPrefixes(l) && Restarts(l) && shared <= |e.key| && Shaped(AddTo(l, shared, e))
    requires shared <= |LastKey(l)| && e.key[..shared] == LastKey(l)[..shared]
    requires isRestart ==> shared == 0 && |l.entries| > 0
    ensures var m := Restarted(AddTo(l, shared, e), l, isRestart);
            Shaped(m) && SharesPrefixes(m) && Restarts(m) && LastKey(m) == e.key && m.entries == l.entries + [e] && m.shared[|l.entries|] == shared
  {
    hide EntryBytes, ShapedAt;
    var m := Restarted(AddTo(l, shared, e), l, isRestart);
    LaidAnyRestartsShape(AddTo(l, shared, e), m.restarts);
    LastRestart(l, isRestart);
  }

  lemma LaidAnyRestartsShape(l: Layout, restarts: seq<nat>)
    requires Shaped(l)
    ensures Shaped(l.(restarts := restarts))
    ensures |l.shared| == |l.entries| && |l.offsets| == |l.entries| + 1
  {
    hide EntryBytes, ShapedAt;
    forall i | 0 <= i < |l.entries| ensures ShapedAt(l.(restarts := restarts), i) {
      SameAt(l, l.(restarts := restarts), [], i);
    }
  }

  lemma AddKeepsOffsets(restarts: seq<nat>, l: Layout, shared: nat, e: KV, isRestart: bool)
    requires Shaped(l) && Restarts(l) && RestartOffsets(restarts, l) && shared <= |e.key|
    requires var m := Restarted(AddTo(l, shared, e), l, isRestart); Shaped(m) && Restarts(m)
    ensures RestartOffsets(restarts + if isRestart then [End(l)] else [], Restarted(AddTo(l, shared, e), l, isRestart))
  {
    hide EntryBytes;
  }

  lemma LastRestart(l: Layout, isRestart: bool)
    requires Shaped(l) && Restarts(l) && (isRestart ==> |l.entries| > 0)
    ensures isRestart ==> forall j :: 0 <= j < |l.restarts| ==> l.restarts[j] < |l.entries|
  {
  }

  lemma RestartBelow(l: Layout, i: nat)
    requires Shaped(l) && Restarts(l) && i < |l.restarts|
    ensures l.offsets[l.restarts[i]] <= End(l)
  {
    OffsetsGrow(l, l.restarts[i], |l.entries|);
  }

  lemma NumbersStay(before: seq<Byte>, more: seq<Byte>, base: nat, numbers: seq<nat>, n: nat)
    requires |more| == 4 && |before| == base + 4 * n && n <= |numbers|
    requires forall j :: 0 <= j < n ==> NumberAt(before, base + 4 * j, numbers[j])
    ensures forall j :: 0 <= j < n ==> NumberAt(before + more, base + 4 * j, numbers[j])
    ensures (before + more)[base + 4 * n..base + 4 * n + 4] == more
  {
    hide EncodeFixed32;
    forall j | 0 <= j < n ensures NumberAt(before + more, base + 4 * j, numbers[j]) {
      assert (before + more)[base + 4 * j..base + 4 * j + 4] == before[base + 4 * j..base + 4 * j + 4];
    }
  }
}
