/** Reading whole messages: the field iterator, the fields of a message in any order, and the round
    trip with the encoder (nanopb/pb_common.c, nanopb/pb_decode.c). */
module PbMessages {
  import opened Bytes
  import opened Coding
  import opened DbFormat
  import opened PbFormat
  import opened PbDecode

  // ---------------------------------------------------------------- the field iterator

  function RequiredBefore(fields: seq<Field>, n: nat): nat
    requires n <= |fields|
  {
    if n == 0 then 0 else RequiredBefore(fields, n - 1) + if fields[n - 1].htype.Required? then 1 else 0
  }

  class FieldIter {
    const fields: seq<Field>
    var pos: nat
    var requiredFieldIndex: nat

    ghost predicate Valid()
      reads this
    {
      && pos <= |fields| && (fields != [] ==> pos < |fields|)
      && requiredFieldIndex == RequiredBefore(fields, pos)
    }

    lemma IndexIs()
      requires Valid()
      ensures pos <= |fields| && requiredFieldIndex == RequiredBefore(fields, pos) && (fields != [] ==> pos < |fields|)
    {
    }

    /** pb_field_iter_begin. */
    constructor (fields: seq<Field>)
      ensures Valid() && this.fields == fields && pos == 0
    {
      this.fields := fields;
      pos, requiredFieldIndex := 0, 0;
    }

    /** pb_field_iter_next: false when it wraps around. */
    method Next() returns (more: bool)
      requires Valid()
      modifies this
      ensures Valid() && more == (old(pos) + 1 < |fields|)
      ensures pos == if more then old(pos) + 1 else 0
    {
      if fields == [] {
        return false;
      }
      var prev := fields[pos];
      pos := pos + 1;
      if pos == |fields| {
        pos, requiredFieldIndex := 0, 0;
        return false;
      }
      if prev.htype.Required? {
        requiredFieldIndex := requiredFieldIndex + 1;
      }
      return true;
    }

    /** pb_field_iter_find: goes round once, from where it is. */
    method Find(tag: nat) returns (found: bool)
      requires Valid()
      modifies this
      ensures Valid()
      ensures if found then pos < |fields| && fields[pos].tag == tag else forall i :: 0 <= i < |fields| ==> fields[i].tag != tag
    {
      if fields == [] {
        return false;
      }
      var start := pos;
      ghost var wrapped := false;
      while true
        invariant Valid() && (wrapped ==> pos < start) && (!wrapped ==> start <= pos)
        invariant forall i :: 0 <= i < |fields| && (if wrapped then start <= i || i < pos else start <= i < pos) ==> fields[i].tag != tag
        decreases if wrapped then 0 else 1, |fields| - pos
      {
        if fields[pos].tag == tag {
          return true;
        }
        var more := Next();
        wrapped := wrapped || !more;
        if pos == start {
          return false;
        }
      }
    }
  }

  // ---------------------------------------------------------------- how far a message has been read

  /** A repeated field of which `j` elements have come in. */
  ghost function PartSlot(f: Field, s: Slot, j: nat): Slot
    requires TypedSlot(f, s) && s.Many? && j <= |s.values|
  {
    var n := if f.htype.counted then j else f.arraySize;
    Many(seq(n, i requires 0 <= i < n => if i < j then NormValue(f, s.values[i]) else DefaultValue(f)))
  }

  /** `k` fields have been read, and `j` elements of the next one. */
  ghost predicate Position(fields: seq<Field>, src: seq<Slot>, k: nat, j: nat)
    requires TypedSlots(fields, src)
  {
    k <= |fields| && (j > 0 ==> k < |fields| && src[k].Many? && !Packable(fields[k].ltype) && j <= |src[k].values|)
  }

  ghost function PartialSlots(fields: seq<Field>, src: seq<Slot>, k: nat, j: nat): (r: seq<Slot>)
    requires TypedSlots(fields, src) && Position(fields, src, k, j)
    ensures |r| == |fields|
  {
    seq(|fields|, i requires 0 <= i < |fields| =>
      if i < k then NormSlot(fields[i], src[i]) else if i == k && j > 0 then PartSlot(fields[i], src[i], j) else DefaultSlot(fields[i]))
  }

  /** What is still to come. */
  ghost function RestFrom(fields: seq<Field>, src: seq<Slot>, k: nat, j: nat): seq<Byte>
    requires TypedSlots(fields, src) && Position(fields, src, k, j)
  {
    if j == 0 then MessageFrom(fields, src, k) else
      assert TypedSlot(fields[k], src[k]);
      TaggedFrom(fields[k], src[k].values, j) + MessageFrom(fields, src, k + 1)
  }

  /** A tag comes next. */
  ghost predicate AtItem(fields: seq<Field>, src: seq<Slot>, k: nat, j: nat)
    requires TypedSlots(fields, src)
  {
    && Position(fields, src, k, j) && k < |fields| && Present(fields[k], src[k])
    && (src[k].Many? && !Packable(fields[k].ltype) ==> j < |src[k].values|)
  }

  lemma WholePart(f: Field, s: Slot)
    requires TypedSlot(f, s) && s.Many?
    ensures PartSlot(f, s, |s.values|) == NormSlot(f, s)
    ensures PartSlot(f, s, 0) == DefaultSlot(f)
  {
    hide NormValue, DefaultValue, TypedValue;
  }

  /** Fields that are not written are passed over. */
  lemma {:induction false} SkipAbsent(fields: seq<Field>, src: seq<Slot>, k: nat, j: nat) returns (k2: nat, j2: nat)
    requires TypedSlots(fields, src) && Position(fields, src, k, j)
    ensures Position(fields, src, k2, j2) && k2 >= k
    ensures RestFrom(fields, src, k2, j2) == RestFrom(fields, src, k, j)
    ensures PartialSlots(fields, src, k2, j2) == PartialSlots(fields, src, k, j)
    ensures k2 == |fields| || AtItem(fields, src, k2, j2)
    ensures forall i :: k <= i < k2 ==> !fields[i].htype.Required?
    ensures if k2 == k then j2 == j else j2 == 0
    ensures j > 0 && k2 > k ==> j == |src[k].values|
    decreases |fields| - k
  {
    hide NormSlot, DefaultSlot, PartSlot, FieldBytes, TaggedFrom, TypedValue, PartialSlots, RestFrom;
    k2, j2 := k, j;
    if k == |fields| || AtItem(fields, src, k, j) {
      return;
    }
    PassField(fields, src, k, j);
    k2, j2 := SkipAbsent(fields, src, k + 1, 0);
  }

  lemma PassField(fields: seq<Field>, src: seq<Slot>, k: nat, j: nat)
    requires TypedSlots(fields, src) && Position(fields, src, k, j) && k < |fields| && !AtItem(fields, src, k, j)
    ensures RestFrom(fields, src, k + 1, 0) == RestFrom(fields, src, k, j)
    ensures PartialSlots(fields, src, k + 1, 0) == PartialSlots(fields, src, k, j)
    ensures !fields[k].htype.Required? && (j > 0 ==> j == |src[k].values|)
  {
    hide NormSlot, DefaultSlot, PartSlot, FieldBytes, TaggedFrom, TypedValue;
    assert TypedSlot(fields[k], src[k]);
    if j > 0 {
      AllTagged(fields[k], src[k]);
      WholePart(fields[k], src[k]);
    } else {
      NotWritten(fields[k], src[k]);
    }
  }

  lemma AllTagged(f: Field, s: Slot)
    requires TypedSlot(f, s) && s.Many?
    ensures TaggedFrom(f, s.values, |s.values|) == []
    ensures !f.htype.Required?
  {
  }

  lemma NotWritten(f: Field, s: Slot)
    requires TypedSlot(f, s)
    requires !Present(f, s) || (s.Many? && !Packable(f.ltype) && s.values == [])
    ensures FieldBytes(f, s) == [] && NormSlot(f, s) == DefaultSlot(f) && !f.htype.Required?
  {
    if !Present(f, s) {
      AbsentIsDefault(f, s);
    }
  }

  // ---------------------------------------------------------------- substreams

  /** pb_make_string_substream. */
  method MakeSubstream(stream: IStream, ghost bytes: seq<Byte>) returns (ok: bool, sub: IStream)
    requires stream.Valid()
    modifies stream
    ensures stream.Valid() && sub.Valid() && fresh(sub) && sub.data == stream.data && stream.left <= old(stream.left)
    ensures stream.pos + stream.left <= old(stream.pos + stream.left)
    ensures ok ==> sub.pos == stream.pos && stream.pos + sub.left + stream.left == old(stream.pos + stream.left) && stream.left < old(stream.left)
    ensures old(stream.Holds(LengthDelimited(bytes))) && |bytes| < TWO_32 ==>
              && ok && sub.left == |bytes| && sub.Holds(bytes)
              && old(stream.left) == stream.left + |LengthDelimited(bytes)|
  {
    hide Varint;
    ghost var good := stream.Holds(LengthDelimited(bytes)) && |bytes| < TWO_32;
    if good {
      LengthThenBytes(stream, bytes);
    }
    var size, eof;
    ok, size, eof := DecodeVarint32(stream, if good then |bytes| else 0);
    if !ok || stream.left < size {
      sub := new IStream(stream.data, stream.pos, 0);
      return false, sub;
    }
    sub := new IStream(stream.data, stream.pos, size);
    stream.left := stream.left - size;
  }

  /** pb_close_string_substream. */
  method CloseSubstream(stream: IStream, sub: IStream)
    requires stream != sub && stream.data == sub.data && sub.pos + sub.left + stream.left <= |stream.data|
    modifies stream, sub
    ensures stream.Valid() && stream.left == old(stream.left) && stream.pos == old(sub.pos + sub.left)
  {
    if sub.left > 0 {
      var ok, skipped := sub.Read(sub.left);
    }
    stream.pos := sub.pos;
  }

  // ---------------------------------------------------------------- fields

  /** What follows the tag of the next item of a field. */
  ghost function ItemPayload(f: Field, s: Slot, j: nat): seq<Byte>
    requires TypedSlot(f, s) && (s.Many? ==> Packable(f.ltype) || j < |s.values|)
  {
    if s.One? then ValueBytes(f, s.value)
    else if Packable(f.ltype) then LengthDelimited(PackedFrom(f, s.values, 0))
    else ValueBytes(f, s.values[j])
  }

  /** What the field holds before and after that item. */
  ghost function BeforeItem(f: Field, s: Slot, j: nat): Slot
    requires TypedSlot(f, s) && (s.Many? ==> j <= |s.values|)
  {
    if s.One? then DefaultSlot(f) else PartSlot(f, s, j)
  }

  ghost function AfterItem(f: Field, s: Slot, j: nat): Slot
    requires TypedSlot(f, s) && (s.Many? ==> Packable(f.ltype) || j < |s.values|)
  {
    if s.One? || Packable(f.ltype) then NormSlot(f, s) else PartSlot(f, s, j + 1)
  }

  ghost function ItemsAfter(f: Field, s: Slot, j: nat): nat
    requires TypedSlot(f, s)
  {
    if s.One? then 0 else if Packable(f.ltype) then |s.values| else j + 1
  }

  /** How many elements of a repeated field have come in. */
  function SizeOf(f: Field, s: Slot, fixedSize: nat): nat
    requires f.htype.Repeated? && s.Many?
  {
    if f.htype.counted then |s.values| else fixedSize
  }

  function WithElement(f: Field, s: Slot, size: nat, v: Value): Slot
    requires f.htype.Repeated? && s.Many? && (f.htype.counted || size < |s.values|)
  {
    Many(if f.htype.counted then s.values + [v] else s.values[size := v])
  }

  lemma ElementTyped(f: Field, s: Slot, size: nat, v: Value)
    requires TypedSlot(f, s) && f.htype.Repeated? && TypedValue(f, v) && size < f.arraySize
    ensures (f.htype.counted || size < |s.values|) && TypedSlot(f, WithElement(f, s, size, v))
    ensures f.htype.counted ==> |WithElement(f, s, size, v).values| == |s.values| + 1
  {
    hide TypedValue;
  }

  lemma ElementAdds(f: Field, s: Slot, j: nat)
    requires TypedSlot(f, s) && f.htype.Repeated? && j < |s.values| <= f.arraySize
    ensures SizeOf(f, PartSlot(f, s, j), j) == j && (f.htype.counted || j < |PartSlot(f, s, j).values|)
    ensures WithElement(f, PartSlot(f, s, j), j, NormValue(f, s.values[j])) == PartSlot(f, s, j + 1)
  {
    hide TypedValue, NormValue, DefaultValue;
  }

  /** The next item of field `f`, of which `j` elements have come in, follows in the stream. */
  ghost predicate ItemComes(stream: IStream, f: Field, slot: Slot, wireType: nat, fixedSize: nat, s: Slot, j: nat)
    reads stream
  {
    && TypedSlot(f, s) && Present(f, s) && SendableSlot(f, s)
    && (s.Many? ==> if Packable(f.ltype) then j == 0 else j < |s.values|)
    && slot == BeforeItem(f, s, j) && (s.Many? && !f.htype.counted ==> fixedSize == j)
    && wireType == (if s.Many? && Packable(f.ltype) then WT_STRING else WireType(f.ltype))
    && stream.Holds(ItemPayload(f, s, j))
  }

  lemma PackedTyped(f: Field, s: Slot)
    requires TypedSlot(f, s) && f.htype.Repeated?
    ensures s.Many? && (!f.htype.counted ==> |s.values| == f.arraySize) && TypedValues(f, s.values)
  {
    hide TypedValue;
  }

  lemma ElementBounds(f: Field, s: Slot)
    requires TypedSlot(f, s) && s.Many? && SendableSlot(f, s)
    ensures |s.values| <= f.arraySize || s.values == []
    ensures f.htype.Repeated? && TypedValues(f, s.values) && forall i :: 0 <= i < |s.values| ==> Sendable(f, s.values[i])
  {
    hide TypedValue, Sendable, ValueFits;
  }

  lemma PackedStep(sub: IStream, f: Field, vs: seq<Value>, i: nat)
    requires sub.Valid() && TypedValues(f, vs) && i <= |vs|
    requires sub.Holds(PackedFrom(f, vs, i)) && sub.left == |PackedFrom(f, vs, i)|
    ensures sub.left > 0 ==>
              && i < |vs| && sub.Holds(ValueBytes(f, vs[i])) && sub.left == |ValueBytes(f, vs[i])| + |PackedFrom(f, vs, i + 1)|
              && sub.data[sub.pos + |ValueBytes(f, vs[i])|..sub.pos + |ValueBytes(f, vs[i])| + |PackedFrom(f, vs, i + 1)|] == PackedFrom(f, vs, i + 1)
  {
    hide ValueBytes, TypedValue;
    if i < |vs| {
      HoldsBoth(sub.data, sub.pos, ValueBytes(f, vs[i]), PackedFrom(f, vs, i + 1));
    }
  }

  lemma PackedDone(f: Field, vs: seq<Value>, i: nat)
    requires TypedValues(f, vs) && i <= |vs| && |vs| <= f.arraySize
    requires |PackedFrom(f, vs, i)| == 0 || i >= f.arraySize
    ensures i == |vs| && PackedFrom(f, vs, i) == []
  {
    if i < |vs| {
      SomeBytes(f, vs[i]);
    }
  }

  /** Every value takes at least one byte. */
  lemma SomeBytes(f: Field, v: Value)
    requires TypedValue(f, v)
    ensures |ValueBytes(f, v)| > 0
  {
    hide EncodeFixed32;
  }

  lemma PackedNorm(f: Field, v: Value)
    requires TypedValue(f, v) && Packable(f.ltype)
    ensures NormValue(f, v) == v
  {
  }

  /** The elements of a packed array, from the substream that holds them. */
  method DecodePacked(sub: IStream, f: Field, slot: Slot, size0: nat, ghost s: Slot, ghost good: bool) returns (ok: bool, r: Slot, size: nat)
    requires sub.Valid() && Packable(f.ltype) && f.htype.Repeated? && TypedSlot(f, slot) && (f.htype.counted ==> size0 == |slot.values|)
    requires good ==> TypedSlot(f, s) && SendableSlot(f, s) && s.values != [] && slot == PartSlot(f, s, 0) && size0 == 0
    requires good ==> sub.Holds(PackedFrom(f, s.values, 0)) && sub.left == |PackedFrom(f, s.values, 0)|
    modifies sub
    ensures sub.Valid() && sub.pos - old(sub.pos) == old(sub.left) - sub.left >= 0 && TypedSlot(f, r)
    ensures good ==> ok && sub.left == 0 && r == NormSlot(f, s) && size == |s.values|
  {
    hide TypedValue, PartSlot, TypedSlot, WithElement, SendableSlot, PackedFrom, NormSlot, NormValue, ValueBytes;
    r, size := slot, size0;
    PackedTyped(f, slot);
    if good {
      PackedTyped(f, s);
      ElementBounds(f, s);
    }
    while sub.left > 0 && size < f.arraySize
      invariant sub.Valid() && sub.pos - old(sub.pos) == old(sub.left) - sub.left >= 0
      invariant TypedSlot(f, r) && r.Many? && (f.htype.counted ==> size == |r.values|)
      invariant good ==> size <= |s.values| && TypedValues(f, s.values)
      invariant good ==> r == PartSlot(f, s, size)
      invariant good ==> sub.Holds(PackedFrom(f, s.values, size))
      invariant good ==> sub.left == |PackedFrom(f, s.values, size)|
      decreases f.arraySize - size
    {
      if good {
        PackedStep(sub, f, s.values, size);
      }
      var n;
      ok, n := DecodeNumber(sub, f, if good then s.values[size] else Num(0));
      if !ok {
        return;
      }
      ElementTyped(f, r, size, Num(n));
      if good {
        ElementAdds(f, s, size);
        PackedNorm(f, s.values[size]);
      }
      r := WithElement(f, r, size, Num(n));
      PackedTyped(f, r);
      size := size + 1;
    }
    ok := true;
    if good {
      PackedDone(f, s.values, size);
      WholePart(f, s);
    }
  }

  /** decode_static_field. */
  method DecodeField(stream: IStream, f: Field, slot: Slot, wireType: nat, fixedSize: nat, ghost s: Slot, ghost j: nat)
    returns (ok: bool, r: Slot, size: nat)
    requires stream.Valid() && TypedSlot(f, slot) && DescribedField(f)
    modifies stream
    ensures stream.Valid() && stream.left <= old(stream.left) && stream.pos + stream.left <= old(stream.pos + stream.left)
    ensures ok ==> stream.pos + stream.left == old(stream.pos + stream.left) && TypedSlot(f, r)
    ensures old(ItemComes(stream, f, slot, wireType, fixedSize, s, j)) ==>
              && ok && r == AfterItem(f, s, j) && (s.Many? && !f.htype.counted ==> size == ItemsAfter(f, s, j))
              && old(stream.left) == stream.left + |ItemPayload(f, s, j)|
    decreases f, 1
  {
    hide TypedValue, IStream.Holds, PartSlot, NormSlot, NormValue, WithElement, Sendable, PackedFrom, ValueBytes, DescribedField;
    ghost var good := ItemComes(stream, f, slot, wireType, fixedSize, s, j);
    size := fixedSize;
    r := slot;
    if !f.htype.Repeated? {
      var init := if f.htype.OneOf? && f.ltype.Submessage? && !slot.has then DefaultValue(f) else slot.value;
      if f.htype.OneOf? {
        DefaultIsTyped(f);
      }
      var v;
      ok, v := DecodeValue(stream, f, init, if good then s.value else slot.value);
      r := One(true, v);
      if good {
        OneIsNorm(f, s);
      }
      return;
    }
    PackedTyped(f, slot);
    if good {
      PackedTyped(f, s);
      ElementBounds(f, s);
    }
    if wireType == WT_STRING && Packable(f.ltype) {
      var sub;
      ok, sub := MakeSubstream(stream, if good then PackedFrom(f, s.values, 0) else []);
      if !ok {
        return;
      }
      if good {
        WholePart(f, s);
      }
      var status;
      status, r, size := DecodePacked(sub, f, slot, SizeOf(f, slot, fixedSize), s, good);
      if sub.left != 0 {
        return false, r, size;
      }
      CloseSubstream(stream, sub);
      ok := status;
    } else {
      if good {
        ElementAdds(f, s, j);
      }
      size := SizeOf(f, slot, fixedSize);
      if size >= f.arraySize {
        return false, r, size;
      }
      DefaultIsTyped(f);
      var v;
      ok, v := DecodeValue(stream, f, DefaultValue(f), if good then s.values[j] else DefaultValue(f));
      if ok {
        ElementTyped(f, slot, size, v);
        r := WithElement(f, slot, size, v);
      }
      size := size + 1;
    }
  }

  lemma OneIsNorm(f: Field, s: Slot)
    requires TypedSlot(f, s) && s.One? && Present(f, s) && SendableSlot(f, s)
    ensures NormSlot(f, s) == One(true, NormValue(f, s.value)) && Sendable(f, s.value) && TypedValue(f, s.value)
    ensures DefaultSlot(f) == One(DefaultSlot(f).has, DefaultValue(f))
  {
    hide TypedValue, NormValue, Sendable;
  }

  /** The decoder of one value: pb_dec_submessage, or one of the scalar decoders. */
  method DecodeValue(stream: IStream, f: Field, init: Value, ghost src: Value) returns (ok: bool, v: Value)
    requires stream.Valid() && TypedValue(f, init) && DescribedField(f)
    modifies stream
    ensures stream.Valid() && stream.left <= old(stream.left) && stream.pos + stream.left <= old(stream.pos + stream.left)
    ensures ok ==> stream.pos + stream.left == old(stream.pos + stream.left) && TypedValue(f, v) && stream.left < old(stream.left)
    ensures TypedValue(f, src) && Sendable(f, src) && old(stream.Holds(ValueBytes(f, src))) && (f.ltype.Submessage? ==> init == DefaultValue(f)) ==>
              ok && v == NormValue(f, src) && old(stream.left) == stream.left + |ValueBytes(f, src)|
    decreases f, 0
  {
    hide IStream.Holds, Varint, EncodeFixed32, TypedSlots, Norm, MessageFrom;
    v := init;
    if Packable(f.ltype) {
      var n;
      ok, n := DecodeNumber(stream, f, src);
      v := Num(n);
    } else if f.ltype.Submessage? {
      ghost var good := TypedValue(f, src) && Sendable(f, src) && stream.Holds(ValueBytes(f, src)) && init == DefaultValue(f);
      if good {
        SubmessageSize(f, src);
      }
      var sub;
      ok, sub := MakeSubstream(stream, if good then MessageFrom(f.sub, src.slots, 0) else []);
      if !ok {
        return;
      }
      var status, slots := DecodeMessage(sub, f.sub, init.slots, if good then src.slots else [], good);
      CloseSubstream(stream, sub);
      ok := status;
      v := Msg(slots);
    } else {
      var bytes;
      ok, bytes := DecodeBlob(stream, f, src);
      v := Blob(bytes);
    }
  }

  lemma SubmessageSize(f: Field, src: Value)
    requires f.ltype.Submessage? && TypedValue(f, src) && Sendable(f, src)
    ensures |MessageFrom(f.sub, src.slots, 0)| < TWO_32 && SendableSlots(f.sub, src.slots)
  {
    hide Varint, MessageFrom;
  }

  /** The message `src` is what the stream holds, and nothing else. */
  ghost predicate MessageComes(stream: IStream, fields: seq<Field>, init: seq<Slot>, src: seq<Slot>)
    reads stream
  {
    && TypedSlots(fields, src) && SendableSlots(fields, src) && init == Defaults(fields)
    && stream.Holds(MessageFrom(fields, src, 0)) && stream.left == |MessageFrom(fields, src, 0)|
  }

  /** pb_decode_noinit. */
  method DecodeMessage(stream: IStream, fields: seq<Field>, init: seq<Slot>, ghost src: seq<Slot>, ghost good: bool) returns (ok: bool, slots: seq<Slot>)
    requires stream.Valid() && TypedSlots(fields, init) && Described(fields)
    requires good ==> MessageComes(stream, fields, init, src)
    modifies stream
    ensures stream.Valid() && stream.left <= old(stream.left) && stream.pos + stream.left <= old(stream.pos + stream.left)
    ensures ok ==> stream.pos + stream.left == old(stream.pos + stream.left) && TypedSlots(fields, slots)
    ensures good ==> ok && slots == Norm(fields, src) && stream.left == 0
    decreases fields, 0
  {
    hide FieldBytes, TypedSlot, TypedSlots, DescribedField, Described, SendableSlot, SendableSlots, NormSlot, DefaultSlot, MessageFrom, RestFrom,
         PartialSlots, IStream.Holds, TagBytes, AtItem, Position, ItemComes, RequiredBefore, FieldIter.Valid, Defaults, Norm, ClearOthers,
         AfterItem, ItemPayload, RequiredSeen, FixedOk, NextPosition, ItemsAfter, Packable, ItemWire, SameUnion, Present;
    var iter := new FieldIter(fields);
    var seen: set<nat> := {};
    var fixedCountField: Option<nat> := None;
    var fixedCountSize: nat := 0;
    slots := init;
    ghost var k: nat, j: nat := 0, 0;
    if good {
      AtTheStart(fields, src);
    }
    TypedCount(fields, init);
    while stream.left > 0
      invariant stream.Valid() && stream.left <= old(stream.left) && stream.pos + stream.left == old(stream.pos + stream.left)
      invariant iter.Valid() && fresh(iter) && iter.fields == fields
      invariant TypedSlots(fields, slots) && |slots| == |fields|
      invariant fixedCountField.Some? ==> fixedCountField.value < |fields|
      invariant good ==> TypedSlots(fields, src) && Position(fields, src, k, j) && slots == PartialSlots(fields, src, k, j)
      invariant good ==> stream.Holds(RestFrom(fields, src, k, j)) && stream.left == |RestFrom(fields, src, k, j)|
      invariant good ==> RequiredSeen(fields, k, seen) && FixedOk(fields, src, k, j, fixedCountField, fixedCountSize)
      decreases stream.left
    {
      if good {
        ghost var k0, j0 := k, j;
        k, j := SkipAbsent(fields, src, k, j);
        StillSeen(fields, src, k0, j0, k, j, seen, fixedCountField, fixedCountSize);
        NextItem(stream, fields, src, k, j);
      }
      ghost var p := stream.pos;
      var wireType, tag, eof;
      ok, wireType, tag, eof := DecodeTag(stream, if good then fields[k].tag else 0, if good then ItemWire(fields[k], src[k]) else 0);
      if !ok {
        if eof {
          break;
        }
        return;
      }
      var found := iter.Find(tag);
      if good {
        HasTag(fields, src, k, tag);
      }
      if !found {
        ok := SkipField(stream, wireType);
        if !ok {
          return;
        }
        continue;
      }
      iter.IndexIs();
      var i := iter.pos;
      var f := fields[i];
      if good {
        SameField(fields, src, i, k);
        FixedReady(fields, src, k, j, fixedCountField, fixedCountSize);
      }
      if f.htype.Repeated? && !f.htype.counted {
        if fixedCountField != Some(i) {
          if fixedCountField.Some? && fixedCountSize != fields[fixedCountField.value].arraySize {
            return false, slots;
          }
          fixedCountField, fixedCountSize := Some(i), 0;
        }
      }
      if f.htype.Required? && iter.requiredFieldIndex < PB_MAX_REQUIRED_FIELDS {
        if good {
          SeenGrows(fields, k, seen, iter.requiredFieldIndex);
        }
        seen := seen + {iter.requiredFieldIndex};
      }
      var r, size;
      TypedAt(fields, slots, i);
      if good {
        ItemIsNext(stream, fields, src, k, j, p, slots, wireType, fixedCountSize);
      }
      ok, r, size := DecodeField(stream, f, slots[i], wireType, fixedCountSize, if good then src[k] else slots[i], j);
      if !ok {
        return;
      }
      if f.htype.Repeated? && !f.htype.counted {
        fixedCountSize := size;
      }
      TypedUpdate(fields, slots, i, r);
      if good {
        AfterNext(stream, fields, src, k, j, p, slots, seen, fixedCountField, fixedCountSize);
        FixedMoves(fields, src, k, j, fixedCountField, fixedCountSize);
        ghost var next := NextPosition(fields, src, k, j);
        k, j := next.0, next.1;
      }
      slots := ClearOthers(fields, slots, i)[i := r];
    }
    if good {
      ghost var k0, j0 := k, j;
      k, j := SkipAbsent(fields, src, k, j);
      StillSeen(fields, src, k0, j0, k, j, seen, fixedCountField, fixedCountSize);
      AllRead(fields, src, k, j);
      FixedComplete(fields, src, k, j, fixedCountField, fixedCountSize);
    }
    if fixedCountField.Some? && fixedCountSize != fields[fixedCountField.value].arraySize {
      return false, slots;
    }
    var required := CountRequired(iter);
    if required > PB_MAX_REQUIRED_FIELDS {
      required := PB_MAX_REQUIRED_FIELDS;
    }
    var n := 0;
    while n < required
      invariant 0 <= n <= required
      modifies {}
    {
      if n !in seen {
        if good {
          var i := RequiredIndex(fields, |fields|, n);
          WasSeen(fields, i, seen);
        }
        return false, slots;
      }
      n := n + 1;
    }
    ok := true;
  }

  /** Seeks to the end of the fields, to find how many are required. */
  method CountRequired(iter: FieldIter) returns (n: nat)
    requires iter.Valid()
    modifies iter
    ensures iter.Valid() && n == RequiredBefore(iter.fields, |iter.fields|)
  {
    var more := iter.fields != [];
    n := 0;
    while more
      invariant iter.Valid() && (iter.fields != [] ==> more || n == RequiredBefore(iter.fields, |iter.fields|))
      invariant iter.fields == [] ==> !more && n == 0
      decreases more, |iter.fields| - iter.pos
    {
      var last := iter.fields[iter.pos];
      n := iter.requiredFieldIndex + if last.htype.Required? then 1 else 0;
      more := iter.Next();
    }
  }

  lemma {:induction false} RequiredIndex(fields: seq<Field>, n: nat, r: nat) returns (i: nat)
    requires n <= |fields| && r < RequiredBefore(fields, n)
    ensures i < n && fields[i].htype.Required? && RequiredBefore(fields, i) == r
  {
    if r == RequiredBefore(fields, n - 1) {
      i := n - 1;
    } else {
      i := RequiredIndex(fields, n - 1, r);
    }
  }

  lemma SeenGrows(fields: seq<Field>, k: nat, seen: set<nat>, n: nat)
    requires RequiredSeen(fields, k, seen)
    ensures RequiredSeen(fields, k, seen + {n})
  {
  }

  lemma WasSeen(fields: seq<Field>, i: nat, seen: set<nat>)
    requires RequiredSeen(fields, |fields|, seen) && i < |fields| && fields[i].htype.Required? && RequiredBefore(fields, i) < PB_MAX_REQUIRED_FIELDS
    ensures RequiredBefore(fields, i) in seen
  {
  }

  /** When nothing is left, every field has been read. */
  lemma AllRead(fields: seq<Field>, src: seq<Slot>, k: nat, j: nat)
    requires TypedSlots(fields, src) && Position(fields, src, k, j) && RestFrom(fields, src, k, j) == []
    requires k == |fields| || AtItem(fields, src, k, j)
    ensures k == |fields| && j == 0 && PartialSlots(fields, src, k, j) == Norm(fields, src)
  {
    hide TypedSlot, RestFrom, AtItem, NormSlot, PartSlot, DefaultSlot, Varint;
    if k < |fields| {
      RestSplits(fields, src, k, j);
    }
  }

  lemma FixedComplete(fields: seq<Field>, src: seq<Slot>, k: nat, j: nat, fixedField: Option<nat>, fixedSize: nat)
    requires FixedOk(fields, src, k, j, fixedField, fixedSize) && k == |fields|
    ensures fixedField.Some? ==> fixedField.value < |fields| && fixedSize == fields[fixedField.value].arraySize
  {
  }

  /** The position behind an item. */
  ghost function NextPosition(fields: seq<Field>, src: seq<Slot>, k: nat, j: nat): (nat, nat)
    requires k < |fields| && k < |src|
  {
    if src[k].One? || Packable(fields[k].ltype) then (k + 1, 0) else (k, j + 1)
  }

  /** The wire type that the encoder gives the items of a field. */
  ghost function ItemWire(f: Field, s: Slot): nat {
    if s.Many? && Packable(f.ltype) then WT_STRING else WireType(f.ltype)
  }

  /** The required fields among the first `k` have been seen, as far as they are counted. */
  ghost predicate RequiredSeen(fields: seq<Field>, k: nat, seen: set<nat>) {
    k <= |fields| &&
    forall i :: 0 <= i < k && fields[i].htype.Required? && RequiredBefore(fields, i) < PB_MAX_REQUIRED_FIELDS ==> RequiredBefore(fields, i) in seen
  }

  /** The array of fixed length that came last is complete, or is the one being read. */
  ghost predicate FixedOk(fields: seq<Field>, src: seq<Slot>, k: nat, j: nat, fixedField: Option<nat>, fixedSize: nat) {
    && (j > 0 && k < |fields| && fields[k].htype.Repeated? && !fields[k].htype.counted ==> fixedField.Some? && fixedField.value == k)
    && (fixedField.Some? ==>
          && fixedField.value < |fields| && fields[fixedField.value].htype.Repeated? && !fields[fixedField.value].htype.counted
          && if fixedField.value == k then fixedSize == j > 0 else fixedField.value < k && fixedSize == fields[fixedField.value].arraySize)
  }

  /** Setting a member of a oneof takes the others away. */
  function ClearOthers(fields: seq<Field>, slots: seq<Slot>, i: nat): (r: seq<Slot>)
    requires |slots| == |fields| && i < |fields|
    ensures |r| == |fields|
  {
    seq(|fields|, k requires 0 <= k < |fields| =>
      if fields[i].htype.OneOf? && fields[k].htype == fields[i].htype && k != i && slots[k].One? then One(false, slots[k].value) else slots[k])
  }

  lemma TypedCount(fields: seq<Field>, slots: seq<Slot>)
    requires TypedSlots(fields, slots)
    ensures |slots| == |fields|
  {
    hide TypedSlot;
  }

  lemma AtTheStart(fields: seq<Field>, src: seq<Slot>)
    requires TypedSlots(fields, src)
    ensures Position(fields, src, 0, 0)
    ensures PartialSlots(fields, src, 0, 0) == Defaults(fields) && RestFrom(fields, src, 0, 0) == MessageFrom(fields, src, 0)
    ensures RequiredSeen(fields, 0, {}) && FixedOk(fields, src, 0, 0, None, 0)
  {
    hide TypedSlot, DefaultSlot, NormSlot;
  }

  lemma StillSeen(fields: seq<Field>, src: seq<Slot>, k0: nat, j0: nat, k: nat, j: nat, seen: set<nat>, fixedField: Option<nat>, fixedSize: nat)
    requires TypedSlots(fields, src) && Position(fields, src, k0, j0) && Position(fields, src, k, j) && k0 <= k
    requires RequiredSeen(fields, k0, seen) && FixedOk(fields, src, k0, j0, fixedField, fixedSize)
    requires forall i :: k0 <= i < k ==> !fields[i].htype.Required?
    requires (if k == k0 then j == j0 else j == 0) && (j0 > 0 && k > k0 ==> j0 == |src[k0].values|)
    ensures RequiredSeen(fields, k, seen) && FixedOk(fields, src, k, j, fixedField, fixedSize)
  {
    hide TypedValue;
    if k0 < |fields| {
      assert TypedSlot(fields[k0], src[k0]);
    }
  }

  lemma TypedAt(fields: seq<Field>, slots: seq<Slot>, i: nat)
    requires TypedSlots(fields, slots) && Described(fields) && i < |fields|
    ensures |slots| == |fields| && TypedSlot(fields[i], slots[i]) && DescribedField(fields[i])
  {
    hide TypedSlot;
  }

  lemma TypedUpdate(fields: seq<Field>, slots: seq<Slot>, i: nat, r: Slot)
    requires TypedSlots(fields, slots) && i < |fields| == |slots| && TypedSlot(fields[i], r)
    ensures TypedSlots(fields, ClearOthers(fields, slots, i)[i := r])
  {
    hide TypedValue;
    var cleared := ClearOthers(fields, slots, i)[i := r];
    forall k | 0 <= k < |fields| ensures TypedSlot(fields[k], cleared[k]) {
      assert TypedSlot(fields[k], slots[k]);
    }
  }

  lemma SameField(fields: seq<Field>, src: seq<Slot>, i: nat, k: nat)
    requires TypedSlots(fields, src) && SendableSlots(fields, src) && i < |fields| && k < |fields| && fields[i].tag == fields[k].tag
    ensures i == k
  {
    hide TypedSlot, SendableSlot, SameUnion;
  }

  lemma HasTag(fields: seq<Field>, src: seq<Slot>, k: nat, tag: nat)
    requires k < |fields| && fields[k].tag == tag
    ensures !(forall i :: 0 <= i < |fields| ==> fields[i].tag != tag)
  {
  }

  /** The bytes of an item, and those behind it. */
  lemma RestSplits(fields: seq<Field>, src: seq<Slot>, k: nat, j: nat)
    requires TypedSlots(fields, src) && AtItem(fields, src, k, j)
    ensures TypedSlot(fields[k], src[k]) && (src[k].Many? ==> Packable(fields[k].ltype) || j < |src[k].values|)
    ensures var (k2, j2) := NextPosition(fields, src, k, j);
            && Position(fields, src, k2, j2)
            && RestFrom(fields, src, k, j)
               == TagBytes(fields[k].tag, ItemWire(fields[k], src[k])) + (ItemPayload(fields[k], src[k], j) + RestFrom(fields, src, k2, j2))
  {
    hide ValueBytes, TypedValue, TagBytes, LengthDelimited, PackedFrom, Present;
    var f, s := fields[k], src[k];
    assert TypedSlot(f, s);
    var tag := TagBytes(f.tag, ItemWire(f, s));
    if s.One? || Packable(f.ltype) {
      assert MessageFrom(fields, src, k) == FieldBytes(f, s) + MessageFrom(fields, src, k + 1);
      assert FieldBytes(f, s) == tag + ItemPayload(f, s, j);
      ThreeParts(tag, ItemPayload(f, s, j), MessageFrom(fields, src, k + 1));
    } else {
      assert RestFrom(fields, src, k, j) == TaggedFrom(f, s.values, j) + MessageFrom(fields, src, k + 1);
      assert TaggedFrom(f, s.values, j) == tag + ValueBytes(f, s.values[j]) + TaggedFrom(f, s.values, j + 1);
      ThreeParts(tag, ItemPayload(f, s, j), TaggedFrom(f, s.values, j + 1));
      ThreeParts(tag, ItemPayload(f, s, j) + TaggedFrom(f, s.values, j + 1), MessageFrom(fields, src, k + 1));
      ThreeParts(ItemPayload(f, s, j), TaggedFrom(f, s.values, j + 1), MessageFrom(fields, src, k + 1));
    }
  }

  lemma ThreeParts(a: seq<Byte>, b: seq<Byte>, c: seq<Byte>)
    ensures (a + b) + c == a + (b + c)
  {
  }

  /** A tag comes next in the stream. */
  lemma NextItem(stream: IStream, fields: seq<Field>, src: seq<Slot>, k: nat, j: nat)
    requires TypedSlots(fields, src) && SendableSlots(fields, src) && Position(fields, src, k, j)
    requires k == |fields| || AtItem(fields, src, k, j)
    requires stream.Valid() && stream.Holds(RestFrom(fields, src, k, j)) && stream.left == |RestFrom(fields, src, k, j)| > 0
    ensures k < |fields| == |src| && AtItem(fields, src, k, j) && 0 < fields[k].tag < 0x2000_0000 && ItemWire(fields[k], src[k]) < 8
    ensures stream.Holds(TagBytes(fields[k].tag, ItemWire(fields[k], src[k])))
    ensures TypedSlot(fields[k], src[k]) && (src[k].Many? ==> Packable(fields[k].ltype) || j < |src[k].values|)
    ensures src[k].Many? <==> fields[k].htype.Repeated?
    ensures stream.data[stream.pos..stream.pos + |RestFrom(fields, src, k, j)|] == RestFrom(fields, src, k, j)
  {
    hide SendableSlot, SameUnion, TypedSlot, TagBytes, RestFrom, AtItem, ItemPayload;
    if k == |fields| {
      NothingLeft(fields, src);
    } else {
      RestSplits(fields, src, k, j);
      ManyIsRepeated(fields[k], src[k]);
      var (k2, j2) := NextPosition(fields, src, k, j);
      HoldsBoth(stream.data, stream.pos, TagBytes(fields[k].tag, ItemWire(fields[k], src[k])),
                ItemPayload(fields[k], src[k], j) + RestFrom(fields, src, k2, j2));
    }
  }

  lemma ManyIsRepeated(f: Field, s: Slot)
    requires TypedSlot(f, s)
    ensures s.Many? <==> f.htype.Repeated?
  {
  }

  lemma NothingLeft(fields: seq<Field>, src: seq<Slot>)
    requires TypedSlots(fields, src)
    ensures Position(fields, src, |fields|, 0) && RestFrom(fields, src, |fields|, 0) == []
  {
  }

  /** Behind the tag, the item of field `k` is what DecodeField expects. */
  lemma ItemIsNext(stream: IStream, fields: seq<Field>, src: seq<Slot>, k: nat, j: nat, p: nat, slots: seq<Slot>, wireType: nat, fixedSize: nat)
    requires TypedSlots(fields, src) && SendableSlots(fields, src) && AtItem(fields, src, k, j) && slots == PartialSlots(fields, src, k, j)
    requires stream.Valid() && p + |RestFrom(fields, src, k, j)| == stream.pos + stream.left
    requires stream.data[p..p + |RestFrom(fields, src, k, j)|] == RestFrom(fields, src, k, j)
    requires stream.pos == p + |TagBytes(fields[k].tag, ItemWire(fields[k], src[k]))| && wireType == ItemWire(fields[k], src[k])
    requires fields[k].htype.Repeated? && !fields[k].htype.counted ==> fixedSize == j
    ensures ItemComes(stream, fields[k], slots[k], wireType, fixedSize, src[k], j)
  {
    hide TypedValue, TagBytes, RestFrom, ItemPayload, PartSlot, NormSlot, DefaultSlot, SendableSlot, SameUnion, Present;
    var f, s := fields[k], src[k];
    assert TypedSlot(f, s) && SendableSlot(f, s);
    RestSplits(fields, src, k, j);
    var (k2, j2) := NextPosition(fields, src, k, j);
    var tag := TagBytes(f.tag, ItemWire(f, s));
    HoldsBoth(stream.data, p, tag, ItemPayload(f, s, j) + RestFrom(fields, src, k2, j2));
    HoldsBoth(stream.data, stream.pos, ItemPayload(f, s, j), RestFrom(fields, src, k2, j2));
    if s.Many? {
      WholePart(f, s);
    }
  }

  /** After the item, the position has moved on and everything holds there. */
  lemma AfterNext(stream: IStream, fields: seq<Field>, src: seq<Slot>, k: nat, j: nat, p: nat, slots: seq<Slot>, seen: set<nat>,
                  fixedField: Option<nat>, fixedSize: nat)
    requires TypedSlots(fields, src) && SendableSlots(fields, src) && AtItem(fields, src, k, j) && slots == PartialSlots(fields, src, k, j)
    requires TypedSlot(fields[k], src[k]) && (src[k].Many? ==> Packable(fields[k].ltype) || j < |src[k].values|)
    requires stream.Valid() && p + |RestFrom(fields, src, k, j)| == stream.pos + stream.left
    requires stream.data[p..p + |RestFrom(fields, src, k, j)|] == RestFrom(fields, src, k, j)
    requires stream.pos == p + |TagBytes(fields[k].tag, ItemWire(fields[k], src[k]))| + |ItemPayload(fields[k], src[k], j)|
    requires RequiredSeen(fields, k, seen)
    requires fields[k].htype.Required? && RequiredBefore(fields, k) < PB_MAX_REQUIRED_FIELDS ==> RequiredBefore(fields, k) in seen
    ensures var (k2, j2) := NextPosition(fields, src, k, j);
            && Position(fields, src, k2, j2)
            && stream.Holds(RestFrom(fields, src, k2, j2)) && stream.left == |RestFrom(fields, src, k2, j2)|
            && ClearOthers(fields, slots, k)[k := AfterItem(fields[k], src[k], j)] == PartialSlots(fields, src, k2, j2)
            && RequiredSeen(fields, k2, seen)
  {
    hide TypedSlot, TypedSlots, SendableSlots, TagBytes, RestFrom, ItemPayload, ClearOthers, PartialSlots, AfterItem, RequiredSeen, RequiredBefore;
    NextHeld(stream, fields, src, k, j, p);
    NextSlots(fields, src, k, j, slots);
    NextSeen(fields, src, k, j, seen);
  }

  lemma NextHeld(stream: IStream, fields: seq<Field>, src: seq<Slot>, k: nat, j: nat, p: nat)
    requires TypedSlots(fields, src) && SendableSlots(fields, src) && AtItem(fields, src, k, j)
    requires TypedSlot(fields[k], src[k]) && (src[k].Many? ==> Packable(fields[k].ltype) || j < |src[k].values|)
    requires stream.Valid() && p + |RestFrom(fields, src, k, j)| == stream.pos + stream.left
    requires stream.data[p..p + |RestFrom(fields, src, k, j)|] == RestFrom(fields, src, k, j)
    requires stream.pos == p + |TagBytes(fields[k].tag, ItemWire(fields[k], src[k]))| + |ItemPayload(fields[k], src[k], j)|
    ensures var (k2, j2) := NextPosition(fields, src, k, j);
            && Position(fields, src, k2, j2)
            && stream.Holds(RestFrom(fields, src, k2, j2)) && stream.left == |RestFrom(fields, src, k2, j2)|
  {
    hide TypedValue, TagBytes, RestFrom, ItemPayload, SendableSlot, Present;
    var f, s := fields[k], src[k];
    RestSplits(fields, src, k, j);
    var (k2, j2) := NextPosition(fields, src, k, j);
    var tag := TagBytes(f.tag, ItemWire(f, s));
    HoldsBoth(stream.data, p, tag, ItemPayload(f, s, j) + RestFrom(fields, src, k2, j2));
    HoldsBoth(stream.data, p + |tag|, ItemPayload(f, s, j), RestFrom(fields, src, k2, j2));
  }

  lemma NextSlots(fields: seq<Field>, src: seq<Slot>, k: nat, j: nat, slots: seq<Slot>)
    requires TypedSlots(fields, src) && SendableSlots(fields, src) && AtItem(fields, src, k, j) && slots == PartialSlots(fields, src, k, j)
    requires TypedSlot(fields[k], src[k]) && (src[k].Many? ==> Packable(fields[k].ltype) || j < |src[k].values|)
    ensures var (k2, j2) := NextPosition(fields, src, k, j);
            && Position(fields, src, k2, j2)
            && ClearOthers(fields, slots, k)[k := AfterItem(fields[k], src[k], j)] == PartialSlots(fields, src, k2, j2)
  {
    hide TypedSlots, SendableSlots, PartSlot, NormSlot, DefaultSlot, ClearOthers;
    TypedCount(fields, src);
    NoOthers(fields, src, k, j, slots);
    SetAgain(ClearOthers(fields, slots, k), slots, k, AfterItem(fields[k], src[k], j));
    var (k2, j2) := NextPosition(fields, src, k, j);
    var next := slots[k := AfterItem(fields[k], src[k], j)];
    forall i | 0 <= i < |fields| ensures next[i] == PartialSlots(fields, src, k2, j2)[i] {
    }
  }

  lemma SetAgain(a: seq<Slot>, b: seq<Slot>, k: nat, x: Slot)
    requires k < |a| && k < |b| && a[k := b[k]] == b
    ensures a[k := x] == b[k := x]
  {
    assert forall i :: 0 <= i < |b| && i != k ==> a[i] == a[k := b[k]][i];
  }

  lemma NextSeen(fields: seq<Field>, src: seq<Slot>, k: nat, j: nat, seen: set<nat>)
    requires TypedSlots(fields, src) && AtItem(fields, src, k, j)
    requires TypedSlot(fields[k], src[k]) && (src[k].Many? ==> Packable(fields[k].ltype) || j < |src[k].values|)
    requires RequiredSeen(fields, k, seen)
    requires fields[k].htype.Required? && RequiredBefore(fields, k) < PB_MAX_REQUIRED_FIELDS ==> RequiredBefore(fields, k) in seen
    ensures var (k2, j2) := NextPosition(fields, src, k, j); Position(fields, src, k2, j2) && RequiredSeen(fields, k2, seen)
  {
    hide TypedValue, Present;
  }

  lemma NoOthers(fields: seq<Field>, src: seq<Slot>, k: nat, j: nat, slots: seq<Slot>)
    requires TypedSlots(fields, src) && SendableSlots(fields, src) && AtItem(fields, src, k, j) && slots == PartialSlots(fields, src, k, j)
    ensures ClearOthers(fields, slots, k)[k := slots[k]] == slots
  {
    hide TypedValue, SendableSlot, DefaultValue, NormValue;
    forall i | 0 <= i < |fields| && i != k && fields[k].htype.OneOf? && fields[i].htype == fields[k].htype
      ensures slots[i].One? && !slots[i].has
    {
      assert TypedSlot(fields[i], src[i]) && TypedSlot(fields[k], src[k]);
      assert !SameUnion(fields, src, if i < k then i else k, if i < k then k else i);
    }
  }

  /** The checks on arrays of fixed length pass. */
  lemma FixedReady(fields: seq<Field>, src: seq<Slot>, k: nat, j: nat, fixedField: Option<nat>, fixedSize: nat)
    requires TypedSlots(fields, src) && FixedOk(fields, src, k, j, fixedField, fixedSize) && AtItem(fields, src, k, j)
    ensures fixedField.Some? ==> fixedField.value < |fields|
    ensures fixedField.Some? && fixedField.value != k ==> fixedSize == fields[fixedField.value].arraySize
    ensures fixedField.Some? && fixedField.value == k ==> fixedSize == j
    ensures fields[k].htype.Repeated? && !fields[k].htype.counted && !(fixedField.Some? && fixedField.value == k) ==> j == 0
    ensures fixedField.Some? ==> fixedField.value <= k
    ensures fixedField.Some? ==> fields[fixedField.value].htype.Repeated? && !fields[fixedField.value].htype.counted
  {
  }

  lemma FixedMoves(fields: seq<Field>, src: seq<Slot>, k: nat, j: nat, fixedField: Option<nat>, fixedSize: nat)
    requires TypedSlots(fields, src) && AtItem(fields, src, k, j) && TypedSlot(fields[k], src[k])
    requires fields[k].htype.Repeated? && !fields[k].htype.counted ==>
               fixedField.Some? && fixedField.value == k && fixedSize == ItemsAfter(fields[k], src[k], j)
    requires !(fields[k].htype.Repeated? && !fields[k].htype.counted) && fixedField.Some? ==>
               && fixedField.value < k && fixedSize == fields[fixedField.value].arraySize
               && fields[fixedField.value].htype.Repeated? && !fields[fixedField.value].htype.counted
    ensures var (k2, j2) := NextPosition(fields, src, k, j); FixedOk(fields, src, k2, j2, fixedField, fixedSize)
  {
    hide TypedValue, Present;
  }

  /** pb_decode: the message is set to its defaults first. A stream that holds what the encoder wrote
      for `src`, and nothing else, gives back `src` up to what its absent fields hold. */
  method Decode(stream: IStream, fields: seq<Field>, ghost src: seq<Slot>) returns (ok: bool, slots: seq<Slot>)
    requires stream.Valid() && Described(fields)
    modifies stream
    ensures stream.Valid() && stream.left <= old(stream.left)
    ensures ok ==> stream.pos + stream.left == old(stream.pos + stream.left) && TypedSlots(fields, slots)
    ensures old(MessageComes(stream, fields, Defaults(fields), src)) ==> ok && slots == Norm(fields, src) && stream.left == 0
  {
    DefaultsAreTyped(fields);
    hide TypedSlots, Described, MessageComes, Norm;
    ok, slots := DecodeMessage(stream, fields, Defaults(fields), src, MessageComes(stream, fields, Defaults(fields), src));
  }
}
