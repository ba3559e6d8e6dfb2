/** Writing messages to a stream, or only counting their bytes (nanopb/pb_encode.c). */
module PbEncode {
  import opened Bytes
  import opened Coding
  import opened PbFormat

  /** A sizing stream has no callback: it counts and writes nothing. */
  class OStream {
    const sizing: bool
    const maxSize: nat
    var out: seq<Byte>
    var bytesWritten: nat

    constructor (sizing: bool, maxSize: nat, out: seq<Byte>)
      ensures Valid() && this.sizing == sizing && this.maxSize == maxSize && this.out == out && bytesWritten == 0
    {
      this.sizing, this.maxSize, this.out, bytesWritten := sizing, maxSize, out, 0;
    }

    ghost predicate Valid()
      reads this
    {
      sizing || bytesWritten <= maxSize
    }

    /** `n` more bytes fit. */
    predicate Room(n: nat)
      reads this
    {
      sizing || bytesWritten + n <= maxSize
    }

    /** `bytes` were written since the stream was at `written` with `before` in it. */
    ghost predicate Wrote(before: seq<Byte>, written: nat, bytes: seq<Byte>)
      reads this
    {
      bytesWritten == written + |bytes| && out == if sizing then before else before + bytes
    }

    /** pb_write. */
    method Write(bytes: seq<Byte>) returns (ok: bool)
      requires Valid()
      modifies this
      ensures Valid() && ok == old(Room(|bytes|))
      ensures if ok then Wrote(old(out), old(bytesWritten), bytes) else out == old(out) && bytesWritten == old(bytesWritten)
    {
      if |bytes| > 0 && !sizing {
        if bytesWritten + |bytes| > maxSize {
          return false;
        }
        out := out + bytes;
      }
      bytesWritten := bytesWritten + |bytes|;
      ok := true;
    }

    /** pb_write without data, on a sizing stream. */
    method Count(n: nat)
      requires sizing
      modifies this
      ensures Valid() && out == old(out) && bytesWritten == old(bytesWritten) + n
    {
      bytesWritten := bytesWritten + n;
    }
  }

  // ---------------------------------------------------------------- numbers

  /** pb_encode_varint. */
  method EncodeVarint(stream: OStream, value: nat) returns (ok: bool)
    requires stream.Valid() && value < TWO_64
    modifies stream
    ensures stream.Valid() && ok == old(stream.Room(|Varint(value)|))
    ensures ok ==> stream.Wrote(old(stream.out), old(stream.bytesWritten), Varint(value))
  {
    hide ToByte, FromByte, Digits7;
    if value <= 0x7F {
      assert Varint(value) == [ToByte(value)];
      ok := stream.Write([ToByte(value)]);
      return;
    }
    var buffer, v := [], value;
    FirstDigits(value);
    while v > 0
      invariant v == 0 ==> |buffer| > 0
      invariant Digits7(value, v, buffer)
      modifies {}
      decreases v
    {
      DigitsStep(value, v, buffer);
      buffer := buffer + [ToByte(v % 128 + 0x80)];
      v := v / 128;
    }
    LastDigit(value, buffer);
    buffer := buffer[|buffer| - 1 := WithoutTopBit(buffer[|buffer| - 1])];
    ok := stream.Write(buffer);
  }

  function WithoutTopBit(b: Byte): Byte {
    ToByte(FromByte(b) % 128)
  }

  /** The digits so far, each with the top bit set, in front of what is left of the number. */
  ghost predicate Digits7(value: nat, left: nat, buffer: seq<Byte>) {
    if left > 0 then Varint(value) == buffer + Varint(left)
    else |buffer| > 0 && exists d: nat :: LastIs(value, buffer, d)
  }

  ghost predicate LastIs(value: nat, buffer: seq<Byte>, d: nat)
    requires |buffer| > 0
  {
    d < 128 && buffer[|buffer| - 1] == ToByte(d + 128) && Varint(value) == buffer[..|buffer| - 1] + [ToByte(d)]
  }

  lemma FirstDigits(value: nat)
    requires value > 0
    ensures Digits7(value, value, [])
  {
    hide Varint;
  }

  lemma DigitsStep(value: nat, left: nat, buffer: seq<Byte>)
    requires left > 0 && Digits7(value, left, buffer)
    ensures Digits7(value, left / 128, buffer + [ToByte(left % 128 + 0x80)])
  {
    hide ToByte, Varint, Digits7;
    if left < 128 {
      StepToLast(value, left, buffer);
    } else {
      StepOn(value, left, buffer);
    }
  }

  lemma StepToLast(value: nat, left: nat, buffer: seq<Byte>)
    requires 0 < left < 128 && Digits7(value, left, buffer)
    ensures Digits7(value, 0, buffer + [ToByte(left + 0x80)])
  {
    hide ToByte, Varint;
    OneDigit(left);
    var more := buffer + [ToByte(left + 0x80)];
    assert more[..|more| - 1] == buffer;
    assert LastIs(value, more, left);
  }

  lemma StepOn(value: nat, left: nat, buffer: seq<Byte>)
    requires left >= 128 && Digits7(value, left, buffer)
    ensures Digits7(value, left / 128, buffer + [ToByte(left % 128 + 0x80)])
  {
    hide ToByte, Varint;
    OneDigit(left);
    var b := ToByte(left % 128 + 0x80);
    assert buffer + ([b] + Varint(left / 128)) == (buffer + [b]) + Varint(left / 128);
  }

  lemma OneDigit(left: nat)
    ensures left < 128 ==> Varint(left) == [ToByte(left)]
    ensures left >= 128 ==> Varint(left) == [ToByte(left % 128 + 0x80)] + Varint(left / 128)
  {
    hide ToByte;
  }

  lemma LastDigit(value: nat, buffer: seq<Byte>)
    requires Digits7(value, 0, buffer)
    ensures |buffer| > 0 && buffer[|buffer| - 1 := WithoutTopBit(buffer[|buffer| - 1])] == Varint(value)
  {
    hide ToByte, FromByte, Varint;
    var d: nat :| LastIs(value, buffer, d);
    assert WithoutTopBit(buffer[|buffer| - 1]) == ToByte(d);
  }

  /** pb_encode_svarint: the sign goes to the lowest bit. */
  method EncodeSVarint(stream: OStream, value: int) returns (ok: bool)
    requires stream.Valid() && -(TWO_64 as int) / 2 <= value < TWO_64 / 2
    modifies stream
    ensures stream.Valid() && ok == old(stream.Room(|Varint(ZigZag(value))|))
    ensures ok ==> stream.Wrote(old(stream.out), old(stream.bytesWritten), Varint(ZigZag(value)))
  {
    hide Varint;
    var zigzagged;
    if value < 0 {
      FlippedBits(value);
      zigzagged := TWO_64 - 1 - (value + TWO_64) * 2 % TWO_64;  // all bits of the doubled number flipped
    } else {
      zigzagged := value * 2;
    }
    ok := EncodeVarint(stream, zigzagged);
  }

  lemma FlippedBits(value: int)
    requires -(TWO_64 as int) / 2 <= value < 0
    ensures TWO_64 - 1 - (value + TWO_64) * 2 % TWO_64 == ZigZag(value)
  {
    assert (value + TWO_64) * 2 == value * 2 + TWO_64 + TWO_64;
  }

  /** pb_encode_tag. */
  method EncodeTag(stream: OStream, wireType: nat, fieldNumber: nat) returns (ok: bool)
    requires stream.Valid() && wireType < 8 && fieldNumber <= PB_SIZE_MAX
    modifies stream
    ensures stream.Valid() && ok == old(stream.Room(|TagBytes(fieldNumber, wireType)|))
    ensures ok ==> stream.Wrote(old(stream.out), old(stream.bytesWritten), TagBytes(fieldNumber, wireType))
  {
    ok := EncodeVarint(stream, fieldNumber * 8 + wireType);
  }

  /** pb_encode_string. */
  method EncodeString(stream: OStream, bytes: seq<Byte>) returns (ok: bool)
    requires stream.Valid() && |bytes| < TWO_64
    modifies stream
    ensures stream.Valid() && ok == old(stream.Room(|LengthDelimited(bytes)|))
    ensures ok ==> stream.Wrote(old(stream.out), old(stream.bytesWritten), LengthDelimited(bytes))
  {
    hide Varint;
    ok := EncodeVarint(stream, |bytes|);
    if ok {
      ok := stream.Write(bytes);
    }
  }

  // ---------------------------------------------------------------- values, fields and messages

  /** Sizes do not overflow size_t. */
  ghost predicate Sized(n: nat) {
    n < TWO_64
  }

  lemma RangeBound(size: nat)
    ensures Range(size) <= TWO_64
  {
  }

  /** The field encoders pb_enc_bool to pb_enc_fixed_length_bytes. Exactly what fits is written. */
  method EncodeValue(stream: OStream, f: Field, v: Value) returns (ok: bool)
    requires stream.Valid() && TypedValue(f, v) && ValidTags(f.sub) && Sized(|ValueBytes(f, v)|)
    modifies stream
    ensures stream.Valid() && ok == (ValueFits(f, v) && old(stream.Room(|ValueBytes(f, v)|)))
    ensures ok ==> stream.Wrote(old(stream.out), old(stream.bytesWritten), ValueBytes(f, v))
    decreases f, 0, 0
  {
    hide Varint, EncodeFixed32;
    RangeBound(f.dataSize);
    match f.ltype
    case Bool =>
      ok := EncodeVarint(stream, v.n);
    case VarInt =>
      ok := EncodeVarint(stream, Bits64(v.n));
    case UVarInt =>
      ok := EncodeVarint(stream, v.n);
    case SVarInt =>
      ok := EncodeSVarint(stream, v.n);
    case Fixed32 =>
      ok := stream.Write(EncodeFixed32(v.n));
    case Fixed64 =>
      ok := stream.Write(EncodeFixed64(v.n));
    case BytesArray =>
      if |v.bytes| + BYTES_OFFSET > f.dataSize {
        return false;
      }
      ok := EncodeString(stream, v.bytes);
    case CharArray =>
      ok := EncodeString(stream, v.bytes);
    case FixedLengthBytes =>
      ok := EncodeString(stream, v.bytes);
    case Submessage =>
      ok := EncodeSubmessage(stream, f.sub, v.slots);
  }

  ghost predicate ValidTags(fields: seq<Field>)
    decreases fields
  {
    forall i :: 0 <= i < |fields| ==> fields[i].tag <= PB_SIZE_MAX && ValidTags(fields[i].sub)
  }

  /** pb_encode_submessage: first the size, by a run on a sizing stream, then the message itself. */
  method EncodeSubmessage(stream: OStream, fields: seq<Field>, slots: seq<Slot>) returns (ok: bool)
    requires stream.Valid() && TypedSlots(fields, slots) && ValidTags(fields)
    requires Sized(|LengthDelimited(MessageFrom(fields, slots, 0))|)
    modifies stream
    ensures stream.Valid()
    ensures ok == (MessageFits(fields, slots) && old(stream.Room(|LengthDelimited(MessageFrom(fields, slots, 0))|)))
    ensures ok ==> stream.Wrote(old(stream.out), old(stream.bytesWritten), LengthDelimited(MessageFrom(fields, slots, 0)))
    decreases fields, |fields| + 1, 0
  {
    hide Varint, MessageFrom, MessageFits, TypedSlots, ValidTags;
    var substream := new OStream(true, 0, []);
    ok := EncodeMessage(substream, fields, slots);
    if !ok {
      return;
    }
    var size := substream.bytesWritten;
    ok := EncodeVarint(stream, size);
    if !ok {
      return;
    }
    if stream.sizing {
      stream.Count(size);
      return;
    }
    if stream.bytesWritten + size > stream.maxSize {
      return false;
    }
    substream := new OStream(false, size, stream.out);
    var status := EncodeMessage(substream, fields, slots);
    stream.bytesWritten := stream.bytesWritten + substream.bytesWritten;
    stream.out := substream.out;
    if substream.bytesWritten != size {
      return false;
    }
    ok := status;
  }

  /** pb_encode: the fields in the order of their descriptors. */
  method EncodeMessage(stream: OStream, fields: seq<Field>, slots: seq<Slot>) returns (ok: bool)
    requires stream.Valid() && TypedSlots(fields, slots) && ValidTags(fields) && Sized(|MessageFrom(fields, slots, 0)|)
    modifies stream
    ensures stream.Valid() && ok == (MessageFits(fields, slots) && old(stream.Room(|MessageFrom(fields, slots, 0)|)))
    ensures ok ==> stream.Wrote(old(stream.out), old(stream.bytesWritten), MessageFrom(fields, slots, 0))
    decreases fields, |fields|, 0
  {
    hide FieldBytes, SlotFits, TypedSlot, MessageFrom;
    ghost var done: seq<Byte> := [];
    var k := 0;
    while k < |fields|
      invariant 0 <= k <= |fields| && stream.Valid()
      invariant done + MessageFrom(fields, slots, k) == MessageFrom(fields, slots, 0)
      invariant stream.Wrote(old(stream.out), old(stream.bytesWritten), done)
      invariant forall i :: 0 <= i < k ==> SlotFits(fields[i], slots[i])
    {
      NextField(fields, slots, k);
      Associates(done, FieldBytes(fields[k], slots[k]), MessageFrom(fields, slots, k + 1));
      ok := EncodeField(stream, fields[k], slots[k]);
      if !ok {
        return;
      }
      done := done + FieldBytes(fields[k], slots[k]);
      k := k + 1;
    }
    NextField(fields, slots, |fields|);
    ok := true;
  }

  lemma NextField(fields: seq<Field>, slots: seq<Slot>, k: nat)
    requires TypedSlots(fields, slots) && k <= |fields|
    ensures MessageFrom(fields, slots, k)
            == if k == |fields| then [] else FieldBytes(fields[k], slots[k]) + MessageFrom(fields, slots, k + 1)
  {
    hide FieldBytes;
  }

  lemma Associates(a: seq<Byte>, b: seq<Byte>, c: seq<Byte>)
    ensures a + (b + c) == (a + b) + c
  {
  }

  /** encode_basic_field: what is absent is left out. */
  method EncodeField(stream: OStream, f: Field, s: Slot) returns (ok: bool)
    requires stream.Valid() && TypedSlot(f, s) && ValidTags(f.sub) && f.tag <= PB_SIZE_MAX && Sized(|FieldBytes(f, s)|)
    modifies stream
    ensures stream.Valid() && ok == (SlotFits(f, s) && old(stream.Room(|FieldBytes(f, s)|)))
    ensures ok ==> stream.Wrote(old(stream.out), old(stream.bytesWritten), FieldBytes(f, s))
    decreases f, 2, 0
  {
    hide Varint, ValueBytes, TypedValue, ValueFits, IsDefaultValue, PackedFrom, TaggedFrom;
    if s.Many? {
      ok := EncodeArray(stream, f, s.values);
      return;
    }
    var has := match f.htype
      case Required => true
      case Optional(hasFlag) => if hasFlag then s.has else !IsDefaultValue(f, s.value)
      case OneOf(_) => s.has
      case Repeated(_) => false;
    if !has {
      return true;
    }
    ok := EncodeTag(stream, WireType(f.ltype), f.tag);
    if ok {
      ok := EncodeValue(stream, f, s.value);
    }
  }

  ghost function ArrayBytes(f: Field, vs: seq<Value>): seq<Byte>
    requires TypedValues(f, vs)
  {
    if vs == [] then []
    else if Packable(f.ltype) then TagBytes(f.tag, WT_STRING) + LengthDelimited(PackedFrom(f, vs, 0))
    else TaggedFrom(f, vs, 0)
  }

  ghost predicate ArrayFits(f: Field, vs: seq<Value>)
    requires TypedValues(f, vs)
  {
    vs == [] || (|vs| <= f.arraySize && forall i :: 0 <= i < |vs| ==> ValueFits(f, vs[i]))
  }

  /** encode_array: numbers are packed behind one tag, everything else gets a tag each. */
  method EncodeArray(stream: OStream, f: Field, vs: seq<Value>) returns (ok: bool)
    requires stream.Valid() && TypedValues(f, vs) && ValidTags(f.sub) && f.tag <= PB_SIZE_MAX && Sized(|ArrayBytes(f, vs)|)
    modifies stream
    ensures stream.Valid() && ok == (ArrayFits(f, vs) && old(stream.Room(|ArrayBytes(f, vs)|)))
    ensures ok ==> stream.Wrote(old(stream.out), old(stream.bytesWritten), ArrayBytes(f, vs))
    decreases f, 1, 0
  {
    hide Varint, ValueBytes, TypedValue, ValueFits, PackedFrom, TaggedFrom, TagBytes;
    var count := |vs|;
    if count == 0 {
      return true;
    }
    if count > f.arraySize {
      return false;
    }
    if Packable(f.ltype) {
      PackedFits(f, vs);
      ok := EncodeTag(stream, WT_STRING, f.tag);
      if !ok {
        return;
      }
      var size;
      if f.ltype.Fixed32? {
        size := 4 * count;
        FixedSizes(f, vs, 0);
      } else if f.ltype.Fixed64? {
        size := 8 * count;
        FixedSizes(f, vs, 0);
      } else {
        var sizestream := new OStream(true, 0, []);
        ok := EncodeItems(sizestream, f, vs, false);
        size := sizestream.bytesWritten;
      }
      ok := EncodeVarint(stream, size);
      if !ok {
        return;
      }
      if stream.sizing {
        stream.Count(size);
        return;
      }
      ok := EncodeItems(stream, f, vs, false);
    } else {
      ok := EncodeItems(stream, f, vs, true);
    }
  }

  lemma PackedFits(f: Field, vs: seq<Value>)
    requires TypedValues(f, vs) && Packable(f.ltype)
    ensures forall i :: 0 <= i < |vs| ==> ValueFits(f, vs[i])
  {
  }

  lemma {:induction false} FixedSizes(f: Field, vs: seq<Value>, j: nat)
    requires TypedValues(f, vs) && j <= |vs|
    ensures f.ltype.Fixed32? ==> |PackedFrom(f, vs, j)| == 4 * (|vs| - j)
    ensures f.ltype.Fixed64? ==> |PackedFrom(f, vs, j)| == 8 * (|vs| - j)
    decreases |vs| - j
  {
    hide EncodeFixed32;
    if j < |vs| {
      FixedSizes(f, vs, j + 1);
    }
  }

  ghost function ItemsFrom(f: Field, vs: seq<Value>, j: nat, tagged: bool): seq<Byte>
    requires TypedValues(f, vs) && j <= |vs|
  {
    if tagged then TaggedFrom(f, vs, j) else PackedFrom(f, vs, j)
  }

  ghost function ItemBytes(f: Field, v: Value, tagged: bool): seq<Byte>
    requires TypedValue(f, v)
  {
    (if tagged then TagBytes(f.tag, WireType(f.ltype)) else []) + ValueBytes(f, v)
  }

  lemma OneItem(f: Field, vs: seq<Value>, j: nat, tagged: bool)
    requires TypedValues(f, vs) && j < |vs|
    ensures ItemsFrom(f, vs, j, tagged) == ItemBytes(f, vs[j], tagged) + ItemsFrom(f, vs, j + 1, tagged)
  {
    hide ValueBytes, Varint, TypedValue;
    if !tagged {
      assert [] + ValueBytes(f, vs[j]) == ValueBytes(f, vs[j]);
    }
  }

  method EncodeItem(stream: OStream, f: Field, v: Value, tagged: bool) returns (ok: bool)
    requires stream.Valid() && TypedValue(f, v) && ValidTags(f.sub) && f.tag <= PB_SIZE_MAX && Sized(|ItemBytes(f, v, tagged)|)
    modifies stream
    ensures stream.Valid() && ok == (ValueFits(f, v) && old(stream.Room(|ItemBytes(f, v, tagged)|)))
    ensures ok ==> stream.Wrote(old(stream.out), old(stream.bytesWritten), ItemBytes(f, v, tagged))
    decreases f, 0, 1
  {
    hide Varint, ValueBytes, TypedValue, ValueFits, TagBytes;
    if tagged {
      ok := EncodeTag(stream, WireType(f.ltype), f.tag);
      if !ok {
        return;
      }
    }
    ok := EncodeValue(stream, f, v);
  }

  /** The loops over the elements of an array. */
  method EncodeItems(stream: OStream, f: Field, vs: seq<Value>, tagged: bool) returns (ok: bool)
    requires stream.Valid() && TypedValues(f, vs) && ValidTags(f.sub) && f.tag <= PB_SIZE_MAX && Sized(|ItemsFrom(f, vs, 0, tagged)|)
    modifies stream
    ensures stream.Valid()
    ensures ok == ((forall i :: 0 <= i < |vs| ==> ValueFits(f, vs[i])) && old(stream.Room(|ItemsFrom(f, vs, 0, tagged)|)))
    ensures ok ==> stream.Wrote(old(stream.out), old(stream.bytesWritten), ItemsFrom(f, vs, 0, tagged))
    decreases f, 0, 2
  {
    hide TypedValue, ValueFits, ItemsFrom, ItemBytes;
    ghost var done: seq<Byte> := [];
    var i := 0;
    while i < |vs|
      invariant 0 <= i <= |vs| && stream.Valid()
      invariant done + ItemsFrom(f, vs, i, tagged) == ItemsFrom(f, vs, 0, tagged)
      invariant stream.Wrote(old(stream.out), old(stream.bytesWritten), done)
      invariant forall j :: 0 <= j < i ==> ValueFits(f, vs[j])
    {
      OneItem(f, vs, i, tagged);
      Associates(done, ItemBytes(f, vs[i], tagged), ItemsFrom(f, vs, i + 1, tagged));
      ok := EncodeItem(stream, f, vs[i], tagged);
      if !ok {
        return;
      }
      done := done + ItemBytes(f, vs[i], tagged);
      i := i + 1;
    }
    NoItems(f, vs, tagged);
    ok := true;
  }

  lemma NoItems(f: Field, vs: seq<Value>, tagged: bool)
    requires TypedValues(f, vs)
    ensures ItemsFrom(f, vs, |vs|, tagged) == []
  {
  }

  /** pb_get_encoded_size: the size it reports is the number of bytes that pb_encode writes. */
  method GetEncodedSize(fields: seq<Field>, slots: seq<Slot>) returns (ok: bool, size: nat)
    requires TypedSlots(fields, slots) && ValidTags(fields) && Sized(|MessageFrom(fields, slots, 0)|)
    ensures ok == MessageFits(fields, slots)
    ensures ok ==> size == |MessageFrom(fields, slots, 0)|
  {
    var stream := new OStream(true, 0, []);
    ok := EncodeMessage(stream, fields, slots);
    size := stream.bytesWritten;
  }
}
