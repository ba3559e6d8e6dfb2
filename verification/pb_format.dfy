/** Messages as trees over field descriptors, and their encoding in the protocol buffer wire format
    (nanopb/pb.h; Protocol Buffers Encoding, "Message Structure" and "Packed Repeated Fields"). */
module PbFormat {
  import opened Bytes
  import opened Coding

  datatype LType = Bool | VarInt | UVarInt | SVarInt | Fixed32 | Fixed64 | BytesArray | CharArray | Submessage | FixedLengthBytes

  /** `hasFlag` and `counted` stand for a size offset that is not zero. */
  datatype HType = Required | Optional(hasFlag: bool) | Repeated(counted: bool) | OneOf(group: nat)

  /** A statically allocated field. `sub` describes the fields of a submessage. */
  datatype Field = Field(tag: nat, ltype: LType, htype: HType, dataSize: nat, arraySize: nat, sub: seq<Field>)

  /** A number, a string of bytes or characters (without the terminator), or a submessage. */
  datatype Value = Num(n: int) | Blob(bytes: seq<Byte>) | Msg(slots: seq<Slot>)

  /** What a message holds for a field. Without a has flag, `has` is true. */
  datatype Slot = One(has: bool, value: Value) | Many(values: seq<Value>)

  const WT_VARINT := 0
  const WT_64BIT := 1
  const WT_STRING := 2
  const WT_32BIT := 5

  const PB_SIZE_MAX: nat := 0xffff_ffff  // pb_size_t is 32 bits wide in this build
  const BYTES_OFFSET := 4                // offset of the bytes in pb_bytes_array_t
  const PB_MAX_REQUIRED_FIELDS := 64

  predicate Packable(l: LType) {
    l.Bool? || l.VarInt? || l.UVarInt? || l.SVarInt? || l.Fixed32? || l.Fixed64?
  }

  function WireType(l: LType): nat {
    match l
    case Bool => WT_VARINT
    case VarInt => WT_VARINT
    case UVarInt => WT_VARINT
    case SVarInt => WT_VARINT
    case Fixed32 => WT_32BIT
    case Fixed64 => WT_64BIT
    case _ => WT_STRING
  }

  // ---------------------------------------------------------------- well-typed messages

  /** 2 to the power of the bits in `size` bytes. */
  function Range(size: nat): nat {
    if size == 1 then 0x100 else if size == 2 then 0x1_0000 else if size == 4 then TWO_32 else TWO_64
  }

  predicate IntegerSize(size: nat) {
    size == 1 || size == 2 || size == 4 || size == 8
  }

  predicate SignedIn(n: int, size: nat) {
    -(Range(size) / 2) <= n < Range(size) / 2
  }

  ghost predicate TypedValue(f: Field, v: Value)
    decreases f, 0
  {
    match f.ltype
    case Bool => v.Num? && 0 <= v.n <= 1
    case VarInt => v.Num? && IntegerSize(f.dataSize) && SignedIn(v.n, f.dataSize)
    case UVarInt => v.Num? && IntegerSize(f.dataSize) && 0 <= v.n < Range(f.dataSize)
    case SVarInt => v.Num? && IntegerSize(f.dataSize) && SignedIn(v.n, f.dataSize)
    case Fixed32 => v.Num? && 0 <= v.n < TWO_32
    case Fixed64 => v.Num? && 0 <= v.n < TWO_64
    case BytesArray => v.Blob? && |v.bytes| <= PB_SIZE_MAX
    case CharArray => v.Blob? && |v.bytes| <= f.dataSize && forall i :: 0 <= i < |v.bytes| ==> v.bytes[i] != 0
    case FixedLengthBytes => v.Blob? && |v.bytes| == f.dataSize
    case Submessage => v.Msg? && TypedSlots(f.sub, v.slots)
  }

  ghost predicate TypedSlot(f: Field, s: Slot)
    decreases f, 1
  {
    match f.htype
    case Required => s.One? && s.has && TypedValue(f, s.value)
    case Optional(hasFlag) => s.One? && (s.has || hasFlag) && TypedValue(f, s.value)
    case OneOf(_) => s.One? && TypedValue(f, s.value)
    case Repeated(counted) =>
      && s.Many? && (counted || |s.values| == f.arraySize)
      && forall i :: 0 <= i < |s.values| ==> TypedValue(f, s.values[i])
  }

  ghost predicate TypedSlots(fields: seq<Field>, slots: seq<Slot>)
    decreases fields, 0
  {
    |slots| == |fields| && forall i :: 0 <= i < |fields| ==> TypedSlot(fields[i], slots[i])
  }

  // ---------------------------------------------------------------- default values

  /** Initialised to zeros, where the descriptor has no default value. */
  function DefaultValue(f: Field): Value
    decreases f, 0
  {
    match f.ltype
    case BytesArray => Blob([])
    case CharArray => Blob([])
    case FixedLengthBytes => Blob(seq(f.dataSize, _ => 0))
    case Submessage => Msg(Defaults(f.sub))
    case _ => Num(0)
  }

  function DefaultSlot(f: Field): Slot
    decreases f, 1
  {
    match f.htype
    case Required => One(true, DefaultValue(f))
    case Optional(hasFlag) => One(!hasFlag, DefaultValue(f))
    case OneOf(_) => One(false, DefaultValue(f))
    case Repeated(counted) =>
      var d := DefaultValue(f);
      Many(if counted then [] else seq(f.arraySize, _ => d))
  }

  function Defaults(fields: seq<Field>): (r: seq<Slot>)
    ensures |r| == |fields|
    decreases fields, 0
  {
    seq(|fields|, i requires 0 <= i < |fields| => DefaultSlot(fields[i]))
  }

  // ---------------------------------------------------------------- the encoding

  function ZigZag(n: int): nat {
    if n < 0 then -2 * n - 1 else 2 * n
  }

  /** The 64 bits of a signed number. */
  function Bits64(n: int): nat
    requires 0 <= n + TWO_64
  {
    if n < 0 then n + TWO_64 else n
  }

  function TagBytes(tag: nat, wireType: nat): seq<Byte> {
    Varint(tag * 8 + wireType)
  }

  function LengthDelimited(bytes: seq<Byte>): seq<Byte> {
    Varint(|bytes|) + bytes
  }

  ghost function ValueBytes(f: Field, v: Value): seq<Byte>
    requires TypedValue(f, v)
    decreases f, 0, 0
  {
    match f.ltype
    case Bool => Varint(v.n)
    case VarInt => Varint(Bits64(v.n))
    case UVarInt => Varint(v.n)
    case SVarInt => Varint(ZigZag(v.n))
    case Fixed32 => EncodeFixed32(v.n)
    case Fixed64 => EncodeFixed64(v.n)
    case Submessage => LengthDelimited(MessageFrom(f.sub, v.slots, 0))
    case _ => LengthDelimited(v.bytes)
  }

  ghost predicate TypedValues(f: Field, vs: seq<Value>) {
    forall i :: 0 <= i < |vs| ==> TypedValue(f, vs[i])
  }

  /** The values from number `j` on, one behind the other. */
  ghost function PackedFrom(f: Field, vs: seq<Value>, j: nat): seq<Byte>
    requires TypedValues(f, vs) && j <= |vs|
    decreases f, 1, |vs| - j
  {
    if j == |vs| then [] else ValueBytes(f, vs[j]) + PackedFrom(f, vs, j + 1)
  }

  /** The same, each behind a tag. */
  ghost function TaggedFrom(f: Field, vs: seq<Value>, j: nat): seq<Byte>
    requires TypedValues(f, vs) && j <= |vs|
    decreases f, 1, |vs| - j
  {
    if j == |vs| then [] else TagBytes(f.tag, WireType(f.ltype)) + ValueBytes(f, vs[j]) + TaggedFrom(f, vs, j + 1)
  }

  /** Whether a field is written at all. */
  ghost predicate Present(f: Field, s: Slot)
    requires TypedSlot(f, s)
  {
    match f.htype
    case Required => true
    case Optional(hasFlag) => if hasFlag then s.has else !IsDefaultValue(f, s.value)
    case OneOf(_) => s.has
    case Repeated(_) => s.values != []
  }

  ghost function FieldBytes(f: Field, s: Slot): seq<Byte>
    requires TypedSlot(f, s)
    decreases f, 2, 0
  {
    if !Present(f, s) then []
    else if s.One? then TagBytes(f.tag, WireType(f.ltype)) + ValueBytes(f, s.value)
    else if Packable(f.ltype) then TagBytes(f.tag, WT_STRING) + LengthDelimited(PackedFrom(f, s.values, 0))
    else TaggedFrom(f, s.values, 0)
  }

  /** The bytes of the fields from number `k` on. */
  ghost function MessageFrom(fields: seq<Field>, slots: seq<Slot>, k: nat): seq<Byte>
    requires TypedSlots(fields, slots) && k <= |fields|
    decreases fields, |fields| - k
  {
    if k == |fields| then [] else FieldBytes(fields[k], slots[k]) + MessageFrom(fields, slots, k + 1)
  }

  /** pb_check_proto3_default_value, for a value without a has flag. */
  predicate IsDefaultValue(f: Field, v: Value)
    requires TypedValue(f, v)
    decreases f, 0
  {
    match f.ltype
    case BytesArray => v.bytes == []
    case CharArray => v.bytes == []
    case FixedLengthBytes => f.dataSize == 0
    case Submessage => AllDefault(f.sub, v.slots)
    case _ => v.n == 0
  }

  predicate IsDefaultSlot(f: Field, s: Slot)
    requires TypedSlot(f, s)
    decreases f, 1
  {
    match f.htype
    case Required => false
    case Optional(hasFlag) => if hasFlag then !s.has else IsDefaultValue(f, s.value)
    case OneOf(_) => !s.has
    case Repeated(counted) => counted && s.values == []
  }

  predicate AllDefault(fields: seq<Field>, slots: seq<Slot>)
    requires TypedSlots(fields, slots)
    decreases fields, 0
  {
    forall i :: 0 <= i < |fields| ==> IsDefaultSlot(fields[i], slots[i])
  }

  // ---------------------------------------------------------------- bounds that the encoder checks

  ghost predicate ValueFits(f: Field, v: Value)
    requires TypedValue(f, v)
    decreases f, 0
  {
    && (f.ltype.BytesArray? ==> |v.bytes| + BYTES_OFFSET <= f.dataSize)
    && (f.ltype.Submessage? ==> MessageFits(f.sub, v.slots))
  }

  ghost predicate SlotFits(f: Field, s: Slot)
    requires TypedSlot(f, s)
    decreases f, 1
  {
    Present(f, s) ==>
      if s.One? then ValueFits(f, s.value)
      else |s.values| <= f.arraySize && forall i :: 0 <= i < |s.values| ==> ValueFits(f, s.values[i])
  }

  ghost predicate MessageFits(fields: seq<Field>, slots: seq<Slot>)
    requires TypedSlots(fields, slots)
    decreases fields, 0
  {
    forall i :: 0 <= i < |fields| ==> SlotFits(fields[i], slots[i])
  }

  // ---------------------------------------------------------------- what a round trip keeps

  /** A value without what absent fields hold. */
  ghost function NormValue(f: Field, v: Value): Value
    requires TypedValue(f, v)
    decreases f, 0
  {
    if f.ltype.Submessage? then Msg(Norm(f.sub, v.slots)) else v
  }

  ghost function NormSlot(f: Field, s: Slot): Slot
    requires TypedSlot(f, s)
    decreases f, 1
  {
    if s.Many? then Many(seq(|s.values|, i requires 0 <= i < |s.values| => NormValue(f, s.values[i])))
    else if !s.has then One(false, DefaultValue(f))
    else One(true, NormValue(f, s.value))
  }

  ghost function Norm(fields: seq<Field>, slots: seq<Slot>): (r: seq<Slot>)
    requires TypedSlots(fields, slots)
    ensures |r| == |fields|
    decreases fields, 0
  {
    seq(|fields|, i requires 0 <= i < |fields| => NormSlot(fields[i], slots[i]))
  }

  // ---------------------------------------------------------------- facts

  lemma {:induction false} DefaultsAreTyped(fields: seq<Field>)
    requires Described(fields)
    ensures TypedSlots(fields, Defaults(fields))
    decreases fields, 0
  {
    forall i | 0 <= i < |fields| ensures TypedSlot(fields[i], DefaultSlot(fields[i])) {
      DefaultIsTyped(fields[i]);
    }
  }

  lemma {:induction false} DefaultIsTyped(f: Field)
    requires DescribedField(f)
    ensures TypedValue(f, DefaultValue(f)) && TypedSlot(f, DefaultSlot(f))
    decreases f, 1
  {
    if f.ltype.Submessage? {
      DefaultsAreTyped(f.sub);
    }
  }

  /** Descriptors as the generator makes them: integers of a size that there is. */
  ghost predicate DescribedField(f: Field)
    decreases f, 0
  {
    && (f.ltype.VarInt? || f.ltype.UVarInt? || f.ltype.SVarInt? ==> IntegerSize(f.dataSize))
    && (f.ltype.Submessage? ==> Described(f.sub))
  }

  ghost predicate Described(fields: seq<Field>)
    decreases fields, 0
  {
    forall i :: 0 <= i < |fields| ==> DescribedField(fields[i])
  }

  /** A value that counts as default is one, up to what absent fields hold. */
  lemma {:induction false} DefaultIsNorm(f: Field, v: Value)
    requires TypedValue(f, v) && IsDefaultValue(f, v)
    ensures NormValue(f, v) == DefaultValue(f)
    decreases f, 0
  {
    if f.ltype.Submessage? {
      AllDefaultIsNorm(f.sub, v.slots);
    }
  }

  lemma {:induction false} DefaultSlotIsNorm(f: Field, s: Slot)
    requires TypedSlot(f, s) && IsDefaultSlot(f, s)
    ensures NormSlot(f, s) == DefaultSlot(f)
    decreases f, 1
  {
    if f.htype.Optional? && !f.htype.hasFlag {
      DefaultIsNorm(f, s.value);
    }
  }

  lemma {:induction false} AllDefaultIsNorm(fields: seq<Field>, slots: seq<Slot>)
    requires TypedSlots(fields, slots) && AllDefault(fields, slots)
    ensures Norm(fields, slots) == Defaults(fields)
    decreases fields, 0
  {
    forall i | 0 <= i < |fields| ensures NormSlot(fields[i], slots[i]) == DefaultSlot(fields[i]) {
      DefaultSlotIsNorm(fields[i], slots[i]);
    }
  }

  /** A field that is not written is not missed. */
  lemma AbsentIsDefault(f: Field, s: Slot)
    requires TypedSlot(f, s) && !Present(f, s)
    ensures NormSlot(f, s) == DefaultSlot(f)
  {
    if f.htype.Optional? && !f.htype.hasFlag {
      DefaultIsNorm(f, s.value);
    }
  }
}
