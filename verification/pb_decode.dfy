/** Reading messages from a stream (nanopb/pb_decode.c, nanopb/pb_common.c). */
module PbDecode {
  import opened Bytes
  import opened Coding
  import opened DbFormat
  import opened PbFormat

  class IStream {
    const data: seq<Byte>
    var pos: nat
    var left: nat

    ghost predicate Valid()
      reads this
    {
      pos + left <= |data|
    }

    /** `bytes` come next. */
    ghost predicate Holds(bytes: seq<Byte>)
      reads this
    {
      |bytes| <= left && pos + left <= |data| && data[pos..pos + |bytes|] == bytes
    }

    /** The stream has gone on by `n` bytes since it was at `pos0` with `left0` bytes left. */
    ghost predicate Advanced(pos0: nat, left0: nat, n: nat)
      reads this
    {
      left0 == left + n && pos == pos0 + n
    }

    constructor (data: seq<Byte>, pos: nat, left: nat)
      requires pos + left <= |data|
      ensures Valid() && this.data == data && this.pos == pos && this.left == left
    {
      this.data, this.pos, this.left := data, pos, left;
    }

    /** pb_readbyte. */
    method ReadByte() returns (ok: bool, byte: Byte)
      requires Valid()
      modifies this
      ensures Valid() && ok == (old(left) > 0)
      ensures if ok then Advanced(old(pos), old(left), 1) && byte == data[old(pos)] else pos == old(pos) && left == old(left)
    {
      if left == 0 {
        return false, 0;
      }
      byte := data[pos];
      pos, left := pos + 1, left - 1;
      ok := true;
    }

    /** pb_read. */
    method Read(count: nat) returns (ok: bool, bytes: seq<Byte>)
      requires Valid()
      modifies this
      ensures Valid() && ok == (old(left) >= count)
      ensures if ok then Advanced(old(pos), old(left), count) && bytes == data[old(pos)..old(pos) + count] else pos == old(pos) && left == old(left)
    {
      if left < count {
        return false, [];
      }
      bytes := data[pos..pos + count];
      pos, left := pos + count, left - count;
      ok := true;
    }
  }

  // ---------------------------------------------------------------- numbers

  /** What the first `k` bytes of the varint of `v` give, and what is left of it. */
  ghost predicate Halfway(stream: IStream, v: nat, k: nat, left: nat, result: nat, pos0: nat, left0: nat)
    reads stream
  {
    && stream.Holds(Varint(left)) && v == result + left * Pow128(k)
    && stream.Advanced(pos0, left0, k) && |Varint(v)| == k + |Varint(left)| && (k > 0 ==> left > 0)
  }

  lemma VarintHere(stream: IStream, left: nat)
    requires stream.Valid() && stream.Holds(Varint(left))
    ensures stream.left > 0 && FromByte(stream.data[stream.pos]) == (if left < 128 then left else 128 + left % 128)
    ensures left >= 128 ==> |Varint(left)| == 1 + |Varint(left / 128)|
                            && stream.data[stream.pos + 1..stream.pos + 1 + |Varint(left / 128)|] == Varint(left / 128)
    ensures left < 128 ==> |Varint(left)| == 1
  {
    hide FromByte, ToByte, Varint;
    VarintStep(stream.data, stream.pos, |stream.data|, left);
  }

  /** The next byte of a varint. */
  method NextDigit(stream: IStream, ghost left: nat) returns (ok: bool, b: nat)
    requires stream.Valid()
    modifies stream
    ensures stream.Valid() && b < 256 && ok == (old(stream.left) > 0)
    ensures ok ==> stream.Advanced(old(stream.pos), old(stream.left), 1)
    ensures !ok ==> stream.pos == old(stream.pos) && stream.left == old(stream.left)
    ensures old(stream.Holds(Varint(left))) ==>
              && ok && b == (if left < 128 then left else 128 + left % 128)
              && if left >= 128 then stream.Holds(Varint(left / 128)) && |Varint(left)| == 1 + |Varint(left / 128)| else |Varint(left)| == 1
  {
    hide Varint, FromByte;
    if stream.Holds(Varint(left)) {
      VarintHere(stream, left);
    }
    var byte;
    ok, byte := stream.ReadByte();
    b := FromByte(byte);
  }

  /** pb_decode_varint. */
  method DecodeVarint(stream: IStream, ghost v: nat) returns (ok: bool, dest: nat)
    requires stream.Valid()
    modifies stream
    ensures stream.Valid() && stream.pos - old(stream.pos) == old(stream.left) - stream.left >= 0
    ensures ok ==> stream.left < old(stream.left) && dest < TWO_64
    ensures old(stream.Holds(Varint(v))) && v < TWO_64 ==>
              ok && dest == v && stream.Advanced(old(stream.pos), old(stream.left), |Varint(v)|)
  {
    hide Varint, FromByte, Pow128, Halfway;
    ghost var good := stream.Holds(Varint(v)) && v < TWO_64;
    ghost var left: nat := v;
    var result: nat, k, scale := 0, 0, 1;
    FirstPower();
    if good {
      NotBegun(stream, v);
    }
    while true
      invariant stream.Valid() && 0 <= k && scale == Pow128(k)
      invariant stream.pos - old(stream.pos) == old(stream.left) - stream.left == k
      invariant result < TWO_64
      invariant good ==> Halfway(stream, v, k, left, result, old(stream.pos), old(stream.left))
      modifies stream
      decreases stream.left
    {
      if good {
        HalfwayParts(stream, v, k, left, result, old(stream.pos), old(stream.left));
      }
      if 7 * k >= 64 {
        return false, 0;
      }
      var more, b := NextDigit(stream, left);
      if !more {
        return false, 0;
      }
      if good {
        assert b % 128 == left % 128;
        DigitTaken(stream, v, k, left, result, old(stream.pos), old(stream.left));
      }
      NextPower(k);
      result, k, scale := (result + b % 128 * scale) % TWO_64, k + 1, scale * 128;
      if b < 128 {
        return true, result;
      }
      left := left / 128;
    }
  }

  lemma NotBegun(stream: IStream, v: nat)
    requires stream.Valid() && stream.Holds(Varint(v))
    ensures Halfway(stream, v, 0, v, 0, stream.pos, stream.left)
  {
    hide Varint;
  }

  lemma HalfwayParts(stream: IStream, v: nat, k: nat, left: nat, result: nat, pos0: nat, left0: nat)
    requires Halfway(stream, v, k, left, result, pos0, left0) && v < TWO_64
    ensures k < 10 && stream.Holds(Varint(left)) && v == result + left * Pow128(k)
    ensures stream.Advanced(pos0, left0, k) && |Varint(v)| == k + |Varint(left)|
  {
    hide Varint, Pow128;
    if k > 0 {
      TooFar(v, k, left, result);
    }
  }

  /** The sum after one more digit; the last digit completes it. */
  lemma DigitTaken(stream: IStream, v: nat, k: nat, left: nat, result: nat, pos0: nat, left0: nat)
    requires v == result + left * Pow128(k) && v < TWO_64 && stream.Advanced(pos0, left0, k + 1)
    requires left >= 128 ==> stream.Holds(Varint(left / 128)) && |Varint(v)| == k + 1 + |Varint(left / 128)|
    ensures result + left % 128 * Pow128(k) < TWO_64
    ensures left >= 128 ==> Halfway(stream, v, k + 1, left / 128, result + left % 128 * Pow128(k), pos0, left0)
    ensures left < 128 ==> result + left % 128 * Pow128(k) == v
  {
    hide Varint, Pow128;
    DigitMoves(v, k, left, result);
    AtLeastZero(left % 128, Pow128(k));
    SumBelow(v, result + left % 128 * Pow128(k), left / 128, Pow128(k + 1), TWO_64);
  }

  /** pb_decode_varint32: a number below 2 to the 32nd, or a negative one sign-extended to 64 bits.
      `eof` is set when the stream ends before the first byte. */
  method DecodeVarint32(stream: IStream, ghost v: nat) returns (ok: bool, dest: nat, eof: bool)
    requires stream.Valid()
    modifies stream
    ensures stream.Valid() && stream.pos - old(stream.pos) == old(stream.left) - stream.left >= 0
    ensures ok ==> stream.left < old(stream.left) && dest < TWO_32 && !eof
    ensures old(stream.Holds(Varint(v))) && (v < TWO_32 || TWO_64 - 0x8000_0000 <= v < TWO_64) ==>
              ok && dest == v % TWO_32 && stream.Advanced(old(stream.pos), old(stream.left), |Varint(v)|)
  {
    hide Varint, Pow128, Early, SignTail, IStream.Holds;
    ghost var good := stream.Holds(Varint(v)) && (v < TWO_32 || TWO_64 - 0x8000_0000 <= v < TWO_64);
    var more, b := NextDigit(stream, v);
    if !more {
      return false, 0, true;
    }
    if b < 128 {
      return true, b, false;
    }
    if good {
      EarlyStart(v);
    }
    ok, dest := DecodeTail(stream, b % 128, v, good);
    eof := false;
  }

  /** The bytes after the first. */
  method DecodeTail(stream: IStream, first: nat, ghost v: nat, ghost good: bool) returns (ok: bool, dest: nat)
    requires stream.Valid() && first < 128
    requires good ==> stream.Holds(Varint(v / 128)) && v >= 128 && Early(v, 1, v / 128, first) && (v < TWO_32 || TWO_64 - 0x8000_0000 <= v < TWO_64)
    modifies stream
    ensures stream.Valid() && stream.pos - old(stream.pos) == old(stream.left) - stream.left >= 0
    ensures ok ==> dest < TWO_32
    ensures good ==> ok && dest == v % TWO_32 && stream.Advanced(old(stream.pos), old(stream.left), |Varint(v / 128)|)
  {
    hide Varint, Pow128, Early, SignTail, IStream.Holds;
    ghost var left: nat, k := v / 128, 1;
    var bitpos, scale, result: nat, b := 7, 128, first, 128;
    Powers();
    while b >= 128
      invariant stream.Valid() && k >= 1 && bitpos == 7 * k && scale == Pow128(k) && 0 <= b < 256
      invariant stream.pos - old(stream.pos) == old(stream.left) - stream.left == k - 1
      invariant result < TWO_32
      invariant good ==> TailState(v, k, left, result, b) && (b >= 128 ==> stream.Holds(Varint(left)))
      invariant good ==> |Varint(v / 128)| == k - 1 + if b >= 128 then |Varint(left)| else 0
      modifies stream
      decreases stream.left, b
    {
      if good {
        TailStep(v, k, left, result, b);
      }
      var more;
      more, b := NextDigit(stream, left);
      if !more {
        return false, 0;
      }
      if bitpos >= 32 {
        var signExtension := if bitpos < 63 then 0xFF else 0x01;
        if b % 128 != 0 && (result / 0x8000_0000 == 0 || b != signExtension) {
          return false, 0;
        }
      } else {
        result := (result + b % 128 * scale) % TWO_32;
      }
      NextPower(k);
      k := k + 1;
      bitpos := bitpos + 7;
      scale := scale * 128;
      left := left / 128;
    }
    if good {
      TailEnds(v, k, left, result, b);
    }
    if bitpos == 35 && b / 16 % 8 != 0 {
      return false, 0;
    }
    return true, result;
  }

  /** What has been read when the last byte read was `b`. */
  ghost predicate TailState(v: nat, k: nat, left: nat, result: nat, b: nat) {
    && (b >= 128 <==> left > 0)
    && (k < 5 ==> Early(v, k, left, result))
    && (k == 5 && b < 128 ==> b < 16)
    && (k >= 5 ==> result == v % TWO_32 && (left > 0 ==> SignTail(v, k, left)))
  }

  lemma TailStep(v: nat, k: nat, left: nat, result: nat, b: nat)
    requires k >= 1 && TailState(v, k, left, result, b) && b >= 128
    requires v < TWO_32 || TWO_64 - 0x8000_0000 <= v < TWO_64
    ensures var next := if left < 128 then left else 128 + left % 128;
            var r := if 7 * k >= 32 then result else (result + next % 128 * Pow128(k)) % TWO_32;
            && TailState(v, k + 1, left / 128, r, next)
            && (7 * k >= 32 && next % 128 != 0 ==> result / 0x8000_0000 != 0 && next == if 7 * k < 63 then 0xFF else 0x01)
  {
    hide Pow128, Early, SignTail;
    if k < 5 {
      EarlyStep(v, k, left, result);
    } else {
      TailByte(v, k, left);
    }
  }

  lemma TailEnds(v: nat, k: nat, left: nat, result: nat, b: nat)
    requires TailState(v, k, left, result, b) && b < 128 && result < TWO_32
    ensures result == v % TWO_32 && (k == 5 ==> b / 16 % 8 == 0)
  {
    hide Pow128, Early, SignTail;
    if k < 5 {
      EarlyEnd(v, k, result);
    }
  }

  /** What is left of a sign-extended number after five bytes or more: nothing but ones. */
  ghost predicate SignTail(v: nat, k: nat, left: nat) {
    v >= TWO_64 - 0x8000_0000 && (
      (k == 5 && left == 0x1fff_ffff) || (k == 6 && left == 0x3f_ffff) || (k == 7 && left == 0x7fff) || (k == 8 && left == 0xff) || (k == 9 && left == 1))
  }

  lemma TailByte(v: nat, k: nat, left: nat)
    requires v < TWO_64 && SignTail(v, k, left)
    ensures v % TWO_32 / 0x8000_0000 == 1
    ensures if k < 9 then left >= 128 && left % 128 == 127 && SignTail(v, k + 1, left / 128) else left == 1
  {
  }

  /** After fewer than five bytes nothing has been cut off. */
  ghost predicate Early(v: nat, k: nat, left: nat, result: nat) {
    v == result + left * Pow128(k) && result < Pow128(k)
  }

  lemma EarlyStart(v: nat)
    ensures Early(v, 1, v / 128, v % 128)
  {
    Powers();
  }

  lemma EarlyEnd(v: nat, k: nat, result: nat)
    requires Early(v, k, 0, result) && result < TWO_32
    ensures result == v % TWO_32
  {
  }

  lemma EarlyStep(v: nat, k: nat, left: nat, result: nat)
    requires 1 <= k < 5 && left > 0 && Early(v, k, left, result)
    requires v < TWO_32 || TWO_64 - 0x8000_0000 <= v < TWO_64
    ensures var r := (result + left % 128 * Pow128(k)) % TWO_32;
            && (k < 4 ==> Early(v, k + 1, left / 128, r))
            && (k == 4 ==> r == v % TWO_32 && (left / 128 > 0 ==> SignTail(v, 5, left / 128)) && (left < 128 ==> left < 16))
  {
    Powers();
    DigitMoves(v, k, left, result);
    hide Pow128;
    if k == 1 {
      assert Pow128(1) == 128 && Pow128(2) == 0x4000;
    } else if k == 2 {
      assert Pow128(2) == 0x4000 && Pow128(3) == 0x20_0000;
    } else if k == 3 {
      assert Pow128(3) == 0x20_0000 && Pow128(4) == 0x1000_0000;
    } else {
      FifthByte(v, left, result);
    }
  }

  lemma FifthByte(v: nat, left: nat, result: nat)
    requires v == result + left * 0x1000_0000 && result < 0x1000_0000 && left > 0
    requires v < TWO_32 || TWO_64 - 0x8000_0000 <= v < TWO_64
    ensures (result + left % 128 * 0x1000_0000) % TWO_32 == v % TWO_32
    ensures left / 128 > 0 ==> SignTail(v, 5, left / 128)
    ensures left < 128 ==> left < 16
  {
    assert v == result + left % 128 * 0x1000_0000 + left / 128 * 8 * TWO_32;
  }

  /** pb_decode_tag. A tag of zero ends the message. */
  method DecodeTag(stream: IStream, ghost field: nat, ghost wire: nat) returns (ok: bool, wireType: nat, tag: nat, eof: bool)
    requires stream.Valid()
    modifies stream
    ensures stream.Valid() && stream.pos - old(stream.pos) == old(stream.left) - stream.left >= 0
    ensures ok ==> stream.left < old(stream.left) && wireType < 8
    ensures old(stream.Holds(TagBytes(field, wire))) && 0 < field < 0x2000_0000 && wire < 8 ==>
              ok && tag == field && wireType == wire && stream.Advanced(old(stream.pos), old(stream.left), |TagBytes(field, wire)|)
  {
    hide Varint;
    var temp;
    ok, temp, eof := DecodeVarint32(stream, field * 8 + wire);
    if !ok {
      return false, 0, 0, eof;
    }
    if temp == 0 {
      return false, 0, 0, true;
    }
    return true, temp % 8, temp / 8, false;
  }

  method SkipVarint(stream: IStream) returns (ok: bool)
    requires stream.Valid()
    modifies stream
    ensures stream.Valid() && stream.pos - old(stream.pos) == old(stream.left) - stream.left >= 0
  {
    while true
      invariant stream.Valid() && stream.pos - old(stream.pos) == old(stream.left) - stream.left >= 0
      modifies stream
      decreases stream.left
    {
      var more, byte := stream.ReadByte();
      if !more {
        return false;
      }
      if FromByte(byte) < 128 {
        return true;
      }
    }
  }

  /** pb_skip_field. */
  method SkipField(stream: IStream, wireType: nat) returns (ok: bool)
    requires stream.Valid()
    modifies stream
    ensures stream.Valid() && stream.pos - old(stream.pos) == old(stream.left) - stream.left >= 0
  {
    var skipped;
    if wireType == WT_VARINT {
      ok := SkipVarint(stream);
    } else if wireType == WT_64BIT {
      ok, skipped := stream.Read(8);
    } else if wireType == WT_STRING {
      var length, eof;
      ok, length, eof := DecodeVarint32(stream, 0);
      if ok {
        ok, skipped := stream.Read(length);
      }
    } else if wireType == WT_32BIT {
      ok, skipped := stream.Read(4);
    } else {
      ok := false;
    }
  }

  // ---------------------------------------------------------------- what the decoder can give back

  /** What fits the wire format and the destination: tags of up to 29 bits, lengths below 2 to the
      32nd, strings with room for their terminator. */
  ghost predicate Sendable(f: Field, v: Value)
    requires TypedValue(f, v)
    decreases f, 0
  {
    && ValueFits(f, v)
    && (f.ltype.CharArray? ==> |v.bytes| < f.dataSize)
    && (f.ltype.FixedLengthBytes? ==> f.dataSize <= PB_SIZE_MAX)
    && |ValueBytes(f, v)| < TWO_32
    && (f.ltype.Submessage? ==> SendableSlots(f.sub, v.slots))
  }

  ghost predicate SendableSlot(f: Field, s: Slot)
    requires TypedSlot(f, s)
    decreases f, 1
  {
    && SlotFits(f, s)
    && (Present(f, s) && s.One? ==> Sendable(f, s.value))
    && (s.Many? ==> (forall i :: 0 <= i < |s.values| ==> Sendable(f, s.values[i])) && |FieldBytes(f, s)| < TWO_32)
  }

  ghost predicate SendableSlots(fields: seq<Field>, slots: seq<Slot>)
    requires TypedSlots(fields, slots)
    decreases fields, 0
  {
    && (forall i :: 0 <= i < |fields| ==> 0 < fields[i].tag < 0x2000_0000 && SendableSlot(fields[i], slots[i]))
    && (forall i, j :: 0 <= i < j < |fields| ==> fields[i].tag != fields[j].tag)
    && (forall i, j :: 0 <= i < j < |fields| ==> !SameUnion(fields, slots, i, j))
  }

  /** Two members of one oneof are both set. */
  ghost predicate SameUnion(fields: seq<Field>, slots: seq<Slot>, i: nat, j: nat)
    requires TypedSlots(fields, slots) && i < |fields| && j < |fields|
  {
    fields[i].htype.OneOf? && fields[i].htype == fields[j].htype && slots[i].One? && slots[j].One? && slots[i].has && slots[j].has
  }

  // ---------------------------------------------------------------- values

  /** The two's complement number with the given lowest bits. */
  function Signed(n: nat, size: nat): int {
    var m := n % Range(size);
    if m < Range(size) / 2 then m else m - Range(size)
  }

  /** The cast of a signed number to an integer of the given size. */
  function Cast(n: int, size: nat): int {
    Signed(n % TWO_64, size)
  }

  lemma WideMod(n: int, size: nat)
    requires IntegerSize(size)
    ensures n % TWO_64 % Range(size) == n % Range(size)
  {
    var q := n / TWO_64;
    assert n == q * TWO_64 + n % TWO_64;
    if size == 1 {
      SmallMod(n % TWO_64, q * 0x100_0000_0000_0000, 0x100);
    } else if size == 2 {
      SmallMod(n % TWO_64, q * 0x1_0000_0000_0000, 0x1_0000);
    } else if size == 4 {
      SmallMod(n % TWO_64, q * TWO_32, TWO_32);
    }
  }

  lemma SmallMod(a: int, c: int, r: nat)
    requires r == 0x100 || r == 0x1_0000 || r == TWO_32
    ensures (a + c * r) % r == a % r
  {
  }

  lemma SignedIs(m: nat, n: int, size: nat)
    requires IntegerSize(size) && SignedIn(n, size) && m % Range(size) == n % Range(size)
    ensures Signed(m, size) == n
  {
    var r := Range(size);
    if n >= 0 {
      assert n % r == n;
    } else {
      assert n % r == n + r;
    }
  }

  lemma CastBack(n: int, size: nat)
    requires IntegerSize(size) && SignedIn(n, size)
    ensures Cast(n, size) == n
  {
    WideMod(n, size);
    SignedIs(n % TWO_64, n, size);
  }

  lemma NarrowIn(n: int, size: nat)
    requires IntegerSize(size) && SignedIn(n, size)
    ensures SignedIn(n, 8) && (size != 8 ==> SignedIn(n, 4))
    ensures Bits64(n) == n % TWO_64
  {
  }

  lemma SignedBack(n: int, size: nat)
    requires IntegerSize(size) && SignedIn(n, size)
    ensures Bits64(n) < TWO_64
    ensures var s := if size == 8 then Signed(Bits64(n), 8) else Signed(Bits64(n), 4); s == n && Cast(s, size) == n
  {
    NarrowIn(n, size);
    CastBack(n, size);
    CastBack(n, if size == 8 then 8 else 4);
    hide Signed, Range, SignedIn;
  }

  lemma CastIsIn(n: int, size: nat)
    requires IntegerSize(size)
    ensures SignedIn(Cast(n, size), size)
  {
  }

  lemma ZigZagBack(n: int, size: nat)
    requires IntegerSize(size) && SignedIn(n, size)
    ensures ZigZag(n) < TWO_64 && (if ZigZag(n) % 2 == 1 then -(ZigZag(n) / 2) - 1 else ZigZag(n) / 2) == n && Cast(n, size) == n
  {
    NarrowIn(n, size);
    CastBack(n, size);
    hide Signed, Cast;
  }

  lemma CastOfSigned(n: nat, size: nat)
    requires IntegerSize(size) && n < TWO_64
    ensures var s := if size == 8 then Signed(n, 8) else Signed(n, 4); Cast(s, size) == s ==> SignedIn(s, size)
  {
    CastIsIn(if size == 8 then Signed(n, 8) else Signed(n, 4), size);
  }

  /** pb_dec_bool, pb_dec_varint, pb_dec_uvarint, pb_dec_svarint, pb_dec_fixed32 and pb_dec_fixed64. */
  method DecodeNumber(stream: IStream, f: Field, ghost src: Value) returns (ok: bool, n: int)
    requires stream.Valid() && Packable(f.ltype)
    modifies stream
    ensures stream.Valid() && stream.pos - old(stream.pos) == old(stream.left) - stream.left >= 0
    ensures ok ==> TypedValue(f, Num(n)) && stream.left < old(stream.left)
    ensures TypedValue(f, src) && old(stream.Holds(ValueBytes(f, src))) ==>
              ok && src == Num(n) && stream.Advanced(old(stream.pos), old(stream.left), |ValueBytes(f, src)|)
  {
    hide Varint, IStream.Holds, Signed, Cast, SignedIn, Range, Bits64, ZigZag, EncodeFixed32, EncodeFixed64, DecodeFixed32, DecodeFixed64;
    ghost var good := TypedValue(f, src) && stream.Holds(ValueBytes(f, src));
    var eof, value: nat;
    n := 0;
    if f.ltype.Bool? {
      ok, value, eof := DecodeVarint32(stream, if good then src.n else 0);
      n := if value != 0 then 1 else 0;
    } else if f.ltype.Fixed32? || f.ltype.Fixed64? {
      ok, n := DecodeFixed(stream, f, src);
    } else if !IntegerSize(f.dataSize) {
      ok := false;
    } else {
      if good {
        NumberBits(f, src);
      }
      ok, value := DecodeVarint(stream, if !good then 0 else if f.ltype.VarInt? then Bits64(src.n) else if f.ltype.UVarInt? then src.n else ZigZag(src.n));
      if ok {
        ok, n := Clamp(f, value, src, good);
      }
    }
  }

  lemma NumberBits(f: Field, src: Value)
    requires TypedValue(f, src) && (f.ltype.VarInt? || f.ltype.UVarInt? || f.ltype.SVarInt?)
    ensures f.ltype.VarInt? ==> 0 <= src.n + TWO_64 && Bits64(src.n) < TWO_64
    ensures f.ltype.UVarInt? ==> 0 <= src.n < TWO_64
    ensures f.ltype.SVarInt? ==> ZigZag(src.n) < TWO_64
  {
    RangeBounds(f.dataSize);
  }

  lemma RangeBounds(size: nat)
    ensures Range(size) <= TWO_64 && (IntegerSize(size) ==> Range(size) % 2 == 0)
  {
  }

  /** The cast to the size of the field; a number that it changes is too large. */
  method Clamp(f: Field, value: nat, ghost src: Value, ghost good: bool) returns (ok: bool, n: int)
    requires IntegerSize(f.dataSize) && value < TWO_64 && (f.ltype.VarInt? || f.ltype.UVarInt? || f.ltype.SVarInt?)
    requires good ==> TypedValue(f, src)
    requires good && f.ltype.VarInt? ==> 0 <= src.n + TWO_64 && value == Bits64(src.n)
    requires good && f.ltype.UVarInt? ==> value == src.n
    requires good && f.ltype.SVarInt? ==> value == ZigZag(src.n)
    ensures ok ==> TypedValue(f, Num(n))
    ensures good ==> ok && src == Num(n)
  {
    hide Signed, Cast, SignedIn, Bits64, ZigZag;
    if f.ltype.VarInt? {
      if good {
        SignedBack(src.n, f.dataSize);
      }
      var svalue := if f.dataSize == 8 then Signed(value, 8) else Signed(value, 4);
      CastOfSigned(value, f.dataSize);
      n := Cast(svalue, f.dataSize);
      ok := n == svalue;
    } else if f.ltype.UVarInt? {
      n := value % Range(f.dataSize);
      ok := n == value;
    } else {
      if good {
        ZigZagBack(src.n, f.dataSize);
      }
      var svalue := if value % 2 == 1 then -(value / 2) - 1 else value / 2;
      CastIsIn(svalue, f.dataSize);
      n := Cast(svalue, f.dataSize);
      ok := n == svalue;
    }
  }

  method DecodeFixed(stream: IStream, f: Field, ghost src: Value) returns (ok: bool, n: int)
    requires stream.Valid() && (f.ltype.Fixed32? || f.ltype.Fixed64?)
    modifies stream
    ensures stream.Valid() && stream.pos - old(stream.pos) == old(stream.left) - stream.left >= 0
    ensures ok ==> TypedValue(f, Num(n)) && stream.left < old(stream.left)
    ensures TypedValue(f, src) && old(stream.Holds(ValueBytes(f, src))) ==>
              ok && src == Num(n) && stream.Advanced(old(stream.pos), old(stream.left), |ValueBytes(f, src)|)
  {
    hide EncodeFixed32, DecodeFixed32;
    var bytes;
    if f.ltype.Fixed32? {
      ok, bytes := stream.Read(4);
      n := if ok then DecodeFixed32(bytes) else 0;
      if TypedValue(f, src) {
        Fixed32RoundTrip(src.n, []);
        assert EncodeFixed32(src.n) + [] == EncodeFixed32(src.n);
      }
    } else {
      ok, bytes := stream.Read(8);
      n := if ok then DecodeFixed64(bytes) else 0;
      if TypedValue(f, src) {
        Fixed64RoundTrip(src.n);
      }
    }
  }

  /** The characters before the first terminator. */
  function CString(bytes: seq<Byte>): (r: seq<Byte>)
    ensures |r| <= |bytes| && forall i :: 0 <= i < |r| ==> r[i] != 0
    ensures (forall i :: 0 <= i < |bytes| ==> bytes[i] != 0) ==> r == bytes
  {
    if bytes == [] || bytes[0] == 0 then [] else [bytes[0]] + CString(bytes[1..])
  }

  /** pb_dec_bytes, pb_dec_string and pb_dec_fixed_length_bytes. */
  method DecodeBlob(stream: IStream, f: Field, ghost src: Value) returns (ok: bool, bytes: seq<Byte>)
    requires stream.Valid() && (f.ltype.BytesArray? || f.ltype.CharArray? || f.ltype.FixedLengthBytes?)
    modifies stream
    ensures stream.Valid() && stream.pos - old(stream.pos) == old(stream.left) - stream.left >= 0
    ensures ok ==> TypedValue(f, Blob(bytes)) && stream.left < old(stream.left)
    ensures TypedValue(f, src) && Sendable(f, src) && old(stream.Holds(ValueBytes(f, src))) ==>
              ok && src == Blob(bytes) && stream.Advanced(old(stream.pos), old(stream.left), |ValueBytes(f, src)|)
  {
    hide Varint, CString;
    ghost var good := TypedValue(f, src) && Sendable(f, src) && stream.Holds(ValueBytes(f, src));
    if good {
      LengthThenBytes(stream, src.bytes);
    }
    var size, eof;
    ok, size, eof := DecodeVarint32(stream, if good then |src.bytes| else 0);
    bytes := [];
    if !ok {
      return;
    }
    if f.ltype.BytesArray? {
      if size + BYTES_OFFSET > f.dataSize {
        return false, [];
      }
      ok, bytes := stream.Read(size);
    } else if f.ltype.CharArray? {
      if size + 1 > f.dataSize {
        return false, [];
      }
      ok, bytes := stream.Read(size);
      bytes := CString(bytes);
    } else {
      if size == 0 {
        bytes := seq(f.dataSize, _ => 0);
        return;
      }
      if size != f.dataSize {
        return false, [];
      }
      ok, bytes := stream.Read(size);
    }
  }

  lemma LengthThenBytes(stream: IStream, bytes: seq<Byte>)
    requires stream.Valid() && stream.Holds(LengthDelimited(bytes))
    ensures stream.Holds(Varint(|bytes|)) && |Varint(|bytes|)| + |bytes| <= stream.left
    ensures stream.data[stream.pos + |Varint(|bytes|)|..stream.pos + |Varint(|bytes|)| + |bytes|] == bytes
  {
    hide Varint;
    HoldsBoth(stream.data, stream.pos, Varint(|bytes|), bytes);
  }

  lemma HoldsBoth(data: seq<Byte>, p: nat, a: seq<Byte>, b: seq<Byte>)
    requires p + |a + b| <= |data| && data[p..p + |a + b|] == a + b
    ensures data[p..p + |a|] == a && data[p + |a|..p + |a| + |b|] == b
  {
    var whole := data[p..p + |a + b|];
    assert whole[..|a|] == a && whole[|a|..] == b;
    assert whole[..|a|] == data[p..p + |a|];
    assert whole[|a|..] == data[p + |a|..p + |a| + |b|];
  }
}
