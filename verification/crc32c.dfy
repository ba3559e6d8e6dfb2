/** CRC-32C: the four-way strided form against the bit-serial definition (util/crc32c.cc, util/crc32c.h). */
module Crc32c {
  import opened Bytes

  /** The polynomial of section 12.1 of RFC 3720, bits reversed. */
  const POLYNOMIAL: bv32 := 0x82f6_3b78

  const CRC_XOR: bv32 := 0xffff_ffff

  // ---------------------------------------------------------------- words as an abelian group

  /** The xor of two words, by a name, so that most of what follows can use its laws alone. */
  function Xor(a: bv32, b: bv32): bv32 {
    a ^ b
  }

  lemma XorAssociates(a: bv32, b: bv32, c: bv32)
    ensures Xor(Xor(a, b), c) == Xor(a, Xor(b, c))
  {
  }

  lemma XorCommutes(a: bv32, b: bv32)
    ensures Xor(a, b) == Xor(b, a)
  {
  }

  lemma XorTwice(a: bv32, b: bv32)
    ensures Xor(Xor(a, b), b) == a
  {
  }

  lemma XorReorders(a: bv32, b: bv32, c: bv32)
    ensures Xor(Xor(a, b), c) == Xor(b, Xor(c, a))
  {
    hide Xor;
    XorCommutes(a, b);
    XorAssociates(b, a, c);
    XorCommutes(a, c);
  }

  lemma XorRight(a: bv32, b: bv32, c: bv32)
    ensures Xor(Xor(a, b), c) == Xor(Xor(a, c), b)
  {
    hide Xor;
    XorAssociates(a, b, c);
    XorCommutes(b, c);
    XorAssociates(a, c, b);
  }

  lemma XorCancels(a: bv32, b: bv32, c: bv32)
    ensures Xor(Xor(a, c), Xor(b, c)) == Xor(a, b)
  {
    hide Xor;
    XorAssociates(Xor(a, c), b, c);
    XorRight(a, c, b);
    XorTwice(Xor(a, b), c);
  }

  // ---------------------------------------------------------------- the definition

  predicate Odd(l: bv32) {
    l & 1 == 1
  }

  function Half(l: bv32): bv32 {
    l >> 1
  }

  /** The remainder after one more zero bit. */
  function ShiftBit(l: bv32): bv32 {
    if Odd(l) then Xor(Half(l), POLYNOMIAL) else Half(l)
  }

  function ShiftNibble(l: bv32): bv32 {
    ShiftBit(ShiftBit(ShiftBit(ShiftBit(l))))
  }

  /** The remainder after eight more zero bits. */
  function ShiftByte(l: bv32): bv32 {
    ShiftNibble(ShiftNibble(l))
  }

  function Wide(b: Byte): bv32 {
    b as bv32
  }

  function Step(l: bv32, b: Byte): bv32 {
    ShiftByte(Xor(l, Wide(b)))
  }

  /** The recurrence, one byte at a time. */
  function Bytewise(l: bv32, data: seq<Byte>): bv32 {
    if data == [] then l else Step(Bytewise(l, data[..|data| - 1]), data[|data| - 1])
  }

  function Extended(crc: bv32, data: seq<Byte>): bv32 {
    Xor(Bytewise(Xor(crc, CRC_XOR), data), CRC_XOR)
  }

  function Value(data: seq<Byte>): bv32 {
    Extended(0, data)
  }

  /** Checksumming in two parts is checksumming the whole. */
  lemma ExtendComposes(crc: bv32, a: seq<Byte>, b: seq<Byte>)
    ensures Extended(Extended(crc, a), b) == Extended(crc, a + b)
  {
    hide Xor, Bytewise;
    XorTwice(Bytewise(Xor(crc, CRC_XOR), a), CRC_XOR);
    BytewiseComposes(Xor(crc, CRC_XOR), a, b);
  }

  lemma {:induction false} BytewiseComposes(l: bv32, a: seq<Byte>, b: seq<Byte>)
    ensures Bytewise(Bytewise(l, a), b) == Bytewise(l, a + b)
  {
    hide Step;
    if b == [] {
      assert a + b == a;
    } else {
      BytewiseComposes(l, a, b[..|b| - 1]);
      assert (a + b)[..|a + b| - 1] == a + b[..|b| - 1];
    }
  }

  /** The form in which checksums are stored. */
  function Mask(crc: bv32): bv32 {
    ((crc >> 15) | (crc << 17)) + 0xa282_ead8
  }

  function Unmask(masked: bv32): bv32 {
    var rot := masked - 0xa282_ead8;
    (rot >> 17) | (rot << 15)
  }

  lemma UnmaskOfMask(crc: bv32)
    ensures Unmask(Mask(crc)) == crc
  {
    assert (crc >> 15) | (crc << 17) == Mask(crc) - 0xa282_ead8;
  }

  /** A word as a number, and back. */
  function WordValue(w: bv32): (n: nat)
    ensures n < 0x1_0000_0000
  {
    w as int
  }

  function ToWord(n: nat): bv32
    requires n < 0x1_0000_0000
  {
    n as bv32
  }

  lemma WordRoundTrip(w: bv32)
    ensures ToWord(WordValue(w)) == w
  {
  }

  // ---------------------------------------------------------------- linearity

  lemma XorOdd(a: bv32, b: bv32)
    ensures Odd(Xor(a, b)) <==> Odd(a) != Odd(b)
  {
  }

  lemma XorHalf(a: bv32, b: bv32)
    ensures Half(Xor(a, b)) == Xor(Half(a), Half(b))
  {
  }

  lemma ShiftBitLinear(a: bv32, b: bv32)
    ensures ShiftBit(Xor(a, b)) == Xor(ShiftBit(a), ShiftBit(b))
  {
    hide Xor, Odd, Half;
    XorOdd(a, b);
    XorHalf(a, b);
    XorCancels(Half(a), Half(b), POLYNOMIAL);
    XorRight(Half(a), POLYNOMIAL, Half(b));
    XorAssociates(Half(a), Half(b), POLYNOMIAL);
  }

  lemma ShiftNibbleLinear(a: bv32, b: bv32)
    ensures ShiftNibble(Xor(a, b)) == Xor(ShiftNibble(a), ShiftNibble(b))
  {
    hide Xor, ShiftBit;
    var a1, b1 := ShiftBit(a), ShiftBit(b);
    var a2, b2 := ShiftBit(a1), ShiftBit(b1);
    var a3, b3 := ShiftBit(a2), ShiftBit(b2);
    ShiftBitLinear(a, b);
    ShiftBitLinear(a1, b1);
    ShiftBitLinear(a2, b2);
    ShiftBitLinear(a3, b3);
  }

  lemma ShiftByteLinear(a: bv32, b: bv32)
    ensures ShiftByte(Xor(a, b)) == Xor(ShiftByte(a), ShiftByte(b))
  {
    hide Xor, ShiftNibble;
    ShiftNibbleLinear(a, b);
    ShiftNibbleLinear(ShiftNibble(a), ShiftNibble(b));
  }

  /** The remainder after `n` zero bytes. */
  function Zeros(l: bv32, n: nat): bv32 {
    if n == 0 then l else ShiftByte(Zeros(l, n - 1))
  }

  lemma {:induction false} ZerosLinear(a: bv32, b: bv32, n: nat)
    ensures Zeros(Xor(a, b), n) == Xor(Zeros(a, n), Zeros(b, n))
  {
    hide Xor, ShiftByte;
    if n > 0 {
      ZerosLinear(a, b, n - 1);
      ShiftByteLinear(Zeros(a, n - 1), Zeros(b, n - 1));
    }
  }

  lemma {:induction false} ZerosCompose(l: bv32, m: nat, n: nat)
    ensures Zeros(Zeros(l, m), n) == Zeros(l, m + n)
  {
    hide ShiftByte;
    if n > 0 {
      ZerosCompose(l, m, n - 1);
    }
  }

  // ---------------------------------------------------------------- the tables

  function LowByte(l: bv32): Byte {
    (l & 0xff) as Byte
  }

  function DropByte(l: bv32): bv32 {
    l >> 8
  }

  /** kByteExtensionTable: one byte further. */
  function ByteExtension(c: Byte): bv32 {
    ShiftByte(Wide(c))
  }

  /** kStrideExtensionTable3, 2, 1 and 0: a word with one byte that is not zero, sixteen bytes further. */
  function StrideExtension3(c: Byte): bv32 { Zeros(Word(c, 0, 0, 0), 16) }
  function StrideExtension2(c: Byte): bv32 { Zeros(Word(0, c, 0, 0), 16) }
  function StrideExtension1(c: Byte): bv32 { Zeros(Word(0, 0, c, 0), 16) }
  function StrideExtension0(c: Byte): bv32 { Zeros(Word(0, 0, 0, c), 16) }

  /** ReadUint32LE. */
  function Word(a: Byte, b: Byte, c: Byte, d: Byte): bv32 {
    (a as bv32) | ((b as bv32) << 8) | ((c as bv32) << 16) | ((d as bv32) << 24)
  }

  /** Sixteen zero bits later, nothing but zero bits has left a word whose low byte is zero. */
  lemma HighPart(b: Byte, c: Byte, d: Byte)
    ensures ShiftByte(Word(0, b, c, d)) == Word(b, c, d, 0)
  {
    EvenBits(Word(0, b, c, d));
  }

  lemma EvenBits(w: bv32)
    requires w & 0xff == 0
    ensures ShiftByte(w) == w >> 8
  {
    TwoNibbles(w);
    hide ShiftNibble;
    EvenNibble(w);
    EvenNibble(w >> 4);
  }

  lemma TwoNibbles(w: bv32)
    requires w & 0xff == 0
    ensures w & 0xf == 0 && (w >> 4) & 0xf == 0 && (w >> 4) >> 4 == w >> 8
  {
  }

  lemma EvenNibble(w: bv32)
    requires w & 0xf == 0
    ensures ShiftNibble(w) == w >> 4
  {
    FourHalves(w);
    hide Xor, Odd, Half;
  }

  lemma FourHalves(w: bv32)
    requires w & 0xf == 0
    ensures !Odd(w) && !Odd(Half(w)) && !Odd(Half(Half(w))) && !Odd(Half(Half(Half(w))))
    ensures Half(Half(Half(Half(w)))) == w >> 4
  {
  }

  lemma WordSplits(a: Byte, b: Byte, c: Byte, d: Byte)
    ensures Word(a, b, c, d) == Xor(Wide(a), Word(0, b, c, d))
    ensures LowByte(Word(a, b, c, d)) == a && DropByte(Word(a, b, c, d)) == Word(b, c, d, 0)
  {
  }

  lemma IsWord(l: bv32) returns (a: Byte, b: Byte, c: Byte, d: Byte)
    ensures l == Word(a, b, c, d)
    ensures a == LowByte(l) && b == LowByte(DropByte(l)) && c == LowByte(DropByte(DropByte(l)))
    ensures d == LowByte(DropByte(DropByte(DropByte(l))))
  {
    a, b, c, d := LowByte(l), LowByte(DropByte(l)), LowByte(DropByte(DropByte(l))), LowByte(DropByte(DropByte(DropByte(l))));
  }

  lemma ShiftOfWord(a: Byte, b: Byte, c: Byte, d: Byte)
    ensures ShiftByte(Word(a, b, c, d)) == Xor(ByteExtension(a), Word(b, c, d, 0))
  {
    hide Xor, ShiftByte, Word;
    WordSplits(a, b, c, d);
    ShiftByteLinear(Wide(a), Word(0, b, c, d));
    HighPart(b, c, d);
  }

  /** One table lookup and a shift are one byte step. */
  lemma ByteStep(l: bv32, b: Byte)
    ensures Xor(ByteExtension(LowByte(l) ^ b), DropByte(l)) == Step(l, b)
  {
    XorLow(l, b);
    hide Xor, ShiftByte, Word, LowByte, DropByte, Wide, ByteExtension;
    var m := Xor(l, Wide(b));
    var c0, c1, c2, c3 := IsWord(m);
    WordSplits(c0, c1, c2, c3);
    ShiftOfWord(c0, c1, c2, c3);
  }

  lemma XorLow(l: bv32, b: Byte)
    ensures LowByte(Xor(l, Wide(b))) == LowByte(l) ^ b
    ensures DropByte(Xor(l, Wide(b))) == DropByte(l)
  {
  }

  /** The four table lookups of a stride step. */
  function StrideOf(l: bv32): bv32 {
    Xor(Xor(StrideExtension3(LowByte(l)), StrideExtension2(LowByte(DropByte(l)))),
        Xor(StrideExtension1(LowByte(DropByte(DropByte(l)))), StrideExtension0(LowByte(DropByte(DropByte(DropByte(l)))))))
  }

  lemma StrideTables(l: bv32)
    ensures StrideOf(l) == Zeros(l, 16)
  {
    hide Xor, Zeros, LowByte, DropByte, Word;
    var a, b, c, d := IsWord(l);
    FourParts(a, b, c, d);
    ZerosLinear(Xor(Word(a, 0, 0, 0), Word(0, b, 0, 0)), Xor(Word(0, 0, c, 0), Word(0, 0, 0, d)), 16);
    ZerosLinear(Word(a, 0, 0, 0), Word(0, b, 0, 0), 16);
    ZerosLinear(Word(0, 0, c, 0), Word(0, 0, 0, d), 16);
  }

  lemma FourParts(a: Byte, b: Byte, c: Byte, d: Byte)
    ensures Word(a, b, c, d) == Xor(Xor(Word(a, 0, 0, 0), Word(0, b, 0, 0)), Xor(Word(0, 0, c, 0), Word(0, 0, 0, d)))
  {
  }

  // ---------------------------------------------------------------- words of data

  function WordAt(data: seq<Byte>, i: nat): bv32
    requires i + 4 <= |data|
  {
    Word(data[i], data[i + 1], data[i + 2], data[i + 3])
  }

  lemma WordPeels(l: bv32, a: Byte, b: Byte, c: Byte, d: Byte)
    ensures ShiftByte(Xor(l, Word(a, b, c, d))) == Xor(Step(l, a), Word(b, c, d, 0))
  {
    hide Xor, ShiftByte, Word, Wide;
    WordSplits(a, b, c, d);
    XorAssociates(l, Wide(a), Word(0, b, c, d));
    ShiftByteLinear(Xor(l, Wide(a)), Word(0, b, c, d));
    HighPart(b, c, d);
  }

  /** Four bytes at once are one xor and four zero bytes. */
  lemma FourBytes(l: bv32, a: Byte, b: Byte, c: Byte, d: Byte)
    ensures Step(Step(Step(Step(l, a), b), c), d) == Zeros(Xor(l, Word(a, b, c, d)), 4)
  {
    NoByte(Step(Step(Step(Step(l, a), b), c), d));
    hide Xor, ShiftByte, Word, Step;
    WordPeels(l, a, b, c, d);
    WordPeels(Step(l, a), b, c, d, 0);
    WordPeels(Step(Step(l, a), b), c, d, 0, 0);
    WordPeels(Step(Step(Step(l, a), b), c), d, 0, 0, 0);
    FourShifts(Xor(l, Word(a, b, c, d)));
  }

  lemma NoByte(l: bv32)
    ensures Xor(l, Word(0, 0, 0, 0)) == l
  {
  }

  lemma FourShifts(l: bv32)
    ensures Zeros(l, 4) == ShiftByte(ShiftByte(ShiftByte(ShiftByte(l))))
  {
    hide ShiftByte;
    assert Zeros(l, 0) == l;
    assert Zeros(l, 1) == ShiftByte(Zeros(l, 0));
    assert Zeros(l, 2) == ShiftByte(Zeros(l, 1));
    assert Zeros(l, 3) == ShiftByte(Zeros(l, 2));
  }

  lemma WordStep(l: bv32, data: seq<Byte>, p: nat)
    requires p + 4 <= |data|
    ensures Bytewise(l, data[..p + 4]) == Zeros(Xor(Bytewise(l, data[..p]), WordAt(data, p)), 4)
  {
    hide Step, Zeros, Word, Xor;
    forall n | p <= n < p + 4 ensures Bytewise(l, data[..n + 1]) == Step(Bytewise(l, data[..n]), data[n]) {
      assert data[..n + 1][..n] == data[..n];
    }
    assert Bytewise(l, data[..p + 1]) == Step(Bytewise(l, data[..p]), data[p]);
    assert Bytewise(l, data[..p + 2]) == Step(Bytewise(l, data[..p + 1]), data[p + 1]);
    assert Bytewise(l, data[..p + 3]) == Step(Bytewise(l, data[..p + 2]), data[p + 2]);
    assert Bytewise(l, data[..p + 4]) == Step(Bytewise(l, data[..p + 3]), data[p + 3]);
    FourBytes(Bytewise(l, data[..p]), data[p], data[p + 1], data[p + 2], data[p + 3]);
  }

  // ---------------------------------------------------------------- the strided form

  /** What four partial results stand for. */
  function Combined(c0: bv32, c1: bv32, c2: bv32, c3: bv32): bv32 {
    Zeros(Xor(Zeros(Xor(Zeros(Xor(Zeros(c0, 4), c1), 4), c2), 4), c3), 4)
  }

  /** One stride step: the first partial result takes in the next word and moves behind the others. */
  lemma StrideStep(c0: bv32, c1: bv32, c2: bv32, c3: bv32, w: bv32)
    ensures Combined(c1, c2, c3, Xor(w, StrideOf(c0))) == Zeros(Xor(Combined(c0, c1, c2, c3), w), 4)
  {
    hide StrideOf, Zeros, Xor;
    StrideTables(c0);
    var z1 := Zeros(c1, 4);
    var z2 := Zeros(Xor(z1, c2), 4);
    var z3 := Zeros(Xor(z2, c3), 4);
    PullOut(c0, 4, c1);
    XorAssociates(Zeros(c0, 8), z1, c2);
    PullOut(c0, 8, Xor(z1, c2));
    XorAssociates(Zeros(c0, 12), z2, c3);
    PullOut(c0, 12, Xor(z2, c3));
    XorReorders(Zeros(c0, 16), z3, w);
  }

  lemma PullOut(c: bv32, n: nat, x: bv32)
    ensures Zeros(Xor(Zeros(c, n), x), 4) == Xor(Zeros(c, n + 4), Zeros(x, 4))
  {
    hide Zeros, Xor;
    ZerosLinear(Zeros(c, n), x, 4);
    ZerosCompose(c, n, 4);
  }

  /** Extend, for data that starts `address` bytes into memory. */
  method Extend(crc: bv32, data: seq<Byte>, address: nat) returns (r: bv32)
    ensures r == Extended(crc, data)
  {
    hide Xor, Zeros, StrideOf, Word, Step, ByteExtension, LowByte, DropByte;
    ghost var init := Xor(crc, CRC_XOR);
    var l := Xor(crc, CRC_XOR);
    var p := 0;
    // bytes up to the first aligned one, which may lie past the end
    var x := (4 - address % 4) % 4;
    if x <= |data| {
      l, p := StepBytes(init, l, data, p, x);
    }
    if |data| - p >= 16 {
      l, p := StepSwaths(init, l, data, p);
    }
    l, p := StepBytes(init, l, data, p, |data|);
    assert data[..|data|] == data;
    r := Xor(l, CRC_XOR);
  }

  /** STEP1, until `p` is `end`. */
  method StepBytes(ghost init: bv32, l: bv32, data: seq<Byte>, from: nat, end: nat) returns (r: bv32, p: nat)
    requires from <= end <= |data| && l == Bytewise(init, data[..from])
    ensures p == end && r == Bytewise(init, data[..p])
  {
    hide Xor, Step, ByteExtension, LowByte, DropByte;
    r, p := l, from;
    while p != end
      invariant from <= p <= end && r == Bytewise(init, data[..p])
    {
      var c := LowByte(r) ^ data[p];
      ByteStep(r, data[p]);
      assert data[..p + 1][..p] == data[..p];
      r := Xor(ByteExtension(c), DropByte(r));
      p := p + 1;
    }
  }

  /** The part that works on sixteen bytes at a time. */
  method StepSwaths(ghost init: bv32, l: bv32, data: seq<Byte>, from: nat) returns (r: bv32, p: nat)
    requires from + 16 <= |data| && l == Bytewise(init, data[..from])
    ensures from <= p <= |data| && r == Bytewise(init, data[..p])
  {
    hide Xor, Zeros, StrideOf, Word, Bytewise, ByteExtension, LowByte, DropByte;
    var crc0, crc1, crc2, crc3 := Xor(WordAt(data, from), l), WordAt(data, from + 4), WordAt(data, from + 8), WordAt(data, from + 12);
    p := from + 16;
    FirstSwath(init, l, data, from);
    while |data| - p >= 16
      invariant from + 16 <= p <= |data| && Bytewise(init, data[..p]) == Combined(crc0, crc1, crc2, crc3)
    {
      SwathStep(init, data, p, crc0, crc1, crc2, crc3);
      crc0 := Xor(WordAt(data, p), StrideOf(crc0));
      crc1 := Xor(WordAt(data, p + 4), StrideOf(crc1));
      crc2 := Xor(WordAt(data, p + 8), StrideOf(crc2));
      crc3 := Xor(WordAt(data, p + 12), StrideOf(crc3));
      p := p + 16;
    }
    while |data| - p >= 4
      invariant from + 16 <= p <= |data| && Bytewise(init, data[..p]) == Combined(crc0, crc1, crc2, crc3)
    {
      WordStep(init, data, p);
      StrideStep(crc0, crc1, crc2, crc3, WordAt(data, p));
      crc0 := Xor(WordAt(data, p), StrideOf(crc0));
      crc0, crc1, crc2, crc3 := crc1, crc2, crc3, crc0;
      p := p + 4;
    }
    r := 0;
    r := StepWord(crc0, r);
    r := StepWord(crc1, r);
    r := StepWord(crc2, r);
    r := StepWord(crc3, r);
    XorZero(crc0);
    XorCommutes(crc1, Zeros(crc0, 4));
    XorCommutes(crc2, Zeros(Xor(Zeros(crc0, 4), crc1), 4));
    XorCommutes(crc3, Zeros(Xor(Zeros(Xor(Zeros(crc0, 4), crc1), 4), crc2), 4));
  }

  /** STEP4W. */
  method StepWord(word: bv32, l: bv32) returns (r: bv32)
    ensures r == Zeros(Xor(word, l), 4)
  {
    hide Xor, ShiftByte, ByteExtension, LowByte, DropByte;
    r := Xor(word, l);
    var i := 0;
    while i < 4
      invariant 0 <= i <= 4 && r == Zeros(Xor(word, l), i)
    {
      TableStep(r);
      r := Xor(DropByte(r), ByteExtension(LowByte(r)));
      i := i + 1;
    }
  }

  lemma TableStep(l: bv32)
    ensures Xor(DropByte(l), ByteExtension(LowByte(l))) == ShiftByte(l)
  {
    ByteStep(l, 0);
    XorCommutes(DropByte(l), ByteExtension(LowByte(l)));
    XorZero(l);
    assert LowByte(l) ^ 0 == LowByte(l);
    assert Wide(0) == 0;
    hide Xor, ShiftByte, ByteExtension, LowByte, DropByte, Wide;
  }

  lemma XorZero(l: bv32)
    ensures Xor(l, 0) == l
  {
  }

  lemma FirstSwath(init: bv32, l: bv32, data: seq<Byte>, p: nat)
    requires p + 16 <= |data| && l == Bytewise(init, data[..p])
    ensures Bytewise(init, data[..p + 16])
            == Combined(Xor(WordAt(data, p), l), WordAt(data, p + 4), WordAt(data, p + 8), WordAt(data, p + 12))
  {
    hide Xor, Zeros, Word, Bytewise;
    XorCommutes(WordAt(data, p), l);
    WordStep(init, data, p);
    WordStep(init, data, p + 4);
    WordStep(init, data, p + 8);
    WordStep(init, data, p + 12);
  }

  /** STEP16 is four stride steps. */
  lemma SwathStep(init: bv32, data: seq<Byte>, p: nat, c0: bv32, c1: bv32, c2: bv32, c3: bv32)
    requires p + 16 <= |data| && Bytewise(init, data[..p]) == Combined(c0, c1, c2, c3)
    ensures Bytewise(init, data[..p + 16])
            == Combined(Xor(WordAt(data, p), StrideOf(c0)), Xor(WordAt(data, p + 4), StrideOf(c1)),
                        Xor(WordAt(data, p + 8), StrideOf(c2)), Xor(WordAt(data, p + 12), StrideOf(c3)))
  {
    hide Xor, Zeros, StrideOf, Word, Bytewise, Combined;
    var d0, d1 := Xor(WordAt(data, p), StrideOf(c0)), Xor(WordAt(data, p + 4), StrideOf(c1));
    var d2 := Xor(WordAt(data, p + 8), StrideOf(c2));
    WordStep(init, data, p);
    StrideStep(c0, c1, c2, c3, WordAt(data, p));
    WordStep(init, data, p + 4);
    StrideStep(c1, c2, c3, d0, WordAt(data, p + 4));
    WordStep(init, data, p + 8);
    StrideStep(c2, c3, d0, d1, WordAt(data, p + 8));
    WordStep(init, data, p + 12);
    StrideStep(c3, d0, d1, d2, WordAt(data, p + 12));
  }
}
