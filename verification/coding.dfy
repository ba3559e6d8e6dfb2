/** Fixed-width integers, varints and length-prefixed strings in bytes (util/coding.cc). */
module Coding {
  import opened Bytes
  import opened DbFormat

  const TWO_32: nat := 0x1_0000_0000
  const TWO_64: nat := 0x1_0000_0000_0000_0000

  // ---------------------------------------------------------------- fixed width

  function EncodeFixed32(n: nat): (r: seq<Byte>)
    requires n < TWO_32
    ensures |r| == 4
  {
    [ToByte(n % 256), ToByte(n / 256 % 256), ToByte(n / 65536 % 256), ToByte(n / 16777216)]
  }

  function Digits(a: nat, b: nat, c: nat, d: nat): (n: nat)
    requires a < 256 && b < 256 && c < 256 && d < 256
    ensures n < TWO_32
  {
    a + b * 256 + c * 65536 + d * 16777216
  }

  function DecodeFixed32(s: seq<Byte>): (n: nat)
    requires |s| >= 4
    ensures n < TWO_32
  {
    Digits(FromByte(s[0]), FromByte(s[1]), FromByte(s[2]), FromByte(s[3]))
  }

  lemma Fixed32RoundTrip(n: nat, rest: seq<Byte>)
    requires n < TWO_32
    ensures DecodeFixed32(EncodeFixed32(n) + rest) == n
  {
    FourDigits(n);
    hide ToByte, FromByte;
    var b := EncodeFixed32(n);
    assert forall i :: 0 <= i < 4 ==> (b + rest)[i] == b[i];
  }

  lemma FourDigits(n: nat)
    ensures n == n % 256 + n / 256 % 256 * 256 + n / 65536 % 256 * 65536 + n / 16777216 * 16777216
  {
    DivTwice(n);
    var a, b := n / 256, n / 65536;
    assert n == n % 256 + a * 256 && a == a % 256 + b * 256 && b == b % 256 + n / 16777216 * 256;
  }

  lemma DivTwice(n: nat)
    ensures n / 65536 == n / 256 / 256
    ensures n / 16777216 == n / 65536 / 256
  {
  }

  function EncodeFixed64(n: nat): (r: seq<Byte>)
    requires n < TWO_64
    ensures |r| == 8
  {
    EncodeFixed32(n % TWO_32) + EncodeFixed32(n / TWO_32)
  }

  function DecodeFixed64(s: seq<Byte>): (n: nat)
    requires |s| >= 8
    ensures n < TWO_64
  {
    DecodeFixed32(s) + DecodeFixed32(s[4..]) * TWO_32
  }

  lemma Fixed64RoundTrip(n: nat)
    requires n < TWO_64
    ensures DecodeFixed64(EncodeFixed64(n)) == n
  {
    hide EncodeFixed32, DecodeFixed32;
    var low, high := EncodeFixed32(n % TWO_32), EncodeFixed32(n / TWO_32);
    Fixed32RoundTrip(n % TWO_32, high);
    Fixed32RoundTrip(n / TWO_32, []);
    assert (low + high)[4..] == high && high + [] == high;
  }

  // ---------------------------------------------------------------- varints

  /** Seven bits to a byte, least significant first; all bytes but the last have the high bit set. */
  function Varint(v: nat): (r: seq<Byte>)
    ensures |r| > 0
  {
    if v < 128 then [ToByte(v)] else [ToByte(128 + v % 128)] + Varint(v / 128)
  }

  lemma Sevens(v: nat)
    ensures v / 128 / 128 == v / 16384
    ensures v / 128 / 16384 == v / 2097152
    ensures v / 128 / 2097152 == v / 268435456
  {
  }

  lemma TwoBytes(v: nat)
    requires 128 <= v < 16384
    ensures Varint(v) == [ToByte(128 + v % 128), ToByte(v / 128)]
  {
    hide ToByte;
    assert Varint(v / 128) == [ToByte(v / 128)];
  }

  lemma ThreeBytes(v: nat)
    requires 16384 <= v < 2097152
    ensures Varint(v) == [ToByte(128 + v % 128), ToByte(128 + v / 128 % 128), ToByte(v / 16384)]
  {
    hide ToByte;
    TwoBytes(v / 128);
    Sevens(v);
  }

  lemma FourBytes(v: nat)
    requires 2097152 <= v < 268435456
    ensures Varint(v) == [ToByte(128 + v % 128), ToByte(128 + v / 128 % 128), ToByte(128 + v / 16384 % 128), ToByte(v / 2097152)]
  {
    hide ToByte;
    ThreeBytes(v / 128);
    Sevens(v);
  }

  lemma FiveBytes(v: nat)
    requires 268435456 <= v < TWO_32
    ensures Varint(v) == [ToByte(128 + v % 128), ToByte(128 + v / 128 % 128), ToByte(128 + v / 16384 % 128),
                          ToByte(128 + v / 2097152 % 128), ToByte(v / 268435456)]
  {
    hide ToByte;
    FourBytes(v / 128);
    Sevens(v);
  }

  method EncodeVarint32(v: nat) returns (r: seq<Byte>)
    requires v < TWO_32
    ensures r == Varint(v)
  {
    hide ToByte;
    if v < 128 {
      r := [ToByte(v)];
    } else if v < 16384 {
      TwoBytes(v);
      r := [ToByte(128 + v % 128), ToByte(v / 128)];
    } else if v < 2097152 {
      ThreeBytes(v);
      r := [ToByte(128 + v % 128), ToByte(128 + v / 128 % 128), ToByte(v / 16384)];
    } else if v < 268435456 {
      FourBytes(v);
      r := [ToByte(128 + v % 128), ToByte(128 + v / 128 % 128), ToByte(128 + v / 16384 % 128), ToByte(v / 2097152)];
    } else {
      FiveBytes(v);
      r := [ToByte(128 + v % 128), ToByte(128 + v / 128 % 128), ToByte(128 + v / 16384 % 128), ToByte(128 + v / 2097152 % 128),
            ToByte(v / 268435456)];
    }
  }

  /** The varint of `v` lies at `p`, before `limit`. */
  ghost predicate VarintAt(data: seq<Byte>, p: nat, limit: nat, v: nat) {
    p + |Varint(v)| <= limit <= |data| && data[p..p + |Varint(v)|] == Varint(v)
  }

  lemma VarintStep(data: seq<Byte>, p: nat, limit: nat, v: nat)
    requires VarintAt(data, p, limit, v)
    ensures p < limit && FromByte(data[p]) == if v < 128 then v else 128 + v % 128
    ensures v >= 128 ==> VarintAt(data, p + 1, limit, v / 128) && |Varint(v)| == 1 + |Varint(v / 128)|
    ensures v < 128 ==> |Varint(v)| == 1
  {
    hide ToByte, FromByte;
    assert data[p] == data[p..p + |Varint(v)|][0];
    if v >= 128 {
      assert data[p + 1..p + 1 + |Varint(v / 128)|] == data[p..p + |Varint(v)|][1..];
    }
  }

  /** What reading a number gives: the number and the position behind it. */
  datatype Parsed = Parsed(value: nat, next: nat)

  /** What has been read of `v`, and what is left of it to read. */
  ghost predicate PartOf(v: nat, result: nat, left: nat, scale: nat) {
    v == result + left * scale && v < TWO_32
  }

  lemma MoreBits(v: nat, result: nat, left: nat, scale: nat)
    requires PartOf(v, result, left, scale) && left >= 128 && scale in {1, 128, 16384, 2097152, 268435456}
    ensures scale < 268435456
    ensures PartOf(v, (result + left % 128 * scale) % TWO_32, left / 128, scale * 128)
  {
  }

  lemma LastBits(v: nat, result: nat, left: nat, scale: nat)
    requires PartOf(v, result, left, scale)
    ensures (result + left * scale) % TWO_32 == v
  {
  }

  /** GetVarint32Ptr: at most five bytes, and bits beyond the 32nd are lost. */
  method GetVarint32(data: seq<Byte>, p: nat, limit: nat, ghost v: nat) returns (r: Option<Parsed>)
    requires limit <= |data|
    ensures r.Some? ==> p < r.value.next <= limit && r.value.value < TWO_32
    ensures v < TWO_32 && VarintAt(data, p, limit, v) ==> r == Some(Parsed(v, p + |Varint(v)|))
  {
    hide VarintAt, Varint, FromByte, ToByte, PartOf;
    ghost var good := v < TWO_32 && VarintAt(data, p, limit, v);
    ghost var left: nat := v;
    var result: nat, shift, scale: nat, q := 0, 0, 1, p;
    assert good ==> PartOf(v, result, left, scale) by {
      StartOf(v);
    }
    while shift <= 28 && q < limit
      invariant 0 <= shift <= 35 && shift == 7 * (q - p)
      invariant scale == match shift case 0 => 1 case 7 => 128 case 14 => 16384 case 21 => 2097152 case 28 => 268435456 case _ => 34359738368
      invariant good ==> VarintAt(data, q, limit, left) && q + |Varint(left)| == p + |Varint(v)| && shift <= 28
      invariant good ==> PartOf(v, result, left, scale)
      decreases 35 - shift
    {
      var byte := FromByte(data[q]);
      if good {
        VarintStep(data, q, limit, left);
      }
      q := q + 1;
      if byte >= 128 {
        if good {
          MoreBits(v, result, left, scale);
          left := left / 128;
        }
        result := (result + byte % 128 * scale) % TWO_32;
      } else {
        if good {
          LastBits(v, result, left, scale);
        }
        result := (result + byte * scale) % TWO_32;
        return Some(Parsed(result, q));
      }
      shift := shift + 7;
      scale := scale * 128;
    }
    if good {
      VarintStep(data, q, limit, left);
    }
    return None;
  }

  lemma StartOf(v: nat)
    ensures v < TWO_32 ==> PartOf(v, 0, v, 1)
  {
  }

  // ---------------------------------------------------------------- 64-bit varints

  /** 128 to the power of `k`. */
  function Pow128(k: nat): (r: nat)
    ensures r > 0
  {
    if k == 0 then 1 else 128 * Pow128(k - 1)
  }

  lemma Powers()
    ensures Pow128(1) == 128 && Pow128(2) == 0x4000 && Pow128(3) == 0x20_0000
    ensures Pow128(4) == 0x1000_0000 && Pow128(5) == 0x8_0000_0000
    ensures Pow128(9) == 0x8000_0000_0000_0000 && Pow128(10) == 0x40_0000_0000_0000_0000
  {
    assert Pow128(1) == 128 && Pow128(2) == 0x4000 && Pow128(3) == 0x20_0000 && Pow128(4) == 0x1000_0000;
    assert Pow128(5) == 0x8_0000_0000 && Pow128(6) == 0x400_0000_0000 && Pow128(7) == 0x2_0000_0000_0000;
    assert Pow128(8) == 0x100_0000_0000_0000 && Pow128(9) == 0x8000_0000_0000_0000;
  }

  lemma DigitMoves(v: nat, k: nat, left: nat, result: nat)
    requires v == result + left * Pow128(k)
    ensures v == result + left % 128 * Pow128(k) + left / 128 * Pow128(k + 1)
  {
    assert left == left / 128 * 128 + left % 128;
    var p := Pow128(k);
    assert Pow128(k + 1) == 128 * p;
    assert left * p == (left / 128 * 128 + left % 128) * p;
    assert (left / 128 * 128 + left % 128) * p == left / 128 * 128 * p + left % 128 * p;
    assert left / 128 * 128 * p == left / 128 * (128 * p);
  }

  /** What is left times its weight is at most the number. */
  lemma StillBelow(v: nat, k: nat, left: nat, result: nat, bound: nat)
    requires v == result + left * Pow128(k) && v < bound && left > 0
    ensures result < bound && Pow128(k) < bound && left * Pow128(k) < bound
  {
    var p: nat := Pow128(k);
    assert left * p == (left - 1) * p + p;
    AtLeastZero(left - 1, p);
  }

  lemma AtLeastZero(a: nat, b: nat)
    ensures a * b >= 0
  {
  }

  lemma FirstPower()
    ensures Pow128(0) == 1
  {
  }

  lemma NextPower(k: nat)
    ensures Pow128(k + 1) == Pow128(k) * 128
  {
  }

  lemma SumBelow(v: nat, a: nat, b: nat, p: nat, bound: nat)
    requires v == a + b * p && v < bound
    ensures a < bound
  {
    AtLeastZero(b, p);
  }

  lemma {:induction false} PowersGrow(j: nat, k: nat)
    requires j <= k
    ensures Pow128(j) <= Pow128(k)
  {
    if j < k {
      PowersGrow(j, k - 1);
    }
  }

  lemma TooFar(v: nat, k: nat, left: nat, result: nat)
    requires v == result + left * Pow128(k) && v < TWO_64 && left > 0
    ensures k < 10
  {
    Powers();
    StillBelow(v, k, left, result, TWO_64);
    if k >= 10 {
      PowersGrow(10, k);
    }
  }

  method EncodeVarint64(v: nat) returns (r: seq<Byte>)
    ensures r == Varint(v)
  {
    hide ToByte;
    r := [];
    var left := v;
    while left >= 128
      invariant r + Varint(left) == Varint(v)
    {
      OneMoreByte(r, ToByte(128 + left % 128), Varint(left / 128));
      r := r + [ToByte(128 + left % 128)];
      left := left / 128;
    }
    r := r + [ToByte(left)];
  }

  lemma OneMoreByte(r: seq<Byte>, b: Byte, rest: seq<Byte>)
    ensures r + ([b] + rest) == r + [b] + rest
  {
  }

  /** The first `k` bytes of the varint of `v`, which begins at `p`, are read; `left` is left of it. */
  ghost predicate ReadSoFar(data: seq<Byte>, p: nat, limit: nat, v: nat, k: nat, left: nat, result: nat) {
    && VarintAt(data, p + k, limit, left) && v == result + left * Pow128(k) && v < TWO_64
    && |Varint(v)| == k + |Varint(left)| && (k > 0 ==> left > 0)
  }

  /** GetVarint64Ptr: at most ten bytes, and bits beyond the 64th are lost. */
  method GetVarint64(data: seq<Byte>, p: nat, limit: nat, ghost v: nat) returns (r: Option<Parsed>)
    requires limit <= |data|
    ensures r.Some? ==> p < r.value.next <= limit && r.value.value < TWO_64
    ensures v < TWO_64 && VarintAt(data, p, limit, v) ==> r == Some(Parsed(v, p + |Varint(v)|))
  {
    hide VarintAt, Varint, FromByte, ToByte, Pow128, ReadSoFar;
    ghost var good := v < TWO_64 && VarintAt(data, p, limit, v);
    ghost var left: nat := v;
    var result: nat, k, scale, q := 0, 0, 1, p;
    FirstPower();
    if good {
      StartReading(data, p, limit, v);
    }
    while 7 * k <= 63 && q < limit
      invariant 0 <= k <= 10 && q == p + k && scale == Pow128(k) && result < TWO_64
      invariant good ==> ReadSoFar(data, p, limit, v, k, left, result)
      decreases 10 - k
    {
      var byte := FromByte(data[q]);
      if good {
        OneMoreDigit(data, p, limit, v, k, left, result);
      }
      NextPower(k);
      q := q + 1;
      if byte >= 128 {
        result := (result + byte % 128 * scale) % TWO_64;
      } else {
        result := (result + byte * scale) % TWO_64;
        return Some(Parsed(result, q));
      }
      left := left / 128;
      k := k + 1;
      scale := scale * 128;
    }
    if good {
      OneMoreDigit(data, p, limit, v, k, left, result);
    }
    return None;
  }

  lemma StartReading(data: seq<Byte>, p: nat, limit: nat, v: nat)
    requires VarintAt(data, p, limit, v) && v < TWO_64
    ensures ReadSoFar(data, p, limit, v, 0, v, 0)
  {
    hide Varint, VarintAt;
  }

  /** The next byte, and what the sum is after it. */
  lemma OneMoreDigit(data: seq<Byte>, p: nat, limit: nat, v: nat, k: nat, left: nat, result: nat)
    requires ReadSoFar(data, p, limit, v, k, left, result) && result < TWO_64
    ensures k < 10 && p + k < limit <= |data| && FromByte(data[p + k]) == if left < 128 then left else 128 + left % 128
    ensures left < 128 ==> (result + left * Pow128(k)) % TWO_64 == v && |Varint(v)| == k + 1
    ensures left >= 128 ==> ReadSoFar(data, p, limit, v, k + 1, left / 128, (result + left % 128 * Pow128(k)) % TWO_64)
  {
    hide Varint, Pow128, FromByte;
    VarintStep(data, p + k, limit, left);
    if k > 0 {
      TooFar(v, k, left, result);
    }
    DigitMoves(v, k, left, result);
    AtLeastZero(left % 128, Pow128(k));
    SumBelow(v, result + left % 128 * Pow128(k), left / 128, Pow128(k + 1), TWO_64);
  }

  // ---------------------------------------------------------------- strings with their length

  function Sized(s: seq<Byte>): seq<Byte> {
    Varint(|s|) + s
  }

  /** What PutLengthPrefixedSlice appends. */
  method PutSized(dst: seq<Byte>, s: seq<Byte>) returns (r: seq<Byte>)
    requires |s| < TWO_32
    ensures r == dst + Sized(s)
  {
    var n := EncodeVarint32(|s|);
    Associate(dst, n, s);
    r := dst + n;
    r := r + s;
  }

  datatype ParsedBytes = ParsedBytes(value: seq<Byte>, next: nat)

  /** `s` lies at `p` with its length before it. */
  ghost predicate SizedAt(data: seq<Byte>, p: nat, s: seq<Byte>) {
    p + |Sized(s)| <= |data| && data[p..p + |Sized(s)|] == Sized(s)
  }

  method GetSized(data: seq<Byte>, p: nat, ghost s: seq<Byte>) returns (r: Option<ParsedBytes>)
    requires p <= |data|
    ensures r.Some? ==> p < r.value.next <= |data|
    ensures |s| < TWO_32 && SizedAt(data, p, s) ==> r == Some(ParsedBytes(s, p + |Sized(s)|))
  {
    if SizedAt(data, p, s) {
      SizedParts(data, p, s);
    }
    hide Varint, VarintAt;
    var length := GetVarint32(data, p, |data|, |s|);
    if length == None || |data| - length.value.next < length.value.value {
      return None;
    }
    var q := length.value.next + length.value.value;
    return Some(ParsedBytes(data[length.value.next..q], q));
  }

  lemma SizedParts(data: seq<Byte>, p: nat, s: seq<Byte>)
    requires SizedAt(data, p, s)
    ensures VarintAt(data, p, |data|, |s|)
    ensures p + |Varint(|s|)| + |s| <= |data| && data[p + |Varint(|s|)|..p + |Varint(|s|)| + |s|] == s
  {
    hide Varint;
    var a := Varint(|s|);
    assert data[p..p + |a|] == (a + s)[..|a|] == a;
    assert data[p + |a|..p + |a| + |s|] == (a + s)[|a|..] == s;
  }

  lemma Associate(a: seq<Byte>, b: seq<Byte>, c: seq<Byte>)
    ensures a + (b + c) == a + b + c
  {
  }

  lemma SliceOf(data: seq<Byte>, p: nat, n: nat, i: nat, j: nat)
    requires i <= j <= n && p + n <= |data|
    ensures data[p..p + n][i..j] == data[p + i..p + j]
  {
    var a, b := data[p..p + n][i..j], data[p + i..p + j];
    assert |a| == |b|;
    forall k | 0 <= k < |a| ensures a[k] == b[k] {
      assert a[k] == data[p..p + n][i + k] == data[p + i + k];
    }
  }
}
