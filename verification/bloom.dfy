/** Bloom filters with double hashing (util/bloom.cc). The hash function is a parameter. */
module Blooms {
  import opened Bytes
  import opened Coding

  // ---------------------------------------------------------------- bits

  function Mask(i: nat): (b: Byte)
    requires i < 8
    ensures b != 0
  {
    match i case 0 => 1 case 1 => 2 case 2 => 4 case 3 => 8 case 4 => 16 case 5 => 32 case 6 => 64 case _ => 128
  }

  predicate HasBit(b: Byte, i: nat)
    requires i < 8
  {
    b & Mask(i) != 0
  }

  function WithBit(b: Byte, i: nat): Byte
    requires i < 8
  {
    b | Mask(i)
  }

  lemma OneBit(b: Byte, i: nat, j: nat)
    requires i < 8 && j < 8
    ensures HasBit(WithBit(b, i), j) <==> i == j || HasBit(b, j)
  {
    Masks(b, Mask(i), Mask(j));
    MasksDiffer(i, j);
  }

  lemma Masks(b: Byte, m: Byte, n: Byte)
    ensures m == n && n != 0 ==> (b | m) & n != 0
    ensures m & n == 0 ==> ((b | m) & n == b & n)
  {
  }

  lemma MasksDiffer(i: nat, j: nat)
    requires i < 8 && j < 8
    ensures i != j ==> Mask(i) & Mask(j) == 0
  {
  }

  predicate BitAt(a: seq<Byte>, pos: nat) {
    pos / 8 < |a| && HasBit(a[pos / 8], pos % 8)
  }

  function SetBit(a: seq<Byte>, pos: nat): seq<Byte>
    requires pos / 8 < |a|
  {
    a[pos / 8 := WithBit(a[pos / 8], pos % 8)]
  }

  lemma OneBitSet(a: seq<Byte>, p: nat, q: nat)
    requires p / 8 < |a| && q / 8 < |a|
    ensures BitAt(SetBit(a, p), q) <==> p == q || BitAt(a, q)
  {
    hide HasBit, WithBit;
    OneBit(a[p / 8], p % 8, q % 8);
  }

  lemma NoBits(n: nat, pos: nat)
    requires pos / 8 < n
    ensures !BitAt(Zeros(n), pos)
  {
    assert Zeros(n)[pos / 8] == 0;
  }

  function Zeros(n: nat): (a: seq<Byte>)
    ensures |a| == n && forall i :: 0 <= i < n ==> a[i] == 0
  {
    seq(n, _ => 0)
  }

  // ---------------------------------------------------------------- probes

  /** A 32-bit word, rotated right by 17 bits. */
  function Rotated(h: nat): (r: nat)
    requires h < TWO_32
    ensures r < TWO_32
  {
    h / 0x2_0000 + h % 0x2_0000 * 0x8000
  }

  /** The `j`-th hash value of a key, in 32 bits. */
  function ProbeAt(h: nat, j: nat): (r: nat)
    requires h < TWO_32
    ensures r < TWO_32
  {
    if j == 0 then h else (ProbeAt(h, j - 1) + Rotated(h)) % TWO_32
  }

  /** One of the first `k` probes is at `pos`. */
  ghost predicate Probed(h: nat, k: nat, bits: nat, pos: nat)
    requires h < TWO_32 && bits > 0
  {
    exists j :: 0 <= j < k && ProbeAt(h, j) % bits == pos
  }

  // ---------------------------------------------------------------- the policy

  type Hash = f: seq<Byte> -> nat | forall key :: f(key) < TWO_32 witness _ => 0

  class BloomFilterPolicy {
    const bitsPerKey: nat
    const k: nat
    const hash: Hash

    constructor (bitsPerKey: nat, hash: Hash)
      ensures this.bitsPerKey == bitsPerKey && this.hash == hash && 1 <= k <= 30
    {
      this.bitsPerKey, this.hash := bitsPerKey, hash;
      var n := bitsPerKey * 69 / 100;
      k := if n < 1 then 1 else if n > 30 then 30 else n;
    }

    /** Some key has a probe at `pos`. */
    ghost predicate Marked(keys: seq<seq<Byte>>, n: nat, bits: nat, pos: nat)
      requires n <= |keys| && bits > 0
    {
      exists i :: 0 <= i < n && Probed(hash(keys[i]), k, bits, pos)
    }

    /** A filter answers for exactly the bits of its keys. */
    ghost predicate FilterOf(filter: seq<Byte>, keys: seq<seq<Byte>>) {
      && |filter| >= 2 && FromByte(filter[|filter| - 1]) == k
      && forall pos :: 0 <= pos < 8 * (|filter| - 1) ==> (BitAt(filter, pos) <==> Marked(keys, |keys|, 8 * (|filter| - 1), pos))
    }

    /** Appends a filter for the keys. */
    method CreateFilter(keys: seq<seq<Byte>>, dst: seq<Byte>) returns (r: seq<Byte>)
      requires 1 <= k <= 30
      ensures |r| >= |dst| && r[..|dst|] == dst && FilterOf(r[|dst|..], keys)
    {
      var bits := |keys| * bitsPerKey;
      if bits < 64 {
        bits := 64;
      }
      var bytes := (bits + 7) / 8;
      bits := bytes * 8;
      var arr := Zeros(bytes);
      forall pos | 0 <= pos < bits ensures !BitAt(arr, pos) {
        NoBits(bytes, pos);
      }
      hide BitAt, SetBit, Probed;
      var i := 0;
      while i < |keys|
        invariant 0 <= i <= |keys| && |arr| == bytes
        invariant forall pos :: 0 <= pos < bits ==> (BitAt(arr, pos) <==> Marked(keys, i, bits, pos))
      {
        var h := hash(keys[i]);
        var delta := Rotated(h);
        ghost var before := arr;
        var j := 0;
        NoProbe(h, bits);
        while j < k
          invariant 0 <= j <= k && |arr| == bytes && (j < k ==> h == ProbeAt(hash(keys[i]), j))
          invariant forall pos :: 0 <= pos < bits ==> (BitAt(arr, pos) <==> BitAt(before, pos) || Probed(hash(keys[i]), j, bits, pos))
        {
          var bitpos := h % bits;
          MarkOne(arr, before, hash(keys[i]), j, bits, bitpos);
          arr := SetBit(arr, bitpos);
          h := (h + delta) % TWO_32;
          j := j + 1;
        }
        i := i + 1;
      }
      r := dst + (arr + [ToByte(k)]);
      SameBits(arr, ToByte(k), bits);
      assert r[|dst|..] == arr + [ToByte(k)];
    }

    /** What KeyMayMatch answers: every probe of the key hits a bit that is set. More than 30 probes
        are reserved for other encodings. */
    ghost predicate Matches(key: seq<Byte>, filter: seq<Byte>) {
      && |filter| >= 2
      && (FromByte(filter[|filter| - 1]) > 30 ||
          forall j :: 0 <= j < FromByte(filter[|filter| - 1]) ==> BitAt(filter, ProbeAt(hash(key), j) % ((|filter| - 1) * 8)))
    }

    method KeyMayMatch(key: seq<Byte>, filter: seq<Byte>) returns (r: bool)
      ensures r == Matches(key, filter)
    {
      hide BitAt, Rotated, ProbeAt, FromByte;
      var len := |filter|;
      if len < 2 {
        return false;
      }
      var bits := (len - 1) * 8;
      var probes := FromByte(filter[len - 1]);
      if probes > 30 {
        return true;
      }
      var h := hash(key);
      var delta := Rotated(h);
      var j := 0;
      FirstProbe(h);
      while j < probes
        invariant 0 <= j <= probes && h == ProbeAt(hash(key), j)
        invariant forall i :: 0 <= i < j ==> BitAt(filter, ProbeAt(hash(key), i) % bits)
      {
        var bitpos := h % bits;
        if !BitAt(filter, bitpos) {
          return false;
        }
        NextProbe(hash(key), j);
        h := (h + delta) % TWO_32;
        j := j + 1;
      }
      return true;
    }

    /** No false negatives: a filter matches every key it was made for. */
    lemma NoFalseNegatives(filter: seq<Byte>, keys: seq<seq<Byte>>, i: nat)
      requires FilterOf(filter, keys) && i < |keys|
      ensures Matches(keys[i], filter)
    {
      hide BitAt;
      var bits := (|filter| - 1) * 8;
      forall j | 0 <= j < k ensures BitAt(filter, ProbeAt(hash(keys[i]), j) % bits) {
        var pos := ProbeAt(hash(keys[i]), j) % bits;
        assert Probed(hash(keys[i]), k, bits, pos);
        assert Marked(keys, |keys|, 8 * (|filter| - 1), pos);
      }
    }
  }

  lemma FirstProbe(h: nat)
    requires h < TWO_32
    ensures ProbeAt(h, 0) == h
  {
  }

  lemma NextProbe(h: nat, j: nat)
    requires h < TWO_32
    ensures ProbeAt(h, j + 1) == (ProbeAt(h, j) + Rotated(h)) % TWO_32
  {
  }

  lemma NoProbe(h: nat, bits: nat)
    requires h < TWO_32 && bits > 0
    ensures forall pos :: !Probed(h, 0, bits, pos)
  {
  }

  lemma MarkOne(arr: seq<Byte>, before: seq<Byte>, h: nat, j: nat, bits: nat, p: nat)
    requires h < TWO_32 && bits == 8 * |arr| > 0 && |before| == |arr| && p == ProbeAt(h, j) % bits
    requires forall pos :: 0 <= pos < bits ==> (BitAt(arr, pos) <==> BitAt(before, pos) || Probed(h, j, bits, pos))
    ensures p < bits && p / 8 < |arr|
    ensures forall pos :: 0 <= pos < bits ==> (BitAt(SetBit(arr, p), pos) <==> BitAt(before, pos) || Probed(h, j + 1, bits, pos))
  {
    hide BitAt, SetBit, Probed, ProbeAt;
    forall pos | 0 <= pos < bits ensures pos / 8 < |arr| && BitAt(SetBit(arr, p), pos) <==> BitAt(before, pos) || Probed(h, j + 1, bits, pos) {
      OneBitSet(arr, p, pos);
      OneMoreProbe(h, j, bits, pos);
    }
  }

  lemma OneMoreProbe(h: nat, j: nat, bits: nat, pos: nat)
    requires h < TWO_32 && bits > 0
    ensures Probed(h, j + 1, bits, pos) <==> Probed(h, j, bits, pos) || ProbeAt(h, j) % bits == pos
  {
  }

  lemma SameBits(arr: seq<Byte>, last: Byte, bits: nat)
    requires bits == 8 * |arr|
    ensures forall pos :: 0 <= pos < bits ==> BitAt(arr + [last], pos) == BitAt(arr, pos)
  {
  }
}
