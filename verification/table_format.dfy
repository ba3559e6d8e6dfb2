/** The parts of a table file: handles, blocks with their checksums, and the footer (table/format.cc). */
module TableFormat {
  import opened Bytes
  import opened Coding
  import opened Crc32c
  import opened DbFormat
  import opened BlockFormat

  const BLOCK_TRAILER_SIZE: nat := 5
  const MAX_HANDLE_LENGTH: nat := 20
  const FOOTER_LENGTH: nat := 48
  const MAGIC_NUMBER: nat := 0xdb4775248b80fb57
  const NO_COMPRESSION: Byte := 0

  // ---------------------------------------------------------------- handles

  datatype BlockHandle = BlockHandle(offset: nat, size: nat)

  function HandleBytes(h: BlockHandle): seq<Byte> {
    Varint(h.offset) + Varint(h.size)
  }

  method EncodeHandle(h: BlockHandle, dst: seq<Byte>) returns (r: seq<Byte>)
    ensures r == dst + HandleBytes(h)
  {
    var a := EncodeVarint64(h.offset);
    var b := EncodeVarint64(h.size);
    hide Varint;
    r := dst + a;
    r := r + b;
  }

  /** The handle of `h` lies at `p`. */
  ghost predicate HandleAt(data: seq<Byte>, p: nat, h: BlockHandle) {
    p + |HandleBytes(h)| <= |data| && data[p..p + |HandleBytes(h)|] == HandleBytes(h)
  }

  datatype ParsedHandle = ParsedHandle(handle: BlockHandle, next: nat)

  /** What lies behind the handle is left alone. */
  method DecodeHandle(data: seq<Byte>, p: nat, ghost h: BlockHandle) returns (r: Option<ParsedHandle>)
    requires p <= |data|
    ensures r.Some? ==> p < r.value.next <= |data| && r.value.handle.offset < TWO_64 && r.value.handle.size < TWO_64
    ensures h.offset < TWO_64 && h.size < TWO_64 && HandleAt(data, p, h) ==> r == Some(ParsedHandle(h, p + |HandleBytes(h)|))
  {
    if HandleAt(data, p, h) {
      HandleParts(data, p, h);
    }
    hide Varint, VarintAt;
    var offset := GetVarint64(data, p, |data|, h.offset);
    if offset == None {
      return None;
    }
    var size := GetVarint64(data, offset.value.next, |data|, h.size);
    if size == None {
      return None;
    }
    return Some(ParsedHandle(BlockHandle(offset.value.value, size.value.value), size.value.next));
  }

  lemma HandleParts(data: seq<Byte>, p: nat, h: BlockHandle)
    requires HandleAt(data, p, h)
    ensures VarintAt(data, p, |data|, h.offset) && VarintAt(data, p + |Varint(h.offset)|, |data|, h.size)
  {
    hide Varint;
    var a, b := Varint(h.offset), Varint(h.size);
    assert data[p..p + |a|] == (a + b)[..|a|] == a;
    assert data[p + |a|..p + |a| + |b|] == (a + b)[|a|..] == b;
  }

  lemma {:induction false} VarintShort(v: nat, k: nat)
    requires v < Pow128(k) && k > 0
    ensures |Varint(v)| <= k
  {
    if v >= 128 {
      if k == 1 {
        Powers();
      }
      assert Pow128(k) == 128 * Pow128(k - 1);
      VarintShort(v / 128, k - 1);
    }
  }

  lemma HandleIsShort(h: BlockHandle)
    requires h.offset < TWO_64 && h.size < TWO_64
    ensures |HandleBytes(h)| <= MAX_HANDLE_LENGTH
  {
    Powers();
    hide Varint, Pow128;
    VarintShort(h.offset, 10);
    VarintShort(h.size, 10);
  }

  // ---------------------------------------------------------------- blocks in a file

  function BlockCrc(contents: seq<Byte>): nat {
    WordValue(Mask(Crc32c.Value(contents + [NO_COMPRESSION])))
  }

  /** The block that `h` names holds `contents`, uncompressed. */
  ghost predicate BlockAt(file: seq<Byte>, h: BlockHandle, contents: seq<Byte>) {
    && h.size == |contents| && h.offset + |contents| + BLOCK_TRAILER_SIZE <= |file|
    && file[h.offset..h.offset + |contents|] == contents && file[h.offset + |contents|] == NO_COMPRESSION
    && NumberAt(file, h.offset + |contents| + 1, BlockCrc(contents))
  }

  lemma BlockStays(file: seq<Byte>, more: seq<Byte>, h: BlockHandle, contents: seq<Byte>)
    requires BlockAt(file, h, contents)
    ensures BlockAt(file + more, h, contents)
  {
    hide BlockCrc, EncodeFixed32;
    var p := h.offset + |contents| + 1;
    assert (file + more)[h.offset..h.offset + |contents|] == file[h.offset..h.offset + |contents|];
    assert (file + more)[p..p + 4] == file[p..p + 4];
  }

  /** WriteRawBlock: the contents, then their type and the masked checksum of both. */
  method WriteRawBlock(file: seq<Byte>, contents: seq<Byte>) returns (r: seq<Byte>, handle: BlockHandle)
    ensures file <= r && handle == BlockHandle(|file|, |contents|) && BlockAt(r, handle, contents)
    ensures |r| == |file| + |contents| + BLOCK_TRAILER_SIZE
  {
    hide EncodeFixed32, Mask, Crc32c.Value, WordValue, Extended;
    handle := BlockHandle(|file|, |contents|);
    var crc := Extend(0, contents, 0);
    crc := Extend(crc, [NO_COMPRESSION], 0);
    CrcOfBoth(contents, [NO_COMPRESSION]);
    var trailer := [NO_COMPRESSION] + EncodeFixed32(WordValue(Mask(crc)));
    Written(file, contents, EncodeFixed32(WordValue(Mask(crc))));
    r := file + contents + trailer;
  }

  lemma CrcOfBoth(a: seq<Byte>, b: seq<Byte>)
    ensures Extended(Extended(0, a), b) == Crc32c.Value(a + b)
  {
    ExtendComposes(0, a, b);
  }

  lemma Written(file: seq<Byte>, contents: seq<Byte>, crc: seq<Byte>)
    requires |crc| == 4
    ensures var r := file + contents + ([NO_COMPRESSION] + crc);
            && file <= r && |r| == |file| + |contents| + BLOCK_TRAILER_SIZE
            && r[|file|..|file| + |contents|] == contents && r[|file| + |contents|] == NO_COMPRESSION
            && r[|file| + |contents| + 1..|file| + |contents| + 5] == crc
  {
    var r := file + contents + ([NO_COMPRESSION] + crc);
    assert r[|file|..|file| + |contents|] == contents;
    assert r[|file| + |contents| + 1..|file| + |contents| + 5] == crc;
  }

  /** ReadBlock: a block that is cut off, damaged or of another type than 0 is refused. */
  method ReadBlock(file: seq<Byte>, verifyChecksums: bool, handle: BlockHandle, ghost contents: seq<Byte>) returns (r: Option<seq<Byte>>)
    ensures r.Some? ==> |r.value| == handle.size
    ensures BlockAt(file, handle, contents) ==> r == Some(contents)
  {
    hide EncodeFixed32, DecodeFixed32, Mask, Unmask, Crc32c.Value, WordValue, ToWord, Extended;
    var n := handle.size;
    var end := handle.offset + n + BLOCK_TRAILER_SIZE;
    if end > |file| {
      return None;
    }
    var data := file[handle.offset..end];
    if BlockAt(file, handle, contents) {
      TrailerThere(file, handle, contents);
    }
    if verifyChecksums {
      var crc := Unmask(ToWord(DecodeFixed32(data[n + 1..])));
      var actual := Extend(0, data[..n + 1], 0);
      FromStart(data[..n + 1]);
      if actual != crc {
        return None;
      }
    }
    if data[n] != NO_COMPRESSION {
      return None;
    }
    r := Some(data[..n]);
  }

  lemma FromStart(data: seq<Byte>)
    ensures Extended(0, data) == Crc32c.Value(data)
  {
  }

  lemma TrailerThere(file: seq<Byte>, h: BlockHandle, contents: seq<Byte>)
    requires BlockAt(file, h, contents)
    ensures var data := file[h.offset..h.offset + |contents| + BLOCK_TRAILER_SIZE];
            && data[..|contents|] == contents && data[|contents|] == NO_COMPRESSION
            && data[..|contents| + 1] == contents + [NO_COMPRESSION]
            && Unmask(ToWord(DecodeFixed32(data[|contents| + 1..]))) == Crc32c.Value(contents + [NO_COMPRESSION])
  {
    hide EncodeFixed32, DecodeFixed32, Mask, Unmask, Crc32c.Value, WordValue, ToWord;
    var n := |contents|;
    var data := file[h.offset..h.offset + n + BLOCK_TRAILER_SIZE];
    assert data[..n] == file[h.offset..h.offset + n] && data[n] == file[h.offset + n];
    assert data[..n + 1] == data[..n] + [data[n]];
    assert data[n + 1..] == file[h.offset + n + 1..h.offset + n + 5];
    var crc := Crc32c.Value(contents + [NO_COMPRESSION]);
    Fixed32RoundTrip(WordValue(Mask(crc)), []);
    assert EncodeFixed32(WordValue(Mask(crc))) + [] == EncodeFixed32(WordValue(Mask(crc)));
    WordRoundTrip(Mask(crc));
    UnmaskOfMask(crc);
  }

  // ---------------------------------------------------------------- the footer

  /** Two handles, padded to the greatest length they can have, and the magic number. */
  function FooterBytes(metaindex: BlockHandle, index: BlockHandle): seq<Byte>
    requires |HandleBytes(metaindex)| + |HandleBytes(index)| <= 2 * MAX_HANDLE_LENGTH
  {
    HandleBytes(metaindex) + HandleBytes(index)
    + seq(2 * MAX_HANDLE_LENGTH - |HandleBytes(metaindex)| - |HandleBytes(index)|, _ => 0)
    + EncodeFixed32(MAGIC_NUMBER % TWO_32) + EncodeFixed32(MAGIC_NUMBER / TWO_32)
  }

  datatype Footer = Footer(metaindex: BlockHandle, index: BlockHandle)

  method EncodeFooter(footer: Footer) returns (r: seq<Byte>)
    ensures |r| == FOOTER_LENGTH
    ensures |HandleBytes(footer.metaindex)| + |HandleBytes(footer.index)| <= 2 * MAX_HANDLE_LENGTH ==>
              r == FooterBytes(footer.metaindex, footer.index)
  {
    hide HandleBytes, EncodeFixed32;
    NothingBefore(HandleBytes(footer.metaindex));
    var both := EncodeHandle(footer.metaindex, []);
    both := EncodeHandle(footer.index, both);
    var length := 2 * MAX_HANDLE_LENGTH;
    r := if |both| <= length then both + seq(length - |both|, _ => 0) else both[..length];
    r := r + EncodeFixed32(MAGIC_NUMBER % TWO_32);
    r := r + EncodeFixed32(MAGIC_NUMBER / TWO_32);
  }

  lemma NothingBefore(s: seq<Byte>)
    ensures [] + s == s
  {
  }

  method DecodeFooter(input: seq<Byte>, ghost footer: Footer) returns (r: Option<Footer>)
    requires |input| == FOOTER_LENGTH
    ensures r.Some? ==> r.value.index.offset < TWO_64 && r.value.index.size < TWO_64
    ensures footer.metaindex.offset < TWO_64 && footer.metaindex.size < TWO_64 && footer.index.offset < TWO_64 && footer.index.size < TWO_64
            && |HandleBytes(footer.metaindex)| + |HandleBytes(footer.index)| <= 2 * MAX_HANDLE_LENGTH
            && input == FooterBytes(footer.metaindex, footer.index)
            ==> r == Some(footer)
  {
    hide HandleBytes, EncodeFixed32, DecodeFixed32, HandleAt, FooterBytes;
    if |HandleBytes(footer.metaindex)| + |HandleBytes(footer.index)| <= 2 * MAX_HANDLE_LENGTH
       && input == FooterBytes(footer.metaindex, footer.index)
    {
      FooterParts(input, footer);
    }
    var low := DecodeFixed32(input[FOOTER_LENGTH - 8..]);
    var high := DecodeFixed32(input[FOOTER_LENGTH - 4..]);
    if low + high * TWO_32 != MAGIC_NUMBER {
      return None;
    }
    var metaindex := DecodeHandle(input, 0, footer.metaindex);
    if metaindex == None {
      return None;
    }
    var index := DecodeHandle(input, metaindex.value.next, footer.index);
    if index == None {
      return None;
    }
    return Some(Footer(metaindex.value.handle, index.value.handle));
  }

  lemma FooterParts(input: seq<Byte>, footer: Footer)
    requires |HandleBytes(footer.metaindex)| + |HandleBytes(footer.index)| <= 2 * MAX_HANDLE_LENGTH
    requires input == FooterBytes(footer.metaindex, footer.index) && |input| == FOOTER_LENGTH
    ensures HandleAt(input, 0, footer.metaindex) && HandleAt(input, |HandleBytes(footer.metaindex)|, footer.index)
    ensures DecodeFixed32(input[FOOTER_LENGTH - 8..]) + DecodeFixed32(input[FOOTER_LENGTH - 4..]) * TWO_32 == MAGIC_NUMBER
  {
    hide HandleBytes, EncodeFixed32, DecodeFixed32;
    var a, b := HandleBytes(footer.metaindex), HandleBytes(footer.index);
    var low, high := EncodeFixed32(MAGIC_NUMBER % TWO_32), EncodeFixed32(MAGIC_NUMBER / TWO_32);
    var pad: seq<Byte> := seq(2 * MAX_HANDLE_LENGTH - |a| - |b|, _ => 0);
    assert input == a + b + pad + low + high;
    assert input[..|a|] == a && input[|a|..|a| + |b|] == b;
    assert input[FOOTER_LENGTH - 8..] == low + high && input[FOOTER_LENGTH - 4..] == high;
    Fixed32RoundTrip(MAGIC_NUMBER % TWO_32, high);
    Fixed32RoundTrip(MAGIC_NUMBER / TWO_32, []);
    assert high + [] == high;
  }
}
