/** Appending records to a log (db/log_writer.cc). */
module LogWriters {
  import opened Bytes
  import opened Crc32c
  import opened Coding
  import opened LogFormat

  /** The checksums of the record types alone. */
  ghost predicate TypeCrcs(crcs: seq<bv32>) {
    |crcs| == 5 && forall i :: 0 <= i < 5 ==> crcs[i] == Value([i as Byte])
  }

  lemma TypeCrc(crcs: seq<bv32>, kind: Byte)
    requires TypeCrcs(crcs) && kind <= LAST_TYPE
    ensures kind as int < |crcs| && crcs[kind as int] == Extended(0, [kind])
  {
    hide Extended;
    assert (kind as int) as Byte == kind;
  }

  lemma TrailerSkipped(q: nat, offset: nat)
    requires offset <= BLOCK_SIZE && offset % BLOCK_SIZE == q % BLOCK_SIZE
    ensures BLOCK_SIZE - offset < HEADER_SIZE ==> Start(q) - q == (BLOCK_SIZE - offset) && Start(q) % BLOCK_SIZE == 0
    ensures BLOCK_SIZE - offset >= HEADER_SIZE ==> Start(q) == q && q % BLOCK_SIZE == offset
    ensures TightHeader(q) ==> offset + HEADER_SIZE == BLOCK_SIZE && !TightHeader(q + HEADER_SIZE)
  {
  }

  /** Only a header fits where the next fragment goes. */
  ghost predicate TightHeader(q: nat) {
    Start(q) % BLOCK_SIZE + HEADER_SIZE == BLOCK_SIZE
  }

  class Writer {
    var dest: seq<Byte>
    var blockOffset: nat
    const typeCrc: seq<bv32>  // checksums of the five record types

    ghost predicate Valid()
      reads this
    {
      && blockOffset <= BLOCK_SIZE && blockOffset % BLOCK_SIZE == |dest| % BLOCK_SIZE
      && TypeCrcs(typeCrc)
    }

    /** A writer for an empty file, or for one that holds `dest` already. */
    constructor (dest: seq<Byte>)
      ensures Valid() && this.dest == dest
    {
      this.dest := dest;
      blockOffset := |dest| % BLOCK_SIZE;
      typeCrc := seq(5, i requires 0 <= i < 5 => Value([i as Byte]));
    }

    /** What is appended depends only on how much the file holds, not on who wrote that. */
    method AddRecord(slice: seq<Byte>)
      requires Valid()
      modifies this
      ensures Valid()
      ensures dest == old(dest) + Encoded(|old(dest)|, slice)
    {
      hide Writer.Valid, EncodedRest, TightHeader;
      var left := slice;
      var begin := true;
      var more := true;
      ghost var whole := dest + Encoded(|dest|, slice);
      while more
        invariant Valid()
        invariant whole == if more then dest + EncodedRest(|dest|, left, begin) else dest
        decreases more, |left|, TightHeader(|dest|)
      {
        left := AddFragment(left, begin);
        begin := false;
        more := |left| > 0;
      }
    }

    /** The body of the loop in AddRecord: one fragment, in a new block if need be. */
    method AddFragment(data: seq<Byte>, begin: bool) returns (left: seq<Byte>)
      requires Valid()
      modifies this
      ensures Valid()
      ensures old(dest) + EncodedRest(|old(dest)|, data, begin) == dest + if |left| > 0 then EncodedRest(|dest|, left, false) else []
      ensures |left| < |data| || left == [] || (left == data && TightHeader(|old(dest)|) && !TightHeader(|dest|))
    {
      hide TypeCrcs, FragmentBytes, ZeroBytes, EncodedRest, Start;
      left := data;
      ghost var q := |dest|;
      var leftover := BLOCK_SIZE - blockOffset;
      TrailerSkipped(q, BLOCK_SIZE - leftover);
      if leftover < HEADER_SIZE {
        if leftover > 0 {
          dest := dest + ZeroBytes(leftover);  // the trailer
        }
        blockOffset := 0;
      }
      var avail := BLOCK_SIZE - blockOffset - HEADER_SIZE;
      var fragmentLength := if |left| < avail then |left| else avail;
      var end := |left| == fragmentLength;
      var kind := if begin && end then FULL_TYPE else if begin then FIRST_TYPE else if end then LAST_TYPE else MIDDLE_TYPE;
      SplitStep(q, left, begin, avail, fragmentLength, kind);
      EmitPhysicalRecord(kind, left[..fragmentLength]);
      left := left[fragmentLength..];
    }

    method EmitPhysicalRecord(kind: Byte, payload: seq<Byte>)
      requires Valid() && kind <= LAST_TYPE
      requires blockOffset + HEADER_SIZE + |payload| <= BLOCK_SIZE
      modifies this
      ensures Valid() && dest == old(dest) + FragmentBytes(Fragment(kind, payload))
    {
      hide TypeCrcs, Mask, EncodeFixed32, WordValue, Extended, LowLength, HighLength;
      TypeCrc(typeCrc, kind);
      ExtendComposes(0, [kind], payload);
      var crc := Extend(typeCrc[kind as int], payload, 0);
      crc := Mask(crc);
      var header := EncodeFixed32(WordValue(crc)) + [LowLength(|payload|), HighLength(|payload|), kind];
      dest := dest + header;
      dest := dest + payload;
      InBlock(|old(dest)|, blockOffset, HEADER_SIZE + |payload|);
      blockOffset := blockOffset + HEADER_SIZE + |payload|;
    }
  }
}
