/** The record log: how records are cut into fragments and where the fragments lie (db/log_format.h). */
module LogFormat {
  import opened Bytes
  import opened Crc32c
  import opened Coding

  const BLOCK_SIZE := 32768
  const HEADER_SIZE := 7

  const ZERO_TYPE: Byte := 0
  const FULL_TYPE: Byte := 1
  const FIRST_TYPE: Byte := 2
  const MIDDLE_TYPE: Byte := 3
  const LAST_TYPE: Byte := 4

  /** A physical record. */
  datatype Fragment = Fragment(kind: Byte, payload: seq<Byte>)

  function Checksum(f: Fragment): bv32 {
    Value([f.kind] + f.payload)
  }

  /** The two bytes of a length, and back. */
  function LowLength(n: nat): Byte {
    ToByte(n % 256)
  }

  function HighLength(n: nat): Byte
    requires n < 0x10000
  {
    ToByte(n / 256)
  }

  function Length(low: Byte, high: Byte): nat {
    FromByte(low) + FromByte(high) * 256
  }

  lemma LengthRoundTrip(n: nat)
    requires n < 0x10000
    ensures Length(LowLength(n), HighLength(n)) == n
  {
    hide ToByte, FromByte;
  }

  function Header(f: Fragment): (r: seq<Byte>)
    requires |f.payload| < 0x10000
    ensures |r| == HEADER_SIZE
  {
    EncodeFixed32(WordValue(Mask(Checksum(f)))) + [LowLength(|f.payload|), HighLength(|f.payload|), f.kind]
  }

  function FragmentBytes(f: Fragment): (r: seq<Byte>)
    requires |f.payload| < 0x10000
    ensures |r| == HEADER_SIZE + |f.payload|
  {
    Header(f) + f.payload
  }

  /** Where the fragment after position `q` starts: a header never straddles two blocks. */
  function Start(q: nat): (s: nat)
    ensures q <= s < q + HEADER_SIZE && s % BLOCK_SIZE + HEADER_SIZE <= BLOCK_SIZE
    ensures q % BLOCK_SIZE + HEADER_SIZE <= BLOCK_SIZE ==> s == q
  {
    var leftover := BLOCK_SIZE - q % BLOCK_SIZE;
    if leftover < HEADER_SIZE then q + leftover else q
  }

  /** The offset in the block after `n` bytes that stay within it. */
  lemma InBlock(q: nat, offset: nat, n: nat)
    requires offset % BLOCK_SIZE == q % BLOCK_SIZE && offset + n <= BLOCK_SIZE
    ensures (offset + n) % BLOCK_SIZE == (q + n) % BLOCK_SIZE
    ensures offset + n < BLOCK_SIZE ==> (q + n) % BLOCK_SIZE == offset + n
    ensures offset + n == BLOCK_SIZE ==> (q + n) % BLOCK_SIZE == 0
  {
  }

  function ZeroBytes(n: nat): (r: seq<Byte>)
    ensures |r| == n
  {
    seq(n, _ => 0)
  }

  function EndOf(q: nat, f: Fragment): nat {
    Start(q) + HEADER_SIZE + |f.payload|
  }

  /** Every fragment has a type, and none straddles two blocks. */
  predicate Fits(q: nat, fragments: seq<Fragment>)
    decreases |fragments|
  {
    fragments == [] ||
    (&& fragments[0].kind != ZERO_TYPE
     && Start(q) % BLOCK_SIZE + HEADER_SIZE + |fragments[0].payload| <= BLOCK_SIZE
     && Fits(EndOf(q, fragments[0]), fragments[1..]))
  }

  /** The bytes of fragments written from position `q` on. */
  function Layout(q: nat, fragments: seq<Fragment>): seq<Byte>
    requires Fits(q, fragments)
    decreases |fragments|
  {
    if fragments == [] then [] else
      ZeroBytes(Start(q) - q) + FragmentBytes(fragments[0]) + Layout(EndOf(q, fragments[0]), fragments[1..])
  }

  /** The fragments of one record, or of the rest of one, written from position `q` on. */
  function Split(q: nat, data: seq<Byte>, begin: bool): (r: seq<Fragment>)
    ensures r != []
    decreases |data|, if Start(q) % BLOCK_SIZE + HEADER_SIZE == BLOCK_SIZE then 1 else 0
  {
    var avail := BLOCK_SIZE - Start(q) % BLOCK_SIZE - HEADER_SIZE;
    var n := if |data| < avail then |data| else avail;
    var end := |data| == n;
    var kind := if begin && end then FULL_TYPE else if begin then FIRST_TYPE else if end then LAST_TYPE else MIDDLE_TYPE;
    [Fragment(kind, data[..n])] + if end then [] else Split(Start(q) + HEADER_SIZE + n, data[n..], false)
  }

  lemma {:induction false} SplitFits(q: nat, data: seq<Byte>, begin: bool)
    ensures Fits(q, Split(q, data, begin))
    decreases |data|, if Start(q) % BLOCK_SIZE + HEADER_SIZE == BLOCK_SIZE then 1 else 0
  {
    var avail := BLOCK_SIZE - Start(q) % BLOCK_SIZE - HEADER_SIZE;
    var n := if |data| < avail then |data| else avail;
    if n < |data| {
      SplitFits(Start(q) + HEADER_SIZE + n, data[n..], false);
      assert Split(q, data, begin)[1..] == Split(Start(q) + HEADER_SIZE + n, data[n..], false);
    }
  }

  /** The bytes of one record, or of the rest of one, written from position `q` on. */
  function EncodedRest(q: nat, data: seq<Byte>, begin: bool): seq<Byte> {
    SplitFits(q, data, begin);
    Layout(q, Split(q, data, begin))
  }

  function Encoded(q: nat, record: seq<Byte>): seq<Byte> {
    EncodedRest(q, record, true)
  }

  /** The file after some records. */
  function LogOf(records: seq<seq<Byte>>): seq<Byte> {
    if records == [] then [] else
      var before := LogOf(records[..|records| - 1]);
      before + Encoded(|before|, records[|records| - 1])
  }

  // ---------------------------------------------------------------- facts about layouts

  /** One fragment, and the rest of the record behind it. */
  lemma SplitStep(q: nat, data: seq<Byte>, begin: bool, avail: nat, n: nat, kind: Byte)
    requires avail == BLOCK_SIZE - Start(q) % BLOCK_SIZE - HEADER_SIZE && n == if |data| < avail then |data| else avail
    requires kind == (if begin && n == |data| then FULL_TYPE else if begin then FIRST_TYPE else if n == |data| then LAST_TYPE else MIDDLE_TYPE)
    ensures EncodedRest(q, data, begin)
            == ZeroBytes(Start(q) - q) + FragmentBytes(Fragment(kind, data[..n]))
               + if n < |data| then EncodedRest(Start(q) + HEADER_SIZE + n, data[n..], false) else []
  {
    hide FragmentBytes;
    SplitFits(q, data, begin);
    if n < |data| {
      SplitFits(Start(q) + HEADER_SIZE + n, data[n..], false);
      assert Split(q, data, begin)[1..] == Split(Start(q) + HEADER_SIZE + n, data[n..], false);
    } else {
      var f := Fragment(kind, data[..n]);
      assert Split(q, data, begin) == [f];
      assert [f][1..] == [] && Layout(EndOf(q, f), []) == [];
    }
  }

  lemma {:induction false} LayoutAppends(q: nat, a: seq<Fragment>, b: seq<Fragment>)
    requires Fits(q, a) && Fits(q + |Layout(q, a)|, b)
    ensures Fits(q, a + b) && Layout(q, a + b) == Layout(q, a) + Layout(q + |Layout(q, a)|, b)
    decreases |a|
  {
    hide FragmentBytes, Start, ZeroBytes;
    if a == [] {
      assert a + b == b;
    } else {
      assert (a + b)[1..] == a[1..] + b;
      LayoutAppends(EndOf(q, a[0]), a[1..], b);
    }
  }

  /** Behind a block trailer the layout goes on at the next block. */
  lemma LayoutFromStart(q: nat, fragments: seq<Fragment>)
    requires Fits(q, fragments) && fragments != []
    ensures Fits(Start(q), fragments) && Layout(q, fragments) == ZeroBytes(Start(q) - q) + Layout(Start(q), fragments)
  {
    hide FragmentBytes;
    assert Start(Start(q)) == Start(q);
    assert ZeroBytes(0) == [];
  }

  /** The fragments of several records written from position `q` on. */
  function Fragments(q: nat, records: seq<seq<Byte>>): seq<Fragment>
    decreases |records|
  {
    if records == [] then [] else
      Split(q, records[0], true) + Fragments(q + |Encoded(q, records[0])|, records[1..])
  }

  lemma {:induction false} FragmentsFit(q: nat, records: seq<seq<Byte>>)
    ensures Fits(q, Fragments(q, records))
    decreases |records|
  {
    hide Layout, Split;
    if records != [] {
      SplitFits(q, records[0], true);
      FragmentsFit(q + |Encoded(q, records[0])|, records[1..]);
      LayoutAppends(q, Split(q, records[0], true), Fragments(q + |Encoded(q, records[0])|, records[1..]));
    }
  }

  function LayoutOf(q: nat, records: seq<seq<Byte>>): seq<Byte> {
    FragmentsFit(q, records);
    Layout(q, Fragments(q, records))
  }

  lemma LayoutOfFirst(q: nat, records: seq<seq<Byte>>)
    requires records != []
    ensures LayoutOf(q, records) == Encoded(q, records[0]) + LayoutOf(q + |Encoded(q, records[0])|, records[1..])
  {
    hide Layout, Split, Fits;
    SplitFits(q, records[0], true);
    FragmentsFit(q + |Encoded(q, records[0])|, records[1..]);
    LayoutAppends(q, Split(q, records[0], true), Fragments(q + |Encoded(q, records[0])|, records[1..]));
  }

  lemma {:induction false} LayoutOfSnoc(q: nat, records: seq<seq<Byte>>, record: seq<Byte>)
    ensures LayoutOf(q, records + [record]) == LayoutOf(q, records) + Encoded(q + |LayoutOf(q, records)|, record)
    decreases |records|
  {
    hide Layout, Split, Fits, LayoutOf, Encoded;
    LayoutOfFirst(q, records + [record]);
    NoRecords(q);
    if records == [] {
      assert (records + [record])[1..] == [];
      NoRecords(q + |Encoded(q, record)|);
    } else {
      assert (records + [record])[1..] == records[1..] + [record];
      LayoutOfFirst(q, records);
      LayoutOfSnoc(q + |Encoded(q, records[0])|, records[1..], record);
    }
  }

  lemma NoRecords(q: nat)
    ensures LayoutOf(q, []) == []
  {
  }

  lemma {:induction false} LogIsLayout(records: seq<seq<Byte>>)
    ensures LogOf(records) == LayoutOf(0, records)
  {
    hide LayoutOf, Encoded;
    if records == [] {
      NoRecords(0);
    } else {
      var init, last := records[..|records| - 1], records[|records| - 1];
      LogIsLayout(init);
      LayoutOfSnoc(0, init, last);
      assert init + [last] == records;
    }
  }
}
