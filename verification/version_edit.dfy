/** Version edits as bytes: tagged items, in any order (db/version_edit.cc). */
module VersionEdits {
  import opened Bytes
  import opened Coding
  import opened DbFormat

  const COMPARATOR: nat := 1
  const LOG_NUMBER: nat := 2
  const NEXT_FILE_NUMBER: nat := 3
  const LAST_SEQUENCE: nat := 4
  const COMPACT_POINTER: nat := 5
  const DELETED_FILE: nat := 6
  const NEW_FILE: nat := 7
  const PREV_LOG_NUMBER: nat := 9

  datatype FileMetaData = FileMetaData(number: nat, size: nat, smallest: seq<Byte>, largest: seq<Byte>)

  /** `deleted` is a set in increasing order. */
  datatype Edit = Edit(
    comparator: Option<seq<Byte>>, logNumber: Option<nat>, prevLogNumber: Option<nat>, nextFile: Option<nat>, lastSequence: Option<nat>,
    compactPointers: seq<(nat, seq<Byte>)>, deleted: seq<(nat, nat)>, newFiles: seq<(nat, FileMetaData)>)

  datatype Item =
    | Name(comparator: seq<Byte>) | Number(tag: nat, n: nat)
    | Pointer(level: nat, key: seq<Byte>) | Dropped(level: nat, n: nat) | New(level: nat, f: FileMetaData)

  predicate IsNumberTag(tag: nat) {
    tag in {LOG_NUMBER, PREV_LOG_NUMBER, NEXT_FILE_NUMBER, LAST_SEQUENCE}
  }

  /** What fits the widths of the format. */
  ghost predicate Fits(item: Item) {
    match item
    case Name(s) => |s| < TWO_32
    case Number(tag, n) => IsNumberTag(tag) && n < TWO_64
    case Pointer(level, key) => level < NUM_LEVELS && |key| < TWO_32
    case Dropped(level, n) => level < NUM_LEVELS && n < TWO_64
    case New(level, f) => level < NUM_LEVELS && f.number < TWO_64 && f.size < TWO_64 && |f.smallest| < TWO_32 && |f.largest| < TWO_32
  }

  function TagOf(item: Item): nat {
    match item
    case Name(_) => COMPARATOR
    case Number(tag, _) => tag
    case Pointer(_, _) => COMPACT_POINTER
    case Dropped(_, _) => DELETED_FILE
    case New(_, _) => NEW_FILE
  }

  function Payload(item: Item): seq<Byte> {
    match item
    case Name(s) => Sized(s)
    case Number(_, n) => Varint(n)
    case Pointer(level, key) => Varint(level) + Sized(key)
    case Dropped(level, n) => Varint(level) + Varint(n)
    case New(level, f) => Varint(level) + (Varint(f.number) + (Varint(f.size) + (Sized(f.smallest) + Sized(f.largest))))
  }

  function ItemBytes(item: Item): seq<Byte> {
    Varint(TagOf(item)) + Payload(item)
  }

  function BytesOf(items: seq<Item>): seq<Byte> {
    if items == [] then [] else ItemBytes(items[0]) + BytesOf(items[1..])
  }

  lemma {:induction false} BytesAppend(a: seq<Item>, b: seq<Item>)
    ensures BytesOf(a + b) == BytesOf(a) + BytesOf(b)
  {
    hide ItemBytes;
    if a == [] {
      assert a + b == b;
    } else {
      BytesAppend(a[1..], b);
      assert (a + b)[1..] == a[1..] + b;
      Associate(ItemBytes(a[0]), BytesOf(a[1..]), BytesOf(b));
    }
  }

  lemma BytesOfOne(item: Item)
    ensures BytesOf([item]) == ItemBytes(item)
  {
    assert [item][1..] == [] && ItemBytes(item) + [] == ItemBytes(item);
  }

  lemma BytesWith(items: seq<Item>, item: Item)
    ensures BytesOf(items + [item]) == BytesOf(items) + ItemBytes(item)
  {
    hide ItemBytes, BytesOf;
    BytesAppend(items, [item]);
    BytesOfOne(item);
  }

  // ---------------------------------------------------------------- the items of an edit

  function OptionalNumber(tag: nat, n: Option<nat>): seq<Item> {
    if n.Some? then [Number(tag, n.value)] else []
  }

  function Header(e: Edit): seq<Item> {
    (if e.comparator.Some? then [Name(e.comparator.value)] else [])
    + OptionalNumber(LOG_NUMBER, e.logNumber) + OptionalNumber(PREV_LOG_NUMBER, e.prevLogNumber)
    + OptionalNumber(NEXT_FILE_NUMBER, e.nextFile) + OptionalNumber(LAST_SEQUENCE, e.lastSequence)
  }

  function Pointers(ps: seq<(nat, seq<Byte>)>): seq<Item> {
    seq(|ps|, i requires 0 <= i < |ps| => Pointer(ps[i].0, ps[i].1))
  }

  function Deletions(ds: seq<(nat, nat)>): seq<Item> {
    seq(|ds|, i requires 0 <= i < |ds| => Dropped(ds[i].0, ds[i].1))
  }

  function Additions(fs: seq<(nat, FileMetaData)>): seq<Item> {
    seq(|fs|, i requires 0 <= i < |fs| => New(fs[i].0, fs[i].1))
  }

  /** What EncodeTo writes. */
  function Items(e: Edit): seq<Item> {
    Header(e) + Pointers(e.compactPointers) + Deletions(e.deleted) + Additions(e.newFiles)
  }

  predicate Before(a: (nat, nat), b: (nat, nat)) {
    a.0 < b.0 || (a.0 == b.0 && a.1 < b.1)
  }

  ghost predicate Increasing(ds: seq<(nat, nat)>) {
    forall i, j :: 0 <= i < j < |ds| ==> Before(ds[i], ds[j])
  }

  /** Into an ordered set. */
  function Insert(ds: seq<(nat, nat)>, d: (nat, nat)): seq<(nat, nat)> {
    if ds == [] then [d]
    else if d == ds[0] then ds
    else if Before(d, ds[0]) then [d] + ds
    else [ds[0]] + Insert(ds[1..], d)
  }

  lemma {:induction false} InsertLast(ds: seq<(nat, nat)>, d: (nat, nat))
    requires forall i :: 0 <= i < |ds| ==> Before(ds[i], d)
    ensures Insert(ds, d) == ds + [d]
  {
    if ds != [] {
      InsertLast(ds[1..], d);
      assert [ds[0]] + (ds[1..] + [d]) == ds + [d];
    }
  }

  lemma {:induction false} InsertMeans(ds: seq<(nat, nat)>, d: (nat, nat))
    requires Increasing(ds)
    ensures Increasing(Insert(ds, d)) && forall x :: x in Insert(ds, d) <==> x in ds || x == d
    ensures ds != [] ==> Insert(ds, d)[0] == if Before(d, ds[0]) then d else ds[0]
  {
    if ds != [] && d != ds[0] && !Before(d, ds[0]) {
      InsertMeans(ds[1..], d);
      var r := Insert(ds[1..], d);
      forall i | 0 <= i < |r| ensures Before(ds[0], r[i]) {
        assert r[i] in r;
      }
    }
  }

  /** What DecodeFrom does with one item. */
  function Apply(e: Edit, item: Item): Edit {
    match item
    case Name(s) => e.(comparator := Some(s))
    case Number(tag, n) =>
      if tag == LOG_NUMBER then e.(logNumber := Some(n))
      else if tag == PREV_LOG_NUMBER then e.(prevLogNumber := Some(n))
      else if tag == NEXT_FILE_NUMBER then e.(nextFile := Some(n))
      else e.(lastSequence := Some(n))
    case Pointer(level, key) => e.(compactPointers := e.compactPointers + [(level, key)])
    case Dropped(level, n) => e.(deleted := Insert(e.deleted, (level, n)))
    case New(level, f) => e.(newFiles := e.newFiles + [(level, f)])
  }

  function ApplyAll(e: Edit, items: seq<Item>): Edit {
    if items == [] then e else Apply(ApplyAll(e, items[..|items| - 1]), items[|items| - 1])
  }

  lemma {:induction false} ApplyAppend(e: Edit, a: seq<Item>, b: seq<Item>)
    ensures ApplyAll(e, a + b) == ApplyAll(ApplyAll(e, a), b)
  {
    if b == [] {
      assert a + b == a;
    } else {
      ApplyAppend(e, a, b[..|b| - 1]);
      assert (a + b)[..|a + b| - 1] == a + b[..|b| - 1];
    }
  }

  lemma {:induction false} ApplyPointers(e: Edit, ps: seq<(nat, seq<Byte>)>)
    ensures ApplyAll(e, Pointers(ps)) == e.(compactPointers := e.compactPointers + ps)
  {
    var n := |ps| - 1;
    if ps == [] {
      assert e.compactPointers + ps == e.compactPointers;
    } else {
      ApplyPointers(e, ps[..n]);
      assert Pointers(ps)[..n] == Pointers(ps[..n]);
      assert e.compactPointers + ps == e.compactPointers + ps[..n] + [ps[n]];
    }
  }

  lemma {:induction false} ApplyDeletions(e: Edit, ds: seq<(nat, nat)>)
    requires Increasing(ds) && e.deleted == []
    ensures ApplyAll(e, Deletions(ds)) == e.(deleted := ds)
  {
    var n := |ds| - 1;
    if ds != [] {
      ApplyDeletions(e, ds[..n]);
      assert Deletions(ds)[..n] == Deletions(ds[..n]);
      InsertLast(ds[..n], ds[n]);
      assert ds[..n] + [ds[n]] == ds;
    }
  }

  lemma {:induction false} ApplyAdditions(e: Edit, fs: seq<(nat, FileMetaData)>)
    ensures ApplyAll(e, Additions(fs)) == e.(newFiles := e.newFiles + fs)
  {
    var n := |fs| - 1;
    if fs == [] {
      assert e.newFiles + fs == e.newFiles;
    } else {
      ApplyAdditions(e, fs[..n]);
      assert Additions(fs)[..n] == Additions(fs[..n]);
      assert e.newFiles + fs == e.newFiles + fs[..n] + [fs[n]];
    }
  }

  /** What Clear leaves. The compaction pointers are not cleared. */
  function Cleared(e: Edit): Edit {
    Edit(None, None, None, None, None, e.compactPointers, [], [])
  }

  lemma ApplyOne(e: Edit, item: Item)
    ensures ApplyAll(e, [item]) == Apply(e, item)
  {
    assert [item][..0] == [];
  }

  lemma ApplyOptional(e: Edit, tag: nat, n: Option<nat>)
    ensures ApplyAll(e, OptionalNumber(tag, n)) == if n.Some? then Apply(e, Number(tag, n.value)) else e
  {
    if n.Some? {
      ApplyOne(e, Number(tag, n.value));
    }
  }

  lemma ApplyHeader(d: Edit, e: Edit)
    requires d == Cleared(d)
    ensures ApplyAll(d, Header(e)) == e.(compactPointers := d.compactPointers, deleted := [], newFiles := [])
  {
    hide Apply, OptionalNumber;
    var name := if e.comparator.Some? then [Name(e.comparator.value)] else [];
    var a, b := OptionalNumber(LOG_NUMBER, e.logNumber), OptionalNumber(PREV_LOG_NUMBER, e.prevLogNumber);
    var c, f := OptionalNumber(NEXT_FILE_NUMBER, e.nextFile), OptionalNumber(LAST_SEQUENCE, e.lastSequence);
    var d1 := ApplyAll(d, name);
    assert d1 == d.(comparator := e.comparator) by { NameApplied(d, e.comparator); }
    ApplyAppend(d, name, a);
    ApplyAppend(d, name + a, b);
    ApplyAppend(d, name + a + b, c);
    ApplyAppend(d, name + a + b + c, f);
    NumbersApplied(d1, e);
  }

  lemma NameApplied(d: Edit, name: Option<seq<Byte>>)
    requires d.comparator == None
    ensures ApplyAll(d, if name.Some? then [Name(name.value)] else []) == d.(comparator := name)
  {
    if name.Some? {
      ApplyOne(d, Name(name.value));
    }
  }

  lemma NumbersApplied(d: Edit, e: Edit)
    requires d.logNumber == d.prevLogNumber == d.nextFile == d.lastSequence == None
    ensures var d2 := ApplyAll(d, OptionalNumber(LOG_NUMBER, e.logNumber));
            var d3 := ApplyAll(d2, OptionalNumber(PREV_LOG_NUMBER, e.prevLogNumber));
            var d4 := ApplyAll(d3, OptionalNumber(NEXT_FILE_NUMBER, e.nextFile));
            ApplyAll(d4, OptionalNumber(LAST_SEQUENCE, e.lastSequence))
            == d.(logNumber := e.logNumber, prevLogNumber := e.prevLogNumber, nextFile := e.nextFile, lastSequence := e.lastSequence)
  {
    hide ApplyAll, OptionalNumber;
    var d2 := ApplyAll(d, OptionalNumber(LOG_NUMBER, e.logNumber));
    ApplyOptional(d, LOG_NUMBER, e.logNumber);
    var d3 := ApplyAll(d2, OptionalNumber(PREV_LOG_NUMBER, e.prevLogNumber));
    ApplyOptional(d2, PREV_LOG_NUMBER, e.prevLogNumber);
    var d4 := ApplyAll(d3, OptionalNumber(NEXT_FILE_NUMBER, e.nextFile));
    ApplyOptional(d3, NEXT_FILE_NUMBER, e.nextFile);
    ApplyOptional(d4, LAST_SEQUENCE, e.lastSequence);
  }

  /** Reading the items of `e` into `d` gives `e`, with the compaction pointers of `d` before its own. */
  lemma ItemsGiveBack(d: Edit, e: Edit)
    requires d == Cleared(d) && Increasing(e.deleted)
    ensures ApplyAll(d, Items(e)) == e.(compactPointers := d.compactPointers + e.compactPointers)
  {
    hide ApplyAll, Header, Pointers, Deletions, Additions;
    var a, b, c, f := Header(e), Pointers(e.compactPointers), Deletions(e.deleted), Additions(e.newFiles);
    ApplyAppend(d, a + b + c, f);
    ApplyAppend(d, a + b, c);
    ApplyAppend(d, a, b);
    ApplyHeader(d, e);
    var d1 := ApplyAll(d, a);
    ApplyPointers(d1, e.compactPointers);
    var d2 := ApplyAll(d1, b);
    ApplyDeletions(d2, e.deleted);
    var d3 := ApplyAll(d2, c);
    ApplyAdditions(d3, e.newFiles);
    assert [] + e.newFiles == e.newFiles;
  }

  // ---------------------------------------------------------------- writing

  ghost predicate EditFits(e: Edit) {
    forall i :: 0 <= i < |Items(e)| ==> Fits(Items(e)[i])
  }

  method PutItem(dst: seq<Byte>, item: Item) returns (r: seq<Byte>)
    requires Fits(item)
    ensures r == dst + ItemBytes(item)
  {
    hide Varint, Sized;
    TagIsSmall(item);
    var tag := EncodeVarint32(TagOf(item));
    r := dst + tag;
    match item
    case Name(s) => r := PutSized(r, s);
    case Number(_, n) =>
      var number := EncodeVarint64(n);
      r := r + number;
    case Pointer(level, key) =>
      var l := EncodeVarint32(level);
      r := r + l;
      r := PutSized(r, key);
    case Dropped(level, n) =>
      var l := EncodeVarint32(level);
      var number := EncodeVarint64(n);
      r := r + l;
      r := r + number;
    case New(level, f) =>
      var l := EncodeVarint32(level);
      var number := EncodeVarint64(f.number);
      var size := EncodeVarint64(f.size);
      FiveParts(dst + tag, l, number, size, Sized(f.smallest), Sized(f.largest));
      r := r + l;
      r := r + number;
      r := r + size;
      r := PutSized(r, f.smallest);
      r := PutSized(r, f.largest);
  }

  lemma TagIsSmall(item: Item)
    requires Fits(item)
    ensures TagOf(item) < 10
  {
  }

  lemma FiveParts(a: seq<Byte>, b: seq<Byte>, c: seq<Byte>, d: seq<Byte>, e: seq<Byte>, f: seq<Byte>)
    ensures a + b + c + d + e + f == a + (b + (c + (d + (e + f))))
  {
  }

  // ---------------------------------------------------------------- reading

  /** `bytes` lie at `p`. */
  ghost predicate At(data: seq<Byte>, p: nat, bytes: seq<Byte>) {
    p + |bytes| <= |data| && data[p..p + |bytes|] == bytes
  }

  lemma Halves(data: seq<Byte>, p: nat, a: seq<Byte>, b: seq<Byte>)
    requires At(data, p, a + b)
    ensures At(data, p, a) && At(data, p + |a|, b)
  {
    SliceOf(data, p, |a + b|, 0, |a|);
    SliceOf(data, p, |a + b|, |a|, |a| + |b|);
    assert (a + b)[0..|a|] == a && (a + b)[|a|..|a| + |b|] == b;
  }

  datatype ParsedItem = ParsedItem(item: Item, next: nat)

  method GetLevel(data: seq<Byte>, p: nat, ghost level: nat) returns (r: Option<Parsed>)
    requires p <= |data|
    ensures r.Some? ==> p < r.value.next <= |data| && r.value.value < NUM_LEVELS
    ensures level < NUM_LEVELS && At(data, p, Varint(level)) ==> r == Some(Parsed(level, p + |Varint(level)|))
  {
    hide Varint;
    r := GetVarint32(data, p, |data|, level);
    if r.Some? && r.value.value >= NUM_LEVELS {
      r := None;
    }
  }

  /** What the cases of DecodeFrom read behind the tag. */
  method GetPayload(data: seq<Byte>, p: nat, tag: nat, ghost item: Item) returns (r: Option<ParsedItem>)
    requires p <= |data|
    ensures r.Some? ==> p < r.value.next <= |data|
    ensures Fits(item) && tag == TagOf(item) && At(data, p, Payload(item)) ==> r == Some(ParsedItem(item, p + |Payload(item)|))
  {
    hide Varint, Sized, At;
    ghost var good := Fits(item) && tag == TagOf(item) && At(data, p, Payload(item));
    r := None;
    if tag == COMPARATOR {
      ghost var s := if item.Name? then item.comparator else [];
      if good {
        StringHere(data, p, s);
      }
      var name := GetSized(data, p, s);
      if name.Some? {
        r := Some(ParsedItem(Name(name.value.value), name.value.next));
      }
    } else if IsNumberTag(tag) {
      ghost var n := if item.Number? then item.n else 0;
      if good {
        NumberHere(data, p, n);
      }
      var number := GetVarint64(data, p, |data|, n);
      if number.Some? {
        r := Some(ParsedItem(Number(tag, number.value.value), number.value.next));
      }
    } else if tag == COMPACT_POINTER {
      r := GetPointer(data, p, item);
    } else if tag == DELETED_FILE {
      r := GetDeletion(data, p, item);
    } else if tag == NEW_FILE {
      r := GetAddition(data, p, item);
    }
  }

  method GetPointer(data: seq<Byte>, p: nat, ghost item: Item) returns (r: Option<ParsedItem>)
    requires p <= |data|
    ensures r.Some? ==> p < r.value.next <= |data|
    ensures Fits(item) && item.Pointer? && At(data, p, Payload(item)) ==> r == Some(ParsedItem(item, p + |Payload(item)|))
  {
    hide Varint, Sized, At;
    ghost var good := Fits(item) && item.Pointer? && At(data, p, Payload(item));
    ghost var l, key := if good then item.level else 0, if good then item.key else [];
    if good {
      Halves(data, p, Varint(l), Sized(key));
      StringHere(data, p + |Varint(l)|, key);
    }
    var level := GetLevel(data, p, l);
    if level == None {
      return None;
    }
    var str := GetSized(data, level.value.next, key);
    if str == None {
      return None;
    }
    return Some(ParsedItem(Pointer(level.value.value, str.value.value), str.value.next));
  }

  method GetDeletion(data: seq<Byte>, p: nat, ghost item: Item) returns (r: Option<ParsedItem>)
    requires p <= |data|
    ensures r.Some? ==> p < r.value.next <= |data|
    ensures Fits(item) && item.Dropped? && At(data, p, Payload(item)) ==> r == Some(ParsedItem(item, p + |Payload(item)|))
  {
    hide Varint, Sized, At;
    ghost var good := Fits(item) && item.Dropped? && At(data, p, Payload(item));
    ghost var l, n := if good then item.level else 0, if good then item.n else 0;
    if good {
      Halves(data, p, Varint(l), Varint(n));
      NumberHere(data, p + |Varint(l)|, n);
    }
    var level := GetLevel(data, p, l);
    if level == None {
      return None;
    }
    var number := GetVarint64(data, level.value.next, |data|, n);
    if number == None {
      return None;
    }
    return Some(ParsedItem(Dropped(level.value.value, number.value.value), number.value.next));
  }

  method GetAddition(data: seq<Byte>, p: nat, ghost item: Item) returns (r: Option<ParsedItem>)
    requires p <= |data|
    ensures r.Some? ==> p < r.value.next <= |data|
    ensures Fits(item) && item.New? && At(data, p, Payload(item)) ==> r == Some(ParsedItem(item, p + |Payload(item)|))
  {
    hide Varint, Sized, At;
    ghost var good := Fits(item) && item.New? && At(data, p, Payload(item));
    ghost var l, f := if good then item.level else 0, if good then item.f else FileMetaData(0, 0, [], []);
    ghost var p1 := p + |Varint(l)|;
    ghost var p2 := p1 + |Varint(f.number)|;
    ghost var p3 := p2 + |Varint(f.size)|;
    ghost var p4 := p3 + |Sized(f.smallest)|;
    if good {
      AdditionHere(data, p, l, f);
    }
    var level := GetLevel(data, p, l);
    if level == None {
      return None;
    }
    var number := GetVarint64(data, level.value.next, |data|, f.number);
    if number == None {
      return None;
    }
    var size := GetVarint64(data, number.value.next, |data|, f.size);
    if size == None {
      return None;
    }
    var smallest := GetSized(data, size.value.next, f.smallest);
    if smallest == None {
      return None;
    }
    var largest := GetSized(data, smallest.value.next, f.largest);
    if largest == None {
      return None;
    }
    return Some(ParsedItem(New(level.value.value, FileMetaData(number.value.value, size.value.value, smallest.value.value, largest.value.value)),
                           largest.value.next));
  }

  lemma AdditionHere(data: seq<Byte>, p: nat, l: nat, f: FileMetaData)
    requires At(data, p, Payload(New(l, f)))
    ensures var p1 := p + |Varint(l)|; var p2 := p1 + |Varint(f.number)|; var p3 := p2 + |Varint(f.size)|; var p4 := p3 + |Sized(f.smallest)|;
            && At(data, p, Varint(l)) && VarintAt(data, p1, |data|, f.number) && VarintAt(data, p2, |data|, f.size)
            && SizedAt(data, p3, f.smallest) && SizedAt(data, p4, f.largest) && p4 + |Sized(f.largest)| == p + |Payload(New(l, f))|
  {
    hide Varint, Sized, At, VarintAt, SizedAt;
    FiveHere(data, p, Varint(l), Varint(f.number), Varint(f.size), Sized(f.smallest), Sized(f.largest));
    NumberHere(data, p + |Varint(l)|, f.number);
    NumberHere(data, p + |Varint(l)| + |Varint(f.number)|, f.size);
    StringHere(data, p + |Varint(l)| + |Varint(f.number)| + |Varint(f.size)|, f.smallest);
    StringHere(data, p + |Varint(l)| + |Varint(f.number)| + |Varint(f.size)| + |Sized(f.smallest)|, f.largest);
  }

  lemma FiveHere(data: seq<Byte>, p: nat, a: seq<Byte>, b: seq<Byte>, c: seq<Byte>, d: seq<Byte>, e: seq<Byte>)
    requires At(data, p, a + (b + (c + (d + e))))
    ensures At(data, p, a) && At(data, p + |a|, b) && At(data, p + |a| + |b|, c)
    ensures At(data, p + |a| + |b| + |c|, d) && At(data, p + |a| + |b| + |c| + |d|, e)
  {
    hide At;
    Halves(data, p, a, b + (c + (d + e)));
    Halves(data, p + |a|, b, c + (d + e));
    Halves(data, p + |a| + |b|, c, d + e);
    Halves(data, p + |a| + |b| + |c|, d, e);
  }

  lemma NumberHere(data: seq<Byte>, p: nat, n: nat)
    requires At(data, p, Varint(n))
    ensures VarintAt(data, p, |data|, n)
  {
    hide Varint;
  }

  lemma StringHere(data: seq<Byte>, p: nat, s: seq<Byte>)
    requires At(data, p, Sized(s))
    ensures SizedAt(data, p, s)
  {
    hide Sized;
  }

  // ---------------------------------------------------------------- the edit

  /** From `p` on lie the items from number `i` on. */
  ghost predicate Rest(data: seq<Byte>, p: nat, items: seq<Item>, i: nat) {
    i <= |items| && p <= |data| && data[p..] == BytesOf(items[i..]) && forall j :: 0 <= j < |items| ==> Fits(items[j])
  }

  lemma NextItem(data: seq<Byte>, p: nat, items: seq<Item>, i: nat)
    requires Rest(data, p, items, i) && p < |data|
    ensures i < |items| && Fits(items[i]) && VarintAt(data, p, |data|, TagOf(items[i]))
    ensures At(data, p + |Varint(TagOf(items[i]))|, Payload(items[i]))
    ensures Rest(data, p + |ItemBytes(items[i])|, items, i + 1) && items[..i + 1] == items[..i] + [items[i]]
    ensures |ItemBytes(items[i])| == |Varint(TagOf(items[i]))| + |Payload(items[i])|
  {
    hide Varint, Payload;
    assert i < |items|;
    assert items[i..][1..] == items[i + 1..];
    var n := |ItemBytes(items[i])|;
    assert data[p..][..n] == ItemBytes(items[i]) && data[p..][n..] == BytesOf(items[i + 1..]);
    assert data[p..p + n] == data[p..][..n] && data[p + n..] == data[p..][n..];
    Halves(data, p, Varint(TagOf(items[i])), Payload(items[i]));
  }

  lemma NoMoreItems(data: seq<Byte>, p: nat, items: seq<Item>, i: nat)
    requires Rest(data, p, items, i) && p == |data|
    ensures i == |items| && items[..i] == items
  {
    SomeBytes(items[i..]);
  }

  lemma SomeBytes(items: seq<Item>)
    ensures items != [] ==> BytesOf(items) != []
  {
  }

  class VersionEdit {
    var comparator: Option<seq<Byte>>
    var logNumber: Option<nat>
    var prevLogNumber: Option<nat>
    var nextFile: Option<nat>
    var lastSequence: Option<nat>
    var compactPointers: seq<(nat, seq<Byte>)>
    var deleted: seq<(nat, nat)>
    var newFiles: seq<(nat, FileMetaData)>

    function Abs(): Edit
      reads this
    {
      Edit(comparator, logNumber, prevLogNumber, nextFile, lastSequence, compactPointers, deleted, newFiles)
    }

    ghost predicate Valid()
      reads this
    {
      Increasing(deleted)
    }

    constructor ()
      ensures Valid() && Abs() == Edit(None, None, None, None, None, [], [], [])
    {
      comparator, logNumber, prevLogNumber, nextFile, lastSequence := None, None, None, None, None;
      compactPointers, deleted, newFiles := [], [], [];
    }

    /** The compaction pointers stay. */
    method Clear()
      modifies this
      ensures Valid() && Abs() == Cleared(old(Abs()))
    {
      comparator, logNumber, prevLogNumber, nextFile, lastSequence := None, None, None, None, None;
      deleted, newFiles := [], [];
    }

    method EncodeTo(dst: seq<Byte>) returns (r: seq<Byte>)
      requires EditFits(Abs())
      ensures r == dst + BytesOf(Items(Abs()))
    {
      hide Fits, BytesOf, Header, Pointers, Deletions, Additions;
      ghost var a, b, c, d := Header(Abs()), Pointers(compactPointers), Deletions(deleted), Additions(newFiles);
      EditParts(Abs());
      r := EncodeHeader(dst);
      r := EncodePointers(r);
      r := EncodeDeletions(r);
      r := EncodeAdditions(r);
      InOneGo(dst, a, b, c, d);
    }

    method EncodeHeader(dst: seq<Byte>) returns (r: seq<Byte>)
      requires forall i :: 0 <= i < |Header(Abs())| ==> Fits(Header(Abs())[i])
      ensures r == dst + BytesOf(Header(Abs()))
    {
      hide Fits, ItemBytes, BytesOf, OptionalNumber;
      ghost var e := Abs();
      ghost var name := if comparator.Some? then [Name(comparator.value)] else [];
      HeaderFits(e, name);
      r := dst;
      if comparator.Some? {
        r := PutItem(r, Name(comparator.value));
        BytesOfOne(Name(comparator.value));
      } else {
        NothingYet(dst, []);
      }
      r := PutOptional(r, LOG_NUMBER, logNumber);
      r := PutOptional(r, PREV_LOG_NUMBER, prevLogNumber);
      r := PutOptional(r, NEXT_FILE_NUMBER, nextFile);
      r := PutOptional(r, LAST_SEQUENCE, lastSequence);
      FiveTogether(dst, name, OptionalNumber(LOG_NUMBER, logNumber), OptionalNumber(PREV_LOG_NUMBER, prevLogNumber),
                   OptionalNumber(NEXT_FILE_NUMBER, nextFile), OptionalNumber(LAST_SEQUENCE, lastSequence));
    }

    method EncodePointers(dst: seq<Byte>) returns (r: seq<Byte>)
      requires forall i :: 0 <= i < |Pointers(compactPointers)| ==> Fits(Pointers(compactPointers)[i])
      ensures r == dst + BytesOf(Pointers(compactPointers))
    {
      hide Fits, ItemBytes, BytesOf;
      ghost var items := Pointers(compactPointers);
      r := dst;
      NothingYet(dst, items);
      var i := 0;
      while i < |compactPointers|
        invariant 0 <= i <= |compactPointers| == |items| && r == dst + BytesOf(items[..i])
      {
        r := PutNext(r, dst, items, i, Pointer(compactPointers[i].0, compactPointers[i].1));
        i := i + 1;
      }
      assert items[..i] == items;
    }

    method EncodeDeletions(dst: seq<Byte>) returns (r: seq<Byte>)
      requires forall i :: 0 <= i < |Deletions(deleted)| ==> Fits(Deletions(deleted)[i])
      ensures r == dst + BytesOf(Deletions(deleted))
    {
      hide Fits, ItemBytes, BytesOf;
      ghost var items := Deletions(deleted);
      r := dst;
      NothingYet(dst, items);
      var i := 0;
      while i < |deleted|
        invariant 0 <= i <= |deleted| == |items| && r == dst + BytesOf(items[..i])
      {
        r := PutNext(r, dst, items, i, Dropped(deleted[i].0, deleted[i].1));
        i := i + 1;
      }
      assert items[..i] == items;
    }

    method EncodeAdditions(dst: seq<Byte>) returns (r: seq<Byte>)
      requires forall i :: 0 <= i < |Additions(newFiles)| ==> Fits(Additions(newFiles)[i])
      ensures r == dst + BytesOf(Additions(newFiles))
    {
      hide Fits, ItemBytes, BytesOf;
      ghost var items := Additions(newFiles);
      r := dst;
      NothingYet(dst, items);
      var i := 0;
      while i < |newFiles|
        invariant 0 <= i <= |newFiles| == |items| && r == dst + BytesOf(items[..i])
      {
        r := PutNext(r, dst, items, i, New(newFiles[i].0, newFiles[i].1));
        i := i + 1;
      }
      assert items[..i] == items;
    }

    /** Reads an edit. What EncodeTo wrote for `e` gives back `e` with the compaction pointers that were
        there before in front of its own: it is the inverse if, and only if, there were none. */
    method DecodeFrom(src: seq<Byte>, ghost e: Edit) returns (ok: bool)
      modifies this
      ensures Valid()
      ensures EditFits(e) && Increasing(e.deleted) && src == BytesOf(Items(e)) ==>
                ok && Abs() == e.(compactPointers := old(compactPointers) + e.compactPointers)
      ensures EditFits(e) && Increasing(e.deleted) && src == BytesOf(Items(e)) ==> (Abs() == e <==> old(compactPointers) == [])
    {
      hide Fits, ItemBytes, BytesOf, Items, Payload, TagOf, Varint, VarintAt, At, Rest, Apply, ApplyAll, Increasing;
      ghost var good := EditFits(e) && src == BytesOf(Items(e));
      InverseIntoFresh(compactPointers, e);
      ghost var items := Items(e);
      Clear();
      NoneDeleted();
      ghost var start := Abs();
      if good {
        Begin(src, items);
      }
      var p := 0;
      ghost var i := 0;
      assert items[..0] == [];
      NothingApplied(start);
      while true
        invariant 0 <= p <= |src| && Valid()
        invariant good ==> i <= |items| && Rest(src, p, items, i) && Abs() == ApplyAll(start, items[..i])
        decreases |src| - p
      {
        ghost var item := if good && i < |items| then items[i] else Number(0, 0);
        if good && p < |src| {
          NextItem(src, p, items, i);
          SmallTag(items[i]);
        }
        var tag := GetVarint32(src, p, |src|, TagOf(item));
        if tag == None {
          break;
        }
        var parsed := GetPayload(src, tag.value.next, tag.value.value, item);
        if parsed == None {
          return false;
        }
        Take(parsed.value.item);
        if good {
          OneMoreApplied(start, items, i);
        }
        p := parsed.value.next;
        i := i + 1;
      }
      ok := p == |src|;
      if good {
        NoMoreItems(src, p, items, i);
        if Increasing(e.deleted) {
          ItemsGiveBack(start, e);
        }
      }
    }

    method Take(item: Item)
      requires Valid()
      modifies this
      ensures Valid() && Abs() == Apply(old(Abs()), item)
    {
      match item
      case Name(s) => comparator := Some(s);
      case Number(tag, n) =>
        if tag == LOG_NUMBER {
          logNumber := Some(n);
        } else if tag == PREV_LOG_NUMBER {
          prevLogNumber := Some(n);
        } else if tag == NEXT_FILE_NUMBER {
          nextFile := Some(n);
        } else {
          lastSequence := Some(n);
        }
      case Pointer(level, key) => compactPointers := compactPointers + [(level, key)];
      case Dropped(level, n) =>
        InsertMeans(deleted, (level, n));
        deleted := Insert(deleted, (level, n));
      case New(level, f) => newFiles := newFiles + [(level, f)];
    }
  }

  lemma NoneDeleted()
    ensures Increasing([])
  {
  }

  lemma NothingYet(dst: seq<Byte>, items: seq<Item>)
    ensures dst == dst + BytesOf(items[..0])
  {
  }

  lemma NothingApplied(e: Edit)
    ensures ApplyAll(e, []) == e
  {
  }

  lemma OneMoreApplied(e: Edit, items: seq<Item>, i: nat)
    requires i < |items| && items[..i + 1] == items[..i] + [items[i]]
    ensures ApplyAll(e, items[..i + 1]) == Apply(ApplyAll(e, items[..i]), items[i])
  {
    assert items[..i + 1][..i] == items[..i];
  }

  lemma SmallTag(item: Item)
    requires Fits(item)
    ensures TagOf(item) < TWO_32
  {
  }

  lemma Begin(src: seq<Byte>, items: seq<Item>)
    requires src == BytesOf(items) && forall i :: 0 <= i < |items| ==> Fits(items[i])
    ensures Rest(src, 0, items, 0)
  {
    assert items[0..] == items && src[0..] == src;
  }

  lemma EditParts(e: Edit)
    requires EditFits(e)
    ensures (forall i :: 0 <= i < |Header(e)| ==> Fits(Header(e)[i]))
    ensures (forall i :: 0 <= i < |Pointers(e.compactPointers)| ==> Fits(Pointers(e.compactPointers)[i]))
    ensures (forall i :: 0 <= i < |Deletions(e.deleted)| ==> Fits(Deletions(e.deleted)[i]))
    ensures (forall i :: 0 <= i < |Additions(e.newFiles)| ==> Fits(Additions(e.newFiles)[i]))
  {
    hide Fits, Header, Pointers, Deletions, Additions;
    var all := Items(e);
    assert forall i :: 0 <= i < |all| ==> Fits(all[i]);
    PartsFit(Header(e), Pointers(e.compactPointers), Deletions(e.deleted), Additions(e.newFiles));
  }

  lemma PartsFit(a: seq<Item>, b: seq<Item>, c: seq<Item>, d: seq<Item>)
    requires forall i :: 0 <= i < |a + b + c + d| ==> Fits((a + b + c + d)[i])
    ensures (forall i :: 0 <= i < |a| ==> Fits(a[i])) && (forall i :: 0 <= i < |b| ==> Fits(b[i]))
    ensures (forall i :: 0 <= i < |c| ==> Fits(c[i])) && (forall i :: 0 <= i < |d| ==> Fits(d[i]))
  {
    hide Fits;
    var all := a + b + c + d;
    forall i | 0 <= i < |a| ensures Fits(a[i]) {
      assert all[i] == a[i];
    }
    forall i | 0 <= i < |b| ensures Fits(b[i]) {
      assert all[|a| + i] == b[i];
    }
    forall i | 0 <= i < |c| ensures Fits(c[i]) {
      assert all[|a| + |b| + i] == c[i];
    }
    forall i | 0 <= i < |d| ensures Fits(d[i]) {
      assert all[|a| + |b| + |c| + i] == d[i];
    }
  }

  lemma InOneGo(dst: seq<Byte>, a: seq<Item>, b: seq<Item>, c: seq<Item>, d: seq<Item>)
    ensures dst + BytesOf(a) + BytesOf(b) + BytesOf(c) + BytesOf(d) == dst + BytesOf(a + b + c + d)
  {
    hide BytesOf;
    BytesAppend(a, b);
    BytesAppend(a + b, c);
    BytesAppend(a + b + c, d);
    FiveInARow(dst, BytesOf(a), BytesOf(b), BytesOf(c), BytesOf(d));
  }

  lemma FiveInARow(a: seq<Byte>, b: seq<Byte>, c: seq<Byte>, d: seq<Byte>, e: seq<Byte>)
    ensures a + b + c + d + e == a + (b + c + d + e)
  {
  }

  lemma HeaderFits(e: Edit, name: seq<Item>)
    requires forall i :: 0 <= i < |Header(e)| ==> Fits(Header(e)[i])
    requires name == if e.comparator.Some? then [Name(e.comparator.value)] else []
    ensures e.comparator.Some? ==> Fits(Name(e.comparator.value))
    ensures (e.logNumber.Some? ==> e.logNumber.value < TWO_64) && (e.prevLogNumber.Some? ==> e.prevLogNumber.value < TWO_64)
    ensures (e.nextFile.Some? ==> e.nextFile.value < TWO_64) && (e.lastSequence.Some? ==> e.lastSequence.value < TWO_64)
  {
    hide Fits;
    var a, b := OptionalNumber(LOG_NUMBER, e.logNumber), OptionalNumber(PREV_LOG_NUMBER, e.prevLogNumber);
    var c, d := OptionalNumber(NEXT_FILE_NUMBER, e.nextFile), OptionalNumber(LAST_SEQUENCE, e.lastSequence);
    var all := Header(e);
    assert all == name + a + b + c + d;
    PartsFit(name + a, b, c, d);
    if e.comparator.Some? {
      assert (name + a)[0] == name[0];
      FitsNumber(name[0]);
    }
    if a != [] {
      assert (name + a)[|name|] == a[0];
      FitsNumber(a[0]);
    }
    if b != [] {
      FitsNumber(b[0]);
    }
    if c != [] {
      FitsNumber(c[0]);
    }
    if d != [] {
      FitsNumber(d[0]);
    }
  }

  lemma FitsNumber(item: Item)
    requires Fits(item)
    ensures (item.Name? ==> |item.comparator| < TWO_32) && (item.Number? ==> item.n < TWO_64)
  {
  }

  lemma FiveTogether(dst: seq<Byte>, a: seq<Item>, b: seq<Item>, c: seq<Item>, d: seq<Item>, e: seq<Item>)
    ensures dst + BytesOf(a) + BytesOf(b) + BytesOf(c) + BytesOf(d) + BytesOf(e) == dst + BytesOf(a + b + c + d + e)
  {
    hide BytesOf;
    InOneGo(dst, a, b, c, d);
    BytesAppend(a + b + c + d, e);
    Associate(dst, BytesOf(a + b + c + d), BytesOf(e));
  }

  method PutOptional(dst: seq<Byte>, tag: nat, n: Option<nat>) returns (r: seq<Byte>)
    requires IsNumberTag(tag) && (n.Some? ==> n.value < TWO_64)
    ensures r == dst + BytesOf(OptionalNumber(tag, n))
  {
    hide ItemBytes, BytesOf;
    r := dst;
    if n.Some? {
      r := PutItem(r, Number(tag, n.value));
      BytesOfOne(Number(tag, n.value));
    } else {
      NothingYet(dst, []);
      assert [][..0] == OptionalNumber(tag, n);
    }
  }

  method PutNext(r: seq<Byte>, ghost dst: seq<Byte>, ghost items: seq<Item>, ghost n: nat, item: Item) returns (more: seq<Byte>)
    requires n < |items| && items[n] == item && Fits(item) && r == dst + BytesOf(items[..n])
    ensures more == dst + BytesOf(items[..n + 1])
  {
    hide Fits, ItemBytes, BytesOf;
    more := PutItem(r, item);
    assert items[..n + 1] == items[..n] + [item];
    BytesWith(items[..n], item);
    Associate(dst, BytesOf(items[..n]), ItemBytes(item));
  }

  /** Pointers in front of those of an edit leave it the same only if there are none. */
  lemma InverseIntoFresh(before: seq<(nat, seq<Byte>)>, e: Edit)
    ensures e.(compactPointers := before + e.compactPointers) == e <==> before == []
  {
    assert |before + e.compactPointers| == |before| + |e.compactPointers|;
    assert [] + e.compactPointers == e.compactPointers;
  }

  /** The bytes of an empty edit, read into an edit that was used before, do not give the empty edit. */
  method ReadIntoUsed() returns (target: VersionEdit, ok: bool)
    ensures fresh(target) && ok
    ensures var empty := Edit(None, None, None, None, None, [], [], []);
            BytesOf(Items(empty)) == [] && target.Abs() == empty.(compactPointers := [(0, [])]) && target.Abs() != empty
  {
    ghost var empty := Edit(None, None, None, None, None, [], [], []);
    assert Items(empty) == [];
    target := new VersionEdit();
    target.compactPointers := [(0, [])];
    ok := target.DecodeFrom([], empty);
    assert [(0, [])] + empty.compactPointers == [(0, [])];
  }
}
