/** Write batches as bytes: a sequence number, a count, and the updates one after the other
    (db/write_batch.cc). */
module WriteBatches {
  import opened Bytes
  import opened Coding
  import opened DbFormat

  const HEADER: nat := 12
  const TYPE_DELETION: Byte := 0
  const TYPE_VALUE: Byte := 1

  datatype Update = Put(key: seq<Byte>, value: seq<Byte>) | Delete(key: seq<Byte>)

  function UpdateBytes(u: Update): seq<Byte> {
    match u
    case Put(key, value) => [TYPE_VALUE] + Sized(key) + Sized(value)
    case Delete(key) => [TYPE_DELETION] + Sized(key)
  }

  /** The updates from the first on. */
  function BytesOf(us: seq<Update>): seq<Byte> {
    if us == [] then [] else UpdateBytes(us[0]) + BytesOf(us[1..])
  }

  ghost predicate Fits(u: Update) {
    |u.key| < TWO_32 && (u.Put? ==> |u.value| < TWO_32)
  }

  ghost predicate AllFit(us: seq<Update>) {
    forall i :: 0 <= i < |us| ==> Fits(us[i])
  }

  lemma {:induction false} BytesAppend(a: seq<Update>, b: seq<Update>)
    ensures BytesOf(a + b) == BytesOf(a) + BytesOf(b)
  {
    hide UpdateBytes;
    if a == [] {
      assert a + b == b;
    } else {
      BytesAppend(a[1..], b);
      assert (a + b)[1..] == a[1..] + b;
      Associate(UpdateBytes(a[0]), BytesOf(a[1..]), BytesOf(b));
    }
  }

  lemma BytesOfOne(u: Update)
    ensures BytesOf([u]) == UpdateBytes(u)
  {
    assert [u][1..] == [] && UpdateBytes(u) + [] == UpdateBytes(u);
  }

  datatype Status = Ok | Corruption

  class WriteBatch {
    var rep: seq<Byte>
    /** What the bytes stand for. */
    ghost var sequence: nat
    ghost var updates: seq<Update>

    ghost predicate Valid()
      reads this
    {
      && AllFit(updates) && sequence < TWO_64
      && rep == EncodeFixed64(sequence) + EncodeFixed32(|updates| % TWO_32) + BytesOf(updates)
    }

    constructor ()
      ensures Valid() && updates == [] && sequence == 0
    {
      Nothing();
      rep := seq(HEADER, _ => 0);
      sequence, updates := 0, [];
    }

    method Clear()
      modifies this
      ensures Valid() && updates == [] && sequence == 0
    {
      Nothing();
      rep := seq(HEADER, _ => 0);
      sequence, updates := 0, [];
    }

    function Count(): nat
      requires |rep| >= HEADER
      reads this
    {
      DecodeFixed32(rep[8..])
    }

    function Sequence(): nat
      requires |rep| >= HEADER
      reads this
    {
      DecodeFixed64(rep)
    }

    lemma Parts()
      requires Valid()
      ensures |rep| >= HEADER && Count() == |updates| % TWO_32 && Sequence() == sequence
      ensures rep[..8] == EncodeFixed64(sequence) && rep[8..12] == EncodeFixed32(|updates| % TWO_32) && rep[12..] == BytesOf(updates)
    {
      HeaderParts(rep, sequence, |updates| % TWO_32, BytesOf(updates));
    }

    method SetCount(n: nat)
      requires |rep| >= HEADER
      modifies this`rep
      ensures rep == old(rep)[..8] + EncodeFixed32(n % TWO_32) + old(rep)[12..]
    {
      rep := rep[..8] + EncodeFixed32(n % TWO_32) + rep[12..];
    }

    method SetSequence(n: nat)
      requires Valid() && n < TWO_64
      modifies this
      ensures Valid() && updates == old(updates) && sequence == n
    {
      hide EncodeFixed64, EncodeFixed32, DecodeFixed32, DecodeFixed64, BytesOf;
      Parts();
      rep := EncodeFixed64(n) + rep[8..];
      sequence := n;
      Rejoin(EncodeFixed64(n), old(rep));
    }

    method Put(key: seq<Byte>, value: seq<Byte>)
      requires Valid() && |key| < TWO_32 && |value| < TWO_32
      modifies this
      ensures Valid() && sequence == old(sequence) && updates == old(updates) + [Update.Put(key, value)]
    {
      hide EncodeFixed64, EncodeFixed32, DecodeFixed32, DecodeFixed64, BytesOf, Sized;
      Parts();
      SetCount(Count() + 1);
      ghost var before := rep;
      rep := rep + [TYPE_VALUE];
      rep := PutSized(rep, key);
      rep := PutSized(rep, value);
      ghost var u := Update.Put(key, value);
      Longer(before, [TYPE_VALUE], Sized(key), Sized(value));
      Grown(before, old(rep), sequence, updates, u);
      updates := updates + [u];
    }

    method Delete(key: seq<Byte>)
      requires Valid() && |key| < TWO_32
      modifies this
      ensures Valid() && sequence == old(sequence) && updates == old(updates) + [Update.Delete(key)]
    {
      hide EncodeFixed64, EncodeFixed32, DecodeFixed32, DecodeFixed64, BytesOf, Sized;
      Parts();
      SetCount(Count() + 1);
      ghost var before := rep;
      rep := rep + [TYPE_DELETION];
      rep := PutSized(rep, key);
      ghost var u := Update.Delete(key);
      Associate(before, [TYPE_DELETION], Sized(key));
      Grown(before, old(rep), sequence, updates, u);
      updates := updates + [u];
    }

    /** WriteBatchInternal::Append: the updates of `src` behind those there are. */
    method Append(src: WriteBatch)
      requires Valid() && src.Valid() && src != this
      modifies this
      ensures Valid() && sequence == old(sequence) && updates == old(updates) + src.updates
    {
      hide EncodeFixed64, EncodeFixed32, DecodeFixed32, DecodeFixed64, BytesOf;
      Parts();
      src.Parts();
      SetCount(Count() + src.Count());
      ghost var before := rep;
      rep := rep + src.rep[HEADER..];
      Joined(before, old(rep), sequence, updates, src.updates);
      updates := updates + src.updates;
    }

    /** Iterate: the updates in order, or an error if the bytes are malformed. */
    method Iterate() returns (status: Status, us: seq<Update>)
      ensures Valid() && |updates| < TWO_32 ==> status == Ok && us == updates
    {
      hide Valid, Rest, DecodeFixed32, UpdateBytes, Fits;
      us := [];
      ghost var good := Valid() && |updates| < TWO_32;
      if good {
        Begins();
      }
      if |rep| < HEADER {
        return Corruption, us;
      }
      var p, found := HEADER, 0;
      while p < |rep|
        invariant HEADER <= p <= |rep| && found == |us|
        invariant good ==> found <= |updates| && us == updates[..found] && Rest(rep, p, updates, found)
        decreases |rep| - p
      {
        ghost var u := if good && found < |updates| then updates[found] else Update.Delete([]);
        if good {
          NextUpdate(rep, p, updates, found);
        }
        found := found + 1;
        var ok, next, update := ParseUpdate(rep, p, u);
        if !ok {
          return Corruption, us;
        }
        us := us + [update];
        p := next;
      }
      if good {
        NothingLeft(rep, p, updates, found);
      }
      if found != Count() {
        return Corruption, us;
      }
      return Ok, us;
    }

    lemma Begins()
      requires Valid() && |updates| < TWO_32
      ensures |rep| >= HEADER && Count() == |updates| && Rest(rep, HEADER, updates, 0) && updates[..0] == []
    {
      hide EncodeFixed64, EncodeFixed32, DecodeFixed32, DecodeFixed64, BytesOf;
      Parts();
      assert updates[0..] == updates;
    }

    /** One turn of the loop of Iterate. */
    static method ParseUpdate(data: seq<Byte>, p: nat, ghost u: Update) returns (ok: bool, next: nat, update: Update)
      requires p < |data|
      ensures ok ==> p < next <= |data|
      ensures Fits(u) && p + |UpdateBytes(u)| <= |data| && data[p..p + |UpdateBytes(u)|] == UpdateBytes(u) ==>
                ok && update == u && next == p + |UpdateBytes(u)|
    {
      ghost var good := Fits(u) && p + |UpdateBytes(u)| <= |data| && data[p..p + |UpdateBytes(u)|] == UpdateBytes(u);
      if good {
        UpdateParts(data, p, u);
      }
      hide Sized, SizedAt, UpdateBytes;
      update := Update.Delete([]);
      if data[p] == TYPE_VALUE {
        var key := GetSized(data, p + 1, u.key);
        if key == None {
          return false, p, update;
        }
        var value := GetSized(data, key.value.next, if u.Put? then u.value else []);
        if value == None {
          return false, p, update;
        }
        return true, value.value.next, Update.Put(key.value.value, value.value.value);
      } else if data[p] == TYPE_DELETION {
        var key := GetSized(data, p + 1, u.key);
        if key == None {
          return false, p, update;
        }
        return true, key.value.next, Update.Delete(key.value.value);
      }
      return false, p, update;
    }
  }

  // ---------------------------------------------------------------- the bytes of a batch

  lemma Nothing()
    ensures seq(HEADER, _ => 0 as Byte) == EncodeFixed64(0) + EncodeFixed32(0) + BytesOf([])
  {
    ZeroBytes();
  }

  lemma ZeroBytes()
    ensures EncodeFixed32(0) == [0, 0, 0, 0]
  {
  }

  lemma HeaderParts(rep: seq<Byte>, sequence: nat, count: nat, rest: seq<Byte>)
    requires sequence < TWO_64 && count < TWO_32 && rep == EncodeFixed64(sequence) + EncodeFixed32(count) + rest
    ensures |rep| >= HEADER && DecodeFixed32(rep[8..]) == count && DecodeFixed64(rep) == sequence
    ensures rep[..8] == EncodeFixed64(sequence) && rep[8..12] == EncodeFixed32(count) && rep[12..] == rest
  {
    hide EncodeFixed32, DecodeFixed32;
    Fixed32RoundTrip(count, rest);
    assert rep[8..] == EncodeFixed32(count) + rest;
    Fixed64Here(rep, sequence);
  }

  lemma Fixed64Here(rep: seq<Byte>, n: nat)
    requires n < TWO_64 && |rep| >= 8 && rep[..8] == EncodeFixed64(n)
    ensures DecodeFixed64(rep) == n
  {
    hide EncodeFixed32, DecodeFixed32;
    var low, high := EncodeFixed32(n % TWO_32), EncodeFixed32(n / TWO_32);
    Fixed32RoundTrip(n % TWO_32, rep[4..]);
    Fixed32RoundTrip(n / TWO_32, rep[8..]);
    assert rep[..8][..4] == low && rep[..8][4..] == high;
    assert rep == low + rep[4..] && rep[4..] == high + rep[8..];
  }

  lemma Rejoin(front: seq<Byte>, rep: seq<Byte>)
    requires |rep| >= HEADER && |front| == 8
    ensures front + rep[8..] == front + rep[8..12] + rep[12..]
  {
  }

  lemma Longer(a: seq<Byte>, b: seq<Byte>, c: seq<Byte>, d: seq<Byte>)
    ensures a + b + c + d == a + (b + c + d)
  {
  }

  /** With the count raised and the bytes of `u` at the end. */
  lemma Grown(before: seq<Byte>, rep: seq<Byte>, sequence: nat, us: seq<Update>, u: Update)
    requires sequence < TWO_64 && |rep| >= HEADER && rep[..8] == EncodeFixed64(sequence) && rep[12..] == BytesOf(us)
    requires before == rep[..8] + EncodeFixed32((|us| % TWO_32 + 1) % TWO_32) + rep[12..]
    ensures before + UpdateBytes(u) == EncodeFixed64(sequence) + EncodeFixed32(|us + [u]| % TWO_32) + BytesOf(us + [u])
  {
    hide EncodeFixed64, EncodeFixed32, BytesOf, UpdateBytes;
    BytesAppend(us, [u]);
    BytesOfOne(u);
    Longer(EncodeFixed64(sequence), EncodeFixed32(|us + [u]| % TWO_32), BytesOf(us), UpdateBytes(u));
    Associate(EncodeFixed64(sequence) + EncodeFixed32(|us + [u]| % TWO_32), BytesOf(us), UpdateBytes(u));
  }

  lemma Joined(before: seq<Byte>, rep: seq<Byte>, sequence: nat, us: seq<Update>, vs: seq<Update>)
    requires sequence < TWO_64 && |rep| >= HEADER && rep[..8] == EncodeFixed64(sequence) && rep[12..] == BytesOf(us)
    requires before == rep[..8] + EncodeFixed32((|us| % TWO_32 + |vs| % TWO_32) % TWO_32) + rep[12..]
    ensures before + BytesOf(vs) == EncodeFixed64(sequence) + EncodeFixed32(|us + vs| % TWO_32) + BytesOf(us + vs)
  {
    hide EncodeFixed64, EncodeFixed32, BytesOf;
    BytesAppend(us, vs);
    Associate(EncodeFixed64(sequence) + EncodeFixed32(|us + vs| % TWO_32), BytesOf(us), BytesOf(vs));
  }

  /** From `p` on lie the updates from number `i` on. */
  ghost predicate Rest(rep: seq<Byte>, p: nat, us: seq<Update>, i: nat) {
    AllFit(us) && i <= |us| && p <= |rep| && rep[p..] == BytesOf(us[i..])
  }

  lemma NextUpdate(rep: seq<Byte>, p: nat, us: seq<Update>, i: nat)
    requires Rest(rep, p, us, i) && p < |rep|
    ensures i < |us| && Fits(us[i]) && p + |UpdateBytes(us[i])| <= |rep| && rep[p..p + |UpdateBytes(us[i])|] == UpdateBytes(us[i])
    ensures Rest(rep, p + |UpdateBytes(us[i])|, us, i + 1) && us[..i + 1] == us[..i] + [us[i]]
  {
    hide UpdateBytes;
    assert i < |us|;
    var u := us[i];
    assert us[i..][1..] == us[i + 1..];
    var n := |UpdateBytes(u)|;
    assert rep[p..][..n] == UpdateBytes(u) && rep[p..][n..] == BytesOf(us[i + 1..]);
    assert rep[p..p + n] == rep[p..][..n] && rep[p + n..] == rep[p..][n..];
  }

  lemma NothingLeft(rep: seq<Byte>, p: nat, us: seq<Update>, i: nat)
    requires Rest(rep, p, us, i) && p == |rep|
    ensures i == |us| && us[..i] == us
  {
    SomeBytes(us[i..]);
  }

  lemma SomeBytes(us: seq<Update>)
    ensures us != [] ==> BytesOf(us) != []
  {
  }

  lemma UpdateParts(data: seq<Byte>, p: nat, u: Update)
    requires p + |UpdateBytes(u)| <= |data| && data[p..p + |UpdateBytes(u)|] == UpdateBytes(u)
    ensures p < |data| && data[p] == if u.Put? then TYPE_VALUE else TYPE_DELETION
    ensures SizedAt(data, p + 1, u.key)
    ensures u.Delete? ==> |UpdateBytes(u)| == 1 + |Sized(u.key)|
    ensures u.Put? ==> SizedAt(data, p + 1 + |Sized(u.key)|, u.value) && |UpdateBytes(u)| == 1 + |Sized(u.key)| + |Sized(u.value)|
  {
    hide Sized;
    var whole := UpdateBytes(u);
    var a := Sized(u.key);
    assert data[p] == data[p..p + |whole|][0];
    SliceOf(data, p, |whole|, 1, 1 + |a|);
    assert whole[1..1 + |a|] == a;
    if u.Put? {
      var b := Sized(u.value);
      SliceOf(data, p, |whole|, 1 + |a|, 1 + |a| + |b|);
      assert whole[1 + |a|..1 + |a| + |b|] == b;
    }
  }
}
