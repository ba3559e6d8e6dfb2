/** Internal keys as bytes: a user key followed by eight bytes for sequence number and type, the order
    of such keys, and the short keys between them (db/dbformat.cc). The user comparator is bytewise. */
module InternalKeys {
  import opened Bytes
  import opened Coding
  import opened Comparators
  import opened Blocks

  const SEEK_TAG: nat := 0xFF_FFFF_FFFF_FFFF * 256 + 1  // kMaxSequenceNumber, kValueTypeForSeek

  lemma SameByte(a: Byte, b: Byte)
    requires FromByte(a) == FromByte(b)
    ensures a == b
  {
  }

  lemma SameFixed32(a: seq<Byte>, b: seq<Byte>)
    requires |a| == |b| == 4 && DecodeFixed32(a) == DecodeFixed32(b)
    ensures a == b
  {
    hide FromByte;
    SameDigits(FromByte(a[0]), FromByte(a[1]), FromByte(a[2]), FromByte(a[3]), FromByte(b[0]), FromByte(b[1]), FromByte(b[2]), FromByte(b[3]));
    forall i | 0 <= i < 4 ensures a[i] == b[i] {
      SameByte(a[i], b[i]);
    }
  }

  lemma SameDigits(a: nat, b: nat, c: nat, d: nat, e: nat, f: nat, g: nat, h: nat)
    requires a < 256 && b < 256 && c < 256 && d < 256 && e < 256 && f < 256 && g < 256 && h < 256
    requires Digits(a, b, c, d) == Digits(e, f, g, h)
    ensures a == e && b == f && c == g && d == h
  {
    LowDigit(a, b + (c + d * 256) * 256, e, f + (g + h * 256) * 256);
    LowDigit(b, c + d * 256, f, g + h * 256);
    LowDigit(c, d, g, h);
  }

  lemma LowDigit(a: nat, x: nat, b: nat, y: nat)
    requires a < 256 && b < 256 && a + x * 256 == b + y * 256
    ensures a == b && x == y
  {
  }

  lemma Halves64(a: seq<Byte>, b: seq<Byte>)
    requires |a| == |b| == 8 && DecodeFixed64(a) == DecodeFixed64(b)
    ensures DecodeFixed32(a) == DecodeFixed32(b) && DecodeFixed32(a[4..]) == DecodeFixed32(b[4..])
  {
    hide DecodeFixed32;
  }

  lemma SameHalves(a: seq<Byte>, b: seq<Byte>)
    requires |a| == |b| == 8
    requires DecodeFixed32(a) == DecodeFixed32(b) && DecodeFixed32(a[4..]) == DecodeFixed32(b[4..])
    ensures a == b
  {
    hide DecodeFixed32;
    First4(a);
    First4(b);
    SameFixed32(a[..4], b[..4]);
    SameFixed32(a[4..], b[4..]);
    assert a == a[..4] + a[4..] && b == b[..4] + b[4..];
  }

  lemma First4(a: seq<Byte>)
    requires |a| >= 4
    ensures DecodeFixed32(a[..4]) == DecodeFixed32(a)
  {
  }

  // ---------------------------------------------------------------- the parts of a key

  function InternalKeyOf(user: seq<Byte>, tag: nat): (r: seq<Byte>)
    requires tag < TWO_64
    ensures |r| == |user| + 8
  {
    user + EncodeFixed64(tag)
  }

  function UserOf(key: seq<Byte>): seq<Byte>
    requires |key| >= 8
  {
    key[..|key| - 8]
  }

  function TagOf(key: seq<Byte>): nat
    requires |key| >= 8
  {
    DecodeFixed64(key[|key| - 8..])
  }

  lemma KeyParts(user: seq<Byte>, tag: nat)
    requires tag < TWO_64
    ensures UserOf(InternalKeyOf(user, tag)) == user
    ensures TagOf(InternalKeyOf(user, tag)) == DecodeFixed64(EncodeFixed64(tag))
  {
    hide EncodeFixed64, DecodeFixed64;
    assert InternalKeyOf(user, tag)[|user|..] == EncodeFixed64(tag);
  }

  // ---------------------------------------------------------------- the order

  /** Increasing user key, then decreasing tag. Strings that are too short to be internal keys come
      first here; the code never compares them. */
  predicate KeyLess(a: seq<Byte>, b: seq<Byte>) {
    if |a| < 8 || |b| < 8 then |a| < 8 && (|b| >= 8 || Before(a, b))
    else Before(UserOf(a), UserOf(b)) || (UserOf(a) == UserOf(b) && TagOf(a) > TagOf(b))
  }

  lemma KeyLessIsTotal(a: seq<Byte>, b: seq<Byte>)
    ensures KeyLess(a, b) || KeyLess(b, a) || a == b
  {
    hide DecodeFixed64, DecodeFixed32, Before;
    if |a| >= 8 && |b| >= 8 {
      BeforeIsTotal(UserOf(a), UserOf(b));
      if UserOf(a) == UserOf(b) && TagOf(a) == TagOf(b) {
        Halves64(a[|a| - 8..], b[|b| - 8..]);
        SameHalves(a[|a| - 8..], b[|b| - 8..]);
        assert a == UserOf(a) + a[|a| - 8..] && b == UserOf(b) + b[|b| - 8..];
      }
    } else {
      BeforeIsTotal(a, b);
    }
  }

  lemma KeyLessIsTransitive(a: seq<Byte>, b: seq<Byte>, c: seq<Byte>)
    requires KeyLess(a, b) && KeyLess(b, c)
    ensures KeyLess(a, c)
  {
    hide DecodeFixed64, Before;
    if |a| >= 8 {
      if Before(UserOf(a), UserOf(b)) && Before(UserOf(b), UserOf(c)) {
        BeforeIsTransitive(UserOf(a), UserOf(b), UserOf(c));
      }
    } else if |c| < 8 {
      BeforeIsTransitive(a, b, c);
    }
  }

  lemma KeyLessIsOrder()
    ensures IsOrder(KeyLess)
  {
    hide Before;
    forall a ensures !KeyLess(a, a) {
      NotBeforeItself(a);
      if |a| >= 8 {
        NotBeforeItself(UserOf(a));
      }
    }
    hide KeyLess;
    forall a, b, c | KeyLess(a, b) && KeyLess(b, c) ensures KeyLess(a, c) {
      KeyLessIsTransitive(a, b, c);
    }
    forall a, b ensures KeyLess(a, b) || KeyLess(b, a) || a == b {
      KeyLessIsTotal(a, b);
    }
  }

  // ---------------------------------------------------------------- short keys in between

  /** `start` itself, or a shorter key whose user key lies strictly between the two. */
  ghost predicate KeySeparates(r: seq<Byte>, start: seq<Byte>, limit: seq<Byte>)
    requires |start| >= 8 && |limit| >= 8
  {
    r == start || (8 <= |r| < |start| && Before(UserOf(start), UserOf(r)) && Before(UserOf(r), UserOf(limit)))
  }

  method FindShortestKey(start: seq<Byte>, limit: seq<Byte>) returns (r: seq<Byte>)
    requires |start| >= 8 && |limit| >= 8
    ensures KeySeparates(r, start, limit)
  {
    hide Before, EncodeFixed64;
    var userStart, userLimit := UserOf(start), UserOf(limit);
    var tmp := FindShortestSeparator(userStart, userLimit);
    r := start;
    if |tmp| < |userStart| && Before(userStart, tmp) {
      KeyParts(tmp, SEEK_TAG);
      r := InternalKeyOf(tmp, SEEK_TAG);
    }
  }

  /** `key` itself, or a shorter key whose user key lies behind it. */
  ghost predicate KeySucceeds(r: seq<Byte>, key: seq<Byte>)
    requires |key| >= 8
  {
    r == key || (8 <= |r| < |key| && Before(UserOf(key), UserOf(r)))
  }

  method FindShortKey(key: seq<Byte>) returns (r: seq<Byte>)
    requires |key| >= 8
    ensures KeySucceeds(r, key)
  {
    hide Before, EncodeFixed64;
    var userKey := UserOf(key);
    var tmp := FindShortSuccessor(userKey);
    r := key;
    if |tmp| < |userKey| && Before(userKey, tmp) {
      KeyParts(tmp, SEEK_TAG);
      r := InternalKeyOf(tmp, SEEK_TAG);
    }
  }

  /** A separator lies at or behind the last key before it, and before the next one. */
  lemma SeparatorIsBetween(r: seq<Byte>, start: seq<Byte>, limit: seq<Byte>)
    requires |start| >= 8 && |limit| >= 8 && KeySeparates(r, start, limit) && KeyLess(start, limit)
    ensures !KeyLess(r, start) && KeyLess(r, limit)
  {
    hide Before, DecodeFixed64;
    NotBeforeItself(UserOf(start));
    if r != start && Before(UserOf(r), UserOf(start)) {
      BeforeIsTransitive(UserOf(start), UserOf(r), UserOf(start));
    }
  }

  lemma SuccessorIsBehind(r: seq<Byte>, key: seq<Byte>)
    requires |key| >= 8 && KeySucceeds(r, key)
    ensures !KeyLess(r, key)
  {
    hide Before, DecodeFixed64;
    NotBeforeItself(UserOf(key));
    if r != key && Before(UserOf(r), UserOf(key)) {
      BeforeIsTransitive(UserOf(key), UserOf(r), UserOf(key));
    }
  }
}
