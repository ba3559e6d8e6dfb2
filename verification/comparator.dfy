/** The bytewise comparator, and the short keys it finds between others (util/comparator.cc). */
module Comparators {
  import opened Bytes

  /** `a` comes before `b`: byte by byte, and a prefix before what it is a prefix of. */
  predicate Before(a: seq<Byte>, b: seq<Byte>) {
    if b == [] then false
    else if a == [] then true
    else if a[0] == b[0] then Before(a[1..], b[1..])
    else a[0] < b[0]
  }

  lemma {:induction false} NotBeforeItself(a: seq<Byte>)
    ensures !Before(a, a)
  {
    if a != [] {
      NotBeforeItself(a[1..]);
    }
  }

  lemma {:induction false} BeforeIsTransitive(a: seq<Byte>, b: seq<Byte>, c: seq<Byte>)
    requires Before(a, b) && Before(b, c)
    ensures Before(a, c)
  {
    if a != [] && a[0] == b[0] == c[0] {
      BeforeIsTransitive(a[1..], b[1..], c[1..]);
    }
  }

  lemma {:induction false} BeforeIsTotal(a: seq<Byte>, b: seq<Byte>)
    ensures Before(a, b) || Before(b, a) || a == b
  {
    if a != [] && b != [] && a[0] == b[0] {
      BeforeIsTotal(a[1..], b[1..]);
      assert a == [a[0]] + a[1..] && b == [b[0]] + b[1..];
    }
  }

  lemma {:induction false} CommonPrefix(a: seq<Byte>, b: seq<Byte>, n: nat)
    requires n <= |a| && n <= |b| && a[..n] == b[..n]
    ensures Before(a, b) == Before(a[n..], b[n..])
  {
    if n > 0 {
      assert a[0] == a[..n][0] == b[..n][0] == b[0];
      assert a[1..][..n - 1] == a[..n][1..] && b[1..][..n - 1] == b[..n][1..];
      CommonPrefix(a[1..], b[1..], n - 1);
      assert a[1..][n - 1..] == a[n..] && b[1..][n - 1..] == b[n..];
    } else {
      assert a[0..] == a && b[0..] == b;
    }
  }

  /** Cutting a string behind a byte that was raised makes it greater. */
  lemma RaisedIsBehind(s: seq<Byte>, i: nat, b: Byte)
    requires i < |s| && s[i] < b
    ensures Before(s, s[..i] + [b])
  {
    var r := s[..i] + [b];
    assert r[..i] == s[..i] && r[i..] == [b];
    CommonPrefix(s, r, i);
  }

  /** What is before a string at the first difference is before it altogether. */
  lemma LowerIsBefore(s: seq<Byte>, i: nat, b: Byte, limit: seq<Byte>)
    requires i <= |s| && i < |limit| && s[..i] == limit[..i] && b < limit[i]
    ensures Before(s[..i] + [b], limit)
  {
    var r := s[..i] + [b];
    assert r[..i] == limit[..i] && r[i..] == [b];
    CommonPrefix(r, limit, i);
  }

  /** Either `start` itself, or a string strictly between `start` and `limit` that is no longer. */
  ghost predicate Separates(r: seq<Byte>, start: seq<Byte>, limit: seq<Byte>) {
    r == start || (|r| <= |start| && Before(start, r) && Before(r, limit))
  }

  method FindShortestSeparator(start: seq<Byte>, limit: seq<Byte>) returns (r: seq<Byte>)
    ensures Separates(r, start, limit)
    ensures r != start ==> |r| <= |limit| && r[..|r| - 1] == start[..|r| - 1] == limit[..|r| - 1]
  {
    var minLength := if |start| < |limit| then |start| else |limit|;
    var diffIndex := 0;
    while diffIndex < minLength && start[diffIndex] == limit[diffIndex]
      invariant 0 <= diffIndex <= minLength && start[..diffIndex] == limit[..diffIndex]
    {
      diffIndex := diffIndex + 1;
    }
    r := start;
    if diffIndex < minLength {
      var diffByte := start[diffIndex];
      if diffByte < 0xff && diffByte + 1 < limit[diffIndex] {
        r := start[..diffIndex] + [diffByte + 1];
        RaisedIsBehind(start, diffIndex, diffByte + 1);
        LowerIsBefore(start, diffIndex, diffByte + 1, limit);
      }
    }
  }

  /** A string at or behind `key` that is no longer. Only a run of 0xff bytes has none but itself. */
  method FindShortSuccessor(key: seq<Byte>) returns (r: seq<Byte>)
    ensures r == key || (|r| <= |key| && Before(key, r))
    ensures r == key <==> forall i :: 0 <= i < |key| ==> key[i] == 0xff
  {
    var i := 0;
    while i < |key|
      invariant 0 <= i <= |key| && forall j :: 0 <= j < i ==> key[j] == 0xff
    {
      if key[i] != 0xff {
        r := key[..i] + [key[i] + 1];
        RaisedIsBehind(key, i, key[i] + 1);
        assert r[i] != key[i];
        return;
      }
      i := i + 1;
    }
    return key;
  }
}
