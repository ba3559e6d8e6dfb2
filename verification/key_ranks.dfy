/** The two ways in which this model writes an internal key: as bytes, in tables, blocks and filters, and
    with the rank of its user key, in versions and compactions. They agree on the order and on what a
    search finds (db/dbformat.cc, SaveValue of db/version_set.cc). */
module KeyRanks {
  import opened Bytes
  import opened Coding
  import opened Comparators
  import opened InternalKeys
  import opened DbFormat
  import Blocks
  import BlockFormat
  import S = TableSearch

  // ---------------------------------------------------------------- user keys

  /** The rank of a user key among those that occur. */
  ghost function Rank(users: set<seq<Byte>>, user: seq<Byte>): nat {
    |set u | u in users && Before(u, user)|
  }

  lemma Smaller(a: set<seq<Byte>>, b: set<seq<Byte>>, x: seq<Byte>)
    requires a <= b && x in b && x !in a
    ensures |a| < |b|
  {
    var rest := b - {x};
    assert |b| == |rest| + 1;
    NotLarger(a, rest);
  }

  lemma {:induction false} NotLarger(a: set<seq<Byte>>, b: set<seq<Byte>>)
    requires a <= b
    ensures |a| <= |b|
  {
    if a != {} {
      var x :| x in a;
      NotLarger(a - {x}, b - {x});
    }
  }

  lemma RankRises(users: set<seq<Byte>>, a: seq<Byte>, b: seq<Byte>)
    requires a in users && Before(a, b)
    ensures Rank(users, a) < Rank(users, b)
  {
    hide Before;
    var below, above := set u | u in users && Before(u, a), set u | u in users && Before(u, b);
    forall u | u in below ensures u in above {
      BeforeIsTransitive(u, a, b);
    }
    NotBeforeItself(a);
    Smaller(below, above, a);
  }

  /** Ranks are in the order of the user comparator, and different keys have different ranks. */
  lemma RankKeepsOrder(users: set<seq<Byte>>, a: seq<Byte>, b: seq<Byte>)
    requires a in users && b in users
    ensures Before(a, b) <==> Rank(users, a) < Rank(users, b)
    ensures a == b <==> Rank(users, a) == Rank(users, b)
  {
    hide Before, Rank;
    BeforeIsTotal(a, b);
    NotBeforeItself(a);
    if Before(a, b) {
      RankRises(users, a, b);
    } else if Before(b, a) {
      RankRises(users, b, a);
    }
  }

  // ---------------------------------------------------------------- internal keys

  /** A key with a type that the code knows, for a user key that occurs. */
  ghost predicate Known(users: set<seq<Byte>>, key: seq<Byte>) {
    |key| >= 8 && UserOf(key) in users && TagOf(key) % 256 <= 1
  }

  /** ParseInternalKey, with the rank of the user key in place of its bytes. */
  ghost function Ranked(users: set<seq<Byte>>, key: seq<Byte>): InternalKey
    requires |key| >= 8
  {
    InternalKey(Rank(users, UserOf(key)), TagOf(key) / 256, if TagOf(key) % 256 == 1 then Value else Deletion)
  }

  lemma RankedTag(users: set<seq<Byte>>, key: seq<Byte>)
    requires Known(users, key)
    ensures DbFormat.Tag(Ranked(users, key)) == TagOf(key)
  {
    hide DecodeFixed64;
  }

  /** Byte keys and ranked keys are in the same order. */
  lemma RankedKeepsOrder(users: set<seq<Byte>>, a: seq<Byte>, b: seq<Byte>)
    requires Known(users, a) && Known(users, b)
    ensures KeyLess(a, b) <==> Less(Ranked(users, a), Ranked(users, b))
  {
    RankedTag(users, a);
    RankedTag(users, b);
    hide Before, Rank, DecodeFixed64, DbFormat.Tag;
    RankKeepsOrder(users, UserOf(a), UserOf(b));
    NotBeforeItself(UserOf(a));
  }

  // ---------------------------------------------------------------- tables

  ghost predicate AllKnown(users: set<seq<Byte>>, kvs: seq<BlockFormat.KV>) {
    forall i :: 0 <= i < |kvs| ==> Known(users, kvs[i].key)
  }

  /** The table with ranked keys. How bytes of a value are written is a parameter. */
  ghost function RankedTable(users: set<seq<Byte>>, kvs: seq<BlockFormat.KV>, text: seq<Byte> -> string): (t: seq<Entry>)
    requires AllKnown(users, kvs)
    ensures |t| == |kvs|
    ensures forall i :: 0 <= i < |kvs| ==> t[i] == Entry(Ranked(users, kvs[i].key), text(kvs[i].value))
  {
    seq(|kvs|, i requires 0 <= i < |kvs| => Entry(Ranked(users, kvs[i].key), text(kvs[i].value)))
  }

  /** A table is sorted in one form exactly when it is in the other. */
  lemma RankedTableSorted(users: set<seq<Byte>>, kvs: seq<BlockFormat.KV>, text: seq<Byte> -> string)
    requires AllKnown(users, kvs)
    ensures Blocks.InOrder(kvs, KeyLess) <==> SortedTable(RankedTable(users, kvs, text))
  {
    hide KeyLess, Less, Ranked, Known, RankedTable;
    var t := RankedTable(users, kvs, text);
    forall i, j | 0 <= i < j < |kvs| ensures KeyLess(kvs[i].key, kvs[j].key) <==> Less(t[i].key, t[j].key) {
      RankedKeepsOrder(users, kvs[i].key, kvs[j].key);
    }
  }

  /** A search lands at the same place. */
  lemma {:induction false} RankedSeek(users: set<seq<Byte>>, kvs: seq<BlockFormat.KV>, text: seq<Byte> -> string, k: seq<Byte>)
    requires AllKnown(users, kvs) && Known(users, k)
    ensures Blocks.FirstFrom(kvs, k, KeyLess) == DbFormat.Seek(RankedTable(users, kvs, text), Ranked(users, k))
  {
    hide KeyLess, Less, Ranked, Known, RankedTable;
    if kvs != [] {
      var t := RankedTable(users, kvs, text);
      RankedKeepsOrder(users, kvs[0].key, k);
      RankedSeek(users, kvs[1..], text, k);
      assert t[1..] == RankedTable(users, kvs[1..], text);
    }
  }

  /** The key that a read looks for: the user key with the snapshot and the greatest type. */
  function LookupBytes(user: seq<Byte>, snapshot: nat): seq<Byte>
    requires snapshot <= MAX_SEQUENCE
  {
    InternalKeyOf(user, snapshot * 256 + 1)
  }

  lemma LookupIsRanked(users: set<seq<Byte>>, user: seq<Byte>, snapshot: nat)
    requires user in users && snapshot <= MAX_SEQUENCE
    ensures Known(users, LookupBytes(user, snapshot)) && UserOf(LookupBytes(user, snapshot)) == user
    ensures Ranked(users, LookupBytes(user, snapshot)) == LookupKey(Rank(users, user), snapshot)
  {
    hide Rank, InternalKeyOf, UserOf, TagOf, EncodeFixed64, DecodeFixed64;
    KeyParts(user, snapshot * 256 + 1);
    Fixed64RoundTrip(snapshot * 256 + 1);
  }

  /** SaveValue: what the entry that a table passed on says about the user key. */
  ghost function Saved(users: set<seq<Byte>>, user: seq<Byte>, r: Option<BlockFormat.KV>, text: seq<Byte> -> string): Saver
    requires r.Some? ==> |r.value.key| >= 8
  {
    if r.Some? && UserOf(r.value.key) == user then ToSaver(Entry(Ranked(users, r.value.key), text(r.value.value))) else NotHere
  }

  /** Whatever a table may answer to a search in its bytes, the outcome is that of the search in the
      ranked table, which versions and compactions speak of. */
  lemma AnswersAreSearches(users: set<seq<Byte>>, kvs: seq<BlockFormat.KV>, text: seq<Byte> -> string, user: seq<Byte>, snapshot: nat,
                           r: Option<BlockFormat.KV>)
    requires AllKnown(users, kvs) && user in users && snapshot <= MAX_SEQUENCE
    requires S.Answers(kvs, LookupBytes(user, snapshot), r)
    ensures r.Some? ==> |r.value.key| >= 8
    ensures Saved(users, user, r, text) == SearchTable(RankedTable(users, kvs, text), Rank(users, user), snapshot)
  {
    hide Rank, LookupBytes, KeyLess, Less, Ranked, RankedTable, UserOf, TagOf;
    var k := LookupBytes(user, snapshot);
    LookupIsRanked(users, user, snapshot);
    RankedSeek(users, kvs, text, k);
    var n := Blocks.FirstFrom(kvs, k, KeyLess);
    if n < |kvs| {
      assert Known(users, kvs[n].key);
      RankKeepsOrder(users, UserOf(kvs[n].key), user);
      RankedUser(users, kvs[n].key);
    }
  }

  lemma RankedUser(users: set<seq<Byte>>, key: seq<Byte>)
    requires |key| >= 8
    ensures Ranked(users, key).user == Rank(users, UserOf(key))
  {
  }
}
