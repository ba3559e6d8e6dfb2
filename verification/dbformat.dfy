/** Internal keys, tables and the meaning of a read (db/dbformat.h, db/dbformat.cc).

    A user key is named by its rank in the order of the user comparator, which is a
    parameter of the database: the code only ever compares user keys with it. */
module DbFormat {
  type UserKey = int

  const NUM_LEVELS := 7
  const MAX_SEQUENCE: nat := 0xFF_FFFF_FFFF_FFFF  // 56 bits

  datatype Option<+T> = None | Some(value: T)

  datatype ValueType = Deletion | Value

  datatype InternalKey = InternalKey(user: UserKey, sequence: nat, kind: ValueType)

  datatype Entry = Entry(key: InternalKey, value: string)

  /** What a search in one place says about a user key. */
  datatype Saver = NotHere | Deleted | Found(value: string)

  /** The sequence number and the type packed into one number. */
  function Tag(k: InternalKey): nat {
    k.sequence * 256 + if k.kind.Value? then 1 else 0
  }

  /** Increasing user key, then decreasing sequence number and type. */
  predicate Less(a: InternalKey, b: InternalKey) {
    a.user < b.user || (a.user == b.user && Tag(a) > Tag(b))
  }

  /** The key a search for `user` at `snapshot` looks for: it sorts before every visible entry
      of `user` and after every newer one. */
  function LookupKey(user: UserKey, snapshot: nat): InternalKey {
    InternalKey(user, snapshot, Value)
  }

  ghost predicate SortedTable(t: seq<Entry>) {
    forall i, j :: 0 <= i < j < |t| ==> Less(t[i].key, t[j].key)
  }

  ghost predicate Visible(e: Entry, user: UserKey, snapshot: nat) {
    e.key.user == user && e.key.sequence <= snapshot
  }

  /** Every entry of `a` is newer than every entry of `b` with the same user key. */
  ghost predicate Newer(a: seq<Entry>, b: seq<Entry>) {
    forall x, y :: x in a && y in b && x.key.user == y.key.user ==> x.key.sequence > y.key.sequence
  }

  // ---------------------------------------------------------------- reads

  ghost predicate Newest(es: set<Entry>, user: UserKey, snapshot: nat, e: Entry) {
    && e in es
    && Visible(e, user, snapshot)
    && forall d :: d in es && Visible(d, user, snapshot) ==> d.key.sequence <= e.key.sequence
  }

  /** No two entries of a user key share a sequence number. */
  ghost predicate UniqueSequences(es: set<Entry>) {
    forall d, e :: d in es && e in es && d.key.user == e.key.user && d.key.sequence == e.key.sequence ==> d == e
  }

  function ToSaver(e: Entry): Saver {
    if e.key.kind.Value? then Found(e.value) else Deleted
  }

  /** What a read of `user` at `snapshot` must answer, given all the entries there are. */
  ghost function Probe(es: set<Entry>, user: UserKey, snapshot: nat): Saver {
    if exists e :: Newest(es, user, snapshot, e) then
      var e :| Newest(es, user, snapshot, e);
      ToSaver(e)
    else
      NotHere
  }

  lemma ProbeIs(es: set<Entry>, user: UserKey, snapshot: nat, e: Entry)
    requires UniqueSequences(es)
    requires Newest(es, user, snapshot, e)
    ensures Probe(es, user, snapshot) == ToSaver(e)
  {
    forall d | Newest(es, user, snapshot, d) ensures d == e {
      assert d.key.sequence <= e.key.sequence && e.key.sequence <= d.key.sequence;
    }
  }

  lemma {:induction false} NewestExists(es: set<Entry>, user: UserKey, snapshot: nat, d: Entry)
    returns (e: Entry)
    requires d in es && Visible(d, user, snapshot)
    ensures Newest(es, user, snapshot, e)
    ensures d.key.sequence <= e.key.sequence
    decreases snapshot - d.key.sequence
  {
    if c :| c in es && Visible(c, user, snapshot) && c.key.sequence > d.key.sequence {
      e := NewestExists(es, user, snapshot, c);
    } else {
      e := d;
    }
  }

  lemma ProbeNotHere(es: set<Entry>, user: UserKey, snapshot: nat)
    ensures Probe(es, user, snapshot) == NotHere <==> forall d :: d in es ==> !Visible(d, user, snapshot)
  {
    if d :| d in es && Visible(d, user, snapshot) {
      var e := NewestExists(es, user, snapshot, d);
    }
  }

  // ---------------------------------------------------------------- searching a table

  /** Index of the first entry of `t` at or after `target`. */
  function Seek(t: seq<Entry>, target: InternalKey): (i: nat)
    ensures i <= |t|
    ensures forall j :: 0 <= j < i ==> Less(t[j].key, target)
    ensures i < |t| ==> !Less(t[i].key, target)
  {
    if t == [] || !Less(t[0].key, target) then 0 else 1 + Seek(t[1..], target)
  }

  lemma SeekIs(t: seq<Entry>, target: InternalKey, n: nat)
    requires n <= |t|
    requires forall j :: 0 <= j < n ==> Less(t[j].key, target)
    requires n < |t| ==> !Less(t[n].key, target)
    ensures Seek(t, target) == n
  {
  }

  lemma SeekSplits(t: seq<Entry>, target: InternalKey)
    requires SortedTable(t)
    ensures forall m :: 0 <= m < |t| ==> (Less(t[m].key, target) <==> m < Seek(t, target))
  {
    var n := Seek(t, target);
    forall m | n < m < |t| ensures !Less(t[m].key, target) {
      assert Less(t[n].key, t[m].key);
    }
  }

  /** A table (or memtable) search followed by the check of `SaveValue` that the entry found is
      for the user key asked for. */
  function SearchTable(t: seq<Entry>, user: UserKey, snapshot: nat): Saver {
    var i := Seek(t, LookupKey(user, snapshot));
    if i < |t| && t[i].key.user == user then ToSaver(t[i]) else NotHere
  }

  ghost function Elements(t: seq<Entry>): set<Entry> {
    set e | e in t
  }

  /** The search of one table finds the newest visible entry of the table, or finds that there
      is none. */
  lemma SearchTableFinds(t: seq<Entry>, user: UserKey, snapshot: nat)
    requires SortedTable(t)
    ensures SearchTable(t, user, snapshot) == NotHere ==> forall e :: e in t ==> !Visible(e, user, snapshot)
    ensures SearchTable(t, user, snapshot) != NotHere ==>
              exists e :: Newest(Elements(t), user, snapshot, e) && SearchTable(t, user, snapshot) == ToSaver(e)
  {
    var target := LookupKey(user, snapshot);
    var i := Seek(t, target);
    forall e | e in t && Visible(e, user, snapshot)
      ensures i < |t| && t[i].key.user == user && e.key.sequence <= t[i].key.sequence
    {
      var j :| 0 <= j < |t| && t[j] == e;
      assert !Less(e.key, target);
    }
    if SearchTable(t, user, snapshot) != NotHere {
      assert t[i] in t && Newest(Elements(t), user, snapshot, t[i]);
    }
  }
}
