/** The user's view of an iterator: one row per live user key (class DBIter of db/db_iter.cc). */
module DbIterators {
  import opened DbFormat
  import opened Cursors
  import opened MergingIterators

  // ---------------------------------------------------------------- the rows there are

  predicate Seen(t: seq<Entry>, i: nat, sequence: nat)
    requires i < |t|
  {
    t[i].key.sequence <= sequence
  }

  /** Entry `i` makes a row: it is a value and the newest entry of its key that is seen. */
  ghost predicate Yields(t: seq<Entry>, i: nat, sequence: nat)
    requires i < |t|
  {
    && Seen(t, i, sequence)
    && t[i].key.kind.Value?
    && forall j :: 0 <= j < i && t[j].key.user == t[i].key.user ==> !Seen(t, j, sequence)
  }

  ghost predicate NoRows(t: seq<Entry>, lo: nat, hi: nat, sequence: nat)
    requires hi <= |t|
  {
    forall i :: lo <= i < hi ==> !Yields(t, i, sequence)
  }

  /** `r` is the first row at or after index `i`, or the end. */
  ghost predicate FirstRow(t: seq<Entry>, i: nat, sequence: nat, r: nat) {
    && i <= r <= |t|
    && NoRows(t, i, r, sequence)
    && (r < |t| ==> Yields(t, r, sequence))
  }

  /** `r` is the last row before index `i`, or the end when there is none. */
  ghost predicate LastRow(t: seq<Entry>, i: nat, sequence: nat, r: nat)
    requires i <= |t|
  {
    if r == |t| then NoRows(t, 0, i, sequence)
    else r < i && Yields(t, r, sequence) && NoRows(t, r + 1, i, sequence)
  }

  /** The rows that the first `n` entries make, in key order: the live keys with their values. */
  ghost function Rows(t: seq<Entry>, n: nat, sequence: nat): seq<(UserKey, string)>
    requires n <= |t|
  {
    if n == 0 then [] else
      Rows(t, n - 1, sequence) + if Yields(t, n - 1, sequence) then [(t[n - 1].key.user, t[n - 1].value)] else []
  }

  ghost predicate StrictlyIncreasing(rows: seq<(UserKey, string)>) {
    forall i, j :: 0 <= i < j < |rows| ==> rows[i].0 < rows[j].0
  }

  lemma {:induction false} RowMembers(t: seq<Entry>, n: nat, sequence: nat)
    requires n <= |t|
    ensures forall r :: r in Rows(t, n, sequence)
              <==> exists i :: 0 <= i < n && Yields(t, i, sequence) && r == (t[i].key.user, t[i].value)
  {
    if n > 0 {
      RowMembers(t, n - 1, sequence);
    }
  }

  lemma {:induction false} RowsIncrease(t: seq<Entry>, n: nat, sequence: nat)
    requires SortedTable(t) && n <= |t|
    ensures StrictlyIncreasing(Rows(t, n, sequence))
  {
    if n > 0 {
      RowsIncrease(t, n - 1, sequence);
      RowMembers(t, n - 1, sequence);
      if Yields(t, n - 1, sequence) {
        forall r | r in Rows(t, n - 1, sequence) ensures r.0 < t[n - 1].key.user {
          var i :| 0 <= i < n - 1 && Yields(t, i, sequence) && r == (t[i].key.user, t[i].value);
          assert Less(t[i].key, t[n - 1].key);
        }
      }
    }
  }

  /** A row exists for exactly the keys whose newest seen entry is a value, and shows that value:
      the rows are the sorted map that a read at `sequence` sees. */
  lemma RowsAreTheLiveKeys(t: seq<Entry>, sequence: nat, user: UserKey, value: string)
    requires SortedTable(t) && UniqueSequences(Elements(t))
    ensures StrictlyIncreasing(Rows(t, |t|, sequence))
    ensures (user, value) in Rows(t, |t|, sequence) <==> Probe(Elements(t), user, sequence) == Found(value)
  {
    RowsIncrease(t, |t|, sequence);
    RowMembers(t, |t|, sequence);
    if (user, value) in Rows(t, |t|, sequence) {
      var i :| 0 <= i < |t| && Yields(t, i, sequence) && (user, value) == (t[i].key.user, t[i].value);
      RowIsNewest(t, sequence, i);
      ProbeIs(Elements(t), user, sequence, t[i]);
    }
    if Probe(Elements(t), user, sequence) == Found(value) {
      var e :| Newest(Elements(t), user, sequence, e) && ToSaver(e) == Found(value);
      var i :| 0 <= i < |t| && t[i] == e;
      NewestIsRow(t, sequence, i);
    }
  }

  lemma RowIsNewest(t: seq<Entry>, sequence: nat, i: nat)
    requires SortedTable(t) && i < |t| && Yields(t, i, sequence)
    ensures Newest(Elements(t), t[i].key.user, sequence, t[i])
  {
    forall d | d in t && Visible(d, t[i].key.user, sequence) ensures d.key.sequence <= t[i].key.sequence {
      var j :| 0 <= j < |t| && t[j] == d;
      assert j > i ==> Less(t[i].key, t[j].key);
    }
  }

  lemma NewestIsRow(t: seq<Entry>, sequence: nat, i: nat)
    requires SortedTable(t) && UniqueSequences(Elements(t))
    requires i < |t| && t[i].key.kind.Value? && Newest(Elements(t), t[i].key.user, sequence, t[i])
    ensures Yields(t, i, sequence)
  {
    forall j | 0 <= j < i && t[j].key.user == t[i].key.user ensures !Seen(t, j, sequence) {
      assert Less(t[j].key, t[i].key);
      assert t[j] in Elements(t) && t[i] in Elements(t);
    }
  }

  lemma {:induction false} NoRowsBetween(t: seq<Entry>, lo: nat, hi: nat, sequence: nat)
    requires lo <= hi <= |t| && NoRows(t, lo, hi, sequence)
    ensures Rows(t, hi, sequence) == Rows(t, lo, sequence)
  {
    if lo < hi {
      NoRowsBetween(t, lo, hi - 1, sequence);
    }
  }

  lemma {:induction false} RowsPrefix(t: seq<Entry>, lo: nat, hi: nat, sequence: nat)
    requires lo <= hi <= |t|
    ensures Rows(t, lo, sequence) <= Rows(t, hi, sequence)
  {
    if lo < hi {
      RowsPrefix(t, lo, hi - 1, sequence);
    }
  }

  /** A row counts the rows before it: its place in the table of rows. */
  lemma RowPlace(t: seq<Entry>, at: nat, sequence: nat)
    requires at < |t| && Yields(t, at, sequence)
    ensures |Rows(t, at, sequence)| < |Rows(t, |t|, sequence)|
    ensures Rows(t, |t|, sequence)[|Rows(t, at, sequence)|] == (t[at].key.user, t[at].value)
    ensures |Rows(t, at + 1, sequence)| == |Rows(t, at, sequence)| + 1
  {
    RowsPrefix(t, at + 1, |t|, sequence);
  }

  lemma FirstRowPlace(t: seq<Entry>, from: nat, sequence: nat, r: nat)
    requires FirstRow(t, from, sequence, r)
    ensures Rows(t, r, sequence) == Rows(t, from, sequence)
  {
    NoRowsBetween(t, from, r, sequence);
  }

  lemma LastRowPlace(t: seq<Entry>, bound: nat, sequence: nat, r: nat)
    requires bound <= |t| && LastRow(t, bound, sequence, r)
    ensures if |Rows(t, bound, sequence)| == 0 then r == |t| else r < |t| && |Rows(t, r, sequence)| == |Rows(t, bound, sequence)| - 1
  {
    if r == |t| {
      NoRowsBetween(t, 0, bound, sequence);
    } else {
      NoRowsBetween(t, r + 1, bound, sequence);
      RowPlace(t, r, sequence);
    }
  }

  class DBIter {
    const iter: MergingIterator
    const sequence: nat
    var savedKey: UserKey
    var savedValue: string
    var direction: Direction
    var valid: bool
    ghost var at: nat  // index of the entry that makes the current row

    ghost predicate Ok()
      reads this, iter, iter.children
    {
      && iter.Ok()
      && at <= |iter.merged|
      && (valid <==> at < |iter.merged|)
      && (valid ==> Yields(iter.merged, at, sequence))
      && (valid && direction.Forward? ==> iter.at == at)
      && (valid && direction.Reverse? ==>
            savedKey == iter.merged[at].key.user && savedValue == iter.merged[at].value && BehindRow(iter.merged, iter.at, at, sequence))
    }

    /** The rows this iterator runs over, and its place among them; the end is "not valid". */
    ghost function Table(): seq<(UserKey, string)> {
      Rows(iter.merged, |iter.merged|, sequence)
    }

    ghost function Place(): nat
      reads this
      requires at <= |iter.merged|
    {
      |Rows(iter.merged, at, sequence)|
    }

    /** What key() and value() show is the row at the current place. */
    lemma ShowsRow()
      requires Ok()
      ensures valid <==> Place() < |Table()|
      ensures valid ==> Table()[Place()] == (Key(), Value())
      ensures !valid ==> Place() == |Table()|
    {
      if valid {
        RowPlace(iter.merged, at, sequence);
      }
    }

    constructor (iter: MergingIterator, sequence: nat)
      requires iter.Ok()
      ensures Ok() && !valid && this.iter == iter && this.sequence == sequence
    {
      this.iter := iter;
      this.sequence := sequence;
      savedKey, savedValue := 0, "";
      direction := Forward;
      valid := false;
      at := |iter.merged|;
    }

    function Key(): UserKey
      requires valid && (direction.Forward? ==> iter.Ok() && iter.Valid())
      reads this, iter, iter.children
    {
      if direction.Forward? then iter.Key().user else savedKey
    }

    function Value(): string
      requires valid && (direction.Forward? ==> iter.Ok() && iter.Valid())
      reads this, iter, iter.children
    {
      if direction.Forward? then iter.Value() else savedValue
    }

    /** Moves forward from the inner position to the first row at or behind index `from`. */
    method FindNextUserEntry(skipping0: bool, skip0: UserKey, ghost from: nat)
      requires iter.Ok() && iter.Valid() && direction.Forward?
      requires SkipKnows(iter.merged, iter.at, from, sequence, skipping0, skip0)
      modifies this, iter, iter.children
      ensures Ok() && direction.Forward?
      ensures FirstRow(iter.merged, from, sequence, at)
    {
      hide MergingIterator.Ok, MergingIterator.Valid, MergingIterator.Key, MergingIterator.Value;
      var skipping, skip := skipping0, skip0;
      ghost var t := iter.merged;
      while true
        invariant iter.Ok() && iter.Valid() && direction.Forward?
        invariant SkipKnows(t, iter.at, from, sequence, skipping, skip)
        decreases |t| - iter.at
      {
        var ikey := iter.Key();
        ghost var i, wasSkipping, oldSkip := iter.at, skipping, skip;
        if ikey.sequence <= sequence {
          match ikey.kind {
            case Deletion =>
              // The deletion hides all upcoming entries of this key.
              skip := ikey.user;
              skipping := true;
            case Value =>
              if skipping && ikey.user <= skip {
                // Entry hidden
              } else {
                AcceptedIsRow(t, i, from, sequence, skipping, skip);
                valid := true;
                at := i;
                savedKey := 0;
                return;
              }
          }
        }
        SkipAdvances(t, i, from, sequence, wasSkipping, oldSkip, skipping, skip);
        iter.Next();
        if !iter.Valid() {
          break;
        }
      }
      savedKey := 0;
      valid := false;
      at := |t|;
      NoneSkipped(t, from, sequence, skipping, skip);
    }

    /** Moves backward from the inner position to the last row before index `bound`. */
    method FindPrevUserEntry(ghost bound: nat)
      requires iter.Ok() && direction.Reverse? && bound <= |iter.merged|
      requires NothingSeenFrom(iter.merged, iter.at, bound, sequence)
      modifies this, iter, iter.children
      ensures Ok()
      ensures LastRow(iter.merged, bound, sequence, at)
    {
      hide MergingIterator.Ok, MergingIterator.Valid, MergingIterator.Key, MergingIterator.Value;
      var valueType := ValueType.Deletion;
      ghost var t := iter.merged;
      ghost var m := bound;  // the latest entry seen
      while iter.Valid()
        invariant iter.Ok() && direction.Reverse?
        invariant ScannedTo(t, iter.at, bound, m, sequence)
        invariant valueType == if m == bound then Deletion else t[m].key.kind
        invariant valueType.Value? ==> savedKey == t[m].key.user && savedValue == t[m].value
        decreases if iter.Valid() then iter.at + 1 else 0
      {
        var ikey := iter.Key();
        ghost var j := iter.at;
        if ikey.sequence <= sequence {
          if valueType != Deletion && ikey.user < savedKey {
            break;  // a value of a previous key
          }
          SeenBehind(t, j, bound, m, sequence);
          m := j;
          valueType := ikey.kind;
          if valueType == Deletion {
            savedKey := 0;
            savedValue := "";
          } else {
            savedKey := iter.Key().user;
            savedValue := iter.Value();
          }
        }
        ghost var behind := j;
        iter.Prev();
      }
      if valueType == Deletion {
        valid := false;
        savedKey := 0;
        savedValue := "";
        direction := Forward;
        at := |t|;
      } else {
        valid := true;
        at := m;
      }
      ScanEnds(t, iter.at, bound, m, sequence);
    }

    method Next()
      requires Ok() && valid && Place() < |Table()|
      modifies this, iter, iter.children
      ensures Ok()
      ensures Place() == After(old(Place()), |Table()|)
    {
      hide MergingIterator.Ok, MergingIterator.Valid, MergingIterator.Key, MergingIterator.Value, Rows, Seen, Yields, SkipKnows, FirstRow,
           BehindRow, NoneSeen, SortedTable;
      RowPlace(iter.merged, at, sequence);
      ghost var t := iter.merged;
      NoneSeenHere(t, at, sequence);
      if direction.Reverse? {
        AheadOfRow(t, iter.at, at, sequence);
        direction := Forward;
        if !iter.Valid() {
          iter.SeekToFirst();
        } else {
          iter.Next();
        }
        if !iter.Valid() {
          assert false;  // the entries of the current key lie ahead
        }
      } else {
        savedKey := iter.Key().user;
      }
      SkipCurrent(t, iter.at, at, sequence, savedKey);
      ghost var from := at + 1;
      FindNextUserEntry(true, savedKey, from);
      FirstRowPlace(t, from, sequence, at);
    }

    method Prev()
      requires Ok() && valid && Place() < |Table()|
      modifies this, iter, iter.children
      ensures Ok()
      ensures Place() == Before(old(Place()), |Table()|)
    {
      hide MergingIterator.Ok, MergingIterator.Valid, MergingIterator.Key, MergingIterator.Value;
      ghost var t, row := iter.merged, at;
      if direction.Forward? {
        savedKey := iter.Key().user;
        while true
          invariant iter.Ok() && iter.Valid() && iter.at <= row
          invariant at == row && valid
          invariant forall j :: iter.at <= j <= row ==> t[j].key.user == savedKey
          decreases iter.at
        {
          iter.Prev();
          if !iter.Valid() {
            valid := false;
            savedKey := 0;
            savedValue := "";
            at := |t|;
            SameKeyUnseen(t, 0, row, sequence);
            LastRowPlace(t, row, sequence, at);
            return;
          }
          if iter.Key().user < savedKey {
            SameKeyUnseen(t, iter.at + 1, row, sequence);
            break;
          }
          assert Less(t[iter.at].key, t[row].key);
        }
        direction := Reverse;
      }
      FindPrevUserEntry(row);
      LastRowPlace(t, row, sequence, at);
    }

    method Seek(target: UserKey)
      requires Ok()
      modifies this, iter, iter.children
      ensures Ok() && Place() <= |Table()|
      ensures forall i :: 0 <= i < Place() ==> Table()[i].0 < target
      ensures forall i :: Place() <= i < |Table()| ==> Table()[i].0 >= target
    {
      hide MergingIterator.Ok, MergingIterator.Valid, MergingIterator.Key, MergingIterator.Value;
      ghost var from := KeyStart(iter.merged, target);
      direction := Forward;
      savedValue := "";
      iter.Seek(LookupKey(target, sequence));
      SeekSkips(iter.merged, iter.at, from, target, sequence);
      if iter.Valid() {
        FindNextUserEntry(false, 0, from);
      } else {
        valid := false;
        at := |iter.merged|;
      }
      FirstRowPlace(iter.merged, from, sequence, at);
      RowsSplit(iter.merged, target, from, sequence);
    }

    method SeekToFirst()
      requires Ok()
      modifies this, iter, iter.children
      ensures Ok()
      ensures Place() == 0
    {
      hide MergingIterator.Ok, MergingIterator.Valid, MergingIterator.Key, MergingIterator.Value;
      direction := Forward;
      savedValue := "";
      iter.SeekToFirst();
      if iter.Valid() {
        FindNextUserEntry(false, 0, 0);
      } else {
        valid := false;
        at := 0;
      }
      FirstRowPlace(iter.merged, 0, sequence, at);
    }

    method SeekToLast()
      requires Ok()
      modifies this, iter, iter.children
      ensures Ok()
      ensures Place() == Last(|Table()|)
    {
      hide MergingIterator.Ok, MergingIterator.Valid, MergingIterator.Key, MergingIterator.Value;
      direction := Reverse;
      savedValue := "";
      iter.SeekToLast();
      FindPrevUserEntry(|iter.merged|);
      LastRowPlace(iter.merged, |iter.merged|, sequence, at);
    }
  }

  // ---------------------------------------------------------------- going forward

  /** What the skip key stands for when the inner iterator is at `pos` and rows are wanted from
      index `from` on. */
  ghost predicate SkipKnows(t: seq<Entry>, pos: nat, from: nat, sequence: nat, skipping: bool, skip: UserKey) {
    && pos <= |t| && from <= |t|
    // a key that has been seen before `pos` is to be skipped
    && (forall j, k ::
          0 <= j < pos <= k < |t| && t[j].key.user == t[k].key.user && Seen(t, j, sequence) ==> skipping && t[j].key.user <= skip)
    // what is skipped makes no row
    && (skipping ==> forall k :: pos <= k < |t| && from <= k && t[k].key.user <= skip ==> !Yields(t, k, sequence))
    && (forall k :: pos <= k < from && Seen(t, k, sequence) ==> t[k].key.kind.Value? && skipping && t[k].key.user <= skip)
    && (forall k :: from <= k < pos ==> !Yields(t, k, sequence))
  }

  lemma AcceptedIsRow(t: seq<Entry>, i: nat, from: nat, sequence: nat, skipping: bool, skip: UserKey)
    requires SkipKnows(t, i, from, sequence, skipping, skip) && i < |t|
    requires Seen(t, i, sequence) && t[i].key.kind.Value? && !(skipping && t[i].key.user <= skip)
    ensures FirstRow(t, from, sequence, i)
  {
  }

  lemma SkipAdvances(t: seq<Entry>, i: nat, from: nat, sequence: nat, wasSkipping: bool, oldSkip: UserKey, skipping: bool, skip: UserKey)
    requires SortedTable(t) && i < |t|
    requires SkipKnows(t, i, from, sequence, wasSkipping, oldSkip)
    requires if Seen(t, i, sequence) && t[i].key.kind.Deletion? then skipping && skip == t[i].key.user
             else skipping == wasSkipping && skip == oldSkip
    requires Seen(t, i, sequence) && t[i].key.kind.Value? ==> skipping && t[i].key.user <= skip
    ensures SkipKnows(t, i + 1, from, sequence, skipping, skip)
  {
    assert forall k :: i < k < |t| ==> Less(t[i].key, t[k].key);
    assert forall j :: 0 <= j < i ==> Less(t[j].key, t[i].key);
  }

  lemma NoneSkipped(t: seq<Entry>, from: nat, sequence: nat, skipping: bool, skip: UserKey)
    requires SkipKnows(t, |t|, from, sequence, skipping, skip)
    ensures FirstRow(t, from, sequence, |t|)
  {
  }

  ghost predicate NoneSeen(t: seq<Entry>, pos: nat, at: nat, sequence: nat) {
    pos <= at <= |t| && forall j :: pos <= j < at ==> !Seen(t, j, sequence)
  }

  lemma NoneSeenHere(t: seq<Entry>, at: nat, sequence: nat)
    requires at <= |t|
    ensures NoneSeen(t, at, at, sequence)
  {
  }

  /** The entries of the row lie ahead of the inner iterator. */
  lemma AheadOfRow(t: seq<Entry>, pos: nat, at: nat, sequence: nat)
    requires pos <= |t| && at < |t| && BehindRow(t, pos, at, sequence)
    ensures NoneSeen(t, if pos == |t| then 0 else pos + 1, at, sequence) && (pos < |t| ==> pos < at)
  {
  }

  lemma SkipCurrent(t: seq<Entry>, pos: nat, at: nat, sequence: nat, key: UserKey)
    requires SortedTable(t) && at < |t| && Yields(t, at, sequence) && key == t[at].key.user
    requires NoneSeen(t, pos, at, sequence)
    ensures SkipKnows(t, pos, at + 1, sequence, true, key)
  {
    forall j, k | 0 <= j < pos <= k < |t| && t[j].key.user == t[k].key.user && Seen(t, j, sequence) ensures t[j].key.user <= key {
      assert Less(t[j].key, t[at].key) || j == at;
    }
    forall k | at < k < |t| && t[k].key.user <= key ensures !Yields(t, k, sequence) {
      assert Less(t[at].key, t[k].key);
    }
  }

  /** `from` is the first index whose key is at or after `user`. */
  ghost predicate KeyStartsAt(t: seq<Entry>, user: UserKey, from: nat) {
    && from <= |t|
    && (forall j :: 0 <= j < from ==> t[j].key.user < user)
    && (from < |t| ==> t[from].key.user >= user)
  }

  ghost function KeyStart(t: seq<Entry>, user: UserKey): (i: nat)
    requires SortedTable(t)
    ensures KeyStartsAt(t, user, i)
  {
    if t == [] || t[0].key.user >= user then 0 else 1 + KeyStart(t[1..], user)
  }

  /** The rows made before the start of a key have smaller keys, the others do not. */
  lemma RowsSplit(t: seq<Entry>, user: UserKey, from: nat, sequence: nat)
    requires SortedTable(t) && KeyStartsAt(t, user, from)
    ensures Rows(t, from, sequence) <= Rows(t, |t|, sequence)
    ensures forall r :: r in Rows(t, from, sequence) ==> r.0 < user
    ensures forall i :: |Rows(t, from, sequence)| <= i < |Rows(t, |t|, sequence)| ==> Rows(t, |t|, sequence)[i].0 >= user
  {
    RowsPrefix(t, from, |t|, sequence);
    RowMembers(t, from, sequence);
    RowsBehind(t, user, from, |t|, sequence);
  }

  lemma {:induction false} RowsBehind(t: seq<Entry>, user: UserKey, from: nat, n: nat, sequence: nat)
    requires SortedTable(t) && KeyStartsAt(t, user, from) && from <= n <= |t|
    ensures forall i :: |Rows(t, from, sequence)| <= i < |Rows(t, n, sequence)| ==> Rows(t, n, sequence)[i].0 >= user
  {
    if from < n {
      RowsBehind(t, user, from, n - 1, sequence);
      RowsPrefix(t, from, n - 1, sequence);
      assert from < n - 1 ==> Less(t[from].key, t[n - 1].key);
    }
  }

  lemma SeekSkips(t: seq<Entry>, pos: nat, from: nat, target: UserKey, sequence: nat)
    requires SortedTable(t) && KeyStartsAt(t, target, from)
    requires pos == DbFormat.Seek(t, LookupKey(target, sequence))
    ensures SkipKnows(t, pos, from, sequence, false, 0)
    ensures pos == |t| ==> FirstRow(t, from, sequence, |t|)
  {
    forall j | 0 <= j < pos && t[j].key.user >= target ensures !Seen(t, j, sequence) {
      assert Less(t[j].key, LookupKey(target, sequence));
    }
    forall k | pos <= k < |t| ensures t[k].key.user >= target {
      assert k > pos ==> Less(t[pos].key, t[k].key);
    }
    assert from <= pos;
    forall k | from <= k < pos ensures !Yields(t, k, sequence) {
      assert k > from ==> Less(t[from].key, t[k].key);
    }
  }

  // ---------------------------------------------------------------- going backward

  /** In reverse, the inner iterator rests before the row, with nothing seen in between. */
  ghost predicate BehindRow(t: seq<Entry>, pos: nat, at: nat, sequence: nat)
    requires pos <= |t| && at < |t|
  {
    && NothingSeenFrom(t, pos, at, sequence)
    && (pos < |t| ==> pos < at && t[pos].key.user < t[at].key.user)
  }

  ghost predicate NothingSeenFrom(t: seq<Entry>, pos: nat, bound: nat, sequence: nat)
    requires pos <= |t| && bound <= |t|
  {
    && (pos < |t| ==> pos < bound)
    && forall j :: (pos == |t| || pos < j) && 0 <= j < bound ==> !Seen(t, j, sequence)
  }

  /** All entries behind `pos` and before `bound` have been looked at; `m` is the latest one seen. */
  ghost predicate ScannedTo(t: seq<Entry>, pos: nat, bound: nat, m: nat, sequence: nat) {
    && pos <= |t| && m <= bound <= |t|
    && NothingSeenFrom(t, pos, m, sequence)
    && (m < bound ==> Seen(t, m, sequence) && NoRows(t, m + 1, bound, sequence))
  }

  lemma SameKeyUnseen(t: seq<Entry>, lo: nat, row: nat, sequence: nat)
    requires lo <= row < |t| && Yields(t, row, sequence)
    requires forall j :: lo <= j < row ==> t[j].key.user == t[row].key.user
    ensures forall j :: lo <= j < row ==> !Seen(t, j, sequence)
  {
  }

  lemma SeenBehind(t: seq<Entry>, j: nat, bound: nat, m: nat, sequence: nat)
    requires SortedTable(t) && j < |t| && ScannedTo(t, j, bound, m, sequence) && Seen(t, j, sequence)
    requires m < bound && t[m].key.kind.Value? ==> t[j].key.user >= t[m].key.user
    ensures j < m && NoRows(t, j + 1, bound, sequence)
  {
    if m < bound {
      assert Less(t[j].key, t[m].key);
      assert !Yields(t, m, sequence);
    }
  }

  lemma ScanEnds(t: seq<Entry>, pos: nat, bound: nat, m: nat, sequence: nat)
    requires SortedTable(t) && ScannedTo(t, pos, bound, m, sequence)
    requires pos < |t| ==> m < bound && t[m].key.kind.Value? && t[pos].key.user < t[m].key.user
    ensures LastRow(t, bound, sequence, if m < bound && t[m].key.kind.Value? then m else |t|)
    ensures m < bound && t[m].key.kind.Value? ==> Yields(t, m, sequence) && BehindRow(t, pos, m, sequence)
  {
    if m < bound && t[m].key.kind.Value? {
      if pos < |t| {
        forall j | 0 <= j <= pos ensures t[j].key.user < t[m].key.user {
          assert j < pos ==> Less(t[j].key, t[pos].key);
        }
      }
    }
  }
}
