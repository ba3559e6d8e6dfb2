/** The iterator interface: a position in a sorted sequence of entries (leveldb/iterator.h). */
module Cursors {
  import opened DbFormat

  /** Where a position goes, in a sequence of length `n`; `n` itself stands for "not valid". */
  function After(pos: nat, n: nat): nat
    requires pos < n
  {
    pos + 1
  }

  function Before(pos: nat, n: nat): nat
    requires pos < n
  {
    if pos == 0 then n else pos - 1
  }

  function Last(n: nat): nat {
    if n == 0 then 0 else n - 1
  }

  /** What every source of entries promises, whether memtable, table or level. */
  class Cursor {
    const entries: seq<Entry>
    var pos: nat

    ghost predicate Ok()
      reads this
    {
      SortedTable(entries) && pos <= |entries|
    }

    constructor (entries: seq<Entry>)
      requires SortedTable(entries)
      ensures Ok() && this.entries == entries && pos == |entries|
    {
      this.entries := entries;
      pos := |entries|;
    }

    predicate Valid()
      reads this
    {
      pos < |entries|
    }

    function Key(): InternalKey
      requires Valid()
      reads this
    {
      entries[pos].key
    }

    function Value(): string
      requires Valid()
      reads this
    {
      entries[pos].value
    }

    method Seek(target: InternalKey)
      requires Ok()
      modifies this
      ensures Ok() && pos == DbFormat.Seek(entries, target)
    {
      pos := DbFormat.Seek(entries, target);
    }

    method SeekToFirst()
      requires Ok()
      modifies this
      ensures Ok() && pos == 0
    {
      pos := 0;
    }

    method SeekToLast()
      requires Ok()
      modifies this
      ensures Ok() && pos == Last(|entries|)
    {
      pos := Last(|entries|);
    }

    method Next()
      requires Ok() && Valid()
      modifies this
      ensures Ok() && pos == After(old(pos), |entries|)
    {
      pos := pos + 1;
    }

    method Prev()
      requires Ok() && Valid()
      modifies this
      ensures Ok() && pos == Before(old(pos), |entries|)
    {
      pos := Before(pos, |entries|);
    }
  }
}
