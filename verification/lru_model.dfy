/** What the block cache promises, without its links: which entries it has, in what order they go,
    who refers to them, and when their deleter runs (util/cache.cc). */
module LruModel {
  import opened DbFormat
  import opened HandleTables

  datatype Info = Info(id: Id, value: string, charge: nat)

  /** `lru` is the list of entries that no client refers to, the oldest first; `inUse` is the list of
      the others; `deleted` are the handles whose deleter has run, in that order. */
  datatype Model = Model(
    capacity: nat, usage: int, infos: map<nat, Info>, refs: map<nat, int>, inCache: set<nat>,
    table: map<Id, nat>, lru: seq<nat>, inUse: seq<nat>, deleted: seq<nat>)

  function Without(s: seq<nat>, e: nat): (r: seq<nat>)
    ensures e !in s ==> r == s
  {
    if s == [] then [] else if s[0] == e then Without(s[1..], e) else [s[0]] + Without(s[1..], e)
  }

  function Sum(infos: map<nat, Info>, s: seq<nat>): nat {
    if s == [] then 0 else (if s[0] in infos then infos[s[0]].charge else 0) + Sum(infos, s[1..])
  }

  // ---------------------------------------------------------------- what each operation does

  /** A client takes a reference. */
  function Refd(c: Model, e: nat): Model
    requires e in c.refs
  {
    c.(refs := c.refs[e := c.refs[e] + 1],
       lru := if c.refs[e] == 1 && e in c.inCache then Without(c.lru, e) else c.lru,
       inUse := if c.refs[e] == 1 && e in c.inCache then c.inUse + [e] else c.inUse)
  }

  /** A reference is given back: by a client, or by the cache. */
  function Unrefd(c: Model, e: nat): Model
    requires e in c.refs
  {
    var idle := c.refs[e] == 2 && e in c.inCache;
    c.(refs := c.refs[e := c.refs[e] - 1],
       deleted := if c.refs[e] == 1 then c.deleted + [e] else c.deleted,
       inUse := if idle then Without(c.inUse, e) else c.inUse,
       lru := if idle then c.lru + [e] else c.lru)
  }

  /** The entry leaves the cache, and the cache gives its reference back. */
  function Dropped(c: Model, e: nat): Model
    requires e in c.refs && e in c.infos
  {
    Unrefd(c.(lru := Without(c.lru, e), inUse := Without(c.inUse, e), inCache := c.inCache - {e}, usage := c.usage - c.infos[e].charge), e)
  }

  ghost predicate Known(c: Model) {
    forall id :: id in c.table ==> c.table[id] in c.refs && c.table[id] in c.infos
  }

  function Erased(c: Model, id: Id): Model
    requires Known(c)
  {
    if id in c.table then Dropped(c.(table := c.table - {id}), c.table[id]) else c
  }

  /** A new entry, with one reference for the client and one for the cache; with no capacity, for
      the client alone. */
  function Added(c: Model, e: nat, info: Info): Model {
    var c1 := c.(infos := c.infos[e := info]);
    if c.capacity == 0 then c1.(refs := c.refs[e := 1])
    else c1.(refs := c.refs[e := 2], inCache := c.inCache + {e}, inUse := c.inUse + [e], usage := c.usage + info.charge,
             table := c.table[info.id := e])
  }

  /** The `n` entries longest out of use have left the cache, the oldest first. */
  ghost function OldestGone(c: Model, n: nat): Model
    requires n <= |c.lru|
  {
    c.(lru := c.lru[n..], deleted := c.deleted + c.lru[..n], usage := c.usage - Sum(c.infos, c.lru[..n]),
       inCache := c.inCache - (set h | h in c.lru[..n]),
       refs := map h | h in c.refs :: if h in c.lru[..n] then 0 else c.refs[h],
       table := map id | id in c.table && c.table[id] !in c.lru[..n] :: c.table[id])
  }

  /** As many as it takes, and no more. */
  ghost predicate JustEnough(c: Model, n: nat) {
    && n <= |c.lru|
    && (n < |c.lru| ==> c.usage - Sum(c.infos, c.lru[..n]) <= c.capacity)
    && forall m :: 0 <= m < n ==> c.usage - Sum(c.infos, c.lru[..m]) > c.capacity
  }

  // ---------------------------------------------------------------- what always holds

  /** A handle has the references of its clients, and one more while it is in the cache. */
  ghost predicate Counted(c: Model, held: map<nat, nat>) {
    && held.Keys == c.infos.Keys == c.refs.Keys && c.inCache <= held.Keys
    && forall h :: h in held ==> c.refs[h] == held[h] + if h in c.inCache then 1 else 0
  }

  /** An entry of the cache is on exactly one list, which its references choose. */
  ghost predicate Listed(c: Model, held: map<nat, nat>) {
    && NoRepeats(c.lru) && NoRepeats(c.inUse)
    && (forall h :: h in c.lru <==> h in c.inCache && h in held && held[h] == 0)
    && (forall h :: h in c.inUse <==> h in c.inCache && h in held && held[h] > 0)
  }

  /** The table leads to the entries of the cache, and to nothing else. */
  ghost predicate Mapped(c: Model) {
    && (forall h :: h in c.inCache ==> h in c.infos && c.infos[h].id in c.table && c.table[c.infos[h].id] == h)
    && (forall id :: id in c.table ==> c.table[id] in c.inCache && c.table[id] in c.infos && c.infos[c.table[id]].id == id)
  }

  /** The deleter has run once for the handles that nothing refers to any more, and for no other. */
  ghost predicate Disposed(c: Model, held: map<nat, nat>) {
    NoRepeats(c.deleted) && forall h :: h in c.deleted <==> h in held && held[h] == 0 && h !in c.inCache
  }

  ghost predicate Charged(c: Model) {
    c.usage == Sum(c.infos, c.lru) + Sum(c.infos, c.inUse)
  }

  /** `held` counts the references that clients hold. */
  ghost predicate Sound(c: Model, held: map<nat, nat>) {
    && Counted(c, held) && Listed(c, held) && Mapped(c) && Disposed(c, held) && Charged(c)
    && (c.capacity == 0 ==> c.inCache == {})
  }

  // ---------------------------------------------------------------- lists

  lemma {:induction false} WithoutOne(s: seq<nat>, e: nat, k: nat)
    requires NoRepeats(s) && k < |s| && s[k] == e
    ensures Without(s, e) == s[..k] + s[k + 1..]
  {
    if k == 0 {
      assert e !in s[1..];
    } else {
      WithoutOne(s[1..], e, k - 1);
      assert s[..k] + s[k + 1..] == [s[0]] + (s[1..][..k - 1] + s[1..][k..]);
    }
  }

  lemma WithoutMeans(s: seq<nat>, e: nat)
    requires NoRepeats(s)
    ensures NoRepeats(Without(s, e)) && forall x :: x in Without(s, e) <==> x in s && x != e
  {
    if e in s {
      var k :| 0 <= k < |s| && s[k] == e;
      WithoutOne(s, e, k);
      var r := s[..k] + s[k + 1..];
      forall x ensures x in r <==> x in s && x != e {
        if x in s && x != e {
          var j :| 0 <= j < |s| && s[j] == x;
          assert r[if j < k then j else j - 1] == x;
        }
      }
    }
  }

  lemma {:induction false} SumWithout(infos: map<nat, Info>, s: seq<nat>, e: nat)
    requires NoRepeats(s)
    ensures Sum(infos, Without(s, e)) == Sum(infos, s) - if e in s && e in infos then infos[e].charge else 0
  {
    if s != [] {
      SumWithout(infos, s[1..], e);
      if s[0] == e {
        assert e !in s[1..];
      } else {
        assert ([s[0]] + Without(s[1..], e))[1..] == Without(s[1..], e);
      }
    }
  }

  lemma {:induction false} SumAppend(infos: map<nat, Info>, s: seq<nat>, e: nat)
    ensures Sum(infos, s + [e]) == Sum(infos, s) + if e in infos then infos[e].charge else 0
  {
    if s == [] {
      assert s + [e] == [e];
    } else {
      SumAppend(infos, s[1..], e);
      assert (s + [e])[1..] == s[1..] + [e];
    }
  }

  lemma {:induction false} SumSame(infos: map<nat, Info>, infos2: map<nat, Info>, s: seq<nat>)
    requires forall h :: h in s ==> (h in infos <==> h in infos2) && (h in infos ==> infos[h] == infos2[h])
    ensures Sum(infos, s) == Sum(infos2, s)
  {
    if s != [] {
      SumSame(infos, infos2, s[1..]);
    }
  }

  lemma AppendNew(s: seq<nat>, e: nat)
    requires NoRepeats(s) && e !in s
    ensures NoRepeats(s + [e]) && forall x :: x in s + [e] <==> x in s || x == e
  {
  }

  // ---------------------------------------------------------------- every operation keeps it

  lemma RefKeeps(c: Model, held: map<nat, nat>, e: nat)
    requires Sound(c, held) && e in c.inCache
    ensures e in c.refs && e in held && Sound(Refd(c, e), held[e := held[e] + 1])
  {
    hide Mapped, Listed, Charged, Sum, Without;
    SameMapped(c, Refd(c, e));
    RefListed(c, held, e);
    RefCharged(c, held, e);
  }

  lemma SameMapped(c: Model, d: Model)
    requires Mapped(c) && d.infos == c.infos && d.table == c.table && d.inCache == c.inCache
    ensures Mapped(d)
  {
  }

  lemma RefListed(c: Model, held: map<nat, nat>, e: nat)
    requires Counted(c, held) && Listed(c, held) && e in c.inCache
    ensures Listed(Refd(c, e), held[e := held[e] + 1])
  {
    hide Without;
    WithoutMeans(c.lru, e);
    if held[e] == 0 {
      AppendNew(c.inUse, e);
    }
  }

  lemma RefCharged(c: Model, held: map<nat, nat>, e: nat)
    requires Counted(c, held) && Listed(c, held) && Charged(c) && e in c.inCache
    ensures Charged(Refd(c, e))
  {
    hide Sum, Without;
    SumWithout(c.infos, c.lru, e);
    SumAppend(c.infos, c.inUse, e);
  }

  lemma ReleaseKeeps(c: Model, held: map<nat, nat>, e: nat)
    requires Sound(c, held) && e in held && held[e] > 0
    ensures Sound(Unrefd(c, e), held[e := held[e] - 1])
  {
    hide Mapped, Listed, Charged, Disposed, Sum, Without;
    SameMapped(c, Unrefd(c, e));
    ReleaseListed(c, held, e);
    ReleaseCharged(c, held, e);
    ReleaseDisposed(c, held, e);
  }

  lemma ReleaseListed(c: Model, held: map<nat, nat>, e: nat)
    requires Counted(c, held) && Listed(c, held) && e in held && held[e] > 0
    ensures Listed(Unrefd(c, e), held[e := held[e] - 1])
  {
    hide Without;
    WithoutMeans(c.inUse, e);
    if held[e] == 1 && e in c.inCache {
      AppendNew(c.lru, e);
    }
  }

  lemma ReleaseCharged(c: Model, held: map<nat, nat>, e: nat)
    requires Counted(c, held) && Listed(c, held) && Charged(c) && e in held && held[e] > 0
    ensures Charged(Unrefd(c, e))
  {
    hide Sum, Without;
    SumWithout(c.infos, c.inUse, e);
    SumAppend(c.infos, c.lru, e);
  }

  lemma ReleaseDisposed(c: Model, held: map<nat, nat>, e: nat)
    requires Counted(c, held) && Disposed(c, held) && e in held && held[e] > 0
    ensures Disposed(Unrefd(c, e), held[e := held[e] - 1])
  {
    hide Without;
    if held[e] == 1 && e !in c.inCache {
      AppendNew(c.deleted, e);
    }
  }

  lemma DropKeeps(c: Model, held: map<nat, nat>, id: Id)
    requires Sound(c, held)
    ensures Known(c) && Sound(Erased(c, id), held)
  {
    hide Mapped, Listed, Charged, Disposed, Counted, Sum, Without, Dropped, Unrefd;
    TableIsKnown(c, held);
    if id in c.table {
      var e := c.table[id];
      DropCounted(c, held, e, id);
      DropMapped(c, held, id);
      DropListed(c, held, e, id);
      DropCharged(c, held, e, id);
      DropDisposed(c, held, e, id);
    }
  }

  lemma TableIsKnown(c: Model, held: map<nat, nat>)
    requires Counted(c, held) && Mapped(c)
    ensures Known(c) && forall id :: id in c.table ==> c.table[id] in c.inCache
  {
  }

  lemma DropCounted(c: Model, held: map<nat, nat>, e: nat, id: Id)
    requires Counted(c, held) && e in c.inCache && (c.capacity == 0 ==> c.inCache == {})
    ensures var d := Dropped(c.(table := c.table - {id}), e);
            Counted(d, held) && (d.capacity == 0 ==> d.inCache == {})
  {
    hide Without;
  }

  lemma DropMapped(c: Model, held: map<nat, nat>, id: Id)
    requires Counted(c, held) && Mapped(c) && Known(c) && id in c.table
    ensures Mapped(Erased(c, id))
  {
    hide Without;
  }

  lemma DropListed(c: Model, held: map<nat, nat>, e: nat, id: Id)
    requires Counted(c, held) && Listed(c, held) && e in c.inCache
    ensures Listed(Dropped(c.(table := c.table - {id}), e), held)
  {
    hide Without;
    WithoutMeans(c.lru, e);
    WithoutMeans(c.inUse, e);
    StaysOut(Without(c.inUse, e), e);
  }

  lemma StaysOut(s: seq<nat>, e: nat)
    requires e !in s
    ensures Without(s, e) == s
  {
  }

  lemma DropCharged(c: Model, held: map<nat, nat>, e: nat, id: Id)
    requires Counted(c, held) && Listed(c, held) && Charged(c) && e in c.inCache
    ensures Charged(Dropped(c.(table := c.table - {id}), e))
  {
    hide Sum, Without;
    SumWithout(c.infos, c.lru, e);
    SumWithout(c.infos, c.inUse, e);
  }

  lemma DropDisposed(c: Model, held: map<nat, nat>, e: nat, id: Id)
    requires Counted(c, held) && Disposed(c, held) && e in c.inCache
    ensures Disposed(Dropped(c.(table := c.table - {id}), e), held)
  {
    hide Without;
    if held[e] == 0 {
      AppendNew(c.deleted, e);
    }
  }

  lemma AddKeeps(c: Model, held: map<nat, nat>, e: nat, info: Info)
    requires Sound(c, held) && e !in held && info.id !in c.table
    ensures Sound(Added(c, e, info), held[e := 1])
  {
    hide Listed, Charged, Disposed, Sum;
    AddListed(c, held, e, info);
    AddCharged(c, held, e, info);
    AddDisposed(c, held, e, info);
  }

  lemma AddListed(c: Model, held: map<nat, nat>, e: nat, info: Info)
    requires Counted(c, held) && Listed(c, held) && e !in held
    ensures Listed(Added(c, e, info), held[e := 1])
  {
    AppendNew(c.inUse, e);
  }

  lemma AddCharged(c: Model, held: map<nat, nat>, e: nat, info: Info)
    requires Counted(c, held) && Listed(c, held) && Charged(c) && e !in held
    ensures Charged(Added(c, e, info))
  {
    hide Sum;
    SumSame(c.infos, c.infos[e := info], c.lru);
    SumSame(c.infos, c.infos[e := info], c.inUse);
    SumAppend(c.infos[e := info], c.inUse, e);
  }

  lemma AddDisposed(c: Model, held: map<nat, nat>, e: nat, info: Info)
    requires Counted(c, held) && Disposed(c, held) && e !in held
    ensures Disposed(Added(c, e, info), held[e := 1])
  {
  }
}
