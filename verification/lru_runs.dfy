/** Any run of calls on one shard of the block cache (util/cache.cc). */
module LruRuns {
  import opened DbFormat
  import opened HandleTables
  import opened LruModel
  import opened LruCaches

  datatype Call = Lookup(id: Id) | Release(handle: nat) | Insert(handle: nat, info: Info) | Erase(id: Id) | Prune

  /** The cache and the references that its clients hold. */
  datatype Shard = Shard(cache: Model, held: map<nat, nat>)

  /** One call, as the methods of LRUCache promise it; a client releases only what it holds. */
  ghost predicate Does(s: Shard, call: Call, t: Shard) {
    && Known(s.cache)
    && match call
       case Lookup(id) =>
         if id !in s.cache.table then t == s else
           var h := s.cache.table[id];
           h in s.held && t == Shard(Refd(s.cache, h), s.held[h := s.held[h] + 1])
       case Release(h) =>
         h in s.held && s.held[h] > 0 && h in s.cache.refs && t == Shard(Unrefd(s.cache, h), s.held[h := s.held[h] - 1])
       case Insert(h, info) =>
         && h !in s.held && t.held == s.held[h := 1]
         && exists n :: JustEnough(Added(Erased(s.cache, info.id), h, info), n)
                        && t.cache == OldestGone(Added(Erased(s.cache, info.id), h, info), n)
       case Erase(id) => t == Shard(Erased(s.cache, id), s.held)
       case Prune => t == Shard(OldestGone(s.cache, |s.cache.lru|), s.held)
  }

  lemma {:induction false} GoneKeeps(c: Model, held: map<nat, nat>, n: nat)
    requires Sound(c, held) && n <= |c.lru|
    ensures Sound(OldestGone(c, n), held)
  {
    hide Sound, OldestGone, Erased;
    if n == 0 {
      NothingGone(c);
    } else {
      GoneKeeps(c, held, n - 1);
      OneMoreGone(c, held, n - 1);
      DropKeeps(OldestGone(c, n - 1), held, c.infos[c.lru[n - 1]].id);
    }
  }

  lemma CallKeeps(s: Shard, call: Call, t: Shard)
    requires Sound(s.cache, s.held) && Does(s, call, t)
    ensures Sound(t.cache, t.held) && s.cache.deleted <= t.cache.deleted
    ensures call.Insert? ==> t.cache.usage <= t.cache.capacity || t.cache.lru == []
  {
    hide Sound, Without, Sum;
    match call
    case Lookup(id) =>
      TableEntry(s.cache, s.held, id);
      if id in s.cache.table {
        RefKeeps(s.cache, s.held, s.cache.table[id]);
      }
    case Release(h) => ReleaseKeeps(s.cache, s.held, h);
    case Insert(h, info) => InsertIsSound(s, h, info, t);
    case Erase(id) => DropKeeps(s.cache, s.held, id);
    case Prune => GoneKeeps(s.cache, s.held, |s.cache.lru|);
  }

  lemma InsertIsSound(s: Shard, h: nat, info: Info, t: Shard)
    requires Sound(s.cache, s.held) && Does(s, Insert(h, info), t)
    ensures Sound(t.cache, t.held) && s.cache.deleted <= t.cache.deleted
    ensures t.cache.usage <= t.cache.capacity || t.cache.lru == []
  {
    hide Sound, OldestGone, Erased, Added, Sum;
    NotHeld(s.cache, s.held, h);
    AddIsSound(s.cache, s.held, h, info);
    var c := Added(Erased(s.cache, info.id), h, info);
    var n :| JustEnough(c, n) && t.cache == OldestGone(c, n);
    GoneKeeps(c, t.held, n);
    GoneFields(c, n);
    OnlyMoreDeleted(s.cache, h, info, n);
  }

  lemma NotHeld(c: Model, held: map<nat, nat>, h: nat)
    requires Sound(c, held) && h !in held
    ensures h !in c.infos
  {
  }

  lemma OnlyMoreDeleted(c: Model, h: nat, info: Info, n: nat)
    requires Known(c) && n <= |Added(Erased(c, info.id), h, info).lru|
    ensures c.deleted <= OldestGone(Added(Erased(c, info.id), h, info), n).deleted
  {
    hide Without, Sum;
  }

  ghost predicate IsRun(shards: seq<Shard>, calls: seq<Call>) {
    && |shards| == |calls| + 1 && (forall i :: 0 <= i < |calls| ==> Does(shards[i], calls[i], shards[i + 1]))
    && shards[0].held == map[] && shards[0].cache == Model(shards[0].cache.capacity, 0, map[], map[], {}, map[], [], [], [])
  }

  /** Over any run, a handle has as many references as its clients hold, and one more while it is in
      the cache; an entry of the cache is on the list that its references choose; and deleters run
      one after the other, for each handle once: when it is out of the cache and nobody holds it. */
  lemma {:induction false} RunIsSound(shards: seq<Shard>, calls: seq<Call>, m: nat, n: nat)
    requires IsRun(shards, calls) && m <= n <= |calls|
    ensures Sound(shards[n].cache, shards[n].held) && shards[m].cache.deleted <= shards[n].cache.deleted
    ensures forall h :: h in shards[n].held && shards[n].held[h] > 0 ==> h !in shards[n].cache.deleted
    decreases n
  {
    hide Does;
    if n > m {
      RunIsSound(shards, calls, m, n - 1);
      CallKeeps(shards[n - 1], calls[n - 1], shards[n]);
    } else if n > 0 {
      RunIsSound(shards, calls, n - 1, n - 1);
      CallKeeps(shards[n - 1], calls[n - 1], shards[n]);
    }
  }

  /** What a client holds stays what it was, whatever happens to the cache meanwhile. */
  lemma InfoStays(s: Shard, call: Call, t: Shard, h: nat)
    requires Sound(s.cache, s.held) && Does(s, call, t) && h in s.held
    ensures h in s.cache.infos && h in t.cache.infos && t.cache.infos[h] == s.cache.infos[h]
  {
    hide Without, Sum, Listed, Mapped, Disposed, Charged;
  }
}
