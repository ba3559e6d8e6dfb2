/** The skip list of the memtable: its memory, what its levels hold, its searches and Insert
    (db/skiplist.h). Keys are ranks in the order of the list's comparator; a node is its index in
    the arena. */
module SkipLists {
  import opened DbFormat

  const MAX_HEIGHT: nat := 12
  const HEAD: nat := 0

  /** `next[x]` holds as many links as node `x` is high. The head's key is never looked at. */
  datatype Memory = Memory(keys: seq<int>, next: seq<seq<Option<nat>>>, maxHeight: nat)

  /** What a search looks for: a key, or the end of the list. */
  datatype Target = From(key: int) | End

  // ---------------------------------------------------------------- what the links stand for

  /** `y` comes behind `x` in the order of the list. */
  ghost predicate Behind(m: Memory, x: nat, y: nat) {
    x < |m.keys| && y < |m.keys| && (x == HEAD || m.keys[x] < m.keys[y])
  }

  /** `n` is the first node of `s` behind `x`, if there is one. */
  ghost predicate FirstBehind(m: Memory, s: set<nat>, x: nat, n: Option<nat>) {
    && (n.None? ==> forall y :: y in s ==> !Behind(m, x, y))
    && (n.Some? ==> n.value in s && Behind(m, x, n.value) && forall y :: y in s && Behind(m, x, y) ==> m.keys[n.value] <= m.keys[y])
  }

  ghost predicate LinkOk(m: Memory, l: nat, s: set<nat>, x: nat) {
    x < |m.next| && l < |m.next[x]| && FirstBehind(m, s, x, m.next[x][l])
  }

  /** The links of level `l` go through the nodes of `s` in order. */
  ghost predicate Links(m: Memory, l: nat, s: set<nat>) {
    forall x: nat :: x == HEAD || x in s ==> LinkOk(m, l, s, x)
  }

  ghost predicate Nodes(m: Memory, s: set<nat>) {
    && (forall x :: x in s ==> HEAD < x < |m.keys|)
    && (forall x, y :: x in s && y in s && m.keys[x] == m.keys[y] ==> x == y)
  }

  /** Every level is a part of the one below it. */
  ghost predicate Nested(levels: seq<set<nat>>) {
    forall k, l :: 0 <= k <= l < |levels| ==> levels[l] <= levels[k]
  }

  /** What always holds, also between the pointer stores of an insertion: the nodes linked at each
      level are sorted, and each level is a part of the one below. */
  ghost predicate Good(m: Memory, levels: seq<set<nat>>) {
    && |m.keys| == |m.next| > 0 && |levels| == MAX_HEIGHT && 1 <= m.maxHeight <= MAX_HEIGHT
    && Nodes(m, levels[0]) && Nested(levels)
    && (forall l :: m.maxHeight <= l < MAX_HEIGHT ==> levels[l] == {})
    && (forall l :: 0 <= l < MAX_HEIGHT ==> Links(m, l, levels[l]))
  }

  lemma InLower(levels: seq<set<nat>>, l: nat, k: nat, x: nat)
    requires Nested(levels) && k <= l < |levels| && x in levels[l]
    ensures x in levels[k]
  {
  }

  /** The keys linked at the lowest level: the contents of the list. */
  ghost function Contents(m: Memory, s: set<nat>): set<int> {
    set x | x in s && x < |m.keys| :: m.keys[x]
  }

  // ---------------------------------------------------------------- the links determine the levels

  ghost function NodesBelow(m: Memory, s: set<nat>, key: int): set<nat> {
    set y | y in s && y < |m.keys| && m.keys[y] < key
  }

  lemma {:induction false} LastBelowExists(m: Memory, s: set<nat>, key: int) returns (x: nat)
    requires forall y :: y in s ==> HEAD < y < |m.keys|
    ensures LastBelow(m, s, From(key), x)
    decreases |s|
  {
    if s == {} {
      return HEAD;
    }
    var y :| y in s;
    var rest := s - {y};
    x := LastBelowExists(m, rest, key);
    assert s == rest + {y};
    if m.keys[y] < key && (x == HEAD || m.keys[x] < m.keys[y]) {
      x := y;
    }
  }

  /** The memory alone says which nodes a level holds. */
  lemma {:induction false} LinksDetermine(m: Memory, l: nat, s: set<nat>, t: set<nat>, y: nat)
    requires Nodes(m, s) && Nodes(m, t) && Links(m, l, s) && Links(m, l, t) && y in s
    ensures y in t
    decreases |NodesBelow(m, s, m.keys[y])|
  {
    var p := LastBelowExists(m, s, m.keys[y]);
    if p != HEAD {
      assert p in NodesBelow(m, s, m.keys[y]) && p !in NodesBelow(m, s, m.keys[p]);
      assert NodesBelow(m, s, m.keys[p]) <= NodesBelow(m, s, m.keys[y]);
      Smaller(NodesBelow(m, s, m.keys[p]), NodesBelow(m, s, m.keys[y]), p);
      LinksDetermine(m, l, s, t, p);
    }
    assert LinkOk(m, l, s, p) && LinkOk(m, l, t, p);
    assert Behind(m, p, y);
    assert m.next[p][l].Some? && m.next[p][l].value == y;
  }

  lemma Smaller(a: set<nat>, b: set<nat>, x: nat)
    requires a <= b && x in b && x !in a
    ensures |a| < |b|
  {
    assert |b| == |a| + |b - a|;
    assert x in b - a;
  }

  lemma LevelsAreDetermined(m: Memory, levels: seq<set<nat>>, others: seq<set<nat>>)
    requires Good(m, levels) && Good(m, others)
    ensures levels == others
  {
    forall l | 0 <= l < MAX_HEIGHT ensures levels[l] == others[l] {
      forall x ensures x in levels[l] <==> x in others[l] {
        LevelNodes(m, levels, l);
        LevelNodes(m, others, l);
        if x in levels[l] {
          LinksDetermine(m, l, levels[l], others[l], x);
        }
        if x in others[l] {
          LinksDetermine(m, l, others[l], levels[l], x);
        }
      }
    }
  }

  lemma LevelNodes(m: Memory, levels: seq<set<nat>>, l: nat)
    requires Good(m, levels) && l < MAX_HEIGHT
    ensures Nodes(m, levels[l])
  {
    hide Links;
    forall x | x in levels[l] ensures x in levels[0] {
      InLower(levels, l, 0, x);
    }
  }

  // ---------------------------------------------------------------- searching

  ghost predicate Below(m: Memory, x: nat, target: Target) {
    x < |m.keys| && (target.End? || m.keys[x] < target.key)
  }

  /** `n` is the first node of `s` at or behind the target. */
  ghost predicate FirstFrom(m: Memory, s: set<nat>, target: Target, n: Option<nat>) {
    && (n.None? ==> forall y :: y in s ==> Below(m, y, target))
    && (n.Some? ==> n.value in s && n.value < |m.keys| && !Below(m, n.value, target)
                    && forall y :: y in s && !Below(m, y, target) ==> y < |m.keys| && m.keys[n.value] <= m.keys[y])
  }

  /** `x` is the last node of `s` before the target, or the head if there is none. */
  ghost predicate LastBelow(m: Memory, s: set<nat>, target: Target, x: nat) {
    && (x == HEAD ==> forall y :: y in s ==> !Below(m, y, target))
    && (x != HEAD ==> x in s && Below(m, x, target) && forall y :: y in s && Below(m, y, target) ==> m.keys[y] <= m.keys[x])
  }

  /** A search for `target` has come to `x` on level `l`. */
  ghost predicate Reached(m: Memory, levels: seq<set<nat>>, target: Target, x: nat, l: nat) {
    l < |levels| && (x == HEAD || (x in levels[l] && Below(m, x, target)))
  }

  /** The search goes on behind `n`: with a key, KeyIsAfterNode, where a null link counts as infinite. */
  predicate Passes(m: Memory, target: Target, n: Option<nat>) {
    n.Some? && n.value < |m.keys| && (target.End? || m.keys[n.value] < target.key)
  }

  lemma LinkAt(m: Memory, levels: seq<set<nat>>, target: Target, x: nat, l: nat)
    requires Good(m, levels) && Reached(m, levels, target, x, l)
    ensures x < |m.next| && l < |m.next[x]| && FirstBehind(m, levels[l], x, m.next[x][l])
    ensures m.next[x][l].Some? ==> HEAD < m.next[x][l].value < |m.keys| && m.next[x][l].value in levels[0]
  {
    hide FirstBehind;
    assert LinkOk(m, l, levels[l], x);
    LinkInLevel(m, levels[l], x, m.next[x][l]);
    if m.next[x][l].Some? {
      InLower(levels, l, 0, m.next[x][l].value);
    }
  }

  lemma LinkInLevel(m: Memory, s: set<nat>, x: nat, n: Option<nat>)
    requires FirstBehind(m, s, x, n)
    ensures n.Some? ==> n.value in s
  {
  }

  /** One step of a search: along the level, or down, or it has arrived. */
  lemma SearchStep(m: Memory, levels: seq<set<nat>>, target: Target, x: nat, l: nat)
    requires Good(m, levels) && Reached(m, levels, target, x, l)
    ensures x < |m.next| && l < |m.next[x]|
    ensures Passes(m, target, m.next[x][l]) ==> Reached(m, levels, target, m.next[x][l].value, l) && Behind(m, x, m.next[x][l].value)
    ensures !Passes(m, target, m.next[x][l]) && l > 0 ==> Reached(m, levels, target, x, l - 1)
    ensures !Passes(m, target, m.next[x][l]) ==> LastBelow(m, levels[l], target, x) && FirstFrom(m, levels[l], target, m.next[x][l])
  {
    LinkAt(m, levels, target, x, l);
    LevelNodes(m, levels, l);
    hide Links, Nested;
    if x != HEAD && l > 0 {
      InLower(levels, l, l - 1, x);
    }
  }

  /** What a search still has before it. */
  ghost function Ahead(m: Memory, s: set<nat>, x: nat): set<nat> {
    set y | y in s && Behind(m, x, y)
  }

  lemma MovedOn(m: Memory, levels: seq<set<nat>>, target: Target, x: nat, l: nat)
    requires Good(m, levels) && Reached(m, levels, target, x, l) && x < |m.next| && l < |m.next[x]| && Passes(m, target, m.next[x][l])
    ensures |Ahead(m, levels[0], m.next[x][l].value)| < |Ahead(m, levels[0], x)|
  {
    SearchStep(m, levels, target, x, l);
    LinkAt(m, levels, target, x, l);
    hide Links, Nested, FirstBehind;
    var n := m.next[x][l].value;
    assert Ahead(m, levels[0], n) <= Ahead(m, levels[0], x);
    Smaller(Ahead(m, levels[0], n), Ahead(m, levels[0], x), n);
  }

  /** The nodes that the links of a level lead through, behind `x`. */
  ghost function Chain(m: Memory, l: nat, s: set<nat>, x: nat): seq<nat>
    requires Nodes(m, s) && Links(m, l, s) && (x == HEAD || x in s)
    decreases |Ahead(m, s, x)|
  {
    assert LinkOk(m, l, s, x);
    var n := m.next[x][l];
    if n.None? then [] else (NextAhead(m, s, x, n.value); [n.value] + Chain(m, l, s, n.value))
  }

  lemma NextAhead(m: Memory, s: set<nat>, x: nat, n: nat)
    requires Nodes(m, s) && FirstBehind(m, s, x, Some(n))
    ensures |Ahead(m, s, n)| < |Ahead(m, s, x)|
    ensures Ahead(m, s, x) == {n} + Ahead(m, s, n)
  {
    Smaller(Ahead(m, s, n), Ahead(m, s, x), n);
  }

  ghost predicate SortedChain(m: Memory, c: seq<nat>) {
    && (forall i :: 0 <= i < |c| ==> c[i] < |m.keys|)
    && forall i, j :: 0 <= i < j < |c| ==> m.keys[c[i]] < m.keys[c[j]]
  }

  /** A level is sorted, and following its links meets exactly the nodes behind `x`. */
  lemma {:induction false} ChainIsSorted(m: Memory, l: nat, s: set<nat>, x: nat)
    requires Nodes(m, s) && Links(m, l, s) && (x == HEAD || x in s)
    ensures SortedChain(m, Chain(m, l, s, x)) && forall y :: y in Chain(m, l, s, x) <==> y in Ahead(m, s, x)
    decreases |Ahead(m, s, x)|
  {
    assert LinkOk(m, l, s, x);
    var n := m.next[x][l];
    if n.None? {
      assert Ahead(m, s, x) == {};
    } else {
      NextAhead(m, s, x, n.value);
      ChainIsSorted(m, l, s, n.value);
      FirstThenRest(m, n.value, Chain(m, l, s, n.value), Ahead(m, s, n.value), s);
    }
  }

  lemma FirstThenRest(m: Memory, n: nat, c: seq<nat>, behind: set<nat>, s: set<nat>)
    requires HEAD < n < |m.keys| && SortedChain(m, c) && (forall y :: y in c <==> y in behind) && behind == Ahead(m, s, n)
    ensures SortedChain(m, [n] + c) && forall y :: y in [n] + c <==> y in {n} + behind
  {
    forall j | 0 <= j < |c| ensures c[j] < |m.keys| && m.keys[n] < m.keys[c[j]] {
      assert c[j] in c;
    }
  }

  /** Each level is a sorted part of the one below. */
  lemma LevelsAreSorted(m: Memory, levels: seq<set<nat>>, l: nat, k: nat)
    requires Good(m, levels) && k <= l < MAX_HEIGHT
    ensures Nodes(m, levels[l]) && Nodes(m, levels[k])
    ensures SortedChain(m, Chain(m, l, levels[l], HEAD)) && forall y :: y in Chain(m, l, levels[l], HEAD) <==> y in levels[l]
    ensures forall y :: y in Chain(m, l, levels[l], HEAD) ==> y in Chain(m, k, levels[k], HEAD)
  {
    hide Links, Chain, SortedChain;
    LevelNodes(m, levels, l);
    LevelNodes(m, levels, k);
    ChainIsSorted(m, l, levels[l], HEAD);
    ChainIsSorted(m, k, levels[k], HEAD);
    assert Ahead(m, levels[l], HEAD) == levels[l] && Ahead(m, levels[k], HEAD) == levels[k];
  }

  // ---------------------------------------------------------------- changing the memory

  function WithLink(m: Memory, x: nat, l: nat, n: Option<nat>): Memory
    requires x < |m.next| && l < |m.next[x]|
  {
    m.(next := m.next[x := m.next[x][l := n]])
  }

  /** NewNode: its links are not initialised. */
  function WithNode(m: Memory, key: int, links: seq<Option<nat>>): Memory {
    m.(keys := m.keys + [key], next := m.next + [links])
  }

  function WithHeight(m: Memory, height: nat): Memory {
    m.(maxHeight := if height > m.maxHeight then height else m.maxHeight)
  }

  /** Nothing that a level depends on has changed. */
  ghost predicate SameLevel(m: Memory, m2: Memory, l: nat, s: set<nat>) {
    && |m.keys| <= |m2.keys| && |m.next| <= |m2.next| && (forall x :: 0 <= x < |m.keys| ==> m2.keys[x] == m.keys[x])
    && forall x: nat :: (x == HEAD || x in s) && x < |m.next| && l < |m.next[x]| ==> l < |m2.next[x]| && m2.next[x][l] == m.next[x][l]
  }

  lemma SameLinks(m: Memory, m2: Memory, l: nat, s: set<nat>)
    requires Links(m, l, s) && SameLevel(m, m2, l, s) && (forall x :: x in s ==> HEAD < x < |m.keys|) && |m.keys| > 0
    ensures Links(m2, l, s)
  {
    forall x: nat | x == HEAD || x in s ensures LinkOk(m2, l, s, x) {
      assert LinkOk(m, l, s, x);
      forall y | y in s ensures Behind(m2, x, y) <==> Behind(m, x, y) {
      }
    }
  }

  /** A link of a node that is not on its level yet can be set. */
  lemma CopyKeeps(m: Memory, levels: seq<set<nat>>, n: nat, l: nat, to: Option<nat>)
    requires Good(m, levels) && l < MAX_HEIGHT && HEAD < n < |m.next| && l < |m.next[n]| && n !in levels[l]
    ensures Good(WithLink(m, n, l, to), levels)
  {
    var m2 := WithLink(m, n, l, to);
    hide Links;
    forall k | 0 <= k < MAX_HEIGHT ensures Links(m2, k, levels[k]) {
      LevelNodes(m, levels, k);
      SameLinks(m, m2, k, levels[k]);
    }
  }

  lemma NodeKeeps(m: Memory, levels: seq<set<nat>>, key: int, links: seq<Option<nat>>, height: nat)
    requires Good(m, levels) && height <= MAX_HEIGHT
    ensures Good(WithNode(WithHeight(m, height), key, links), levels)
  {
    var m2 := WithNode(WithHeight(m, height), key, links);
    hide Links;
    forall k | 0 <= k < MAX_HEIGHT ensures Links(m2, k, levels[k]) {
      LevelNodes(m, levels, k);
      SameLinks(m, m2, k, levels[k]);
    }
  }

  /** The store that makes `n` visible on level `l`. */
  lemma PublishKeeps(m: Memory, levels: seq<set<nat>>, p: nat, l: nat, n: nat)
    requires Good(m, levels) && l < m.maxHeight && HEAD < n < |m.keys| && n !in levels[l] && (l > 0 ==> n in levels[l - 1])
    requires forall x :: x in levels[0] && x != n ==> m.keys[x] != m.keys[n]
    requires LastBelow(m, levels[l], From(m.keys[n]), p)
    requires p < |m.next| && l < |m.next[p]| && l < |m.next[n]| && m.next[n][l] == m.next[p][l]
    ensures Good(WithLink(m, p, l, Some(n)), levels[l := levels[l] + {n}])
  {
    var m2, levels2 := WithLink(m, p, l, Some(n)), levels[l := levels[l] + {n}];
    LevelNodes(m, levels, l);
    StillNested(levels, l, n);
    forall k | 0 <= k < MAX_HEIGHT ensures Links(m2, k, levels2[k]) {
      LevelNodes(m, levels, k);
      hide LastBelow, FirstBehind;
      if k == l {
        forall x | x in levels[l] && x != n ensures m.keys[x] != m.keys[n] {
          InLower(levels, l, 0, x);
        }
        LinkedIn(m, levels[l], p, l, n);
      } else {
        SameLinks(m, m2, k, levels[k]);
      }
    }
    hide Links, LastBelow;
  }

  lemma StillNested(levels: seq<set<nat>>, l: nat, n: nat)
    requires Nested(levels) && l < |levels| && (l > 0 ==> n in levels[l - 1])
    ensures Nested(levels[l := levels[l] + {n}])
  {
  }

  lemma LinkedIn(m: Memory, s: set<nat>, p: nat, l: nat, n: nat)
    requires |m.keys| == |m.next| && Links(m, l, s) && Nodes(m, s) && HEAD < n < |m.keys| && n !in s
    requires forall x :: x in s ==> m.keys[x] != m.keys[n]
    requires LastBelow(m, s, From(m.keys[n]), p)
    requires p < |m.next| && l < |m.next[p]| && l < |m.next[n]| && m.next[n][l] == m.next[p][l]
    ensures Links(WithLink(m, p, l, Some(n)), l, s + {n})
  {
    var m2, s2 := WithLink(m, p, l, Some(n)), s + {n};
    assert LinkOk(m, l, s, p);
    forall x: nat | x == HEAD || x in s2 ensures LinkOk(m2, l, s2, x) {
      assert forall y, z :: Behind(m2, y, z) <==> Behind(m, y, z);
      if x != n {
        assert LinkOk(m, l, s, x);
      }
    }
  }

  // ---------------------------------------------------------------- linking a new node

  /** The new node `n` is linked on the levels below `i`, and `prev` says where it goes on the others. */
  ghost predicate Linking(m: Memory, levels: seq<set<nat>>, n: nat, height: nat, prev: seq<nat>, i: nat) {
    && HEAD < n < |m.keys| == |m.next| && |m.next[n]| == height <= m.maxHeight && i <= height && |prev| == |levels| == MAX_HEIGHT
    && (forall l :: 0 <= l < MAX_HEIGHT ==> (n in levels[l] <==> l < i))
    && (forall x :: x in levels[0] && x != n ==> x < |m.keys| && m.keys[x] != m.keys[n])
    && (forall l :: i <= l < MAX_HEIGHT ==> LastBelow(m, levels[l], From(m.keys[n]), prev[l]))
  }

  lemma StartLinking(m: Memory, levels: seq<set<nat>>, key: int, prev: seq<nat>, height: nat, links: seq<Option<nat>>)
    requires Good(m, levels) && key !in Contents(m, levels[0]) && height <= MAX_HEIGHT && |links| == height && |prev| == MAX_HEIGHT
    requires forall l :: 0 <= l < MAX_HEIGHT ==> if l < m.maxHeight then LastBelow(m, levels[l], From(key), prev[l]) else prev[l] == HEAD
    ensures var m2 := WithNode(WithHeight(m, height), key, links); Good(m2, levels) && Linking(m2, levels, |m.keys|, height, prev, 0)
  {
    NodeKeeps(m, levels, key, links, height);
    var m2, n := WithNode(WithHeight(m, height), key, links), |m.keys|;
    hide Links, LastBelow;
    forall x | x in levels[0] ensures x < |m2.keys| && m2.keys[x] != m2.keys[n] {
      assert m.keys[x] in Contents(m, levels[0]);
    }
    forall l | 0 <= l < MAX_HEIGHT ensures n !in levels[l] && LastBelow(m2, levels[l], From(key), prev[l]) {
      LevelNodes(m, levels, l);
      if l >= m.maxHeight {
        NoneBelow(m, From(key));
      }
      SameBelow(m, m2, levels[l], From(key), prev[l]);
    }
  }

  lemma NoneBelow(m: Memory, target: Target)
    ensures LastBelow(m, {}, target, HEAD)
  {
  }

  lemma SameBelow(m: Memory, m2: Memory, s: set<nat>, target: Target, x: nat)
    requires m.keys <= m2.keys && Nodes(m, s) && LastBelow(m, s, target, x)
    ensures LastBelow(m2, s, target, x)
  {
  }

  lemma PrevHasLink(m: Memory, levels: seq<set<nat>>, n: nat, height: nat, prev: seq<nat>, i: nat)
    requires Good(m, levels) && Linking(m, levels, n, height, prev, i) && i < height
    ensures n < |m.next| && i < |m.next[n]| && i < |levels| && |prev| == |levels|
    ensures prev[i] < |m.next| && i < |m.next[prev[i]]| && prev[i] != n
  {
    assert LastBelow(m, levels[i], From(m.keys[n]), prev[i]);
    assert LinkOk(m, i, levels[i], prev[i]);
  }

  /** x->NoBarrier_SetNext(i, prev[i]->NoBarrier_Next(i)): no reader sees it. */
  lemma CopyStep(m: Memory, levels: seq<set<nat>>, n: nat, height: nat, prev: seq<nat>, i: nat)
    requires Good(m, levels) && Linking(m, levels, n, height, prev, i) && i < height
    requires n < |m.next| && |prev| == MAX_HEIGHT && prev[i] < |m.next| && i < |m.next[prev[i]]| && prev[i] != n
    ensures var m2 := WithLink(m, n, i, m.next[prev[i]][i]);
            Good(m2, levels) && Linking(m2, levels, n, height, prev, i) && m2.next[n][i] == m2.next[prev[i]][i]
  {
    hide Links, LastBelow, Nested;
    CopyHere(m, levels, n, i, m.next[prev[i]][i]);
    forall l | i <= l < MAX_HEIGHT ensures LastBelow(WithLink(m, n, i, m.next[prev[i]][i]), levels[l], From(m.keys[n]), prev[l]) {
      OnlyKeys(m, WithLink(m, n, i, m.next[prev[i]][i]), levels[l], From(m.keys[n]), prev[l]);
    }
  }

  lemma CopyHere(m: Memory, levels: seq<set<nat>>, n: nat, l: nat, to: Option<nat>)
    requires Good(m, levels) && l < MAX_HEIGHT && HEAD < n < |m.next| && l < |m.next[n]| && n !in levels[l]
    ensures Good(WithLink(m, n, l, to), levels)
  {
    CopyKeeps(m, levels, n, l, to);
  }

  lemma OnlyKeys(m: Memory, m2: Memory, s: set<nat>, target: Target, x: nat)
    requires m.keys == m2.keys && LastBelow(m, s, target, x)
    ensures LastBelow(m2, s, target, x)
  {
  }

  /** prev[i]->SetNext(i, x): from here on the node is on level `i`. */
  lemma PublishStep(m: Memory, levels: seq<set<nat>>, n: nat, height: nat, prev: seq<nat>, i: nat)
    requires Good(m, levels) && Linking(m, levels, n, height, prev, i) && i < height
    requires prev[i] < |m.next| && i < |m.next[prev[i]]| && prev[i] != n && m.next[n][i] == m.next[prev[i]][i]
    ensures var m2, levels2 := WithLink(m, prev[i], i, Some(n)), levels[i := levels[i] + {n}];
            Good(m2, levels2) && Linking(m2, levels2, n, height, prev, i + 1)
  {
    hide LastBelow, Links;
    PublishKeeps(m, levels, prev[i], i, n);
    var m2, levels2 := WithLink(m, prev[i], i, Some(n)), levels[i := levels[i] + {n}];
    forall l | i + 1 <= l < MAX_HEIGHT ensures LastBelow(m2, levels2[l], From(m.keys[n]), prev[l]) {
      OnlyKeys(m, m2, levels[l], From(m.keys[n]), prev[l]);
    }
  }

  lemma AtHead(m: Memory, levels: seq<set<nat>>, target: Target)
    requires Good(m, levels)
    ensures 1 <= m.maxHeight <= MAX_HEIGHT == |levels| && Reached(m, levels, target, HEAD, m.maxHeight - 1)
  {
  }

  lemma NullOrNode(m: Memory, levels: seq<set<nat>>, x: nat, l: nat)
    requires Good(m, levels) && Reached(m, levels, End, x, l) && x < |m.next| && l < |m.next[x]|
    ensures m.next[x][l].Some? <==> Passes(m, End, m.next[x][l])
  {
    LinkAt(m, levels, End, x, l);
  }

  lemma FirstIsHeld(m: Memory, levels: seq<set<nat>>, key: int, n: Option<nat>)
    requires Good(m, levels) && FirstFrom(m, levels[0], From(key), n)
    ensures n.Some? ==> n.value < |m.keys|
    ensures key in Contents(m, levels[0]) <==> n.Some? && m.keys[n.value] == key
  {
    hide Links, Nested;
    if key in Contents(m, levels[0]) {
      var x :| x in levels[0] && x < |m.keys| && m.keys[x] == key;
      assert !Below(m, x, From(key));
    }
  }

  // ---------------------------------------------------------------- the list

  class SkipList {
    var keys: seq<int>
    var next: seq<seq<Option<nat>>>
    var maxHeight: nat
    ghost var levels: seq<set<nat>>

    function Mem(): Memory
      reads this
    {
      Memory(keys, next, maxHeight)
    }

    ghost predicate Valid()
      reads this
    {
      Good(Mem(), levels)
    }

    ghost function Holds(): set<int>
      requires Valid()
      reads this
    {
      Contents(Mem(), levels[0])
    }

    constructor ()
      ensures Valid() && Holds() == {}
    {
      keys, next, maxHeight := [0], [seq(MAX_HEIGHT, _ => None)], 1;
      levels := seq(MAX_HEIGHT, _ => {});
    }

    /** The earliest node at or after `key`, and the node before it on every level in use. */
    method FindGreaterOrEqual(key: int) returns (n: Option<nat>, prev: seq<nat>)
      requires Valid()
      ensures FirstFrom(Mem(), levels[0], From(key), n)
      ensures |prev| == maxHeight <= |levels| && forall l :: 0 <= l < maxHeight ==> LastBelow(Mem(), levels[l], From(key), prev[l])
    {
      hide Good, Reached, Behind, FirstFrom, LastBelow;
      var x, level := HEAD, maxHeight - 1;
      AtHead(Mem(), levels, From(key));
      prev := seq(maxHeight, _ => HEAD);
      while true
        invariant 0 <= level < |prev| == maxHeight && Reached(Mem(), levels, From(key), x, level)
        invariant forall l :: level < l < maxHeight ==> LastBelow(Mem(), levels[l], From(key), prev[l])
        decreases level, |Ahead(Mem(), levels[0], x)|
      {
        SearchStep(Mem(), levels, From(key), x, level);
        n := next[x][level];
        if Passes(Mem(), From(key), n) {
          MovedOn(Mem(), levels, From(key), x, level);
          x := n.value;
        } else {
          prev := prev[level := x];
          if level == 0 {
            return;
          }
          level := level - 1;
        }
      }
    }

    /** The latest node before `key`, or the head. */
    method FindLessThan(key: int) returns (x: nat)
      requires Valid()
      ensures LastBelow(Mem(), levels[0], From(key), x)
    {
      hide Good, Reached, Behind, FirstFrom, LastBelow;
      x := HEAD;
      var level := maxHeight - 1;
      AtHead(Mem(), levels, From(key));
      while true
        invariant 0 <= level < |levels| && Reached(Mem(), levels, From(key), x, level)
        decreases level, |Ahead(Mem(), levels[0], x)|
      {
        SearchStep(Mem(), levels, From(key), x, level);
        var n := next[x][level];
        if !Passes(Mem(), From(key), n) {
          if level == 0 {
            return;
          }
          level := level - 1;
        } else {
          MovedOn(Mem(), levels, From(key), x, level);
          x := n.value;
        }
      }
    }

    /** The last node, or the head. */
    method FindLast() returns (x: nat)
      requires Valid()
      ensures LastBelow(Mem(), levels[0], End, x)
    {
      hide Good, Reached, Behind, FirstFrom, LastBelow, Passes;
      x := HEAD;
      var level := maxHeight - 1;
      AtHead(Mem(), levels, End);
      while true
        invariant 0 <= level < |levels| && Reached(Mem(), levels, End, x, level)
        decreases level, |Ahead(Mem(), levels[0], x)|
      {
        SearchStep(Mem(), levels, End, x, level);
        NullOrNode(Mem(), levels, x, level);
        var n := next[x][level];
        if n == None {
          if level == 0 {
            return;
          }
          level := level - 1;
        } else {
          MovedOn(Mem(), levels, End, x, level);
          x := n.value;
        }
      }
    }

    /** The random height is a parameter, and so is what the new node's memory holds at first. */
    method Insert(key: int, height: nat, links: seq<Option<nat>>)
      requires Valid() && key !in Holds() && 1 <= height <= MAX_HEIGHT && |links| == height
      modifies this
      ensures Valid() && Holds() == old(Holds()) + {key}
      ensures keys == old(keys) + [key] && levels[0] == old(levels[0]) + {|old(keys)|}
    {
      hide Good, Linking, LastBelow, FirstFrom, Links;
      var _, prev := FindGreaterOrEqual(key);
      AtHead(Mem(), levels, From(key));
      prev := prev + seq(MAX_HEIGHT - maxHeight, _ => HEAD);
      StartLinking(Mem(), levels, key, prev, height, links);
      if height > maxHeight {
        maxHeight := height;
      }
      var x := |keys|;
      keys, next := keys + [key], next + [links];
      var i := 0;
      while i < height
        invariant 0 <= i <= height && Good(Mem(), levels) && Linking(Mem(), levels, x, height, prev, i)
        invariant keys == old(keys) + [key] && |levels| > 0
        invariant levels[0] == if i == 0 then old(levels[0]) else old(levels[0]) + {x}
      {
        PrevHasLink(Mem(), levels, x, height, prev, i);
        CopyStep(Mem(), levels, x, height, prev, i);
        next := next[x := next[x][i := next[prev[i]][i]]];
        PublishStep(Mem(), levels, x, height, prev, i);
        next := next[prev[i] := next[prev[i]][i := Some(x)]];
        levels := levels[i := levels[i] + {x}];
        i := i + 1;
      }
      OneMoreKey(old(Mem()), old(levels), Mem(), levels[0], key);
    }

    method Contains(key: int) returns (r: bool)
      requires Valid()
      ensures r <==> key in Holds()
    {
      hide Good, LastBelow, FirstFrom;
      var n, _ := FindGreaterOrEqual(key);
      FirstIsHeld(Mem(), levels, key, n);
      r := n.Some? && keys[n.value] == key;
    }
  }

  lemma OneMoreKey(m: Memory, levels: seq<set<nat>>, m2: Memory, s: set<nat>, key: int)
    requires Good(m, levels) && m2.keys == m.keys + [key] && s == levels[0] + {|m.keys|}
    ensures Contents(m2, s) == Contents(m, levels[0]) + {key}
  {
    hide Links, Nested;
    forall k | k in Contents(m, levels[0]) + {key} ensures k in Contents(m2, s) {
      if k == key {
        assert m2.keys[|m.keys|] == key;
      } else {
        var x :| x in levels[0] && x < |m.keys| && m.keys[x] == k;
        assert m2.keys[x] == k;
      }
    }
  }
}
