/** The skip list under one writer and any number of readers that take no lock: every load and
    every store is a step of its own, and the steps interleave in any order (db/skiplist.h). */
module SkipListReaders {
  import opened DbFormat
  import opened SkipLists

  /** Insert: the search, then the height and the new node, then level by level the two stores. */
  datatype Writer =
    | Resting
    | Finding(key: int, x: nat, level: nat, prev: seq<nat>)
    | Located(key: int, prev: seq<nat>)
    | Linked(n: nat, height: nat, prev: seq<nat>, i: nat, copied: bool)

  /** The searches of an iterator: Seek, Prev (FindLessThan) and SeekToLast (FindLast). */
  datatype Op = Seek(key: int) | Prev(key: int) | SeekToLast

  /** An iterator stands at a node or nowhere, or it is in the middle of a search. */
  datatype Reader = At(node: Option<nat>) | Searching(op: Op, x: nat, level: nat)

  /** `levels` is what the links stand for; no step looks at it. */
  datatype State = State(m: Memory, levels: seq<set<nat>>, writer: Writer, readers: map<nat, Reader>)

  datatype Step =
    | StartInsert(key: int) | FindPrev | AddNode(height: nat, links: seq<Option<nat>>) | CopyLink | Publish
    | Open(id: nat) | SeekToFirst(id: nat) | Next(id: nat) | Begin(id: nat, op: Op) | Advance(id: nat)

  function TargetOf(op: Op): Target {
    if op.SeekToLast? then End else From(op.key)
  }

  /** What one load does to a search that is at `x` on level `level`. */
  function Moved(m: Memory, op: Op, x: nat, level: nat): Reader
    requires x < |m.next| && level < |m.next[x]|
  {
    var next := m.next[x][level];
    if Passes(m, TargetOf(op), next) then Searching(op, next.value, level)
    else if level > 0 then Searching(op, x, level - 1)
    else if op.Seek? then At(next)
    else if x == HEAD then At(None) else At(Some(x))
  }

  // ---------------------------------------------------------------- the steps

  ghost predicate WriterStep(s: State, step: Step, t: State) {
    match step
    case StartInsert(key) =>
      // as the callers promise, the key is not in the list
      && s.writer.Resting? && |s.levels| == MAX_HEIGHT && key !in Contents(s.m, s.levels[0]) && s.m.maxHeight > 0
      && t == s.(writer := Finding(key, HEAD, s.m.maxHeight - 1, seq(MAX_HEIGHT, _ => HEAD)))
    case FindPrev =>
      && s.writer.Finding?
      && var w := s.writer;
      && w.x < |s.m.next| && w.level < |s.m.next[w.x]| && w.level < |w.prev|
      && var next := s.m.next[w.x][w.level];
      && t == s.(writer :=
           if Passes(s.m, From(w.key), next) then w.(x := next.value)
           else if w.level > 0 then w.(prev := w.prev[w.level := w.x], level := w.level - 1)
           else Located(w.key, w.prev[0 := w.x]))
    case AddNode(height, links) =>
      && s.writer.Located? && 1 <= height <= MAX_HEIGHT && |links| == height
      && t == s.(m := WithNode(WithHeight(s.m, height), s.writer.key, links),
                 writer := Linked(|s.m.keys|, height, s.writer.prev, 0, false))
    case CopyLink =>
      && s.writer.Linked? && s.writer.i < s.writer.height && !s.writer.copied
      && var w := s.writer;
      && LinksThere(s.m, w)
      && t == s.(m := WithLink(s.m, w.n, w.i, s.m.next[w.prev[w.i]][w.i]), writer := w.(copied := true))
    case Publish =>
      && s.writer.Linked? && s.writer.i < s.writer.height && s.writer.copied
      && var w := s.writer;
      && LinksThere(s.m, w) && w.i < |s.levels|
      && t == s.(m := WithLink(s.m, w.prev[w.i], w.i, Some(w.n)),
                 levels := s.levels[w.i := s.levels[w.i] + {w.n}],
                 writer := if w.i + 1 == w.height then Resting else w.(i := w.i + 1, copied := false))
    case _ => false
  }

  predicate LinksThere(m: Memory, w: Writer)
    requires w.Linked?
  {
    w.i < |w.prev| && w.n < |m.next| && w.i < |m.next[w.n]| && w.prev[w.i] < |m.next| && w.i < |m.next[w.prev[w.i]]| && w.prev[w.i] != w.n
  }

  predicate StandsAt(s: State, id: nat) {
    id in s.readers && s.readers[id].At?
  }

  predicate ReaderStep(s: State, step: Step, t: State) {
    match step
    case Open(id) =>
      id !in s.readers && t == s.(readers := s.readers[id := At(None)])
    case SeekToFirst(id) =>
      && StandsAt(s, id) && |s.m.next| > 0 && |s.m.next[HEAD]| > 0
      && t == s.(readers := s.readers[id := At(s.m.next[HEAD][0])])
    case Next(id) =>
      && StandsAt(s, id) && s.readers[id].node.Some? && s.readers[id].node.value < |s.m.next| && |s.m.next[s.readers[id].node.value]| > 0
      && t == s.(readers := s.readers[id := At(s.m.next[s.readers[id].node.value][0])])
    case Begin(id, op) =>
      && StandsAt(s, id) && s.m.maxHeight > 0
      && (op.Prev? ==> s.readers[id].node.Some? && s.readers[id].node.value < |s.m.keys| && op.key == s.m.keys[s.readers[id].node.value])
      && t == s.(readers := s.readers[id := Searching(op, HEAD, s.m.maxHeight - 1)])
    case Advance(id) =>
      && id in s.readers && s.readers[id].Searching?
      && var r := s.readers[id];
      && r.x < |s.m.next| && r.level < |s.m.next[r.x]|
      && t == s.(readers := s.readers[id := Moved(s.m, r.op, r.x, r.level)])
    case _ => false
  }

  ghost predicate Moves(s: State, step: Step, t: State) {
    WriterStep(s, step, t) || ReaderStep(s, step, t)
  }

  // ---------------------------------------------------------------- what always holds

  ghost predicate ReaderOk(m: Memory, levels: seq<set<nat>>, r: Reader)
    requires |levels| == MAX_HEIGHT
  {
    match r
    case At(n) => n.Some? ==> n.value in levels[0]
    case Searching(op, x, level) => Reached(m, levels, TargetOf(op), x, level)
  }

  ghost predicate ReadersOk(m: Memory, levels: seq<set<nat>>, readers: map<nat, Reader>)
    requires |levels| == MAX_HEIGHT
  {
    forall id :: id in readers ==> ReaderOk(m, levels, readers[id])
  }

  ghost predicate WriterOk(s: State)
    requires |s.levels| == MAX_HEIGHT
  {
    match s.writer
    case Resting => true
    case Finding(key, x, level, prev) =>
      && key !in Contents(s.m, s.levels[0]) && |prev| == MAX_HEIGHT && level < s.m.maxHeight && Reached(s.m, s.levels, From(key), x, level)
      && PrevFrom(s, key, prev, level + 1)
    case Located(key, prev) =>
      key !in Contents(s.m, s.levels[0]) && |prev| == MAX_HEIGHT && PrevFrom(s, key, prev, 0)
    case Linked(n, height, prev, i, copied) =>
      && i < height && Linking(s.m, s.levels, n, height, prev, i)
      && (copied ==> LinksThere(s.m, s.writer) && s.m.next[n][i] == s.m.next[prev[i]][i])
  }

  /** From level `l` on, `prev` is what Insert needs: the head on the levels not in use. */
  ghost predicate PrevFrom(s: State, key: int, prev: seq<nat>, l: nat)
    requires |s.levels| == |prev| == MAX_HEIGHT
  {
    forall k :: l <= k < MAX_HEIGHT ==> if k < s.m.maxHeight then LastBelow(s.m, s.levels[k], From(key), prev[k]) else prev[k] == HEAD
  }

  ghost predicate Inv(s: State) {
    Good(s.m, s.levels) && WriterOk(s) && ReadersOk(s.m, s.levels, s.readers)
  }

  predicate Starts(s: State) {
    && s.m == Memory([0], [seq(MAX_HEIGHT, _ => None)], 1) && s.levels == seq(MAX_HEIGHT, _ => {})
    && s.writer == Resting && s.readers == map[]
  }

  lemma StartIsOk(s: State)
    requires Starts(s)
    ensures Inv(s)
  {
  }

  lemma GoodLevels(s: State)
    requires Good(s.m, s.levels)
    ensures |s.levels| == MAX_HEIGHT
  {
  }

  // ---------------------------------------------------------------- the list only grows

  ghost predicate Grows(s: State, t: State) {
    s.m.keys <= t.m.keys && |s.levels| == |t.levels| == MAX_HEIGHT && forall l :: 0 <= l < MAX_HEIGHT ==> s.levels[l] <= t.levels[l]
  }

  lemma StepGrows(s: State, step: Step, t: State)
    requires Inv(s) && Moves(s, step, t)
    ensures Grows(s, t)
  {
    hide Links, Nested, Nodes, WriterOk, ReadersOk, Contents, Passes;
  }

  lemma ReadersStay(s: State, t: State)
    requires |s.levels| == MAX_HEIGHT && Grows(s, t) && ReadersOk(s.m, s.levels, s.readers)
    ensures ReadersOk(t.m, t.levels, s.readers)
  {
    forall id | id in s.readers ensures ReaderOk(t.m, t.levels, s.readers[id]) {
      assert ReaderOk(s.m, s.levels, s.readers[id]);
    }
  }

  // ---------------------------------------------------------------- every step keeps it

  lemma StepKeepsInv(s: State, step: Step, t: State)
    requires Inv(s) && Moves(s, step, t)
    ensures Inv(t)
  {
    hide Good, WriterOk, ReadersOk, WriterStep, ReaderStep, Grows;
    GoodLevels(s);
    if WriterStep(s, step, t) {
      StepGrows(s, step, t);
      ReadersStay(s, t);
      WriterKeeps(s, step, t);
    } else {
      ReaderKeeps(s, step, t);
    }
  }

  lemma WriterKeeps(s: State, step: Step, t: State)
    requires Inv(s) && WriterStep(s, step, t)
    ensures Good(t.m, t.levels) && WriterOk(t) && t.readers == s.readers
  {
    hide Good, ReadersOk, Linking, LastBelow, Reached, Contents, Passes;
    GoodLevels(s);
    match step
    case StartInsert(key) => AtHead(s.m, s.levels, From(key));
    case FindPrev => SearchStep(s.m, s.levels, From(s.writer.key), s.writer.x, s.writer.level);
    case AddNode(height, links) =>
      StartLinking(s.m, s.levels, s.writer.key, s.writer.prev, height, links);
    case CopyLink =>
      var w := s.writer;
      PrevHasLink(s.m, s.levels, w.n, w.height, w.prev, w.i);
      CopyStep(s.m, s.levels, w.n, w.height, w.prev, w.i);
    case Publish =>
      var w := s.writer;
      PrevHasLink(s.m, s.levels, w.n, w.height, w.prev, w.i);
      PublishStep(s.m, s.levels, w.n, w.height, w.prev, w.i);
    case _ => assert false;
  }

  lemma ReaderKeeps(s: State, step: Step, t: State)
    requires Inv(s) && ReaderStep(s, step, t)
    ensures Inv(t)
  {
    hide Good, WriterOk, ReadersOk, Reached, FirstBehind, Passes;
    GoodLevels(s);
    SameWriterIn(s, step, t);
    match step
    case Open(id) => OneChanged(s, id, At(None));
    case SeekToFirst(id) =>
      FirstLoad(s.m, s.levels, HEAD);
      OneChanged(s, id, t.readers[id]);
    case Next(id) =>
      OneOk(s, id);
      FirstLoad(s.m, s.levels, s.readers[id].node.value);
      OneChanged(s, id, t.readers[id]);
    case Begin(id, op) =>
      AtHead(s.m, s.levels, TargetOf(op));
      OneChanged(s, id, t.readers[id]);
    case Advance(id) =>
      OneOk(s, id);
      SearchArrives(s.m, s.levels, s.readers[id]);
      OneChanged(s, id, t.readers[id]);
    case _ => assert false;
  }

  lemma SameWriterIn(s: State, step: Step, t: State)
    requires |s.levels| == MAX_HEIGHT && WriterOk(s) && ReaderStep(s, step, t)
    ensures t == s.(readers := t.readers) && WriterOk(t)
  {
    hide WriterOk, Passes;
    SameWriter(s, t);
  }

  lemma OneOk(s: State, id: nat)
    requires |s.levels| == MAX_HEIGHT && ReadersOk(s.m, s.levels, s.readers) && id in s.readers
    ensures ReaderOk(s.m, s.levels, s.readers[id])
  {
  }

  lemma OneChanged(s: State, id: nat, r: Reader)
    requires |s.levels| == MAX_HEIGHT && ReadersOk(s.m, s.levels, s.readers) && ReaderOk(s.m, s.levels, r)
    ensures ReadersOk(s.m, s.levels, s.readers[id := r])
  {
    hide ReaderOk;
  }

  lemma SameWriter(s: State, t: State)
    requires |s.levels| == MAX_HEIGHT && WriterOk(s) && t == s.(readers := t.readers)
    ensures WriterOk(t)
  {
  }

  lemma FirstLoad(m: Memory, levels: seq<set<nat>>, x: nat)
    requires Good(m, levels) && (x == HEAD || x in levels[0])
    ensures x < |m.next| && |m.next[x]| > 0 && FirstBehind(m, levels[0], x, m.next[x][0])
    ensures m.next[x][0].Some? ==> m.next[x][0].value in levels[0]
  {
    hide FirstBehind;
    assert LinkOk(m, 0, levels[0], x);
    LinkInLevel(m, levels[0], x, m.next[x][0]);
  }

  /** Where an operation of an iterator comes to stand, among the nodes linked at the lowest level. */
  ghost predicate Answers(m: Memory, nodes: set<nat>, op: Op, r: Option<nat>) {
    if op.Seek? then FirstFrom(m, nodes, TargetOf(op), r)
    else (r.Some? ==> r.value != HEAD) && LastBelow(m, nodes, TargetOf(op), if r.Some? then r.value else HEAD)
  }

  lemma SearchArrives(m: Memory, levels: seq<set<nat>>, r: Reader)
    requires Good(m, levels) && r.Searching? && Reached(m, levels, TargetOf(r.op), r.x, r.level)
    ensures r.x < |m.next| && r.level < |m.next[r.x]|
    ensures ReaderOk(m, levels, Moved(m, r.op, r.x, r.level))
    ensures Moved(m, r.op, r.x, r.level).At? ==> Answers(m, levels[0], r.op, Moved(m, r.op, r.x, r.level).node)
  {
    SearchStep(m, levels, TargetOf(r.op), r.x, r.level);
    hide Good, Passes, FirstFrom, LastBelow;
    NodeOrNone(m, levels[r.level], TargetOf(r.op), r.x, m.next[r.x][r.level]);
  }

  lemma NodeOrNone(m: Memory, s: set<nat>, target: Target, x: nat, n: Option<nat>)
    ensures FirstFrom(m, s, target, n) && n.Some? ==> n.value in s
    ensures LastBelow(m, s, target, x) && x != HEAD ==> x in s
  {
  }

  // ---------------------------------------------------------------- what the readers see

  /** A search ends with the right answer for the list as it is at its last load. */
  lemma SearchIsExact(s: State, id: nat, t: State)
    requires Inv(s) && ReaderStep(s, Advance(id), t) && t.readers[id].At?
    ensures Answers(s.m, s.levels[0], s.readers[id].op, t.readers[id].node)
  {
    hide Good, WriterOk, Answers, Reached;
    GoodLevels(s);
    OneOk(s, id);
    SearchArrives(s.m, s.levels, s.readers[id]);
  }

  /** Next goes to the first node behind, SeekToFirst to the first of all. */
  lemma NextIsExact(s: State, step: Step, id: nat, t: State)
    requires Inv(s) && (step == Next(id) || step == SeekToFirst(id)) && ReaderStep(s, step, t)
    ensures FirstBehind(s.m, s.levels[0], if step.Next? then s.readers[id].node.value else HEAD, t.readers[id].node)
  {
    hide Good, WriterOk, FirstBehind;
    GoodLevels(s);
    OneOk(s, id);
    FirstLoad(s.m, s.levels, if step.Next? then s.readers[id].node.value else HEAD);
  }

  /** An insertion takes effect at one store: the one that links the new node at the lowest level. */
  lemma InsertIsAtomic(s: State, step: Step, t: State)
    requires Inv(s) && Moves(s, step, t)
    ensures step.Publish? && s.writer.i == 0 ==>
              s.writer.n !in s.levels[0] && t.levels[0] == s.levels[0] + {s.writer.n} && t.m.keys == s.m.keys
    ensures !(step.Publish? && s.writer.i == 0) ==> t.levels[0] == s.levels[0]
  {
    hide Good, ReadersOk, Contents, LastBelow, Reached, Passes;
    GoodLevels(s);
  }

  // ---------------------------------------------------------------- runs

  ghost predicate IsRun(states: seq<State>, steps: seq<Step>) {
    |states| == |steps| + 1 && Starts(states[0]) && forall i :: 0 <= i < |steps| ==> Moves(states[i], steps[i], states[i + 1])
  }

  lemma {:induction false} RunKeepsInv(states: seq<State>, steps: seq<Step>, n: nat)
    requires IsRun(states, steps) && n <= |steps|
    ensures Inv(states[n])
  {
    hide Inv, Moves;
    if n == 0 {
      StartIsOk(states[0]);
    } else {
      RunKeepsInv(states, steps, n - 1);
      StepKeepsInv(states[n - 1], steps[n - 1], states[n]);
    }
  }

  lemma {:induction false} RunGrows(states: seq<State>, steps: seq<Step>, a: nat, b: nat)
    requires IsRun(states, steps) && a <= b <= |steps|
    ensures Grows(states[a], states[b])
    decreases b
  {
    hide Inv, Moves;
    RunKeepsInv(states, steps, b);
    if a == b {
      InvLevels(states[b]);
    } else {
      RunGrows(states, steps, a, b - 1);
      RunKeepsInv(states, steps, b - 1);
      StepGrows(states[b - 1], steps[b - 1], states[b]);
    }
  }

  lemma InvLevels(s: State)
    requires Inv(s)
    ensures |s.levels| == MAX_HEIGHT
  {
  }

  /** A search that begins with step `a` and ends with step `b`. */
  ghost predicate SearchesDuring(states: seq<State>, steps: seq<Step>, id: nat, op: Op, a: nat, b: nat)
    requires |states| == |steps| + 1
  {
    && a < b < |steps| && steps[a] == Begin(id, op) && steps[b] == Advance(id) && StandsAt(states[b + 1], id)
    && forall i :: a < i < b ==> steps[i] != Advance(id) || !StandsAt(states[i + 1], id)
  }

  lemma {:induction false} StillSearching(states: seq<State>, steps: seq<Step>, id: nat, op: Op, a: nat, b: nat, i: nat)
    requires IsRun(states, steps) && SearchesDuring(states, steps, id, op, a, b) && a < i <= b
    ensures id in states[i].readers && states[i].readers[id].Searching? && states[i].readers[id].op == op
  {
    assert Moves(states[i - 1], steps[i - 1], states[i]);
    if i > a + 1 {
      StillSearching(states, steps, id, op, a, b, i - 1);
      OneReader(states[i - 1], steps[i - 1], states[i], id);
    }
  }

  lemma NotOfWriter(s: State, step: Step, t: State)
    requires WriterStep(s, step, t)
    ensures !step.Begin? && !step.Advance? && t.readers == s.readers
  {
  }

  lemma OneReader(s: State, step: Step, t: State, id: nat)
    requires Moves(s, step, t) && id in s.readers && s.readers[id].Searching?
    ensures id in t.readers
    ensures step != Advance(id) ==> t.readers[id] == s.readers[id]
    ensures t.readers[id].Searching? ==> t.readers[id].op == s.readers[id].op
  {
    hide Passes, Contents;
  }

  /** No search misses a node that was in the list when it began: whatever was linked then is not
      passed over, and what it finds is in the list. */
  lemma NothingIsMissed(states: seq<State>, steps: seq<Step>, id: nat, op: Op, a: nat, b: nat, y: nat)
    requires IsRun(states, steps) && SearchesDuring(states, steps, id, op, a, b)
    requires |states[a].levels| > 0 && y in states[a].levels[0]
    ensures Inv(states[a]) && Inv(states[b]) && y in states[b].levels[0] && y < |states[a].m.keys| <= |states[b].m.keys|
    ensures states[a].m.keys[y] == states[b].m.keys[y]
    ensures var r, m := states[b + 1].readers[id].node, states[b].m;
            && Answers(m, states[b].levels[0], op, r)
            && (op.Seek? && m.keys[y] >= op.key ==> r.Some? && r.value in states[b].levels[0] && op.key <= m.keys[r.value] <= m.keys[y])
            && (op.Prev? && m.keys[y] < op.key ==> r.Some? && r.value in states[b].levels[0] && m.keys[y] <= m.keys[r.value] < op.key)
            && (op.SeekToLast? ==> r.Some? && r.value in states[b].levels[0] && m.keys[y] <= m.keys[r.value])
  {
    RunKeepsInv(states, steps, a);
    RunKeepsInv(states, steps, b);
    RunGrows(states, steps, a, b);
    StillSearching(states, steps, id, op, a, b, b);
    assert Moves(states[b], steps[b], states[b + 1]);
    if WriterStep(states[b], steps[b], states[b + 1]) {
      NotOfWriter(states[b], steps[b], states[b + 1]);
    }
    SearchIsExact(states[b], id, states[b + 1]);
    NodeKeys(states[a], y);
    hide Inv, WriterStep, ReaderStep;
    NotPassed(states[b].m, states[b].levels[0], op, states[b + 1].readers[id].node, y);
  }

  lemma NodeKeys(s: State, y: nat)
    requires Inv(s) && y in s.levels[0]
    ensures y < |s.m.keys|
  {
  }

  lemma NotPassed(m: Memory, nodes: set<nat>, op: Op, r: Option<nat>, y: nat)
    requires Answers(m, nodes, op, r) && y in nodes && y < |m.keys|
    ensures r.Some? ==> r.value < |m.keys|
    ensures op.Seek? && m.keys[y] >= op.key ==> r.Some? && r.value in nodes && op.key <= m.keys[r.value] <= m.keys[y]
    ensures op.Prev? && m.keys[y] < op.key ==> r.Some? && r.value in nodes && m.keys[y] <= m.keys[r.value] < op.key
    ensures op.SeekToLast? ==> r.Some? && r.value in nodes && m.keys[y] <= m.keys[r.value]
  {
  }
}
