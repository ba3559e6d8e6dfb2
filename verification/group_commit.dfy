/** Group commit: writers queue up, the first of them writes for a group, and the others are released
    with its status (Write and BuildBatchGroup of db/db_impl.cc). */
module GroupCommits {
  import opened DbFormat
  import opened WriteBatches

  /** What a call of Write asks for; no batch asks for a new memtable. `size` is the size of the batch
      in bytes. */
  datatype Request = Request(batch: Option<seq<Update>>, size: nat, sync: bool)

  // ---------------------------------------------------------------- the group

  function MaxSize(first: nat): nat {
    if first <= 0x2_0000 then first + 0x2_0000 else 0x10_0000
  }

  function UpdatesOf(r: Request): seq<Update> {
    if r.batch.Some? then r.batch.value else []
  }

  function SizeOf(r: Request): nat {
    if r.batch.Some? then r.size else 0
  }

  /** The updates of the first `n` requests, one after the other. */
  function Together(rs: seq<Request>, n: nat): seq<Update>
    requires n <= |rs|
  {
    if n == 0 then [] else Together(rs, n - 1) + UpdatesOf(rs[n - 1])
  }

  function TotalSize(rs: seq<Request>, n: nat): nat
    requires n <= |rs|
  {
    if n == 0 then 0 else TotalSize(rs, n - 1) + SizeOf(rs[n - 1])
  }

  /** Request `i` may join the group that request 0 leads. */
  ghost predicate Joins(rs: seq<Request>, i: nat)
    requires 0 < i < |rs|
  {
    !(rs[i].sync && !rs[0].sync) && (rs[i].batch.Some? ==> TotalSize(rs, i + 1) <= MaxSize(rs[0].size))
  }

  /** The group is as long as it can be. */
  ghost predicate IsGroup(rs: seq<Request>, n: nat) {
    && 0 < n <= |rs| && (forall i :: 0 < i < n ==> Joins(rs, i)) && (n < |rs| ==> !Joins(rs, n))
  }

  /** One writer in the queue. */
  datatype Writer = Writer(batch: WriteBatch?, sync: bool)

  ghost function RequestOf(w: Writer): Request
    reads w.batch
  {
    if w.batch == null then Request(None, 0, w.sync) else Request(Some(w.batch.updates), |w.batch.rep|, w.sync)
  }

  ghost function Requests(ws: seq<Writer>): (rs: seq<Request>)
    reads set i | 0 <= i < |ws| && ws[i].batch != null :: ws[i].batch
    ensures |rs| == |ws| && forall i :: 0 <= i < |ws| ==> rs[i] == RequestOf(ws[i])
  {
    if ws == [] then [] else Requests(ws[..|ws| - 1]) + [RequestOf(ws[|ws| - 1])]
  }

  lemma MaxSizeIs()
    ensures forall n: nat :: MaxSize(n) == if n <= 0x2_0000 then n + 0x2_0000 else 0x10_0000
  {
  }

  lemma FirstOnly(rs: seq<Request>)
    requires |rs| > 0
    ensures Together(rs, 1) == UpdatesOf(rs[0]) && TotalSize(rs, 1) == SizeOf(rs[0])
  {
    assert Together(rs, 0) == [] && [] + UpdatesOf(rs[0]) == UpdatesOf(rs[0]);
  }

  lemma OneMore(rs: seq<Request>, i: nat)
    requires i < |rs|
    ensures Together(rs, i + 1) == Together(rs, i) + UpdatesOf(rs[i]) && TotalSize(rs, i + 1) == TotalSize(rs, i) + SizeOf(rs[i])
    ensures rs[i].batch.None? ==> Together(rs, i + 1) == Together(rs, i)
  {
    assert Together(rs, i) + [] == Together(rs, i);
  }

  /** The group that the first writer leads: how far it goes, and all its updates in one batch. The
      callers' batches are not changed. */
  method BuildBatchGroup(writers: seq<Writer>, tmpBatch: WriteBatch) returns (result: WriteBatch, lastWriter: nat)
    requires |writers| > 0 && writers[0].batch != null && tmpBatch.Valid() && tmpBatch.updates == []
    requires forall i :: 0 <= i < |writers| && writers[i].batch != null ==> writers[i].batch.Valid() && writers[i].batch != tmpBatch
    modifies tmpBatch
    ensures lastWriter < |writers| && IsGroup(old(Requests(writers)), lastWriter + 1)
    ensures result.Valid() && result.updates == Together(old(Requests(writers)), lastWriter + 1)
    ensures result == writers[0].batch || result == tmpBatch
  {
    hide WriteBatch.Valid, Requests, Together, TotalSize, MaxSize;
    MaxSizeIs();
    ghost var rs := Requests(writers);
    var first := writers[0];
    result := first.batch;
    var size := |first.batch.rep|;
    var maxSize := 0x10_0000;
    if size <= 0x2_0000 {
      maxSize := size + 0x2_0000;
    }
    lastWriter := 0;
    var i := 1;
    FirstOnly(rs);
    while i < |writers|
      invariant 1 <= i <= |writers| && lastWriter == i - 1 && Requests(writers) == rs
      invariant size == TotalSize(rs, i) && maxSize == MaxSize(rs[0].size)
      invariant forall j :: 0 < j < i ==> Joins(rs, j)
      invariant result.Valid() && result.updates == Together(rs, i)
      invariant (result == first.batch && tmpBatch.Valid() && tmpBatch.updates == []) || result == tmpBatch
      invariant forall j :: 0 <= j < |writers| && writers[j].batch != null ==> writers[j].batch.Valid()
    {
      var w := writers[i];
      assert rs[i] == RequestOf(w) && rs[0] == RequestOf(first);
      OneMore(rs, i);
      if w.sync && !first.sync {
        break;
      }
      if w.batch != null {
        size := size + |w.batch.rep|;
        if size > maxSize {
          break;
        }
        if result == first.batch {
          result := tmpBatch;
          result.Append(first.batch);
        }
        result.Append(w.batch);
      }
      lastWriter := i;
      i := i + 1;
    }
  }
}
