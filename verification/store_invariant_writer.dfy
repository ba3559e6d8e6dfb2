/** The writer's steps keep the invariant. */
module WriterKeepsInvariant {
  import opened DbFormat
  import opened Versions
  import opened Builders
  import opened Databases
  import opened Recovery
  import opened StoreSteps
  import opened StoreInvariant

  lemma EntriesOfOneMore(bs: seq<Batch>, b: Batch)
    ensures LogEntries(bs + [b]) == LogEntries(bs) + BatchEntries(b)
  {
    hide BatchEntries;
    assert forall c :: c in bs + [b] <==> c in bs || c == b;
  }

  lemma LogGrows(logs: map<nat, seq<Batch>>, current: set<Entry>, older: set<Entry>, ln: nat, lf: nat, b: Batch)
    requires LogsOk(logs, current, older, ln, lf)
    ensures LogsOk(logs[lf := logs[lf] + [b]], current + BatchEntries(b), older, ln, lf)
  {
    EntriesOfOneMore(logs[lf], b);
    hide LogEntries, BatchEntries;
    var after := logs[lf := logs[lf] + [b]];
    SameBetween(after, logs, ln, lf);
  }

  lemma LogCreated(logs: map<nat, seq<Batch>>, current: set<Entry>, older: set<Entry>, ln: nat, lf: nat, n: nat)
    requires LogsOk(logs, current, older, ln, lf) && n > lf
    ensures LogsOk(logs[n := []], current, older, ln, lf)
  {
    hide LogEntries;
    SameBetween(logs[n := []], logs, ln, lf);
  }

  lemma LogSwitched(logs: map<nat, seq<Batch>>, current: set<Entry>, ln: nat, lf: nat, n: nat)
    requires LogsOk(logs, current, {}, ln, lf) && lf < n && n in logs && logs[n] == []
    ensures LogsOk(logs, {}, current, ln, n)
  {
    NoBatches();
    hide LogEntries;
    assert LogsBetween(logs, ln, lf) == {};
    forall e | e in LogsBetween(logs, ln, n) ensures e in current {
      var k :| k in logs && ln <= k < n && e in LogEntries(logs[k]);
      assert k < lf ==> e in LogsBetween(logs, ln, lf);
    }
    assert forall e :: e in current ==> lf in logs && ln <= lf < n && e in LogEntries(logs[lf]);
  }

  lemma LastGrows(logs: map<nat, seq<Batch>>, from: nat, base: nat, last: nat, lf: nat, b: Batch)
    requires LastOf(logs, from, base, last) && lf in logs && from <= lf && b.sequence == last + 1
    ensures LastOf(logs[lf := logs[lf] + [b]], from, base, last + |b.ops|)
  {
    var after := logs[lf := logs[lf] + [b]];
    assert b in after[lf] && End(b) == last + |b.ops| + 1;
    forall n, c | n in after && from <= n && c in after[n] ensures End(c) <= last + |b.ops| + 1 {
      assert c == b || (n in logs && c in logs[n]);
    }
  }

  lemma LastWithEmptyLog(logs: map<nat, seq<Batch>>, from: nat, base: nat, last: nat, n: nat)
    requires LastOf(logs, from, base, last) && (n in logs ==> logs[n] == [])
    ensures LastOf(logs[n := []], from, base, last)
  {
    var after := logs[n := []];
    if base != last {
      var k, b :| k in logs && from <= k && b in logs[k] && End(b) == last + 1;
      assert k in after && b in after[k];
    }
  }

  lemma LogBatchKeeps(s: State, b: Batch, t: State)
    requires Inv(s) && WriterStep(s, LogBatch(b), t)
    ensures Inv(t)
  {
    hide ManifestOk, TablesOk, LogsOk, LastOf, BatchEntries, FreshNumber, OnDisk, EditApplied, InputsOk, OutputNumbers;
    var lf := s.logfileNumber;
    LogBounds(s.disk.logs, s.mem + InFlight(s), ImmSet(s), s.logNumber, lf);
    LogGrows(s.disk.logs, s.mem + InFlight(s), ImmSet(s), s.logNumber, lf, b);
    LastGrows(s.disk.logs, DurableLog(s), LastSequenceOf(s.disk.manifest).value, DurableSequence(s), lf, b);
    if s.applying.Apply? && !s.applying.appended {
      LastGrows(s.disk.logs, s.applying.record.logNumber.value, s.applying.record.lastSequence.value, DurableSequence(s), lf, b);
    }
    assert s.mem + {} + BatchEntries(b) == s.mem + BatchEntries(b);
    assert b in t.disk.logs[lf];
  }

  lemma ApplyBatchKeeps(s: State, t: State)
    requires Inv(s) && (WriterStep(s, ApplyBatch, t) || WriterStep(s, Publish, t))
    ensures Inv(t)
  {
    hide ManifestOk, TablesOk, LogsOk, LastOf, BatchEntries, FreshNumber, OnDisk, EditApplied, InputsOk, OutputNumbers;
    assert t.mem + InFlight(t) == s.mem + InFlight(s);
  }

  lemma CreateLogKeeps(s: State, t: State)
    requires Inv(s) && WriterStep(s, CreateLog, t)
    ensures Inv(t)
  {
    hide ManifestOk, TablesOk, LogsOk, LastOf, BatchEntries, FreshNumber, OnDisk, EditApplied, InputsOk, OutputNumbers;
    LogBounds(s.disk.logs, s.mem + InFlight(s), ImmSet(s), s.logNumber, s.logfileNumber);
    LogCreated(s.disk.logs, s.mem + InFlight(s), ImmSet(s), s.logNumber, s.logfileNumber, s.nextFile);
    LastWithEmptyLog(s.disk.logs, DurableLog(s), LastSequenceOf(s.disk.manifest).value, DurableSequence(s), s.nextFile);
    if s.applying.Apply? && !s.applying.appended {
      LastWithEmptyLog(s.disk.logs, s.applying.record.logNumber.value, s.applying.record.lastSequence.value, DurableSequence(s), s.nextFile);
    }
  }

  lemma SwitchLogKeeps(s: State, t: State)
    requires Inv(s) && WriterStep(s, SwitchLog, t)
    ensures Inv(t)
  {
    hide ManifestOk, TablesOk, LogsOk, LastOf, BatchEntries, FreshNumber, OnDisk, EditApplied, InputsOk, OutputNumbers;
    LogSwitched(s.disk.logs, s.mem + InFlight(s), s.logNumber, s.logfileNumber, s.writer.number);
    assert s.mem + {} == s.mem && {} + InFlight(t) == InFlight(t);
  }

  lemma WriterStepKeeps(s: State, step: Step, t: State)
    requires Inv(s) && WriterStep(s, step, t)
    ensures Inv(t)
  {
    hide Inv;
    match step
    case LogBatch(b) => LogBatchKeeps(s, b, t);
    case ApplyBatch => ApplyBatchKeeps(s, t);
    case Publish => ApplyBatchKeeps(s, t);
    case CreateLog => CreateLogKeeps(s, t);
    case SwitchLog => SwitchLogKeeps(s, t);
    case _ =>
  }
}
