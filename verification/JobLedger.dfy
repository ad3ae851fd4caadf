/**
 The job ledger in its own form: two maps updated in place, explicit rollback of a refused
 claim, and loops that rebuild or trim them. Each method refines one call of `Ledger.Apply`.
 A flush is all-or-nothing and may fail at any time; a method returns false where the
 original throws.
 */
module JobLedgers {
  import opened Prelude
  import opened Ledger
  import LedgerRuns

  /** The ledger file: what a crash leaves behind. */
  class LedgerFile {
    var content: Disk
    /** Every write that was tried, and whether it reached the disk. */
    ghost var writes: seq<bool>

    constructor (content: Disk)
      ensures this.content == content && writes == []
    {
      this.content := content;
      writes := [];
    }
  }

  class JobLedger {
    const file: LedgerFile
    var entries: Entries
    var owners: Owners

    ghost function View(): State
      reads this, file
    {
      State(entries, owners, file.content)
    }

    /** Load the file: keep every object with a job id, then rebuild the settlement index. */
    constructor (file: LedgerFile)
      ensures this.file == file
      ensures entries == Readable(file.content) && IsIndex(owners, entries)
      ensures LedgerRuns.DuplicateFree(entries) ==> View() == Boot(file.content)
    {
      this.file := file;
      this.entries := map[];
      this.owners := map[];
      new;
      var data := file.content;
      var todo := data.Keys;
      while todo != {}
        invariant todo <= data.Keys && file.content == data && owners == map[]
        invariant entries == map k | k in data.Keys - todo && data[k].Record? && data[k].entry.jobId != "" :: data[k].entry
        decreases todo
      {
        var id :| id in todo;
        todo := todo - {id};
        if data[id].Record? && data[id].entry.jobId != "" {
          entries := entries[id := data[id].entry];
        }
      }
      IndexPaymentSignatures();
      ghost var index := owners;
      if LedgerRuns.DuplicateFree(entries) {
        LedgerRuns.IndexIsUnique(index, entries);
      }
    }

    /** A second job carrying an indexed signature is only reported; the first one stays its owner. */
    method IndexPaymentSignatures()
      requires owners == map[]
      modifies this`owners
      ensures IsIndex(owners, entries)
    {
      var todo := entries.Keys;
      while todo != {}
        invariant todo <= entries.Keys
        invariant IsIndex(owners, map k | k in entries && k !in todo :: entries[k])
        decreases todo
      {
        var id :| id in todo;
        ghost var done := map k | k in entries && k !in todo :: entries[k];
        ghost var was := owners;
        todo := todo - {id};
        var settled := Settled(entries[id]);
        if settled.Some? && !(settled.value in owners && owners[settled.value] != entries[id].jobId) {
          owners := owners[settled.value := entries[id].jobId];
        }
        assert (map k | k in entries && k !in todo :: entries[k]) == done[id := entries[id]];
        IndexExtended(was, owners, done, id, entries[id]);
      }
      assert entries == map k | k in entries && k !in todo :: entries[k];
    }

    /** A call says no only when it tried to write and could not; without a write it says yes. */
    twostate predicate Wrote(ok: bool)
      reads file
    {
      file.writes == old(file.writes) + [ok] || (ok && file.writes == old(file.writes))
    }

    /** Writes all entries or nothing. */
    method FlushFile() returns (ok: bool)
      modifies file
      ensures View() == Flush(old(View()), ok) && file.writes == old(file.writes) + [ok]
    {
      ok := *;
      file.writes := file.writes + [ok];
      if ok {
        file.content := Saved(entries);
      }
    }

    method RecordPaidJob(job: JobId, createdAt: int, rawEvent: string) returns (ok: bool)
      modifies this`entries, file
      ensures View() == Apply(old(View()), RecordPaid(job, createdAt, rawEvent, ok)) && Wrote(ok)
    {
      if job in entries {
        return true;
      }
      entries := entries[job := NewEntry(job, createdAt, rawEvent)];
      ok := FlushFile();
    }

    method UpdateJobPayment(job: JobId, net: Option<int>, request: Option<string>) returns (ok: bool)
      modifies this`entries, file
      ensures View() == Apply(old(View()), UpdatePayment(job, net, request, ok)) && Wrote(ok)
    {
      ok := true;
      if job in entries {
        var entry := entries[job];
        if net.Some? {
          entry := entry.(netAmount := net);
        }
        if request.Some? {
          entry := entry.(paymentRequest := request);
        }
        entries := entries[job := entry];
        ok := FlushFile();
      }
    }

    method MarkJobDelegated(job: JobId) returns (ok: bool)
      modifies this`entries, file
      ensures View() == Apply(old(View()), MarkDelegated(job, ok)) && Wrote(ok)
    {
      ok := true;
      if job in entries {
        entries := entries[job := entries[job].(delegated := true)];
        ok := FlushFile();
      }
    }

    method RecordContent(job: JobId, content: string) returns (ok: bool)
      modifies this`entries, file
      ensures View() == Apply(old(View()), RecordDeliveredContent(job, content, ok)) && Wrote(ok)
    {
      ok := true;
      if job in entries {
        entries := entries[job := entries[job].(deliveredContent := Some(content))];
        ok := FlushFile();
      }
    }

    method RecordPull(job: JobId, pull: Signature, height: nat, amount: int) returns (ok: bool)
      modifies this`entries, file
      ensures View() == Apply(old(View()), RecordPullSignature(job, pull, height, amount, ok)) && Wrote(ok)
    {
      ok := true;
      if job in entries {
        entries := entries[job := entries[job].(pullSignature := Some(pull), pullHeight := Some(height), netAmount := Some(amount))];
        ok := FlushFile();
      }
    }

    method RecordResultAttachment(job: JobId, single: Option<string>, many: Option<seq<string>>) returns (ok: bool)
      modifies this`entries, file
      ensures View() == Apply(old(View()), RecordAttachment(job, single, many, ok)) && Wrote(ok)
    {
      if job !in entries {
        return true;
      }
      var entry := entries[job];
      if single.Some? {
        entry := entry.(attachment := single);
      }
      if many.Some? {
        entry := entry.(attachments := many);
      }
      entries := entries[job := entry];
      ok := FlushFile();
    }

    /** Move a job to `to` if its status allows it; says whether it did. */
    method Move(job: JobId, to: Status) returns (moved: bool)
      modifies this`entries
      ensures moved == (job in old(entries) && MayBecome(old(entries)[job].status, to))
      ensures entries == if moved then old(entries)[job := old(entries)[job].(status := to)] else old(entries)
    {
      moved := job in entries && MayBecome(entries[job].status, to);
      if moved {
        entries := entries[job := entries[job].(status := to)];
      }
    }

    method MarkJobExecuted(job: JobId, content: string) returns (ok: bool)
      modifies this`entries, file
      ensures View() == Apply(old(View()), MarkExecuted(job, content, ok)) && Wrote(ok)
    {
      ok := true;
      var moved := Move(job, Executed);
      if moved {
        entries := entries[job := entries[job].(result := Some(content))];
        ok := FlushFile();
        assert entries == old(entries)[job := old(entries)[job].(status := Executed, result := Some(content))];
      }
    }

    method MarkJobDelivered(job: JobId) returns (ok: bool)
      modifies this`entries, file
      ensures View() == Apply(old(View()), MarkDelivered(job, ok)) && Wrote(ok)
    {
      ok := true;
      var moved := Move(job, Delivered);
      if moved {
        entries := entries[job := entries[job].(result := None, deliveredContent := None)];
        ok := FlushFile();
        assert entries == old(entries)[job := Finished(old(entries)[job], Delivered)];
      }
    }

    /** A failed flush is swallowed: the status in memory is right either way. */
    method MarkJobFailed(job: JobId)
      modifies this`entries, file
      ensures exists ok :: View() == Apply(old(View()), MarkFailed(job, ok)) && Wrote(ok)
    {
      var ok := true;
      var moved := Move(job, Failed);
      if moved {
        entries := entries[job := entries[job].(result := None, deliveredContent := None)];
        ok := FlushFile();
        assert entries == old(entries)[job := Finished(old(entries)[job], Failed)];
      }
      assert View() == Apply(old(View()), MarkFailed(job, ok)) && Wrote(ok);
    }

    method IncrementJobRetry(job: JobId) returns (ok: bool)
      modifies this`entries, file
      ensures View() == Apply(old(View()), IncrementRetry(job, ok)) && Wrote(ok)
    {
      ok := true;
      if job in entries {
        entries := entries[job := entries[job].(retryCount := entries[job].retryCount + 1)];
        ok := FlushFile();
      }
    }

    /** Bind a settlement to one job, or refuse it. */
    method ClaimPaymentSignature(s: Signature, job: JobId) returns (claim: ClaimResult)
      modifies this, file
      ensures claim == ClaimOutcome(old(View()), s, job, claim == Claimed)
      ensures View() == Apply(old(View()), Claim(s, job, claim == Claimed)) && Wrote(claim != NotPersisted)
    {
      if !Usable(s) {
        return UnknownJob;
      }
      if job !in entries {
        return UnknownJob;
      }
      if s in owners && owners[s] != job {
        return ConsumedByOther;
      }
      var bound := Bind(s, job);
      claim := if bound then Claimed else NotPersisted;
    }

    /** Write index and entry, flush, and roll both back when the flush fails. */
    method Bind(s: Signature, job: JobId) returns (bound: bool)
      requires job in entries && (s in owners ==> owners[s] == job)
      modifies this, file
      ensures View() == if bound then Settle(old(View()), s, job) else old(View())
      ensures file.writes == old(file.writes) + [bound]
    {
      var entry := entries[job];
      var previouslyOwned := s in owners;
      var earlier := entry.settlement;
      var released := None;
      if earlier.Text? && earlier.text != s && earlier.text in owners && owners[earlier.text] == job {
        released := Some(earlier.text);
      }
      owners := owners[s := job];
      if released.Some? {
        owners := owners - {released.value};
      }
      entries := entries[job := entry.(settlement := Text(s))];
      bound := FlushFile();
      if !bound {
        entries := entries[job := entry];
        if !previouslyOwned {
          owners := owners - {s};
        } else {
          owners := owners[s := job];
        }
        if released.Some? {
          owners := owners[released.value := job];
        }
        RollbackRestores(old(owners), s, job, released);
        UpdateUndone(old(entries), job, entry.(settlement := Text(s)));
      }
    }

    /** Delete the old terminal entries and collect the usable signatures they carried. */
    method DeleteExpired(cutoff: int) returns (deleted: nat, prunedSignatures: set<Signature>)
      modifies this`entries
      ensures entries == Survivors(old(entries), cutoff)
      ensures prunedSignatures == SettledSignatures(Gone(old(entries), {}, cutoff))
      ensures deleted == |old(entries)| - |entries|
    {
      prunedSignatures := {};
      deleted := 0;
      var todo := entries.Keys;
      SeenNoneAndAll(entries, cutoff);
      while todo != {}
        invariant todo <= old(entries).Keys
        invariant entries == Kept(old(entries), todo, cutoff)
        invariant prunedSignatures == SettledSignatures(Gone(old(entries), todo, cutoff))
        invariant deleted == |old(entries)| - |entries|
        decreases todo
      {
        var id :| id in todo;
        OneMoreSeen(old(entries), todo, id, cutoff);
        todo := todo - {id};
        var entry := entries[id];
        if (entry.status == Delivered || entry.status == Failed) && entry.createdAt < cutoff {
          CountRemoved(entries, id);
          entries := entries - {id};
          var settled := Settled(entry);
          if settled.Some? {
            prunedSignatures := prunedSignatures + {settled.value};
          }
          deleted := deleted + 1;
        }
      }
    }

    /** Drop old terminal entries and the marks no surviving entry carries. */
    method PruneOldEntries(cutoff: int) returns (deleted: nat, ok: bool)
      modifies this, file
      ensures View() == Apply(old(View()), Prune(cutoff, ok)) && Wrote(ok)
      ensures deleted == |old(entries)| - |entries|
    {
      var prunedSignatures;
      deleted, prunedSignatures := DeleteExpired(cutoff);
      ok := true;
      assert Gone(old(entries), {}, cutoff) == map k | k in old(entries) && Expired(old(entries)[k], cutoff) :: old(entries)[k];
      if prunedSignatures != {} {
        ReleasePrunedPaymentSignatures(prunedSignatures);
      }
      assert owners == old(owners) - PrunedMarks(old(entries), cutoff);
      NothingRemoved(old(entries), entries);
      if deleted > 0 {
        ok := FlushFile();
      } else {
        assert entries == old(entries);
        assert Gone(old(entries), {}, cutoff) == map[];
      }
    }

    method ReleasePrunedPaymentSignatures(prunedSignatures: set<Signature>)
      modifies this`owners
      ensures owners == old(owners) - (prunedSignatures - Texts(entries))
    {
      var surviving: set<Signature> := {};
      var todo := entries.Keys;
      while todo != {}
        invariant todo <= entries.Keys
        invariant surviving == Texts(map k | k in entries && k !in todo :: entries[k])
        invariant owners == old(owners)
        decreases todo
      {
        var id :| id in todo;
        ghost var done := map k | k in entries && k !in todo :: entries[k];
        todo := todo - {id};
        if entries[id].settlement.Text? {
          surviving := surviving + {entries[id].settlement.text};
        }
        assert (map k | k in entries && k !in todo :: entries[k]) == done[id := entries[id]];
        TextsAdded(done, id, entries[id]);
      }
      assert entries == map k | k in entries && k !in todo :: entries[k];
      var left := prunedSignatures;
      while left != {}
        invariant left <= prunedSignatures
        invariant owners == old(owners) - ((prunedSignatures - left) - surviving)
        decreases left
      {
        var s :| s in left;
        left := left - {s};
        if s !in surviving {
          owners := owners - {s};
        }
      }
    }
  }

  /** The entries already deleted by a prune that still has `todo` to look at. */
  ghost function Gone(entries: Entries, todo: set<JobId>, cutoff: int): Entries {
    map k | k in entries && k !in todo && Expired(entries[k], cutoff) :: entries[k]
  }

  /** One more entry seen by the index loop: its signature is indexed unless another job has it. */
  lemma IndexExtended(before: Owners, after: Owners, done: Entries, id: JobId, e: Entry)
    requires IsIndex(before, done) && id !in done
    requires after == if Settled(e).Some? && !(Settled(e).value in before && before[Settled(e).value] != e.jobId)
                      then before[Settled(e).value := e.jobId] else before
    ensures IsIndex(after, done[id := e])
  {
    var next := done[id := e];
    SettledAdded(done, id, e);
    forall s | s in after ensures exists k :: Carries(next, k, s) && after[s] == next[k].jobId {
      if Settled(e) == Some(s) && after[s] == e.jobId {
        assert Carries(next, id, s);
      } else {
        var k :| Carries(done, k, s) && before[s] == done[k].jobId;
        assert Carries(next, k, s);
      }
    }
  }

  lemma RollbackRestores(before: Owners, s: Signature, job: JobId, released: Option<Signature>)
    requires s in before ==> before[s] == job
    requires released.Some? ==> released.value in before && released.value != s && before[released.value] == job
    ensures var claimed := Without(before[s := job], released);
            var undone := if s in before then claimed[s := job] else claimed - {s};
            (if released.Some? then undone[released.value := job] else undone) == before
  {
  }

  lemma UpdateUndone<K, V>(m: map<K, V>, k: K, v: V)
    requires k in m
    ensures m[k := v][k := m[k]] == m
  {
  }

  ghost function Kept(entries: Entries, todo: set<JobId>, cutoff: int): Entries {
    map k | k in entries && (k in todo || !Expired(entries[k], cutoff)) :: entries[k]
  }

  lemma SeenNoneAndAll(entries: Entries, cutoff: int)
    ensures Kept(entries, entries.Keys, cutoff) == entries
    ensures SettledSignatures(Gone(entries, entries.Keys, cutoff)) == {}
    ensures Kept(entries, {}, cutoff) == Survivors(entries, cutoff)
  {
    assert Gone(entries, entries.Keys, cutoff) == map[];
  }

  lemma OneMoreSeen(entries: Entries, todo: set<JobId>, id: JobId, cutoff: int)
    requires id in entries && id in todo
    ensures Kept(entries, todo - {id}, cutoff)
            == if Expired(entries[id], cutoff) then Kept(entries, todo, cutoff) - {id} else Kept(entries, todo, cutoff)
    ensures SettledSignatures(Gone(entries, todo - {id}, cutoff))
            == SettledSignatures(Gone(entries, todo, cutoff))
               + (if Expired(entries[id], cutoff) && Settled(entries[id]).Some? then {Settled(entries[id]).value} else {})
  {
    var gone := Gone(entries, todo, cutoff);
    if Expired(entries[id], cutoff) {
      assert Gone(entries, todo - {id}, cutoff) == gone[id := entries[id]];
      SettledAdded(gone, id, entries[id]);
    } else {
      assert Gone(entries, todo - {id}, cutoff) == gone;
    }
  }

  lemma CountRemoved(entries: Entries, id: JobId)
    requires id in entries
    ensures |entries - {id}| == |entries| - 1
  {
    assert (entries - {id}).Keys == entries.Keys - {id};
  }

  lemma NothingRemoved(before: Entries, after: Entries)
    requires after.Keys <= before.Keys
    ensures |after| == |before| <==> after.Keys == before.Keys
  {
    SubsetCount(after.Keys, before.Keys);
  }

  lemma SubsetCount<T>(small: set<T>, large: set<T>)
    requires small <= large
    ensures |small| == |large| <==> small == large
  {
    assert large == small + (large - small);
  }

  lemma SettledAdded(entries: Entries, id: JobId, e: Entry)
    requires id !in entries
    ensures SettledSignatures(entries[id := e])
            == SettledSignatures(entries) + (if Settled(e).Some? then {Settled(e).value} else {})
  {
    forall s | s in SettledSignatures(entries) ensures s in SettledSignatures(entries[id := e]) {
      var k :| k in entries && Settled(entries[k]) == Some(s);
      assert k in entries[id := e] && Settled(entries[id := e][k]) == Some(s);
    }
    assert id in entries[id := e];
  }

  lemma TextsAdded(entries: Entries, id: JobId, e: Entry)
    requires id !in entries
    ensures Texts(entries[id := e]) == Texts(entries) + (if e.settlement.Text? then {e.settlement.text} else {})
  {
    forall s | s in Texts(entries) ensures s in Texts(entries[id := e]) {
      var k :| k in entries && entries[k].settlement == Text(s);
      assert k in entries[id := e] && entries[id := e][k].settlement == Text(s);
    }
    assert id in entries[id := e];
  }
}
