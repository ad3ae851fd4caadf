/**
 What holds over whole runs of ledger calls, failed flushes, prunes, crashes and reloads:
 one settlement settles one job.
 */
module LedgerRuns {
  import opened Prelude
  import opened Ledger

  // ---- The invariant ----

  ghost predicate Keyed(entries: Entries) {
    forall k :: k in entries ==> entries[k].jobId == k
  }

  ghost predicate Unshared(entries: Entries) {
    forall j, k, s :: Carries(entries, j, s) && Carries(entries, k, s) ==> j == k
  }

  /** Every entry is stored under its own id, and no settlement is on two entries. */
  ghost predicate DuplicateFree(entries: Entries) {
    Keyed(entries) && Unshared(entries)
  }

  /** The index is the exact inverse of the entries' usable signatures. */
  ghost predicate Mirrors(owners: Owners, entries: Entries) {
    forall s, k :: (s in owners && owners[s] == k) <==> Carries(entries, k, s)
  }

  ghost predicate Inv(st: State) {
    DuplicateFree(st.entries) && DuplicateFree(Readable(st.disk)) && Mirrors(st.owners, st.entries)
  }

  // ---- Preservation ----

  lemma IndexMirrors(owners: Owners, entries: Entries)
    requires DuplicateFree(entries) && IsIndex(owners, entries)
    ensures Mirrors(owners, entries)
  {
    forall s, k ensures (s in owners && owners[s] == k) <==> Carries(entries, k, s) {
      if Carries(entries, k, s) {
        assert s in SettledSignatures(entries);
      }
    }
  }

  lemma IndexIsIndex(entries: Entries)
    ensures IsIndex(Index(entries), entries)
  {
    var owners := Index(entries);
    forall s | s in owners ensures exists k :: Carries(entries, k, s) && owners[s] == entries[k].jobId {
      assert Carries(entries, Carrier(entries, s), s);
    }
  }

  /** On a duplicate-free ledger the load loop has only one index to build. */
  lemma IndexIsUnique(owners: Owners, entries: Entries)
    requires DuplicateFree(entries) && IsIndex(owners, entries)
    ensures owners == Index(entries)
  {
    IndexIsIndex(entries);
    forall s | s in owners ensures owners[s] == Index(entries)[s] {
      var k :| Carries(entries, k, s) && owners[s] == entries[k].jobId;
      var l :| Carries(entries, l, s) && Index(entries)[s] == entries[l].jobId;
      assert k == l;
    }
  }

  lemma ReadableSaved(entries: Entries)
    ensures forall k :: k in Readable(Saved(entries)) ==> k in entries && Readable(Saved(entries))[k] == entries[k]
  {
  }

  lemma SubsetDuplicateFree(part: Entries, whole: Entries)
    requires DuplicateFree(whole)
    requires forall k :: k in part ==> k in whole && part[k] == whole[k]
    ensures DuplicateFree(part)
  {
    forall j, k, s | Carries(part, j, s) && Carries(part, k, s) ensures j == k {
      assert Carries(whole, j, s) && Carries(whole, k, s);
    }
  }

  lemma FlushKeepsInv(st: State, ok: bool)
    requires Inv(st)
    ensures Inv(Flush(st, ok))
  {
    ReadableSaved(st.entries);
    SubsetDuplicateFree(Readable(Saved(st.entries)), st.entries);
  }

  lemma BootEstablishesInv(disk: Disk)
    requires DuplicateFree(Readable(disk))
    ensures Inv(Boot(disk))
  {
    IndexIsIndex(Readable(disk));
    IndexMirrors(Index(Readable(disk)), Readable(disk));
  }

  /** A rewrite that leaves the id and the settlement alone. */
  lemma RewriteKeepsInv(st: State, job: JobId, e: Entry, ok: bool)
    requires Inv(st)
    requires e.jobId == job
    requires job in st.entries ==> e.settlement == st.entries[job].settlement
    requires job !in st.entries ==> e.settlement == Unset
    ensures Inv(Flush(st.(entries := st.entries[job := e]), ok))
  {
    var next := st.(entries := st.entries[job := e]);
    assert forall k, s :: Carries(next.entries, k, s) <==> Carries(st.entries, k, s);
    FlushKeepsInv(next, ok);
  }

  lemma SettleKeepsInv(st: State, s: Signature, job: JobId)
    requires Inv(st)
    requires ClaimOutcome(st, s, job, true) == Claimed
    ensures Inv(Settle(st, s, job))
  {
    var next := State(st.entries[job := st.entries[job].(settlement := Text(s))],
                      Without(st.owners[s := job], Released(st, s, job)), st.disk);
    forall k, t ensures Carries(next.entries, k, t) <==> (if k == job then t == s else Carries(st.entries, k, t)) {
    }
    forall t, k ensures (t in next.owners && next.owners[t] == k) <==> Carries(next.entries, k, t) {
      assert (t in st.owners && st.owners[t] == k) <==> Carries(st.entries, k, t);
      assert (t in st.owners && st.owners[t] == job) <==> Carries(st.entries, job, t);
    }
    forall j, k, t | Carries(next.entries, j, t) && Carries(next.entries, k, t) ensures j == k {
      assert t in next.owners && next.owners[t] == j && next.owners[t] == k;
    }
    FlushKeepsInv(next, true);
  }

  lemma PrunedKeepsInv(st: State, cutoff: int, ok: bool)
    requires Inv(st)
    ensures Inv(Pruned(st, cutoff, ok))
  {
    var kept := Survivors(st.entries, cutoff);
    if kept.Keys != st.entries.Keys {
      var dropped := map k | k in st.entries && Expired(st.entries[k], cutoff) :: st.entries[k];
      var next := State(kept, st.owners - PrunedMarks(st.entries, cutoff), st.disk);
      SubsetDuplicateFree(kept, st.entries);
      forall t, k ensures (t in next.owners && next.owners[t] == k) <==> Carries(kept, k, t) {
        assert (t in st.owners && st.owners[t] == k) <==> Carries(st.entries, k, t);
        if t in st.owners {
          var owner := st.owners[t];
          assert Carries(st.entries, owner, t);
          if owner in kept {
            assert t in Texts(kept);
          } else {
            assert owner in dropped && Settled(dropped[owner]) == Some(t);
            if t in Texts(kept) {
              var other :| other in kept && kept[other].settlement.Text? && kept[other].settlement.text == t;
              assert Carries(st.entries, other, t);
              assert false;
            }
          }
        }
      }
      FlushKeepsInv(next, ok);
    }
  }

  lemma ApplyKeepsInv(st: State, op: Op)
    requires Inv(st)
    ensures Inv(Apply(st, op))
  {
    match op
    case Claim(s, job, ok) =>
      if ClaimOutcome(st, s, job, ok) == Claimed { SettleKeepsInv(st, s, job); }
    case Prune(cutoff, ok) => PrunedKeepsInv(st, cutoff, ok);
    case Crash => BootEstablishesInv(st.disk);
    case RecordPaid(job, createdAt, rawEvent, ok) =>
      if job !in st.entries { RewriteKeepsInv(st, job, NewEntry(job, createdAt, rawEvent), ok); }
    case _ =>
      var next := Apply(st, op);
      var job := op.job;
      if job in st.entries && next != st {
        RewriteKeepsInv(st, job, next.entries[job], op.ok);
      }
  }

  // ---- Whole runs ----

  /** In every reachable state memory and disk are duplicate-free and the index mirrors the entries. */
  lemma {:induction false} RunKeepsInv(disk: Disk, ops: seq<Op>)
    requires DuplicateFree(Readable(disk))
    ensures Inv(Run(disk, ops))
  {
    if ops == [] {
      BootEstablishesInv(disk);
    } else {
      RunKeepsInv(disk, ops[..|ops| - 1]);
      ApplyKeepsInv(Run(disk, ops[..|ops| - 1]), ops[|ops| - 1]);
    }
  }

  ghost function Before(disk: Disk, ops: seq<Op>, i: nat): State
    requires i < |ops|
  {
    Run(disk, ops[..i])
  }

  lemma RunStep(disk: Disk, ops: seq<Op>, i: nat)
    requires i < |ops|
    ensures Run(disk, ops[..i + 1]) == Apply(Before(disk, ops, i), ops[i])
  {
    assert ops[..i + 1][..i] == ops[..i];
  }

  /** Step `i` is a claim on `s` by `job` that returned `claimed`. */
  ghost predicate ClaimedAt(disk: Disk, ops: seq<Op>, i: nat, s: Signature, job: JobId)
    requires i < |ops|
  {
    var op := ops[i];
    op.Claim? && op.signature == s && op.job == job && ClaimOutcome(Before(disk, ops, i), s, job, op.ok) == Claimed
  }

  /** A call after which `job` no longer owns `s`: it settled with another transaction, or its entry was pruned. */
  ghost predicate LetsGo(st: State, op: Op, s: Signature, job: JobId) {
    || (op.Claim? && op.job == job && op.signature != s && ClaimOutcome(st, op.signature, job, op.ok) == Claimed)
    || (op.Prune? && job in st.entries && job !in Apply(st, op).entries)
  }

  /** `job` owns `s` in memory and on disk. */
  ghost predicate Owns(st: State, s: Signature, job: JobId) {
    && Carries(st.entries, job, s)
    && Carries(Readable(st.disk), job, s)
  }

  lemma FlushOwns(st: State, s: Signature, job: JobId, ok: bool)
    requires Carries(st.entries, job, s) && st.entries[job].jobId != ""
    requires ok || Carries(Readable(st.disk), job, s)
    ensures Owns(Flush(st, ok), s, job)
  {
    if ok {
      assert job in Saved(st.entries) && job in Readable(Saved(st.entries));
    }
  }

  lemma RewriteOwns(st: State, s: Signature, job: JobId, other: JobId, e: Entry, ok: bool)
    requires Inv(st) && Owns(st, s, job)
    requires other == job ==> Settled(e) == Some(s) && e.jobId == job
    ensures Owns(Flush(st.(entries := st.entries[other := e]), ok), s, job)
  {
    FlushOwns(st.(entries := st.entries[other := e]), s, job, ok);
  }

  lemma OwnsUntilLetGo(st: State, op: Op, s: Signature, job: JobId)
    requires Inv(st) && Owns(st, s, job)
    requires !LetsGo(st, op, s, job)
    ensures Owns(Apply(st, op), s, job)
  {
    match op
    case Claim(t, other, ok) =>
      if ClaimOutcome(st, t, other, ok) == Claimed {
        RewriteOwns(st, s, job, other, st.entries[other].(settlement := Text(t)), true);
      }
    case Prune(cutoff, ok) =>
      if Apply(st, op) != st {
        assert job in Survivors(st.entries, cutoff);
        FlushOwns(st.(entries := Survivors(st.entries, cutoff)), s, job, ok);
      }
    case Crash =>
    case RecordPaid(other, createdAt, rawEvent, ok) =>
      if other !in st.entries { RewriteOwns(st, s, job, other, NewEntry(other, createdAt, rawEvent), ok); }
    case _ =>
      var next := Apply(st, op);
      if next != st {
        RewriteOwns(st, s, job, op.job, next.entries[op.job], op.ok);
      }
  }

  lemma ClaimOwns(st: State, s: Signature, job: JobId)
    requires Inv(st) && ClaimOutcome(st, s, job, true) == Claimed
    ensures job != "" ==> Owns(Settle(st, s, job), s, job)
  {
    SettleKeepsInv(st, s, job);
  }

  /** Ownership lasts from the claim at `i` up to `m`, unless a step in between lets go of it. */
  lemma ClaimStepOwns(disk: Disk, ops: seq<Op>, i: nat, s: Signature, job: JobId)
    requires DuplicateFree(Readable(disk)) && job != ""
    requires i < |ops| && ClaimedAt(disk, ops, i, s, job)
    ensures Owns(Run(disk, ops[..i + 1]), s, job)
  {
    RunKeepsInv(disk, ops[..i]);
    RunStep(disk, ops, i);
    ClaimOwns(Before(disk, ops, i), s, job);
  }

  lemma OwnedIsRefused(st: State, s: Signature, j: JobId, k: JobId, ok: bool)
    requires Inv(st) && Owns(st, s, j) && j != k
    ensures ClaimOutcome(st, s, k, ok) != Claimed
  {
    assert s in st.owners && st.owners[s] == j;
  }

  lemma OwnsOneMore(disk: Disk, ops: seq<Op>, m: nat, s: Signature, job: JobId)
    requires DuplicateFree(Readable(disk)) && m < |ops| && Owns(Run(disk, ops[..m]), s, job)
    requires !LetsGo(Before(disk, ops, m), ops[m], s, job)
    ensures Owns(Run(disk, ops[..m + 1]), s, job)
  {
    RunKeepsInv(disk, ops[..m]);
    RunStep(disk, ops, m);
    OwnsUntilLetGo(Before(disk, ops, m), ops[m], s, job);
  }

  lemma {:induction false} OwnsFromClaim(disk: Disk, ops: seq<Op>, i: nat, m: nat, s: Signature, job: JobId)
    requires DuplicateFree(Readable(disk)) && job != ""
    requires i < m <= |ops| && ClaimedAt(disk, ops, i, s, job)
    requires forall n :: i < n < m ==> !LetsGo(Before(disk, ops, n), ops[n], s, job)
    ensures Owns(Run(disk, ops[..m]), s, job)
    decreases m
  {
    if m == i + 1 {
      ClaimStepOwns(disk, ops, i, s, job);
    } else {
      OwnsFromClaim(disk, ops, i, m - 1, s, job);
      OwnsOneMore(disk, ops, m - 1, s, job);
    }
  }

  /**
   One transaction settles one job: between the claims of one signature by two jobs,
   the first job settled with another transaction or its entry was pruned.
   */
  lemma ExactlyOnceSettlement(disk: Disk, ops: seq<Op>, i: nat, m: nat, s: Signature, j: JobId, k: JobId)
    requires DuplicateFree(Readable(disk)) && j != ""
    requires i < m < |ops|
    requires ClaimedAt(disk, ops, i, s, j) && ClaimedAt(disk, ops, m, s, k) && j != k
    ensures exists n :: i < n < m && LetsGo(Before(disk, ops, n), ops[n], s, j)
  {
    if forall n :: i < n < m ==> !LetsGo(Before(disk, ops, n), ops[n], s, j) {
      OwnsFromClaim(disk, ops, i, m, s, j);
      RunKeepsInv(disk, ops[..m]);
      OwnedIsRefused(Before(disk, ops, m), s, j, k, ops[m].ok);
      assert false;
    }
  }

  // ---- When a claim succeeds ----

  ghost predicate CarriedByAnother(entries: Entries, s: Signature, job: JobId) {
    exists k :: k != job && Carries(entries, k, s)
  }

  /**
   What a claim answers, on the entries: it succeeds exactly for a usable signature, a known job
   and a transaction no other job settled with, provided its flush does.
   */
  lemma ClaimAnswersIff(st: State, s: Signature, job: JobId, ok: bool)
    requires Inv(st)
    ensures var free := s != "" && job in st.entries && !CarriedByAnother(st.entries, s, job);
            && (ClaimOutcome(st, s, job, ok) == Claimed <==> free && ok)
            && (ClaimOutcome(st, s, job, ok) == NotPersisted <==> free && !ok)
    ensures ClaimOutcome(st, s, job, ok) == ConsumedByOther <==> job in st.entries && CarriedByAnother(st.entries, s, job)
    ensures ClaimOutcome(st, s, job, ok) == UnknownJob <==> s == "" || job !in st.entries
  {
    if s in st.owners {
      assert Carries(st.entries, st.owners[s], s);
    }
    if CarriedByAnother(st.entries, s, job) {
      var k :| k != job && Carries(st.entries, k, s);
      assert s in st.owners && st.owners[s] == k;
    }
  }

  /** A job may always claim again what it owns, as its recovery does after a crash. */
  lemma OwnSettlementReclaimed(st: State, s: Signature, job: JobId)
    requires Inv(st) && Owns(st, s, job)
    ensures ClaimOutcome(st, s, job, true) == Claimed
    ensures Owns(Apply(st, Claim(s, job, true)), s, job)
  {
    ClaimAnswersIff(st, s, job, true);
    OwnsUntilLetGo(st, Claim(s, job, true), s, job);
  }

  /** A claim touches nothing but the settlement of the job it is for; one that does not succeed touches nothing. */
  lemma ClaimTouchesOneSettlement(st: State, s: Signature, job: JobId, ok: bool)
    ensures var next := Apply(st, Claim(s, job, ok));
            if ClaimOutcome(st, s, job, ok) != Claimed then next == st
            else
              && next.entries.Keys == st.entries.Keys && job in st.entries
              && (forall k :: k in st.entries && k != job ==> next.entries[k] == st.entries[k])
              && next.entries[job].settlement == Text(s)
              && next.entries[job].(settlement := st.entries[job].settlement) == st.entries[job]
              && next.disk == Saved(next.entries)
  {
  }

  /** A job is recorded once, as paid and with its event, and nothing else; recorded again it stays as it is. */
  lemma RecordedOnce(st: State, job: JobId, createdAt: int, rawEvent: string, ok: bool)
    ensures var next := Apply(st, RecordPaid(job, createdAt, rawEvent, ok));
            if job in st.entries then next == st
            else
              && next.entries.Keys == st.entries.Keys + {job} && (forall k :: k in st.entries ==> next.entries[k] == st.entries[k])
              && next.owners == st.owners && next.disk == (if ok then Saved(next.entries) else st.disk)
              && var e := next.entries[job];
                 && e.jobId == job && e.status == Paid && e.createdAt == createdAt && e.rawEvent == Some(rawEvent)
                 && e.netAmount == None && e.pullHeight == None && e.paymentRequest == None && e.result == None
                 && e.attachment == None && e.attachments == None && e.deliveredContent == None && e.pullSignature == None && e.settlement == Unset && !e.delegated && e.retryCount == 0
  {
  }

  function Given<T>(value: Option<T>, otherwise: Option<T>): Option<T> {
    if value.Some? then value else otherwise
  }

  /** Field by field, which call writes it and what; every other call leaves it alone. */
  lemma EachFieldHasItsCalls(e: Entry, op: Op)
    requires OnEntry(op) && Changed(e, op).Some?
    ensures var next := Changed(e, op).value;
            var ends := op.MarkDelivered? || op.MarkFailed?;
            && next.jobId == e.jobId && next.createdAt == e.createdAt && next.rawEvent == e.rawEvent && next.settlement == e.settlement
            && next.status == (if op.MarkExecuted? then Executed else if op.MarkDelivered? then Delivered else if op.MarkFailed? then Failed else e.status)
            && next.netAmount == (if op.UpdatePayment? then Given(op.net, e.netAmount)
                                  else if op.RecordPullSignature? then Some(op.amount) else e.netAmount)
            && next.paymentRequest == (if op.UpdatePayment? then Given(op.request, e.paymentRequest) else e.paymentRequest)
            && (next.delegated <==> e.delegated || op.MarkDelegated?)
            && next.pullSignature == (if op.RecordPullSignature? then Some(op.pull) else e.pullSignature)
            && next.pullHeight == (if op.RecordPullSignature? then Some(op.height) else e.pullHeight)
            && next.attachment == (if op.RecordAttachment? then Given(op.single, e.attachment) else e.attachment)
            && next.attachments == (if op.RecordAttachment? then Given(op.many, e.attachments) else e.attachments)
            && next.result == (if op.MarkExecuted? then Some(op.content) else if ends then None else e.result)
            && next.deliveredContent == (if op.RecordDeliveredContent? then Some(op.content) else if ends then None else e.deliveredContent)
            && next.retryCount == e.retryCount + (if op.IncrementRetry? then 1 else 0)
  {
  }

  // ---- Confirmed settlements ----

  predicate Amounted(e: Entry) {
    e.netAmount.Some? && e.netAmount.value != 0
  }

  /** What the runtime sees to: it claims only for a job with no amount recorded, and records no zero. */
  predicate Careful(st: State, op: Op) {
    match op
    case Claim(_, job, _) => job in st.entries ==> !Amounted(st.entries[job])
    case UpdatePayment(_, net, _, _) => net != Some(0)
    case RecordPullSignature(_, _, _, amount, _) => amount != 0
    case _ => true
  }

  ghost predicate CarefulRun(disk: Disk, ops: seq<Op>) {
    forall i :: 0 <= i < |ops| ==> Careful(Before(disk, ops, i), ops[i])
  }

  predicate ConfirmedIn(entries: Entries, s: Signature, job: JobId) {
    Carries(entries, job, s) && Amounted(entries[job])
  }

  /** `job` was confirmed with `s`, in memory and on disk. */
  ghost predicate Confirmed(st: State, s: Signature, job: JobId) {
    ConfirmedIn(st.entries, s, job) && ConfirmedIn(Readable(st.disk), s, job)
  }

  /** A call after which the ledger no longer knows `job`. */
  ghost predicate Prunes(st: State, op: Op, job: JobId) {
    op.Prune? && job in st.entries && job !in Apply(st, op).entries
  }

  /** Recording the amount of a settlement that is owned confirms it, once it is flushed. */
  lemma AmountConfirms(st: State, s: Signature, job: JobId, net: int, request: Option<string>)
    requires Inv(st) && Owns(st, s, job) && job != "" && net != 0
    ensures Confirmed(Apply(st, UpdatePayment(job, Some(net), request, true)), s, job)
  {
    var next := Apply(st, UpdatePayment(job, Some(net), request, true));
    FlushedConfirmed(next, s, job);
  }

  lemma FlushedConfirmed(st: State, s: Signature, job: JobId)
    requires ConfirmedIn(st.entries, s, job) && st.entries[job].jobId != "" && st.disk == Saved(st.entries)
    ensures Confirmed(st, s, job)
  {
    assert job in Saved(st.entries) && job in Readable(Saved(st.entries));
  }

  /** No careful call takes an amount back. */
  lemma AmountStays(st: State, op: Op, job: JobId)
    requires job in st.entries && Amounted(st.entries[job]) && Careful(st, op) && !op.Crash?
    ensures job in Apply(st, op).entries ==> Amounted(Apply(st, op).entries[job])
  {
  }

  lemma WritesOrKeeps(st: State, op: Op)
    ensures Apply(st, op).disk == st.disk || Apply(st, op).disk == Saved(Apply(st, op).entries)
  {
  }

  lemma ConfirmedUntilPruned(st: State, op: Op, s: Signature, job: JobId)
    requires Inv(st) && Confirmed(st, s, job) && Careful(st, op) && !Prunes(st, op, job)
    ensures Confirmed(Apply(st, op), s, job)
  {
    var next := Apply(st, op);
    OwnsUntilLetGo(st, op, s, job);
    if !op.Crash? {
      AmountStays(st, op, job);
      WritesOrKeeps(st, op);
      if next.disk != st.disk {
        ApplyKeepsInv(st, op);
        FlushedConfirmed(next, s, job);
      }
    }
  }

  lemma {:induction false} ConfirmedUpTo(disk: Disk, ops: seq<Op>, i: nat, m: nat, s: Signature, job: JobId)
    requires DuplicateFree(Readable(disk)) && CarefulRun(disk, ops)
    requires i <= m <= |ops| && Confirmed(Run(disk, ops[..i]), s, job)
    requires forall n :: i <= n < m ==> !Prunes(Before(disk, ops, n), ops[n], job)
    ensures Confirmed(Run(disk, ops[..m]), s, job)
    decreases m
  {
    if i < m {
      ConfirmedUpTo(disk, ops, i, m - 1, s, job);
      RunKeepsInv(disk, ops[..m - 1]);
      RunStep(disk, ops, m - 1);
      ConfirmedUntilPruned(Before(disk, ops, m - 1), ops[m - 1], s, job);
    }
  }

  /**
   Under the runtime's own guard a confirmed settlement is final: another job is given the same
   signature only after the entry of the job confirmed with it was pruned.
   */
  lemma ConfirmedSettlementIsFinal(disk: Disk, ops: seq<Op>, i: nat, m: nat, s: Signature, j: JobId, k: JobId)
    requires DuplicateFree(Readable(disk)) && CarefulRun(disk, ops)
    requires i <= m < |ops| && Confirmed(Run(disk, ops[..i]), s, j)
    requires ClaimedAt(disk, ops, m, s, k) && j != k
    ensures exists n :: i <= n < m && Prunes(Before(disk, ops, n), ops[n], j)
  {
    if forall n :: i <= n < m ==> !Prunes(Before(disk, ops, n), ops[n], j) {
      ConfirmedUpTo(disk, ops, i, m, s, j);
      RunKeepsInv(disk, ops[..m]);
      OwnedIsRefused(Before(disk, ops, m), s, j, k, ops[m].ok);
      assert false;
    }
  }

  // ---- Where the hypotheses matter ----

  /** An entry is pruned exactly when it ended before the cutoff, and on any ledger the settlements that stay keep their marks. */
  lemma PruneDropsExactlyOldEnded(st: State, cutoff: int, ok: bool)
    ensures var next := Pruned(st, cutoff, ok);
            && (forall j :: j in next.entries ==> j in st.entries && next.entries[j] == st.entries[j])
            && (forall j :: j in st.entries ==>
                  (j !in next.entries <==> st.entries[j].status in {Delivered, Failed} && st.entries[j].createdAt < cutoff))
            && (Covered(st) ==> Covered(next))
            && (forall s :: s in next.owners ==> s in st.owners && next.owners[s] == st.owners[s])
            && (forall s :: s in st.owners && s !in next.owners ==> exists j :: Carries(st.entries, j, s) && j !in next.entries)
  {
    var next := Pruned(st, cutoff, ok);
    var kept := Survivors(st.entries, cutoff);
    if next != st {
      var dropped := map k | k in st.entries && Expired(st.entries[k], cutoff) :: st.entries[k];
      forall s | s in SettledSignatures(kept) ensures s in SettledSignatures(st.entries) && s in Texts(kept) {
        var k := Carrier(kept, s);
        assert Carries(st.entries, k, s);
      }
      forall s | s in PrunedMarks(st.entries, cutoff) ensures exists j :: Carries(st.entries, j, s) && j !in kept {
        var k := Carrier(dropped, s);
        assert Carries(st.entries, k, s) && k !in kept;
      }
    }
  }

  /** A status only moves forward, and a result is kept from `executed` until the job ends. */
  lemma StatusMovesForward(st: State, op: Op, j: JobId)
    requires j in st.entries && !op.Crash? && j in Apply(st, op).entries
    ensures var before, after := st.entries[j], Apply(st, op).entries[j];
            after.status != before.status ==>
              match after.status
              case Paid => false
              case Executed => before.status == Paid && op.MarkExecuted? && op.job == j && after.result == Some(op.content)
              case Delivered => before.status == Executed && after.result.None? && after.deliveredContent.None?
              case Failed => before.status in {Paid, Executed} && after.result.None? && after.deliveredContent.None?
  {
  }

  /** Every settlement an entry carries is marked in the index. */
  ghost predicate Covered(st: State) {
    SettledSignatures(st.entries) <= st.owners.Keys
  }

  /**
   On any ledger a successful claim keeps every carried settlement marked exactly when no
   other entry still carries the signature whose mark it releases.
   */
  lemma ClaimKeepsCoverageIff(st: State, s: Signature, job: JobId)
    requires Covered(st) && ClaimOutcome(st, s, job, true) == Claimed
    ensures Covered(Settle(st, s, job))
            <==> forall t, k :: Released(st, s, job) == Some(t) && Carries(st.entries, k, t) ==> k == job
  {
    var next := Settle(st, s, job);
    forall k, t ensures Carries(next.entries, k, t) <==> (if k == job then t == s else Carries(st.entries, k, t)) {
    }
    assert forall t :: t in next.owners <==> (t in st.owners || t == s) && Released(st, s, job) != Some(t);
    if Covered(next) {
      forall t, k | Released(st, s, job) == Some(t) && Carries(st.entries, k, t) ensures k == job {
        assert k != job ==> Carries(next.entries, k, t);
        assert Carries(next.entries, k, t) ==> t in next.owners;
      }
    }
    if forall t, k :: Released(st, s, job) == Some(t) && Carries(st.entries, k, t) ==> k == job {
      forall t | t in SettledSignatures(next.entries) ensures t in next.owners {
        var k := Carrier(next.entries, t);
        if k != job {
          assert Carries(st.entries, k, t) && t in SettledSignatures(st.entries);
        }
      }
    }
  }

  /** A ledger that already settles `s` twice can hand it to a third job. */
  lemma DoubleSettledLedgerSettlesAgain(s: Signature, t: Signature, a: Entry, b: Entry, c: Entry)
    requires Usable(s) && Usable(t) && s != t
    requires a.jobId == "a" && b.jobId == "b" && c.jobId == "c"
    requires a.settlement == Text(s) && b.settlement == Text(s) && c.settlement == Unset
    ensures
      var st := State(map["a" := a, "b" := b, "c" := c], map[s := "a"], map[]);
      IsIndex(st.owners, st.entries)
      && ClaimOutcome(Apply(st, Claim(t, "a", true)), s, "c", true) == Claimed
  {
    var entries := map["a" := a, "b" := b, "c" := c];
    assert Carries(entries, "a", s);
    assert SettledSignatures(entries) == {s};
    assert map[s := "a"].Keys == {s};
  }

  /** A reload keeps the mark of a claim exactly when the claiming job has an id: a load drops an entry without one. */
  lemma ReloadKeepsClaimIff(st: State, s: Signature, job: JobId)
    requires Inv(st) && ClaimOutcome(st, s, job, true) == Claimed
    ensures s in Boot(Settle(st, s, job).disk).owners <==> job != ""
  {
    var settled := Settle(st, s, job);
    SettleKeepsInv(st, s, job);
    var loaded := Readable(settled.disk);
    assert Carries(settled.entries, job, s) && settled.entries[job].jobId == job;
    assert job != "" ==> Carries(loaded, job, s) && s in SettledSignatures(loaded);
    if s in SettledSignatures(loaded) {
      var k := Carrier(loaded, s);
      assert k in settled.entries && settled.entries[k] == loaded[k];
      assert Carries(settled.entries, k, s);
      assert k == job;
    }
  }
}
