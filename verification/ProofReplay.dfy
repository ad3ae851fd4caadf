/**
 Single use of a delegation proof across crashes. A step is one synchronous block of the
 provider: recording a job and gating its proof, the `has`/`markUsed` pair after the proof
 verified, a prune, or a restart that reloads both files and re-burns the persisted proofs.
 Nonce flushes may be lost at any time, and so may the whole nonce file; the store is
 assumed not to overflow. The nonce store is pruned only by a timer that a start arms.
 */
module ProofReplay {
  import opened Nonces

  const TTL: int := 600
  const SKEW: int := 60
  const RETENTION: int := 2592000
  /** Seconds between two prunes of the nonce store. */
  const GC_INTERVAL: nat := 3600

  datatype Proof = Proof(owner: string, nonce: string, expiry: nat)

  function Key(p: Proof): string {
    p.owner + ":" + p.nonce
  }

  /** A ledger entry as far as this protocol reads it. */
  datatype Recorded = Recorded(job: string, createdAt: int, proof: Proof)

  /** A proof past the expiry gate, waiting for its verification. */
  datatype Check = Check(proof: Proof, gate: int)

  /** The marks of the nonce store, as `Nonces.Table` reads them. */
  type Marks = map<string, int>

  datatype Sys = Sys(
    now: int,
    /** When the prune timer of this process first fires. */
    firstPrune: int,
    log: seq<Recorded>,
    disk: seq<Recorded>,
    used: Marks,
    usedDisk: Marks,
    checking: map<string, Check>,
    accepted: seq<Proof>)

  datatype Op =
    | Tick(secs: nat)
    | Present(job: string, proof: Proof, ok: bool)
    | FlushLog
    | Decide(job: string, valid: bool, published: bool)
    | PruneLog(terminal: set<string>, ok: bool)
    | PruneUsed(published: bool)
    | Restart(terminal: set<string>, ok: bool, fileKept: bool, published: bool)

  function Init(interval: nat): Sys {
    Sys(0, interval, [], [], map[], map[], map[], [])
  }

  predicate Logged(log: seq<Recorded>, job: string) {
    exists i :: 0 <= i < |log| && log[i].job == job
  }

  function Survivors(log: seq<Recorded>, terminal: set<string>, cutoff: int): seq<Recorded> {
    if log == [] then []
    else
      var last := log[|log| - 1];
      Survivors(log[..|log| - 1], terminal, cutoff)
      + (if last.job in terminal && last.createdAt < cutoff then [] else [last])
  }

  /** Restart reconciliation: burn the unexpired proofs of the entries, in ledger order, first mark wins. */
  function Reconciled(used: Marks, log: seq<Recorded>, now: int): Marks {
    if log == [] then used
    else
      var before := Reconciled(used, log[..|log| - 1], now);
      var p := log[|log| - 1].proof;
      if p.expiry + SKEW <= now || Key(p) in before then before else before[Key(p) := p.expiry + SKEW]
  }

  /** The loop of a start: without overflow it leaves the marks of the step above, and flushes them once. */
  method ReconcileUsedNonces(store: UsedNonceStore, log: seq<Recorded>, now: int) returns (published: bool)
    requires store.Valid() && |store.marks| + |log| <= store.maxEntries
    modifies store
    ensures store.Valid() && Table(store.marks) == Reconciled(Table(old(store.marks)), log, now)
    ensures store.file == if published then store.marks else old(store.file)
    ensures if store.marks != old(store.marks) then store.writes == old(store.writes) + [published] else !published || store.file == store.marks
  {
    var changed := false;
    var i := 0;
    while i < |log|
      invariant 0 <= i <= |log| && store.Valid() && store.file == old(store.file) && store.writes == old(store.writes)
      invariant changed || store.marks == old(store.marks)
      invariant |store.marks| <= |old(store.marks)| + i
      invariant Table(store.marks) == Reconciled(Table(old(store.marks)), log[..i], now)
    {
      assert log[..i + 1][..i] == log[..i];
      TableKeys(store.marks);
      var p := log[i].proof;
      if p.expiry + SKEW > now {
        var has := store.HasKey(Key(p));
        if !has {
          var _ := store.MarkUsed(Key(p), p.expiry + SKEW, false);
          changed := true;
        }
      }
      i := i + 1;
    }
    assert log[..i] == log;
    published := false;
    if changed {
      published := store.FlushFile();
    }
  }

  predicate GateOpen(p: Proof, now: int) {
    now < p.expiry <= now + TTL + SKEW
  }

  ghost function Step(s: Sys, op: Op, interval: nat): Sys {
    match op
    case Tick(secs) => s.(now := s.now + secs)
    case Present(job, p, ok) =>
      if Logged(s.log, job) || job in s.checking then s
      else
        var log := s.log + [Recorded(job, s.now, p)];
        if !ok then s.(log := log)
        else s.(log := log, disk := log,
                checking := if GateOpen(p, s.now) then s.checking[job := Check(p, s.now)] else s.checking)
    case FlushLog => s.(disk := s.log)
    case Decide(job, valid, published) =>
      if job !in s.checking then s
      else
        var p := s.checking[job].proof;
        var rest := s.(checking := s.checking - {job});
        if !valid || Key(p) in s.used then rest
        else
          var used := s.used[Key(p) := p.expiry + SKEW];
          rest.(used := used, usedDisk := if published then used else s.usedDisk, accepted := s.accepted + [p])
    case PruneLog(terminal, ok) =>
      var log := Survivors(s.log, terminal - s.checking.Keys, s.now - RETENTION);
      s.(log := log, disk := if ok then log else s.disk)
    case PruneUsed(published) =>
      if s.now < s.firstPrune then s
      else
        var used := LiveTable(s.used, s.now);
        s.(used := used, usedDisk := if published then used else s.usedDisk)
    case Restart(terminal, ok, fileKept, published) =>
      var log := Survivors(s.disk, terminal, s.now - RETENTION);
      var used := Reconciled(if fileKept then s.usedDisk else map[], log, s.now);
      s.(firstPrune := s.now + interval, log := log, disk := if ok then log else s.disk,
         used := used, usedDisk := if published then used else if fileKept then s.usedDisk else map[],
         checking := map[])
  }

  ghost function Run(s: Sys, ops: seq<Op>, interval: nat): Sys
    decreases |ops|
  {
    if ops == [] then s else Run(Step(s, ops[0], interval), ops[1..], interval)
  }

  // ---- The environment ----

  /** No verification takes more than `latency` seconds past the expiry gate. */
  ghost predicate Timely(s: Sys, ops: seq<Op>, latency: nat, interval: nat)
    decreases |ops|
  {
    ops == [] || (TimelyStep(s, ops[0], latency) && Timely(Step(s, ops[0], interval), ops[1..], latency, interval))
  }

  predicate TimelyStep(s: Sys, op: Op, latency: nat) {
    op.Decide? && op.job in s.checking ==> s.now <= s.checking[op.job].gate + latency
  }

  /** A lapsed mark is dropped only when every proof it could stand for is dead. */
  predicate SlowEnough(latency: nat, interval: nat) {
    latency <= SKEW && interval >= TTL + SKEW + latency
  }

  predicate Unrepeated(accepted: seq<Proof>) {
    forall i, j :: 0 <= i < j < |accepted| ==> accepted[i] != accepted[j]
  }

  // ---- The invariant ----

  predicate Holds(log: seq<Recorded>, p: Proof) {
    exists i :: 0 <= i < |log| && log[i].proof == p && p.expiry <= log[i].createdAt + TTL + SKEW
  }

  predicate HoldsJob(log: seq<Recorded>, job: string, c: Check) {
    Recorded(job, c.gate, c.proof) in log
  }

  ghost predicate Past(log: seq<Recorded>, now: int) {
    forall r :: r in log ==> r.createdAt <= now
  }

  /** No prune drops the mark under a proof's key while the proof could still be presented. */
  predicate Outlasts(s: Sys, p: Proof, latency: nat)
    requires Key(p) in s.used
  {
    p.expiry + latency <= s.firstPrune || s.used[Key(p)] >= p.expiry + latency
  }

  /** An accepted proof that a job could still present is marked for as long, and recorded in memory and on disk. */
  ghost predicate Guarded(s: Sys, p: Proof, latency: nat) {
    s.now < p.expiry + latency ==> Key(p) in s.used && Outlasts(s, p, latency) && Holds(s.log, p) && Holds(s.disk, p)
  }

  ghost predicate Inv(s: Sys, latency: nat) {
    && Past(s.log, s.now) && Past(s.disk, s.now)
    && (forall job :: job in s.checking ==>
          var c := s.checking[job];
          GateOpen(c.proof, c.gate) && HoldsJob(s.log, job, c) && HoldsJob(s.disk, job, c))
    && (forall p :: p in s.accepted ==> Guarded(s, p, latency))
    && Unrepeated(s.accepted)
  }

  lemma {:induction false} SurvivorsKeep(log: seq<Recorded>, terminal: set<string>, cutoff: int)
    ensures forall r :: r in Survivors(log, terminal, cutoff) <==> r in log && !(r.job in terminal && r.createdAt < cutoff)
  {
    if log != [] {
      SurvivorsKeep(log[..|log| - 1], terminal, cutoff);
      assert log == log[..|log| - 1] + [log[|log| - 1]];
    }
  }

  lemma HoldsIn(log: seq<Recorded>, r: Recorded)
    requires r in log && r.proof.expiry <= r.createdAt + TTL + SKEW
    ensures Holds(log, r.proof)
  {
  }

  /** A prune keeps the record of every proof that could still be presented. */
  lemma SurvivorsHold(log: seq<Recorded>, terminal: set<string>, now: int, p: Proof, latency: nat)
    requires Holds(log, p) && now < p.expiry + latency && latency <= SKEW
    ensures Holds(Survivors(log, terminal, now - RETENTION), p)
  {
    var i :| 0 <= i < |log| && log[i].proof == p && p.expiry <= log[i].createdAt + TTL + SKEW;
    SurvivorsKeep(log, terminal, now - RETENTION);
    HoldsIn(Survivors(log, terminal, now - RETENTION), log[i]);
  }

  lemma {:induction false} ReconciledMarks(used: Marks, log: seq<Recorded>, now: int)
    ensures forall r :: r in log && r.proof.expiry + SKEW > now ==> Key(r.proof) in Reconciled(used, log, now)
  {
    if log != [] {
      var init := log[..|log| - 1];
      assert log == init + [log[|log| - 1]];
      ReconciledMarks(used, init, now);
    }
  }

  lemma StepKeepsInv(s: Sys, op: Op, latency: nat, interval: nat)
    requires Inv(s, latency) && SlowEnough(latency, interval) && TimelyStep(s, op, latency)
    ensures Inv(Step(s, op, interval), latency)
  {
    match op
    case Tick(secs) =>
    case FlushLog =>
    case Present(job, p, ok) => PresentKeepsInv(s, op, latency, interval);
    case Decide(job, valid, published) => DecideKeepsInv(s, op, latency, interval);
    case PruneLog(terminal, ok) => PruneLogKeepsInv(s, op, latency, interval);
    case PruneUsed(published) =>
    case Restart(terminal, ok, fileKept, published) => RestartKeepsInv(s, op, latency, interval);
  }

  lemma HoldsLonger(log: seq<Recorded>, r: Recorded, p: Proof)
    requires Holds(log, p)
    ensures Holds(log + [r], p)
  {
    var i :| 0 <= i < |log| && log[i].proof == p && p.expiry <= log[i].createdAt + TTL + SKEW;
    assert (log + [r])[i] == log[i];
  }

  lemma PresentKeepsInv(s: Sys, op: Op, latency: nat, interval: nat)
    requires Inv(s, latency) && op.Present?
    ensures Inv(Step(s, op, interval), latency)
  {
    var next := Step(s, op, interval);
    if next != s {
      var r := Recorded(op.job, s.now, op.proof);
      assert r in next.log;
      forall p | p in next.accepted ensures Guarded(next, p, latency) {
        if s.now < p.expiry + latency { HoldsLonger(s.log, r, p); }
      }
    }
  }

  lemma DecideKeepsInv(s: Sys, op: Op, latency: nat, interval: nat)
    requires Inv(s, latency) && latency <= SKEW && op.Decide? && TimelyStep(s, op, latency)
    ensures Inv(Step(s, op, interval), latency)
  {
    var next := Step(s, op, interval);
    if op.job in s.checking && next.accepted != s.accepted {
      var c := s.checking[op.job];
      var p := c.proof;
      var r := Recorded(op.job, c.gate, p);
      HoldsIn(s.log, r);
      HoldsIn(s.disk, r);
      assert p !in s.accepted;
    }
  }

  lemma PruneLogKeepsInv(s: Sys, op: Op, latency: nat, interval: nat)
    requires Inv(s, latency) && latency <= SKEW && op.PruneLog?
    ensures Inv(Step(s, op, interval), latency)
  {
    var next := Step(s, op, interval);
    var terminal := op.terminal - s.checking.Keys;
    SurvivorsKeep(s.log, terminal, s.now - RETENTION);
    forall p | p in next.accepted ensures Guarded(next, p, latency) {
      assert Key(p) == Key(p);
      if s.now < p.expiry + latency { SurvivorsHold(s.log, terminal, s.now, p, latency); }
    }
  }

  /** Whatever mark a restart finds or makes under its key, an accepted proof is dead before the first prune. */
  lemma RestartKeepsInv(s: Sys, op: Op, latency: nat, interval: nat)
    requires Inv(s, latency) && SlowEnough(latency, interval) && op.Restart?
    ensures Inv(Step(s, op, interval), latency)
  {
    var next := Step(s, op, interval);
    SurvivorsKeep(s.disk, op.terminal, s.now - RETENTION);
    ReconciledMarks(if op.fileKept then s.usedDisk else map[], next.log, s.now);
    forall p | p in next.accepted ensures Guarded(next, p, latency) {
      if s.now < p.expiry + latency {
        SurvivorsHold(s.disk, op.terminal, s.now, p, latency);
        var i :| 0 <= i < |next.log| && next.log[i].proof == p && p.expiry <= next.log[i].createdAt + TTL + SKEW;
        assert next.log[i] in next.log;
      }
    }
  }

  lemma {:induction false} RunKeepsInv(s: Sys, ops: seq<Op>, latency: nat, interval: nat)
    requires Inv(s, latency) && SlowEnough(latency, interval) && Timely(s, ops, latency, interval)
    ensures Inv(Run(s, ops, interval), latency)
    decreases |ops|
  {
    if ops != [] {
      StepKeepsInv(s, ops[0], latency, interval);
      RunKeepsInv(Step(s, ops[0], interval), ops[1..], latency, interval);
    }
  }

  /**
   Over every run with crashes, lost nonce flushes and lost nonce files, whatever proofs are
   presented and whatever they share, the provider accepts a proof at most once.
   */
  lemma ProofAcceptedOnce(ops: seq<Op>, latency: nat)
    requires latency <= SKEW && Timely(Init(GC_INTERVAL), ops, latency, GC_INTERVAL)
    ensures Unrepeated(Run(Init(GC_INTERVAL), ops, GC_INTERVAL).accepted)
  {
    RunKeepsInv(Init(GC_INTERVAL), ops, latency, GC_INTERVAL);
  }

  // ---- A fresh proof is accepted ----

  lemma ColonEndsOwner(p: Proof, i: nat)
    requires ':' !in p.owner && i <= |p.owner|
    ensures Key(p)[i] == ':' <==> i == |p.owner|
  {
    assert i < |p.owner| ==> Key(p)[i] == p.owner[i];
  }

  /** Owners hold no colon, so a mark stands for one owner's nonce. */
  lemma KeyNamesOwnerAndNonce(p: Proof, q: Proof)
    requires ':' !in p.owner && ':' !in q.owner
    ensures Key(p) == Key(q) <==> p.owner == q.owner && p.nonce == q.nonce
  {
    if Key(p) == Key(q) {
      var n := if |p.owner| <= |q.owner| then |p.owner| else |q.owner|;
      ColonEndsOwner(p, n);
      ColonEndsOwner(q, n);
      assert Key(p)[..n] == p.owner && Key(q)[..n] == q.owner;
      assert Key(p)[n + 1..] == p.nonce && Key(q)[n + 1..] == q.nonce;
    }
  }

  /** A valid proof within its gate whose nonce is free is accepted, and marked until a minute past its expiry. */
  lemma FreshProofIsAccepted(s: Sys, job: string, p: Proof, published: bool, interval: nat)
    requires !Logged(s.log, job) && job !in s.checking && 0 < p.expiry - s.now <= 660 && Key(p) !in s.used
    ensures var next := Step(Step(s, Present(job, p, true), interval), Decide(job, true, published), interval);
            && next.accepted == s.accepted + [p] && next.used == s.used[Key(p) := p.expiry + 60]
            && next.disk == next.log == s.log + [Recorded(job, s.now, p)]
            && (published ==> next.usedDisk == next.used)
  {
  }

  /** Nothing else is accepted: not past its gate, not when it does not verify, not under a mark that stands. */
  lemma OnlyFreshProofsAreAccepted(s: Sys, op: Op, interval: nat)
    ensures var next := Step(s, op, interval);
            next.accepted != s.accepted ==>
              && op.Decide? && op.valid && op.job in s.checking && next.accepted == s.accepted + [s.checking[op.job].proof]
              && Key(s.checking[op.job].proof) !in s.used
    ensures var next := Step(s, op, interval);
            forall job :: job in next.checking && job !in s.checking ==>
              op.Present? && op.job == job && next.checking[job] == Check(op.proof, s.now) && 0 < op.proof.expiry - s.now <= 660
  {
  }

  /** The log's prune drops exactly the ended entries of jobs that are not being checked, a month old; the nonce prune exactly the lapsed marks, once its timer fired. */
  lemma PrunesDrop(s: Sys, terminal: set<string>, ok: bool, published: bool, interval: nat)
    ensures var log := Step(s, PruneLog(terminal, ok), interval).log;
            forall r :: r in log <==> r in s.log && (r.job !in terminal || r.job in s.checking || r.createdAt >= s.now - 2592000)
    ensures var used := Step(s, PruneUsed(published), interval).used;
            && (forall key :: key in used <==> key in s.used && (s.now < s.firstPrune || s.used[key] > s.now))
            && forall key :: key in used ==> used[key] == s.used[key]
  {
    SurvivorsKeep(s.log, terminal - s.checking.Keys, s.now - RETENTION);
  }

  /** The entry a restart makes the mark under this key for: the first unexpired one that has it. */
  ghost predicate Burns(log: seq<Recorded>, now: int, i: int, key: string) {
    && 0 <= i < |log| && Key(log[i].proof) == key && log[i].proof.expiry + 60 > now
    && forall j :: 0 <= j < i && Key(log[j].proof) == key ==> log[j].proof.expiry + 60 <= now
  }

  lemma BurnsInit(log: seq<Recorded>, now: int, key: string)
    requires log != []
    ensures forall i :: i < |log| - 1 ==> (Burns(log[..|log| - 1], now, i, key) <==> Burns(log, now, i, key))
  {
  }

  /** After a restart a mark stands exactly if it did before or an unexpired recorded proof has it, with the date of the first. */
  lemma {:induction false} ReconciledExactly(used: Marks, log: seq<Recorded>, now: int, key: string)
    ensures key in Reconciled(used, log, now) <==> key in used || exists i :: Burns(log, now, i, key)
    ensures key in used ==> Reconciled(used, log, now)[key] == used[key]
    ensures forall i :: key !in used && Burns(log, now, i, key) ==> Reconciled(used, log, now)[key] == log[i].proof.expiry + 60
  {
    if log != [] {
      var init, last := log[..|log| - 1], log[|log| - 1];
      ReconciledExactly(used, init, now, key);
      BurnsInit(log, now, key);
      if Key(last.proof) == key && last.proof.expiry + 60 > now && !(exists i :: Burns(init, now, i, key)) {
        forall j | 0 <= j < |init| && Key(log[j].proof) == key ensures log[j].proof.expiry + 60 <= now {
          FirstBurner(init, now, j, key);
        }
        assert Burns(log, now, |log| - 1, key);
      }
      if i :| Burns(init, now, i, key) {
        assert Burns(log, now, i, key) && !Burns(log, now, |log| - 1, key);
      }
    }
  }

  lemma {:induction false} FirstBurner(log: seq<Recorded>, now: int, j: int, key: string)
    requires 0 <= j < |log| && Key(log[j].proof) == key
    ensures log[j].proof.expiry + 60 <= now || exists i :: Burns(log, now, i, key)
    decreases j
  {
    if log[j].proof.expiry + 60 > now && !Burns(log, now, j, key) {
      var i :| 0 <= i < j && Key(log[i].proof) == key && log[i].proof.expiry + 60 > now;
      FirstBurner(log, now, i, key);
    }
  }

  // ---- Which prune intervals are long enough ----

  /** Every run with verifications this quick and prunes this far from a start accepts each proof at most once. */
  ghost predicate AcceptedAtMostOnce(latency: nat, interval: nat) {
    forall ops :: Timely(Init(interval), ops, latency, interval) ==> Unrepeated(Run(Init(interval), ops, interval).accepted)
  }

  ghost predicate Reachable(t: Sys, latency: nat, interval: nat) {
    exists ops :: Timely(Init(interval), ops, latency, interval) && Run(Init(interval), ops, interval) == t
  }

  lemma {:induction false} RunAppend(s: Sys, ops: seq<Op>, op: Op, latency: nat, interval: nat)
    ensures Run(s, ops + [op], interval) == Step(Run(s, ops, interval), op, interval)
    ensures Timely(s, ops, latency, interval) && TimelyStep(Run(s, ops, interval), op, latency) ==>
              Timely(s, ops + [op], latency, interval)
    decreases |ops|
  {
    if ops == [] {
      assert (ops + [op])[1..] == [];
    } else {
      assert (ops + [op])[1..] == ops[1..] + [op];
      RunAppend(Step(s, ops[0], interval), ops[1..], op, latency, interval);
    }
  }

  lemma Reach(t: Sys, op: Op, latency: nat, interval: nat) returns (u: Sys)
    requires Reachable(t, latency, interval) && TimelyStep(t, op, latency)
    ensures u == Step(t, op, interval) && Reachable(u, latency, interval)
  {
    var ops :| Timely(Init(interval), ops, latency, interval) && Run(Init(interval), ops, interval) == t;
    RunAppend(Init(interval), ops, op, latency, interval);
    u := Step(t, op, interval);
  }

  lemma InitReachable(latency: nat, interval: nat)
    ensures Reachable(Init(interval), latency, interval)
  {
    assert Timely(Init(interval), [], latency, interval) && Run(Init(interval), [], interval) == Init(interval);
  }

  lemma {:induction false} NothingTerminal(log: seq<Recorded>, cutoff: int)
    ensures Survivors(log, {}, cutoff) == log
  {
    if log != [] {
      NothingTerminal(log[..|log| - 1], cutoff);
    }
  }

  /** A new job whose proof passes the gate can be recorded and accepted. */
  lemma ReachAccepted(t: Sys, job: string, p: Proof, latency: nat, interval: nat) returns (u: Sys)
    requires Reachable(t, latency, interval)
    requires !Logged(t.log, job) && job !in t.checking && GateOpen(p, t.now) && Key(p) !in t.used
    ensures Reachable(u, latency, interval)
    ensures u == t.(log := t.log + [Recorded(job, t.now, p)], disk := t.log + [Recorded(job, t.now, p)],
                    used := t.used[Key(p) := p.expiry + SKEW], accepted := t.accepted + [p])
  {
    u := Reach(t, Present(job, p, true), latency, interval);
    u := Reach(u, Decide(job, true, false), latency, interval);
    assert t.checking[job := Check(p, t.now)] - {job} == t.checking;
  }

  /** A second job presents `p` while it is still valid; the only mark, `until`, lapses and is pruned before it is decided. */
  lemma ReachAgain(t: Sys, p: Proof, wait: nat, late: nat, latency: nat, interval: nat) returns (u: Sys)
    requires Reachable(t, latency, interval) && late <= latency
    requires !Logged(t.log, "b") && "b" !in t.checking && GateOpen(p, t.now + wait)
    requires t.used.Keys == {Key(p)} && t.used[Key(p)] <= t.now + wait + late && t.firstPrune <= t.now + wait + late
    ensures Reachable(u, latency, interval) && u.accepted == t.accepted + [p]
  {
    u := Reach(t, Tick(wait), latency, interval);
    u := Reach(u, Present("b", p, true), latency, interval);
    u := Reach(u, Tick(late), latency, interval);
    assert LiveTable(u.used, u.now) == map[];
    u := Reach(u, PruneUsed(false), latency, interval);
    u := Reach(u, Decide("b", true, false), latency, interval);
  }

  lemma RepeatRefutes(t: Sys, p: Proof, latency: nat, interval: nat)
    requires Reachable(t, latency, interval) && t.accepted == [p, p]
    ensures !AcceptedAtMostOnce(latency, interval)
  {
    var ops :| Timely(Init(interval), ops, latency, interval) && Run(Init(interval), ops, interval) == t;
    assert t.accepted[0] == t.accepted[1];
  }

  /** A verification slower than the skew: the mark of the first acceptance lapses under the second. */
  lemma SlowVerificationRepeats(latency: nat, interval: nat)
    requires latency > SKEW
    ensures !AcceptedAtMostOnce(latency, interval)
  {
    var prune: nat := if interval > SKEW then interval else SKEW + 1;
    var p := Proof("owner", "nonce", prune - SKEW);
    InitReachable(latency, interval);
    var s := Reach(Init(interval), Tick(prune - SKEW - 1), latency, interval);
    s := ReachAccepted(s, "a", p, latency, interval);
    s := ReachAgain(s, p, 0, SKEW + 1, latency, interval);
    RepeatRefutes(s, p, latency, interval);
  }

  lemma ReconciledPair(rq: Recorded, ra: Recorded, now: int)
    requires Key(rq.proof) == Key(ra.proof) && now < rq.proof.expiry + SKEW
    ensures Reconciled(map[], [rq, ra], now) == map[Key(rq.proof) := rq.proof.expiry + SKEW]
  {
    assert [rq, ra][..1] == [rq];
    assert [rq][..0] == [];
    assert Reconciled(map[], [], now) == map[];
    assert Reconciled(map[], [rq], now) == map[Key(rq.proof) := rq.proof.expiry + SKEW];
  }

  /** `p` is accepted and its mark lost; the restart burns the nonce for `q`, which was recorded first. */
  lemma ReachShadowed(q: Proof, p: Proof, latency: nat, interval: nat) returns (u: Sys)
    requires Key(q) == Key(p) && q.expiry > 0 && p.expiry == SKEW + TTL + SKEW
    ensures Reachable(u, latency, interval)
    ensures u.now == SKEW && u.firstPrune == SKEW + interval && u.accepted == [p] && u.checking == map[]
    ensures u.log == [Recorded("q", 0, q), Recorded("a", SKEW, p)] && u.used == map[Key(q) := q.expiry + SKEW]
  {
    u := ReachRecordedAccepted(q, p, latency, interval);
    NothingTerminal(u.disk, u.now - RETENTION);
    ReconciledPair(u.disk[0], u.disk[1], u.now);
    u := Reach(u, Restart({}, false, true, false), latency, interval);
  }

  lemma ReachRecordedAccepted(q: Proof, p: Proof, latency: nat, interval: nat) returns (u: Sys)
    requires q.expiry > 0 && p.expiry == SKEW + TTL + SKEW
    ensures Reachable(u, latency, interval)
    ensures u.now == SKEW && u.accepted == [p] && u.usedDisk == map[]
    ensures u.disk == [Recorded("q", 0, q), Recorded("a", SKEW, p)]
  {
    InitReachable(latency, interval);
    u := Reach(Init(interval), Present("q", q, true), latency, interval);
    u := Reach(u, Tick(SKEW), latency, interval);
    u := ReachAccepted(u, "a", p, latency, interval);
  }

  /** A prune this soon after a start: it drops the mark made for another proof while the accepted one is alive. */
  lemma EarlyPruneRepeats(latency: nat, interval: nat)
    requires interval < TTL + SKEW + latency
    ensures !AcceptedAtMostOnce(latency, interval)
  {
    var prune := if interval > 0 then interval else 1;
    var wait := if prune < TTL + SKEW then prune else TTL + SKEW - 1;
    var q, p := Proof("owner", "nonce", prune), Proof("owner", "nonce", SKEW + TTL + SKEW);
    var s := ReachShadowed(q, p, latency, interval);
    s := ReachAgain(s, p, wait, prune - wait, latency, interval);
    RepeatRefutes(s, p, latency, interval);
  }

  /**
   A proof is accepted at most once on every run exactly when verifications take no longer
   than the clock skew and no prune follows a start before every proof gated until then is dead.
   */
  lemma AcceptedOnceIff(latency: nat, interval: nat)
    ensures AcceptedAtMostOnce(latency, interval) <==> SlowEnough(latency, interval)
  {
    if SlowEnough(latency, interval) {
      forall ops | Timely(Init(interval), ops, latency, interval) ensures Unrepeated(Run(Init(interval), ops, interval).accepted) {
        RunKeepsInv(Init(interval), ops, latency, interval);
      }
    } else if latency > SKEW {
      SlowVerificationRepeats(latency, interval);
    } else {
      EarlyPruneRepeats(latency, interval);
    }
  }
}
