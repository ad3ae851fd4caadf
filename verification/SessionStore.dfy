/**
 The session store: mutexes, admitted jobs, transcripts and the running byte counter.
 A file-system call that may fail takes its outcome as a parameter and fails whole.
 */
module SessionStores {
  import opened Prelude
  import opened Transcripts
  import opened ReplayHistory
  import opened Compaction
  import opened SessionFiles
  import opened TurnText

  const COMPACTION_MAX_STRIKES := 2

  datatype AdmittedEntry = AdmittedEntry(live: nat, recovery: set<string>)

  datatype RecoveryRef = RecoveryRef(jobId: string, key: Key)

  /** The files a sweep cannot stat, and those it cannot unlink. */
  datatype Faults = Faults(unstatable: set<Key>, unremovable: set<Key>)

  datatype Limits = Limits(
    ttlMs: int, maxPerCustomer: nat, maxTurnBytes: nat, maxFileBytes: nat,
    globalMaxBytes: nat, globalEvictToBytes: nat, triggerChars: nat, keepChars: nat)

  datatype OpenedSession = OpenedSession(
    stateless: bool, known: bool, messages: seq<Message>, compactionNeeded: bool,
    summarizeText: Option<string>, recordedRoles: set<Role>)

  datatype Forced = NotForced | Rewritten(messages: seq<Message>) | RewriteThrew

  function SessionsOf(files: Files, customerId: string): set<Key> {
    set key | key in files && key.customerId == customerId
  }

  /** Registering jobs in order: the first session named for a job is kept. */
  function Registered(byJob: map<string, Key>, refs: seq<RecoveryRef>): map<string, Key> {
    if refs == [] then byJob
    else
      var init := Registered(byJob, refs[..|refs| - 1]);
      var ref := refs[|refs| - 1];
      if ref.jobId in init then init else init[ref.jobId := ref.key]
  }

  /** A job keeps the session it is registered with; a new one gets the first session named for it. */
  lemma {:induction false} FirstRegistrationStands(byJob: map<string, Key>, refs: seq<RecoveryRef>, job: string)
    ensures job in byJob ==> job in Registered(byJob, refs) && Registered(byJob, refs)[job] == byJob[job]
    ensures job in Registered(byJob, refs) <==> job in byJob || exists i :: 0 <= i < |refs| && refs[i].jobId == job
    ensures forall i :: 0 <= i < |refs| && refs[i].jobId == job && job !in byJob && (forall j :: 0 <= j < i ==> refs[j].jobId != job) ==>
              Registered(byJob, refs)[job] == refs[i].key
  {
    if refs != [] {
      var init := refs[..|refs| - 1];
      FirstRegistrationStands(byJob, init, job);
      assert forall i :: 0 <= i < |init| ==> init[i] == refs[i];
      if i :| 0 <= i < |init| && init[i].jobId == job {
        assert refs[i].jobId == job;
      }
    }
  }

  lemma PutAndTaken<K, V>(m: map<K, V>, k: K, v: V)
    requires k !in m
    ensures m[k := v] - {k} == m
  {
  }

  /** The registrations once all jobs but `rest` have been looked at. */
  ghost predicate Sifted(before: map<string, Key>, after: map<string, Key>, rest: set<string>, isStillPaid: string -> bool) {
    && after.Keys <= before.Keys && (forall job :: job in after ==> after[job] == before[job])
    && forall job :: job in before ==> (job in after <==> job in rest || isStillPaid(job))
  }

  lemma SiftOne(before: map<string, Key>, after: map<string, Key>, rest: set<string>, isStillPaid: string -> bool, job: string)
    requires Sifted(before, after, rest, isStillPaid)
    ensures isStillPaid(job) ==> Sifted(before, after, rest - {job}, isStillPaid)
    ensures !isStillPaid(job) ==> Sifted(before, after - {job}, rest - {job}, isStillPaid)
  {
  }

  lemma SiftedOut(before: map<string, Key>, after: map<string, Key>, isStillPaid: string -> bool)
    requires Sifted(before, after, {}, isStillPaid)
    ensures after == map job | job in before && isStillPaid(job) :: before[job]
  {
  }

  /** A sweep that has passed these sessions: what is gone of them is what could go, and nothing else. */
  ghost predicate Swept(before: Files, after: Files, passed: set<Key>, doomed: set<Key>) {
    && after.Keys <= before.Keys && (forall key :: key in after ==> after[key] == before[key])
    && forall key :: key in before ==> (key in after <==> !(key in passed && key in doomed))
  }

  lemma SweepOne(before: Files, after: Files, passed: set<Key>, doomed: set<Key>, key: Key)
    requires Swept(before, after, passed, doomed)
    ensures key in doomed ==> Swept(before, after - {key}, passed + {key}, doomed)
    ensures key !in doomed ==> Swept(before, after, passed + {key}, doomed)
  {
  }

  lemma SweptOldestFirst(before: Files, after: Files, unstatable: set<Key>, order: seq<Key>, i: nat, doomed: set<Key>)
    requires i <= |order| && Swept(before, after, Passed(order, i), doomed)
    requires OldestFirst(before, before.Keys - unstatable, order) && doomed <= before.Keys - unstatable
    ensures forall gone, kept :: gone in before && gone !in after && kept in after && kept in doomed ==>
              before[gone].mtimeMs <= before[kept].mtimeMs
    ensures forall key :: key in before && key !in after ==> key in doomed
    ensures i == |order| ==> forall key :: key in after ==> key !in doomed
    ensures after == before - (before.Keys - after.Keys)
  {
    forall gone, kept | gone in before && gone !in after && kept in after && kept in doomed
      ensures before[gone].mtimeMs <= before[kept].mtimeMs
    {
      FrontIsOlder(before, before.Keys - unstatable, order, i, gone, kept);
    }
    assert i == |order| ==> order[..i] == order;
  }

  ghost function Passed(order: seq<Key>, i: nat): set<Key>
    requires i <= |order|
  {
    set key | key in order[..i]
  }

  lemma PassOne(order: seq<Key>, i: nat)
    requires i < |order|
    ensures Passed(order, i + 1) == Passed(order, i) + {order[i]}
  {
    assert order[..i + 1] == order[..i] + [order[i]];
  }

  function FreshSession(): OpenedSession {
    OpenedSession(false, false, [], false, None, {})
  }

  /** What opening a transcript that reads gives. */
  ghost predicate Recalls(session: OpenedSession, lines: seq<Line>, exclude: Option<string>, limits: Limits, start: nat) {
    && !session.stateless && session.known
    && session.messages == Replay(lines, exclude)
    && (session.compactionNeeded <==> Weight(session.messages) > limits.triggerChars)
    && (session.compactionNeeded ==>
          SplitAt(lines, limits.keepChars, start) && start <= |lines| && session.summarizeText == Some(SummarizeText(lines[..start])))
    && session.recordedRoles == if exclude.Some? then Recorded(lines, exclude.value) else {}
  }

  ghost predicate Recalled(session: Option<OpenedSession>, outcome: Outcome, exclude: Option<string>, limits: Limits, start: nat) {
    match outcome
    case Threw => session == None
    case Nothing => session == Some(OpenedSession(false, false, [], false, None, {}))
    case Transcript(lines) => session.Some? && Recalls(session.value, lines, exclude, limits, start)
  }

  /** The transcript under a key is the compaction of these lines. */
  ghost predicate CompactedAs(codec: Codec, files: Files, key: Key, lines: seq<Line>, keep: nat, start: nat, summary: string, now: int) {
    && SplitAt(lines, keep, start)
    && key in files
    && files[key] == File(Payload(codec, Compacted(lines, start, keep, summary, now / 1000)), now)
  }

  function LinesOf(outcome: Outcome): seq<Line> {
    if outcome.Transcript? then outcome.lines else []
  }

  lemma NotAfter(files: Files, keys: set<Key>, order: seq<Key>, i: nat, key: Key)
    requires keys <= files.Keys && OldestFirst(files, keys, order) && i < |order| && key in keys && key !in order[..i]
    ensures files[order[i]].mtimeMs <= files[key].mtimeMs
  {
    if key != order[i] {
      assert order[..i + 1] == order[..i] + [order[i]];
      FrontIsOlder(files, keys, order, i + 1, order[i], key);
    }
  }

  // ---- Making room ----

  /** The files once the expired one of this session went, if it can. */
  function Unexpired(files: Files, self: Key, limits: Limits, now: int, faults: Faults): Files {
    FilesAfterExpiry(files, self, limits.ttlMs, now, self !in faults.unstatable && self !in faults.unremovable)
  }

  /**
   What freeing space for one session comes to: nothing goes below the cap; at it idle sessions go,
   oldest first, until the total is at the mark or none is left, and no further than that.
   */
  ghost predicate EvictedTo(before: Files, after: Files, self: Key, evictable: set<Key>, limits: Limits) {
    && after.Keys <= before.Keys && (forall key :: key in after ==> after[key] == before[key])
    && (forall key :: key in before && key !in after ==> key != self && key in evictable)
    && (Total(before) < limits.globalMaxBytes ==> after == before)
    && (forall gone, kept :: gone in before && gone !in after && kept in after && kept != self && kept in evictable ==>
          before[gone].mtimeMs <= before[kept].mtimeMs)
    && (Total(before) >= limits.globalMaxBytes ==>
          Total(after) <= limits.globalEvictToBytes || forall key :: key in after && key != self ==> key !in evictable)
    && (after != before ==>
          exists gone :: gone in before && gone !in after && Total(after) + |before[gone].bytes| > limits.globalEvictToBytes)
  }

  /** The sessions of the same customer that may be given up for this one. */
  ghost function Rivals(files: Files, self: Key, idle: set<Key>, faults: Faults): set<Key> {
    set key | key in files && key.customerId == self.customerId && key != self && key in idle && key !in faults.unstatable
  }

  /** What the customer's cap comes to: below it nothing goes, at it the oldest idle session does, and without one there is no room. */
  ghost predicate CapacityMade(before: Files, after: Files, self: Key, idle: set<Key>, faults: Faults, limits: Limits, listed: bool, room: bool) {
    if !listed || |SessionsOf(before, self.customerId)| < limits.maxPerCustomer then room && after == before
    else
      && (room <==> Rivals(before, self, idle, faults) != {})
      && (!room ==> after == before)
      && (room ==>
            exists victim :: victim in Rivals(before, self, idle, faults)
              && (forall key :: key in Rivals(before, self, idle, faults) ==> before[victim].mtimeMs <= before[key].mtimeMs)
              && after == if victim in faults.unremovable then before else before - {victim})
  }

  /** The rivals among fewer files are the same whoever else was idle before. */
  lemma FewerIdle(before: Files, files: Files, self: Key, idle: set<Key>, still: set<Key>, faults: Faults)
    requires files.Keys <= before.Keys && still == set key | key in files && key in idle
    ensures Rivals(files, self, idle, faults) == Rivals(files, self, still, faults)
  {
  }

  /** How a session is let in: room in bytes first, and for a new one room among its customer's sessions. */
  ghost predicate LetIn(before: Files, evicted: Files, after: Files, self: Key, idle: set<Key>, faults: Faults, limits: Limits,
                        present: bool, listed: bool, room: bool)
  {
    && EvictedTo(before, evicted, self, idle - faults.unstatable - faults.unremovable, limits)
    && if Total(evicted) >= limits.globalMaxBytes then !room && after == evicted
       else if present then room && after == evicted
       else CapacityMade(evicted, after, self, idle, faults, limits, listed, room)
  }

  /** A job runs with no history only when nothing could be given up for it. */
  lemma TurnedAwayMeans(before: Files, evicted: Files, after: Files, self: Key, idle: set<Key>, faults: Faults, limits: Limits,
                        present: bool, listed: bool)
    requires LetIn(before, evicted, after, self, idle, faults, limits, present, listed, false)
    ensures if Total(after) >= limits.globalMaxBytes then
              || Total(after) <= limits.globalEvictToBytes
              || forall key :: key in after && key != self ==> key !in idle || key in faults.unstatable || key in faults.unremovable
            else
              && !present && listed && |SessionsOf(after, self.customerId)| >= limits.maxPerCustomer
              && forall key :: key in after && key.customerId == self.customerId && key != self ==> key !in idle || key in faults.unstatable
  {
    forall key | key in after && key.customerId == self.customerId && key != self && Total(after) < limits.globalMaxBytes
      ensures key !in idle || key in faults.unstatable
    {
      assert key !in Rivals(evicted, self, idle, faults);
    }
  }

  /** Who else was idle, of what is not there any more, does not matter. */
  lemma LetInAnyway(before: Files, evicted: Files, after: Files, self: Key, idle: set<Key>, still: set<Key>, faults: Faults, limits: Limits,
                    present: bool, listed: bool, room: bool)
    requires still == set key | key in before && key in idle
    requires LetIn(before, evicted, after, self, still, faults, limits, present, listed, room)
    ensures LetIn(before, evicted, after, self, idle, faults, limits, present, listed, room)
  {
    FewerIdle(before, evicted, self, idle, (set key | key in evicted && key in idle), faults);
    FewerIdle(before, evicted, self, still, (set key | key in evicted && key in idle), faults);
  }

  /** A session that is let in is read as it was found. */
  lemma CurrentIsLetIn(codec: Codec, limits: Limits, files: Files, evicted: Files, after: Files, self: Key, now: int, faults: Faults,
                       idle: set<Key>, listed: bool, room: bool, io: ReadIo)
    requires self in files && now - files[self].mtimeMs <= limits.ttlMs && room
    requires LetIn(Unexpired(files, self, limits, now, faults), evicted, after,
                   self, idle, faults, limits, true, listed, room)
    ensures OutcomeOfRead(codec, limits.maxFileBytes, after, self, io) == OutcomeOfRead(codec, limits.maxFileBytes, files, self, io)
  {
    assert self in after && after[self] == files[self];
  }

  lemma OldestRival(files: Files, keys: set<Key>, order: seq<Key>, i: nat, rivals: set<Key>)
    requires keys <= files.Keys && OldestFirst(files, keys, order) && i < |order| && rivals <= keys
    requires forall key :: key in order[..i] ==> key !in rivals
    ensures forall key :: key in rivals ==> files[order[i]].mtimeMs <= files[key].mtimeMs
  {
    assert order[i] in order;
    forall key | key in rivals ensures files[order[i]].mtimeMs <= files[key].mtimeMs {
      NotAfter(files, keys, order, i, key);
    }
  }

  /** The mutex of one holder of a session. */
  class Mutex {
    constructor () {}
  }

  class SessionStore {
    const codec: Codec
    const limits: Limits
    var locks: map<Key, Mutex>
    var admitted: map<Key, AdmittedEntry>
    var recoveryByJob: map<string, Key>
    var compactionStrikes: map<Key, nat>
    var globalBytes: int
    /** The transcripts on disk. */
    var files: Files
    /** The release functions that have been handed out and not yet called. */
    ghost var unreleased: map<Mutex, Key>

    // ---- Invariants ----

    /** Each mutex has one unreleased holder, and each unreleased holder its mutex. */
    ghost predicate LocksHeld()
      reads `locks, `unreleased
    {
      && (forall m :: m in unreleased ==> unreleased[m] in locks && locks[unreleased[m]] == m)
      && (forall key :: key in locks ==> locks[key] in unreleased && unreleased[locks[key]] == key)
    }

    /** A job is indexed to a session exactly when that session's recovery set holds it; no entry is empty. */
    ghost predicate Indexed()
      reads `admitted, `recoveryByJob
    {
      && (forall key :: key in admitted ==> admitted[key].live > 0 || admitted[key].recovery != {})
      && (forall job :: job in recoveryByJob ==>
            recoveryByJob[job] in admitted && job in admitted[recoveryByJob[job]].recovery)
      && (forall key, job :: key in admitted && job in admitted[key].recovery ==>
            job in recoveryByJob && recoveryByJob[job] == key)
    }

    ghost predicate Counted()
      reads `files, `globalBytes
    {
      globalBytes == Total(files)
    }

    ghost predicate StrikesLow()
      reads `compactionStrikes
    {
      forall key :: key in compactionStrikes ==> 0 < compactionStrikes[key] < COMPACTION_MAX_STRIKES
    }

    /** The strikes are the ones there were, without those of the sessions that are gone. */
    ghost predicate StrikesFollow(strikes: map<Key, nat>, before: Files)
      reads `compactionStrikes, `files
    {
      && (forall key :: key in compactionStrikes ==> key in strikes && compactionStrikes[key] == strikes[key])
      && (forall key :: key in strikes ==> (key in compactionStrikes <==> key in files || key !in before))
    }

    ghost predicate Valid()
      reads this
    {
      LocksHeld() && Indexed() && Counted() && StrikesLow()
    }

    /** A process start over the transcripts an earlier one left, however it ended. */
    constructor (codec: Codec, limits: Limits, onDisk: Files, now: int, faults: Faults)
      requires faults.unstatable == {}
      ensures Valid() && this.codec == codec && this.limits == limits
      ensures files.Keys <= onDisk.Keys && forall key :: key in files ==> files[key] == onDisk[key]
      ensures forall key :: key in onDisk ==>
                (key !in files <==> onDisk[key].mtimeMs < now - limits.ttlMs && key !in faults.unremovable)
      ensures locks == map[] && admitted == map[] && recoveryByJob == map[] && compactionStrikes == map[]
    {
      this.codec := codec;
      this.limits := limits;
      locks, admitted, recoveryByJob, compactionStrikes := map[], map[], map[], map[];
      files, globalBytes, unreleased := onDisk, 0, map[];
      new;
      globalBytes := SumSizes(files);
      Gc(now, faults);
    }

    // ---- Mutex ----

    method TryAcquire(key: Key) returns (mutex: Option<Mutex>)
      requires LocksHeld()
      modifies `locks, `unreleased
      ensures LocksHeld()
      ensures mutex.None? <==> key in old(locks)
      ensures mutex.None? ==> locks == old(locks) && unreleased == old(unreleased)
      ensures mutex.Some? ==>
                fresh(mutex.value) && locks == old(locks)[key := mutex.value]
                && unreleased == old(unreleased)[mutex.value := key]
    {
      if key in locks {
        return None;
      }
      var entry := new Mutex();
      locks := locks[key := entry];
      unreleased := unreleased[entry := key];
      return Some(entry);
    }

    /** Releasing twice frees nobody: the second call finds another mutex there, or none. */
    method Release(key: Key, mutex: Mutex)
      requires LocksHeld()
      requires mutex in unreleased ==> unreleased[mutex] == key
      modifies `locks, `unreleased
      ensures LocksHeld()
      ensures mutex in old(unreleased) ==> locks == old(locks) - {key} && unreleased == old(unreleased) - {mutex}
      ensures mutex !in old(unreleased) ==> locks == old(locks) && unreleased == old(unreleased)
    {
      if key in locks && locks[key] == mutex {
        locks := locks - {key};
      }
      unreleased := unreleased - {mutex};
    }

    // ---- Admitted jobs ----

    function AdmittedCount(key: Key): nat
      reads `admitted
    {
      if key in admitted then admitted[key].live + |admitted[key].recovery| else 0
    }

    function Entry(key: Key): AdmittedEntry
      reads `admitted
    {
      if key in admitted then admitted[key] else AdmittedEntry(0, {})
    }

    method DropAdmittedIfEmpty(key: Key, entry: AdmittedEntry)
      modifies `admitted
      ensures admitted == if entry.live == 0 && entry.recovery == {} then old(admitted) - {key} else old(admitted)[key := entry]
    {
      admitted := admitted[key := entry];
      if entry.live == 0 && |entry.recovery| == 0 {
        admitted := admitted - {key};
        assert admitted == old(admitted) - {key};
      }
    }

    method AdmitLive(key: Key)
      requires Indexed()
      modifies `admitted
      ensures Indexed()
      ensures AdmittedCount(key) == old(AdmittedCount(key)) + 1
      ensures forall other :: other != key ==> Entry(other) == old(Entry(other))
      ensures Entry(key).recovery == old(Entry(key)).recovery
    {
      var entry := Entry(key);
      admitted := admitted[key := entry.(live := entry.live + 1)];
    }

    method ReleaseLive(key: Key)
      requires Indexed()
      modifies `admitted
      ensures Indexed()
      ensures Entry(key) == AdmittedEntry(if old(Entry(key)).live > 0 then old(Entry(key)).live - 1 else 0, old(Entry(key)).recovery)
      ensures forall other :: other != key ==> Entry(other) == old(Entry(other))
    {
      if key in admitted {
        var entry := admitted[key];
        DropAdmittedIfEmpty(key, entry.(live := if entry.live > 0 then entry.live - 1 else 0));
      }
    }

    method Register(ref: RecoveryRef)
      requires Indexed()
      modifies `admitted, `recoveryByJob
      ensures Indexed()
      ensures recoveryByJob == if ref.jobId in old(recoveryByJob) then old(recoveryByJob) else old(recoveryByJob)[ref.jobId := ref.key]
      ensures forall key :: Entry(key).live == old(Entry(key)).live
    {
      if ref.jobId !in recoveryByJob {
        recoveryByJob := recoveryByJob[ref.jobId := ref.key];
        var entry := Entry(ref.key);
        admitted := admitted[ref.key := entry.(recovery := entry.recovery + {ref.jobId})];
      }
    }

    method Unregister(job: string)
      requires Indexed() && job in recoveryByJob
      modifies `admitted, `recoveryByJob
      ensures Indexed()
      ensures recoveryByJob == old(recoveryByJob) - {job}
      ensures forall key :: Entry(key).live == old(Entry(key)).live
    {
      var key := recoveryByJob[job];
      recoveryByJob := recoveryByJob - {job};
      var entry := admitted[key];
      DropAdmittedIfEmpty(key, entry.(recovery := entry.recovery - {job}));
    }

    method RegisterAll(refs: seq<RecoveryRef>)
      requires Indexed()
      modifies `admitted, `recoveryByJob
      ensures Indexed() && recoveryByJob == Registered(old(recoveryByJob), refs)
      ensures forall key :: Entry(key).live == old(Entry(key)).live
    {
      var i := 0;
      while i < |refs|
        invariant 0 <= i <= |refs|
        invariant Indexed() && recoveryByJob == Registered(old(recoveryByJob), refs[..i])
        invariant forall key :: Entry(key).live == old(Entry(key)).live
      {
        assert refs[..i + 1][..i] == refs[..i];
        Register(refs[i]);
        i := i + 1;
      }
      assert refs[..i] == refs;
    }

    method UnregisterUnpaid(isStillPaid: string -> bool)
      requires Indexed()
      modifies `admitted, `recoveryByJob
      ensures Indexed() && Sifted(old(recoveryByJob), recoveryByJob, {}, isStillPaid)
      ensures forall key :: Entry(key).live == old(Entry(key)).live
    {
      var rest := recoveryByJob.Keys;
      while rest != {}
        invariant rest <= recoveryByJob.Keys
        invariant Indexed() && Sifted(old(recoveryByJob), recoveryByJob, rest, isStillPaid)
        invariant forall key :: Entry(key).live == old(Entry(key)).live
        decreases |rest|
      {
        var job :| job in rest;
        SiftOne(old(recoveryByJob), recoveryByJob, rest, isStillPaid, job);
        rest := rest - {job};
        if !isStillPaid(job) {
          Unregister(job);
        }
      }
    }

    /** Afterwards the registered jobs are exactly the old and the new ones that are still paid. */
    method SyncRecoveryRegistrations(refs: seq<RecoveryRef>, isStillPaid: string -> bool)
      requires Indexed()
      modifies `admitted, `recoveryByJob
      ensures Indexed()
      ensures var wanted := Registered(old(recoveryByJob), refs);
              recoveryByJob == map job | job in wanted && isStillPaid(job) :: wanted[job]
      ensures forall key :: Entry(key).live == old(Entry(key)).live
    {
      RegisterAll(refs);
      ghost var wanted := recoveryByJob;
      UnregisterUnpaid(isStillPaid);
      SiftedOut(wanted, recoveryByJob, isStillPaid);
    }

    // ---- Sweeps ----

    predicate Idle(key: Key)
      reads `locks, `admitted
    {
      key !in locks && AdmittedCount(key) == 0
    }

    ghost function IdleKeys(): set<Key>
      reads `files, `locks, `admitted
    {
      set key | key in files && Idle(key)
    }

    predicate Evictable(key: Key, faults: Faults)
      reads `locks, `admitted
    {
      Idle(key) && key !in faults.unstatable && key !in faults.unremovable
    }

    method DeleteSessionFile(key: Key, faults: Faults)
      requires Counted() && StrikesLow()
      modifies `files, `globalBytes, `compactionStrikes
      ensures Counted() && StrikesLow()
      ensures files == if key in faults.unstatable + faults.unremovable then old(files) else old(files) - {key}
      ensures StrikesFollow(old(compactionStrikes), old(files))
    {
      if key !in files || key in faults.unstatable || key in faults.unremovable {
        assert key !in files ==> files - {key} == files;
        return;
      }
      var size := |files[key].bytes|;
      TotalWithout(files, key);
      files := files - {key};
      globalBytes := if globalBytes - size > 0 then globalBytes - size else 0;
      compactionStrikes := compactionStrikes - {key};
    }

    /** Deletes under the mutex it takes, and only with no admitted job; the mutex is given back. */
    method DeleteIfIdle(key: Key, faults: Faults) returns (deleted: bool)
      requires Valid()
      modifies `files, `globalBytes, `compactionStrikes, `locks, `unreleased
      ensures Valid()
      ensures locks == old(locks) && unreleased == old(unreleased)
      ensures deleted == old(Idle(key))
      ensures files == if old(Evictable(key, faults)) then old(files) - {key} else old(files)
      ensures StrikesFollow(old(compactionStrikes), old(files))
    {
      var release := TryAcquire(key);
      if release.None? {
        return false;
      }
      if AdmittedCount(key) > 0 {
        deleted := false;
      } else {
        DeleteSessionFile(key, faults);
        deleted := true;
      }
      Release(key, release.value);
      PutAndTaken(old(locks), key, release.value);
      PutAndTaken(old(unreleased), release.value, key);
    }

    /** Deletes exactly the sessions past their time that are idle and can be unlinked. */
    method Gc(now: int, faults: Faults)
      requires Valid()
      modifies `files, `globalBytes, `compactionStrikes, `locks, `unreleased
      ensures Valid()
      ensures locks == old(locks) && unreleased == old(unreleased)
      ensures files.Keys <= old(files).Keys && forall key :: key in files ==> files[key] == old(files)[key]
      ensures forall key :: key in old(files) ==>
                (key !in files <==> old(files)[key].mtimeMs < now - limits.ttlMs && old(Evictable(key, faults)))
      ensures StrikesFollow(old(compactionStrikes), old(files))
    {
      var cutoff := now - limits.ttlMs;
      ghost var doomed := set key | key in files && files[key].mtimeMs < cutoff && Evictable(key, faults);
      var rest := files.Keys - faults.unstatable;
      ghost var passed := faults.unstatable;
      while rest != {}
        invariant Valid() && locks == old(locks) && unreleased == old(unreleased)
        invariant rest <= files.Keys && rest + passed >= old(files).Keys
        invariant StrikesFollow(old(compactionStrikes), old(files)) && Swept(old(files), files, passed, doomed)
        decreases |rest|
      {
        var key :| key in rest;
        SweepOne(old(files), files, passed, doomed, key);
        rest, passed := rest - {key}, passed + {key};
        if files[key].mtimeMs >= cutoff {
          continue;
        }
        var _ := DeleteIfIdle(key, faults);
      }
    }

    /**
     Frees space for one session by deleting idle ones, oldest first and never `self`: it ends
     at or below the mark or with nothing left that it may delete, and goes no further than it must.
     */
    method EvictGlobal(self: Key, faults: Faults)
      requires Valid()
      modifies `files, `globalBytes, `compactionStrikes, `locks, `unreleased
      ensures Valid()
      ensures locks == old(locks) && unreleased == old(unreleased)
      ensures files == old(files) - (old(files).Keys - files.Keys)
      ensures StrikesFollow(old(compactionStrikes), old(files))
      ensures forall key :: key in old(files) && key !in files ==> key != self && old(Evictable(key, faults))
      ensures forall gone, kept :: gone in old(files) && gone !in files && kept in files && kept != self && old(Evictable(kept, faults)) ==>
                old(files)[gone].mtimeMs <= files[kept].mtimeMs
      ensures globalBytes <= limits.globalEvictToBytes
              || forall key :: key in files && key != self ==> !old(Evictable(key, faults))
      ensures files != old(files) ==>
                exists gone :: gone in old(files) && gone !in files && globalBytes + |old(files)[gone].bytes| > limits.globalEvictToBytes
    {
      var order := SortByAge(files, files.Keys - faults.unstatable);
      ghost var doomed := set key | key in files && key != self && Evictable(key, faults);
      ghost var i, last := EvictInOrder(order, self, faults, doomed);
      SweptOldestFirst(old(files), files, faults.unstatable, order, i, doomed);
    }

    method EvictOne(key: Key, self: Key, faults: Faults, ghost goes: bool)
      requires Valid() && key in files && (goes <==> key != self && Evictable(key, faults))
      modifies `files, `globalBytes, `compactionStrikes, `locks, `unreleased
      ensures Valid()
      ensures locks == old(locks) && unreleased == old(unreleased) && StrikesFollow(old(compactionStrikes), old(files))
      ensures files == if goes then old(files) - {key} else old(files)
      ensures globalBytes == old(globalBytes) - (if goes then |old(files)[key].bytes| else 0)
    {
      TotalWithout(files, key);
      if key != self {
        var _ := DeleteIfIdle(key, faults);
      }
    }

    method EvictInOrder(order: seq<Key>, self: Key, faults: Faults, ghost doomed: set<Key>) returns (ghost passed: nat, ghost last: Key)
      requires Valid() && doomed == set key | key in files && key != self && Evictable(key, faults)
      requires (forall key :: key in order ==> key in files) && forall i, j :: 0 <= i < j < |order| ==> order[i] != order[j]
      modifies `files, `globalBytes, `compactionStrikes, `locks, `unreleased
      ensures Valid()
      ensures locks == old(locks) && unreleased == old(unreleased) && StrikesFollow(old(compactionStrikes), old(files))
      ensures passed <= |order| && Swept(old(files), files, Passed(order, passed), doomed)
      ensures passed == |order| || globalBytes <= limits.globalEvictToBytes
      ensures files == old(files)
              || (last in old(files) && last !in files && globalBytes + |old(files)[last].bytes| > limits.globalEvictToBytes)
    {
      last := self;
      var i := 0;
      while i < |order|
        invariant 0 <= i <= |order|
        invariant Valid() && locks == old(locks) && unreleased == old(unreleased)
        invariant StrikesFollow(old(compactionStrikes), old(files)) && Swept(old(files), files, Passed(order, i), doomed)
        invariant files == old(files)
                  || (last in old(files) && last !in files && globalBytes + |old(files)[last].bytes| > limits.globalEvictToBytes)
      {
        if globalBytes <= limits.globalEvictToBytes {
          break;
        }
        SweepOne(old(files), files, Passed(order, i), doomed, order[i]);
        PassOne(order, i);
        assert order[i] !in order[..i];
        if order[i] in doomed {
          last := order[i];
        }
        EvictOne(order[i], self, faults, order[i] in doomed);
        i := i + 1;
      }
      passed := i;
    }

    /**
     Room for one more session of a customer: at the cap its oldest idle session goes. It says
     yes for an idle one it then failed to unlink.
     */
    method EnsureCustomerCapacity(self: Key, listed: bool, faults: Faults) returns (room: bool)
      requires Valid()
      modifies `files, `globalBytes, `compactionStrikes, `locks, `unreleased
      ensures Valid()
      ensures locks == old(locks) && unreleased == old(unreleased) && StrikesFollow(old(compactionStrikes), old(files))
      ensures CapacityMade(old(files), files, self, old(IdleKeys()), faults, limits, listed, room)
    {
      var entries := SessionsOf(files, self.customerId);
      if !listed || |entries| < limits.maxPerCustomer {
        return true;
      }
      ghost var rivals := Rivals(files, self, IdleKeys(), faults);
      var candidates := entries - faults.unstatable;
      var order := SortByAge(files, candidates);
      var i := 0;
      while i < |order|
        invariant 0 <= i <= |order|
        invariant files == old(files) && globalBytes == old(globalBytes) && compactionStrikes == old(compactionStrikes)
        invariant locks == old(locks) && unreleased == old(unreleased)
        invariant forall key :: key in order[..i] ==> key !in rivals
      {
        if order[i] != self {
          ghost var chosen := order[i];
          assert chosen in order;
          var deleted := DeleteIfIdle(order[i], faults);
          if deleted {
            OldestRival(old(files), candidates, order, i, rivals);
            return true;
          }
        }
        assert order[..i + 1] == order[..i] + [order[i]];
        i := i + 1;
      }
      assert order[..i] == order;
      return false;
    }

    // ---- Reading ----

    method Quarantine(key: Key, size: nat, renamed: bool)
      requires Counted() && StrikesLow() && key in files && size == |files[key].bytes|
      modifies `files, `globalBytes, `compactionStrikes
      ensures Counted() && StrikesLow()
      ensures files == if renamed then old(files) - {key} else old(files)
      ensures StrikesFollow(old(compactionStrikes), old(files))
    {
      if renamed {
        TotalWithout(files, key);
        files := files - {key};
        globalBytes := if globalBytes - size > 0 then globalBytes - size else 0;
        compactionStrikes := compactionStrikes - {key};
      }
    }

    /** Publishes a whole file under a key; the counter follows the change of size. */
    method WriteWhole(key: Key, bytes: seq<Byte>, now: int)
      requires Counted()
      modifies `files, `globalBytes
      ensures Counted()
      ensures files == old(files)[key := File(bytes, now)]
    {
      var oldSize := Size(files, key);
      TotalWritten(files, key, File(bytes, now));
      TotalBounds(files, key);
      files := files[key := File(bytes, now)];
      var next := globalBytes - oldSize + |bytes|;
      globalBytes := if next > 0 then next else 0;
    }

    method ReadSessionLines(key: Key, io: ReadIo, now: int) returns (outcome: Outcome)
      requires Counted() && StrikesLow()
      modifies `files, `globalBytes, `compactionStrikes
      ensures Counted() && StrikesLow()
      ensures outcome == OutcomeOfRead(codec, limits.maxFileBytes, old(files), key, io)
      ensures files == FilesAfterRead(codec, limits.maxFileBytes, old(files), key, io, now)
      ensures StrikesFollow(old(compactionStrikes), old(files))
    {
      if key !in files || !io.readable {
        return Nothing;
      }
      var bytes := files[key].bytes;
      if |bytes| > limits.maxFileBytes {
        Quarantine(key, |bytes|, io.renamed);
        return Nothing;
      }
      var reading := ReadTranscript(codec, bytes);
      if reading.Corrupt? {
        Quarantine(key, |bytes|, io.renamed);
        return Nothing;
      }
      if reading.torn {
        if !io.rewritten {
          return Threw;
        }
        WriteWhole(key, Payload(codec, reading.lines), now);
      }
      return Transcript(reading.lines);
    }

    // ---- Opening a session ----

    ghost predicate Expired(key: Key, now: int)
      reads `files
    {
      PastTtl(files, key, limits.ttlMs, now)
    }

    /** The byte cap: idle sessions go only when it is reached. */
    method FreeBytes(self: Key, faults: Faults) returns (room: bool)
      requires Valid()
      modifies `files, `globalBytes, `compactionStrikes, `locks, `unreleased
      ensures Valid()
      ensures locks == old(locks) && unreleased == old(unreleased)
      ensures EvictedTo(old(files), files, self, old(IdleKeys()) - faults.unstatable - faults.unremovable, limits)
      ensures room <==> Total(files) < limits.globalMaxBytes
    {
      if globalBytes >= limits.globalMaxBytes {
        EvictGlobal(self, faults);
        if globalBytes >= limits.globalMaxBytes {
          return false;
        }
      }
      return true;
    }

    /** The caps: the byte cap first, and for a new session its customer's cap. */
    method MakeRoom(self: Key, present: bool, listed: bool, faults: Faults) returns (room: bool, ghost evicted: Files)
      requires Valid()
      modifies `files, `globalBytes, `compactionStrikes, `locks, `unreleased
      ensures Valid()
      ensures locks == old(locks) && unreleased == old(unreleased)
      ensures LetIn(old(files), evicted, files, self, old(IdleKeys()), faults, limits, present, listed, room)
    {
      room := FreeBytes(self, faults);
      evicted := files;
      if !room || present {
        return;
      }
      FewerIdle(old(files), files, self, old(IdleKeys()), IdleKeys(), faults);
      room := EnsureCustomerCapacity(self, listed, faults);
    }

    method Recall(self: Key, exclude: Option<string>, io: ReadIo, now: int) returns (session: Option<OpenedSession>, ghost start: nat)
      requires Counted() && StrikesLow()
      modifies `files, `globalBytes, `compactionStrikes
      ensures Counted() && StrikesLow() && StrikesFollow(old(compactionStrikes), old(files))
      ensures files == FilesAfterRead(codec, limits.maxFileBytes, old(files), self, io, now)
      ensures Recalled(session, OutcomeOfRead(codec, limits.maxFileBytes, old(files), self, io), exclude, limits, start)
    {
      start := 0;
      var outcome := ReadSessionLines(self, io, now);
      match outcome
      case Threw => return None, 0;
      case Nothing => return Some(FreshSession()), 0;
      case Transcript(lines) =>
        var messages := AssembleReplay(lines, exclude);
        var needed := Weight(messages) > limits.triggerChars;
        var text := None;
        if needed {
          var tail := KeptTailStart(lines, limits.keepChars);
          start := tail;
          var summarized := BuildSummarizeText(lines, tail);
          text := Some(summarized);
        }
        var roles := if exclude.Some? then Recorded(lines, exclude.value) else {};
        return Some(OpenedSession(false, true, messages, needed, text, roles)), start;
    }

    /**
     Opens a session under its mutex. An expired one is never replayed; a transcript that reads
     is replayed whole; a job runs with no history exactly when no room could be made.
     */
    method Open(self: Key, exclude: Option<string>, now: int, listed: bool, faults: Faults, io: ReadIo)
      returns (session: Option<OpenedSession>, ghost start: nat, ghost room: bool, ghost evicted: Files, ghost admitted: Files)
      requires Valid()
      modifies `files, `globalBytes, `compactionStrikes, `locks, `unreleased
      ensures Valid()
      ensures locks == old(locks) && unreleased == old(unreleased)
      ensures var unexpired := old(Unexpired(files, self, limits, now, faults));
              LetIn(unexpired, evicted, admitted, self, old(IdleKeys()), faults, limits, old(IsCurrent(self, now)), listed, room)
      ensures !room ==> session == Some(OpenedSession(true, false, [], false, None, {})) && files == admitted
      ensures room && !old(IsCurrent(self, now)) ==> session == Some(OpenedSession(false, false, [], false, None, {})) && files == admitted
      ensures room && old(IsCurrent(self, now)) ==>
                && files == FilesAfterRead(codec, limits.maxFileBytes, admitted, self, io, now)
                && Recalled(session, OutcomeOfRead(codec, limits.maxFileBytes, old(files), self, io), exclude, limits, start)
    {
      start := 0;
      var present, fits;
      present, fits, evicted := Admit(self, now, listed, faults);
      room, admitted := fits, files;
      if !fits {
        session := Some(FreshSession().(stateless := true));
        return;
      }
      if !present {
        session := Some(FreshSession());
        return;
      }
      CurrentIsLetIn(codec, limits, old(files), evicted, admitted, self, now, faults, old(IdleKeys()), listed, room, io);
      session, start := Recall(self, exclude, io, now);
    }

    predicate IsCurrent(key: Key, now: int)
      reads `files
    {
      key in files && now - files[key].mtimeMs <= limits.ttlMs
    }

    /** Expiry, then the caps: whether there is a session to replay, and whether there is room for this one. */
    method Admit(self: Key, now: int, listed: bool, faults: Faults) returns (present: bool, room: bool, ghost evicted: Files)
      requires Valid()
      modifies `files, `globalBytes, `compactionStrikes, `locks, `unreleased
      ensures Valid()
      ensures locks == old(locks) && unreleased == old(unreleased)
      ensures present == old(IsCurrent(self, now))
      ensures var unexpired := old(Unexpired(files, self, limits, now, faults));
              LetIn(unexpired, evicted, files, self, old(IdleKeys()), faults, limits, present, listed, room)
    {
      present := DropExpired(self, now, faults);
      ghost var idle, unexpired := IdleKeys(), files;
      room, evicted := MakeRoom(self, present, listed, faults);
      LetInAnyway(unexpired, evicted, files, self, old(IdleKeys()), idle, faults, limits, present, listed, room);
    }

    method DropExpired(self: Key, now: int, faults: Faults) returns (present: bool)
      requires Counted() && StrikesLow()
      modifies `files, `globalBytes, `compactionStrikes
      ensures Counted() && StrikesLow()
      ensures present <==> old(IsCurrent(self, now))
      ensures files == Unexpired(old(files), self, limits, now, faults)
    {
      present := self in files;
      if present && now - files[self].mtimeMs > limits.ttlMs {
        DeleteSessionFile(self, faults);
        present := false;
      }
    }

    // ---- Recording and compaction ----

    /** Adds both turns in one write, or, when the write fails, nothing. */
    method AppendExchange(key: Key, exchange: Exchange, now: int, appended: bool)
      requires Counted() && limits.maxTurnBytes >= |MARKER|
      modifies `files, `globalBytes
      ensures Counted()
      ensures var lines := ExchangeLines(exchange, limits.maxTurnBytes, now / 1000);
              files == if lines == [] || !appended then old(files) else FilesAfterAppend(codec, old(files), key, lines, now)
    {
      var lines: seq<Line> := [];
      if User !in exchange.skipRoles {
        var content := TruncateTurn(exchange.userContent, limits.maxTurnBytes);
        lines := lines + [Turn(User, content, exchange.jobId, now / 1000)];
      }
      if Assistant !in exchange.skipRoles {
        var content := TruncateTurn(exchange.assistantContent, limits.maxTurnBytes);
        lines := lines + [Turn(Assistant, content, exchange.jobId, now / 1000)];
      }
      assert lines == ExchangeLines(exchange, limits.maxTurnBytes, now / 1000);
      if lines == [] || !appended {
        return;
      }
      var payload := Payload(codec, lines);
      var grown := File((if key in files then files[key].bytes else []) + payload, now);
      TotalWritten(files, key, grown);
      files := files[key := grown];
      globalBytes := globalBytes + |payload|;
    }

    /** The transcript becomes the summary and the kept tail; a write that fails leaves it as it was read. */
    method RewriteWithSummary(key: Key, summary: string, io: ReadIo, written: bool, now: int)
      returns (messages: Option<seq<Message>>, ghost start: nat)
      requires Counted() && StrikesLow()
      modifies `files, `globalBytes, `compactionStrikes
      ensures Counted() && StrikesLow() && (key !in old(compactionStrikes) ==> key !in compactionStrikes)
      ensures var outcome := OutcomeOfRead(codec, limits.maxFileBytes, old(files), key, io);
              var lines := LinesOf(outcome);
              var read := FilesAfterRead(codec, limits.maxFileBytes, old(files), key, io, now);
              if outcome.Threw? || !written then messages == None && files == read
              else
                && SplitAt(lines, limits.keepChars, start)
                && files == read[key := File(Payload(codec, Compacted(lines, start, limits.keepChars, summary, now / 1000)), now)]
                && messages == Some(Replay(Compacted(lines, start, limits.keepChars, summary, now / 1000), None))
    {
      start := 0;
      var outcome := ReadSessionLines(key, io, now);
      if outcome.Threw? {
        return None, 0;
      }
      var lines := LinesOf(outcome);
      var tailStart := KeptTailStart(lines, limits.keepChars);
      start := tailStart;
      if !written {
        return None, start;
      }
      var rewritten := Compacted(lines, tailStart, limits.keepChars, summary, now / 1000);
      WriteWhole(key, Payload(codec, rewritten), now);
      var replayed := AssembleReplay(rewritten, None);
      messages := Some(replayed);
    }

    /** A blank summary throws and changes nothing. */
    method Compact(key: Key, summary: string, io: ReadIo, written: bool, now: int) returns (messages: Option<seq<Message>>, ghost start: nat)
      requires Counted() && StrikesLow()
      modifies `files, `globalBytes, `compactionStrikes
      ensures Counted() && StrikesLow()
      ensures IsBlank(summary) ==> messages == None && files == old(files) && compactionStrikes == old(compactionStrikes)
      ensures messages.Some? ==>
                && key !in compactionStrikes
                && CompactedAs(codec, files, key, LinesOf(OutcomeOfRead(codec, limits.maxFileBytes, old(files), key, io)),
                               limits.keepChars, start, summary, now)
                && messages.value == Replay(Compacted(LinesOf(OutcomeOfRead(codec, limits.maxFileBytes, old(files), key, io)),
                                                      start, limits.keepChars, summary, now / 1000), None)
      ensures messages.None? && !IsBlank(summary) ==> files == FilesAfterRead(codec, limits.maxFileBytes, old(files), key, io, now)
    {
      if IsBlank(summary) {
        return None, 0;
      }
      messages, start := RewriteWithSummary(key, summary, io, written, now);
      if messages.Some? {
        compactionStrikes := compactionStrikes - {key};
      }
    }

    /**
     The second failure in a row rewrites without a summary, and what is left then replays
     within the fixed text, the keep budget and two characters a join.
     */
    method CompactionFailed(key: Key, io: ReadIo, written: bool, now: int) returns (forced: Forced, ghost start: nat)
      requires Counted() && StrikesLow()
      modifies `files, `globalBytes, `compactionStrikes
      ensures Counted() && StrikesLow()
      ensures forced.NotForced? <==> key !in old(compactionStrikes)
      ensures key in compactionStrikes <==> key !in old(compactionStrikes)
      ensures forced.NotForced? ==> files == old(files)
      ensures forced.RewriteThrew? <==>
                key in old(compactionStrikes) && (!written || OutcomeOfRead(codec, limits.maxFileBytes, old(files), key, io).Threw?)
      ensures var lines := LinesOf(OutcomeOfRead(codec, limits.maxFileBytes, old(files), key, io));
              forced.Rewritten? ==>
                && CompactedAs(codec, files, key, lines, limits.keepChars, start, UNAVAILABLE, now)
                && Weight(forced.messages)
                   <= |SUMMARY_PREFIX| + 1 + |UNAVAILABLE| + limits.keepChars + |MARKER| + 2 * (1 + |lines| - start)
    {
      start := 0;
      var strikes := (if key in compactionStrikes then compactionStrikes[key] else 0) + 1;
      if strikes < COMPACTION_MAX_STRIKES {
        compactionStrikes := compactionStrikes[key := strikes];
        return NotForced, 0;
      }
      compactionStrikes := compactionStrikes - {key};
      var messages;
      messages, start := RewriteWithSummary(key, UNAVAILABLE, io, written, now);
      if messages.None? {
        return RewriteThrew, start;
      }
      CompactedReplayBound(LinesOf(OutcomeOfRead(codec, limits.maxFileBytes, old(files), key, io)), limits.keepChars, start, UNAVAILABLE, now / 1000);
      forced := Rewritten(messages.value);
    }
  }
}
