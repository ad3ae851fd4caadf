/**
 The recovery loop's backoff: which jobs are held back, until when, and what the last look
 at them saw. Times and intervals share one unit; a tick is one interval.
 */
module Deferrals {
  import opened Prelude
  import opened Ledger
  import Recovery

  /** Backoff ladder in ticks; the last rung repeats. */
  const RUNGS: seq<int> := [1, 2, 5, 15, 30, 60]
  const CONFIRMATION_RUNG: int := 3

  function Rung(attempts: int): int
    requires attempts >= 1
  {
    RUNGS[(if attempts < |RUNGS| then attempts else |RUNGS|) - 1]
  }

  /** `jitter` is in [-1, 1] and moves the wait by half a tick at most. */
  function Delay(attempts: int, interval: real, jitter: real): real
    requires attempts >= 1
  {
    Rung(attempts) as real * interval + jitter * 0.5 * interval
  }

  datatype Deferral = Deferral(attempts: int, nextAttemptAt: real, firstDeferredAt: real, sawNoPayment: bool)

  type Table = map<JobId, Deferral>

  function Peek(table: Table, job: JobId): Option<Deferral> {
    if job in table then Some(table[job]) else None
  }

  function Attempts(d: Option<Deferral>): int {
    if d.Some? then d.value.attempts else 0
  }

  function FirstDeferred(d: Option<Deferral>, now: real): real {
    if d.Some? then d.value.firstDeferredAt else now
  }

  /** `random` is in [0, 1). */
  function Noted(d: Option<Deferral>, sawNoPayment: bool, now: real, interval: real, random: real): Deferral
    requires Attempts(d) >= 0
  {
    var attempts := Attempts(d) + 1;
    var rung := if sawNoPayment && attempts < CONFIRMATION_RUNG then CONFIRMATION_RUNG else attempts;
    Deferral(attempts, now + Delay(rung, interval, random * 2.0 - 1.0), FirstDeferred(d, now), sawNoPayment)
  }

  function Awaited(d: Option<Deferral>, now: real, interval: real, random: real): Deferral {
    Deferral(Attempts(d), now + Delay(1, interval, random * 2.0 - 1.0), FirstDeferred(d, now), false)
  }

  function Parked(d: Option<Deferral>, now: real, interval: real, random: real): Deferral {
    Deferral(Attempts(d), now + random * interval, FirstDeferred(d, now), d.Some? && d.value.sawNoPayment)
  }

  class RecoveryDeferrals {
    const interval: real
    var deferrals: Table

    ghost predicate Valid()
      reads this
    {
      interval > 0.0 && forall j :: j in deferrals ==> deferrals[j].attempts >= 0
    }

    constructor (interval: real)
      requires interval > 0.0
      ensures Valid() && deferrals == map[] && this.interval == interval
    {
      this.interval := interval;
      deferrals := map[];
    }

    method Note(job: JobId, sawNoPayment: bool, now: real, random: real)
      requires Valid()
      modifies this
      ensures Valid()
      ensures deferrals == old(deferrals)[job := Noted(Peek(old(deferrals), job), sawNoPayment, now, interval, random)]
    {
      var attempts := (if job in deferrals then deferrals[job].attempts else 0) + 1;
      var rung := attempts;
      if sawNoPayment && rung < CONFIRMATION_RUNG {
        rung := CONFIRMATION_RUNG;
      }
      var delay := Delay(rung, interval, random * 2.0 - 1.0);
      var first := if job in deferrals then deferrals[job].firstDeferredAt else now;
      deferrals := deferrals[job := Deferral(attempts, now + delay, first, sawNoPayment)];
    }

    method NoteAwaitingWindow(job: JobId, now: real, random: real)
      requires Valid()
      modifies this
      ensures Valid()
      ensures deferrals == old(deferrals)[job := Awaited(Peek(old(deferrals), job), now, interval, random)]
    {
      var attempts := if job in deferrals then deferrals[job].attempts else 0;
      var delay := Delay(1, interval, random * 2.0 - 1.0);
      var first := if job in deferrals then deferrals[job].firstDeferredAt else now;
      deferrals := deferrals[job := Deferral(attempts, now + delay, first, false)];
    }

    method ParkForCapacity(job: JobId, now: real, random: real)
      requires Valid()
      modifies this
      ensures Valid()
      ensures deferrals == old(deferrals)[job := Parked(Peek(old(deferrals), job), now, interval, random)]
    {
      var attempts := if job in deferrals then deferrals[job].attempts else 0;
      var first := if job in deferrals then deferrals[job].firstDeferredAt else now;
      var saw := job in deferrals && deferrals[job].sawNoPayment;
      deferrals := deferrals[job := Deferral(attempts, now + random * interval, first, saw)];
    }

    method Clear(job: JobId)
      requires Valid()
      modifies this
      ensures Valid() && deferrals == old(deferrals) - {job}
    {
      deferrals := deferrals - {job};
    }

    method SawNoPaymentLast(job: JobId) returns (saw: bool)
      ensures saw <==> job in deferrals && deferrals[job].sawNoPayment
    {
      saw := job in deferrals && deferrals[job].sawNoPayment;
    }

    method IsDeferred(job: JobId, now: real) returns (deferred: bool)
      ensures deferred <==> job in deferrals && now < deferrals[job].nextAttemptAt
    {
      deferred := job in deferrals && now < deferrals[job].nextAttemptAt;
    }

    /** Forget the jobs that left the pending set. */
    method Sweep(stillPending: set<JobId>)
      requires Valid()
      modifies this
      ensures Valid() && deferrals == map j | j in old(deferrals) && j in stillPending :: old(deferrals)[j]
    {
      var todo := deferrals.Keys;
      while todo != {}
        invariant Valid() && todo <= old(deferrals).Keys
        invariant deferrals == map j | j in old(deferrals) && (j in todo || j in stillPending) :: old(deferrals)[j]
        decreases todo
      {
        var job :| job in todo;
        todo := todo - {job};
        if job !in stillPending {
          deferrals := deferrals - {job};
        }
      }
    }
  }

  // ---- Whole runs over one job, in ticks ----

  const TICK := 1.0

  /**
   A look at the job: when it ran, what it met, the entry it read, how the probes of the endpoint
   up to its end came out, and what it concluded.
   */
  datatype Look = Look(
    start: real,
    end: real,
    met: Recovery.Circumstances,
    entry: Entry,
    probes: seq<Recovery.ProbeResult>,
    concluded: Recovery.ReVerification)

  /** The look found nobody paid, and had the evidence for saying so. */
  ghost predicate Empty(look: Look) {
    look.concluded == Recovery.NoPayment && Recovery.Evidence(look.met, look.entry, look.probes)
  }

  /** What the re-verification promises of a look: `RecoveryLoops` builds looks with it and nothing else. */
  ghost predicate Faithful(look: Look) {
    look.start <= look.end && (look.concluded == Recovery.NoPayment ==> Empty(look))
  }

  predicate Inconclusive(look: Look) {
    look.concluded == Recovery.Deferred || look.concluded == Recovery.NoPayment
  }

  datatype Event =
    | Looked(look: Look, random: real)
    | ParkedFor(at: real, random: real)
    | Swept(at: real)
    | Restarted(at: real, closingLost: bool)

  /**
   `since` is how many looks were over when the job was last forgotten, `firstNote` the end of
   the look that then first put it on the ladder; `over` says a look closed the job. Closing
   flushes the ledger, and a restart whose `closingLost` is set finds that this flush was lost.
   */
  datatype Track = Track(
    clock: real, held: Option<Deferral>, looks: seq<Look>, since: nat, firstNote: real, over: bool, failedUnpaid: bool)

  predicate Due(t: Track, at: real) {
    t.held.Some? ==> t.held.value.nextAttemptAt <= at
  }

  /** A look or a park happens only to a job that is not held back; the clock never runs backwards. */
  ghost predicate May(t: Track, ev: Event) {
    match ev
    case Looked(look, random) =>
      t.clock <= look.start && Faithful(look) && Due(t, look.start) && 0.0 <= random < 1.0 && !t.over
    case ParkedFor(at, random) => t.clock <= at && Due(t, at) && 0.0 <= random < 1.0
    case Swept(at) => t.clock <= at
    case Restarted(at, _) => t.clock <= at
  }

  predicate SawNoPayment(t: Track) {
    t.held.Some? && t.held.value.sawNoPayment
  }

  function Climbed(t: Track, saw: bool, end: real, random: real): Track
    requires Attempts(t.held) >= 0
  {
    t.(held := Some(Noted(t.held, saw, end, TICK, random)), firstNote := if Attempts(t.held) == 0 then end else t.firstNote)
  }

  /** The looks at a closed job stay the ones that closed it. */
  function Forgotten(t: Track): Track {
    if t.over then t.(held := None) else t.(held := None, since := |t.looks|)
  }

  /** How the recovery loop routes what a look concluded. */
  function AfterLook(t: Track, look: Look, random: real): Track
    requires Attempts(t.held) >= 0
  {
    var seen := t.(clock := look.end, looks := t.looks + [look]);
    match look.concluded
    case Confirmed => Forgotten(seen)
    case CorruptState => seen.(over := true)
    case AwaitingWindow => seen.(held := Some(Awaited(t.held, look.end, TICK, random)))
    case Deferred => Climbed(seen, false, look.end, random)
    case NoPayment =>
      if SawNoPayment(t) then seen.(over := true, failedUnpaid := true) else Climbed(seen, true, look.end, random)
  }

  function Step(t: Track, ev: Event): Track
    requires Attempts(t.held) >= 0
  {
    match ev
    case Looked(look, random) => AfterLook(t, look, random)
    case ParkedFor(at, random) => t.(clock := at, held := Some(Parked(t.held, at, TICK, random)))
    case Swept(at) => Forgotten(t.(clock := at))
    case Restarted(at, closingLost) =>
      Forgotten(if closingLost then t.(clock := at, over := false, failedUnpaid := false) else t.(clock := at))
  }

  // ---- Two sightings ----

  function Last(looks: seq<Look>): Look
    requires looks != []
  {
    looks[|looks| - 1]
  }

  /** The sighting that a next empty look may turn into a verdict: the last look, at least 4.5 ticks before. */
  ghost predicate SightingOk(t: Track) {
    SawNoPayment(t) && !t.over ==>
      t.since < |t.looks| && Empty(Last(t.looks)) && t.held.value.nextAttemptAt >= Last(t.looks).end + 4.5
  }

  /** Two empty looks in a row, the second starting at least 4.5 ticks after the first ended. */
  ghost predicate TwoSightings(looks: seq<Look>) {
    && |looks| >= 2
    && Empty(looks[|looks| - 2]) && Empty(looks[|looks| - 1])
    && looks[|looks| - 1].start >= looks[|looks| - 2].end + 4.5
  }

  // ---- The ladder ----

  /** Sum of (rung - 1/2) over the first n deferrals, in ticks. */
  function Ladder(n: nat): real {
    if n == 0 then 0.0 else Ladder(n - 1) + Rung(n) as real - 0.5
  }

  predicate LadderOk(t: Track) {
    && Attempts(t.held) >= 0
    && (Attempts(t.held) > 0 ==> t.held.value.nextAttemptAt >= t.firstNote + Ladder(Attempts(t.held)))
  }

  // ---- Counting looks ----

  function CountInconclusive(looks: seq<Look>): nat {
    if looks == [] then 0
    else CountInconclusive(looks[..|looks| - 1]) + (if Inconclusive(Last(looks)) then 1 else 0)
  }

  /** The inconclusive looks that started by then. */
  function CountBy(looks: seq<Look>, until: real): nat {
    if looks == [] then 0
    else CountBy(looks[..|looks| - 1], until) + (if Inconclusive(Last(looks)) && Last(looks).start <= until then 1 else 0)
  }

  /** When the first inconclusive look ended. */
  function FirstEnd(looks: seq<Look>): real
    requires CountInconclusive(looks) > 0
  {
    if CountInconclusive(looks[..|looks| - 1]) > 0 then FirstEnd(looks[..|looks| - 1]) else Last(looks).end
  }

  /** The looks since the job was last forgotten. */
  function Recent(t: Track): seq<Look>
    requires t.since <= |t.looks|
  {
    t.looks[t.since..]
  }

  const DAY := 1440.0

  /** The stored count and first note are those of these looks, and few of them started within a day. */
  predicate Tallied(looks: seq<Look>, attempts: int, firstNote: real, over: bool) {
    && (!over ==> attempts == CountInconclusive(looks))
    && (!over && CountInconclusive(looks) > 0 ==> firstNote == FirstEnd(looks))
    && (CountInconclusive(looks) > 0 ==> CountBy(looks, FirstEnd(looks) + DAY) <= 29)
  }

  predicate CountOk(t: Track) {
    t.since <= |t.looks| && Tallied(Recent(t), Attempts(t.held), t.firstNote, t.over)
  }

  lemma {:induction false} CountByIsLess(looks: seq<Look>, until: real)
    ensures CountBy(looks, until) <= CountInconclusive(looks)
  {
    if looks != [] {
      CountByIsLess(looks[..|looks| - 1], until);
    }
  }

  lemma OneMoreLook(looks: seq<Look>, look: Look)
    ensures (looks + [look])[..|looks|] == looks && Last(looks + [look]) == look
  {
  }

  /** The inconclusive looks stay few, when one that starts within the day found at most 28 before it. */
  lemma CountKept(looks: seq<Look>, look: Look)
    requires CountInconclusive(looks) > 0 ==> CountBy(looks, FirstEnd(looks) + DAY) <= 29
    requires CountInconclusive(looks) > 0 && look.start <= FirstEnd(looks) + DAY ==> CountInconclusive(looks) <= 28
    ensures CountInconclusive(looks) > 0 ==> FirstEnd(looks + [look]) == FirstEnd(looks)
    ensures CountInconclusive(looks) == 0 && Inconclusive(look) ==> FirstEnd(looks + [look]) == look.end
    ensures CountInconclusive(looks + [look]) > 0 ==> CountBy(looks + [look], FirstEnd(looks + [look]) + DAY) <= 29
    ensures CountInconclusive(looks + [look]) == CountInconclusive(looks) + (if Inconclusive(look) then 1 else 0)
  {
    OneMoreLook(looks, look);
    if CountInconclusive(looks + [look]) > 0 {
      CountByIsLess(looks, FirstEnd(looks + [look]) + DAY);
    }
  }

  lemma RecentGrows(t: Track, look: Look)
    requires t.since <= |t.looks|
    ensures Recent(t.(looks := t.looks + [look])) == Recent(t) + [look]
  {
  }

  ghost predicate Inv(t: Track) {
    LadderOk(t) && SightingOk(t) && CountOk(t) && (t.failedUnpaid ==> t.over && TwoSightings(Recent(t)))
  }

  lemma RungGrows(m: int, n: int)
    requires 1 <= m <= n
    ensures 1 <= Rung(m) <= Rung(n)
  {
  }

  lemma RungsAre(n: int)
    requires n >= 1
    ensures Rung(n) == if n == 1 then 1 else if n == 2 then 2 else if n == 3 then 5 else if n == 4 then 15 else if n == 5 then 30 else 60
  {
  }

  lemma NotedWaits(d: Option<Deferral>, saw: bool, now: real, random: real)
    requires 0.0 <= random < 1.0 && Attempts(d) >= 0
    ensures var next := Noted(d, saw, now, TICK, random);
            && next.nextAttemptAt >= now + (Rung(Attempts(d) + 1) as real - 0.5)
            && (saw ==> next.nextAttemptAt >= now + 4.5)
            && next.nextAttemptAt < now + (if saw && Rung(Attempts(d) + 1) < 5 then 5 else Rung(Attempts(d) + 1)) as real + 0.5
  {
    var attempts := Attempts(d) + 1;
    var rung := if saw && attempts < CONFIRMATION_RUNG then CONFIRMATION_RUNG else attempts;
    RungGrows(attempts, rung);
    if saw {
      RungGrows(CONFIRMATION_RUNG, rung);
    }
  }

  /** A window that is not over is waited for about a tick, a spent budget for less than one; neither climbs. */
  lemma OtherWaits(d: Option<Deferral>, now: real, random: real)
    requires 0.0 <= random < 1.0
    ensures var next := Awaited(d, now, TICK, random);
            now + 0.5 <= next.nextAttemptAt < now + 1.5 && next.attempts == Attempts(d) && !next.sawNoPayment
    ensures var next := Parked(d, now, TICK, random);
            now <= next.nextAttemptAt < now + 1.0 && next.attempts == Attempts(d) && (next.sawNoPayment <==> d.Some? && d.value.sawNoPayment)
  {
  }

  /** A sighting is made by an empty look and stands only through parks; a job is failed as unpaid exactly by an empty look that meets one. */
  lemma SightingIff(t: Track, ev: Event)
    requires LadderOk(t) && !t.over && !t.failedUnpaid
    ensures var next := Step(t, ev);
            && (next.failedUnpaid <==> ev.Looked? && ev.look.concluded == Recovery.NoPayment && SawNoPayment(t))
            && (!next.over && SawNoPayment(next) <==>
                  || (ev.ParkedFor? && SawNoPayment(t))
                  || (ev.Looked? && ev.look.concluded == Recovery.NoPayment && !SawNoPayment(t)))
            && (next.over <==> ev.Looked? && (ev.look.concluded == Recovery.CorruptState
                                              || (ev.look.concluded == Recovery.NoPayment && SawNoPayment(t))))
  {
  }

  lemma ClimbKept(t: Track, saw: bool, end: real, random: real)
    requires LadderOk(t) && 0.0 <= random < 1.0
    requires Due(t, end)
    ensures LadderOk(Climbed(t, saw, end, random))
  {
    NotedWaits(t.held, saw, end, random);
    assert Ladder(0) == 0.0;
  }

  lemma AwaitKept(t: Track, end: real, random: real)
    requires LadderOk(t) && 0.0 <= random < 1.0
    requires Due(t, end)
    ensures LadderOk(t.(held := Some(Awaited(t.held, end, TICK, random))))
  {
  }

  lemma ParkKept(t: Track, at: real, random: real)
    requires LadderOk(t) && 0.0 <= random < 1.0
    requires Due(t, at)
    ensures LadderOk(t.(held := Some(Parked(t.held, at, TICK, random))))
  {
  }

  lemma LadderKept(t: Track, ev: Event)
    requires LadderOk(t) && May(t, ev)
    ensures LadderOk(Step(t, ev))
  {
    match ev
    case Looked(look, random) =>
      var seen := t.(clock := look.end, looks := t.looks + [look]);
      if look.concluded == Recovery.Deferred || look.concluded == Recovery.NoPayment {
        ClimbKept(seen, look.concluded == Recovery.NoPayment, look.end, random);
      } else if look.concluded == Recovery.AwaitingWindow {
        AwaitKept(seen, look.end, random);
      }
    case ParkedFor(at, random) => ParkKept(t, at, random);
    case _ =>
  }

  lemma SightingKept(t: Track, ev: Event)
    requires LadderOk(t) && SightingOk(t) && t.since <= |t.looks| && May(t, ev)
    ensures SightingOk(Step(t, ev))
  {
    match ev
    case Looked(look, random) => NotedWaits(t.held, true, look.end, random);
    case _ =>
  }

  /** A look that may start within a day of the first note found at most 28 before it. */
  lemma LookIsEarlyEnough(t: Track, start: real)
    requires LadderOk(t) && Due(t, start) && start <= t.firstNote + DAY
    ensures Attempts(t.held) <= 28
  {
    LadderPastTop(29);
    if Attempts(t.held) > 28 {
      LadderGrows(29, Attempts(t.held));
    }
  }

  lemma LookTallied(looks: seq<Look>, look: Look, attempts: int, firstNote: real, attempts': int, firstNote': real, over': bool)
    requires Tallied(looks, attempts, firstNote, false)
    requires attempts > 0 && look.start <= firstNote + DAY ==> attempts <= 28
    requires over' || attempts' == attempts + (if Inconclusive(look) then 1 else 0)
    requires over' || firstNote' == if attempts == 0 && Inconclusive(look) then look.end else firstNote
    ensures Tallied(looks + [look], attempts', firstNote', over')
  {
    CountKept(looks, look);
  }

  lemma LookCounted(t: Track, look: Look, random: real)
    requires LadderOk(t) && CountOk(t) && May(t, Looked(look, random))
    ensures CountOk(AfterLook(t, look, random))
  {
    var next := AfterLook(t, look, random);
    if look.concluded == Recovery.Confirmed {
      assert Recent(next) == [];
    } else {
      RecentGrows(t, look);
      if Attempts(t.held) > 0 && look.start <= t.firstNote + DAY {
        LookIsEarlyEnough(t, look.start);
      }
      assert Recent(next) == Recent(t) + [look];
      LookTallied(Recent(t), look, Attempts(t.held), t.firstNote, Attempts(next.held), next.firstNote, next.over);
    }
  }

  lemma CountedKept(t: Track, ev: Event)
    requires LadderOk(t) && CountOk(t) && May(t, ev)
    ensures CountOk(Step(t, ev))
  {
    match ev
    case Looked(look, random) => LookCounted(t, look, random);
    case ParkedFor(at, random) => assert Recent(Step(t, ev)) == Recent(t);
    case _ =>
      var next := Step(t, ev);
      assert Recent(next) == if next.over then Recent(t) else [];
  }

  /** Only a second empty look closes a job as unpaid, and what closed it stays on record. */
  lemma ClosingKept(t: Track, ev: Event)
    requires Inv(t) && May(t, ev)
    ensures var next := Step(t, ev); next.since <= |next.looks| && (next.failedUnpaid ==> next.over && TwoSightings(Recent(next)))
  {
    var next := Step(t, ev);
    if ev.Looked? {
      RecentGrows(t, ev.look);
      if next.failedUnpaid {
        assert Recent(next) == Recent(t) + [ev.look];
        assert Recent(t)[|Recent(t)| - 1] == Last(t.looks);
      }
    } else if next.failedUnpaid {
      assert Recent(next) == Recent(t);
    }
  }

  lemma StepKeepsInv(t: Track, ev: Event)
    requires Inv(t) && May(t, ev)
    ensures Inv(Step(t, ev))
  {
    LadderKept(t, ev);
    SightingKept(t, ev);
    CountedKept(t, ev);
    ClosingKept(t, ev);
  }

  ghost predicate Possible(t: Track, events: seq<Event>)
    requires LadderOk(t)
    decreases |events|
  {
    events == [] || (May(t, events[0]) && (LadderKept(t, events[0]); Possible(Step(t, events[0]), events[1..])))
  }

  ghost function Run(t: Track, events: seq<Event>): Track
    requires LadderOk(t) && Possible(t, events)
    decreases |events|
  {
    if events == [] then t
    else LadderKept(t, events[0]); Run(Step(t, events[0]), events[1..])
  }

  const FRESH := Track(0.0, None, [], 0, 0.0, false, false)

  lemma {:induction false} RunKeepsInv(t: Track, events: seq<Event>)
    requires Inv(t) && Possible(t, events)
    ensures Inv(Run(t, events))
    decreases |events|
  {
    if events != [] {
      StepKeepsInv(t, events[0]);
      RunKeepsInv(Step(t, events[0]), events[1..]);
    }
  }

  /**
   However looks, parks, sweeps and restarts follow each other, a job is failed as unpaid only
   when its last two looks since it was last forgotten both found nobody paid, at least 4.5 ticks
   apart. A closing whose flush was lost is undone by a restart, and the next one again needs two.
   */
  lemma FailedOnlyAfterTwoSightings(events: seq<Event>)
    requires Possible(FRESH, events)
    ensures var t := Run(FRESH, events); t.failedUnpaid ==> t.since <= |t.looks| && TwoSightings(Recent(t))
  {
    RunKeepsInv(FRESH, events);
  }

  /**
   Whatever the jitter and the parks, the look after n inconclusive ones starts no earlier than
   the first n rungs, less half a tick each, after the first of them ended.
   */
  lemma LookWaitsOutLadder(events: seq<Event>, look: Look, random: real)
    requires Possible(FRESH, events) && May(Run(FRESH, events), Looked(look, random))
    ensures var t := Run(FRESH, events);
            && t.since <= |t.looks|
            && (CountInconclusive(Recent(t)) > 0 ==>
                  look.start >= FirstEnd(Recent(t)) + Ladder(CountInconclusive(Recent(t))))
  {
    RunKeepsInv(FRESH, events);
  }

  lemma LadderGrows(m: nat, n: nat)
    requires m <= n
    ensures Ladder(m) <= Ladder(n)
  {
    if m < n {
      LadderGrows(m, n - 1);
      RungGrows(1, n);
    }
  }

  lemma LadderPastTop(n: nat)
    requires n >= 6
    ensures Ladder(n) == 110.0 + 59.5 * (n - 6) as real
  {
    if n == 6 {
      assert Ladder(1) == 0.5;
      assert Ladder(2) == 2.0;
      assert Ladder(3) == 6.5;
      assert Ladder(4) == 21.0;
      assert Ladder(5) == 50.5;
    } else {
      LadderPastTop(n - 1);
    }
  }

  /** Nothing on the run makes the loop forget the job. */
  predicate NothingForgets(events: seq<Event>) {
    forall i :: 0 <= i < |events| ==>
      events[i].ParkedFor? || (events[i].Looked? && events[i].look.concluded != Recovery.Confirmed)
  }

  lemma {:induction false} NothingForgotten(t: Track, events: seq<Event>)
    requires LadderOk(t) && Possible(t, events) && NothingForgets(events)
    ensures Run(t, events).since == t.since
    decreases |events|
  {
    if events != [] {
      LadderKept(t, events[0]);
      NothingForgotten(Step(t, events[0]), events[1..]);
    }
  }

  /**
   A day is 1440 ticks of a minute: while the loop does not forget the job, at most 29 looks that
   start within a day of the end of its first inconclusive look are inconclusive.
   */
  lemma DailyLooksBound(events: seq<Event>)
    requires Possible(FRESH, events) && NothingForgets(events)
    ensures var looks := Run(FRESH, events).looks;
            CountInconclusive(looks) > 0 ==> CountBy(looks, FirstEnd(looks) + DAY) <= 29
  {
    RunKeepsInv(FRESH, events);
    NothingForgotten(FRESH, events);
    assert Recent(Run(FRESH, events)) == Run(FRESH, events).looks;
  }
}
