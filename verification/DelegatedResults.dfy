/**
 Which result a charged job ends with, what it is billed, and that a charged job can always
 be delivered: the delegated protocol followed from the events of a run.
 */
module DelegatedResults {
  import opened Prelude
  import opened Ledger
  import opened DelegatedPull

  // ---- What the events of a run bring in ----

  /** The results the skill produced, the amounts its reports come to, and whether something gave the job up. */
  datatype Past = Past(made: set<Result>, bills: set<int>, givenUp: bool)

  predicate GivesUp(ev: Event) {
    match ev
    case Terminal(outcome, _) => outcome == Dead
    case ReconcileTo(outcome, _) => outcome == Dead
    case Reshare(blobKept, _) => !blobKept
    case Route(keep, _) => !keep
    case _ => false
  }

  function Bill(job: Job, reported: Figure): int {
    Billed(MeteredCharge(job.floor, job.ceiling, reported), job.ceiling)
  }

  ghost function Seen(job: Job, events: seq<Event>): Past {
    Past(set ev | ev in events && ev.Work? :: Result(ev.content, ev.files),
         set ev | ev in events && ev.Persist? :: Bill(job, ev.reported),
         exists ev :: ev in events && GivesUp(ev))
  }

  predicate Includes(more: Past, past: Past) {
    past.made <= more.made && past.bills <= more.bills && (past.givenUp ==> more.givenUp)
  }

  predicate Counts(past: Past, job: Job, ev: Event) {
    && (ev.Work? ==> Result(ev.content, ev.files) in past.made)
    && (ev.Persist? ==> Bill(job, ev.reported) in past.bills)
    && (GivesUp(ev) ==> past.givenUp)
  }

  lemma SeenGrows(job: Job, events: seq<Event>, ev: Event)
    ensures Includes(Seen(job, events + [ev]), Seen(job, events)) && Counts(Seen(job, events + [ev]), job, ev)
  {
    var more := events + [ev];
    assert ev in more;
    assert forall e :: e in events ==> e in more;
  }

  // ---- The invariant ----

  /** A pull on the entry comes with a result the skill produced, and with an amount it reported. */
  predicate EntryTraced(e: Option<Entry>, past: Past) {
    e.Some? ==>
      && (e.value.status == Paid && e.value.pullSignature.Some? ==>
            e.value.deliveredContent.Some? && Result(e.value.deliveredContent.value, FilesOf(e.value)) in past.made)
      && (e.value.status == Executed ==> e.value.result.Some? && Result(e.value.result.value, FilesOf(e.value)) in past.made)
      && (e.value.pullSignature.Some? ==> e.value.netAmount.Some? && e.value.netAmount.value in past.bills)
      && (e.value.status == Failed && e.value.pullSignature.Some? ==> past.givenUp)
  }

  predicate Carried(e: Option<Entry>, content: string, files: seq<string>) {
    e.Some? && e.value.deliveredContent == Some(content) && FilesOf(e.value) == files
  }

  predicate TaskTraced(task: Task, e: Option<Entry>, past: Past) {
    match task
    case Checking => e.Some? && e.value.attachments.None?
    case Prechecking => e.Some? && e.value.attachments.None?
    case Working => e.Some? && e.value.attachments.None?
    case Built(content, files) => e.Some? && FilesOf(e.value) == files && Result(content, files) in past.made
    case Pulling(content, files, amount) => Carried(e, content, files) && Result(content, files) in past.made && amount in past.bills
    case Signed(content, files, _, amount) => Carried(e, content, files) && Result(content, files) in past.made && amount in past.bills
    case Waiting(content, files, _, _) => Carried(e, content, files) && Result(content, files) in past.made
    case Delivering(content, files) => Result(content, files) in past.made
    case RecoveryDelivering(content, files) => Result(content, files) in past.made
    case _ => true
  }

  ghost predicate Handed(w: World, past: Past) {
    (forall r :: r in w.out ==> r in past.made) && forall s :: s in w.sent ==> s.amount in past.bills
  }

  ghost predicate Traced(job: Job, w: World, past: Past) {
    && EntryTraced(Mem(w.led, job.id), past) && EntryTraced(Dsk(w.led, job.id), past)
    && TaskTraced(w.task, Mem(w.led, job.id), past) && Handed(w, past)
  }

  const NO_TRUST := Oracle(_ => true, false, false)

  ghost predicate Good(job: Job, w: World, past: Past) {
    job.id != "" && job.ceiling > 0 && Inv(job, w, NO_TRUST) && Traced(job, w, past)
  }

  lemma TracedLonger(job: Job, w: World, past: Past, more: Past)
    requires Traced(job, w, past) && Includes(more, past)
    ensures Traced(job, w, more)
  {
  }

  // ---- Each step keeps it ----

  lemma TaskKeeps(job: Job, w: World, task: Task, past: Past)
    requires Traced(job, w, past) && TaskTraced(task, Mem(w.led, job.id), past)
    ensures Traced(job, w.(task := task), past)
  {
  }

  /** A call on the job's own entry. */
  lemma CallKeeps(job: Job, w: World, op: Op, task: Task, past: Past)
    requires Good(job, w, past) && OnEntry(op) && op.job == job.id && Mem(w.led, job.id).Some?
    requires var mem := Mem(w.led, job.id);
             var next := if Changed(mem.value, op).Some? then Changed(mem.value, op) else mem;
             EntryTraced(next, past) && TaskTraced(task, next, past)
    ensures Traced(job, Do(w, op, task), past)
  {
    OwnCall(w.led, op, job.id, Mem(w.led, job.id).value);
  }

  predicate Fallible(e: Option<Entry>, past: Past) {
    e.Some? && e.value.pullSignature.Some? && MayBecome(e.value.status, Failed) ==> past.givenUp
  }

  lemma FailKeeps(job: Job, w: World, ok: bool, past: Past)
    requires Good(job, w, past) && Fallible(Mem(w.led, job.id), past)
    ensures Traced(job, Do(w, MarkFailed(job.id, ok), Idle), past)
  {
    if Mem(w.led, job.id).None? {
      AbsentCall(w.led, MarkFailed(job.id, ok), job.id);
    } else {
      CallKeeps(job, w, MarkFailed(job.id, ok), Idle, past);
    }
  }

  lemma IntakeKeeps(job: Job, w: World, rawEvent: string, ok: bool, okFailed: bool, past: Past)
    requires Good(job, w, past)
    ensures Traced(job, AtIntake(job, w, rawEvent, ok, okFailed), past)
  {
    if w.task == Idle && job.id !in w.led.entries {
      RecordedKeepsInv(job, w, rawEvent, ok, NO_TRUST);
      RecordCall(w.led, job.id, w.now, rawEvent, ok);
      if ok && !GateOpen(job, w.now) {
        FailKeeps(job, Do(w, RecordPaid(job.id, w.now, rawEvent, ok), Idle), okFailed, past);
      }
    }
  }

  lemma DecisionKeeps(job: Job, w: World, accepted: bool, ok: bool, past: Past)
    requires Good(job, w, past)
    ensures Traced(job, AtDecision(job, w, accepted, ok), past)
  {
    if w.task == Checking {
      if accepted {
        CallKeeps(job, w, MarkDelegated(job.id, ok), if ok then Prechecking else Failing, past);
      } else {
        FailKeeps(job, w, ok, past);
      }
    }
  }

  lemma PrecheckKeeps(job: Job, w: World, passed: bool, ok: bool, past: Past)
    requires Good(job, w, past)
    ensures Traced(job, AtPrecheck(job, w, passed, ok), past)
  {
    if w.task == Prechecking {
      if passed {
        TaskKeeps(job, w, if LedgerHolds(job.ceiling) then Working else Failing, past);
      } else {
        FailKeeps(job, w, ok, past);
      }
    }
  }

  lemma WorkKeeps(job: Job, w: World, content: string, files: seq<string>, ok: bool, past: Past)
    requires Good(job, w, past) && Result(content, files) in past.made
    ensures Traced(job, AtWork(job, w, content, files, ok), past)
  {
    if w.task == Working {
      if files == [] {
        TaskKeeps(job, w, Built(content, files), past);
      } else {
        CallKeeps(job, w, RecordAttachment(job.id, None, Some(files), ok), if ok then Built(content, files) else Failing, past);
      }
    }
  }

  lemma PersistKeeps(job: Job, w: World, reported: Figure, ok: bool, past: Past)
    requires Good(job, w, past) && Bill(job, reported) in past.bills
    ensures Traced(job, AtPersist(job, w, reported, ok), past)
  {
    if w.task.Built? {
      if Deliverable(w.task.content, w.task.files) {
        var task := Pulling(w.task.content, w.task.files, Bill(job, reported));
        CallKeeps(job, w, RecordDeliveredContent(job.id, w.task.content, ok), if ok then task else Failing, past);
      } else {
        FailKeeps(job, w, ok, past);
      }
    }
  }

  lemma SignKeeps(job: Job, w: World, pull: Signature, height: nat, ok: bool, past: Past)
    requires Good(job, w, past)
    ensures Traced(job, AtSign(job, w, pull, height, ok), past)
  {
    if w.task.Pulling? {
      var task := Signed(w.task.content, w.task.files, pull, w.task.amount);
      CallKeeps(job, w, RecordPullSignature(job.id, pull, height, w.task.amount, ok), if ok then task else Failing, past);
    }
  }

  lemma TerminalKeeps(job: Job, w: World, outcome: Outcome, ok: bool, past: Past)
    requires Good(job, w, past) && (outcome == Dead ==> past.givenUp)
    ensures Traced(job, AtTerminal(job, w, outcome, ok), past)
  {
    if w.task.Waiting? {
      if outcome == Dead {
        FailKeeps(job, w, ok, past);
      } else if outcome == Unresolved {
        TaskKeeps(job, w, Idle, past);
      } else {
        var task := Delivering(w.task.content, w.task.files);
        CallKeeps(job, w, MarkExecuted(job.id, w.task.content, ok), if ok then task else Failing, past);
      }
    }
  }

  lemma HandedOut(job: Job, w: World, past: Past)
    requires Good(job, w, past) && (w.task.Delivering? || w.task.RecoveryDelivering?)
    ensures Good(job, HandOut(w), past)
  {
  }

  lemma DeliveryKeeps(job: Job, w: World, ok: bool, past: Past)
    requires Good(job, w, past)
    ensures Traced(job, AtDelivery(job, w, ok), past)
  {
    if w.task.Delivering? || w.task.RecoveryDelivering? {
      HandedOut(job, w, past);
      CallKeeps(job, HandOut(w), MarkDelivered(job.id, ok), if ok || w.task.RecoveryDelivering? then Idle else Failing, past);
    }
  }

  lemma RouteKeeps(job: Job, w: World, keep: bool, ok: bool, past: Past)
    requires Good(job, w, past) && (!keep ==> past.givenUp)
    ensures Traced(job, AtRoute(job, w, keep, ok), past)
  {
    if w.task == Failing {
      TaskKeeps(job, w, Idle, past);
      if job.id !in w.led.entries || (w.led.entries[job.id].status != Executed && !(keep && w.led.entries[job.id].status == Paid)) {
        FailKeeps(job, w, ok, past);
      }
    }
  }

  lemma ForceFailKeeps(job: Job, w: World, ok: bool, past: Past)
    requires Good(job, w, past)
    ensures Traced(job, AtForceFail(job, w, ok), past)
  {
    if w.task == Idle && job.id in w.led.entries && w.led.entries[job.id].pullSignature == None {
      FailKeeps(job, w, ok, past);
    }
  }

  lemma RecoveryKeeps(job: Job, w: World, ok: bool, past: Past)
    requires Good(job, w, past)
    ensures Traced(job, AtRecovery(job, w, ok), past)
  {
    if w.task == Idle && job.id in w.led.entries {
      var e := w.led.entries[job.id];
      if e.status == Executed {
        CallKeeps(job, w, IncrementRetry(job.id, ok), if ok then Redelivering else Idle, past);
      } else if e.status == Paid && e.pullSignature.Some? {
        TaskKeeps(job, w, Reconciling(e.pullSignature.value), past);
      } else if e.status == Paid {
        FailKeeps(job, w, ok, past);
      }
    }
  }

  lemma ReconcileKeeps(job: Job, w: World, outcome: Outcome, ok: bool, past: Past)
    requires Good(job, w, past) && (outcome == Dead ==> past.givenUp)
    ensures Traced(job, AtReconcile(job, w, outcome, ok), past)
  {
    if w.task.Reconciling? {
      if outcome == Dead {
        FailKeeps(job, w, ok, past);
      } else {
        TaskKeeps(job, w, if outcome == Unresolved then Idle else Resharing, past);
      }
    }
  }

  lemma ReshareKeeps(job: Job, w: World, blobKept: bool, ok: bool, past: Past)
    requires Good(job, w, past) && (!blobKept ==> past.givenUp)
    ensures Traced(job, AtReshare(job, w, blobKept, ok), past)
  {
    if (w.task == Resharing || w.task == Redelivering) && job.id in w.led.entries {
      var e := w.led.entries[job.id];
      if !blobKept {
        FailKeeps(job, w, ok, past);
      } else if w.task == Redelivering {
        TaskKeeps(job, w, RecoveryDelivering(OrEmpty(e.result), FilesOf(e)), past);
      } else {
        var content := OrEmpty(e.deliveredContent);
        CallKeeps(job, w, MarkExecuted(job.id, content, ok), if ok then RecoveryDelivering(content, FilesOf(e)) else Idle, past);
      }
    }
  }

  lemma OtherKeeps(job: Job, w: World, op: Op, past: Past)
    requires Good(job, w, past)
    ensures Traced(job, AtOther(job, w, op), past)
  {
    if AtOther(job, w, op) != w {
      OtherCall(w.led, op, job.id);
    }
  }

  lemma CrashKeeps(job: Job, w: World, past: Past)
    requires Good(job, w, past)
    ensures Traced(job, Do(w, Crash, Idle), past)
  {
    assert Mem(Apply(w.led, Crash), job.id) == Dsk(w.led, job.id) == Dsk(Apply(w.led, Crash), job.id);
  }

  lemma AroundKeeps(job: Job, w: World, ev: Event, past: Past)
    requires Good(job, w, past) && Counts(past, job, ev) && IsAround(ev)
    ensures Traced(job, Step(job, w, ev), past)
  {
    match ev
    case Tick(secs) =>
    case Other(op) => OtherKeeps(job, w, op, past);
    case Crashed => CrashKeeps(job, w, past);
    case Throw => TaskKeeps(job, w, Thrown(w.task), past);
    case Route(keep, ok) => RouteKeeps(job, w, keep, ok, past);
    case ForceFail(ok) => ForceFailKeeps(job, w, ok, past);
    case Recover(ok) => RecoveryKeeps(job, w, ok, past);
    case ReconcileTo(outcome, ok) => ReconcileKeeps(job, w, outcome, ok, past);
    case Reshare(blobKept, ok) => ReshareKeeps(job, w, blobKept, ok, past);
  }

  lemma ExecutionKeeps(job: Job, w: World, ev: Event, past: Past)
    requires Good(job, w, past) && Counts(past, job, ev) && !IsAround(ev)
    ensures Traced(job, Step(job, w, ev), past)
  {
    match ev
    case Intake(rawEvent, ok, okFailed) => IntakeKeeps(job, w, rawEvent, ok, okFailed, past);
    case Decide(accepted, ok) => DecisionKeeps(job, w, accepted, ok, past);
    case Precheck(passed, ok) => PrecheckKeeps(job, w, passed, ok, past);
    case Work(content, files, ok) => WorkKeeps(job, w, content, files, ok, past);
    case Persist(reported, ok) => PersistKeeps(job, w, reported, ok, past);
    case Sign(pull, height, ok) => SignKeeps(job, w, pull, height, ok, past);
    case Send =>
    case Terminal(outcome, ok) => TerminalKeeps(job, w, outcome, ok, past);
    case Deliver(ok) => DeliveryKeeps(job, w, ok, past);
  }

  lemma StepKeeps(job: Job, w: World, events: seq<Event>, ev: Event)
    requires Good(job, w, Seen(job, events))
    ensures Good(job, Step(job, w, ev), Seen(job, events + [ev]))
  {
    SeenGrows(job, events, ev);
    TracedLonger(job, w, Seen(job, events), Seen(job, events + [ev]));
    StepKeepsInv(job, w, ev, NO_TRUST);
    if IsAround(ev) {
      AroundKeeps(job, w, ev, Seen(job, events + [ev]));
    } else {
      ExecutionKeeps(job, w, ev, Seen(job, events + [ev]));
    }
  }

  lemma {:induction false} RunKeeps(job: Job, w: World, done: seq<Event>, events: seq<Event>)
    requires Good(job, w, Seen(job, done))
    ensures Good(job, DelegatedPull.Run(job, w, events), Seen(job, done + events))
    decreases |events|
  {
    if events == [] {
      assert done + events == done;
    } else {
      StepKeeps(job, w, done, events[0]);
      RunKeeps(job, Step(job, w, events[0]), done + [events[0]], events[1..]);
      assert done + [events[0]] + events[1..] == done + events;
    }
  }

  lemma Reachable(job: Job, disk: Disk, now: int, events: seq<Event>)
    requires job.id != "" && job.ceiling > 0 && job.id !in disk
    ensures Good(job, DelegatedPull.Run(job, Start(disk, now), events), Seen(job, events))
  {
    RunKeeps(job, Start(disk, now), [], events);
    assert [] + events == events;
  }

  // ---- What a run ends with ----

  /** The skill produced this result on the run. */
  ghost predicate Produced(events: seq<Event>, content: string, files: seq<string>) {
    exists ok :: Work(content, files, ok) in events
  }

  ghost predicate HoldsProduced(e: Option<Entry>, events: seq<Event>) {
    e.Some? ==>
      && (e.value.status == Executed ==> e.value.result.Some? && Produced(events, e.value.result.value, FilesOf(e.value)))
      && (e.value.status == Paid && e.value.pullSignature.Some? ==>
            e.value.deliveredContent.Some? && Produced(events, e.value.deliveredContent.value, FilesOf(e.value)))
  }

  lemma MadeIsProduced(job: Job, events: seq<Event>, r: Result)
    requires r in Seen(job, events).made
    ensures Produced(events, r.content, r.files)
  {
    var ev :| ev in events && ev.Work? && Result(ev.content, ev.files) == r;
    assert ev == Work(r.content, r.files, ev.ok);
  }

  lemma TracedIsProduced(job: Job, events: seq<Event>, e: Option<Entry>)
    requires EntryTraced(e, Seen(job, events))
    ensures HoldsProduced(e, events)
  {
    if e.Some? && e.value.status == Executed {
      MadeIsProduced(job, events, Result(e.value.result.value, FilesOf(e.value)));
    }
    if e.Some? && e.value.status == Paid && e.value.pullSignature.Some? {
      MadeIsProduced(job, events, Result(e.value.deliveredContent.value, FilesOf(e.value)));
    }
  }

  /**
   Through every crash and recovery a charged job keeps the result its skill produced, in memory
   and on disk, content and files; and nothing but such a result is ever handed to the customer.
   */
  lemma ChargedJobKeepsItsResult(job: Job, disk: Disk, now: int, events: seq<Event>)
    requires job.id != "" && job.ceiling > 0 && job.id !in disk
    ensures var w := DelegatedPull.Run(job, Start(disk, now), events);
            && HoldsProduced(Mem(w.led, job.id), events) && HoldsProduced(Dsk(w.led, job.id), events)
            && forall r :: r in w.out ==> Produced(events, r.content, r.files)
  {
    Reachable(job, disk, now, events);
    var w := DelegatedPull.Run(job, Start(disk, now), events);
    TracedIsProduced(job, events, Mem(w.led, job.id));
    TracedIsProduced(job, events, Dsk(w.led, job.id));
    forall r | r in w.out ensures Produced(events, r.content, r.files) {
      MadeIsProduced(job, events, r);
    }
  }

  /** What was reported, brought into the published range; the ceiling when nothing usable was. */
  ghost predicate IsBill(job: Job, reported: Figure, amount: int) {
    if job.floor.Amount? && job.floor.value > 0 && reported.Amount? then
      if reported.value > job.ceiling || job.floor.value > job.ceiling then amount == job.ceiling
      else if reported.value < job.floor.value then amount == job.floor.value
      else amount == reported.value
    else amount == job.ceiling
  }

  ghost predicate BilledAsReported(job: Job, events: seq<Event>, amount: int) {
    exists reported, ok :: Persist(reported, ok) in events && IsBill(job, reported, amount)
  }

  /** The pull that is sent, and the amount recorded with it, are what the skill reported, within the published range. */
  lemma PullBillsWhatWasReported(job: Job, disk: Disk, now: int, events: seq<Event>)
    requires job.id != "" && job.ceiling > 0 && job.id !in disk
    ensures var w := DelegatedPull.Run(job, Start(disk, now), events);
            && (forall s :: s in w.sent ==> BilledAsReported(job, events, s.amount))
            && forall e :: (Mem(w.led, job.id) == Some(e) || Dsk(w.led, job.id) == Some(e)) && e.pullSignature.Some? ==>
                 e.netAmount.Some? && BilledAsReported(job, events, e.netAmount.value)
  {
    Reachable(job, disk, now, events);
    forall amount | amount in Seen(job, events).bills ensures BilledAsReported(job, events, amount) {
      var ev :| ev in events && ev.Persist? && Bill(job, ev.reported) == amount;
      assert Persist(ev.reported, ev.ok) in events && IsBill(job, ev.reported, amount);
    }
  }

  /** A job whose pull was signed fails only after a dead verdict, a lost blob or a failure that was not to be kept. */
  lemma FailsOnlyWhenGivenUp(job: Job, disk: Disk, now: int, events: seq<Event>)
    requires job.id != "" && job.ceiling > 0 && job.id !in disk
    ensures var w := DelegatedPull.Run(job, Start(disk, now), events);
            (exists e :: (Mem(w.led, job.id) == Some(e) || Dsk(w.led, job.id) == Some(e)) && e.status == Failed && e.pullSignature.Some?)
            ==> exists ev :: ev in events && GivesUp(ev)
  {
    Reachable(job, disk, now, events);
  }

  // ---- A job runs through, and a charged one can always be delivered ----

  lemma OwnFlushed(job: Job, w: World, op: Op, e: Entry, next: Entry)
    requires job.id != "" && Mem(w.led, job.id) == Some(e) && e.jobId == job.id
    requires OnEntry(op) && op.job == job.id && op.ok && Changed(e, op) == Some(next) && next.jobId == job.id
    ensures Mem(Apply(w.led, op), job.id) == Some(next) == Dsk(Apply(w.led, op), job.id)
  {
    OwnCall(w.led, op, job.id, e);
  }

  /** A job of a known price whose proof expires within eleven minutes. */
  predicate Acceptable(job: Job, now: int) {
    job.id != "" && 0 < job.ceiling <= 9007199254740991 && 0 < job.expiry - now <= 660
  }

  lemma ShutOut(job: Job, disk: Disk, now: int, rawEvent: string)
    requires job.id != "" && job.id !in disk && !GateOpen(job, now)
    ensures var w := Step(job, Start(disk, now), Intake(rawEvent, true, true));
            w.task == Idle && Mem(w.led, job.id) == Some(Finished(NewEntry(job.id, now, rawEvent), Failed))
  {
    var recorded := Do(Start(disk, now), RecordPaid(job.id, now, rawEvent, true), Idle);
    var e := NewEntry(job.id, now, rawEvent);
    RecordCall(Start(disk, now).led, job.id, now, rawEvent, true);
    OwnFlushed(job, recorded, MarkFailed(job.id, true), e, Finished(e, Failed));
  }

  /** The proof is checked exactly when it has not expired and expires within eleven minutes; otherwise the job fails at once. */
  lemma GateIff(job: Job, disk: Disk, now: int, rawEvent: string)
    requires job.id != "" && job.id !in disk
    ensures var w := Step(job, Start(disk, now), Intake(rawEvent, true, true));
            && (w.task == Checking <==> 0 < job.expiry - now <= 660)
            && (w.task != Checking ==> w.task == Idle && Mem(w.led, job.id).Some? && Mem(w.led, job.id).value.status == Failed)
  {
    if !GateOpen(job, now) {
      ShutOut(job, disk, now, rawEvent);
    }
  }

  lemma RunThree(job: Job, w: World, a: Event, b: Event, c: Event)
    ensures DelegatedPull.Run(job, w, [a, b, c]) == Step(job, Step(job, Step(job, w, a), b), c)
  {
    var next := Step(job, w, a);
    assert [a, b, c][1..] == [b, c];
    assert DelegatedPull.Run(job, w, [a, b, c]) == DelegatedPull.Run(job, next, [b, c]);
    RunTwo(job, next, b, c);
  }

  lemma {:induction false} RunOn(job: Job, w: World, first: seq<Event>, after: seq<Event>)
    ensures DelegatedPull.Run(job, w, first + after) == DelegatedPull.Run(job, DelegatedPull.Run(job, w, first), after)
    decreases |first|
  {
    if first == [] {
      assert first + after == after;
    } else {
      assert (first + after)[1..] == first[1..] + after;
      RunOn(job, Step(job, w, first[0]), first[1..], after);
    }
  }

  /** The job's entry in memory is this one. */
  ghost predicate Holds(job: Job, w: World, e: Entry) {
    job.id != "" && Mem(w.led, job.id) == Some(e) && e.jobId == job.id
  }

  ghost predicate Same(w: World, next: World) {
    next.sent == w.sent && next.out == w.out
  }

  lemma TookIn(job: Job, disk: Disk, now: int, rawEvent: string) returns (next: World, e: Entry)
    requires Acceptable(job, now) && job.id !in disk
    ensures next == Step(job, Start(disk, now), Intake(rawEvent, true, true))
    ensures next.task == Checking && e == NewEntry(job.id, now, rawEvent) && Holds(job, next, e) && Same(Start(disk, now), next)
  {
    RecordCall(Start(disk, now).led, job.id, now, rawEvent, true);
    next := Step(job, Start(disk, now), Intake(rawEvent, true, true));
    e := NewEntry(job.id, now, rawEvent);
  }

  lemma Decided(job: Job, w: World, e: Entry) returns (next: World, delegated: Entry)
    requires w.task == Checking && Holds(job, w, e)
    ensures next == Step(job, w, Decide(true, true))
    ensures next.task == Prechecking && delegated == e.(delegated := true) && Holds(job, next, delegated) && Same(w, next)
  {
    delegated := e.(delegated := true);
    OwnFlushed(job, w, MarkDelegated(job.id, true), e, delegated);
    next := Step(job, w, Decide(true, true));
  }

  lemma Prechecked(job: Job, w: World, e: Entry) returns (next: World)
    requires w.task == Prechecking && Holds(job, w, e) && LedgerHolds(job.ceiling)
    ensures next == Step(job, w, Precheck(true, true)) && next.task == Working && Holds(job, next, e) && Same(w, next)
  {
    next := Step(job, w, Precheck(true, true));
  }

  /** The transfer landed, or must be taken to have. */
  predicate IsLanded(outcome: Outcome) {
    outcome == Landed || outcome == AssumeLanded
  }

  predicate Unpulled(e: Entry) {
    e.status == Paid && e.pullSignature.None?
  }

  lemma Worked(job: Job, w: World, e: Entry, content: string, files: seq<string>) returns (next: World, built: Entry)
    requires w.task == Working && Holds(job, w, e) && Unpulled(e)
    ensures next == Step(job, w, Work(content, files, true)) && next.task == Built(content, files)
    ensures Holds(job, next, built) && Unpulled(built) && Same(w, next)
  {
    built := e;
    if files != [] {
      built := e.(attachments := Some(files));
      OwnFlushed(job, w, RecordAttachment(job.id, None, Some(files), true), e, built);
    }
    next := Step(job, w, Work(content, files, true));
  }

  lemma Persisted(job: Job, w: World, e: Entry, reported: Figure) returns (next: World, kept: Entry)
    requires w.task.Built? && (w.task.content != "" || w.task.files != []) && Holds(job, w, e) && Unpulled(e)
    ensures next == Step(job, w, Persist(reported, true))
    ensures next.task == Pulling(w.task.content, w.task.files, Bill(job, reported))
    ensures Holds(job, next, kept) && Unpulled(kept) && Same(w, next)
  {
    kept := e.(deliveredContent := Some(w.task.content));
    OwnFlushed(job, w, RecordDeliveredContent(job.id, w.task.content, true), e, kept);
    next := Step(job, w, Persist(reported, true));
  }

  lemma SignedFor(job: Job, w: World, e: Entry, pull: Signature, height: nat) returns (next: World, pulled: Entry)
    requires w.task.Pulling? && LedgerHolds(w.task.amount) && Holds(job, w, e) && Unpulled(e)
    ensures next == Step(job, w, Sign(pull, height, true))
    ensures next.task == Signed(w.task.content, w.task.files, pull, w.task.amount)
    ensures Holds(job, next, pulled) && pulled.status == Paid && Same(w, next)
  {
    pulled := e.(pullSignature := Some(pull), pullHeight := Some(height), netAmount := Some(w.task.amount));
    OwnFlushed(job, w, RecordPullSignature(job.id, pull, height, w.task.amount, true), e, pulled);
    next := Step(job, w, Sign(pull, height, true));
  }

  lemma SentOff(job: Job, w: World, e: Entry) returns (next: World)
    requires w.task.Signed? && Holds(job, w, e)
    ensures next == Step(job, w, Send) && next.task == Waiting(w.task.content, w.task.files, w.task.pull, w.task.amount)
    ensures Holds(job, next, e) && next.sent == w.sent + [Sent(w.task.pull, w.task.amount)] && next.out == w.out
  {
    next := Step(job, w, Send);
  }

  lemma HasLanded(job: Job, w: World, e: Entry, landed: Outcome) returns (next: World, executed: Entry)
    requires IsLanded(landed) && w.task.Waiting? && LedgerHolds(w.task.amount) && Holds(job, w, e) && e.status == Paid
    ensures next == Step(job, w, Terminal(landed, true)) && next.task == Delivering(w.task.content, w.task.files)
    ensures Holds(job, next, executed) && executed.status == Executed && Same(w, next)
  {
    executed := e.(status := Executed, result := Some(w.task.content));
    OwnFlushed(job, w, MarkExecuted(job.id, w.task.content, true), e, executed);
    next := Step(job, w, Terminal(landed, true));
  }

  lemma LastDelivery(job: Job, w: World, e: Entry) returns (next: World)
    requires (w.task.Delivering? || w.task.RecoveryDelivering?) && Holds(job, w, e) && e.status == Executed
    ensures next == Step(job, w, Deliver(true)) && IsDelivered(job, next)
    ensures next.out == w.out + [Result(w.task.content, w.task.files)] && next.sent == w.sent
  {
    OwnFlushed(job, HandOut(w), MarkDelivered(job.id, true), e, Finished(e, Delivered));
    next := Step(job, w, Deliver(true));
  }

  /** The job was recorded and its proof accepted. */
  lemma UpToWork(job: Job, disk: Disk, now: int, rawEvent: string) returns (w: World, e: Entry)
    requires Acceptable(job, now) && job.id !in disk
    ensures w == DelegatedPull.Run(job, Start(disk, now), [Intake(rawEvent, true, true), Decide(true, true), Precheck(true, true)])
    ensures w.task == Working && Holds(job, w, e) && Unpulled(e) && w.sent == [] && w.out == []
  {
    RunThree(job, Start(disk, now), Intake(rawEvent, true, true), Decide(true, true), Precheck(true, true));
    w, e := TookIn(job, disk, now, rawEvent);
    w, e := Decided(job, w, e);
    w := Prechecked(job, w, e);
  }

  /** The work was done, its result and the pull persisted, in that order. */
  lemma UpToPull(job: Job, w: World, e: Entry, content: string, files: seq<string>, reported: Figure, pull: Signature, height: nat)
    returns (next: World, pulled: Entry)
    requires 0 < job.ceiling <= MAX_SAFE_INTEGER && w.task == Working && Holds(job, w, e) && Unpulled(e)
    requires content != "" || files != []
    ensures next == DelegatedPull.Run(job, w, [Work(content, files, true), Persist(reported, true), Sign(pull, height, true)])
    ensures next.task == Signed(content, files, pull, Bill(job, reported)) && Same(w, next)
    ensures Holds(job, next, pulled) && pulled.status == Paid
  {
    RunThree(job, w, Work(content, files, true), Persist(reported, true), Sign(pull, height, true));
    MeteredChargeInRange(job.floor, job.ceiling, reported);
    next, pulled := Worked(job, w, e, content, files);
    next, pulled := Persisted(job, next, pulled, reported);
    next, pulled := SignedFor(job, next, pulled, pull, height);
  }

  lemma UpToDelivery(job: Job, w: World, e: Entry, landed: Outcome) returns (next: World)
    requires IsLanded(landed) && w.task.Signed? && LedgerHolds(w.task.amount) && Holds(job, w, e) && e.status == Paid
    ensures next == DelegatedPull.Run(job, w, [Send, Terminal(landed, true), Deliver(true)])
    ensures next.sent == w.sent + [Sent(w.task.pull, w.task.amount)] && next.out == w.out + [Result(w.task.content, w.task.files)]
    ensures IsDelivered(job, next)
  {
    RunThree(job, w, Send, Terminal(landed, true), Deliver(true));
    next := SentOff(job, w, e);
    var executed;
    next, executed := HasLanded(job, next, e, landed);
    next := LastDelivery(job, next, executed);
  }

  ghost predicate IsDelivered(job: Job, w: World) {
    && w.task == Idle && Mem(w.led, job.id) == Dsk(w.led, job.id)
    && Mem(w.led, job.id).Some? && Mem(w.led, job.id).value.status == Delivered
  }

  /**
   Nothing that goes well is refused: a job within its gate, whose skill answers anything at all,
   sends one pull of the reported charge and hands exactly that answer out.
   */
  lemma GoodJobIsDelivered(job: Job, disk: Disk, now: int, rawEvent: string, content: string, files: seq<string>,
                           reported: Figure, pull: Signature, height: nat, landed: Outcome)
    requires IsLanded(landed) && Acceptable(job, now) && job.id !in disk && (content != "" || files != [])
    ensures var events := [Intake(rawEvent, true, true), Decide(true, true), Precheck(true, true)]
                          + [Work(content, files, true), Persist(reported, true), Sign(pull, height, true)]
                          + [Send, Terminal(landed, true), Deliver(true)];
            var w := DelegatedPull.Run(job, Start(disk, now), events);
            && IsDelivered(job, w) && w.out == [Result(content, files)]
            && |w.sent| == 1 && w.sent[0].pull == pull && IsBill(job, reported, w.sent[0].amount)
  {
    var taken := [Intake(rawEvent, true, true), Decide(true, true), Precheck(true, true)];
    var worked := [Work(content, files, true), Persist(reported, true), Sign(pull, height, true)];
    RunOn(job, Start(disk, now), taken + worked, [Send, Terminal(landed, true), Deliver(true)]);
    RunOn(job, Start(disk, now), taken, worked);
    var w, e := UpToWork(job, disk, now, rawEvent);
    MeteredChargeInRange(job.floor, job.ceiling, reported);
    var signed, paid := UpToPull(job, w, e, content, files, reported, pull, height);
    var done := UpToDelivery(job, signed, paid, landed);
  }

  /** What a restart followed by one recovery of a pulled job comes to. */
  function RecoveryOf(status: Status, landed: Outcome): seq<Event> {
    if status == Paid then [Crashed, Recover(true), ReconcileTo(landed, true)] + [Reshare(true, true), Deliver(true)]
    else [Crashed, Recover(true), Reshare(true, true)] + [Deliver(true)]
  }

  ghost predicate Pulled(e: Option<Entry>) {
    e.Some? && e.value.pullSignature.Some? && (e.value.status == Paid || e.value.status == Executed)
  }

  /** The result a pulled entry holds. */
  function ResultOf(e: Entry): Result {
    Result(OrEmpty(if e.status == Paid then e.deliveredContent else e.result), FilesOf(e))
  }

  lemma Reshared(job: Job, w: World, e: Entry) returns (next: World, executed: Entry)
    requires job.id != "" && w.task == Resharing && Mem(w.led, job.id) == Some(e) && e.jobId == job.id && e.status == Paid
    ensures next == Step(job, w, Reshare(true, true)) && next.out == w.out && next.sent == w.sent
    ensures next.task == RecoveryDelivering(OrEmpty(e.deliveredContent), FilesOf(e))
    ensures Holds(job, next, executed) && executed.status == Executed
  {
    var content := OrEmpty(e.deliveredContent);
    executed := e.(status := Executed, result := Some(content));
    OwnFlushed(job, w, MarkExecuted(job.id, content, true), e, executed);
    next := Step(job, w, Reshare(true, true));
  }

  lemma RunTwo(job: Job, w: World, a: Event, b: Event)
    ensures DelegatedPull.Run(job, w, [a, b]) == Step(job, Step(job, w, a), b)
  {
    var next := Step(job, w, a);
    assert [a, b][1..] == [b] && [b][1..] == [];
    assert DelegatedPull.Run(job, w, [a, b]) == DelegatedPull.Run(job, next, [b]);
    assert DelegatedPull.Run(job, next, [b]) == DelegatedPull.Run(job, Step(job, next, b), []);
  }

  lemma Reconciles(job: Job, w: World, e: Entry, landed: Outcome) returns (next: World)
    requires IsLanded(landed) && w.task == Idle && Holds(job, w, e) && e.status == Paid && e.pullSignature.Some?
    ensures next == Step(job, Step(job, w, Recover(true)), ReconcileTo(landed, true))
    ensures next.task == Resharing && Holds(job, next, e) && Same(w, next)
  {
    next := Step(job, w, Recover(true));
    next := Step(job, next, ReconcileTo(landed, true));
  }

  lemma UpToResharing(job: Job, w: World, e: Entry, landed: Outcome) returns (next: World)
    requires IsLanded(landed) && job.id != "" && Dsk(w.led, job.id) == Some(e) && e.jobId == job.id && e.status == Paid && e.pullSignature.Some?
    ensures next == DelegatedPull.Run(job, w, [Crashed, Recover(true), ReconcileTo(landed, true)])
    ensures next.task == Resharing && Holds(job, next, e) && Same(w, next)
  {
    RunThree(job, w, Crashed, Recover(true), ReconcileTo(landed, true));
    next := Restarted(job, w, e);
    next := Reconciles(job, next, e, landed);
  }

  lemma RecoverPaid(job: Job, w: World, e: Entry, landed: Outcome)
    requires IsLanded(landed) && job.id != "" && Dsk(w.led, job.id) == Some(e) && e.jobId == job.id && e.status == Paid && e.pullSignature.Some?
    ensures var next := DelegatedPull.Run(job, w, RecoveryOf(Paid, landed));
            IsDelivered(job, next) && next.out == w.out + [ResultOf(e)] && next.sent == w.sent
  {
    RunOn(job, w, [Crashed, Recover(true), ReconcileTo(landed, true)], [Reshare(true, true), Deliver(true)]);
    var resharing := UpToResharing(job, w, e, landed);
    RunTwo(job, resharing, Reshare(true, true), Deliver(true));
    var shared, executed := Reshared(job, resharing, e);
    var delivered := LastDelivery(job, shared, executed);
  }

  lemma Restarted(job: Job, w: World, e: Entry) returns (next: World)
    requires job.id != "" && Dsk(w.led, job.id) == Some(e) && e.jobId == job.id
    ensures next == Step(job, w, Crashed) && next.task == Idle && Holds(job, next, e) && Same(w, next)
  {
    next := Step(job, w, Crashed);
  }

  lemma PickedUp(job: Job, w: World, e: Entry) returns (next: World, again: Entry)
    requires w.task == Idle && Holds(job, w, e) && e.status == Executed && e.result.Some?
    ensures next == Step(job, w, Recover(true)) && next.task == Redelivering && Same(w, next)
    ensures again == e.(retryCount := e.retryCount + 1) && Holds(job, next, again)
  {
    again := e.(retryCount := e.retryCount + 1);
    OwnFlushed(job, w, IncrementRetry(job.id, true), e, again);
    next := Step(job, w, Recover(true));
  }

  lemma SharedAgain(job: Job, w: World, e: Entry) returns (next: World)
    requires w.task == Redelivering && Holds(job, w, e)
    ensures next == Step(job, w, Reshare(true, true)) && next.task == RecoveryDelivering(OrEmpty(e.result), FilesOf(e))
    ensures Holds(job, next, e) && Same(w, next)
  {
    next := Step(job, w, Reshare(true, true));
  }

  lemma UpToRedelivery(job: Job, w: World, e: Entry) returns (next: World, again: Entry)
    requires job.id != "" && Dsk(w.led, job.id) == Some(e) && e.jobId == job.id && e.status == Executed && e.result.Some?
    ensures next == DelegatedPull.Run(job, w, [Crashed, Recover(true), Reshare(true, true)])
    ensures next.task == RecoveryDelivering(e.result.value, FilesOf(e)) && Same(w, next)
    ensures Holds(job, next, again) && again == e.(retryCount := e.retryCount + 1)
  {
    RunThree(job, w, Crashed, Recover(true), Reshare(true, true));
    next := Restarted(job, w, e);
    next, again := PickedUp(job, next, e);
    next := SharedAgain(job, next, again);
  }

  lemma RecoverExecuted(job: Job, w: World, e: Entry, landed: Outcome)
    requires job.id != "" && Dsk(w.led, job.id) == Some(e) && e.jobId == job.id && e.status == Executed && e.result.Some?
    ensures var next := DelegatedPull.Run(job, w, RecoveryOf(Executed, landed));
            IsDelivered(job, next) && next.out == w.out + [ResultOf(e)] && next.sent == w.sent
  {
    RunOn(job, w, [Crashed, Recover(true), Reshare(true, true)], [Deliver(true)]);
    var shared, again := UpToRedelivery(job, w, e);
    var delivered := LastDelivery(job, shared, again);
    RunOne(job, shared, Deliver(true));
  }

  lemma RunOne(job: Job, w: World, a: Event)
    ensures DelegatedPull.Run(job, w, [a]) == Step(job, w, a)
  {
    assert [a][1..] == [];
    assert DelegatedPull.Run(job, Step(job, w, a), []) == Step(job, w, a);
  }

  /**
   Whatever happened so far, a job whose pull is on disk is delivered by a restart and one recovery
   that finds its transfer landed and its files kept, and what goes out is what its skill produced.
   */
  lemma ChargedJobCanBeDelivered(job: Job, disk: Disk, now: int, events: seq<Event>, landed: Outcome)
    requires IsLanded(landed) && job.id != "" && job.ceiling > 0 && job.id !in disk
    requires Pulled(Dsk(DelegatedPull.Run(job, Start(disk, now), events).led, job.id))
    ensures var w := DelegatedPull.Run(job, Start(disk, now), events);
            var e := Dsk(w.led, job.id).value;
            var next := DelegatedPull.Run(job, w, RecoveryOf(e.status, landed));
            && IsDelivered(job, next) && next.out == w.out + [ResultOf(e)] && next.sent == w.sent
            && Produced(events, ResultOf(e).content, ResultOf(e).files)
  {
    Reachable(job, disk, now, events);
    ChargedJobKeepsItsResult(job, disk, now, events);
    var w := DelegatedPull.Run(job, Start(disk, now), events);
    var e := Dsk(w.led, job.id).value;
    if e.status == Paid {
      RecoverPaid(job, w, e, landed);
    } else {
      RecoverExecuted(job, w, e, landed);
    }
  }

  // ---- A job that is refused fails, one that is undecided waits ----

  /** Something says no to the job: the proof, the pre-check, an empty result, the chain, the file store or the failure routing. */
  predicate SaysNo(task: Task, e: Entry, ev: Event) {
    match ev
    case Decide(accepted, _) => task == Checking && !accepted
    case Precheck(passed, _) => task == Prechecking && !passed
    case Persist(_, _) => task.Built? && task.content == "" && task.files == []
    case Terminal(outcome, _) => task.Waiting? && outcome == Dead
    case ReconcileTo(outcome, _) => task.Reconciling? && outcome == Dead
    case Reshare(blobKept, _) => (task == Resharing || task == Redelivering) && !blobKept
    case Recover(_) => task == Idle && e.status == Paid && e.pullSignature.None?
    case ForceFail(_) => task == Idle && (e.status == Paid || e.status == Executed) && e.pullSignature.None?
    case Route(keep, _) => task == Failing && e.status == Paid && !keep
    case _ => false
  }

  lemma NoMeansFail(job: Job, w: World, ev: Event, e: Entry)
    requires Holds(job, w, e) && SaysNo(w.task, e, ev) && (w.task.Waiting? ==> LedgerHolds(w.task.amount))
    ensures var next := Step(job, w, ev);
            next.led == Apply(w.led, MarkFailed(job.id, ev.ok)) && next.task == Idle && Same(w, next)
  {
  }

  lemma NoComesInTime(job: Job, w: World, ev: Event, e: Entry)
    requires Inv(job, w, NO_TRUST) && Holds(job, w, e) && SaysNo(w.task, e, ev)
    ensures MayBecome(e.status, Failed) && (w.task.Waiting? ==> LedgerHolds(w.task.amount))
  {
  }

  /** Then the job fails in memory, and on disk when the flush succeeds; nothing is sent and nothing handed out. */
  lemma RefusedJobFails(job: Job, w: World, ev: Event, e: Entry, past: Past)
    requires Good(job, w, past) && Holds(job, w, e) && SaysNo(w.task, e, ev)
    ensures var next := Step(job, w, ev);
            && next.task == Idle && Mem(next.led, job.id) == Some(Finished(e, Failed)) && Same(w, next)
            && (ev.ok ==> Dsk(next.led, job.id) == Mem(next.led, job.id))
  {
    NoComesInTime(job, w, ev, e);
    NoMeansFail(job, w, ev, e);
    OwnCall(w.led, MarkFailed(job.id, ev.ok), job.id, e);
  }

  /** The verdict is open, or the failure is one to be retried. */
  predicate IsUndecided(task: Task, e: Entry, ev: Event) {
    match ev
    case Terminal(outcome, _) => task.Waiting? && outcome == Unresolved
    case ReconcileTo(outcome, _) => task.Reconciling? && outcome == Unresolved
    case Route(keep, _) => task == Failing && (e.status == Executed || (e.status == Paid && keep))
    case ForceFail(_) => e.pullSignature.Some?
    case _ => false
  }

  /** Then the entry stays as it is for a later recovery. */
  lemma UndecidedJobWaits(job: Job, w: World, ev: Event, e: Entry, past: Past)
    requires Good(job, w, past) && Holds(job, w, e) && IsUndecided(w.task, e, ev)
    ensures var next := Step(job, w, ev); next.led == w.led && Same(w, next) && (next.task == Idle || next == w)
  {
  }
}
