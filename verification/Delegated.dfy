/**
 The delegated payment of one job: record, gate, work, persist the result, persist the pull
 signature, send, deliver - with crashes, failed flushes and recovery at any point. The
 steps act on the whole ledger, so every other job's call is a step of the environment. A
 step is one synchronous block of the runtime; at most one task runs for the job at a time.
 */
module DelegatedPull {
  import opened Prelude
  import opened Ledger

  const TTL: int := 600
  const SKEW: int := 60
  const RETENTION: int := 2592000
  const MAX_SAFE_INTEGER: int := 9007199254740991

  // ---- What the pull moves ----

  /** A figure that crossed the skill boundary: absent, of another type, or an integer. */
  datatype Figure = Absent | NotInteger | Amount(value: int)

  /** The reported charge raised to the published floor, then capped at the ceiling; None bills the ceiling. */
  function MeteredCharge(floor: Figure, ceiling: int, reported: Figure): Option<int> {
    if !floor.Amount? || floor.value <= 0 || !reported.Amount? then None
    else
      var raised := if reported.value < floor.value then floor.value else reported.value;
      Some(if raised > ceiling then ceiling else raised)
  }

  function Billed(charged: Option<int>, ceiling: int): int {
    if charged.Some? then charged.value else ceiling
  }

  predicate LedgerHolds(amount: int) {
    0 <= amount <= MAX_SAFE_INTEGER
  }

  /** The charge stays in the published range, so an amount the ledger held before the pull it holds after. */
  lemma MeteredChargeInRange(floor: Figure, ceiling: int, reported: Figure)
    requires ceiling > 0
    ensures var amount := Billed(MeteredCharge(floor, ceiling, reported), ceiling);
            && 0 < amount <= ceiling
            && (floor.Amount? && floor.value <= ceiling ==> floor.value <= amount)
            && (floor.Amount? && reported.Amount? && 0 < floor.value <= reported.value <= ceiling ==> amount == reported.value)
            && (LedgerHolds(ceiling) ==> LedgerHolds(amount))
  {
  }

  // ---- The protocol ----

  /** Where the job's task is; a crash takes it back to Idle. */
  datatype Task =
    | Idle
    | Checking
    | Prechecking
    | Working
    | Built(content: string, files: seq<string>)
    | Pulling(content: string, files: seq<string>, amount: int)
    | Signed(content: string, files: seq<string>, pull: Signature, amount: int)
    | Waiting(content: string, files: seq<string>, pull: Signature, amount: int)
    | Delivering(content: string, files: seq<string>)
    | Failing
    | Reconciling(pull: Signature)
    | Resharing
    | Redelivering
    | RecoveryDelivering(content: string, files: seq<string>)

  datatype Outcome = Landed | AssumeLanded | Dead | Unresolved

  datatype Sent = Sent(pull: Signature, amount: int)

  /** A result as the customer gets it. */
  datatype Result = Result(content: string, files: seq<string>)

  datatype World = World(
    led: State,
    task: Task,
    now: int,
    sent: seq<Sent>,
    /** The results handed to the customer. */
    out: seq<Result>,
    resultLost: bool)

  /** The job: its id, its proof's expiry, the price and metering its card published. */
  datatype Job = Job(id: JobId, expiry: int, ceiling: int, floor: Figure)

  datatype Event =
    | Tick(secs: nat)
    | Other(op: Op)
    | Crashed
    | Intake(rawEvent: string, ok: bool, okFailed: bool)
    | Decide(accepted: bool, ok: bool)
    | Precheck(passed: bool, ok: bool)
    | Work(content: string, files: seq<string>, ok: bool)
    | Persist(reported: Figure, ok: bool)
    | Sign(pull: Signature, height: nat, ok: bool)
    | Send
    | Terminal(outcome: Outcome, ok: bool)
    | Deliver(ok: bool)
    | Throw
    | Route(keep: bool, ok: bool)
    | ForceFail(ok: bool)
    | Recover(ok: bool)
    | ReconcileTo(outcome: Outcome, ok: bool)
    | Reshare(blobKept: bool, ok: bool)

  predicate GateOpen(job: Job, now: int) {
    now < job.expiry <= now + TTL + SKEW
  }

  ghost function Do(w: World, op: Op, task: Task): World {
    w.(led := Apply(w.led, op), task := task)
  }

  /** A ledger call that throws when its flush fails; the runtime's catch then runs as its own step. */
  ghost function Try(w: World, op: Op, ok: bool, task: Task): World {
    Do(w, op, if ok then task else Failing)
  }

  predicate Deliverable(content: string, files: seq<string>) {
    content != "" || files != []
  }

  predicate Names(op: Op, job: JobId) {
    match op
    case Prune(_, _) => false
    case Crash => true
    case _ => op.job == job
  }

  ghost function AtOther(job: Job, w: World, op: Op): World {
    if Names(op, job.id) || (op.Prune? && op.cutoff != w.now - RETENTION) then w else w.(led := Apply(w.led, op))
  }

  ghost function AtIntake(job: Job, w: World, rawEvent: string, ok: bool, okFailed: bool): World {
    if w.task != Idle || job.id in w.led.entries then w
    else
      var recorded := Do(w, RecordPaid(job.id, w.now, rawEvent, ok), if ok then Checking else Failing);
      if !ok || GateOpen(job, w.now) then recorded
      else Do(recorded, MarkFailed(job.id, okFailed), Idle)
  }

  ghost function AtDecision(job: Job, w: World, accepted: bool, ok: bool): World {
    if w.task != Checking then w
    else if accepted then Try(w, MarkDelegated(job.id, ok), ok, Prechecking)
    else Do(w, MarkFailed(job.id, ok), Idle)
  }

  ghost function AtPrecheck(job: Job, w: World, passed: bool, ok: bool): World {
    if w.task != Prechecking then w
    else if passed then w.(task := if LedgerHolds(job.ceiling) then Working else Failing)
    else Do(w, MarkFailed(job.id, ok), Idle)
  }

  ghost function AtWork(job: Job, w: World, content: string, files: seq<string>, ok: bool): World {
    if w.task != Working then w
    else if files == [] then w.(task := Built(content, files))
    else Try(w, RecordAttachment(job.id, None, Some(files), ok), ok, Built(content, files))
  }

  ghost function AtPersist(job: Job, w: World, reported: Figure, ok: bool): World {
    if !w.task.Built? then w
    else if !Deliverable(w.task.content, w.task.files) then Do(w, MarkFailed(job.id, ok), Idle)
    else
      var amount := Billed(MeteredCharge(job.floor, job.ceiling, reported), job.ceiling);
      Try(w, RecordDeliveredContent(job.id, w.task.content, ok), ok, Pulling(w.task.content, w.task.files, amount))
  }

  ghost function AtSign(job: Job, w: World, pull: Signature, height: nat, ok: bool): World {
    if !w.task.Pulling? then w
    else if !LedgerHolds(w.task.amount) then w.(task := Failing)
    else Try(w, RecordPullSignature(job.id, pull, height, w.task.amount, ok), ok, Signed(w.task.content, w.task.files, pull, w.task.amount))
  }

  ghost function AtSend(w: World): World {
    if !w.task.Signed? then w
    else w.(sent := w.sent + [Sent(w.task.pull, w.task.amount)], task := Waiting(w.task.content, w.task.files, w.task.pull, w.task.amount))
  }

  ghost function AtTerminal(job: Job, w: World, outcome: Outcome, ok: bool): World {
    if !w.task.Waiting? then w
    else if !LedgerHolds(w.task.amount) then w.(task := Failing)
    else if outcome == Dead then Do(w, MarkFailed(job.id, ok), Idle)
    else if outcome == Unresolved then w.(task := Idle)
    else Try(w, MarkExecuted(job.id, w.task.content, ok), ok, Delivering(w.task.content, w.task.files))
  }

  ghost function HandOut(w: World): World
    requires w.task.Delivering? || w.task.RecoveryDelivering?
  {
    w.(out := w.out + [Result(w.task.content, w.task.files)])
  }

  ghost function AtDelivery(job: Job, w: World, ok: bool): World {
    if w.task.Delivering? then Try(HandOut(w), MarkDelivered(job.id, ok), ok, Idle)
    else if w.task.RecoveryDelivering? then Do(HandOut(w), MarkDelivered(job.id, ok), Idle)
    else w
  }

  /** Whatever else can throw: the checks, the input fetch, the skill, seeding, building or signing the transfer, delivery. */
  function Thrown(task: Task): Task {
    if task == Checking || task == Prechecking || task == Working || task.Pulling? || task.Delivering? then Failing
    else if task.RecoveryDelivering? then Idle
    else task
  }

  ghost function AtRoute(job: Job, w: World, keep: bool, ok: bool): World {
    if w.task != Failing then w
    else if job.id in w.led.entries
            && (w.led.entries[job.id].status == Executed || (keep && w.led.entries[job.id].status == Paid))
    then w.(task := Idle)
    else Do(w, MarkFailed(job.id, ok), Idle)
  }

  ghost function AtForceFail(job: Job, w: World, ok: bool): World {
    if w.task == Idle && job.id in w.led.entries && w.led.entries[job.id].pullSignature == None
    then Do(w, MarkFailed(job.id, ok), Idle)
    else w
  }

  ghost function AtRecovery(job: Job, w: World, ok: bool): World {
    if w.task != Idle || job.id !in w.led.entries then w
    else
      var e := w.led.entries[job.id];
      if e.status == Executed && e.result.Some? then Do(w, IncrementRetry(job.id, ok), if ok then Redelivering else Idle)
      else if e.status == Paid then
        if e.pullSignature.Some? then w.(task := Reconciling(e.pullSignature.value))
        else Do(w, MarkFailed(job.id, ok), Idle)
      else w
  }

  ghost function AtReconcile(job: Job, w: World, outcome: Outcome, ok: bool): World {
    if !w.task.Reconciling? then w
    else if outcome == Unresolved then w.(task := Idle)
    else if outcome == Dead then Do(w, MarkFailed(job.id, ok), Idle)
    else w.(task := Resharing)
  }

  function OrEmpty(content: Option<string>): string {
    if content.Some? then content.value else ""
  }

  function FilesOf(e: Entry): seq<string> {
    if e.attachments.Some? then e.attachments.value else []
  }

  ghost function AtReshare(job: Job, w: World, blobKept: bool, ok: bool): World {
    if (w.task != Resharing && w.task != Redelivering) || job.id !in w.led.entries then w
    else
      var e := w.led.entries[job.id];
      if !blobKept then Do(w, MarkFailed(job.id, ok), Idle).(resultLost := true)
      else if w.task == Redelivering then w.(task := RecoveryDelivering(OrEmpty(e.result), FilesOf(e)))
      else
        var content := OrEmpty(e.deliveredContent);
        Do(w, MarkExecuted(job.id, content, ok), if ok then RecoveryDelivering(content, FilesOf(e)) else Idle)
  }

  ghost function Step(job: Job, w: World, ev: Event): World {
    match ev
    case Tick(secs) => w.(now := w.now + secs)
    case Other(op) => AtOther(job, w, op)
    case Crashed => Do(w, Crash, Idle)
    case Intake(rawEvent, ok, okFailed) => AtIntake(job, w, rawEvent, ok, okFailed)
    case Decide(accepted, ok) => AtDecision(job, w, accepted, ok)
    case Precheck(passed, ok) => AtPrecheck(job, w, passed, ok)
    case Work(content, files, ok) => AtWork(job, w, content, files, ok)
    case Persist(reported, ok) => AtPersist(job, w, reported, ok)
    case Sign(pull, height, ok) => AtSign(job, w, pull, height, ok)
    case Send => AtSend(w)
    case Terminal(outcome, ok) => AtTerminal(job, w, outcome, ok)
    case Deliver(ok) => AtDelivery(job, w, ok)
    case Throw => w.(task := Thrown(w.task))
    case Route(keep, ok) => AtRoute(job, w, keep, ok)
    case ForceFail(ok) => AtForceFail(job, w, ok)
    case Recover(ok) => AtRecovery(job, w, ok)
    case ReconcileTo(outcome, ok) => AtReconcile(job, w, outcome, ok)
    case Reshare(blobKept, ok) => AtReshare(job, w, blobKept, ok)
  }

  ghost function Run(job: Job, w: World, events: seq<Event>): World
    decreases |events|
  {
    if events == [] then w else Run(job, Step(job, w, events[0]), events[1..])
  }

  // ---- The chain ----

  /** Which pulls land once sent, and which of the terminal verdicts are to be trusted. */
  datatype Oracle = Oracle(lands: Signature -> bool, deadIsTrue: bool, landedIsTrue: bool)

  predicate WasSent(sent: seq<Sent>, pull: Signature) {
    exists i :: 0 <= i < |sent| && sent[i].pull == pull
  }

  predicate Charged(sent: seq<Sent>, pull: Signature, oracle: Oracle) {
    WasSent(sent, pull) && oracle.lands(pull)
  }

  /** `dead` is said only of a pull that moves no money, `landed` only of one that does. */
  predicate HonestVerdict(sent: seq<Sent>, pull: Signature, outcome: Outcome, oracle: Oracle) {
    && (oracle.deadIsTrue && outcome == Dead ==> !Charged(sent, pull, oracle))
    && (oracle.landedIsTrue && (outcome == Landed || outcome == AssumeLanded) ==> Charged(sent, pull, oracle))
  }

  predicate Honest(w: World, ev: Event, oracle: Oracle) {
    && (ev.Terminal? && w.task.Waiting? ==> HonestVerdict(w.sent, w.task.pull, ev.outcome, oracle))
    && (ev.ReconcileTo? && w.task.Reconciling? ==> HonestVerdict(w.sent, w.task.pull, ev.outcome, oracle))
  }

  ghost predicate HonestRun(job: Job, w: World, events: seq<Event>, oracle: Oracle)
    decreases |events|
  {
    events == [] || (Honest(w, events[0], oracle) && HonestRun(job, Step(job, w, events[0]), events[1..], oracle))
  }

  // ---- One job's entry under the ledger's calls ----

  ghost function Entry0(entries: Entries, j: JobId): Option<Entry> {
    if j in entries then Some(entries[j]) else None
  }

  ghost function Mem(led: State, j: JobId): Option<Entry> {
    Entry0(led.entries, j)
  }

  ghost function Dsk(led: State, j: JobId): Option<Entry> {
    Entry0(Readable(led.disk), j)
  }

  predicate Owned(e: Option<Entry>, j: JobId) {
    e.Some? ==> e.value.jobId == j
  }

  lemma FlushedEntry(led: State, j: JobId, ok: bool)
    requires j != "" && Owned(Mem(led, j), j)
    ensures Dsk(Flush(led, ok), j) == if ok then Mem(led, j) else Dsk(led, j)
  {
    if ok && j in led.entries {
      assert j in Saved(led.entries) && j in Readable(Saved(led.entries));
    }
  }

  /** A call on the job itself rewrites its entry, and the file with it when the flush succeeds. */
  lemma OwnCall(led: State, op: Op, j: JobId, e: Entry)
    requires j != "" && OnEntry(op) && op.job == j && Mem(led, j) == Some(e) && e.jobId == j
    ensures Mem(Apply(led, op), j) == if Changed(e, op).Some? then Changed(e, op) else Some(e)
    ensures Dsk(Apply(led, op), j) == if Changed(e, op).Some? && op.ok then Changed(e, op) else Dsk(led, j)
  {
    if Changed(e, op).Some? {
      FlushedEntry(led.(entries := led.entries[j := Changed(e, op).value]), j, op.ok);
    }
  }

  lemma RecordCall(led: State, j: JobId, createdAt: int, rawEvent: string, ok: bool)
    requires j != "" && Mem(led, j) == None
    ensures var op := RecordPaid(j, createdAt, rawEvent, ok);
            var e := NewEntry(j, createdAt, rawEvent);
            Mem(Apply(led, op), j) == Some(e) && Dsk(Apply(led, op), j) == if ok then Some(e) else Dsk(led, j)
  {
    FlushedEntry(led.(entries := led.entries[j := NewEntry(j, createdAt, rawEvent)]), j, ok);
  }

  /** A call on the job itself finds nothing to change when it has no entry. */
  lemma AbsentCall(led: State, op: Op, j: JobId)
    requires OnEntry(op) && op.job == j && Mem(led, j) == None
    ensures Apply(led, op) == led
  {
  }

  /** A call leaves the file, or writes what memory holds. */
  lemma CallFlushes(led: State, op: Op)
    ensures Apply(led, op).disk == led.disk || Apply(led, op).disk == Saved(Apply(led, op).entries)
  {
  }

  lemma SavedEntry(led: State, j: JobId)
    requires j != "" && Owned(Mem(led, j), j) && led.disk == Saved(led.entries)
    ensures Dsk(led, j) == Mem(led, j)
  {
    FlushedEntry(led, j, true);
    assert Flush(led, true) == led;
  }

  lemma OtherCallInMemory(led: State, op: Op, j: JobId)
    requires !Names(op, j)
    ensures var mem := Mem(Apply(led, op), j);
            mem == Mem(led, j) || (op.Prune? && Mem(led, j).Some? && Expired(Mem(led, j).value, op.cutoff) && mem == None)
  {
  }

  /** Another job's call can only prune the entry, or carry what memory holds to the file. */
  lemma OtherCall(led: State, op: Op, j: JobId)
    requires j != "" && !Names(op, j) && Owned(Mem(led, j), j)
    ensures var mem := Mem(Apply(led, op), j);
            mem == Mem(led, j) || (op.Prune? && Mem(led, j).Some? && Expired(Mem(led, j).value, op.cutoff) && mem == None)
    ensures Dsk(Apply(led, op), j) == Dsk(led, j) || Dsk(Apply(led, op), j) == Mem(Apply(led, op), j)
  {
    var next := Apply(led, op);
    OtherCallInMemory(led, op, j);
    CallFlushes(led, op);
    if next.disk == Saved(next.entries) {
      SavedEntry(next, j);
    }
  }

  // ---- The invariant ----

  predicate Paying(e: Entry) {
    e.status == Paid && e.pullSignature == None
  }

  predicate HoldsResult(e: Entry) {
    e.deliveredContent.Some?
    && Deliverable(e.deliveredContent.value, FilesOf(e))
  }

  /** What every entry of the job satisfies, in memory and on disk. */
  predicate EntryOk(job: Job, e: Entry) {
    && e.jobId == job.id
    && (e.pullSignature.Some? ==> job.expiry <= e.createdAt + TTL + SKEW)
    && (e.status == Paid && e.pullSignature.Some? ==> HoldsResult(e))
    && (e.status == Executed ==> e.result.Some?)
    && (e.status == Executed || e.status == Delivered ==> e.pullSignature.Some?)
  }

  /** The entry carries no pull but the one that was sent. */
  predicate NoOtherPull(e: Option<Entry>, sent: seq<Sent>) {
    e.Some? && e.value.pullSignature.Some? && sent != [] ==> e.value.pullSignature == Some(sent[0].pull)
  }

  /** The pull that was sent is recorded, unless the proof's gate has closed for good. */
  predicate Recorded(job: Job, e: Option<Entry>, sent: seq<Sent>, now: int) {
    sent != [] ==>
      || (e.Some? && e.value.pullSignature == Some(sent[0].pull) && e.value.netAmount == Some(sent[0].amount))
      || job.expiry <= now
  }

  predicate PullIs(e: Option<Entry>, status: Status, pull: Signature) {
    e.Some? && e.value.status == status && e.value.pullSignature == Some(pull)
  }

  predicate Bills(e: Option<Entry>, amount: int) {
    e.Some? && e.value.netAmount == Some(amount)
  }

  /** A charged entry fails only with its result lost; a result goes out only for a charge. */
  predicate VerdictOk(e: Option<Entry>, sent: seq<Sent>, lost: bool, oracle: Oracle) {
    e.Some? && e.value.pullSignature.Some? ==>
      var charged := Charged(sent, e.value.pullSignature.value, oracle);
      && (oracle.deadIsTrue && e.value.status == Failed && charged ==> lost)
      && (oracle.landedIsTrue && (e.value.status == Executed || e.value.status == Delivered) ==> charged)
  }

  /** What holds of the entry in memory and of the one on disk alike, whatever the task. */
  predicate SideOk(job: Job, e: Option<Entry>, sent: seq<Sent>, now: int, lost: bool, oracle: Oracle) {
    && (e.Some? ==> EntryOk(job, e.value))
    && NoOtherPull(e, sent) && Recorded(job, e, sent, now) && VerdictOk(e, sent, lost, oracle)
  }

  predicate AboutToPay(job: Job, sent: seq<Sent>, mem: Option<Entry>, dsk: Option<Entry>) {
    && sent == [] && mem.Some? && dsk.Some? && Paying(mem.value) && dsk.value.pullSignature == None
    && job.expiry <= mem.value.createdAt + TTL + SKEW
  }

  predicate TaskOk(job: Job, task: Task, sent: seq<Sent>, mem: Option<Entry>, dsk: Option<Entry>, oracle: Oracle) {
    match task
    case Idle => true
    case Checking => AboutToPay(job, sent, mem, dsk)
    case Prechecking => AboutToPay(job, sent, mem, dsk)
    case Working => AboutToPay(job, sent, mem, dsk) && LedgerHolds(job.ceiling)
    case Built(content, files) =>
      AboutToPay(job, sent, mem, dsk) && LedgerHolds(job.ceiling) && (files != [] ==> mem.value.attachments == Some(files))
    case Pulling(content, files, amount) =>
      AboutToPay(job, sent, mem, dsk) && 0 < amount <= job.ceiling && LedgerHolds(amount) && HoldsResult(mem.value)
    case Signed(content, files, pull, amount) =>
      && sent == [] && PullIs(mem, Paid, pull) && PullIs(dsk, Paid, pull) && Bills(mem, amount) && Bills(dsk, amount)
      && 0 < amount <= job.ceiling && LedgerHolds(amount)
    case Waiting(content, files, pull, amount) =>
      |sent| == 1 && sent[0].pull == pull && PullIs(mem, Paid, pull) && LedgerHolds(amount)
    case Delivering(_, _) => sent != [] && PullIs(mem, Executed, sent[0].pull)
    case Failing =>
      sent != [] && mem.Some? ==>
        mem.value.status == Executed || mem.value.status == Delivered || mem.value.pullSignature == None
    case Reconciling(pull) => PullIs(mem, Paid, pull)
    case Resharing =>
      && mem.Some? && mem.value.status == Paid && mem.value.pullSignature.Some?
      && (oracle.landedIsTrue ==> Charged(sent, mem.value.pullSignature.value, oracle))
    case Redelivering => mem.Some? && mem.value.status == Executed
    case RecoveryDelivering(_, _) => mem.Some? && mem.value.status == Executed
  }

  predicate SentOk(job: Job, sent: seq<Sent>) {
    |sent| <= 1 && (sent != [] ==> 0 < sent[0].amount <= job.ceiling)
  }

  predicate InvAt(job: Job, w: World, mem: Option<Entry>, dsk: Option<Entry>, oracle: Oracle) {
    && SentOk(job, w.sent)
    && SideOk(job, mem, w.sent, w.now, w.resultLost, oracle) && SideOk(job, dsk, w.sent, w.now, w.resultLost, oracle)
    && TaskOk(job, w.task, w.sent, mem, dsk, oracle)
  }

  ghost predicate Inv(job: Job, w: World, oracle: Oracle) {
    InvAt(job, w, Mem(w.led, job.id), Dsk(w.led, job.id), oracle)
  }

  // ---- Each step keeps it ----

  /** A step that touches only the task. */
  lemma TaskKeepsInv(job: Job, w: World, task: Task, oracle: Oracle)
    requires Inv(job, w, oracle) && TaskOk(job, task, w.sent, Mem(w.led, job.id), Dsk(w.led, job.id), oracle)
    ensures Inv(job, w.(task := task), oracle)
  {
  }

  /** A call on the job's own entry: only the rewritten entry and the new task need to be looked at. */
  lemma CallKeepsInv(job: Job, w: World, op: Op, task: Task, oracle: Oracle)
    requires job.id != "" && Inv(job, w, oracle) && OnEntry(op) && op.job == job.id && Mem(w.led, job.id).Some?
    requires var mem := Mem(w.led, job.id);
             var changed := Changed(mem.value, op);
             var next := if changed.Some? then changed else mem;
             && SideOk(job, next, w.sent, w.now, w.resultLost, oracle)
             && TaskOk(job, task, w.sent, next, if changed.Some? && op.ok then changed else Dsk(w.led, job.id), oracle)
    ensures Inv(job, Do(w, op, task), oracle)
  {
    OwnCall(w.led, op, job.id, Mem(w.led, job.id).value);
  }

  /** The job may be failed: it holds no pull, or one that moved no money, or its result is lost. */
  predicate MayFail(sent: seq<Sent>, lost: bool, mem: Option<Entry>, oracle: Oracle) {
    mem.Some? && mem.value.pullSignature.Some? && MayBecome(mem.value.status, Failed) && oracle.deadIsTrue ==>
      lost || !Charged(sent, mem.value.pullSignature.value, oracle)
  }

  lemma FailedSide(job: Job, mem: Option<Entry>, sent: seq<Sent>, now: int, lost: bool, oracle: Oracle)
    requires mem.Some? && MayBecome(mem.value.status, Failed)
    requires SideOk(job, mem, sent, now, lost, oracle) && MayFail(sent, lost, mem, oracle)
    ensures SideOk(job, Some(Finished(mem.value, Failed)), sent, now, lost, oracle)
  {
  }

  lemma FailKeepsInv(job: Job, w: World, ok: bool, oracle: Oracle)
    requires job.id != "" && Inv(job, w, oracle) && MayFail(w.sent, w.resultLost, Mem(w.led, job.id), oracle)
    ensures Inv(job, Do(w, MarkFailed(job.id, ok), Idle), oracle)
  {
    var mem := Mem(w.led, job.id);
    if mem.None? {
      AbsentCall(w.led, MarkFailed(job.id, ok), job.id);
      TaskKeepsInv(job, w, Idle, oracle);
    } else {
      if MayBecome(mem.value.status, Failed) {
        FailedSide(job, mem, w.sent, w.now, w.resultLost, oracle);
      }
      CallKeepsInv(job, w, MarkFailed(job.id, ok), Idle, oracle);
    }
  }

  /** An entry that was never pulled for may be failed. */
  lemma UnpulledMayFail(w: World, mem: Option<Entry>, oracle: Oracle)
    requires mem.Some? ==> mem.value.pullSignature == None || mem.value.status == Delivered || mem.value.status == Failed
    ensures MayFail(w.sent, w.resultLost, mem, oracle)
  {
  }

  lemma RecordedKeepsInv(job: Job, w: World, rawEvent: string, ok: bool, oracle: Oracle)
    requires job.id != "" && Inv(job, w, oracle) && w.task == Idle && Mem(w.led, job.id) == None
    ensures var op := RecordPaid(job.id, w.now, rawEvent, ok);
            && Mem(Apply(w.led, op), job.id) == Some(NewEntry(job.id, w.now, rawEvent))
            && Inv(job, Do(w, op, if ok && GateOpen(job, w.now) then Checking else if ok then Idle else Failing), oracle)
  {
    RecordCall(w.led, job.id, w.now, rawEvent, ok);
  }

  lemma IntakeKeepsInv(job: Job, w: World, rawEvent: string, ok: bool, okFailed: bool, oracle: Oracle)
    requires job.id != "" && Inv(job, w, oracle)
    ensures Inv(job, AtIntake(job, w, rawEvent, ok, okFailed), oracle)
  {
    if w.task == Idle && job.id !in w.led.entries {
      RecordedKeepsInv(job, w, rawEvent, ok, oracle);
      if ok && !GateOpen(job, w.now) {
        var recorded := Do(w, RecordPaid(job.id, w.now, rawEvent, ok), Idle);
        UnpulledMayFail(recorded, Mem(recorded.led, job.id), oracle);
        FailKeepsInv(job, recorded, okFailed, oracle);
      }
    }
  }

  lemma DecisionKeepsInv(job: Job, w: World, accepted: bool, ok: bool, oracle: Oracle)
    requires job.id != "" && Inv(job, w, oracle)
    ensures Inv(job, AtDecision(job, w, accepted, ok), oracle)
  {
    if w.task == Checking {
      if accepted {
        CallKeepsInv(job, w, MarkDelegated(job.id, ok), if ok then Prechecking else Failing, oracle);
      } else {
        UnpulledMayFail(w, Mem(w.led, job.id), oracle);
        FailKeepsInv(job, w, ok, oracle);
      }
    }
  }

  lemma PrecheckKeepsInv(job: Job, w: World, passed: bool, ok: bool, oracle: Oracle)
    requires job.id != "" && Inv(job, w, oracle)
    ensures Inv(job, AtPrecheck(job, w, passed, ok), oracle)
  {
    if w.task == Prechecking {
      if passed {
        TaskKeepsInv(job, w, if LedgerHolds(job.ceiling) then Working else Failing, oracle);
      } else {
        UnpulledMayFail(w, Mem(w.led, job.id), oracle);
        FailKeepsInv(job, w, ok, oracle);
      }
    }
  }

  lemma WorkKeepsInv(job: Job, w: World, content: string, files: seq<string>, ok: bool, oracle: Oracle)
    requires job.id != "" && Inv(job, w, oracle)
    ensures Inv(job, AtWork(job, w, content, files, ok), oracle)
  {
    if w.task == Working {
      if files == [] {
        TaskKeepsInv(job, w, Built(content, files), oracle);
      } else {
        CallKeepsInv(job, w, RecordAttachment(job.id, None, Some(files), ok), if ok then Built(content, files) else Failing, oracle);
      }
    }
  }

  lemma PersistKeepsInv(job: Job, w: World, reported: Figure, ok: bool, oracle: Oracle)
    requires job.id != "" && job.ceiling > 0 && Inv(job, w, oracle)
    ensures Inv(job, AtPersist(job, w, reported, ok), oracle)
  {
    if w.task.Built? {
      if Deliverable(w.task.content, w.task.files) {
        MeteredChargeInRange(job.floor, job.ceiling, reported);
        var amount := Billed(MeteredCharge(job.floor, job.ceiling, reported), job.ceiling);
        CallKeepsInv(job, w, RecordDeliveredContent(job.id, w.task.content, ok), if ok then Pulling(w.task.content, w.task.files, amount) else Failing, oracle);
      } else {
        UnpulledMayFail(w, Mem(w.led, job.id), oracle);
        FailKeepsInv(job, w, ok, oracle);
      }
    }
  }

  lemma SignKeepsInv(job: Job, w: World, pull: Signature, height: nat, ok: bool, oracle: Oracle)
    requires job.id != "" && Inv(job, w, oracle)
    ensures Inv(job, AtSign(job, w, pull, height, ok), oracle)
  {
    if w.task.Pulling? {
      var op := RecordPullSignature(job.id, pull, height, w.task.amount, ok);
      CallKeepsInv(job, w, op, if ok then Signed(w.task.content, w.task.files, pull, w.task.amount) else Failing, oracle);
    }
  }

  lemma SentSide(job: Job, e: Option<Entry>, pull: Signature, amount: int, now: int, lost: bool, oracle: Oracle)
    requires SideOk(job, e, [], now, lost, oracle) && PullIs(e, Paid, pull) && Bills(e, amount)
    ensures SideOk(job, e, [Sent(pull, amount)], now, lost, oracle)
  {
  }

  lemma SendKeepsInv(job: Job, w: World, oracle: Oracle)
    requires Inv(job, w, oracle)
    ensures Inv(job, AtSend(w), oracle)
  {
    if w.task.Signed? {
      assert w.sent + [Sent(w.task.pull, w.task.amount)] == [Sent(w.task.pull, w.task.amount)];
      SentSide(job, Mem(w.led, job.id), w.task.pull, w.task.amount, w.now, w.resultLost, oracle);
      SentSide(job, Dsk(w.led, job.id), w.task.pull, w.task.amount, w.now, w.resultLost, oracle);
    }
  }

  lemma TerminalKeepsInv(job: Job, w: World, outcome: Outcome, ok: bool, oracle: Oracle)
    requires job.id != "" && Inv(job, w, oracle)
    requires w.task.Waiting? ==> HonestVerdict(w.sent, w.task.pull, outcome, oracle)
    ensures Inv(job, AtTerminal(job, w, outcome, ok), oracle)
  {
    if w.task.Waiting? {
      if outcome == Dead {
        FailKeepsInv(job, w, ok, oracle);
      } else if outcome == Unresolved {
        TaskKeepsInv(job, w, Idle, oracle);
      } else {
        CallKeepsInv(job, w, MarkExecuted(job.id, w.task.content, ok), if ok then Delivering(w.task.content, w.task.files) else Failing, oracle);
      }
    }
  }

  lemma DeliveryKeepsInv(job: Job, w: World, ok: bool, oracle: Oracle)
    requires job.id != "" && Inv(job, w, oracle)
    ensures Inv(job, AtDelivery(job, w, ok), oracle)
  {
    if w.task.Delivering? {
      CallKeepsInv(job, HandOut(w), MarkDelivered(job.id, ok), if ok then Idle else Failing, oracle);
    } else if w.task.RecoveryDelivering? {
      CallKeepsInv(job, HandOut(w), MarkDelivered(job.id, ok), Idle, oracle);
    }
  }

  lemma RouteKeepsInv(job: Job, w: World, keep: bool, ok: bool, oracle: Oracle)
    requires job.id != "" && Inv(job, w, oracle)
    ensures Inv(job, AtRoute(job, w, keep, ok), oracle)
  {
    if w.task == Failing {
      TaskKeepsInv(job, w, Idle, oracle);
      if job.id !in w.led.entries || w.led.entries[job.id].status != Executed {
        FailKeepsInv(job, w, ok, oracle);
      }
    }
  }

  lemma ForceFailKeepsInv(job: Job, w: World, ok: bool, oracle: Oracle)
    requires job.id != "" && Inv(job, w, oracle)
    ensures Inv(job, AtForceFail(job, w, ok), oracle)
  {
    if w.task == Idle && job.id in w.led.entries && w.led.entries[job.id].pullSignature == None {
      UnpulledMayFail(w, Mem(w.led, job.id), oracle);
      FailKeepsInv(job, w, ok, oracle);
    }
  }

  lemma RecoveryKeepsInv(job: Job, w: World, ok: bool, oracle: Oracle)
    requires job.id != "" && Inv(job, w, oracle)
    ensures Inv(job, AtRecovery(job, w, ok), oracle)
  {
    if w.task == Idle && job.id in w.led.entries {
      var e := w.led.entries[job.id];
      if e.status == Executed {
        CallKeepsInv(job, w, IncrementRetry(job.id, ok), if ok then Redelivering else Idle, oracle);
      } else if e.status == Paid && e.pullSignature.Some? {
        TaskKeepsInv(job, w, Reconciling(e.pullSignature.value), oracle);
      } else if e.status == Paid {
        UnpulledMayFail(w, Mem(w.led, job.id), oracle);
        FailKeepsInv(job, w, ok, oracle);
      }
    }
  }

  lemma ReconcileKeepsInv(job: Job, w: World, outcome: Outcome, ok: bool, oracle: Oracle)
    requires job.id != "" && Inv(job, w, oracle)
    requires w.task.Reconciling? ==> HonestVerdict(w.sent, w.task.pull, outcome, oracle)
    ensures Inv(job, AtReconcile(job, w, outcome, ok), oracle)
  {
    if w.task.Reconciling? {
      if outcome == Dead {
        FailKeepsInv(job, w, ok, oracle);
      } else {
        TaskKeepsInv(job, w, if outcome == Unresolved then Idle else Resharing, oracle);
      }
    }
  }

  lemma LostKeepsInv(job: Job, w: World, ok: bool, oracle: Oracle)
    requires job.id != "" && Inv(job, w, oracle)
    ensures Inv(job, Do(w, MarkFailed(job.id, ok), Idle).(resultLost := true), oracle)
  {
    FailKeepsInv(job, w.(resultLost := true), ok, oracle);
  }

  lemma ReshareKeepsInv(job: Job, w: World, blobKept: bool, ok: bool, oracle: Oracle)
    requires job.id != "" && Inv(job, w, oracle)
    ensures Inv(job, AtReshare(job, w, blobKept, ok), oracle)
  {
    if (w.task == Resharing || w.task == Redelivering) && job.id in w.led.entries {
      var e := w.led.entries[job.id];
      if !blobKept {
        LostKeepsInv(job, w, ok, oracle);
      } else if w.task == Redelivering {
        TaskKeepsInv(job, w, RecoveryDelivering(OrEmpty(e.result), FilesOf(e)), oracle);
      } else {
        var content := OrEmpty(e.deliveredContent);
        CallKeepsInv(job, w, MarkExecuted(job.id, content, ok), if ok then RecoveryDelivering(content, FilesOf(e)) else Idle, oracle);
      }
    }
  }

  lemma OtherKeepsInv(job: Job, w: World, op: Op, oracle: Oracle)
    requires job.id != "" && Inv(job, w, oracle)
    ensures Inv(job, AtOther(job, w, op), oracle)
  {
    var next := AtOther(job, w, op);
    if next != w {
      OtherCall(w.led, op, job.id);
      var mem, was, dsk := Mem(next.led, job.id), Dsk(w.led, job.id), Dsk(next.led, job.id);
      if mem != Mem(w.led, job.id) {
        PrunedSide(job, Mem(w.led, job.id), w, oracle);
        PrunedTask(job, w.task, w.sent, Mem(w.led, job.id), was, oracle);
      }
      SavedTask(job, w.task, w.sent, mem, was, oracle);
    }
  }

  /** Carrying memory to the file keeps what the task needs. */
  lemma SavedTask(job: Job, task: Task, sent: seq<Sent>, mem: Option<Entry>, dsk: Option<Entry>, oracle: Oracle)
    requires TaskOk(job, task, sent, mem, dsk, oracle)
    ensures TaskOk(job, task, sent, mem, mem, oracle)
  {
  }

  /** A prune of the job's own entry: its gate has closed for good. */
  lemma PrunedSide(job: Job, mem: Option<Entry>, w: World, oracle: Oracle)
    requires SideOk(job, mem, w.sent, w.now, w.resultLost, oracle)
    requires mem.Some? && Expired(mem.value, w.now - RETENTION)
    ensures SideOk(job, None, w.sent, w.now, w.resultLost, oracle)
  {
  }

  /** Only a terminal entry is pruned, and no task that needs one is left then. */
  lemma PrunedTask(job: Job, task: Task, sent: seq<Sent>, mem: Option<Entry>, dsk: Option<Entry>, oracle: Oracle)
    requires TaskOk(job, task, sent, mem, dsk, oracle) && mem.Some? && (mem.value.status == Delivered || mem.value.status == Failed)
    ensures TaskOk(job, task, sent, None, dsk, oracle)
  {
  }

  lemma ClockSide(job: Job, e: Option<Entry>, w: World, secs: nat, oracle: Oracle)
    requires SideOk(job, e, w.sent, w.now, w.resultLost, oracle)
    ensures SideOk(job, e, w.sent, w.now + secs, w.resultLost, oracle)
  {
  }

  lemma TickKeepsInv(job: Job, w: World, secs: nat, oracle: Oracle)
    requires Inv(job, w, oracle)
    ensures Inv(job, w.(now := w.now + secs), oracle)
  {
    ClockSide(job, Mem(w.led, job.id), w, secs, oracle);
    ClockSide(job, Dsk(w.led, job.id), w, secs, oracle);
  }

  lemma CrashKeepsInv(job: Job, w: World, oracle: Oracle)
    requires Inv(job, w, oracle)
    ensures Inv(job, Do(w, Crash, Idle), oracle)
  {
    assert Mem(Apply(w.led, Crash), job.id) == Dsk(w.led, job.id) == Dsk(Apply(w.led, Crash), job.id);
  }

  lemma ThrowKeepsInv(job: Job, w: World, oracle: Oracle)
    requires Inv(job, w, oracle)
    ensures Inv(job, w.(task := Thrown(w.task)), oracle)
  {
    TaskKeepsInv(job, w, Thrown(w.task), oracle);
  }

  /** The steps of recovery, and of whatever goes on around the job. */
  predicate IsAround(ev: Event) {
    ev.Tick? || ev.Other? || ev.Crashed? || ev.Throw? || ev.Route? || ev.ForceFail? || ev.Recover? || ev.ReconcileTo? || ev.Reshare?
  }

  lemma AroundKeepsInv(job: Job, w: World, ev: Event, oracle: Oracle)
    requires job.id != "" && Inv(job, w, oracle) && Honest(w, ev, oracle) && IsAround(ev)
    ensures Inv(job, Step(job, w, ev), oracle)
  {
    match ev
    case Tick(secs) => TickKeepsInv(job, w, secs, oracle);
    case Other(op) => OtherKeepsInv(job, w, op, oracle);
    case Crashed => CrashKeepsInv(job, w, oracle);
    case Throw => ThrowKeepsInv(job, w, oracle);
    case Route(keep, ok) => RouteKeepsInv(job, w, keep, ok, oracle);
    case ForceFail(ok) => ForceFailKeepsInv(job, w, ok, oracle);
    case Recover(ok) => RecoveryKeepsInv(job, w, ok, oracle);
    case ReconcileTo(outcome, ok) => ReconcileKeepsInv(job, w, outcome, ok, oracle);
    case Reshare(blobKept, ok) => ReshareKeepsInv(job, w, blobKept, ok, oracle);
  }

  lemma ExecutionKeepsInv(job: Job, w: World, ev: Event, oracle: Oracle)
    requires job.id != "" && job.ceiling > 0 && Inv(job, w, oracle) && Honest(w, ev, oracle) && !IsAround(ev)
    ensures Inv(job, Step(job, w, ev), oracle)
  {
    match ev
    case Intake(rawEvent, ok, okFailed) => IntakeKeepsInv(job, w, rawEvent, ok, okFailed, oracle);
    case Decide(accepted, ok) => DecisionKeepsInv(job, w, accepted, ok, oracle);
    case Precheck(passed, ok) => PrecheckKeepsInv(job, w, passed, ok, oracle);
    case Work(content, files, ok) => WorkKeepsInv(job, w, content, files, ok, oracle);
    case Persist(reported, ok) => PersistKeepsInv(job, w, reported, ok, oracle);
    case Sign(pull, height, ok) => SignKeepsInv(job, w, pull, height, ok, oracle);
    case Send => SendKeepsInv(job, w, oracle);
    case Terminal(outcome, ok) => TerminalKeepsInv(job, w, outcome, ok, oracle);
    case Deliver(ok) => DeliveryKeepsInv(job, w, ok, oracle);
  }

  lemma StepKeepsInv(job: Job, w: World, ev: Event, oracle: Oracle)
    requires job.id != "" && job.ceiling > 0 && Inv(job, w, oracle) && Honest(w, ev, oracle)
    ensures Inv(job, Step(job, w, ev), oracle)
  {
    if IsAround(ev) {
      AroundKeepsInv(job, w, ev, oracle);
    } else {
      ExecutionKeepsInv(job, w, ev, oracle);
    }
  }

  // ---- Whole runs ----

  /** The provider starts on a ledger that does not know the job. */
  ghost function Start(disk: Disk, now: int): World {
    World(Boot(disk), Idle, now, [], [], false)
  }

  lemma {:induction false} RunKeepsInv(job: Job, w: World, events: seq<Event>, oracle: Oracle)
    requires job.id != "" && job.ceiling > 0 && Inv(job, w, oracle) && HonestRun(job, w, events, oracle)
    ensures Inv(job, Run(job, w, events), oracle)
    decreases |events|
  {
    if events != [] {
      StepKeepsInv(job, w, events[0], oracle);
      RunKeepsInv(job, Step(job, w, events[0]), events[1..], oracle);
    }
  }

  lemma {:induction false} NoTrustIsHonest(job: Job, w: World, events: seq<Event>, oracle: Oracle)
    requires !oracle.deadIsTrue && !oracle.landedIsTrue
    ensures HonestRun(job, w, events, oracle)
    decreases |events|
  {
    if events != [] { NoTrustIsHonest(job, Step(job, w, events[0]), events[1..], oracle); }
  }

  lemma ReachableInv(job: Job, disk: Disk, now: int, events: seq<Event>)
    requires job.id != "" && job.ceiling > 0 && job.id !in disk
    ensures Inv(job, Run(job, Start(disk, now), events), Oracle(_ => true, false, false))
  {
    var oracle := Oracle(_ => true, false, false);
    NoTrustIsHonest(job, Start(disk, now), events, oracle);
    RunKeepsInv(job, Start(disk, now), events, oracle);
  }

  /** However it crashes and recovers, the provider sends at most one pull for a job, within the published price. */
  lemma AtMostOnePull(job: Job, disk: Disk, now: int, events: seq<Event>)
    requires job.id != "" && job.ceiling > 0 && job.id !in disk
    ensures var w := Run(job, Start(disk, now), events);
            |w.sent| <= 1 && forall s :: s in w.sent ==> 0 < s.amount <= job.ceiling
  {
    ReachableInv(job, disk, now, events);
  }

  predicate Backed(e: Option<Entry>, sent: Sent) {
    && e.Some? && e.value.status == Paid
    && e.value.pullSignature == Some(sent.pull) && e.value.netAmount == Some(sent.amount)
    && HoldsResult(e.value)
  }

  lemma OnlySendSends(job: Job, w: World, ev: Event)
    requires Step(job, w, ev).sent != w.sent
    ensures w.task.Signed? && Step(job, w, ev).sent == w.sent + [Sent(w.task.pull, w.task.amount)]
  {
  }

  /** A pull is sent only once its signature, its amount and a deliverable result are on disk. */
  lemma SentOnlyWhenPersisted(job: Job, disk: Disk, now: int, events: seq<Event>, ev: Event)
    requires job.id != "" && job.ceiling > 0 && job.id !in disk
    requires Step(job, Run(job, Start(disk, now), events), ev).sent != Run(job, Start(disk, now), events).sent
    ensures var w := Run(job, Start(disk, now), events);
            var sent := Step(job, w, ev).sent;
            |sent| == 1 && Backed(Dsk(w.led, job.id), sent[0])
  {
    ReachableInv(job, disk, now, events);
    OnlySendSends(job, Run(job, Start(disk, now), events), ev);
  }

  /** What a crash leaves: a `paid` entry with a pull signature holds a result recovery can deliver. */
  lemma PersistedPullHoldsResult(job: Job, disk: Disk, now: int, events: seq<Event>)
    requires job.id != "" && job.ceiling > 0 && job.id !in disk
    ensures var onDisk := Readable(Run(job, Start(disk, now), events).led.disk);
            job.id in onDisk && onDisk[job.id].status == Paid && onDisk[job.id].pullSignature.Some? ==> HoldsResult(onDisk[job.id])
  {
    ReachableInv(job, disk, now, events);
  }

  lemma OracleInv(job: Job, disk: Disk, now: int, events: seq<Event>, oracle: Oracle)
    requires job.id != "" && job.ceiling > 0 && job.id !in disk && HonestRun(job, Start(disk, now), events, oracle)
    ensures Inv(job, Run(job, Start(disk, now), events), oracle)
  {
    RunKeepsInv(job, Start(disk, now), events, oracle);
  }

  predicate ChargedAndFailed(w: World, e: Option<Entry>, oracle: Oracle) {
    e.Some? && e.value.status == Failed && e.value.pullSignature.Some? && Charged(w.sent, e.value.pullSignature.value, oracle)
  }

  /** If `dead` can be trusted, a charged job ends failed only because its result was lost. */
  lemma ChargedFailsOnlyWithResultLost(job: Job, disk: Disk, now: int, events: seq<Event>, oracle: Oracle)
    requires job.id != "" && job.ceiling > 0 && job.id !in disk
    requires oracle.deadIsTrue && HonestRun(job, Start(disk, now), events, oracle)
    ensures var w := Run(job, Start(disk, now), events);
            ChargedAndFailed(w, Mem(w.led, job.id), oracle) || ChargedAndFailed(w, Dsk(w.led, job.id), oracle)
            ==> w.resultLost
  {
    OracleInv(job, disk, now, events, oracle);
  }

  predicate Answers(e: Option<Entry>) {
    e.Some? && (e.value.status == Executed || e.value.status == Delivered)
  }

  lemma AnswersAreCharged(job: Job, w: World, oracle: Oracle)
    requires Inv(job, w, oracle) && oracle.landedIsTrue && Answers(Mem(w.led, job.id))
    ensures var e := Mem(w.led, job.id).value; e.pullSignature.Some? && Charged(w.sent, e.pullSignature.value, oracle)
  {
  }

  lemma DeliveryAnswers(job: Job, w: World, oracle: Oracle)
    requires Inv(job, w, oracle) && (w.task.Delivering? || w.task.RecoveryDelivering?)
    ensures Answers(Mem(w.led, job.id))
  {
  }

  /** If `landed` can be trusted, a result goes out only for a pull that landed. */
  lemma DeliversOnlyWhenCharged(job: Job, disk: Disk, now: int, events: seq<Event>, oracle: Oracle)
    requires job.id != "" && job.ceiling > 0 && job.id !in disk
    requires oracle.landedIsTrue && HonestRun(job, Start(disk, now), events, oracle)
    ensures var w := Run(job, Start(disk, now), events);
            && (Answers(Mem(w.led, job.id)) ==>
                  var e := Mem(w.led, job.id).value; e.pullSignature.Some? && Charged(w.sent, e.pullSignature.value, oracle))
            && (w.task.Delivering? || w.task.RecoveryDelivering? ==> exists pull :: Charged(w.sent, pull, oracle))
  {
    OracleInv(job, disk, now, events, oracle);
    var w := Run(job, Start(disk, now), events);
    if w.task.Delivering? || w.task.RecoveryDelivering? {
      DeliveryAnswers(job, w, oracle);
    }
    if Answers(Mem(w.led, job.id)) {
      AnswersAreCharged(job, w, oracle);
    }
  }
}
