/**
 The job ledger as a value: the entries in memory, the settlement index derived from
 them, and the file that survives a crash. `Apply` is one synchronous ledger call; a
 call's `ok` says whether its flush reached the disk.
 */
module Ledger {
  import opened Prelude

  type JobId = string
  type Signature = string

  datatype Status = Paid | Executed | Delivered | Failed

  /** What an entry's `payment_signature` may hold once a file has been edited by hand. */
  datatype Settlement = Unset | Text(text: string) | NotText

  datatype Entry = Entry(
    jobId: JobId,
    status: Status,
    createdAt: int,
    rawEvent: Option<string>,
    netAmount: Option<int>,
    paymentRequest: Option<string>,
    result: Option<string>,
    attachment: Option<string>,
    attachments: Option<seq<string>>,
    delegated: bool,
    deliveredContent: Option<string>,
    pullSignature: Option<Signature>,
    pullHeight: Option<nat>,
    settlement: Settlement,
    retryCount: int)

  type Entries = map<JobId, Entry>
  type Owners = map<Signature, JobId>

  /** A value of the ledger file: an entry, or something that is not an object. */
  datatype Stored = Junk | Record(entry: Entry)
  type Disk = map<JobId, Stored>

  datatype State = State(entries: Entries, owners: Owners, disk: Disk)

  predicate Usable(signature: Signature) {
    signature != ""
  }

  /** The signature an entry can key a de-duplication claim on. */
  function Settled(e: Entry): Option<Signature> {
    if e.settlement.Text? && Usable(e.settlement.text) then Some(e.settlement.text) else None
  }

  // ---- The file ----

  function Saved(entries: Entries): Disk {
    map k | k in entries :: Record(entries[k])
  }

  /** The entries a load keeps: objects that carry a job id. */
  function Readable(disk: Disk): Entries {
    map k | k in disk && disk[k].Record? && disk[k].entry.jobId != "" :: disk[k].entry
  }

  function Flush(st: State, ok: bool): State {
    if ok then st.(disk := Saved(st.entries)) else st
  }

  // ---- The settlement index ----

  predicate Carries(entries: Entries, k: JobId, s: Signature) {
    k in entries && Settled(entries[k]) == Some(s)
  }

  function SettledSignatures(entries: Entries): set<Signature> {
    set k | k in entries && Settled(entries[k]).Some? :: Settled(entries[k]).value
  }

  /** An index the load loop may build: each signature goes to one of the jobs that carry it. */
  ghost predicate IsIndex(owners: Owners, entries: Entries) {
    && owners.Keys == SettledSignatures(entries)
    && forall s :: s in owners ==> exists k :: Carries(entries, k, s) && owners[s] == entries[k].jobId
  }

  ghost function Carrier(entries: Entries, s: Signature): (k: JobId)
    requires s in SettledSignatures(entries)
    ensures Carries(entries, k, s)
  {
    assert exists k :: k in entries && Settled(entries[k]) == Some(s) && Carries(entries, k, s);
    var k :| Carries(entries, k, s); k
  }

  ghost function Index(entries: Entries): Owners {
    map s | s in SettledSignatures(entries) :: entries[Carrier(entries, s)].jobId
  }

  // ---- One ledger call ----

  datatype Op =
    | RecordPaid(job: JobId, createdAt: int, rawEvent: string, ok: bool)
    | UpdatePayment(job: JobId, net: Option<int>, request: Option<string>, ok: bool)
    | MarkDelegated(job: JobId, ok: bool)
    | RecordDeliveredContent(job: JobId, content: string, ok: bool)
    | RecordPullSignature(job: JobId, pull: Signature, height: nat, amount: int, ok: bool)
    | RecordAttachment(job: JobId, single: Option<string>, many: Option<seq<string>>, ok: bool)
    | MarkExecuted(job: JobId, content: string, ok: bool)
    | MarkDelivered(job: JobId, ok: bool)
    | MarkFailed(job: JobId, ok: bool)
    | IncrementRetry(job: JobId, ok: bool)
    | Claim(signature: Signature, job: JobId, ok: bool)
    | Prune(cutoff: int, ok: bool)
    | Crash

  datatype ClaimResult = Claimed | ConsumedByOther | NotPersisted | UnknownJob

  predicate MayBecome(from: Status, to: Status) {
    match from
    case Paid => to == Executed || to == Failed
    case Executed => to == Delivered || to == Failed
    case _ => false
  }

  function ClaimOutcome(st: State, s: Signature, job: JobId, ok: bool): ClaimResult {
    if !Usable(s) || job !in st.entries then UnknownJob
    else if s in st.owners && st.owners[s] != job then ConsumedByOther
    else if ok then Claimed
    else NotPersisted
  }

  /** The mark a successful claim of `s` releases: the job's earlier signature, if the job holds its mark. */
  function Released(st: State, s: Signature, job: JobId): Option<Signature>
    requires job in st.entries
  {
    var earlier := st.entries[job].settlement;
    if earlier.Text? && earlier.text != s && earlier.text in st.owners && st.owners[earlier.text] == job
    then Some(earlier.text) else None
  }

  function Without(owners: Owners, released: Option<Signature>): Owners {
    if released.Some? then owners - {released.value} else owners
  }

  function Settle(st: State, s: Signature, job: JobId): State
    requires job in st.entries
  {
    Flush(State(st.entries[job := st.entries[job].(settlement := Text(s))],
                Without(st.owners[s := job], Released(st, s, job)),
                st.disk), true)
  }

  predicate Expired(e: Entry, cutoff: int) {
    (e.status == Delivered || e.status == Failed) && e.createdAt < cutoff
  }

  function Survivors(entries: Entries, cutoff: int): Entries {
    map k | k in entries && !Expired(entries[k], cutoff) :: entries[k]
  }

  function Texts(entries: Entries): set<Signature> {
    set k | k in entries && entries[k].settlement.Text? :: entries[k].settlement.text
  }

  /** Marks dropped with the pruned entries: usable, and on no surviving entry whoever owns them. */
  function PrunedMarks(entries: Entries, cutoff: int): set<Signature> {
    SettledSignatures(map k | k in entries && Expired(entries[k], cutoff) :: entries[k])
    - Texts(Survivors(entries, cutoff))
  }

  function Pruned(st: State, cutoff: int, ok: bool): State {
    var kept := Survivors(st.entries, cutoff);
    if kept.Keys == st.entries.Keys then st
    else Flush(State(kept, st.owners - PrunedMarks(st.entries, cutoff), st.disk), ok)
  }

  ghost function Boot(disk: Disk): State {
    State(Readable(disk), Index(Readable(disk)), disk)
  }

  /** What the runtime records before it asks for a payment. */
  function NewEntry(job: JobId, createdAt: int, rawEvent: string): Entry {
    Entry(job, Paid, createdAt, Some(rawEvent), None, None, None, None, None, false, None, None, None, Unset, 0)
  }

  function Finished(e: Entry, to: Status): Entry {
    e.(status := to, result := None, deliveredContent := None)
  }

  /** A call that rewrites one entry: all but recordPaid, claim, prune and a crash. */
  predicate OnEntry(op: Op) {
    !op.RecordPaid? && !op.Claim? && !op.Prune? && !op.Crash?
  }

  /** What such a call makes of the entry; None when its status does not allow the move. */
  function Changed(e: Entry, op: Op): Option<Entry>
    requires OnEntry(op)
  {
    match op
    case UpdatePayment(_, net, request, _) =>
      Some(e.(netAmount := if net.Some? then net else e.netAmount,
              paymentRequest := if request.Some? then request else e.paymentRequest))
    case MarkDelegated(_, _) => Some(e.(delegated := true))
    case RecordDeliveredContent(_, content, _) => Some(e.(deliveredContent := Some(content)))
    case RecordPullSignature(_, pull, height, amount, _) =>
      Some(e.(pullSignature := Some(pull), pullHeight := Some(height), netAmount := Some(amount)))
    case RecordAttachment(_, single, many, _) =>
      Some(e.(attachment := if single.Some? then single else e.attachment,
              attachments := if many.Some? then many else e.attachments))
    case MarkExecuted(_, content, _) =>
      if MayBecome(e.status, Executed) then Some(e.(status := Executed, result := Some(content))) else None
    case MarkDelivered(_, _) =>
      if MayBecome(e.status, Delivered) then Some(Finished(e, Delivered)) else None
    case MarkFailed(_, _) =>
      if MayBecome(e.status, Failed) then Some(Finished(e, Failed)) else None
    case IncrementRetry(_, _) => Some(e.(retryCount := e.retryCount + 1))
  }

  function Rewrite(st: State, op: Op): State
    requires OnEntry(op)
  {
    if op.job in st.entries && Changed(st.entries[op.job], op).Some?
    then Flush(st.(entries := st.entries[op.job := Changed(st.entries[op.job], op).value]), op.ok)
    else st
  }

  ghost function Apply(st: State, op: Op): State {
    match op
    case RecordPaid(job, createdAt, rawEvent, ok) =>
      if job in st.entries then st
      else Flush(st.(entries := st.entries[job := NewEntry(job, createdAt, rawEvent)]), ok)
    case Claim(s, job, ok) =>
      if ClaimOutcome(st, s, job, ok) == Claimed then Settle(st, s, job) else st
    case Prune(cutoff, ok) => Pruned(st, cutoff, ok)
    case Crash => Boot(st.disk)
    case _ => Rewrite(st, op)
  }

  /** The state after a run of calls, starting from what `disk` loads. */
  ghost function Run(disk: Disk, ops: seq<Op>): State {
    if ops == [] then Boot(disk)
    else Apply(Run(disk, ops[..|ops| - 1]), ops[|ops| - 1])
  }
}
