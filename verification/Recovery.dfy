/**
 Payment recovery of one `paid` job: the re-verification of a look, the backoff between
 looks, and the verdict that needs two empty looks in a row. Times are in milliseconds.
 */
module Recovery {
  import opened Prelude
  import opened Ledger
  import opened JobLedgers
  import opened ReferenceScan

  const DEFAULT_WINDOW_SECS := 600.0

  datatype Number = Finite(value: real) | NotFinite

  /** The payment request as persisted: unreadable, or the fields the verdict reads. */
  datatype Request = Unreadable | Request(createdAt: Number, expirySecs: Number)

  function OrElse(n: Number, fallback: real): real {
    if n.Finite? && n.value > 0.0 then n.value else fallback
  }

  /** The expiry of the request this provider issued, in milliseconds. */
  function NotBefore(request: Request, entryCreatedAt: real): real
    requires request.Request?
  {
    (OrElse(request.createdAt, entryCreatedAt) + OrElse(request.expirySecs, DEFAULT_WINDOW_SECS)) * 1000.0
  }

  /**
   The window counts from the request's own issue for its own length; an unreadable issue date falls
   back on the entry's, an unreadable length on ten minutes.
   */
  lemma WindowIsTheRequestsOwn(request: Request, entryCreatedAt: real, issued: real, length: real)
    requires request.Request?
    requires (request.createdAt == Finite(issued) && issued > 0.0)
             || ((request.createdAt.NotFinite? || request.createdAt.value <= 0.0) && issued == entryCreatedAt)
    requires (request.expirySecs == Finite(length) && length > 0.0)
             || ((request.expirySecs.NotFinite? || request.expirySecs.value <= 0.0) && length == 600.0)
    ensures NotBefore(request, entryCreatedAt) == 1000.0 * issued + 1000.0 * length
  {
  }

  // ---- The endpoint's right to a terminal verdict ----

  datatype Soundness = Unchecked | Sound | WrongCluster

  /** How a probe ended: which genesis the endpoint reported, if any, and whether it served address history. */
  datatype ProbeResult = NoGenesis | OtherGenesis | RightGenesis(history: bool)

  /** One probe at a time; entries asking meanwhile share it, and its slot empties when it ends. */
  class EndpointProbe {
    var soundness: Soundness
    var probing: bool
    ghost var results: seq<ProbeResult>

    ghost predicate Valid()
      reads this
    {
      && (soundness == Sound <==> RightGenesis(true) in results)
      && (soundness == WrongCluster ==> OtherGenesis in results)
      && (soundness != Unchecked ==> !probing)
    }

    constructor ()
      ensures Valid() && results == [] && soundness == Unchecked && !probing
    {
      soundness, probing, results := Unchecked, false, [];
    }

    /** Answer from the cache, or wait for the probe in flight, starting one if there is none. */
    method Ask() returns (answer: Option<bool>)
      requires Valid()
      modifies this`probing
      ensures Valid()
      ensures answer == if soundness == Sound then Some(true) else if soundness == WrongCluster then Some(false) else None
      ensures answer == Some(true) ==> RightGenesis(true) in results
      ensures answer == None ==> probing
    {
      if soundness == Sound {
        return Some(true);
      }
      if soundness == WrongCluster {
        return Some(false);
      }
      probing := true;
      return None;
    }

    /** The probe in flight ends: only a stable answer is kept, so any other is probed again. */
    method Finish(result: ProbeResult) returns (answer: bool)
      requires Valid() && probing
      modifies this
      ensures Valid() && !probing && results == old(results) + [result]
      ensures answer <==> result == RightGenesis(true)
      ensures soundness == match result
                           case NoGenesis => Unchecked
                           case OtherGenesis => WrongCluster
                           case RightGenesis(history) => if history then Sound else Unchecked
    {
      probing := false;
      results := results + [result];
      match result
      case NoGenesis => answer := false;
      case OtherGenesis => soundness := WrongCluster; answer := false;
      case RightGenesis(history) =>
        if history {
          soundness := Sound;
        }
        answer := history;
    }
  }

  // ---- One look ----

  datatype ReVerification = Confirmed | NoPayment | Deferred | AwaitingWindow | CorruptState

  /** What one look meets: the stored request, our configuration, the chain, the clock, the endpoint. */
  datatype Circumstances = Circumstances(
    request: Request,
    configFetched: bool,
    /** Whether the reference is an address the payment is computed from; None when the check threw. */
    degenerate: Option<bool>,
    /** What the verifier says of the settlement the job owns; None when time ran out first. */
    ownAnswer: Option<Answer>,
    attempt: nat -> Option<seq<Tx>>,
    lateAfter: nat -> bool,
    answer: nat -> Answer,
    late: nat -> bool,
    now: real,
    /** How a probe of the endpoint ends, if this look waits for one. */
    probed: ProbeResult)

  predicate OwnsSettlement(settlement: Settlement) {
    settlement.Text? && Usable(settlement.text)
  }

  ghost predicate NothingListed(c: Circumstances) {
    NothingOnReference(c.attempt, c.lateAfter, c.late)
  }

  predicate WindowOver(c: Circumstances, e: Entry) {
    c.request.Request? && c.now >= NotBefore(c.request, e.createdAt as real)
  }

  /** The endpoint proved itself, in an earlier look or in this one. */
  predicate MayJudge(soundness: Soundness, probed: ProbeResult) {
    soundness == Sound || (soundness == Unchecked && probed == RightGenesis(true))
  }

  /** Everything the provider must be sure of before an empty reference counts against the customer. */
  ghost predicate NobodyPaid(c: Circumstances, e: Entry, soundness: Soundness) {
    && c.configFetched && c.degenerate == Some(false)
    && !OwnsSettlement(e.settlement) && NothingListed(c) && WindowOver(c, e) && MayJudge(soundness, c.probed)
  }

  /** What a verdict against the customer rests on: the entry, the chain, the request's expiry and a probe that proved the endpoint. */
  ghost predicate Evidence(c: Circumstances, e: Entry, results: seq<ProbeResult>) {
    !OwnsSettlement(e.settlement) && NothingListed(c) && WindowOver(c, e) && RightGenesis(true) in results
  }

  /** The settlement of a confirmed job is its own in the index, in its entry and on disk. */
  ghost predicate SettledFor(ledger: JobLedger, job: JobId, netAmount: int)
    reads ledger, ledger.file
  {
    && job in ledger.entries && OwnsSettlement(ledger.entries[job].settlement)
    && ledger.entries[job].netAmount == Some(netAmount)
    && ledger.entries[job].settlement.text in ledger.owners
    && ledger.owners[ledger.entries[job].settlement.text] == job
    && ledger.file.content == Saved(ledger.entries)
  }

  method MayIssueTerminalVerdict(probe: EndpointProbe, probed: ProbeResult) returns (may: bool)
    requires probe.Valid()
    modifies probe
    ensures probe.Valid() && old(probe.results) <= probe.results
    ensures may == old(MayJudge(probe.soundness, probed))
    ensures may ==> RightGenesis(true) in probe.results
  {
    var cached := probe.Ask();
    if cached.Some? {
      return cached.value;
    }
    may := probe.Finish(probed);
  }

  /** The look gets as far as asking the chain. */
  predicate Answerable(c: Circumstances) {
    c.request.Request? && c.configFetched && c.degenerate == Some(false)
  }

  /** The verifier accepted this transaction for the job: the settlement it owns, or else the one that decides the scan. */
  ghost predicate Accepted(c: Circumstances, e: Entry, owners: Owners, job: JobId, s: Signature) {
    Answerable(c) &&
    if OwnsSettlement(e.settlement) && c.ownAnswer == Some(Verifies) then e.settlement == Text(s)
    else
      && !(OwnsSettlement(e.settlement) && c.ownAnswer == Some(Throws))
      && Decided(c.attempt, c.lateAfter, owners, c.answer, c.late, job, s, Verifies)
  }

  /** What became of binding a settlement and recording the amount; only a write that failed stops it half way. */
  ghost predicate BoundOrFailed(before: State, after: State, writeFailed: bool, job: JobId, s: Signature, netAmount: int, r: ReVerification) {
    var claimed := Apply(before, Claim(s, job, true));
    if ClaimOutcome(before, s, job, true) != Claimed then r == Deferred && after == before
    else if r == Confirmed then after == Apply(claimed, UpdatePayment(job, Some(netAmount), None, true))
    else
      && r == Deferred && writeFailed
      && (after == before || after == Apply(claimed, UpdatePayment(job, Some(netAmount), None, false)))
  }

  /** The last of the writes tried since then failed. */
  predicate LastFailed(before: seq<bool>, writes: seq<bool>) {
    |writes| > |before| && !writes[|writes| - 1]
  }

  /** What a look concludes, each way, and what it leaves in the ledger. */
  ghost predicate Concludes(before: State, after: State, writeFailed: bool, soundness: Soundness, c: Circumstances, job: JobId,
                            netAmount: int, r: ReVerification)
    requires job in before.entries
  {
    var e := before.entries[job];
    && (r == CorruptState <==>
          c.request.Unreadable? || (c.configFetched && c.degenerate == Some(true) && !OwnsSettlement(e.settlement)))
    && (r == NoPayment <==> NobodyPaid(c, e, soundness))
    && (r == AwaitingWindow <==>
          Answerable(c) && NothingListed(c) && !OwnsSettlement(e.settlement) && !WindowOver(c, e))
    && (r == Confirmed ==> exists s :: Accepted(c, e, before.owners, job, s))
    && (forall s :: Accepted(c, e, before.owners, job, s) ==> BoundOrFailed(before, after, writeFailed, job, s, netAmount, r))
    && ((forall s :: !Accepted(c, e, before.owners, job, s)) ==> after == before)
  }

  method ReVerifyPayment(ledger: JobLedger, probe: EndpointProbe, job: JobId, netAmount: int, c: Circumstances)
    returns (r: ReVerification)
    requires job in ledger.entries && probe.Valid()
    modifies ledger, ledger.file, probe
    ensures probe.Valid() && old(probe.results) <= probe.results
    ensures Concludes(old(ledger.View()), ledger.View(), LastFailed(old(ledger.file.writes), ledger.file.writes), old(probe.soundness),
                      c, job, netAmount, r)
    ensures r == NoPayment ==> Evidence(c, old(ledger.entries[job]), probe.results)
    ensures r == Confirmed ==> SettledFor(ledger, job, netAmount)
    ensures old(ledger.file.writes) <= ledger.file.writes
  {
    var entry := ledger.entries[job];
    if c.request.Unreadable? {
      return CorruptState;
    }
    if !c.configFetched || c.degenerate == None {
      return Deferred;
    }
    if c.degenerate.value {
      return if OwnsSettlement(entry.settlement) then Deferred else CorruptState;
    }
    var txSignature: Option<Signature> := None;
    if OwnsSettlement(entry.settlement) && c.ownAnswer.Some? {
      if c.ownAnswer.value == Throws {
        return Deferred;
      }
      if c.ownAnswer.value == Verifies {
        txSignature := Some(entry.settlement.text);
      }
    }
    if txSignature == None {
      var scan := ScanReference(c.attempt, c.lateAfter, ledger.owners, c.answer, c.late, job);
      if scan == NoTransaction {
        if OwnsSettlement(entry.settlement) {
          return Deferred;
        }
        if c.now < NotBefore(c.request, entry.createdAt as real) {
          return AwaitingWindow;
        }
        var may := MayIssueTerminalVerdict(probe, c.probed);
        return if may then NoPayment else Deferred;
      }
      if !scan.Verified? {
        return Deferred;
      }
      txSignature := Some(scan.signature);
    }
    ghost var owners := ledger.owners;
    assert Accepted(c, entry, owners, job, txSignature.value);
    assert forall s :: Accepted(c, entry, owners, job, s) ==> s == txSignature.value;
    r := BindFound(ledger, job, txSignature.value, netAmount);
  }

  /** Binds the settlement that was found to the job, then records the amount. */
  method BindFound(ledger: JobLedger, job: JobId, signature: Signature, netAmount: int) returns (r: ReVerification)
    modifies ledger, ledger.file
    ensures r == Confirmed || r == Deferred
    ensures BoundOrFailed(old(ledger.View()), ledger.View(), LastFailed(old(ledger.file.writes), ledger.file.writes),
                          job, signature, netAmount, r)
    ensures old(ledger.file.writes) <= ledger.file.writes
    ensures r == Confirmed ==> SettledFor(ledger, job, netAmount) && ledger.entries[job].settlement == Text(signature)
  {
    var claim := ledger.ClaimPaymentSignature(signature, job);
    if claim != Claimed {
      return Deferred;
    }
    var written := ledger.UpdateJobPayment(job, Some(netAmount), None);
    return if written then Confirmed else Deferred;
  }
}
