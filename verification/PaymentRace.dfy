/**
 The live payment race: the customer's asserted signature against the reference lookup,
 under a deadline and an abort. An event is one callback; callbacks never overlap.
 */
module PaymentRaces {
  import opened Prelude
  import opened Ledger
  import opened JobLedgers
  import LedgerRuns

  /** What the verifier answered. */
  datatype Verdict = Verdict(verified: bool, txSignature: Option<Signature>)

  datatype SignaturePath = Listening | Verifying(asked: Signature) | SignatureDone

  /** One call of the promise's `resolve` or `reject`. */
  datatype Resolution = Resolved(verdict: Verdict) | Rejected

  datatype ClaimMade = ClaimMade(signature: Signature, result: ClaimResult)

  datatype Race = Race(
    settled: bool,
    pending: int,
    last: Verdict,
    path: SignaturePath,
    referenceDone: bool,
    resolutions: seq<Resolution>,
    claims: seq<ClaimMade>)

  datatype Event =
    | Feedback(signature: Option<Signature>)
    | FeedbackFailed
    | SignatureVerdict(verdict: Verdict, claim: ClaimResult)
    | SignatureThrew
    | ReferenceVerdict(verdict: Verdict, claim: ClaimResult)
    | ReferenceThrew
    | Deadline
    | Aborted

  const UNVERIFIED := Verdict(false, None)

  function Start(aborted: bool): Race {
    Race(aborted, 2, UNVERIFIED, Listening, false, if aborted then [Rejected] else [], [])
  }

  function Close(r: Race, resolution: Resolution): Race {
    if r.settled then r else r.(settled := true, resolutions := r.resolutions + [resolution])
  }

  function Lose(r: Race, verdict: Verdict): Race {
    if r.settled then r
    else
      var lost := r.(last := verdict, pending := r.pending - 1);
      if lost.pending == 0 then Close(lost, Resolved(lost.last)) else lost
  }

  /** The signature a claim goes out for: the one asked about, else the one the verifier named. */
  function ClaimKey(verdict: Verdict, asked: Option<Signature>): Option<Signature> {
    var key := if asked.Some? then asked else verdict.txSignature;
    if key.Some? && Usable(key.value) then key else None
  }

  /** `claim` is what the ledger would answer at this moment. */
  function Accept(r: Race, verdict: Verdict, asked: Option<Signature>, claim: ClaimResult): Race {
    var key := ClaimKey(verdict, asked);
    if r.settled then r
    else if key == None then Lose(r, UNVERIFIED)
    else
      var tried := r.(claims := r.claims + [ClaimMade(key.value, claim)]);
      if claim == Claimed then Close(tried, Resolved(verdict)) else Lose(tried, UNVERIFIED)
  }

  function Step(r: Race, ev: Event): Race {
    match ev
    case Feedback(signature) =>
      if r.path != Listening then r
      else if r.settled then r.(path := SignatureDone)
      else if signature.Some? && signature.value != "" then r.(path := Verifying(signature.value))
      else Lose(r.(path := SignatureDone), UNVERIFIED)
    case FeedbackFailed =>
      if r.path != Listening then r else Lose(r.(path := SignatureDone), UNVERIFIED)
    case SignatureVerdict(verdict, claim) =>
      if !r.path.Verifying? then r
      else
        var done := r.(path := SignatureDone);
        if verdict.verified then Accept(done, verdict, Some(r.path.asked), claim) else Lose(done, verdict)
    case SignatureThrew =>
      if !r.path.Verifying? then r else Lose(r.(path := SignatureDone), UNVERIFIED)
    case ReferenceVerdict(verdict, claim) =>
      if r.referenceDone then r
      else
        var done := r.(referenceDone := true);
        if verdict.verified then Accept(done, verdict, None, claim) else Lose(done, verdict)
    case ReferenceThrew =>
      if r.referenceDone then r else Lose(r.(referenceDone := true), UNVERIFIED)
    case Deadline => Close(r, Resolved(r.last))
    case Aborted => Close(r, Rejected)
  }

  function Run(aborted: bool, events: seq<Event>): Race {
    if events == [] then Start(aborted)
    else Step(Run(aborted, events[..|events| - 1]), events[|events| - 1])
  }

  // ---- Whole runs ----

  function Accepted(claims: seq<ClaimMade>): nat {
    if claims == [] then 0
    else Accepted(claims[..|claims| - 1]) + (if claims[|claims| - 1].result == Claimed then 1 else 0)
  }

  predicate IsPaid(r: Race) {
    |r.resolutions| == 1 && r.resolutions[0].Resolved? && r.resolutions[0].verdict.verified
  }

  function Running(r: Race): int {
    (if r.path == SignatureDone then 0 else 1) + (if r.referenceDone then 0 else 1)
  }

  predicate Inv(r: Race) {
    && |r.resolutions| == (if r.settled then 1 else 0)
    && Accepted(r.claims) == (if IsPaid(r) then 1 else 0)
    && !r.last.verified
    && (!r.settled ==> r.pending == Running(r) > 0)
  }

  lemma AcceptKeepsInv(r: Race, verdict: Verdict, asked: Option<Signature>, claim: ClaimResult)
    requires |r.resolutions| == (if r.settled then 1 else 0) && Accepted(r.claims) == (if IsPaid(r) then 1 else 0)
    requires !r.last.verified && (!r.settled ==> r.pending == Running(r) + 1) && verdict.verified
    ensures Inv(Accept(r, verdict, asked, claim))
  {
    if !r.settled && ClaimKey(verdict, asked).Some? {
      var made := ClaimMade(ClaimKey(verdict, asked).value, claim);
      assert (r.claims + [made])[..|r.claims|] == r.claims;
    }
  }

  lemma StepKeepsInv(r: Race, ev: Event)
    requires Inv(r)
    ensures Inv(Step(r, ev))
  {
    match ev
    case SignatureVerdict(verdict, claim) =>
      if r.path.Verifying? && verdict.verified {
        AcceptKeepsInv(r.(path := SignatureDone), verdict, Some(r.path.asked), claim);
      }
    case ReferenceVerdict(verdict, claim) =>
      if !r.referenceDone && verdict.verified {
        AcceptKeepsInv(r.(referenceDone := true), verdict, None, claim);
      }
    case _ =>
  }

  lemma {:induction false} RunKeepsInv(aborted: bool, events: seq<Event>)
    ensures Inv(Run(aborted, events))
  {
    if events != [] {
      RunKeepsInv(aborted, events[..|events| - 1]);
      StepKeepsInv(Run(aborted, events[..|events| - 1]), events[|events| - 1]);
    }
  }

  /**
   Whatever the interleaving: the race settles at most once; at most one claim succeeds, and
   one does exactly when the race resolved verified; and once both paths are done it has settled.
   */
  lemma RaceSettlesOnce(aborted: bool, events: seq<Event>)
    ensures var r := Run(aborted, events);
            && |r.resolutions| <= 1
            && Accepted(r.claims) <= 1
            && (Accepted(r.claims) == 1 <==> IsPaid(r))
            && (r.path == SignatureDone && r.referenceDone ==> |r.resolutions| == 1)
  {
    RunKeepsInv(aborted, events);
  }

  /** Once settled, later events make no claim and resolve nothing. */
  lemma {:induction false} SettledIsFinal(r: Race, events: seq<Event>)
    requires r.settled
    ensures var later := RunFrom(r, events); later.settled && later.claims == r.claims && later.resolutions == r.resolutions
    decreases |events|
  {
    if events != [] { SettledIsFinal(Step(r, events[0]), events[1..]); }
  }

  function RunFrom(r: Race, events: seq<Event>): Race
    decreases |events|
  {
    if events == [] then r else RunFrom(Step(r, events[0]), events[1..])
  }

  // ---- What decides it ----

  /** A verified answer that gets its claim while the race is open. */
  predicate Wins(r: Race, ev: Event) {
    !r.settled &&
    match ev
    case SignatureVerdict(verdict, claim) => r.path.Verifying? && verdict.verified && claim == Claimed
    case ReferenceVerdict(verdict, claim) =>
      !r.referenceDone && verdict.verified && verdict.txSignature.Some? && verdict.txSignature.value != "" && claim == Claimed
    case _ => false
  }

  /** A signature is asked about only after the customer's feedback named it. */
  ghost predicate AskedFor(r: Race, events: seq<Event>) {
    r.path.Verifying? ==> r.path.asked != "" && Feedback(Some(r.path.asked)) in events
  }

  lemma {:induction false} AskedOnRun(aborted: bool, events: seq<Event>)
    ensures AskedFor(Run(aborted, events), events)
  {
    if events != [] {
      AskedOnRun(aborted, events[..|events| - 1]);
      assert events == events[..|events| - 1] + [events[|events| - 1]];
    }
  }

  ghost predicate WonBefore(aborted: bool, events: seq<Event>, n: nat)
    requires n <= |events|
  {
    exists i: nat :: i < n && Wins(Run(aborted, events[..i]), events[i])
  }

  lemma WinningStep(r: Race, ev: Event)
    requires Inv(r) && (r.path.Verifying? ==> r.path.asked != "")
    ensures IsPaid(Step(r, ev)) <==> IsPaid(r) || Wins(r, ev)
    ensures Wins(r, ev) ==> Step(r, ev).resolutions == [Resolved(ev.verdict)]
  {
  }

  /** The job is paid exactly when, with the race still open, a verified answer got its claim. */
  lemma {:induction false} PaidIff(aborted: bool, events: seq<Event>, n: nat)
    requires n <= |events|
    ensures IsPaid(Run(aborted, events[..n])) <==> WonBefore(aborted, events, n)
  {
    if n > 0 {
      PaidIff(aborted, events, n - 1);
      RunKeepsInv(aborted, events[..n - 1]);
      AskedOnRun(aborted, events[..n - 1]);
      assert events[..n][..n - 1] == events[..n - 1];
      WinningStep(Run(aborted, events[..n - 1]), events[n - 1]);
      if WonBefore(aborted, events, n) && !WonBefore(aborted, events, n - 1) {
        var i: nat :| i < n && Wins(Run(aborted, events[..i]), events[i]);
        assert i == n - 1;
      }
    } else {
      assert events[..0] == [];
    }
  }

  predicate Stops(ev: Event) {
    ev == Deadline || ev == Aborted
  }

  predicate BothDone(r: Race) {
    r.path == SignatureDone && r.referenceDone
  }

  lemma SettlingStep(r: Race, ev: Event)
    requires Inv(r)
    ensures Step(r, ev).settled <==> r.settled || Stops(ev) || IsPaid(Step(r, ev)) || BothDone(Step(r, ev))
    ensures BothDone(r) ==> BothDone(Step(r, ev))
    ensures IsPaid(r) ==> IsPaid(Step(r, ev))
  {
    StepKeepsInv(r, ev);
  }

  /** The race is over exactly when it was aborted or timed out, the job is paid, or both paths are done. */
  lemma {:induction false} SettledIff(aborted: bool, events: seq<Event>)
    ensures var r := Run(aborted, events);
            r.settled <==> aborted || (exists ev :: ev in events && Stops(ev)) || IsPaid(r) || BothDone(r)
  {
    if events != [] {
      var init, last := events[..|events| - 1], events[|events| - 1];
      SettledIff(aborted, init);
      RunKeepsInv(aborted, init);
      SettlingStep(Run(aborted, init), last);
      assert events == init + [last];
    }
  }

  /** A claim goes out for the signature the customer named, or for the one the reference lookup found, and only on a verified answer. */
  ghost predicate Grounded(made: ClaimMade, events: seq<Event>) {
    || (exists verdict :: SignatureVerdict(verdict, made.result) in events && verdict.verified && Feedback(Some(made.signature)) in events)
    || (exists verdict :: ReferenceVerdict(verdict, made.result) in events && verdict.verified && verdict.txSignature == Some(made.signature))
  }

  lemma GroundedLonger(made: ClaimMade, events: seq<Event>, ev: Event)
    requires Grounded(made, events)
    ensures Grounded(made, events + [ev])
  {
    if verdict :| SignatureVerdict(verdict, made.result) in events && verdict.verified && Feedback(Some(made.signature)) in events {
      assert SignatureVerdict(verdict, made.result) in events + [ev] && Feedback(Some(made.signature)) in events + [ev];
    } else {
      var verdict :| ReferenceVerdict(verdict, made.result) in events && verdict.verified && verdict.txSignature == Some(made.signature);
      assert ReferenceVerdict(verdict, made.result) in events + [ev];
    }
  }

  lemma ClaimsOfStep(r: Race, ev: Event, events: seq<Event>)
    requires AskedFor(r, events)
    ensures r.claims <= Step(r, ev).claims && |Step(r, ev).claims| <= |r.claims| + 1
    ensures |Step(r, ev).claims| > |r.claims| ==> Grounded(Step(r, ev).claims[|r.claims|], events + [ev])
  {
    assert ev in events + [ev];
    assert r.path.Verifying? ==> Feedback(Some(r.path.asked)) in events + [ev];
  }

  lemma GroundedSoFar(before: seq<ClaimMade>, after: seq<ClaimMade>, init: seq<Event>, ev: Event)
    requires before <= after && |after| <= |before| + 1 && forall made :: made in before ==> Grounded(made, init)
    requires |after| > |before| ==> Grounded(after[|before|], init + [ev])
    ensures forall made :: made in after ==> Grounded(made, init + [ev])
  {
    forall made | made in after ensures Grounded(made, init + [ev]) {
      if made in before {
        GroundedLonger(made, init, ev);
      }
    }
  }

  lemma {:induction false} ClaimsAreGrounded(aborted: bool, events: seq<Event>)
    ensures forall made :: made in Run(aborted, events).claims ==> Grounded(made, events)
  {
    if events != [] {
      var init, last := events[..|events| - 1], events[|events| - 1];
      var r := Run(aborted, init);
      ClaimsAreGrounded(aborted, init);
      AskedOnRun(aborted, init);
      ClaimsOfStep(r, last, init);
      GroundedSoFar(r.claims, Step(r, last).claims, init, last);
      assert events == init + [last];
    }
  }

  /** What the customer names is asked about, and a verified answer that gets its claim under that name pays the job. */
  lemma NamedSignaturePays(r: Race, signature: Signature, verdict: Verdict)
    requires Inv(r) && !r.settled && r.path == Listening && signature != "" && verdict.verified
    ensures var next := Step(Step(r, Feedback(Some(signature))), SignatureVerdict(verdict, Claimed));
            && IsPaid(next) && next.resolutions == [Resolved(verdict)]
            && next.claims == r.claims + [ClaimMade(signature, Claimed)]
  {
    StepKeepsInv(r, Feedback(Some(signature)));
  }

  /** An open race answers what it lost by last: at the deadline, or when the second path loses too. */
  lemma LastLossAnswers(r: Race, verdict: Verdict, claim: ClaimResult)
    requires Inv(r) && !r.settled && !r.referenceDone && !verdict.verified
    ensures var lost := Step(r, ReferenceVerdict(verdict, claim));
            if r.path == SignatureDone then lost.resolutions == [Resolved(verdict)]
            else !lost.settled && Step(lost, Deadline).resolutions == [Resolved(verdict)]
  {
  }

  lemma LastLossOfSignatureAnswers(r: Race, verdict: Verdict, claim: ClaimResult)
    requires Inv(r) && !r.settled && r.path.Verifying? && !verdict.verified
    ensures var lost := Step(r, SignatureVerdict(verdict, claim));
            if r.referenceDone then lost.resolutions == [Resolved(verdict)]
            else !lost.settled && Step(lost, Deadline).resolutions == [Resolved(verdict)]
  {
  }

  /** What a call of the race did to the ledger: nothing, or the claim it made last. */
  ghost predicate LedgerFollows(before: State, after: State, job: JobId, made: seq<ClaimMade>) {
    if made == [] then after == before
    else
      var last := made[|made| - 1];
      last.result == ClaimOutcome(before, last.signature, job, last.result == Claimed)
      && after == Apply(before, Ledger.Claim(last.signature, job, last.result == Claimed))
  }

  /** The transaction the race was won with is the job's, in the index, in its entry and on disk. */
  ghost predicate WonFor(st: State, job: JobId, claims: seq<ClaimMade>) {
    claims != [] &&
    var s := claims[|claims| - 1].signature;
    s in st.owners && st.owners[s] == job && LedgerRuns.Owns(st, s, job)
  }

  lemma ClaimWins(before: State, after: State, job: JobId, claims: seq<ClaimMade>)
    requires claims != [] && claims[|claims| - 1].result == Claimed && LedgerFollows(before, after, job, claims)
    requires LedgerRuns.Inv(before) && job != ""
    ensures WonFor(after, job, claims) && LedgerRuns.Inv(after)
  {
    var s := claims[|claims| - 1].signature;
    LedgerRuns.ClaimOwns(before, s, job);
    LedgerRuns.SettleKeepsInv(before, s, job);
  }

  // ---- The race as the runtime holds it ----

  class PaymentRace {
    const ledger: JobLedger
    const job: JobId
    var settled: bool
    var pending: int
    var lastResult: Verdict
    var path: SignaturePath
    var referenceDone: bool
    ghost var resolutions: seq<Resolution>
    ghost var claims: seq<ClaimMade>

    ghost function View(): Race
      reads this
    {
      Race(settled, pending, lastResult, path, referenceDone, resolutions, claims)
    }

    constructor (ledger: JobLedger, job: JobId, aborted: bool)
      ensures View() == Start(aborted) && this.ledger == ledger && this.job == job
    {
      this.ledger := ledger;
      this.job := job;
      settled := aborted;
      pending := 2;
      lastResult := UNVERIFIED;
      path := Listening;
      referenceDone := false;
      resolutions := if aborted then [Rejected] else [];
      claims := [];
    }

    method Win(verdict: Verdict)
      modifies this
      ensures View() == Close(old(View()), Resolved(verdict))
    {
      if settled {
        return;
      }
      settled := true;
      resolutions := resolutions + [Resolved(verdict)];
    }

    method LosePath(verdict: Verdict)
      modifies this
      ensures View() == Lose(old(View()), verdict)
    {
      if settled {
        return;
      }
      lastResult := verdict;
      pending := pending - 1;
      if pending == 0 {
        settled := true;
        resolutions := resolutions + [Resolved(lastResult)];
      }
    }

    /** Accept a verified payment for this job only after binding its transaction to the job. */
    method AcceptPayment(verdict: Verdict, asked: Option<Signature>) returns (claim: ClaimResult)
      modifies this, ledger, ledger.file
      ensures View() == Accept(old(View()), verdict, asked, claim)
      ensures old(claims) <= claims && LedgerFollows(old(ledger.View()), ledger.View(), job, claims[|old(claims)|..])
      ensures IsPaid(View()) && !old(IsPaid(View())) ==> claims != [] && |claims| > |old(claims)| && claims[|claims| - 1].result == Claimed
    {
      claim := UnknownJob;
      if settled {
        return;
      }
      var txSignature := if asked.Some? then asked else verdict.txSignature;
      if txSignature == None || !Usable(txSignature.value) {
        LosePath(UNVERIFIED);
        return;
      }
      claim := ledger.ClaimPaymentSignature(txSignature.value, job);
      claims := claims + [ClaimMade(txSignature.value, claim)];
      if claim != Claimed {
        LosePath(UNVERIFIED);
        return;
      }
      Win(verdict);
    }

    /** A race that just became paid has won the signature it claimed last. */
    lemma ConcludeWin(before: State, claimed: seq<ClaimMade>, wasPaid: bool)
      requires claimed <= claims && LedgerFollows(before, ledger.View(), job, claims[|claimed|..])
      requires IsPaid(View()) && !wasPaid ==> |claims| > |claimed| && claims[|claims| - 1].result == Claimed
      ensures LedgerRuns.Inv(before) && job != "" && IsPaid(View()) && !wasPaid ==> WonFor(ledger.View(), job, claims)
    {
      if LedgerRuns.Inv(before) && job != "" && IsPaid(View()) && !wasPaid {
        ClaimWins(before, ledger.View(), job, claims[|claimed|..]);
      }
    }

    method OnFeedback(signature: Option<Signature>)
      modifies this
      ensures View() == Step(old(View()), Feedback(signature))
    {
      if path != Listening {
        return;
      }
      if settled {
        path := SignatureDone;
        return;
      }
      if signature.Some? && signature.value != "" {
        path := Verifying(signature.value);
      } else {
        path := SignatureDone;
        LosePath(UNVERIFIED);
      }
    }

    method OnSignatureVerdict(verdict: Verdict) returns (claim: ClaimResult)
      modifies this, ledger, ledger.file
      ensures View() == Step(old(View()), SignatureVerdict(verdict, claim))
      ensures old(claims) <= claims && LedgerFollows(old(ledger.View()), ledger.View(), job, claims[|old(claims)|..])
      ensures LedgerRuns.Inv(old(ledger.View())) && job != "" && IsPaid(View()) && !old(IsPaid(View())) ==> WonFor(ledger.View(), job, claims)
    {
      claim := UnknownJob;
      if !path.Verifying? {
        return;
      }
      var asked := path.asked;
      path := SignatureDone;
      if verdict.verified {
        claim := AcceptPayment(verdict, Some(asked));
        ConcludeWin(old(ledger.View()), old(claims), old(IsPaid(View())));
      } else {
        LosePath(verdict);
      }
    }

    method OnReferenceVerdict(verdict: Verdict) returns (claim: ClaimResult)
      modifies this, ledger, ledger.file
      ensures View() == Step(old(View()), ReferenceVerdict(verdict, claim))
      ensures old(claims) <= claims && LedgerFollows(old(ledger.View()), ledger.View(), job, claims[|old(claims)|..])
      ensures LedgerRuns.Inv(old(ledger.View())) && job != "" && IsPaid(View()) && !old(IsPaid(View())) ==> WonFor(ledger.View(), job, claims)
    {
      claim := UnknownJob;
      if referenceDone {
        return;
      }
      referenceDone := true;
      if verdict.verified {
        claim := AcceptPayment(verdict, None);
        ConcludeWin(old(ledger.View()), old(claims), old(IsPaid(View())));
      } else {
        LosePath(verdict);
      }
    }

    method OnFeedbackFailed()
      modifies this
      ensures View() == Step(old(View()), FeedbackFailed)
    {
      if path == Listening {
        path := SignatureDone;
        LosePath(UNVERIFIED);
      }
    }

    method OnSignatureThrew()
      modifies this
      ensures View() == Step(old(View()), SignatureThrew)
    {
      if path.Verifying? {
        path := SignatureDone;
        LosePath(UNVERIFIED);
      }
    }

    method OnReferenceThrew()
      modifies this
      ensures View() == Step(old(View()), ReferenceThrew)
    {
      if !referenceDone {
        referenceDone := true;
        LosePath(UNVERIFIED);
      }
    }

    method OnDeadline()
      modifies this
      ensures View() == Step(old(View()), Deadline)
    {
      if settled {
        return;
      }
      settled := true;
      resolutions := resolutions + [Resolved(lastResult)];
    }

    method OnAbort()
      modifies this
      ensures View() == Step(old(View()), Aborted)
    {
      if settled {
        return;
      }
      settled := true;
      resolutions := resolutions + [Rejected];
    }
  }
}
