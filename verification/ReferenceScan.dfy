/**
 The provider's own scan of a payment reference. The chain, the verifier and the clock are
 oracles: `late(k)` is the k-th look at the clock, `answer(i)` what the verifier says of the
 i-th candidate, `owner(i)` who owns its signature when the scan gets to it.
 */
module ReferenceScan {
  import opened Prelude
  import opened Ledger

  const WINDOW: nat := 25
  const LIST_ATTEMPTS: nat := 3

  /** A listed transaction; a failed one moved no money. */
  datatype Tx = Tx(signature: Signature, failed: bool)

  datatype Listing = Listing(signatures: seq<Signature>, windowFull: bool)

  datatype Answer = Verifies | Rejects | Throws

  datatype Scan = Verified(signature: Signature) | NoTransaction | Inconclusive | ScanThrew

  function Succeeded(page: seq<Tx>): seq<Signature> {
    if page == [] then []
    else Succeeded(page[..|page| - 1]) + (if page[|page| - 1].failed then [] else [page[|page| - 1].signature])
  }

  lemma {:induction false} SucceededEmpty(page: seq<Tx>)
    ensures Succeeded(page) == [] <==> forall i :: 0 <= i < |page| ==> page[i].failed
    ensures |Succeeded(page)| <= |page|
  {
    if page != [] {
      SucceededEmpty(page[..|page| - 1]);
      assert forall i :: 0 <= i < |page| - 1 ==> page[..|page| - 1][i] == page[i];
    }
  }

  /** How many transactions before the p-th succeeded: its place among the candidates. */
  function Rank(page: seq<Tx>, p: nat): nat
    requires p <= |page|
  {
    if p == 0 then 0 else Rank(page, p - 1) + (if page[p - 1].failed then 0 else 1)
  }

  lemma {:induction false} SucceededCount(page: seq<Tx>, n: nat)
    requires n <= |page|
    ensures |Succeeded(page[..n])| == Rank(page, n)
  {
    if n > 0 {
      SucceededCount(page, n - 1);
      assert page[..n][..n - 1] == page[..n - 1];
    } else {
      assert page[..0] == [];
    }
  }

  /** The candidates are the succeeded transactions of the page, each once and in its order. */
  lemma {:induction false} SucceededInOrder(page: seq<Tx>, n: nat, p: nat)
    requires p < n <= |page| && !page[p].failed
    ensures Rank(page, p) < |Succeeded(page[..n])| && Succeeded(page[..n])[Rank(page, p)] == page[p].signature
    decreases n
  {
    assert page[..n][..n - 1] == page[..n - 1];
    SucceededCount(page, n - 1);
    if p < n - 1 {
      SucceededInOrder(page, n - 1, p);
    }
  }

  /** Every place among the candidates is that of a succeeded transaction. */
  lemma {:induction false} RankReached(page: seq<Tx>, n: nat, i: nat) returns (p: nat)
    requires n <= |page| && i < Rank(page, n)
    ensures p < n && !page[p].failed && Rank(page, p) == i
  {
    if i < Rank(page, n - 1) {
      p := RankReached(page, n - 1, i);
    } else {
      p := n - 1;
    }
  }

  lemma {:induction false} RankGrows(page: seq<Tx>, p: nat, q: nat)
    requires p < q <= |page|
    ensures Rank(page, p) + (if page[p].failed then 0 else 1) <= Rank(page, q)
    decreases q
  {
    if p < q - 1 {
      RankGrows(page, p, q - 1);
    }
  }

  /** The k-th attempt is the first to answer, and time was left to make it. */
  ghost predicate AnsweredAt(attempt: nat -> Option<seq<Tx>>, lateAfter: nat -> bool, k: nat) {
    k < LIST_ATTEMPTS && attempt(k).Some? && forall i: nat :: i < k ==> attempt(i) == None && !lateAfter(i)
  }

  /** The first attempt that answers decides; failures are retried unless time has run out. */
  method ListReferenceCandidates(attempt: nat -> Option<seq<Tx>>, lateAfter: nat -> bool) returns (listed: Option<Listing>)
    ensures listed.Some? <==>
              exists k: nat :: AnsweredAt(attempt, lateAfter, k)
    ensures forall k: nat :: AnsweredAt(attempt, lateAfter, k) ==>
              listed == Some(Listing(Succeeded(attempt(k).value), |attempt(k).value| >= WINDOW))
  {
    var tried: nat := 0;
    while tried < LIST_ATTEMPTS
      invariant tried <= LIST_ATTEMPTS
      invariant forall i: nat :: i < tried ==> attempt(i) == None && !lateAfter(i)
    {
      var page := attempt(tried);
      if page.Some? {
        var signatures: seq<Signature> := [];
        var i := 0;
        while i < |page.value|
          invariant 0 <= i <= |page.value|
          invariant signatures == Succeeded(page.value[..i])
        {
          assert page.value[..i + 1][..i] == page.value[..i];
          if !page.value[i].failed {
            signatures := signatures + [page.value[i].signature];
          }
          i := i + 1;
        }
        assert page.value[..i] == page.value;
        assert AnsweredAt(attempt, lateAfter, tried);
        return Some(Listing(signatures, |page.value| >= WINDOW));
      }
      if lateAfter(tried) {
        return None;
      }
      tried := tried + 1;
    }
    return None;
  }

  /** The i-th candidate could be this job's payment: nameable, and not settled by another job. */
  predicate Open(signatures: seq<Signature>, owner: nat -> Option<JobId>, job: JobId, i: nat)
    requires i < |signatures|
  {
    Usable(signatures[i]) && (owner(i) == None || owner(i) == Some(job))
  }

  /** The scan stops at the i-th candidate: time runs out, or it verifies, or its verification throws. */
  predicate StopsAt(signatures: seq<Signature>, owner: nat -> Option<JobId>, answer: nat -> Answer, late: nat -> bool, job: JobId, i: nat)
    requires i < |signatures|
  {
    late(i + 1) || (Open(signatures, owner, job, i) && answer(i) != Rejects)
  }

  predicate FirstStop(signatures: seq<Signature>, owner: nat -> Option<JobId>, answer: nat -> Answer, late: nat -> bool, job: JobId, i: nat)
    requires i < |signatures|
  {
    && StopsAt(signatures, owner, answer, late, job, i)
    && forall k: nat :: k < i ==> !StopsAt(signatures, owner, answer, late, job, k)
  }

  /**
   Walk the whole page past the transactions other jobs settled. `none` means there was
   nothing to look at; the first candidate that is open and verifies is the answer.
   */
  method VerifyByReferenceScan(
      listed: Option<Listing>, owner: nat -> Option<JobId>, answer: nat -> Answer, late: nat -> bool, job: JobId)
    returns (scan: Scan)
    ensures scan == NoTransaction <==>
              listed.Some? && listed.value.signatures == [] && !listed.value.windowFull && !late(0) && !late(1)
    ensures forall i: nat ::
              (!late(0) && listed.Some? && i < |listed.value.signatures|
               && FirstStop(listed.value.signatures, owner, answer, late, job, i)) ==>
              scan == if late(i + 1) then Inconclusive
                      else if answer(i) == Verifies then Verified(listed.value.signatures[i])
                      else ScanThrew
    ensures scan.Verified? || scan == ScanThrew ==>
              listed.Some? && !late(0)
              && exists i: nat :: i < |listed.value.signatures| && FirstStop(listed.value.signatures, owner, answer, late, job, i)
  {
    if late(0) {
      return Inconclusive;
    }
    if listed == None {
      return Inconclusive;
    }
    var signatures := listed.value.signatures;
    var skippedConsumed, skippedUnusable, unverifiable := false, false, false;
    var i := 0;
    while i < |signatures|
      invariant 0 <= i <= |signatures|
      invariant forall k: nat :: k < i ==> !StopsAt(signatures, owner, answer, late, job, k)
      invariant i > 0 ==> skippedConsumed || skippedUnusable || unverifiable
      invariant i == 0 ==> !skippedConsumed && !skippedUnusable && !unverifiable
    {
      if late(i + 1) {
        assert FirstStop(signatures, owner, answer, late, job, i);
        return Inconclusive;
      }
      var candidate := signatures[i];
      if !Usable(candidate) {
        skippedUnusable := true;
      } else if owner(i).Some? && owner(i).value != job {
        skippedConsumed := true;
      } else {
        var verdict := answer(i);
        if verdict == Throws {
          assert FirstStop(signatures, owner, answer, late, job, i);
          return ScanThrew;
        }
        if verdict == Verifies {
          assert FirstStop(signatures, owner, answer, late, job, i);
          return Verified(candidate);
        }
        unverifiable := true;
      }
      i := i + 1;
    }
    if late(|signatures| + 1) {
      return Inconclusive;
    }
    if listed.value.windowFull || skippedConsumed || skippedUnusable || unverifiable {
      return Inconclusive;
    }
    return NoTransaction;
  }

  /**
   A payment masked by other transactions is found: if the page holds a candidate that is
   open and verifies, no earlier one throws and time does not run out, some such candidate
   is the first stop, and it is one that verifies.
   */
  lemma MaskedPaymentIsFound(
      signatures: seq<Signature>, owner: nat -> Option<JobId>, answer: nat -> Answer, late: nat -> bool, job: JobId, hit: nat)
      returns (first: nat)
    requires hit < |signatures| && Open(signatures, owner, job, hit) && answer(hit) == Verifies
    requires forall k: nat :: k <= hit ==> !late(k + 1) && (Open(signatures, owner, job, k) ==> answer(k) != Throws)
    ensures first <= hit && FirstStop(signatures, owner, answer, late, job, first) && answer(first) == Verifies
    ensures forall k: nat :: k < first ==> !(Open(signatures, owner, job, k) && answer(k) == Verifies)
  {
    first := 0;
    while !StopsAt(signatures, owner, answer, late, job, first)
      invariant first <= hit
      invariant forall k: nat :: k < first ==> !StopsAt(signatures, owner, answer, late, job, k)
      decreases hit - first
    {
      first := first + 1;
    }
    forall k: nat | k < first ensures !(Open(signatures, owner, job, k) && answer(k) == Verifies) {
      assert !StopsAt(signatures, owner, answer, late, job, k);
    }
  }

  // ---- The whole scan ----

  /** The page that was listed is the whole history of the reference, every transaction on it failed, and time was left. */
  ghost predicate NothingOnReference(attempt: nat -> Option<seq<Tx>>, lateAfter: nat -> bool, late: nat -> bool) {
    && !late(0) && !late(1)
    && exists k: nat :: AnsweredAt(attempt, lateAfter, k) && |attempt(k).value| < WINDOW
         && forall i :: 0 <= i < |attempt(k).value| ==> attempt(k).value[i].failed
  }

  function OwnerIn(owners: Owners, signatures: seq<Signature>): nat -> Option<JobId> {
    (i: nat) => if i < |signatures| && signatures[i] in owners then Some(owners[signatures[i]]) else None
  }

  /** The p-th transaction of the page could be this job's payment: it succeeded, can be named and is nobody else's. */
  predicate Candidate(page: seq<Tx>, p: nat, owners: Owners, job: JobId)
    requires p < |page|
  {
    !page[p].failed && page[p].signature != "" && (page[p].signature in owners ==> owners[page[p].signature] == job)
  }

  /**
   The p-th transaction decides: the verifier gives this answer for it, it was asked in time, and it
   had refused every candidate in front of it.
   */
  ghost predicate Decides(
    page: seq<Tx>, p: nat, owners: Owners, answer: nat -> Answer, late: nat -> bool, job: JobId, verdict: Answer)
  {
    && p < |page| && Candidate(page, p, owners, job) && answer(Rank(page, p)) == verdict
    && (forall i: nat :: i <= Rank(page, p) + 1 ==> !late(i))
    && forall q: nat :: q < p && Candidate(page, q, owners, job) ==> answer(Rank(page, q)) == Rejects
  }

  /** On the page that was listed some transaction decides this way. */
  ghost predicate Decided(
    attempt: nat -> Option<seq<Tx>>, lateAfter: nat -> bool, owners: Owners, answer: nat -> Answer, late: nat -> bool, job: JobId,
    signature: Signature, verdict: Answer)
  {
    exists k: nat, p: nat ::
      && AnsweredAt(attempt, lateAfter, k) && Decides(attempt(k).value, p, owners, answer, late, job, verdict)
      && attempt(k).value[p].signature == signature
  }

  lemma OpenIffCandidate(page: seq<Tx>, p: nat, owners: Owners, job: JobId)
    requires p < |page| && !page[p].failed
    ensures Rank(page, p) < |Succeeded(page)| && Succeeded(page)[Rank(page, p)] == page[p].signature
    ensures Open(Succeeded(page), OwnerIn(owners, Succeeded(page)), job, Rank(page, p)) <==> Candidate(page, p, owners, job)
  {
    SucceededInOrder(page, |page|, p);
    assert page[..|page|] == page;
  }

  lemma DeciderIsFirstStop(
      page: seq<Tx>, p: nat, owners: Owners, answer: nat -> Answer, late: nat -> bool, job: JobId, verdict: Answer)
    requires Decides(page, p, owners, answer, late, job, verdict) && verdict != Rejects
    ensures var signatures := Succeeded(page);
            Rank(page, p) < |signatures| && signatures[Rank(page, p)] == page[p].signature
            && FirstStop(signatures, OwnerIn(owners, signatures), answer, late, job, Rank(page, p))
  {
    var signatures := Succeeded(page);
    OpenIffCandidate(page, p, owners, job);
    forall i: nat | i < Rank(page, p) ensures !StopsAt(signatures, OwnerIn(owners, signatures), answer, late, job, i) {
      var q := RankReached(page, p, i);
      OpenIffCandidate(page, q, owners, job);
    }
  }

  /** Before the first stop no candidate was late, and none was anything but refused. */
  lemma BeforeFirstStop(page: seq<Tx>, p: nat, owners: Owners, answer: nat -> Answer, late: nat -> bool, job: JobId, q: nat)
    requires p <= |page| && q < p && Candidate(page, q, owners, job)
    requires var signatures := Succeeded(page);
             Rank(page, p) <= |signatures|
             && forall k: nat :: k < Rank(page, p) ==> !StopsAt(signatures, OwnerIn(owners, signatures), answer, late, job, k)
    ensures answer(Rank(page, q)) == Rejects
  {
    RankGrows(page, q, p);
    OpenIffCandidate(page, q, owners, job);
    var signatures := Succeeded(page);
    assert !StopsAt(signatures, OwnerIn(owners, signatures), answer, late, job, Rank(page, q));
  }

  lemma InTime(signatures: seq<Signature>, owner: nat -> Option<JobId>, answer: nat -> Answer, late: nat -> bool, job: JobId, i: nat)
    requires i < |signatures| && !late(0) && !late(i + 1) && FirstStop(signatures, owner, answer, late, job, i)
    ensures forall k: nat :: k <= i + 1 ==> !late(k)
  {
    forall k: nat | 0 < k <= i ensures !late(k) {
      assert !StopsAt(signatures, owner, answer, late, job, k - 1);
    }
  }

  lemma FirstStopDecides(page: seq<Tx>, i: nat, owners: Owners, answer: nat -> Answer, late: nat -> bool, job: JobId) returns (p: nat)
    requires !late(0) && i < |Succeeded(page)| && !late(i + 1)
    requires FirstStop(Succeeded(page), OwnerIn(owners, Succeeded(page)), answer, late, job, i)
    ensures Decides(page, p, owners, answer, late, job, answer(i)) && page[p].signature == Succeeded(page)[i]
  {
    var signatures := Succeeded(page);
    InTime(signatures, OwnerIn(owners, signatures), answer, late, job, i);
    SucceededCount(page, |page|);
    assert page[..|page|] == page;
    p := RankReached(page, |page|, i);
    OpenIffCandidate(page, p, owners, job);
    forall q: nat | q < p && Candidate(page, q, owners, job) ensures answer(Rank(page, q)) == Rejects {
      BeforeFirstStop(page, p, owners, answer, late, job, q);
    }
  }

  /** Lists the reference and walks what was listed, against one settlement index. */
  method ScanReference(
      attempt: nat -> Option<seq<Tx>>, lateAfter: nat -> bool, owners: Owners, answer: nat -> Answer, late: nat -> bool, job: JobId)
    returns (scan: Scan)
    ensures scan == NoTransaction <==> NothingOnReference(attempt, lateAfter, late)
    ensures forall s :: scan == Verified(s) <==> Decided(attempt, lateAfter, owners, answer, late, job, s, Verifies)
    ensures scan == ScanThrew <==> exists s :: Decided(attempt, lateAfter, owners, answer, late, job, s, Throws)
    ensures scan.Verified? ==> scan.signature != "" && (scan.signature in owners ==> owners[scan.signature] == job)
  {
    if late(0) {
      return Inconclusive;
    }
    var listed := ListReferenceCandidates(attempt, lateAfter);
    var owner := OwnerIn(owners, if listed.Some? then listed.value.signatures else []);
    scan := VerifyByReferenceScan(listed, owner, answer, late, job);
    if listed.Some? {
      ghost var k: nat :| AnsweredAt(attempt, lateAfter, k);
      ScanMeans(attempt, lateAfter, k, owners, answer, late, job, scan);
    } else {
      assert forall k: nat :: !AnsweredAt(attempt, lateAfter, k);
    }
  }

  /** What the walk answers, on the page. */
  ghost predicate Walked(signatures: seq<Signature>, owner: nat -> Option<JobId>, answer: nat -> Answer, late: nat -> bool, job: JobId,
                         windowFull: bool, scan: Scan) {
    && (scan == NoTransaction <==> signatures == [] && !windowFull && !late(0) && !late(1))
    && (forall i: nat :: i < |signatures| && FirstStop(signatures, owner, answer, late, job, i) ==>
          scan == if late(i + 1) then Inconclusive else if answer(i) == Verifies then Verified(signatures[i]) else ScanThrew)
    && (scan.Verified? || scan == ScanThrew ==>
          exists i: nat :: i < |signatures| && FirstStop(signatures, owner, answer, late, job, i))
  }

  lemma ScanMeans(
      attempt: nat -> Option<seq<Tx>>, lateAfter: nat -> bool, k: nat, owners: Owners, answer: nat -> Answer, late: nat -> bool,
      job: JobId, scan: Scan)
    requires !late(0) && AnsweredAt(attempt, lateAfter, k)
    requires var page := attempt(k).value;
             Walked(Succeeded(page), OwnerIn(owners, Succeeded(page)), answer, late, job, |page| >= WINDOW, scan)
    ensures scan == NoTransaction <==> NothingOnReference(attempt, lateAfter, late)
    ensures forall s :: scan == Verified(s) <==> Decided(attempt, lateAfter, owners, answer, late, job, s, Verifies)
    ensures scan == ScanThrew <==> exists s :: Decided(attempt, lateAfter, owners, answer, late, job, s, Throws)
    ensures scan.Verified? ==> scan.signature != "" && (scan.signature in owners ==> owners[scan.signature] == job)
  {
    var page := attempt(k).value;
    SucceededEmpty(page);
    forall j: nat | AnsweredAt(attempt, lateAfter, j) ensures j == k {
      OneAnswers(attempt, lateAfter, j, k);
    }
    forall s, verdict | verdict != Rejects && Decided(attempt, lateAfter, owners, answer, late, job, s, verdict)
      ensures scan == if verdict == Verifies then Verified(s) else ScanThrew
    {
      var j: nat, p: nat :| AnsweredAt(attempt, lateAfter, j) && Decides(attempt(j).value, p, owners, answer, late, job, verdict)
                            && attempt(j).value[p].signature == s;
      DeciderIsFirstStop(page, p, owners, answer, late, job, verdict);
    }
    if scan.Verified? || scan == ScanThrew {
      var i: nat :| i < |Succeeded(page)| && FirstStop(Succeeded(page), OwnerIn(owners, Succeeded(page)), answer, late, job, i);
      var p := FirstStopDecides(page, i, owners, answer, late, job);
      assert Decided(attempt, lateAfter, owners, answer, late, job, page[p].signature, answer(i));
    }
  }

  lemma OneAnswers(attempt: nat -> Option<seq<Tx>>, lateAfter: nat -> bool, j: nat, k: nat)
    requires AnsweredAt(attempt, lateAfter, j) && AnsweredAt(attempt, lateAfter, k)
    ensures j == k
  {
    assert j < k ==> attempt(j) == None;
    assert k < j ==> attempt(k) == None;
  }
}
