/**
 The recovery loop at one unpaid job: it asks whether the job is held back, re-verifies the
 payment, and routes what that concludes. Every look in its history is one it really made.
 */
module RecoveryLoops {
  import opened Prelude
  import opened Ledger
  import opened JobLedgers
  import opened Recovery
  import opened Deferrals

  class RecoveryLoop {
    const ledger: JobLedger
    const probe: EndpointProbe
    const held: RecoveryDeferrals
    const job: JobId
    /** What happened to the job so far. */
    ghost var track: Track

    ghost predicate Valid()
      reads this, probe, held
    {
      && probe.Valid() && held.Valid() && held.interval == TICK
      && Deferrals.Inv(track) && (!track.over ==> track.held == Peek(held.deferrals, job))
    }

    constructor (ledger: JobLedger, probe: EndpointProbe, held: RecoveryDeferrals, job: JobId)
      requires probe.Valid() && held.Valid() && held.interval == TICK && job !in held.deferrals
      ensures Valid() && track == FRESH
      ensures this.ledger == ledger && this.probe == probe && this.held == held && this.job == job
    {
      this.ledger, this.probe, this.held, this.job := ledger, probe, held, job;
      track := FRESH;
    }

    ghost predicate IsHeld(at: real)
      reads this, held
    {
      job in held.deferrals && at < held.deferrals[job].nextAttemptAt
    }

    /** The look that a call between these times makes, if the re-verification answers `r`. */
    ghost function LookOf(start: real, end: real, c: Circumstances, e: Entry, r: ReVerification): Look
      reads probe
    {
      Look(start, end, c, e, probe.results, r)
    }

    /**
     One pass over the job. A job that is held back is left alone; otherwise the look and its
     route are a step of the job's history, and the job is failed just when that step closes it.
     */
    method ConfirmPayment(c: Circumstances, netAmount: int, start: real, end: real, random: real)
      returns (answer: Option<ReVerification>, ghost found: State, ghost writeFailed: bool)
      requires Valid() && !track.over && job in ledger.entries && track.clock <= start <= end && 0.0 <= random < 1.0
      modifies this, ledger, ledger.file, probe, held
      ensures Valid()
      ensures answer.None? <==> old(IsHeld(start))
      ensures answer.None? ==> track == old(track) && ledger.View() == old(ledger.View()) && held.deferrals == old(held.deferrals)
      ensures answer.Some? ==>
                && Concludes(old(ledger.View()), found, writeFailed, old(probe.soundness), c, job, netAmount, answer.value)
                && (writeFailed ==> exists i :: |old(ledger.file.writes)| <= i < |ledger.file.writes| && !ledger.file.writes[i])
                && track == Deferrals.Step(old(track), Looked(LookOf(start, end, c, old(ledger.entries[job]), answer.value), random))
                && if track.over then exists ok :: ledger.View() == Apply(found, MarkFailed(job, ok)) else ledger.View() == found
      ensures track.failedUnpaid ==> track.since <= |track.looks| && TwoSightings(Recent(track))
      ensures answer == Some(Confirmed) ==> SettledFor(ledger, job, netAmount)
    {
      found, writeFailed := ledger.View(), false;
      var isHeld := held.IsDeferred(job, start);
      if isHeld {
        answer := None;
        return;
      }
      ghost var before := track;
      ghost var entry := ledger.entries[job];
      var r := ReVerifyPayment(ledger, probe, job, netAmount, c);
      found, writeFailed := ledger.View(), LastFailed(old(ledger.file.writes), ledger.file.writes);
      ghost var look := LookOf(start, end, c, entry, r);
      assert Faithful(look);
      Deferrals.StepKeepsInv(before, Looked(look, random));
      track := Deferrals.Step(before, Looked(look, random));
      Route(r, end, random, before, look);
      answer := Some(r);
    }

    /** Two empty looks in a row close the job, as does a request that can never be verified. */
    method Route(r: ReVerification, now: real, random: real, ghost before: Track, ghost look: Look)
      requires look.concluded == r && look.end == now && LadderOk(before) && !before.over
      requires before.held == Peek(held.deferrals, job) && track == Deferrals.Step(before, Looked(look, random))
      requires held.Valid() && held.interval == TICK
      modifies held, ledger`entries, ledger.file
      ensures held.Valid() && (!track.over ==> track.held == Peek(held.deferrals, job))
      ensures old(ledger.file.writes) <= ledger.file.writes
      ensures if track.over then exists ok :: ledger.View() == Apply(old(ledger.View()), MarkFailed(job, ok))
              else ledger.View() == old(ledger.View())
    {
      match r
      case Deferred => held.Note(job, false, now, random);
      case AwaitingWindow => held.NoteAwaitingWindow(job, now, random);
      case CorruptState => ledger.MarkJobFailed(job);
      case NoPayment =>
        var saw := held.SawNoPaymentLast(job);
        if saw {
          ledger.MarkJobFailed(job);
        } else {
          held.Note(job, true, now, random);
        }
      case Confirmed => held.Clear(job);
    }

    /** Over the tick's budget of scans: the job waits less than a tick, and the sighting stands. */
    method Park(at: real, random: real)
      requires Valid() && track.clock <= at && 0.0 <= random < 1.0
      modifies this`track, held
      ensures Valid()
      ensures track == if old(IsHeld(at)) || old(track.over) then old(track) else Deferrals.Step(old(track), ParkedFor(at, random))
    {
      var isHeld := held.IsDeferred(job, at);
      if isHeld {
        return;
      }
      if !track.over {
        Deferrals.StepKeepsInv(track, ParkedFor(at, random));
        track := Deferrals.Step(track, ParkedFor(at, random));
      }
      held.ParkForCapacity(job, at, random);
    }

    /** Jobs that left the pending set are forgotten. */
    method Sweep(stillPending: set<JobId>, at: real)
      requires Valid() && track.clock <= at
      modifies this`track, held
      ensures Valid()
      ensures track == if job in stillPending then old(track) else Deferrals.Step(old(track), Swept(at))
    {
      held.Sweep(stillPending);
      if job !in stillPending {
        Deferrals.StepKeepsInv(track, Swept(at));
        track := Deferrals.Step(track, Swept(at));
      }
    }
  }
}
