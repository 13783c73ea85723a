/** The board's tables changed in place; publishing is two statements that others may come between. */
module OpenJobBoard {
  import opened Prelude
  import opened Standing
  import opened OpenJobs

  datatype BoardError =
    | CaseNotFound | CaseNotOpen | LocationMissing | CaseHasLiveOffer
    | OpenJobNotFound | OpenJobTaken | NotYetAvailable | TooFar | NotQualified

  class Board {
    var now: nat
    var cases: map<Id, CaseState>
    var offers: seq<Offer>
    var listings: seq<Listing>

    ghost function State(): State
      reads this
    {
      OpenJobs.State(now, cases, offers, listings)
    }

    /** The read-only first half of publishing: an existing listing, a refusal, or leave to insert. */
    method CheckPublish(caseId: Id, located: bool) returns (r: Result<Option<nat>, BoardError>)
      ensures r == Err(CaseNotFound) <==> caseId !in cases
      ensures r == Err(CaseNotOpen) <==> caseId in cases && cases[caseId] != Intake && cases[caseId] != Triage && cases[caseId] != DiagnosticPending
      ensures r == Err(LocationMissing) <==> caseId in cases && cases[caseId] in {Intake, Triage, DiagnosticPending} && !located
      ensures (r.Ok? && r.value.Some?) <==>
        && caseId in cases && cases[caseId] in {Intake, Triage, DiagnosticPending} && located
        && exists i :: 0 <= i < |listings| && listings[i].caseId == caseId && listings[i].state == Open
      ensures r.Ok? && r.value.Some? ==> r.value.value < |listings| && listings[r.value.value].caseId == caseId && listings[r.value.value].state == Open
      ensures r == Err(CaseHasLiveOffer) <==>
        && caseId in cases && cases[caseId] in {Intake, Triage, DiagnosticPending} && located
        && (forall i :: 0 <= i < |listings| && listings[i].caseId == caseId ==> listings[i].state != Open)
        && exists k :: 0 <= k < |offers| && offers[k].caseId == caseId && (offers[k].outcome == Offered || offers[k].outcome == Accepted)
      ensures r == Ok(None) <==>
        && caseId in cases && cases[caseId] in {Intake, Triage, DiagnosticPending} && located
        && (forall i :: 0 <= i < |listings| && listings[i].caseId == caseId ==> listings[i].state != Open)
        && (forall k :: 0 <= k < |offers| && offers[k].caseId == caseId ==> offers[k].outcome == Declined)
    {
      TakenIsLive(State(), caseId);
      if caseId !in cases { return Err(CaseNotFound); }
      if !(cases[caseId] == Intake || cases[caseId] == Triage || cases[caseId] == DiagnosticPending) { return Err(CaseNotOpen); }
      if !located { return Err(LocationMissing); }
      if HasOpen(listings, caseId) {
        var i :| 0 <= i < |listings| && listings[i].caseId == caseId && listings[i].state == Open;
        return Ok(Some(i));
      }
      if HasLiveOffer(offers, caseId) { return Err(CaseHasLiveOffer); }
      return Ok(None);
    }

    /** The second half, some time later: inserts unless the unique index objects, and returns the open listing. */
    method InsertListing(caseId: Id, rank: JobRank, emergency: bool) returns (i: nat)
      modifies this
      ensures State() == Next(old(State()), Insert(caseId, rank, emergency))
      ensures i < |listings| && listings[i].caseId == caseId && listings[i].state == Open
    {
      if HasOpen(listings, caseId) {
        i :| 0 <= i < |listings| && listings[i].caseId == caseId && listings[i].state == Open;
        return;
      }
      i := |listings|;
      listings := listings + [Listing(caseId, Open, rank, emergency, now, None, None)];
    }

    method WithdrawOpenJob(caseId: Id)
      modifies this
      ensures State() == Next(old(State()), Withdraw(caseId))
      ensures !HasOpen(listings, caseId)
    {
      listings := WithdrawAll(listings, caseId);
    }

    /** Claims a listing; one that was overtaken is withdrawn and counts as taken. */
    method ClaimOpenJob(i: nat, who: Technician) returns (r: Result<nat, BoardError>)
      modifies this
      ensures State() == Next(old(State()), Claim(i, who))
      ensures r.Ok? <==>
        && i < |old(listings)| && Reachable(old(listings)[i], who, old(now))
        && StillWaiting(old(State()), old(listings)[i].caseId) && who.qualified
      ensures r.Ok? ==>
        && r.value == |old(offers)| && offers == old(offers) + [Offer(old(listings)[i].caseId, who.actor, Accepted, true)]
        && listings[i].state == Claimed && listings[i].claimant == Some(who.actor) && listings[i].offer == Some(r.value)
    {
      if i >= |listings| { return Err(OpenJobNotFound); }
      var job := listings[i];
      if job.state != Open { return Err(OpenJobTaken); }
      if now < job.publishedAt + ReleaseDelay(job.rank, who.tier, job.emergency) { return Err(NotYetAvailable); }
      if who.km > RADIUS_KM { return Err(TooFar); }
      if job.caseId !in cases || cases[job.caseId] != DiagnosticPending || HasLiveOffer(offers, job.caseId) {
        listings := listings[i := job.(state := Withdrawn)];
        return Err(OpenJobTaken);
      }
      if !who.qualified { return Err(NotQualified); }
      var offer := |offers|;
      offers := offers + [Offer(job.caseId, who.actor, Accepted, true)];
      listings := listings[i := job.(state := Claimed, claimant := Some(who.actor), offer := Some(offer))];
      return Ok(offer);
    }
  }
}
