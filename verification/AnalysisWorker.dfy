/** The queue's tables changed in place, one database statement per method. */
module AnalysisWorker {
  import opened Prelude
  import opened AnalysisQueue
  import opened AnalysisProofs

  /** The jobs a claim may take: claimable, and the one asked for if one was. */
  predicate Offered(now: nat, jobs: map<Id, Job>, assessments: map<Id, Assessment>, wanted: Option<Id>, e: Id) {
    e in jobs && (wanted.None? || wanted.value == e) && Claimable(now, assessments, jobs[e])
  }

  predicate FirstOffered(now: nat, jobs: map<Id, Job>, assessments: map<Id, Assessment>, wanted: Option<Id>, first: Id) {
    && Offered(now, jobs, assessments, wanted, first)
    && forall e | e in jobs :: Offered(now, jobs, assessments, wanted, e) ==> jobs[first].availableAt <= jobs[e].availableAt
  }

  /** A claim of this event would take it: the row is due, or its lease has run out, and nobody has decided it. */
  ghost predicate CanBeClaimed(s: State, e: Id) {
    && e in s.jobs
    && (|| (s.jobs[e].state in {Pending, Retry} && s.jobs[e].availableAt <= s.now)
        || (s.jobs[e].state == Processing && s.jobs[e].leaseUntil.Some? && s.jobs[e].leaseUntil.value <= s.now))
    && (s.jobs[e].assessment in s.assessments ==> s.assessments[s.jobs[e].assessment].verdict == Proposed)
  }

  lemma OfferedIffClaimed(s: State, wanted: Option<Id>)
    ensures forall e :: Offered(s.now, s.jobs, s.assessments, wanted, e) <==> (wanted.None? || wanted.value == e) && CanBeClaimed(s, e)
  {
  }

  datatype ReviewError = AssessmentNotFound | AssessmentAlreadyFinal

  class Queue {
    var now: nat
    var nextId: Id
    var jobs: map<Id, Job>
    var assessments: map<Id, Assessment>
    ghost var leases: map<Id, Lease>
    var reviews: map<Id, Review>
    ghost var log: seq<Entry>

    ghost function State(): State
      reads this
    {
      AnalysisQueue.State(now, nextId, jobs, assessments, leases, reviews, log)
    }

    constructor ()
      ensures State() == Empty
    {
      now, nextId, jobs, assessments, leases, reviews, log := 0, 0, map[], map[], map[], map[], [];
    }

    /** Enqueues an event once; asking again changes nothing. */
    method RequestAnalysis(event: Id, caseId: Id)
      modifies this
      ensures State() == Next(old(State()), Request(event, caseId))
      ensures event in jobs && (event in old(jobs) ==> jobs == old(jobs))
    {
      if event !in jobs {
        jobs := jobs[event := Job(caseId, nextId, Pending, 0, now, None, None, None)];
        nextId := nextId + 1;
      }
    }

    /** The locked read: an offered job that has been available longest. */
    method ChooseJob(wanted: Option<Id>) returns (event: Option<Id>)
      ensures event.None? ==> forall e | e in jobs :: !Offered(now, jobs, assessments, wanted, e)
      ensures event.Some? ==> FirstOffered(now, jobs, assessments, wanted, event.value)
    {
      if some: Id :| some in jobs && Offered(now, jobs, assessments, wanted, some) {
        FirstExists(now, jobs, assessments, wanted, some);
        var first :| first in jobs && FirstOffered(now, jobs, assessments, wanted, first);
        return Some(first);
      }
      return None;
    }

    /** Claims the claimable job that has been available longest, or the one asked for; nothing if there is none. */
    method ClaimObdJob(wanted: Option<Id>) returns (claim: Option<(Id, Lease)>)
      modifies this
      ensures claim.None? ==> State() == old(State()) && forall e | e in jobs :: !Offered(now, jobs, assessments, wanted, e)
      ensures claim.Some? ==>
        var event := claim.value.1.event;
        && FirstOffered(old(now), old(jobs), old(assessments), wanted, event)
        && State() == Next(old(State()), Claim(event))
        && claim.value == (old(nextId), Lease(event, old(jobs)[event].attempts + 1))
        && jobs == old(jobs)[event := jobs[event]] && assessments == old(assessments)
        && jobs[event].state == Processing && jobs[event].token == Some(claim.value.0)
        && jobs[event].leaseUntil == Some(now + 120) && jobs[event].attempts == old(jobs)[event].attempts + 1
      ensures claim.None? ==> forall e :: (wanted.None? || wanted.value == e) ==> !CanBeClaimed(old(State()), e)
      ensures claim.Some? ==>
        var event := claim.value.1.event;
        && (wanted.None? || wanted.value == event) && CanBeClaimed(old(State()), event)
        && forall e :: (wanted.None? || wanted.value == e) && CanBeClaimed(old(State()), e) ==>
          old(jobs)[event].availableAt <= old(jobs)[e].availableAt
    {
      OfferedIffClaimed(State(), wanted);
      var chosen := ChooseJob(wanted);
      if chosen.None? { return None; }
      var event, token, job := chosen.value, nextId, jobs[chosen.value];
      nextId := nextId + 1;
      jobs := jobs[event := job.(state := Processing, token := Some(token), leaseUntil := Some(now + LEASE_SECONDS), attempts := job.attempts + 1)];
      leases := leases[token := Lease(event, job.attempts + 1)];
      log := log + [Claimed(event, token, now + LEASE_SECONDS)];
      return Some((token, Lease(event, job.attempts + 1)));
    }

    /** The write of a worker that found the scan no longer permitted, before or after inference. */
    method BlockObdJob(token: Id, lease: Lease) returns (landed: bool)
      requires token in leases && leases[token] == lease
      modifies this
      ensures landed <==> Owns(old(State()), token)
      ensures State() == Next(old(State()), Block(token))
      ensures landed ==> jobs[lease.event].state == Blocked && jobs[lease.event].result.None?
    {
      landed := lease.event in jobs && jobs[lease.event].token == Some(token);
      if landed {
        jobs := jobs[lease.event := jobs[lease.event].(state := Blocked, result := None, token := None, leaseUntil := None)];
        log := log + [Shut(lease.event, token)];
      }
    }

    /** The publishing write: job result and assessment together, or neither. */
    method SaveObdResult(token: Id, lease: Lease, report: Report) returns (landed: bool)
      requires token in leases && leases[token] == lease
      modifies this
      ensures landed <==> CanPublish(old(State()), token)
      ensures State() == Next(old(State()), Save(token, report))
      ensures landed ==>
        && jobs[lease.event].result == Some(report)
        && jobs[lease.event].assessment in assessments
        && assessments[jobs[lease.event].assessment] == Assessment(Proposed, report)
    {
      if lease.event !in jobs { return false; }
      var job := jobs[lease.event];
      if job.token != Some(token) || job.leaseUntil.None? || job.leaseUntil.value <= now || HumanDecided(assessments, job) {
        return false;
      }
      var retry := report.model == Fallback && lease.attempt < MAX_ATTEMPTS;
      var state := if retry then Retry else if report.model == Ai then CompletedAi else CompletedFallback;
      jobs := jobs[lease.event := job.(state := state, result := Some(report),
      availableAt := now + Delay(lease.attempt), token := None, leaseUntil := None)];
      assessments := assessments[job.assessment := Assessment(Proposed, report)];
      log := log + [Published(lease.event, token, now, retry)];
      return true;
    }

    /** The first half of processing a claim: a scan that is not permitted is blocked and not analysed. */
    method StartObdJob(token: Id, lease: Lease, permitted: bool) returns (analyse: bool)
      requires token in leases && leases[token] == lease
      modifies this
      ensures analyse == permitted
      ensures State() == if permitted then old(State()) else Next(old(State()), Block(token))
    {
      if !permitted {
        var _ := BlockObdJob(token, lease);
        return false;
      }
      return true;
    }

    /**
     * The second half, after the analysis, whatever happened to the job in between: permission is
     * checked again, and a scan that is no longer permitted publishes nothing.
     */
    method FinishObdJob(token: Id, lease: Lease, report: Report, permitted: bool) returns (published: bool)
      requires token in leases && leases[token] == lease
      modifies this
      ensures published <==> permitted && CanPublish(old(State()), token)
      ensures State() == Next(old(State()), if permitted then Save(token, report) else Block(token))
      ensures !published ==> assessments == old(assessments)
    {
      if !permitted {
        var _ := BlockObdJob(token, lease);
        return false;
      }
      published := SaveObdResult(token, lease, report);
    }

    /** A person reads an assessment and may go on only while it is open. */
    method ReadForReview(assessment: Id, decision: Decision) returns (r: Result<Id, ReviewError>)
      requires Final(decision)
      modifies this
      ensures State() == Next(old(State()), BeginReview(assessment, decision))
      ensures assessments == old(assessments)
      ensures r == if assessment !in assessments then Err(AssessmentNotFound)
        else if Final(assessments[assessment].verdict) then Err(AssessmentAlreadyFinal) else Ok(old(nextId))
    {
      if assessment !in assessments { return Err(AssessmentNotFound); }
      var status := assessments[assessment].verdict;
      if status != Proposed && status != ReviewedByHuman { return Err(AssessmentAlreadyFinal); }
      reviews := reviews[nextId := Review(assessment, decision)];
      r := Ok(nextId);
      nextId := nextId + 1;
    }

    /** A review's write, some time later: it lands whatever others have written meanwhile. */
    method WriteReview(review: Id)
      requires review in reviews
      modifies this
      ensures State() == Next(old(State()), EndReview(review))
      ensures
        var r := old(reviews)[review];
        r.assessment in old(assessments) ==>
          assessments == old(assessments)[r.assessment := old(assessments)[r.assessment].(verdict := r.decision)]
    {
      var r := reviews[review];
      reviews := reviews - {review};
      if r.assessment in assessments {
        assessments := assessments[r.assessment := assessments[r.assessment].(verdict := r.decision)];
      }
    }

    /** Closes the jobs whose assessment a person has already decided and that nobody is working on. */
    method SweepReviewed()
      modifies this
      ensures State() == Next(old(State()), Sweep)
      ensures forall e | e in jobs :: !Sweepable(now, assessments, jobs[e])
    {
      jobs := map e | e in jobs :: SweptJob(now, assessments, jobs[e]);
    }
  }

  lemma {:induction false} FirstExists(now: nat, jobs: map<Id, Job>, assessments: map<Id, Assessment>, wanted: Option<Id>, some: Id)
    requires Offered(now, jobs, assessments, wanted, some)
    ensures exists first :: first in jobs && FirstOffered(now, jobs, assessments, wanted, first)
    decreases jobs[some].availableAt
  {
    if !FirstOffered(now, jobs, assessments, wanted, some) {
      var e :| e in jobs && Offered(now, jobs, assessments, wanted, e) && jobs[e].availableAt < jobs[some].availableAt;
      FirstExists(now, jobs, assessments, wanted, e);
    }
  }
}
