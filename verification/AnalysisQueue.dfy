/**
 * The lease-fenced analysis queue of cloudflare/obd-analysis.js as a state machine. Each statement
 * sent to the database is one step; workers hold copies of the rows they claimed and may act on
 * them at any later time, or never. So do people who review (src/services/triage.ts): they read an assessment
 * in one statement and write their verdict in another, which does not look at the row again. The log
 * records what landed.
 */
module AnalysisQueue {
  import opened Prelude

  datatype JobState = Pending | Processing | Retry | CompletedAi | CompletedFallback | Blocked | Reviewed

  datatype Model = Ai | Fallback

  /** An analysis result; the assessment columns are a function of it. */
  datatype Report = Report(model: Model, body: nat)

  datatype Job = Job(
    caseId: Id, assessment: Id, state: JobState, attempts: nat, availableAt: nat,
    token: Option<Id>, leaseUntil: Option<nat>, result: Option<Report>)

  datatype Verdict = Proposed | ReviewedByHuman | Accepted | Rejected

  datatype Assessment = Assessment(verdict: Verdict, content: Report)

  /** A verdict a person gives. */
  type Decision = v: Verdict | v != Proposed witness Accepted

  /** A review between its read and its write. */
  datatype Review = Review(assessment: Id, decision: Decision)

  /** The part of the claimed row a worker goes on using. */
  datatype Lease = Lease(event: Id, attempt: nat)

  datatype Entry =
    | Claimed(event: Id, token: Id, until: nat)
    | Published(event: Id, token: Id, at: nat, retry: bool)
    | Shut(event: Id, token: Id)

  datatype State = State(
    now: nat, nextId: Id, jobs: map<Id, Job>, assessments: map<Id, Assessment>,
    leases: map<Id, Lease>, reviews: map<Id, Review>, log: seq<Entry>)

  const LEASE_SECONDS := 120
  const MAX_ATTEMPTS := 5

  datatype Action =
    | Request(event: Id, caseId: Id)
    | Claim(event: Id)
    | Block(token: Id)
    | Save(token: Id, report: Report)
    | BeginReview(assessment: Id, decision: Decision)
    | EndReview(review: Id)
    | Sweep
    | Tick(seconds: nat)

  // ---------------------------------------------------------------------------------------------
  // Steps

  predicate HumanDecided(assessments: map<Id, Assessment>, job: Job) {
    job.assessment in assessments && assessments[job.assessment].verdict != Proposed
  }

  predicate Claimable(now: nat, assessments: map<Id, Assessment>, job: Job) {
    && (((job.state == Pending || job.state == Retry) && job.availableAt <= now)
        || (job.state == Processing && job.leaseUntil.Some? && job.leaseUntil.value <= now))
    && !HumanDecided(assessments, job)
  }

  predicate Sweepable(now: nat, assessments: map<Id, Assessment>, job: Job) {
    && (job.state == Pending || job.state == Retry || job.state == Processing)
    && (job.leaseUntil.None? || job.leaseUntil.value <= now)
    && HumanDecided(assessments, job)
  }

  function Pow2(n: nat): nat { if n == 0 then 1 else 2 * Pow2(n - 1) }

  function Delay(attempt: nat): nat { Min(3600, 30 * Pow2(Max(0, attempt - 1))) }

  predicate WillRetry(attempt: nat, report: Report) { report.model == Fallback && attempt < MAX_ATTEMPTS }

  function SavedState(attempt: nat, report: Report): JobState {
    if WillRetry(attempt, report) then Retry else if report.model == Ai then CompletedAi else CompletedFallback
  }

  /** The guard of the block update: token only, even when the lease has run out. */
  predicate Owns(s: State, token: Id) {
    token in s.leases && s.leases[token].event in s.jobs && s.jobs[s.leases[token].event].token == Some(token)
  }

  /** The guard of the save: token, unexpired lease, and no human decision yet. */
  predicate CanPublish(s: State, token: Id) {
    && Owns(s, token)
    && var job := s.jobs[s.leases[token].event];
    && job.leaseUntil.Some? && s.now < job.leaseUntil.value
    && !HumanDecided(s.assessments, job)
  }

  function ClaimStep(s: State, event: Id): State
    requires event in s.jobs
  {
    var job := s.jobs[event];
    var until := s.now + LEASE_SECONDS;
    s.(nextId := s.nextId + 1,
    jobs := s.jobs[event := job.(state := Processing, token := Some(s.nextId), leaseUntil := Some(until), attempts := job.attempts + 1)],
    leases := s.leases[s.nextId := Lease(event, job.attempts + 1)],
    log := s.log + [Claimed(event, s.nextId, until)])
  }

  function BlockStep(s: State, token: Id): State
    requires Owns(s, token)
  {
    var event := s.leases[token].event;
    s.(jobs := s.jobs[event := s.jobs[event].(state := Blocked, result := None, token := None, leaseUntil := None)],
    log := s.log + [Shut(event, token)])
  }

  function SaveStep(s: State, token: Id, report: Report): State
    requires Owns(s, token)
  {
    var lease := s.leases[token];
    var job := s.jobs[lease.event];
    s.(jobs := s.jobs[lease.event := job.(state := SavedState(lease.attempt, report), result := Some(report),
    availableAt := s.now + Delay(lease.attempt), token := None, leaseUntil := None)],
    assessments := s.assessments[job.assessment := Assessment(Proposed, report)],
    log := s.log + [Published(lease.event, token, s.now, WillRetry(lease.attempt, report))])
  }

  /** The check a review makes when it reads. */
  predicate Reviewable(a: Assessment) { a.verdict == Proposed || a.verdict == ReviewedByHuman }

  /** The write of a review: by identifier alone, whatever the row says by now. */
  function EndReviewStep(s: State, review: Id): State
    requires review in s.reviews
  {
    var r := s.reviews[review];
    var left := s.(reviews := s.reviews - {review});
    if r.assessment in s.assessments
    then left.(assessments := s.assessments[r.assessment := s.assessments[r.assessment].(verdict := r.decision)])
    else left
  }

  function SweptJob(now: nat, assessments: map<Id, Assessment>, job: Job): Job {
    if Sweepable(now, assessments, job) then job.(state := Reviewed, token := None, leaseUntil := None) else job
  }

  function SweptJobs(s: State): map<Id, Job> {
    map e | e in s.jobs :: SweptJob(s.now, s.assessments, s.jobs[e])
  }

  ghost function Next(s: State, a: Action): State {
    match a
    case Request(event, caseId) =>
      if event in s.jobs then s
      else s.(nextId := s.nextId + 1, jobs := s.jobs[event := Job(caseId, s.nextId, Pending, 0, s.now, None, None, None)])
    case Claim(event) =>
      if event in s.jobs && Claimable(s.now, s.assessments, s.jobs[event]) then ClaimStep(s, event) else s
    case Block(token) => if Owns(s, token) then BlockStep(s, token) else s
    case Save(token, report) => if CanPublish(s, token) then SaveStep(s, token, report) else s
    case BeginReview(assessment, decision) =>
      if assessment in s.assessments && Reviewable(s.assessments[assessment])
      then s.(nextId := s.nextId + 1, reviews := s.reviews[s.nextId := Review(assessment, decision)])
      else s
    case EndReview(review) => if review in s.reviews then EndReviewStep(s, review) else s
    case Sweep => s.(jobs := SweptJobs(s))
    case Tick(d) => s.(now := s.now + d)
  }

  ghost function Run(s: State, actions: seq<Action>): State {
    if actions == [] then s else Next(Run(s, actions[..|actions| - 1]), actions[|actions| - 1])
  }

  const Empty := State(0, 0, map[], map[], map[], map[], [])

  // ---------------------------------------------------------------------------------------------
  // Reading the log

  /** The last entry about a job. */
  function Latest(log: seq<Entry>, event: Id): Option<Entry> {
    if log == [] then None
    else if log[|log| - 1].event == event then Some(log[|log| - 1])
    else Latest(log[..|log| - 1], event)
  }

  predicate IsWrite(e: Entry) { e.Published? || e.Shut? }

  /** How many saves of a job landed: those that asked for a retry, and those that did not. */
  function Saves(log: seq<Entry>, event: Id, retry: bool): nat {
    if log == [] then 0
    else
      var last := log[|log| - 1];
      Saves(log[..|log| - 1], event, retry) + if last.Published? && last.event == event && last.retry == retry then 1 else 0
  }

  /** Each write was made under the claim that was then the job's last event, and each save in time. */
  ghost predicate Fenced(log: seq<Entry>) {
    forall k :: 0 <= k < |log| && IsWrite(log[k]) ==>
      var claim := Latest(log[..k], log[k].event);
      && claim.Some? && claim.value.Claimed? && claim.value.token == log[k].token
      && (log[k].Published? ==> log[k].at < claim.value.until)
  }

  ghost predicate OneWritePerToken(log: seq<Entry>) {
    forall i, j :: 0 <= i < j < |log| && IsWrite(log[i]) && IsWrite(log[j]) ==> log[i].token != log[j].token
  }

  predicate Settled(job: Job) {
    job.state == CompletedAi || job.state == CompletedFallback || job.state == Blocked || job.state == Reviewed
  }

  /** The stored result and the job's assessment say the same. */
  ghost predicate Agrees(s: State, job: Job) {
    job.result.Some? ==> job.assessment in s.assessments && s.assessments[job.assessment].content == job.result.value
  }

  // ---------------------------------------------------------------------------------------------
  // The invariant

  ghost predicate JobOk(s: State, event: Id, job: Job) {
    && job.assessment < s.nextId
    && (job.state == Processing <==> job.token.Some?) && (job.token.Some? <==> job.leaseUntil.Some?)
    && (job.token.Some? ==>
      && job.token.value < s.nextId
      && job.token.value in s.leases && s.leases[job.token.value] == Lease(event, job.attempts)
      && job.attempts > 0
      && Latest(s.log, event) == Some(Claimed(event, job.token.value, job.leaseUntil.value)))
    && Agrees(s, job)
    && var retries := Saves(s.log, event, true);
    && retries <= 4 && retries <= (if job.token.Some? then job.attempts - 1 else job.attempts)
    && Saves(s.log, event, false) == if job.state == CompletedAi || job.state == CompletedFallback then 1 else 0
  }

  ghost predicate Inv(s: State) {
    && (forall e :: e in s.jobs ==> JobOk(s, e, s.jobs[e]))
    && (forall e, f :: e in s.jobs && f in s.jobs && e != f ==> s.jobs[e].assessment != s.jobs[f].assessment)
    && (forall t :: t in s.leases ==> t < s.nextId)
    && (forall k :: 0 <= k < |s.log| ==> s.log[k].event in s.jobs)
    && (forall k :: 0 <= k < |s.log| && IsWrite(s.log[k]) ==> s.log[k].token < s.nextId)
    && (forall k, e :: 0 <= k < |s.log| && IsWrite(s.log[k]) && e in s.jobs ==> s.jobs[e].token != Some(s.log[k].token))
    && Fenced(s.log) && OneWritePerToken(s.log)
  }
}
