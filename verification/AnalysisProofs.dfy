/** What every interleaving of claims, crashes, late workers, reviews and lease expiries keeps. */
module AnalysisProofs {
  import opened Prelude
  import opened AnalysisQueue

  // ---------------------------------------------------------------------------------------------
  // The log grows by one entry

  lemma AppendLatest(log: seq<Entry>, e: Entry, event: Id)
    ensures Latest(log + [e], event) == if e.event == event then Some(e) else Latest(log, event)
    ensures forall retry :: Saves(log + [e], event, retry)
                         == Saves(log, event, retry) + if e.Published? && e.event == event && e.retry == retry then 1 else 0
  {
    assert (log + [e])[..|log|] == log;
  }

  lemma AppendFenced(log: seq<Entry>, e: Entry)
    requires Fenced(log) && OneWritePerToken(log)
    requires IsWrite(e) ==>
      && Latest(log, e.event).Some? && Latest(log, e.event).value.Claimed? && Latest(log, e.event).value.token == e.token
      && (e.Published? ==> e.at < Latest(log, e.event).value.until)
      && forall k :: 0 <= k < |log| && IsWrite(log[k]) ==> log[k].token != e.token
    ensures Fenced(log + [e]) && OneWritePerToken(log + [e])
  {
    assert forall k :: 0 <= k < |log| ==> (log + [e])[..k] == log[..k];
    assert (log + [e])[..|log|] == log;
  }

  /** A job that no step touched stays in order when other rows and the log grow around it. */
  lemma UntouchedOk(s: State, t: State, event: Id, job: Job)
    requires JobOk(s, event, job)
    requires s.nextId <= t.nextId
    requires forall k :: k in s.leases ==> k in t.leases && t.leases[k] == s.leases[k]
    requires Latest(t.log, event) == Latest(s.log, event)
    requires forall retry :: Saves(t.log, event, retry) == Saves(s.log, event, retry)
    requires job.assessment in s.assessments ==>
      job.assessment in t.assessments && t.assessments[job.assessment].content == s.assessments[job.assessment].content
    ensures JobOk(t, event, job)
  {
  }

  lemma {:induction false} NoHistory(log: seq<Entry>, event: Id)
    requires forall k :: 0 <= k < |log| ==> log[k].event != event
    ensures Latest(log, event) == None
    ensures forall retry :: Saves(log, event, retry) == 0
  {
    if log != [] { NoHistory(log[..|log| - 1], event); }
  }

  // ---------------------------------------------------------------------------------------------
  // Every step keeps the invariant

  lemma RequestKeepsInv(s: State, event: Id, caseId: Id)
    requires Inv(s)
    ensures Inv(Next(s, Request(event, caseId)))
  {
    if event !in s.jobs {
      var t := Next(s, Request(event, caseId));
      NoHistory(s.log, event);
      forall e | e in t.jobs ensures JobOk(t, e, t.jobs[e]) {
        if e != event { UntouchedOk(s, t, e, s.jobs[e]); }
      }
      assert Inv(t);
    }
  }

  lemma ClaimedJobsOk(s: State, event: Id, e: Id)
    requires Inv(s) && event in s.jobs && Claimable(s.now, s.assessments, s.jobs[event]) && e in s.jobs
    ensures JobOk(ClaimStep(s, event), e, ClaimStep(s, event).jobs[e])
  {
    hide Fenced, OneWritePerToken;
    var t := ClaimStep(s, event);
    AppendLatest(s.log, t.log[|s.log|], e);
    assert JobOk(s, e, s.jobs[e]);
    if e != event { UntouchedOk(s, t, e, s.jobs[e]); }
  }

  lemma ClaimKeepsInv(s: State, event: Id)
    requires Inv(s) && event in s.jobs && Claimable(s.now, s.assessments, s.jobs[event])
    ensures Inv(ClaimStep(s, event))
  {
    hide JobOk, Fenced, OneWritePerToken;
    var t := ClaimStep(s, event);
    AppendFenced(s.log, t.log[|s.log|]);
    forall e | e in t.jobs ensures JobOk(t, e, t.jobs[e]) { ClaimedJobsOk(s, event, e); }
  }

  lemma BlockKeepsInv(s: State, token: Id)
    requires Inv(s) && Owns(s, token)
    ensures Inv(BlockStep(s, token))
  {
    var event := s.leases[token].event;
    var t := BlockStep(s, token);
    var entry := t.log[|s.log|];
    assert JobOk(s, event, s.jobs[event]);
    AppendFenced(s.log, entry);
    forall e | e in t.jobs ensures JobOk(t, e, t.jobs[e]) {
      AppendLatest(s.log, entry, e);
      assert JobOk(s, e, s.jobs[e]);
      if e != event { UntouchedOk(s, t, e, s.jobs[e]); }
    }
    TokensDiffer(s, event);
  }

  /** Two jobs never carry the same token, because each token is leased for one job. */
  lemma TokensDiffer(s: State, event: Id)
    requires Inv(s) && event in s.jobs && s.jobs[event].token.Some?
    ensures forall e :: e in s.jobs && e != event ==> s.jobs[e].token != s.jobs[event].token
  {
    assert JobOk(s, event, s.jobs[event]);
    forall e | e in s.jobs && e != event ensures s.jobs[e].token != s.jobs[event].token {
      assert JobOk(s, e, s.jobs[e]);
    }
  }

  lemma SavedJobsOk(s: State, token: Id, report: Report, e: Id)
    requires Inv(s) && CanPublish(s, token) && e in s.jobs
    ensures JobOk(SaveStep(s, token, report), e, SaveStep(s, token, report).jobs[e])
  {
    hide Fenced, OneWritePerToken;
    var event := s.leases[token].event;
    var t := SaveStep(s, token, report);
    AppendLatest(s.log, t.log[|s.log|], e);
    assert JobOk(s, e, s.jobs[e]) && JobOk(s, event, s.jobs[event]);
    if e != event { UntouchedOk(s, t, e, s.jobs[e]); }
  }

  lemma SavedLogOk(s: State, token: Id, report: Report)
    requires Inv(s) && CanPublish(s, token)
    ensures Fenced(SaveStep(s, token, report).log) && OneWritePerToken(SaveStep(s, token, report).log)
  {
    var event := s.leases[token].event;
    assert JobOk(s, event, s.jobs[event]);
    hide JobOk, Fenced, OneWritePerToken;
    AppendFenced(s.log, SaveStep(s, token, report).log[|s.log|]);
  }

  lemma SaveKeepsInv(s: State, token: Id, report: Report)
    requires Inv(s) && CanPublish(s, token)
    ensures Inv(SaveStep(s, token, report))
  {
    var event := s.leases[token].event;
    var t := SaveStep(s, token, report);
    SavedLogOk(s, token, report);
    forall e | e in t.jobs ensures JobOk(t, e, t.jobs[e]) { SavedJobsOk(s, token, report, e); }
    assert JobOk(s, event, s.jobs[event]);
    TokensDiffer(s, event);
    hide JobOk, Fenced, OneWritePerToken;
  }

  lemma SweptOk(s: State, t: State, event: Id, job: Job)
    requires JobOk(s, event, job) && t.log == s.log && t.leases == s.leases && t.nextId == s.nextId && t.assessments == s.assessments
    ensures JobOk(t, event, SweptJob(s.now, s.assessments, job))
  {
  }

  lemma SweepKeepsInv(s: State)
    requires Inv(s)
    ensures Inv(Next(s, Sweep))
  {
    var t := s.(jobs := SweptJobs(s));
    forall e | e in t.jobs ensures JobOk(t, e, t.jobs[e]) {
      SweptOk(s, t, e, s.jobs[e]);
    }
    assert forall e | e in t.jobs :: t.jobs[e].assessment == s.jobs[e].assessment;
    assert forall e | e in t.jobs :: t.jobs[e].token.Some? ==> t.jobs[e].token == s.jobs[e].token;
  }

  /** A step that changes verdicts and pending reviews only. */
  lemma ReviewKeepsInv(s: State, t: State)
    requires Inv(s) && s.nextId <= t.nextId
    requires t.jobs == s.jobs && t.leases == s.leases && t.log == s.log
    requires forall a :: a in s.assessments ==> a in t.assessments && t.assessments[a].content == s.assessments[a].content
    ensures Inv(t)
  {
    forall e | e in t.jobs ensures JobOk(t, e, t.jobs[e]) { UntouchedOk(s, t, e, s.jobs[e]); }
  }

  lemma StepKeepsInv(s: State, a: Action)
    requires Inv(s)
    ensures Inv(Next(s, a))
  {
    match a
    case Request(event, caseId) => RequestKeepsInv(s, event, caseId);
    case Claim(event) => if event in s.jobs && Claimable(s.now, s.assessments, s.jobs[event]) { ClaimKeepsInv(s, event); }
    case Block(token) => if Owns(s, token) { BlockKeepsInv(s, token); }
    case Save(token, report) => if CanPublish(s, token) { SaveKeepsInv(s, token, report); }
    case BeginReview(assessment, decision) => ReviewKeepsInv(s, Next(s, a));
    case EndReview(review) => ReviewKeepsInv(s, Next(s, a));
    case Sweep => SweepKeepsInv(s);
    case Tick(d) =>
      var t := Next(s, a);
      forall e | e in t.jobs ensures JobOk(t, e, t.jobs[e]) { UntouchedOk(s, t, e, s.jobs[e]); }
  }

  lemma {:induction false} RunKeepsInv(s: State, actions: seq<Action>)
    requires Inv(s)
    ensures Inv(Run(s, actions))
  {
    if actions != [] {
      RunKeepsInv(s, actions[..|actions| - 1]);
      StepKeepsInv(Run(s, actions[..|actions| - 1]), actions[|actions| - 1]);
    }
  }

  // ---------------------------------------------------------------------------------------------
  // Main results, over every interleaving

  /** Each lease token lands at most one write. */
  lemma TokenWritesOnce(actions: seq<Action>, i: nat, j: nat)
    requires i < |Run(Empty, actions).log| && j < |Run(Empty, actions).log|
    requires IsWrite(Run(Empty, actions).log[i]) && IsWrite(Run(Empty, actions).log[j])
    requires Run(Empty, actions).log[i].token == Run(Empty, actions).log[j].token
    ensures i == j
  {
    RunKeepsInv(Empty, actions);
  }

  /**
   * A result that lands was published under the job's most recent claim and before that claim's
   * lease ran out: a worker whose lease expired or was replaced never publishes.
   */
  lemma PublishUnderLiveLease(actions: seq<Action>, k: nat)
    requires k < |Run(Empty, actions).log| && Run(Empty, actions).log[k].Published?
    ensures
      var log := Run(Empty, actions).log;
      exists until :: Latest(log[..k], log[k].event) == Some(Claimed(log[k].event, log[k].token, until)) && log[k].at < until
  {
    RunKeepsInv(Empty, actions);
    var log := Run(Empty, actions).log;
    assert IsWrite(log[k]);
    LatestIsOf(log[..k], log[k].event);
    var claim := Latest(log[..k], log[k].event).value;
    assert claim == Claimed(log[k].event, log[k].token, claim.until);
  }

  lemma {:induction false} LatestIsOf(log: seq<Entry>, event: Id)
    ensures Latest(log, event).Some? ==> Latest(log, event).value.event == event
  {
    if log != [] && log[|log| - 1].event != event { LatestIsOf(log[..|log| - 1], event); }
  }

  /** A stored result always matches the single assessment of that event. */
  lemma ResultMatchesAssessment(actions: seq<Action>, event: Id)
    requires event in Run(Empty, actions).jobs
    ensures Agrees(Run(Empty, actions), Run(Empty, actions).jobs[event])
    ensures forall f :: f in Run(Empty, actions).jobs && f != event ==>
      Run(Empty, actions).jobs[f].assessment != Run(Empty, actions).jobs[event].assessment
  {
    RunKeepsInv(Empty, actions);
    assert JobOk(Run(Empty, actions), event, Run(Empty, actions).jobs[event]);
  }

  /** A job makes at most four saves that ask for a retry, and at most five saves in all. */
  lemma SavesBounded(actions: seq<Action>, event: Id)
    requires event in Run(Empty, actions).jobs
    ensures Saves(Run(Empty, actions).log, event, true) <= 4
    ensures Saves(Run(Empty, actions).log, event, true) + Saves(Run(Empty, actions).log, event, false) <= 5
  {
    RunKeepsInv(Empty, actions);
    assert JobOk(Run(Empty, actions), event, Run(Empty, actions).jobs[event]);
  }

  /** A completed, blocked or reviewed job is never claimed or changed again. */
  lemma SettledStays(s: State, a: Action, event: Id)
    requires Inv(s) && event in s.jobs && Settled(s.jobs[event])
    ensures event in Next(s, a).jobs && Next(s, a).jobs[event] == s.jobs[event]
    ensures !Claimable(s.now, s.assessments, s.jobs[event])
  {
    assert JobOk(s, event, s.jobs[event]);
  }

  lemma {:induction false} SettledForever(s: State, actions: seq<Action>, event: Id)
    requires Inv(s) && event in s.jobs && Settled(s.jobs[event])
    ensures event in Run(s, actions).jobs && Run(s, actions).jobs[event] == s.jobs[event]
  {
    if actions != [] {
      var front := actions[..|actions| - 1];
      SettledForever(s, front, event);
      RunKeepsInv(s, front);
      SettledStays(Run(s, front), actions[|actions| - 1], event);
    }
  }

  lemma DecidedStep(s: State, a: Action, assessment: Id)
    requires assessment in s.assessments && s.assessments[assessment].verdict != Proposed
    ensures assessment in Next(s, a).assessments
    ensures Next(s, a).assessments[assessment].content == s.assessments[assessment].content
    ensures Next(s, a).assessments[assessment].verdict != Proposed
  {
    hide SweptJobs, Delay;
  }

  /** Once a person has moved an assessment on, no run changes what it says or makes it proposed again. */
  lemma {:induction false} DecidedNeverOverwritten(s: State, actions: seq<Action>, assessment: Id)
    requires assessment in s.assessments && s.assessments[assessment].verdict != Proposed
    ensures assessment in Run(s, actions).assessments
    ensures Run(s, actions).assessments[assessment].content == s.assessments[assessment].content
    ensures Run(s, actions).assessments[assessment].verdict != Proposed
  {
    hide Next;
    if actions != [] {
      var front := actions[..|actions| - 1];
      DecidedNeverOverwritten(s, front, assessment);
      DecidedStep(Run(s, front), actions[|actions| - 1], assessment);
    }
  }

  // ---------------------------------------------------------------------------------------------
  // Final verdicts

  predicate Final(v: Verdict) { v == Accepted || v == Rejected }

  /** No review that read the assessment while it was open has another verdict still to write. */
  predicate NoRival(s: State, assessment: Id)
    requires assessment in s.assessments
  {
    forall r <- s.reviews :: s.reviews[r].assessment == assessment ==> s.reviews[r].decision == s.assessments[assessment].verdict
  }

  predicate Settles(s: State, assessment: Id, v: Verdict) {
    assessment in s.assessments && s.assessments[assessment].verdict == v && NoRival(s, assessment)
  }

  lemma {:induction false} NoRivalLasts(s: State, actions: seq<Action>, assessment: Id, v: Verdict)
    requires Final(v) && Settles(s, assessment, v)
    ensures Settles(Run(s, actions), assessment, v)
    ensures Run(s, actions).assessments[assessment] == s.assessments[assessment]
  {
    if actions != [] {
      NoRivalLasts(s, actions[..|actions| - 1], assessment, v);
      NoRivalStep(Run(s, actions[..|actions| - 1]), actions[|actions| - 1], assessment, v);
    }
  }

  lemma NoRivalStep(s: State, a: Action, assessment: Id, v: Verdict)
    requires Final(v) && Settles(s, assessment, v)
    ensures Settles(Next(s, a), assessment, v)
    ensures Next(s, a).assessments[assessment] == s.assessments[assessment]
  {
  }

  /**
   * An accepted or rejected assessment keeps its verdict in every run exactly when no review that
   * read it as open is still to write another one.
   */
  lemma VerdictStaysIffNoRival(s: State, assessment: Id)
    requires assessment in s.assessments && Final(s.assessments[assessment].verdict)
    ensures (forall actions :: assessment in Run(s, actions).assessments
                            && Run(s, actions).assessments[assessment] == s.assessments[assessment])
       <==> NoRival(s, assessment)
  {
    if NoRival(s, assessment) {
      forall actions ensures assessment in Run(s, actions).assessments
        && Run(s, actions).assessments[assessment] == s.assessments[assessment]
      {
        NoRivalLasts(s, actions, assessment, s.assessments[assessment].verdict);
      }
    } else {
      var r :| r in s.reviews && s.reviews[r].assessment == assessment && s.reviews[r].decision != s.assessments[assessment].verdict;
      assert [EndReview(r)][..0] == [];
      assert Run(s, [EndReview(r)]) == EndReviewStep(s, r);
      assert Run(s, [EndReview(r)]).assessments[assessment] != s.assessments[assessment];
    }
  }

  /** Two people read the same open assessment; the later write turns the earlier verdict around. */
  lemma ReviewsRace(s: State, assessment: Id)
    requires assessment in s.assessments && Reviewable(s.assessments[assessment])
    ensures
      var n := s.nextId;
      var both := Next(Next(s, BeginReview(assessment, Accepted)), BeginReview(assessment, Rejected));
      var first := Next(both, EndReview(n));
      && assessment in first.assessments && first.assessments[assessment].verdict == Accepted
      && assessment in Next(first, EndReview(n + 1)).assessments
      && Next(first, EndReview(n + 1)).assessments[assessment].verdict == Rejected
  {
  }

  lemma RunThree(s: State, a: Action, b: Action, c: Action)
    ensures Run(s, [a, b, c]) == Next(Next(Next(s, a), b), c)
  {
    hide Next;
    assert [a, b, c][..2] == [a, b] && [a, b][..1] == [a] && [a][..0] == [];
    assert Run(s, [a]) == Next(Run(s, []), a);
    assert Run(s, [a, b]) == Next(Run(s, [a]), b);
  }

  lemma {:induction false} RunAppend(s: State, xs: seq<Action>, ys: seq<Action>)
    ensures Run(s, xs + ys) == Run(Run(s, xs), ys)
  {
    hide Next;
    if ys == [] {
      assert xs + ys == xs;
    } else {
      RunAppend(s, xs, ys[..|ys| - 1]);
      assert (xs + ys)[..|xs + ys| - 1] == xs + ys[..|ys| - 1];
    }
  }

  lemma RunOne(s: State, a: Action)
    ensures Run(s, [a]) == Next(s, a)
  {
    assert [a][..0] == [];
  }

  lemma SavedIsOpen(event: Id, caseId: Id, report: Report)
    ensures
      var s := Next(Next(Next(Empty, Request(event, caseId)), Claim(event)), Save(1, report));
      s.nextId == 2 && 0 in s.assessments && Reviewable(s.assessments[0])
  {
    var asked := Next(Empty, Request(event, caseId));
    assert Claimable(asked.now, asked.assessments, asked.jobs[event]);
    var claimed := Next(asked, Claim(event));
    assert CanPublish(claimed, 1);
  }

  /** From the empty tables: a scan is analysed, two people read, and an accepted assessment is rejected. */
  lemma VerdictCanTurn(event: Id, caseId: Id, report: Report)
    ensures
      var saved := [Request(event, caseId), Claim(event), Save(1, report)];
      var before := saved + [BeginReview(0, Accepted), BeginReview(0, Rejected), EndReview(2)];
      && 0 in Run(Empty, before).assessments && Run(Empty, before).assessments[0].verdict == Accepted
      && 0 in Run(Empty, before + [EndReview(3)]).assessments
      && Run(Empty, before + [EndReview(3)]).assessments[0].verdict == Rejected
  {
    hide Next, Run;
    var saved := [Request(event, caseId), Claim(event), Save(1, report)];
    var race := [BeginReview(0, Accepted), BeginReview(0, Rejected), EndReview(2)];
    RunThree(Empty, saved[0], saved[1], saved[2]);
    RunAppend(Empty, saved, race);
    RunThree(Run(Empty, saved), race[0], race[1], race[2]);
    RunAppend(Empty, saved + race, [EndReview(3)]);
    RunOne(Run(Empty, saved + race), EndReview(3));
    SavedIsOpen(event, caseId, report);
    ReviewsRace(Run(Empty, saved), 0);
  }

  // ---------------------------------------------------------------------------------------------
  // Progress

  /** What a worker that is not interrupted does with a job: claim it and save its analysis at once. */
  ghost function ClaimAndSave(s: State, event: Id, report: Report): State {
    Next(Next(s, Claim(event)), Save(s.nextId, report))
  }

  /** One uninterrupted round on a job: wait, sweep, claim it, and save what the analysis gave. */
  ghost function Round(s: State, event: Id, wait: nat, report: Report): State {
    ClaimAndSave(Next(Next(s, Tick(wait)), Sweep), event, report)
  }

  /** A wait after which neither back-off nor lease can hold the job any longer. */
  function Wait(job: Job): nat {
    job.availableAt + if job.leaseUntil.Some? then job.leaseUntil.value else 0
  }

  lemma ClaimAndSaveProgress(s: State, event: Id, report: Report)
    requires Inv(s) && event in s.jobs && Claimable(s.now, s.assessments, s.jobs[event])
    ensures event in ClaimAndSave(s, event, report).jobs
    ensures ClaimAndSave(s, event, report).jobs[event].state == SavedState(s.jobs[event].attempts + 1, report)
    ensures ClaimAndSave(s, event, report).jobs[event].attempts == s.jobs[event].attempts + 1
  {
    var t := ClaimStep(s, event);
    assert CanPublish(t, s.nextId);
  }

  lemma RoundKeepsInv(s: State, event: Id, wait: nat, report: Report)
    requires Inv(s)
    ensures Inv(Round(s, event, wait, report))
  {
    StepKeepsInv(s, Tick(wait));
    StepKeepsInv(Next(s, Tick(wait)), Sweep);
    var t := Next(Next(s, Tick(wait)), Sweep);
    StepKeepsInv(t, Claim(event));
    StepKeepsInv(Next(t, Claim(event)), Save(t.nextId, report));
  }

  /** A round either settles the job or uses up one attempt; at the fifth attempt it settles it. */
  lemma RoundProgress(s: State, event: Id, wait: nat, report: Report)
    requires Inv(s) && event in s.jobs && !Settled(s.jobs[event]) && wait >= Wait(s.jobs[event])
    ensures event in Round(s, event, wait, report).jobs
    ensures
      var job := Round(s, event, wait, report).jobs[event];
      Settled(job) || (job.state == Retry && job.attempts == s.jobs[event].attempts + 1 && job.attempts < MAX_ATTEMPTS && report.model == Fallback)
  {
    assert JobOk(s, event, s.jobs[event]);
    var waited := Next(s, Tick(wait));
    StepKeepsInv(s, Tick(wait));
    StepKeepsInv(waited, Sweep);
    var t := Next(waited, Sweep);
    assert t.jobs[event] == SweptJob(waited.now, s.assessments, s.jobs[event]);
    if Sweepable(waited.now, s.assessments, s.jobs[event]) {
      StepKeepsInv(t, Claim(event));
      SettledStays(t, Claim(event), event);
      SettledStays(Next(t, Claim(event)), Save(t.nextId, report), event);
    } else {
      ClaimAndSaveProgress(t, event, report);
    }
  }

  /** The state after rounds with the given reports, each waiting long enough for the job. */
  ghost function Rounds(s: State, event: Id, reports: seq<Report>): State {
    if reports == [] then s
    else
      var before := Rounds(s, event, reports[..|reports| - 1]);
      if event in before.jobs && !Settled(before.jobs[event])
      then Round(before, event, Wait(before.jobs[event]), reports[|reports| - 1])
      else before
  }

  /** From any reachable state five uninterrupted rounds settle a job, whatever the analyses answer. */
  lemma {:induction false} FiveRoundsSettle(s: State, event: Id, reports: seq<Report>)
    requires Inv(s) && event in s.jobs
    ensures Inv(Rounds(s, event, reports)) && event in Rounds(s, event, reports).jobs
    ensures Settled(Rounds(s, event, reports).jobs[event])
         || Rounds(s, event, reports).jobs[event].attempts >= |reports|
    ensures !Settled(Rounds(s, event, reports).jobs[event]) && reports != [] ==>
      Rounds(s, event, reports).jobs[event].attempts < MAX_ATTEMPTS
    ensures |reports| >= 5 ==> Settled(Rounds(s, event, reports).jobs[event])
  {
    if reports != [] {
      var front := reports[..|reports| - 1];
      FiveRoundsSettle(s, event, front);
      var before := Rounds(s, event, front);
      if !Settled(before.jobs[event]) {
        RoundKeepsInv(before, event, Wait(before.jobs[event]), reports[|reports| - 1]);
        RoundProgress(before, event, Wait(before.jobs[event]), reports[|reports| - 1]);
      }
    }
  }
}
