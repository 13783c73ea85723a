/** When a job may be claimed again: never under a running lease, never before its back-off is over. */
module AnalysisPacing {
  import opened Prelude
  import opened AnalysisQueue
  import opened AnalysisProofs

  // ---------------------------------------------------------------------------------------------
  // One claim

  /** A claim takes a job exactly when it is waiting and due, or its lease has run out, and nobody has decided it. */
  lemma ClaimTakesExactly(s: State, event: Id)
    ensures Next(s, Claim(event)) != s
       <==> && event in s.jobs
            && var job := s.jobs[event];
            && (|| ((job.state == Pending || job.state == Retry) && job.availableAt <= s.now)
                || (job.state == Processing && job.leaseUntil.Some? && job.leaseUntil.value <= s.now))
            && !(job.assessment in s.assessments && s.assessments[job.assessment].verdict != Proposed)
    ensures Next(s, Claim(event)) != s ==>
      && event in Next(s, Claim(event)).jobs
      && Next(s, Claim(event)).jobs[event] == s.jobs[event].(
           state := Processing, token := Some(s.nextId), leaseUntil := Some(s.now + 120), attempts := s.jobs[event].attempts + 1)
  {
    if Next(s, Claim(event)) != s { assert Next(s, Claim(event)) == ClaimStep(s, event); }
    if event in s.jobs { assert ClaimStep(s, event).nextId != s.nextId; }
  }

  /** A worker whose lease is running keeps its job: no claim touches it. */
  lemma RunningLeaseIsSafe(s: State, event: Id)
    requires event in s.jobs && s.jobs[event].state == Processing
    requires s.jobs[event].leaseUntil.Some? && s.now < s.jobs[event].leaseUntil.value
    ensures Next(s, Claim(event)) == s
  {
    ClaimTakesExactly(s, event);
  }

  /** A sweep closes exactly the unfinished jobs nobody is working on whose assessment a person decided. */
  lemma SweepClosesExactly(s: State, event: Id)
    requires event in s.jobs
    ensures event in Next(s, Sweep).jobs
    ensures var job := s.jobs[event];
      Next(s, Sweep).jobs[event] ==
        if && (job.state == Pending || job.state == Retry || job.state == Processing)
           && (job.leaseUntil.None? || job.leaseUntil.value <= s.now)
           && job.assessment in s.assessments && s.assessments[job.assessment].verdict != Proposed
        then job.(state := Reviewed, token := None, leaseUntil := None) else job
  {
  }

  /** The token is the one on the job's row. */
  ghost predicate Holds(s: State, token: Id) {
    token in s.leases && s.leases[token].event in s.jobs && s.jobs[s.leases[token].event].token == Some(token)
  }

  /**
   * A save lands exactly for the token on the row, before its lease runs out and before anybody decides;
   * an analysis by the model completes the job, a fallback asks for another attempt up to the fifth.
   */
  lemma SaveWritesExactly(s: State, token: Id, report: Report)
    requires token in s.leases && s.leases[token].event in s.jobs
    ensures
      var lease := s.leases[token];
      var t, job := Next(s, Save(token, report)), s.jobs[lease.event];
      var lands := && Holds(s, token) && job.leaseUntil.Some? && s.now < job.leaseUntil.value
                   && !(job.assessment in s.assessments && s.assessments[job.assessment].verdict != Proposed);
      && (!lands ==> t == s)
      && (lands ==>
        && t.jobs.Keys == s.jobs.Keys && (forall e :: e in s.jobs && e != lease.event ==> t.jobs[e] == s.jobs[e])
        && t.jobs[lease.event] == Job(job.caseId, job.assessment,
             if report.model == Ai then CompletedAi else if lease.attempt < 5 then Retry else CompletedFallback,
             job.attempts, s.now + Delay(lease.attempt), None, None, Some(report))
        && t.assessments == s.assessments[job.assessment := Assessment(Proposed, report)]
        && |t.log| == |s.log| + 1
        && t.log[|s.log|] == Published(lease.event, token, s.now, report.model == Fallback && lease.attempt < 5))
  {
    if CanPublish(s, token) { assert Next(s, Save(token, report)) == SaveStep(s, token, report); }
  }

  /** A block lands for the token on the row, even after its lease, and leaves no result behind. */
  lemma BlockWritesExactly(s: State, token: Id)
    requires token in s.leases && s.leases[token].event in s.jobs
    ensures
      var t, event := Next(s, Block(token)), s.leases[token].event;
      && (!Holds(s, token) ==> t == s)
      && (Holds(s, token) ==>
        && t.jobs == s.jobs[event := t.jobs[event]] && t.assessments == s.assessments
        && t.jobs[event] == Job(s.jobs[event].caseId, s.jobs[event].assessment, Blocked, s.jobs[event].attempts,
                                s.jobs[event].availableAt, None, None, None))
  {
  }

  /** A review may begin while the assessment is proposed or merely looked at, and its write sets the verdict alone. */
  lemma ReviewWritesExactly(s: State, a: Id, decision: Decision, review: Id)
    ensures
      var t := Next(s, BeginReview(a, decision));
      var open := a in s.assessments && s.assessments[a].verdict in {Proposed, ReviewedByHuman};
      && t.jobs == s.jobs && t.assessments == s.assessments
      && t.reviews == if open then s.reviews[s.nextId := Review(a, decision)] else s.reviews
    ensures review in s.reviews ==>
      var t, r := Next(s, EndReview(review)), s.reviews[review];
      && t.jobs == s.jobs && t.assessments.Keys == s.assessments.Keys
      && (forall x :: x in s.assessments && x != r.assessment ==> t.assessments[x] == s.assessments[x])
      && (r.assessment in s.assessments ==> t.assessments[r.assessment] == s.assessments[r.assessment].(verdict := r.decision))
  {
  }

  /** A request makes a pending job, due at once, unless there is one for the event. */
  lemma RequestWritesExactly(s: State, event: Id, caseId: Id)
    ensures
      var t := Next(s, Request(event, caseId));
      t.jobs == (if event in s.jobs then s.jobs else s.jobs[event := Job(caseId, s.nextId, Pending, 0, s.now, None, None, None)])
      && t.assessments == s.assessments
  {
  }

  // ---------------------------------------------------------------------------------------------
  // Claims over a run

  /** How often a job has been claimed. */
  function Claims(log: seq<Entry>, event: Id): nat {
    if log == [] then 0
    else
      var last := log[|log| - 1];
      Claims(log[..|log| - 1], event) + if last.Claimed? && last.event == event then 1 else 0
  }

  /** A claim made now may follow what last happened to the job. */
  predicate MayFollow(before: Option<Entry>, claims: nat, at: int) {
    match before
    case None => true
    case Some(Claimed(_, _, until)) => until <= at
    case Some(Published(_, _, saved, retry)) => retry && saved + Delay(claims) <= at
    case _ => false
  }

  ghost predicate Spaced(log: seq<Entry>) {
    forall k :: 0 <= k < |log| && log[k].Claimed? ==>
      MayFollow(Latest(log[..k], log[k].event), Claims(log[..k], log[k].event), log[k].until - 120)
  }

  /** What a job's row says about its history. */
  ghost predicate JobPaced(s: State, event: Id, job: Job) {
    var last := Latest(s.log, event);
    && job.attempts == Claims(s.log, event)
    && (job.state == Pending ==> last.None?)
    && (job.state == Retry ==>
        last.Some? && last.value.Published? && last.value.retry && job.availableAt == last.value.at + Delay(job.attempts))
  }

  ghost predicate Paced(s: State) {
    Spaced(s.log) && forall e :: e in s.jobs ==> JobPaced(s, e, s.jobs[e])
  }

  lemma AppendClaims(log: seq<Entry>, e: Entry, event: Id)
    ensures Claims(log + [e], event) == Claims(log, event) + if e.Claimed? && e.event == event then 1 else 0
    ensures Latest(log + [e], event) == if e.event == event then Some(e) else Latest(log, event)
  {
    assert (log + [e])[..|log|] == log;
  }

  lemma AppendSpaced(log: seq<Entry>, e: Entry)
    requires Spaced(log)
    requires e.Claimed? ==> MayFollow(Latest(log, e.event), Claims(log, e.event), e.until - 120)
    ensures Spaced(log + [e])
  {
    hide MayFollow, Latest, Claims;
    var more := log + [e];
    forall k | 0 <= k < |more| && more[k].Claimed?
      ensures MayFollow(Latest(more[..k], more[k].event), Claims(more[..k], more[k].event), more[k].until - 120)
    {
      assert more[..k] == log[..k];
      if k == |log| { assert log[..k] == log; }
    }
  }

  lemma {:induction false} NoClaims(log: seq<Entry>, event: Id)
    requires forall k :: 0 <= k < |log| ==> log[k].event != event
    ensures Claims(log, event) == 0 && Latest(log, event) == None
  {
    if log != [] { NoClaims(log[..|log| - 1], event); }
  }

  lemma ClaimPaced(s: State, event: Id)
    requires Inv(s) && Paced(s) && event in s.jobs && Claimable(s.now, s.assessments, s.jobs[event])
    ensures Paced(ClaimStep(s, event))
  {
    var t := ClaimStep(s, event);
    var entry := t.log[|s.log|];
    assert JobOk(s, event, s.jobs[event]) && JobPaced(s, event, s.jobs[event]);
    hide Inv, JobOk;
    AppendSpaced(s.log, entry);
    hide Spaced, Claims, Latest, Delay;
    forall e | e in t.jobs ensures JobPaced(t, e, t.jobs[e]) {
      AppendClaims(s.log, entry, e);
      assert JobPaced(s, e, s.jobs[e]);
    }
  }

  lemma BlockPaced(s: State, token: Id)
    requires Paced(s) && Owns(s, token)
    ensures Paced(BlockStep(s, token))
  {
    var t := BlockStep(s, token);
    var entry := t.log[|s.log|];
    AppendSpaced(s.log, entry);
    hide Spaced, Claims, Latest, Delay;
    forall e | e in t.jobs ensures JobPaced(t, e, t.jobs[e]) {
      AppendClaims(s.log, entry, e);
      assert JobPaced(s, e, s.jobs[e]);
    }
  }

  lemma SavePaced(s: State, token: Id, report: Report)
    requires Inv(s) && Paced(s) && CanPublish(s, token)
    ensures Paced(SaveStep(s, token, report))
  {
    var event := s.leases[token].event;
    assert JobOk(s, event, s.jobs[event]);
    hide Inv, JobOk;
    var t := SaveStep(s, token, report);
    var entry := t.log[|s.log|];
    AppendSpaced(s.log, entry);
    hide Spaced, Claims, Latest, Delay;
    forall e | e in t.jobs ensures JobPaced(t, e, t.jobs[e]) {
      AppendClaims(s.log, entry, e);
      assert JobPaced(s, e, s.jobs[e]);
    }
  }

  lemma StepPaced(s: State, a: Action)
    requires Inv(s) && Paced(s)
    ensures Paced(Next(s, a))
  {
    var t := Next(s, a);
    match a
    case Request(event, caseId) =>
      if event !in s.jobs { NoClaims(s.log, event); }
      forall e | e in t.jobs ensures JobPaced(t, e, t.jobs[e]) { if e != event { assert JobPaced(s, e, s.jobs[e]); } }
    case Claim(event) => if event in s.jobs && Claimable(s.now, s.assessments, s.jobs[event]) { ClaimPaced(s, event); }
    case Block(token) => if Owns(s, token) { BlockPaced(s, token); }
    case Save(token, report) => if CanPublish(s, token) { SavePaced(s, token, report); }
    case _ =>
      hide Inv, Spaced, Claims, Latest, Delay;
      forall e | e in t.jobs ensures JobPaced(t, e, t.jobs[e]) { assert JobPaced(s, e, s.jobs[e]); }
  }

  lemma {:induction false} RunPaced(s: State, actions: seq<Action>)
    requires Inv(s) && Paced(s)
    ensures Paced(Run(s, actions))
  {
    if actions != [] {
      hide Inv, Paced, Next;
      var front := actions[..|actions| - 1];
      RunPaced(s, front);
      RunKeepsInv(s, front);
      StepPaced(Run(s, front), actions[|actions| - 1]);
    }
  }

  // ---------------------------------------------------------------------------------------------
  // Main results

  lemma {:induction false} LatestIsLast(log: seq<Entry>, event: Id, k: nat)
    requires k < |log| && log[k].event == event
    ensures Latest(log, event).Some?
    ensures exists m :: k <= m < |log| && log[m].event == event && Latest(log, event) == Some(log[m])
  {
    var n := |log| - 1;
    if log[n].event == event {
      assert Latest(log, event) == Some(log[n]);
    } else {
      LatestIsLast(log[..n], event, k);
    }
  }

  lemma {:induction false} ClaimsApart(log: seq<Entry>, k: nat, l: nat)
    requires Spaced(log) && k < l < |log| && log[k].Claimed? && log[l].Claimed? && log[l].event == log[k].event
    requires forall m :: k < m < l && log[m].event == log[k].event ==> !IsWrite(log[m])
    ensures log[l].until >= log[k].until + 120
    decreases l
  {
    hide Claims, Delay;
    LatestIsLast(log[..l], log[k].event, k);
    var m :| k <= m < l && log[m].event == log[k].event && Latest(log[..l], log[k].event) == Some(log[m]);
    assert MayFollow(Latest(log[..l], log[l].event), Claims(log[..l], log[l].event), log[l].until - 120);
    if m > k { ClaimsApart(log, k, m); }
  }

  /**
   * Over every run: between two claims of one job without a write in between, a whole lease has
   * passed. Nobody takes a job from a worker whose lease is still running.
   */
  lemma LeasesNeverOverlap(actions: seq<Action>, k: nat, l: nat)
    requires
      var log := Run(Empty, actions).log;
      && k < l < |log| && log[k].Claimed? && log[l].Claimed? && log[l].event == log[k].event
      && forall m :: k < m < l && log[m].event == log[k].event ==> !IsWrite(log[m])
    ensures Run(Empty, actions).log[l].until >= Run(Empty, actions).log[k].until + 120
  {
    RunPaced(Empty, actions);
    hide Run;
    ClaimsApart(Run(Empty, actions).log, k, l);
  }

  /**
   * Over every run: the claim that follows a save that asked for a retry comes only after the back-off
   * for the number of claims so far.
   */
  lemma RetryWaitsForBackoff(actions: seq<Action>, k: nat, l: nat)
    requires
      var log := Run(Empty, actions).log;
      && k < l < |log| && log[k].Published? && log[l].Claimed? && log[l].event == log[k].event
      && forall m :: k < m < l ==> log[m].event != log[k].event
    ensures
      var log := Run(Empty, actions).log;
      && log[k].retry
      && log[l].until - 120 >= log[k].at + Delay(Claims(log[..k], log[k].event))
  {
    RunPaced(Empty, actions);
    hide Run, Delay;
    var log := Run(Empty, actions).log;
    LatestIsLast(log[..l], log[k].event, k);
    assert Latest(log[..l], log[l].event) == Some(log[k]);
    assert MayFollow(Latest(log[..l], log[l].event), Claims(log[..l], log[l].event), log[l].until - 120);
    ClaimsBetween(log, log[k].event, k, l);
  }

  lemma {:induction false} ClaimsBetween(log: seq<Entry>, event: Id, k: nat, l: nat)
    requires k < l <= |log| && !log[k].Claimed? && forall m :: k < m < l ==> log[m].event != event
    ensures Claims(log[..l], event) == Claims(log[..k], event)
    decreases l
  {
    assert log[..l][..l - 1] == log[..l - 1];
    if l > k + 1 { ClaimsBetween(log, event, k, l - 1); }
  }

  lemma {:induction false} PowerGrows(n: nat)
    ensures Pow2(n) > n
  {
    if n > 0 { PowerGrows(n - 1); }
  }

  /** The back-off starts at half a minute, doubles with every claim, and stops at an hour. */
  lemma BackoffDoubles(n: nat)
    requires n > 0
    ensures Delay(1) == 30 && Delay(n + 1) == Min(3600, 2 * Delay(n)) && 30 <= Delay(n) <= 3600
  {
    assert Pow2(n) == 2 * Pow2(n - 1);
    PowerGrows(n - 1);
    assert Pow2(0) == 1;
  }

  // ---------------------------------------------------------------------------------------------
  // What a finished job holds

  ghost predicate ResultFits(job: Job) {
    && (job.state == CompletedAi ==> job.result.Some? && job.result.value.model == Ai)
    && (job.state == CompletedFallback ==> job.result.Some? && job.result.value.model == Fallback && job.attempts >= 5)
    && (job.state == Retry ==> job.result.Some? && job.result.value.model == Fallback && job.attempts < 5)
  }

  lemma StepFits(s: State, a: Action)
    requires Inv(s) && forall e :: e in s.jobs ==> ResultFits(s.jobs[e])
    ensures forall e :: e in Next(s, a).jobs ==> ResultFits(Next(s, a).jobs[e])
  {
    if a.Save? && CanPublish(s, a.token) {
      assert JobOk(s, s.leases[a.token].event, s.jobs[s.leases[a.token].event]);
    }
  }

  lemma {:induction false} RunFits(actions: seq<Action>)
    ensures forall e :: e in Run(Empty, actions).jobs ==> ResultFits(Run(Empty, actions).jobs[e])
  {
    if actions != [] {
      hide Inv, Next, ResultFits;
      var front := actions[..|actions| - 1];
      RunFits(front);
      EmptyOk();
      RunKeepsInv(Empty, front);
      StepFits(Run(Empty, front), actions[|actions| - 1]);
    }
  }

  lemma EmptyOk()
    ensures Inv(Empty)
  {
  }

  /**
   * In every run: a job completed by the model stores the model's report; one completed by the fallback
   * stores a fallback report, and only after five claims; one that waits for a retry had fewer.
   */
  lemma OutcomeFitsReport(actions: seq<Action>, event: Id)
    requires event in Run(Empty, actions).jobs
    ensures
      var job := Run(Empty, actions).jobs[event];
      && (job.state == CompletedAi ==> job.result.Some? && job.result.value.model == Ai)
      && (job.state == CompletedFallback ==> job.result.Some? && job.result.value.model == Fallback && job.attempts >= 5)
      && (job.state == Retry ==> job.result.Some? && job.result.value.model == Fallback && job.attempts < 5)
      && job.attempts == Claims(Run(Empty, actions).log, event)
  {
    RunFits(actions);
    RunPaced(Empty, actions);
    assert JobPaced(Run(Empty, actions), event, Run(Empty, actions).jobs[event]);
  }
}
