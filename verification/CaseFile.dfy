/** The case's records as the services change them, one transaction at a time. */
module CaseFile {
  import opened Prelude
  import C = Constraints
  import F = Fulfilment

  class Case {
    var now: nat
    var caseState: F.CaseState
    var plans: seq<F.Plan>
    var handoffs: seq<F.Handoff>
    var rows: seq<C.Row>
    var sources: C.Sources
    var outcome: Option<F.Outcome>

    ghost function State(): F.State
      reads this
    {
      F.State(now, caseState, plans, handoffs, rows, sources, outcome)
    }

    constructor (sources: C.Sources)
      ensures State() == F.Opened(sources)
    {
      now, caseState, plans, handoffs, rows, outcome := 0, F.Intake, [], [], [], None;
      this.sources := sources;
    }

    /** Counts the rows of a part list and derives the status they mean. */
    method PartsStatus(parts: seq<C.Readiness>) returns (status: Option<C.Status>)
      ensures status == C.Derived(C.Sources(parts, [], [], [], [], []), C.Parts, 0)
    {
      var total, ready, unavailable := 0, 0, 0;
      for i := 0 to |parts|
        invariant total == C.LiveParts(parts[..i])
        invariant ready == C.CountReadiness(parts[..i], C.Ready)
        invariant unavailable == C.CountReadiness(parts[..i], C.Unavailable)
      {
        assert parts[..i + 1][..i] == parts[..i];
        if parts[i] != C.CancelledPart { total := total + 1; }
        if parts[i] == C.Ready { ready := ready + 1; }
        if parts[i] == C.Unavailable { unavailable := unavailable + 1; }
      }
      assert parts[..|parts|] == parts;
      status := if total == 0 then None else Some(C.DeriveParts(total, ready, unavailable));
    }

    /** Refreshes the six projections in order. */
    method SyncOperationalConstraints()
      modifies `rows
      ensures State() == F.RefreshRows(old(State()))
    {
      hide C.Upsert, C.Delete;
      for i := 0 to |C.KINDS|
        invariant unchanged(`now) && unchanged(`sources)
        invariant C.Sync(old(rows), sources, now) == C.SyncKinds(rows, C.KINDS[i..], sources, now)
      {
        var kind := C.KINDS[i];
        assert C.KINDS[i..][0] == kind && C.KINDS[i..][1..] == C.KINDS[i + 1..];
        var derived := C.Derived(sources, kind, now);
        if kind == C.Parts { derived := PartsStatus(sources.parts); }
        match derived
        case None => rows := C.Delete(rows, kind);
        case Some(status) => rows := C.Upsert(rows, kind, status);
      }
    }

    /** Supersedes the open plans and inserts the next version with its candidates. */
    method GenerateFulfillmentPlan(ranked: seq<ActorId>) returns (ok: bool)
      modifies `plans
      ensures ok == F.Distinct(ranked)
      ensures State() == F.GeneratePlan(old(State()), ranked)
    {
      var candidates: map<ActorId, F.Candidate> := map[];
      for i := 0 to |ranked|
        invariant candidates == F.Ranked(ranked[..i])
        invariant forall a :: a in candidates <==> a in ranked[..i]
        invariant F.Distinct(ranked[..i])
      {
        assert ranked[..i + 1][..i] == ranked[..i];
        if ranked[i] in candidates {
          var j :| 0 <= j < i && ranked[..i][j] == ranked[i];
          return false;
        }
        candidates := candidates[ranked[i] := F.Candidate(i + 1, F.Proposed)];
      }
      assert ranked[..|ranked|] == ranked;
      var clear := true;
      for i := 0 to |rows|
        invariant clear == C.AllClear(rows[..i])
      {
        if !C.Clear(rows[i]) { clear := false; }
      }
      assert rows[..|rows|] == rows;
      var superseded := seq(|plans|, i requires 0 <= i < |plans| reads this => F.Supersede(plans[i]));
      var status := if ranked != [] && clear then F.Feasible else F.PlanBlocked;
      plans := superseded + [F.Plan(status, None, None, candidates, [])];
      ok := true;
    }

    /** A participant's answer to the latest plan; none when there is no plan or the actor is no candidate. */
    method SyncParticipantDecision(actor: ActorId, accepted: bool) returns (p: Option<nat>)
      modifies `plans
      ensures State() == F.Next(old(State()), F.Decide(actor, accepted))
      ensures p.Some? <==> F.Latest(old(plans)).Some? && actor in old(plans)[F.Latest(old(plans)).value].candidates
    {
      p := F.Latest(plans);
      if p.None? || actor !in plans[p.value].candidates { return None; }
      var plan := plans[p.value];
      var participation := if accepted then F.Accepted else F.Declined;
      var candidates := plan.candidates[actor := plan.candidates[actor].(participation := participation)];
      plan := plan.(decisions := F.Decided(plan.decisions, actor, accepted), candidates := candidates);
      if accepted {
        plan := plan.(candidates := F.ExpireOthers(candidates, actor));
        plan := F.Reconcile(plan, actor, C.AllClear(rows));
      } else if plan.status == F.Feasible || plan.status == F.PlanAccepted || plan.status == F.PlanBlocked {
        plan := plan.(status := F.PlanBlocked, recovery := F.FirstTime(plan.recovery, now));
        if plan.selected == Some(actor) { plan := plan.(selected := None); }
      }
      plans := plans[p.value := plan];
    }

    method UpsertNetworkHandoff(key: F.HandoffKey, status: F.HandoffStatus)
      modifies `plans, `handoffs
      ensures State() == F.Next(old(State()), F.UpsertHandoff(key, status))
    {
      var latest := F.Latest(plans);
      handoffs := F.PutHandoff(handoffs, key, latest, status);
      if latest.Some? {
        var plan := plans[latest.value];
        if status == F.HandoffDeclined || status == F.HandoffFailed {
          if !F.Closed(plan.status) { plan := plan.(status := F.PlanBlocked, recovery := F.FirstTime(plan.recovery, now)); }
        } else {
          var actor := F.LatestAccepted(plan.decisions);
          if actor.Some? { plan := F.Reconcile(plan, actor.value, C.AllClear(rows)); }
        }
        plans := plans[latest.value := plan];
      }
    }

    /** What still stands between the case and its completion. */
    method CompletionBlockers(constraints: seq<C.Row>, considered: seq<F.Handoff>) returns (blockers: seq<F.Blocker>)
      ensures blockers == F.CompletionBlockers(constraints, considered)
    {
      blockers := [];
      for i := 0 to |constraints|
        invariant blockers == F.ConstraintBlockers(constraints[..i])
      {
        assert constraints[..i + 1][..i] == constraints[..i];
        if C.Clear(constraints[i]) { continue; }
        blockers := blockers + [F.ConstraintBlocker(constraints[i])];
      }
      assert constraints[..|constraints|] == constraints;
      for i := 0 to |considered|
        invariant blockers == F.ConstraintBlockers(constraints) + F.HandoffBlockers(considered[..i])
      {
        assert considered[..i + 1][..i] == considered[..i];
        if F.Done(considered[i]) { continue; }
        blockers := blockers + [F.HandoffBlocker(considered[i])];
      }
      assert considered[..|considered|] == considered;
    }

    /** Records the outcome when nothing blocks. */
    method RecordCompletionOutcome() returns (ok: bool)
      modifies `plans, `outcome
      ensures ok == F.ReadyToComplete(old(State()))
      ensures State() == if ok then F.RecordCompletion(old(State())) else old(State())
    {
      var latest := F.Latest(plans);
      var considered := F.ConsideredHandoffs(handoffs, latest);
      var blockers := CompletionBlockers(rows, considered);
      if (latest.Some? && plans[latest.value].status != F.PlanAccepted) || blockers != [] { return false; }
      outcome := Some(F.Outcome(true, latest, rows, considered));
      if latest.Some? {
        plans := plans[latest.value := plans[latest.value].(status := F.PlanCompleted, recovery := None)];
      }
      ok := true;
    }

    method RecordCancellationOutcome()
      modifies `plans, `outcome
      ensures State() == F.RecordCancellation(old(State()))
    {
      var latest := F.Latest(plans);
      if latest.None? {
        outcome := Some(F.Outcome(false, None, rows, []));
      } else {
        outcome := Some(F.Outcome(false, latest, rows, F.HandoffsOf(handoffs, latest.value)));
        if plans[latest.value].status != F.PlanCompleted {
          plans := plans[latest.value := plans[latest.value].(status := F.PlanCancelled)];
        }
      }
    }

    /** The completing part of a transition; a refusal puts the refreshed projection back. */
    method Complete() returns (ok: bool)
      modifies this
      ensures match F.CompleteCase(old(State())) case Ok(t) => ok && State() == t case Err(_) => !ok && State() == old(State())
    {
      hide F.ReadyToComplete, F.RecordCompletion, C.Sync;
      var savedRows := rows;
      SyncOperationalConstraints();
      ok := RecordCompletionOutcome();
      if ok { caseState := F.CaseCompleted; } else { rows := savedRows; }
    }

    method Cancel()
      modifies this
      ensures State() == F.CancelCase(old(State()))
    {
      hide F.RecordCancellation, C.Sync;
      caseState := F.CaseCancelled;
      sources := sources.(appointments := F.CancelAppointments(sources.appointments));
      SyncOperationalConstraints();
      RecordCancellationOutcome();
    }

    /** One transition with all its consequences, or an error and no change at all. */
    method TransitionCase(to: F.CaseState, role: F.Role, byTransport: bool) returns (error: Option<F.Error>)
      modifies this
      ensures State() == F.Next(old(State()), F.Transition(to, role, byTransport))
      ensures match F.TransitionCase(old(State()), to, role, byTransport) case Ok(_) => error == None case Err(e) => error == Some(e)
    {
      hide F.CompleteCase, F.CancelCase, F.Permission, F.FinishProviderWork;
      if caseState == to { return None; }
      error := F.Permission(caseState, to, role, byTransport);
      if error.Some? { return; }
      if to == F.CaseCompleted {
        CompletionFailsOneWay(State());
        var ok := Complete();
        if !ok { error := Some(F.FulfillmentNotComplete); }
      } else if to == F.CaseCancelled {
        Cancel();
      } else {
        if to == F.PaymentPending { handoffs := F.FinishProviderWork(handoffs); }
        caseState := to;
      }
    }

    static lemma CompletionFailsOneWay(s: F.State)
      ensures F.CompleteCase(s).Err? ==> F.CompleteCase(s).error == F.FulfillmentNotComplete
    {
    }
  }
}
