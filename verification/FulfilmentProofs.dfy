/** Safety of plans over every run, and the exact condition of completing a case. */
module FulfilmentProofs {
  import opened Prelude
  import opened Fulfilment
  import C = Constraints
  import K = ConstraintsProofs

  // ---------------------------------------------------------------------------------------------
  // Decisions of one plan

  predicate OneDecisionEach(decisions: seq<Acceptance>) {
    forall i, j :: 0 <= i < j < |decisions| ==> decisions[i].actor != decisions[j].actor
  }

  /** A recorded decision is a candidate's, and shows in the candidate's participation. */
  predicate DecisionsMatch(plan: Plan) {
    forall d <- plan.decisions ::
      && d.actor in plan.candidates
      && plan.candidates[d.actor].participation == if d.accepted then Accepted else Declined
  }

  /** A candidate who answered has a recorded decision. */
  predicate AnswersRecorded(plan: Plan) {
    forall a <- plan.candidates ::
      && (plan.candidates[a].participation == Accepted ==> Acceptance(a, true) in plan.decisions)
      && (plan.candidates[a].participation == Declined ==> Acceptance(a, false) in plan.decisions)
  }

  predicate NoDecliner(plan: Plan) { forall d <- plan.decisions :: d.accepted }

  predicate SelectedAccepted(plan: Plan) {
    && plan.selected.Some? && plan.selected.value in plan.candidates
    && plan.candidates[plan.selected.value].participation == Accepted
    && Acceptance(plan.selected.value, true) in plan.decisions
  }

  predicate PlanOk(plan: Plan) {
    && OneDecisionEach(plan.decisions) && DecisionsMatch(plan) && AnswersRecorded(plan)
    && plan.status != Draft
    && (plan.recovery.Some? ==> plan.status == PlanBlocked || plan.status == Superseded || plan.status == PlanCancelled)
    && (plan.status == Feasible || plan.status == PlanAccepted || (plan.status == PlanBlocked && plan.recovery.None?) ==> NoDecliner(plan))
    && (plan.status == PlanAccepted ==> SelectedAccepted(plan))
  }

  lemma {:induction false} WithoutMembers(decisions: seq<Acceptance>, actor: ActorId)
    requires OneDecisionEach(decisions)
    ensures OneDecisionEach(Without(decisions, actor))
    ensures forall d :: d in Without(decisions, actor) <==> d in decisions && d.actor != actor
  {
    if decisions != [] {
      var rest := decisions[1..];
      WithoutMembers(rest, actor);
      assert decisions == [decisions[0]] + rest;
      var after := Without(rest, actor);
      forall j | 0 <= j < |after| ensures after[j].actor != decisions[0].actor {
        assert after[j] in after && after[j] in rest;
        var k :| 0 <= k < |rest| && rest[k] == after[j];
        assert decisions[k + 1] == after[j];
      }
    }
  }

  lemma DecidedMembers(decisions: seq<Acceptance>, actor: ActorId, accepted: bool)
    requires OneDecisionEach(decisions)
    ensures OneDecisionEach(Decided(decisions, actor, accepted))
    ensures forall d ::
      d in Decided(decisions, actor, accepted) <==> d == Acceptance(actor, accepted) || (d in decisions && d.actor != actor)
  {
    WithoutMembers(decisions, actor);
    var w := Without(decisions, actor);
    forall i | 0 <= i < |w| ensures w[i].actor != actor { assert w[i] in w; }
  }

  lemma {:induction false} LatestAcceptedDecided(decisions: seq<Acceptance>)
    ensures LatestAccepted(decisions).Some? ==> Acceptance(LatestAccepted(decisions).value, true) in decisions
  {
    if decisions != [] && !decisions[|decisions| - 1].accepted {
      LatestAcceptedDecided(decisions[..|decisions| - 1]);
    }
  }

  lemma {:induction false} RankedProposed(actors: seq<ActorId>)
    ensures forall a :: a in Ranked(actors) <==> a in actors
    ensures forall a :: a in Ranked(actors) ==> Ranked(actors)[a].participation == Proposed
    ensures Distinct(actors) ==> forall i :: 0 <= i < |actors| ==> Ranked(actors)[actors[i]].rank == i + 1
  {
    if actors != [] {
      RankedProposed(actors[..|actors| - 1]);
      assert actors == actors[..|actors| - 1] + [actors[|actors| - 1]];
    }
  }

  // ---------------------------------------------------------------------------------------------
  // Steps of one plan

  lemma ReconcileOk(plan: Plan, actor: ActorId, clear: bool)
    requires PlanOk(plan) && Acceptance(actor, true) in plan.decisions
    ensures PlanOk(Reconcile(plan, actor, clear))
  {
  }

  lemma AcceptOk(plan: Plan, actor: ActorId, clear: bool)
    requires PlanOk(plan) && actor in plan.candidates
    ensures PlanOk(Accept(plan, actor, clear))
  {
    DecidedMembers(plan.decisions, actor, true);
    var answered := plan.candidates[actor := plan.candidates[actor].(participation := Accepted)];
    var decided := plan.(candidates := ExpireOthers(answered, actor), decisions := Decided(plan.decisions, actor, true));
    assert DecisionsMatch(decided);
    if Closed(plan.status) {
      assert Accept(plan, actor, clear) == decided;
    } else {
      assert plan.recovery.None? ==> NoDecliner(decided);
    }
  }

  lemma DeclineOk(plan: Plan, actor: ActorId, now: nat)
    requires PlanOk(plan) && actor in plan.candidates
    ensures PlanOk(Decline(plan, actor, now))
  {
    DecidedMembers(plan.decisions, actor, false);
    assert DecisionsMatch(Decline(plan, actor, now));
  }

  lemma AfterHandoffOk(plan: Plan, status: HandoffStatus, clear: bool, now: nat)
    requires PlanOk(plan)
    ensures PlanOk(AfterHandoff(plan, status, clear, now))
  {
    hide Reconcile;
    LatestAcceptedDecided(plan.decisions);
    var latest := LatestAccepted(plan.decisions);
    if latest.Some? { ReconcileOk(plan, latest.value, clear); }
  }

  // ---------------------------------------------------------------------------------------------
  // The invariant

  predicate PlansOk(plans: seq<Plan>) { forall p :: 0 <= p < |plans| ==> PlanOk(plans[p]) }

  /** Only the newest plan may still be open, and it is never superseded. */
  predicate OnlyNewestOpen(plans: seq<Plan>) {
    && (forall p :: 0 <= p < |plans| - 1 ==> !Replaceable(plans[p].status))
    && (plans != [] ==> plans[|plans| - 1].status != Superseded)
  }

  predicate HandoffsOk(handoffs: seq<Handoff>) {
    forall i, j :: 0 <= i < j < |handoffs| ==> handoffs[i].key != handoffs[j].key
  }

  /** A completed case has a recorded outcome without a blocker in it, and a cancelled one a cancellation. */
  predicate OutcomeOk(s: State) {
    && (s.caseState == CaseCompleted ==>
        s.outcome.Some? && s.outcome.value.completed && CompletionBlockers(s.outcome.value.rows, s.outcome.value.handoffs) == [])
    && (s.caseState == CaseCancelled ==> s.outcome.Some? && !s.outcome.value.completed)
    && (!Ended(s.caseState) ==> s.outcome.None?)
  }

  predicate Inv(s: State) {
    PlansOk(s.plans) && OnlyNewestOpen(s.plans) && HandoffsOk(s.handoffs) && C.UniqueKeys(s.rows) && OutcomeOk(s)
  }

  lemma LatestIsNewest(plans: seq<Plan>)
    requires OnlyNewestOpen(plans)
    ensures Latest(plans) == if plans == [] then None else Some(|plans| - 1)
  {
  }

  lemma {:induction false} PutHandoffOk(handoffs: seq<Handoff>, key: HandoffKey, plan: Option<nat>, status: HandoffStatus)
    requires HandoffsOk(handoffs)
    ensures HandoffsOk(PutHandoff(handoffs, key, plan, status))
    ensures forall h :: h in PutHandoff(handoffs, key, plan, status) ==> (h.key == key && h.status == status) || h in handoffs
  {
    if handoffs != [] && handoffs[0].key != key {
      var rest := handoffs[1..];
      PutHandoffOk(rest, key, plan, status);
      var after := PutHandoff(rest, key, plan, status);
      forall j | 0 <= j < |after| ensures after[j].key != handoffs[0].key {
        assert after[j] in after;
        if after[j] in rest {
          var k :| 0 <= k < |rest| && rest[k] == after[j];
          assert handoffs[k + 1] == after[j];
        }
      }
    }
  }

  lemma GenerateKeepsPlans(s: State, ranked: seq<ActorId>)
    requires Inv(s)
    ensures Inv(GeneratePlan(s, ranked))
  {
    RankedProposed(ranked);
    var t := GeneratePlan(s, ranked);
    if Distinct(ranked) {
      forall p | 0 <= p < |t.plans| ensures PlanOk(t.plans[p]) && (p < |t.plans| - 1 ==> !Replaceable(t.plans[p].status)) {
        if p < |s.plans| { assert PlanOk(s.plans[p]); }
      }
    }
  }

  lemma DecideKeepsInv(s: State, actor: ActorId, accepted: bool)
    requires Inv(s)
    ensures Inv(DecideParticipant(s, actor, accepted))
  {
    hide PlanOk, Accept, Decline;
    LatestIsNewest(s.plans);
    if s.plans != [] {
      var plan := s.plans[|s.plans| - 1];
      assert PlanOk(plan);
      if actor in plan.candidates {
        if accepted {
          AcceptOk(plan, actor, C.AllClear(s.rows));
          AcceptStaysOpen(plan, actor, C.AllClear(s.rows));
        } else {
          DeclineOk(plan, actor, s.now);
          DeclineStaysOpen(plan, actor, s.now);
        }
      }
    }
  }

  lemma AcceptStaysOpen(plan: Plan, actor: ActorId, clear: bool)
    requires actor in plan.candidates
    ensures Accept(plan, actor, clear).status == Superseded <==> plan.status == Superseded
  {
  }

  lemma DeclineStaysOpen(plan: Plan, actor: ActorId, now: nat)
    requires actor in plan.candidates
    ensures Decline(plan, actor, now).status == Superseded <==> plan.status == Superseded
  {
  }

  lemma HandoffKeepsInv(s: State, key: HandoffKey, status: HandoffStatus)
    requires Inv(s)
    ensures Inv(RecordHandoff(s, key, status))
  {
    hide PlanOk;
    LatestIsNewest(s.plans);
    PutHandoffOk(s.handoffs, key, Latest(s.plans), status);
    if s.plans != [] {
      AfterHandoffOk(s.plans[|s.plans| - 1], status, C.AllClear(s.rows), s.now);
    }
  }

  lemma RefreshKeepsInv(s: State)
    requires Inv(s)
    ensures Inv(RefreshRows(s))
  {
    hide C.Sync;
    K.SyncMembers(s.rows, s.sources, s.now);
  }

  lemma CompletionKeepsInv(s: State)
    requires Inv(s) && CompleteCase(s).Ok?
    ensures Inv(CompleteCase(s).value)
  {
    hide C.Sync, PlanOk, CompletionBlockers, ConsideredHandoffs;
    RefreshKeepsInv(s);
    LatestIsNewest(s.plans);
    if s.plans != [] { CompletedPlanOk(s.plans[|s.plans| - 1]); }
  }

  lemma CompletedPlanOk(plan: Plan)
    requires PlanOk(plan)
    ensures PlanOk(plan.(status := PlanCompleted, recovery := None))
    ensures plan.status != PlanCompleted ==> PlanOk(plan.(status := PlanCancelled))
  {
  }

  lemma CancellationKeepsInv(s: State)
    requires Inv(s) && s.caseState != CaseCompleted
    ensures Inv(CancelCase(s))
  {
    hide C.Sync, PlanOk, HandoffsOf;
    var moved := s.(caseState := CaseCancelled, sources := s.sources.(appointments := CancelAppointments(s.sources.appointments)));
    K.SyncMembers(moved.rows, moved.sources, moved.now);
    LatestIsNewest(s.plans);
    if s.plans != [] { CompletedPlanOk(s.plans[|s.plans| - 1]); }
  }

  lemma TransitionKeepsInv(s: State, to: CaseState, role: Role, byTransport: bool)
    requires Inv(s) && TransitionCase(s, to, role, byTransport).Ok?
    ensures Inv(TransitionCase(s, to, role, byTransport).value)
  {
    hide C.Sync, PlanOk, CompleteCase, CancelCase;
    if s.caseState != to && Permission(s.caseState, to, role, byTransport).None? {
      if to == CaseCompleted {
        CompletionKeepsInv(s);
      } else if to == CaseCancelled {
        CancellationKeepsInv(s);
      }
    }
  }

  lemma StepKeepsInv(s: State, a: Action)
    requires Inv(s)
    ensures Inv(Next(s, a))
  {
    match a
    case Generate(ranked) => GenerateKeepsPlans(s, ranked);
    case Decide(actor, accepted) => DecideKeepsInv(s, actor, accepted);
    case UpsertHandoff(key, status) => HandoffKeepsInv(s, key, status);
    case Refresh => RefreshKeepsInv(s);
    case Transition(to, role, byTransport) =>
      if TransitionCase(s, to, role, byTransport).Ok? { TransitionKeepsInv(s, to, role, byTransport); }
    case _ =>
  }

  lemma {:induction false} RunKeepsInv(s: State, actions: seq<Action>)
    requires Inv(s)
    ensures Inv(Run(s, actions))
  {
    if actions != [] {
      hide Inv, Next;
      RunKeepsInv(s, actions[..|actions| - 1]);
      StepKeepsInv(Run(s, actions[..|actions| - 1]), actions[|actions| - 1]);
    }
  }

  lemma OpenedInv(sources: C.Sources)
    ensures Inv(Opened(sources))
  {
  }

  lemma BlockersApart(outcome: Outcome)
    ensures CompletionBlockers(outcome.rows, outcome.handoffs) == []
       <==> ConstraintBlockers(outcome.rows) == [] && HandoffBlockers(outcome.handoffs) == []
  {
  }

  // ---------------------------------------------------------------------------------------------
  // Plans over every run

  /** In every run: an accepted plan has no decliner, and its selected actor is a candidate who accepted. */
  lemma AcceptedPlanMeaning(sources: C.Sources, actions: seq<Action>, p: nat)
    requires p < |Run(Opened(sources), actions).plans|
    requires Run(Opened(sources), actions).plans[p].status == PlanAccepted
    ensures var plan := Run(Opened(sources), actions).plans[p];
      && plan.recovery.None? && NoDecliner(plan) && SelectedAccepted(plan)
      && (forall a <- plan.candidates :: plan.candidates[a].participation != Declined)
  {
    OpenedInv(sources);
    RunKeepsInv(Opened(sources), actions);
    hide Run;
    assert PlanOk(Run(Opened(sources), actions).plans[p]);
  }

  /** In every run only the newest version can be feasible or blocked. */
  lemma OnlyNewestVersionOpen(sources: C.Sources, actions: seq<Action>, p: nat)
    requires p < |Run(Opened(sources), actions).plans|
    requires var status := Run(Opened(sources), actions).plans[p].status; status == Feasible || status == PlanBlocked
    ensures p == |Run(Opened(sources), actions).plans| - 1
    ensures Latest(Run(Opened(sources), actions).plans) == Some(p)
  {
    OpenedInv(sources);
    RunKeepsInv(Opened(sources), actions);
    hide Run, Latest, PlanOk, HandoffsOk, OutcomeOk, C.UniqueKeys;
    LatestIsNewest(Run(Opened(sources), actions).plans);
  }

  /** A mark for recovery: kept with its first time, on a plan that is neither feasible, accepted nor completed. */
  predicate MarkedPlan(plan: Plan, since: nat) {
    plan.recovery == Some(since) && (plan.status == PlanBlocked || plan.status == Superseded || plan.status == PlanCancelled)
  }

  predicate Marked(s: State, p: nat, since: nat) { p < |s.plans| && MarkedPlan(s.plans[p], since) }

  lemma MarkedTransition(s: State, to: CaseState, role: Role, byTransport: bool, p: nat, since: nat)
    requires Inv(s) && Marked(s, p, since) && TransitionCase(s, to, role, byTransport).Ok?
    ensures Marked(TransitionCase(s, to, role, byTransport).value, p, since)
  {
    hide C.Sync, CompletionBlockers, ConsideredHandoffs, HandoffsOf;
    LatestIsNewest(s.plans);
    assert PlanOk(s.plans[p]);
  }

  lemma PlanStepsKeepMark(plan: Plan, since: nat, actor: ActorId, status: HandoffStatus, clear: bool, now: nat)
    requires MarkedPlan(plan, since)
    ensures MarkedPlan(AfterHandoff(plan, status, clear, now), since) && MarkedPlan(Supersede(plan), since)
    ensures actor in plan.candidates ==> MarkedPlan(Accept(plan, actor, clear), since) && MarkedPlan(Decline(plan, actor, now), since)
  {
  }

  lemma MarkedPlanStep(s: State, a: Action, p: nat, since: nat)
    requires Marked(s, p, since) && (a.Generate? || a.Decide? || a.UpsertHandoff?)
    ensures Marked(Next(s, a), p, since)
  {
    hide PutHandoff, Ranked, Accept, Decline, AfterHandoff, Supersede, MarkedPlan, C.AllClear;
    var actor := if a.Decide? then a.actor else "";
    var status := if a.UpsertHandoff? then a.status else Planned;
    PlanStepsKeepMark(s.plans[p], since, actor, status, C.AllClear(s.rows), s.now);
  }

  lemma MarkedStep(s: State, a: Action, p: nat, since: nat)
    requires Inv(s) && Marked(s, p, since)
    ensures Marked(Next(s, a), p, since)
  {
    hide C.Sync, TransitionCase, Inv, Latest, PutHandoff, GeneratePlan, DecideParticipant, RecordHandoff;
    if a.Generate? || a.Decide? || a.UpsertHandoff? {
      MarkedPlanStep(s, a, p, since);
    } else if a.Transition? && TransitionCase(s, a.to, a.role, a.byTransport).Ok? {
      MarkedTransition(s, a.to, a.role, a.byTransport, p, since);
    }
  }

  /** A plan once marked for recovery keeps the mark and is never accepted or completed, whatever happens next. */
  lemma {:induction false} RecoveryIsPermanent(s: State, actions: seq<Action>, p: nat)
    requires Inv(s) && p < |s.plans| && s.plans[p].recovery.Some?
    ensures Marked(Run(s, actions), p, s.plans[p].recovery.value)
  {
    if actions == [] {
      assert PlanOk(s.plans[p]);
    } else {
      hide Inv, Next;
      var before := actions[..|actions| - 1];
      RecoveryIsPermanent(s, before, p);
      RunKeepsInv(s, before);
      MarkedStep(Run(s, before), actions[|actions| - 1], p, s.plans[p].recovery.value);
    }
  }

  /** What marks a plan: a declining candidate or a failed handoff, unless the plan is closed. */
  lemma MarkedByDeclineOrFailure(s: State, a: Action)
    requires Inv(s) && s.plans != [] && s.plans[|s.plans| - 1].recovery.None?
    ensures var p := |s.plans| - 1;
      p < |Next(s, a).plans| &&
      (Next(s, a).plans[p].recovery.Some? <==>
        && !Closed(s.plans[p].status)
        && ((a.Decide? && !a.accepted && a.actor in s.plans[p].candidates)
          || (a.UpsertHandoff? && (a.status == HandoffDeclined || a.status == HandoffFailed))))
  {
    hide C.Sync, CompletionBlockers, ConsideredHandoffs, HandoffsOf;
    LatestIsNewest(s.plans);
    assert PlanOk(s.plans[|s.plans| - 1]);
  }

  // ---------------------------------------------------------------------------------------------
  // The gate

  lemma {:induction false} NoConstraintBlockers(rows: seq<C.Row>)
    ensures ConstraintBlockers(rows) == [] <==> C.AllClear(rows)
  {
    if rows != [] { NoConstraintBlockers(rows[..|rows| - 1]); }
  }

  lemma {:induction false} NoHandoffBlockers(handoffs: seq<Handoff>)
    ensures HandoffBlockers(handoffs) == [] <==> forall h :: h in handoffs ==> Done(h)
  {
    if handoffs != [] {
      NoHandoffBlockers(handoffs[..|handoffs| - 1]);
      assert handoffs == handoffs[..|handoffs| - 1] + [handoffs[|handoffs| - 1]];
    }
  }

  lemma {:induction false} ConsideredMembers(handoffs: seq<Handoff>, latest: Option<nat>)
    ensures forall h :: h in ConsideredHandoffs(handoffs, latest) <==> h in handoffs && Considered(h, latest)
  {
    if handoffs != [] {
      ConsideredMembers(handoffs[..|handoffs| - 1], latest);
      assert handoffs == handoffs[..|handoffs| - 1] + [handoffs[|handoffs| - 1]];
    }
  }

  /** A handoff that belongs to no plan or to the newest one; all of them while there is no plan. */
  ghost predicate OfNewest(s: State, h: Handoff) {
    s.plans == [] || h.plan.None? || h.plan.value == |s.plans| - 1
  }

  /** Completing, told without the projection: from the operating tables, the lasting rows, the handoffs and the newest plan. */
  ghost predicate Gate(s: State) {
    && (forall kind :: K.LayerReady(s.sources, kind, s.now))
    && (forall r :: r in s.rows && K.Lasting(r, s.sources) ==> C.Clear(r))
    && (forall h :: h in s.handoffs && OfNewest(s, h) ==> Done(h))
    && (s.plans != [] ==> s.plans[|s.plans| - 1].status == PlanAccepted)
  }

  lemma ReadyIffGate(s: State)
    requires Inv(s)
    ensures ReadyToComplete(RefreshRows(s)) <==> Gate(s)
  {
    hide C.Sync, K.LayerReady, K.Lasting;
    LatestIsNewest(s.plans);
    var rows := C.Sync(s.rows, s.sources, s.now);
    var handoffs := ConsideredHandoffs(s.handoffs, Latest(s.plans));
    K.ClearAfterSyncIff(s.rows, s.sources, s.now);
    NoConstraintBlockers(rows);
    NoHandoffBlockers(handoffs);
    ConsideredMembers(s.handoffs, Latest(s.plans));
  }

  /** A case that is not completed becomes completed by a transition exactly when an admin asks, payment is due, and the gate is open. */
  lemma CompletesIffGate(s: State, a: Action)
    requires Inv(s) && s.caseState != CaseCompleted
    ensures Next(s, a).caseState == CaseCompleted
       <==> a.Transition? && a.to == CaseCompleted && a.role == Admin && s.caseState == PaymentPending && Gate(s)
  {
    hide C.Sync, Gate, CancelCase, ReadyToComplete;
    ReadyIffGate(s);
    if a.Transition? && a.to == CaseCancelled { CancelledIsCancelled(s); }
  }

  lemma CancelledIsCancelled(s: State)
    ensures CancelCase(s).caseState == CaseCancelled
  {
    hide C.Sync, HandoffsOf, CancelAppointments, Latest;
  }

  /** A refused completion leaves everything as it was, even the projection it refreshed on the way. */
  lemma RefusedChangesNothing(s: State, to: CaseState, role: Role, byTransport: bool)
    requires TransitionCase(s, to, role, byTransport).Err?
    ensures Next(s, Transition(to, role, byTransport)) == s
    ensures TransitionCase(s, to, role, byTransport).error == FulfillmentNotComplete
      ==> to == CaseCompleted && s.caseState == PaymentPending && !ReadyToComplete(RefreshRows(s))
  {
    hide C.Sync, ReadyToComplete, CancelCase;
  }

  /** Ended cases stay ended, as they were ended. */
  lemma EndedStep(s: State, a: Action)
    requires Ended(s.caseState) && !(a.Transition? && s.caseState == CaseCancelled && a.to == CaseCancelled)
    ensures Next(s, a).caseState == s.caseState && Next(s, a).outcome == s.outcome
  {
    hide C.Sync, CompleteCase, CancelCase;
  }

  lemma {:induction false} EndedForever(s: State, actions: seq<Action>)
    requires Ended(s.caseState)
    ensures Run(s, actions).caseState == s.caseState && Run(s, actions).outcome == s.outcome
  {
    if actions != [] {
      hide Next;
      var before := actions[..|actions| - 1];
      EndedForever(s, before);
      var t := Run(s, before);
      var a := actions[|actions| - 1];
      if a.Transition? && t.caseState == a.to { SameStateIsNoStep(t, a.role, a.byTransport); } else { EndedStep(t, a); }
    }
  }

  lemma SameStateIsNoStep(s: State, role: Role, byTransport: bool)
    ensures Next(s, Transition(s.caseState, role, byTransport)) == s
  {
  }

  /** In every run, a completed case carries an outcome whose recorded constraints and handoffs are all settled. */
  lemma CompletedCaseEvidence(sources: C.Sources, actions: seq<Action>)
    requires Run(Opened(sources), actions).caseState == CaseCompleted
    ensures var outcome := Run(Opened(sources), actions).outcome;
      && outcome.Some? && outcome.value.completed && C.AllClear(outcome.value.rows)
      && forall h :: h in outcome.value.handoffs ==> Done(h)
  {
    OpenedInv(sources);
    RunKeepsInv(Opened(sources), actions);
    hide Run, PlanOk, CompletionBlockers;
    BlockersApart(Run(Opened(sources), actions).outcome.value);
    var outcome := Run(Opened(sources), actions).outcome.value;
    NoConstraintBlockers(outcome.rows);
    NoHandoffBlockers(outcome.handoffs);
  }

  /** However the projection was edited: cases that differ only in rows that a refresh replaces complete alike. */
  lemma GateIgnoresProjection(s: State, rows: seq<C.Row>)
    requires Inv(s) && C.UniqueKeys(rows)
    requires forall r :: K.Lasting(r, s.sources) ==> (r in rows <==> r in s.rows)
    ensures CompleteCase(s).Ok? <==> CompleteCase(s.(rows := rows)).Ok?
    ensures CompleteCase(s).Ok? ==> forall r ::
      r in CompleteCase(s).value.rows <==> r in CompleteCase(s.(rows := rows)).value.rows
  {
    hide C.Sync, K.Lasting, K.LayerReady, ReadyToComplete;
    ReadyIffGate(s);
    ReadyIffGate(s.(rows := rows));
    K.StalenessIrrelevant(s.rows, rows, s.sources, s.now);
  }

  // ---------------------------------------------------------------------------------------------
  // Recovery needs a new plan

  predicate NoGenerate(actions: seq<Action>) { forall i :: 0 <= i < |actions| ==> !actions[i].Generate? }

  lemma StepKeepsCount(s: State, a: Action)
    requires !a.Generate?
    ensures |Next(s, a).plans| == |s.plans|
  {
    hide C.Sync, CompletionBlockers, ConsideredHandoffs, HandoffsOf;
  }

  lemma {:induction false} RunKeepsCount(s: State, actions: seq<Action>)
    requires NoGenerate(actions)
    ensures |Run(s, actions).plans| == |s.plans|
  {
    if actions != [] {
      hide Next;
      RunKeepsCount(s, actions[..|actions| - 1]);
      StepKeepsCount(Run(s, actions[..|actions| - 1]), actions[|actions| - 1]);
    }
  }

  lemma MarkedNewestBlocks(s: State, a: Action, since: nat)
    requires Inv(s) && s.caseState != CaseCompleted && s.plans != [] && Marked(s, |s.plans| - 1, since)
    ensures Next(s, a).caseState != CaseCompleted
  {
    hide Next, Inv;
    CompletesIffGate(s, a);
  }

  /** Once the newest plan is marked for recovery, the case cannot be completed until a new plan is generated. */
  lemma {:induction false} RecoveryNeedsNewPlan(s: State, actions: seq<Action>)
    requires Inv(s) && s.caseState != CaseCompleted && NoGenerate(actions)
    requires s.plans != [] && s.plans[|s.plans| - 1].recovery.Some?
    ensures Run(s, actions).caseState != CaseCompleted
  {
    if actions != [] {
      hide Inv, Next, Marked;
      var before := actions[..|actions| - 1];
      RecoveryNeedsNewPlan(s, before);
      RunKeepsCount(s, before);
      RecoveryIsPermanent(s, before, |s.plans| - 1);
      RunKeepsInv(s, before);
      MarkedNewestBlocks(Run(s, before), actions[|actions| - 1], s.plans[|s.plans| - 1].recovery.value);
    }
  }

  // ---------------------------------------------------------------------------------------------
  // Handoffs and projections

  /** A transport whose handoff failed or was declined also blocks through its projection. */
  lemma FailedTransportBlocksTwice(d: C.Dispatch)
    requires HandoffForTransport(d.status) in {HandoffDeclined, HandoffFailed}
    ensures C.DeriveTransport(d) == C.Blocked
  {
  }

  /** A transport clears both tests of the gate exactly when the vehicle is delivered to a known destination. */
  lemma TransportClearsGateIffDelivered(d: C.Dispatch)
    requires d.status != C.TransportCancelled
    ensures (C.DeriveTransport(d) == C.Satisfied && Done(Handoff(HandoffKey(TransportHandoff, "", ""), None, HandoffForTransport(d.status))))
       <==> d.status == C.Delivered && d.destinationReady
  {
  }

  /** A loaner clears both tests exactly when it has come back, although the projection is satisfied much earlier. */
  lemma MobilityClearsGateIffReturned(state: C.M.AllocationState)
    requires state != C.M.Cancelled
    ensures (C.DeriveMobility(state) == C.Satisfied && Done(Handoff(HandoffKey(MobilityHandoff, "", ""), None, HandoffForMobility(state))))
       <==> state == C.M.Completed
  {
  }

  /** When payment falls due, provider work blocks the gate exactly if it never started, was declined, or failed. */
  lemma FinishedProviderWork(s: State, role: Role, i: nat)
    requires s.caseState == RepairInProgress && role in {Admin, Partner} && i < |s.handoffs|
    ensures var t := Next(s, Transition(PaymentPending, role, false));
      && t.caseState == PaymentPending && |t.handoffs| == |s.handoffs|
      && t.handoffs[i].key == s.handoffs[i].key && t.handoffs[i].plan == s.handoffs[i].plan
      && (s.handoffs[i].key.kind == ServiceProvider ==>
          (!Done(t.handoffs[i]) <==> s.handoffs[i].status in {Planned, HandoffDeclined, HandoffFailed}))
      && (s.handoffs[i].key.kind != ServiceProvider ==> t.handoffs[i] == s.handoffs[i])
  {
  }
}
