/** What the single steps of a case bring about, told without the functions that compute them. */
module FulfilmentEffects {
  import opened Prelude
  import opened Fulfilment
  import opened FulfilmentProofs
  import C = Constraints
  import K = ConstraintsProofs

  /** Every constraint of the case is satisfied or waived. */
  predicate Unobstructed(s: State) {
    forall r <- s.rows :: r.status == C.Satisfied || r.status == C.Waived
  }

  lemma UnobstructedIsClear(s: State)
    ensures Unobstructed(s) <==> C.AllClear(s.rows)
  {
  }

  predicate OpenNewest(s: State) {
    && s.plans != []
    && var status := s.plans[|s.plans| - 1].status; status != PlanCompleted && status != PlanCancelled && status != Superseded
  }

  // ---------------------------------------------------------------------------------------------
  // Plans

  /**
   * A candidate accepts the newest plan: the plan is accepted exactly when it was never marked for
   * recovery and nothing obstructs the case, and blocked otherwise; the candidate is selected, and
   * everybody who had not answered is no longer asked.
   */
  lemma AcceptanceDecides(s: State, actor: ActorId)
    requires Inv(s) && OpenNewest(s) && actor in s.plans[|s.plans| - 1].candidates
    ensures
      var p := |s.plans| - 1;
      var before, t := s.plans[p], Next(s, Decide(actor, true));
      && |t.plans| == |s.plans| && t.plans[..p] == s.plans[..p] && t == s.(plans := t.plans)
      && var after := t.plans[p];
      && after.status == (if before.recovery.None? && Unobstructed(s) then PlanAccepted else PlanBlocked)
      && after.selected == Some(actor) && after.recovery == before.recovery
      && after.candidates.Keys == before.candidates.Keys
      && (forall a <- before.candidates ::
            after.candidates[a] == before.candidates[a].(participation :=
              if a == actor then Accepted
              else if before.candidates[a].participation == Proposed then Expired else before.candidates[a].participation))
  {
    hide Inv;
    NewestOf(s);
    UnobstructedIsClear(s);
  }

  lemma NewestOf(s: State)
    requires Inv(s) && s.plans != []
    ensures Latest(s.plans) == Some(|s.plans| - 1)
  {
    LatestIsNewest(s.plans);
  }

  /** A candidate declines the newest plan: it is blocked and marked, at the first time it was, and the candidate is not selected. */
  lemma DeclineBlocks(s: State, actor: ActorId)
    requires Inv(s) && OpenNewest(s) && actor in s.plans[|s.plans| - 1].candidates
    ensures
      var p := |s.plans| - 1;
      var before, t := s.plans[p], Next(s, Decide(actor, false));
      && |t.plans| == |s.plans| && t.plans[..p] == s.plans[..p] && t == s.(plans := t.plans)
      && var after := t.plans[p];
      && after.status == PlanBlocked
      && after.recovery == (if before.recovery.Some? then before.recovery else Some(s.now))
      && after.selected == (if before.selected == Some(actor) then None else before.selected)
      && after.candidates == before.candidates[actor := before.candidates[actor].(participation := Declined)]
  {
    NewestOf(s);
    assert PlanOk(s.plans[|s.plans| - 1]);
  }

  /** The answer of an actor who is no candidate of the newest plan changes nothing. */
  lemma StrangersAreIgnored(s: State, actor: ActorId, accepted: bool)
    requires Inv(s) && (s.plans == [] || actor !in s.plans[|s.plans| - 1].candidates)
    ensures Next(s, Decide(actor, accepted)) == s
  {
    if s.plans != [] { NewestOf(s); }
  }

  /** The last decision that accepted. */
  ghost predicate LastAcceptor(plan: Plan, actor: ActorId) {
    exists i: nat :: LastAcceptAt(plan.decisions, i, actor)
  }

  predicate LastAcceptAt(decisions: seq<Acceptance>, i: nat, actor: ActorId) {
    && i < |decisions| && decisions[i] == Acceptance(actor, true)
    && forall j :: i < j < |decisions| ==> !decisions[j].accepted
  }

  lemma LastAcceptStays(decisions: seq<Acceptance>, i: nat, actor: ActorId)
    requires decisions != [] && !decisions[|decisions| - 1].accepted
    requires LastAcceptAt(decisions[..|decisions| - 1], i, actor)
    ensures LastAcceptAt(decisions, i, actor)
  {
    var front := decisions[..|decisions| - 1];
    forall j | i < j < |decisions| ensures !decisions[j].accepted {
      if j < |front| { assert front[j] == decisions[j]; }
    }
  }

  lemma {:induction false} NoneAccepted(decisions: seq<Acceptance>)
    ensures LatestAccepted(decisions).None? <==> forall i :: 0 <= i < |decisions| ==> !decisions[i].accepted
  {
    if decisions != [] {
      NoneAccepted(decisions[..|decisions| - 1]);
      assert decisions == decisions[..|decisions| - 1] + [decisions[|decisions| - 1]];
    }
  }

  lemma {:induction false} LatestAcceptedIsLast(decisions: seq<Acceptance>)
    requires LatestAccepted(decisions).Some?
    ensures exists i: nat :: LastAcceptAt(decisions, i, LatestAccepted(decisions).value)
  {
    var n := |decisions| - 1;
    hide LastAcceptAt;
    if decisions[n].accepted {
      NewestAccept(decisions);
    } else {
      LatestAcceptedIsLast(decisions[..n]);
      var i: nat :| LastAcceptAt(decisions[..n], i, LatestAccepted(decisions[..n]).value);
      LastAcceptStays(decisions, i, LatestAccepted(decisions[..n]).value);
    }
  }

  lemma NewestAccept(decisions: seq<Acceptance>)
    requires decisions != [] && decisions[|decisions| - 1].accepted
    ensures LastAcceptAt(decisions, |decisions| - 1, decisions[|decisions| - 1].actor)
  {
  }

  /**
   * A handoff that goes well re-decides the newest plan like an acceptance, for the last candidate who
   * accepted; a plan that nobody has accepted is left alone.
   */
  lemma GoodHandoffDecides(s: State, key: HandoffKey, status: HandoffStatus)
    requires Inv(s) && OpenNewest(s) && status != HandoffDeclined && status != HandoffFailed
    ensures
      var p := |s.plans| - 1;
      var before, t := s.plans[p], Next(s, UpsertHandoff(key, status));
      && |t.plans| == |s.plans| && t.plans[..p] == s.plans[..p]
      && var after := t.plans[p];
      if exists d <- before.decisions :: d.accepted then
        && after.status == (if before.recovery.None? && Unobstructed(s) then PlanAccepted else PlanBlocked)
        && after.selected.Some? && LastAcceptor(before, after.selected.value)
        && after == before.(status := after.status, selected := after.selected)
      else after == before
  {
    NewestOf(s);
    UnobstructedIsClear(s);
    var before := s.plans[|s.plans| - 1];
    NoneAccepted(before.decisions);
    if LatestAccepted(before.decisions).Some? { LatestAcceptedIsLast(before.decisions); }
    if d :| d in before.decisions && d.accepted {
      var i :| 0 <= i < |before.decisions| && before.decisions[i] == d;
      assert before.decisions[i].accepted;
    }
  }

  /** A handoff that fails or is declined blocks the newest plan and marks it, at the first time it was. */
  lemma BadHandoffBlocks(s: State, key: HandoffKey, status: HandoffStatus)
    requires Inv(s) && OpenNewest(s) && (status == HandoffDeclined || status == HandoffFailed)
    ensures
      var p := |s.plans| - 1;
      var before, t := s.plans[p], Next(s, UpsertHandoff(key, status));
      && |t.plans| == |s.plans| && t.plans[..p] == s.plans[..p]
      && t.plans[p] == before.(status := PlanBlocked, recovery := if before.recovery.Some? then before.recovery else Some(s.now))
  {
    NewestOf(s);
  }

  /**
   * A new plan is feasible exactly when there is a candidate and nothing obstructs the case; candidates
   * are ranked in order and asked, and plans that were still open are superseded.
   */
  lemma GenerationPlans(s: State, ranked: seq<ActorId>)
    requires Inv(s) && Distinct(ranked)
    ensures
      var t := Next(s, Generate(ranked));
      && |t.plans| == |s.plans| + 1 && t == s.(plans := t.plans)
      && (forall p :: 0 <= p < |s.plans| ==> t.plans[p] == s.plans[p].(status :=
            if s.plans[p].status in {Draft, Feasible, PlanBlocked} then Superseded else s.plans[p].status))
      && var plan := t.plans[|s.plans|];
      && plan.status == (if ranked != [] && Unobstructed(s) then Feasible else PlanBlocked)
      && plan.recovery.None? && plan.selected.None? && plan.decisions == []
      && (forall a :: a in plan.candidates <==> a in ranked)
      && (forall i :: 0 <= i < |ranked| ==> plan.candidates[ranked[i]] == Candidate(i + 1, Proposed))
  {
    UnobstructedIsClear(s);
    RankedProposed(ranked);
    var plan := Next(s, Generate(ranked)).plans[|s.plans|];
    forall i | 0 <= i < |ranked| ensures plan.candidates[ranked[i]] == Candidate(i + 1, Proposed) {
      assert ranked[i] in Ranked(ranked);
    }
  }

  // ---------------------------------------------------------------------------------------------
  // Handoffs

  lemma {:induction false} PutHandoffExactly(handoffs: seq<Handoff>, key: HandoffKey, plan: Option<nat>, status: HandoffStatus)
    requires HandoffsOk(handoffs)
    ensures
      var after := PutHandoff(handoffs, key, plan, status);
      && |handoffs| <= |after| <= |handoffs| + 1
      && (forall i :: 0 <= i < |handoffs| ==>
            after[i] == (if handoffs[i].key == key
                         then Handoff(key, if handoffs[i].plan.Some? then handoffs[i].plan else plan, status) else handoffs[i]))
      && (|after| > |handoffs| <==> forall i :: 0 <= i < |handoffs| ==> handoffs[i].key != key)
      && (|after| > |handoffs| ==> after[|handoffs|] == Handoff(key, plan, status))
  {
    if handoffs != [] && handoffs[0].key != key { PutHandoffExactly(handoffs[1..], key, plan, status); }
  }

  /**
   * Recording a handoff: the row with its key takes the new status and keeps its plan, joining the
   * newest one if it had none; without such a row one is added; all other rows are as they were.
   */
  lemma HandoffIsRecorded(s: State, key: HandoffKey, status: HandoffStatus)
    requires Inv(s)
    ensures
      var newest := if s.plans == [] then None else Some(|s.plans| - 1);
      var t := Next(s, UpsertHandoff(key, status));
      && |s.handoffs| <= |t.handoffs| <= |s.handoffs| + 1
      && (forall i :: 0 <= i < |s.handoffs| ==>
            t.handoffs[i] == (if s.handoffs[i].key == key
                              then Handoff(key, if s.handoffs[i].plan.Some? then s.handoffs[i].plan else newest, status)
                              else s.handoffs[i]))
      && (|t.handoffs| > |s.handoffs| <==> forall h <- s.handoffs :: h.key != key)
      && (|t.handoffs| > |s.handoffs| ==> t.handoffs[|s.handoffs|] == Handoff(key, newest, status))
  {
    LatestIsNewest(s.plans);
    hide AfterHandoff, PutHandoff, Inv;
    PutHandoffExactly(s.handoffs, key, Latest(s.plans), status);
    assert (forall h <- s.handoffs :: h.key != key) <==> forall i :: 0 <= i < |s.handoffs| ==> s.handoffs[i].key != key;
  }

  /** An order's handoff settles exactly when it is delivered or cancelled, and fails exactly with it. */
  lemma PartsHandoffMeaning(status: P.Status)
    ensures Done(Handoff(HandoffKey(PartsHandoff, "", ""), None, HandoffForParts(status))) <==> status == P.Delivered || status == P.Cancelled
    ensures HandoffForParts(status) == HandoffFailed <==> status == P.Failed
    ensures HandoffForParts(status) == InProgress <==> P.Live(status)
    ensures HandoffForParts(status) != HandoffDeclined
  {
  }

  // ---------------------------------------------------------------------------------------------
  // Ends

  /**
   * Cancelling is for administrators and customers, of any case that is not completed. It ends the
   * newest plan unless that is completed, and no appointment of the case is held, confirmed or under way.
   */
  lemma CancellationEndsCase(s: State, role: Role, byTransport: bool)
    requires Inv(s) && s.caseState != CaseCancelled
    ensures
      var t := Next(s, Transition(CaseCancelled, role, byTransport));
      if s.caseState == CaseCompleted || (role != Admin && role != Customer) then t == s
      else
        && t.caseState == CaseCancelled && |t.plans| == |s.plans| && t.handoffs == s.handoffs
        && (forall p :: 0 <= p < |s.plans| ==>
              t.plans[p] == (if p == |s.plans| - 1 && s.plans[p].status != PlanCompleted
                             then s.plans[p].(status := PlanCancelled) else s.plans[p]))
        && (forall a <- t.sources.appointments :: a.status !in {C.Held, C.Confirmed, C.InProgress})
        && t.outcome.Some? && !t.outcome.value.completed && t.outcome.value.rows == t.rows
        && t.outcome.value.plan == (if s.plans == [] then None else Some(|s.plans| - 1))
  {
    hide C.Sync, HandoffsOf;
    LatestIsNewest(s.plans);
    forall a | a in CancelAppointments(s.sources.appointments) ensures a.status !in {C.Held, C.Confirmed, C.InProgress} {
      var i :| 0 <= i < |s.sources.appointments| && CancelAppointments(s.sources.appointments)[i] == a;
    }
  }

  lemma {:induction false} HandoffsOfMembers(handoffs: seq<Handoff>, plan: nat)
    ensures forall h :: h in HandoffsOf(handoffs, plan) <==> h in handoffs && h.plan == Some(plan)
  {
    if handoffs != [] {
      HandoffsOfMembers(handoffs[..|handoffs| - 1], plan);
      assert handoffs == handoffs[..|handoffs| - 1] + [handoffs[|handoffs| - 1]];
    }
  }

  lemma RecordedCancellation(s: State)
    requires OnlyNewestOpen(s.plans)
    ensures
      var t := RecordCancellation(s);
      t.outcome.Some? && forall h :: h in t.outcome.value.handoffs <==> h in s.handoffs && s.plans != [] && h.plan == Some(|s.plans| - 1)
  {
    LatestIsNewest(s.plans);
    hide HandoffsOf;
    if s.plans != [] { HandoffsOfMembers(s.handoffs, |s.plans| - 1); }
  }

  /** A cancelled case keeps the handoffs of exactly its newest plan as evidence. */
  lemma CancellationEvidence(s: State, role: Role, byTransport: bool)
    requires Inv(s) && s.caseState !in {CaseCancelled, CaseCompleted} && role in {Admin, Customer}
    ensures
      var t := Next(s, Transition(CaseCancelled, role, byTransport));
      t.outcome.Some? && forall h :: h in t.outcome.value.handoffs <==> h in s.handoffs && s.plans != [] && h.plan == Some(|s.plans| - 1)
  {
    hide C.Sync, RecordCancellation, RefreshRows, CancelAppointments, OnlyNewestOpen;
    var moved := s.(caseState := CaseCancelled, sources := s.sources.(appointments := CancelAppointments(s.sources.appointments)));
    RefreshKeeps(moved);
    RecordedCancellation(RefreshRows(moved));
    assert Next(s, Transition(CaseCancelled, role, byTransport)) == RecordCancellation(RefreshRows(moved));
  }

  lemma RefreshKeeps(s: State)
    ensures RefreshRows(s).plans == s.plans && RefreshRows(s).handoffs == s.handoffs
  {
    hide C.Sync;
  }

  /** Cancelling leaves every other appointment as it was. */
  lemma OtherAppointmentsStay(appointments: seq<C.Appointment>, i: nat)
    requires i < |appointments|
    ensures CancelAppointments(appointments)[i] ==
      if appointments[i].status in {C.Held, C.Confirmed, C.InProgress} then appointments[i].(status := C.Cancelled) else appointments[i]
  {
  }

  /** What an outcome and its plan look like once the newest plan is recorded as completed. */
  lemma RecordedCompletion(s: State)
    requires OnlyNewestOpen(s.plans) && (s.plans != [] ==> s.plans[|s.plans| - 1].recovery.None?)
    ensures
      var t := RecordCompletion(s);
      var newest := if s.plans == [] then None else Some(|s.plans| - 1);
      && t == s.(plans := t.plans, outcome := t.outcome) && |t.plans| == |s.plans|
      && (forall p :: 0 <= p < |s.plans| ==>
            t.plans[p] == (if p == |s.plans| - 1 then s.plans[p].(status := PlanCompleted) else s.plans[p]))
      && t.outcome.Some? && t.outcome.value.completed && t.outcome.value.rows == s.rows && t.outcome.value.plan == newest
      && (forall h :: h in t.outcome.value.handoffs <==> h in s.handoffs && OfNewest(s, h))
  {
    LatestIsNewest(s.plans);
    ConsideredMembers(s.handoffs, Latest(s.plans));
    hide Considered, ConsideredHandoffs, Latest;
  }

  lemma CompletionIsRecorded(s: State)
    requires s.caseState == PaymentPending && ReadyToComplete(RefreshRows(s))
    ensures Next(s, Transition(CaseCompleted, Admin, false)) == RecordCompletion(RefreshRows(s)).(caseState := CaseCompleted)
  {
    hide C.Sync, ReadyToComplete, RecordCompletion, RefreshRows;
  }

  /** Completing through the open gate: the newest plan is completed, and the outcome keeps what the gate saw. */
  lemma CompletionEndsCase(s: State)
    requires Inv(s) && s.caseState == PaymentPending && Gate(s)
    ensures
      var t := Next(s, Transition(CaseCompleted, Admin, false));
      var newest := if s.plans == [] then None else Some(|s.plans| - 1);
      && t.caseState == CaseCompleted && |t.plans| == |s.plans| && t.handoffs == s.handoffs
      && (forall p :: 0 <= p < |s.plans| ==>
            t.plans[p] == (if p == |s.plans| - 1 then s.plans[p].(status := PlanCompleted) else s.plans[p]))
      && t.outcome.Some? && t.outcome.value.completed && t.outcome.value.rows == t.rows && t.outcome.value.plan == newest
      && (forall h :: h in t.outcome.value.handoffs <==> h in s.handoffs && OfNewest(s, h))
  {
    hide C.Sync, K.LayerReady, K.Lasting, ReadyToComplete, RecordCompletion, Considered, OnlyNewestOpen, Next;
    if s.plans != [] { assert PlanOk(s.plans[|s.plans| - 1]); }
    ReadyIffGate(s);
    CompletionIsRecorded(s);
    RecordedCompletion(RefreshRows(s));
  }

  // ---------------------------------------------------------------------------------------------
  // The way to completion

  /** Who may move a case where: the whole table, by role. */
  predicate MayMove(from: CaseState, to: CaseState, role: Role) {
    if role == Admin then
      (from, to) in {
        (Intake, Triage), (Triage, DiagnosticPending), (Triage, ProviderSelection), (Triage, TowPending),
        (DiagnosticPending, DiagnosticInProgress), (DiagnosticInProgress, ProviderSelection), (DiagnosticInProgress, TowPending),
        (DiagnosticInProgress, RepairInProgress), (TowPending, TowInProgress), (TowInProgress, ProviderSelection),
        (TowInProgress, RepairInProgress), (TowInProgress, DiagnosticPending), (ProviderSelection, ProviderPending),
        (ProviderPending, RepairInProgress), (ProviderPending, ProviderSelection), (RepairInProgress, PartsPending),
        (PartsPending, RepairInProgress), (RepairInProgress, PaymentPending), (PaymentPending, CaseCompleted)}
    else if role == Customer then (from, to) in {(Intake, Triage), (ProviderSelection, ProviderPending)}
    else if role == Partner then
      (from, to) in {
        (TowInProgress, RepairInProgress), (ProviderSelection, ProviderPending), (ProviderPending, RepairInProgress),
        (ProviderPending, ProviderSelection), (RepairInProgress, PartsPending), (PartsPending, RepairInProgress),
        (RepairInProgress, PaymentPending)}
    else if role == Diagnostic then
      (from, to) in {
        (DiagnosticPending, DiagnosticInProgress), (DiagnosticInProgress, ProviderSelection),
        (DiagnosticInProgress, TowPending), (DiagnosticInProgress, RepairInProgress)}
    else if role == Tow then
      (from, to) in {(TowPending, TowInProgress), (TowInProgress, ProviderSelection), (TowInProgress, DiagnosticPending)}
    else role == PartsSupplier && from == PartsPending && to == RepairInProgress
  }

  /** A transition other than an end succeeds exactly by the table, or for a transport that starts its tow. */
  lemma MovesByTable(s: State, to: CaseState, role: Role, byTransport: bool)
    requires s.caseState != to && to != CaseCancelled && to != CaseCompleted
    ensures TransitionCase(s, to, role, byTransport).Ok?
       <==> MayMove(s.caseState, to, role) || (byTransport && s.caseState == TowPending && to == TowInProgress)
    ensures TransitionCase(s, to, role, byTransport).Ok? ==>
      Next(s, Transition(to, role, byTransport))
        == s.(caseState := to, handoffs := if to == PaymentPending then FinishProviderWork(s.handoffs) else s.handoffs)
  {
    hide FinishProviderWork, CompleteCase, CancelCase;
  }

  /** A run visits a state if some beginning of it ends there. */
  ghost predicate Visits(s: State, actions: seq<Action>, c: CaseState) {
    exists n :: 0 <= n <= |actions| && Run(s, actions[..n]).caseState == c
  }

  /** Only work under repair leads to payment, and only payment to completion. */
  lemma ComesFrom(s: State, a: Action)
    requires Inv(s)
    ensures Next(s, a).caseState == CaseCompleted && s.caseState != CaseCompleted ==> s.caseState == PaymentPending
    ensures Next(s, a).caseState == PaymentPending && s.caseState != PaymentPending ==> s.caseState == RepairInProgress
  {
    hide CompleteCase, CancelCase, C.Sync, FinishProviderWork;
    if a.Transition? {
      if a.to == CaseCancelled { CancelledIsCancelled(s); }
      if a.to == CaseCompleted { CompletesIffGateState(s); }
    }
  }

  lemma CompletesIffGateState(s: State)
    ensures CompleteCase(s).Ok? ==> CompleteCase(s).value.caseState == CaseCompleted
  {
    hide C.Sync, ReadyToComplete, RecordCompletion;
  }

  lemma VisitsGrow(s: State, actions: seq<Action>, c: CaseState)
    requires actions != [] && Visits(s, actions[..|actions| - 1], c)
    ensures Visits(s, actions, c)
  {
    hide Run;
    var front := actions[..|actions| - 1];
    var n :| 0 <= n <= |front| && Run(s, front[..n]).caseState == c;
    assert actions[..n] == front[..n];
  }

  lemma VisitsEnd(s: State, actions: seq<Action>)
    ensures Visits(s, actions, Run(s, actions).caseState)
  {
    hide Run;
    assert actions[..|actions|] == actions;
  }

  /** Every case that is completed has been through repair and payment. */
  lemma {:induction false} CompletedWasRepairedAndPaid(sources: C.Sources, actions: seq<Action>)
    ensures Run(Opened(sources), actions).caseState == PaymentPending ==> Visits(Opened(sources), actions, RepairInProgress)
    ensures Run(Opened(sources), actions).caseState == CaseCompleted ==>
      Visits(Opened(sources), actions, RepairInProgress) && Visits(Opened(sources), actions, PaymentPending)
  {
    if actions != [] {
      hide Inv, Next, Visits;
      var s := Opened(sources);
      var front, last := actions[..|actions| - 1], actions[|actions| - 1];
      CompletedWasRepairedAndPaid(sources, front);
      OpenedInv(sources);
      RunKeepsInv(s, front);
      ComesFrom(Run(s, front), last);
      VisitsEnd(s, front);
      VisitsGrowing(s, actions);
    }
  }

  lemma VisitsGrowing(s: State, actions: seq<Action>)
    requires actions != []
    ensures forall c :: Visits(s, actions[..|actions| - 1], c) ==> Visits(s, actions, c)
  {
    hide Visits;
    forall c | Visits(s, actions[..|actions| - 1], c) ensures Visits(s, actions, c) { VisitsGrow(s, actions, c); }
  }
}
