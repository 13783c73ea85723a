/**
 * Fulfilment of one case: versioned plans and their participants, handoffs, and the gate that a case
 * passes to be completed (src/services/network-execution.ts, src/services/fulfillment-planner.ts and
 * the transitions of src/services/orchestration.ts). Plan number p of the list has version p + 1.
 */
module Fulfilment {
  import opened Prelude
  import C = Constraints
  import P = PartsStock

  datatype Role = Admin | Customer | Partner | Diagnostic | Tow | PartsSupplier | Fleet

  datatype CaseState =
    | Intake | Triage | DiagnosticPending | DiagnosticInProgress | ProviderSelection | ProviderPending
    | TowPending | TowInProgress | RepairInProgress | PartsPending | PaymentPending | CaseCompleted | CaseCancelled

  datatype PlanStatus = Draft | Feasible | PlanBlocked | PlanAccepted | Superseded | PlanCompleted | PlanCancelled

  datatype Participation = Proposed | Accepted | Declined | Expired

  datatype Candidate = Candidate(rank: nat, participation: Participation)

  datatype Acceptance = Acceptance(actor: ActorId, accepted: bool)

  /** `recovery` is the time at which the plan was first marked as needing recovery; decisions are oldest first. */
  datatype Plan = Plan(
    status: PlanStatus, recovery: Option<nat>, selected: Option<ActorId>,
    candidates: map<ActorId, Candidate>, decisions: seq<Acceptance>)

  datatype HandoffType = ServiceProvider | PartsHandoff | TransportHandoff | MobilityHandoff | DiagnosticHandoff | OtherHandoff

  datatype HandoffStatus =
    | Planned | HandoffAssigned | HandoffAccepted | InProgress | HandoffCompleted | HandoffDeclined | HandoffFailed | HandoffCancelled

  datatype HandoffKey = HandoffKey(kind: HandoffType, referenceType: string, referenceId: string)

  datatype Handoff = Handoff(key: HandoffKey, plan: Option<nat>, status: HandoffStatus)

  datatype Outcome = Outcome(completed: bool, plan: Option<nat>, rows: seq<C.Row>, handoffs: seq<Handoff>)

  datatype State = State(
    now: nat, caseState: CaseState, plans: seq<Plan>, handoffs: seq<Handoff>, rows: seq<C.Row>,
    sources: C.Sources, outcome: Option<Outcome>)

  datatype Error = InvalidCaseTransition | TransitionForbidden | FulfillmentNotComplete

  datatype Action =
    | Generate(ranked: seq<ActorId>)
    | Decide(actor: ActorId, accepted: bool)
    | UpsertHandoff(key: HandoffKey, status: HandoffStatus)
    | Refresh
    | Transition(to: CaseState, role: Role, byTransport: bool)
    | Move(state: CaseState)
    | Operate(sources: C.Sources)
    | Edit(rows: seq<C.Row>)
    | Tick(seconds: nat)

  function Opened(sources: C.Sources): State { State(0, Intake, [], [], [], sources, None) }

  // ---------------------------------------------------------------------------------------------
  // Plans

  /** The newest plan that is not superseded. */
  function Latest(plans: seq<Plan>): (p: Option<nat>)
    ensures p.Some? ==> p.value < |plans|
  {
    if plans == [] then None
    else if plans[|plans| - 1].status != Superseded then Some(|plans| - 1)
    else Latest(plans[..|plans| - 1])
  }

  predicate Replaceable(status: PlanStatus) { status == Draft || status == Feasible || status == PlanBlocked }

  predicate Closed(status: PlanStatus) { status == PlanCompleted || status == PlanCancelled || status == Superseded }

  function Supersede(plan: Plan): Plan { if Replaceable(plan.status) then plan.(status := Superseded) else plan }

  predicate Distinct(actors: seq<ActorId>) { forall i, j :: 0 <= i < j < |actors| ==> actors[i] != actors[j] }

  /** The ranked candidates, inserted one by one: a repeated actor would violate the unique index. */
  function Ranked(actors: seq<ActorId>): map<ActorId, Candidate> {
    if actors == [] then map[]
    else Ranked(actors[..|actors| - 1])[actors[|actors| - 1] := Candidate(|actors|, Proposed)]
  }

  function NewPlan(ranked: seq<ActorId>, clear: bool): Plan {
    Plan(if ranked != [] && clear then Feasible else PlanBlocked, None, None, Ranked(ranked), [])
  }

  function GeneratePlan(s: State, ranked: seq<ActorId>): State {
    if !Distinct(ranked) then s
    else
      s.(plans := seq(|s.plans|, i requires 0 <= i < |s.plans| => Supersede(s.plans[i])) + [NewPlan(ranked, C.AllClear(s.rows))])
  }

  // ---------------------------------------------------------------------------------------------
  // Participants

  function Without(decisions: seq<Acceptance>, actor: ActorId): seq<Acceptance> {
    if decisions == [] then []
    else (if decisions[0].actor == actor then [] else [decisions[0]]) + Without(decisions[1..], actor)
  }

  /** One decision per actor; a new one becomes the latest. */
  function Decided(decisions: seq<Acceptance>, actor: ActorId, accepted: bool): seq<Acceptance> {
    Without(decisions, actor) + [Acceptance(actor, accepted)]
  }

  function LatestAccepted(decisions: seq<Acceptance>): Option<ActorId> {
    if decisions == [] then None
    else if decisions[|decisions| - 1].accepted then Some(decisions[|decisions| - 1].actor)
    else LatestAccepted(decisions[..|decisions| - 1])
  }

  /** Everybody else who has not answered is no longer asked. */
  function ExpireOthers(candidates: map<ActorId, Candidate>, actor: ActorId): map<ActorId, Candidate> {
    map a | a in candidates ::
      if a != actor && candidates[a].participation == Proposed then candidates[a].(participation := Expired) else candidates[a]
  }

  function Reconcile(plan: Plan, actor: ActorId, clear: bool): Plan {
    if Closed(plan.status) then plan
    else plan.(status := if plan.recovery.Some? || !clear then PlanBlocked else PlanAccepted, selected := Some(actor))
  }

  function FirstTime(t: Option<nat>, now: nat): Option<nat> { if t.Some? then t else Some(now) }

  function Accept(plan: Plan, actor: ActorId, clear: bool): Plan
    requires actor in plan.candidates
  {
    var answered := plan.candidates[actor := plan.candidates[actor].(participation := Accepted)];
    Reconcile(plan.(candidates := ExpireOthers(answered, actor), decisions := Decided(plan.decisions, actor, true)), actor, clear)
  }

  function Decline(plan: Plan, actor: ActorId, now: nat): Plan
    requires actor in plan.candidates
  {
    var answered := plan.(
      candidates := plan.candidates[actor := plan.candidates[actor].(participation := Declined)],
      decisions := Decided(plan.decisions, actor, false));
    if plan.status == Feasible || plan.status == PlanAccepted || plan.status == PlanBlocked then
      answered.(status := PlanBlocked, selected := if plan.selected == Some(actor) then None else plan.selected,
                recovery := FirstTime(plan.recovery, now))
    else answered
  }

  function DecideParticipant(s: State, actor: ActorId, accepted: bool): State {
    match Latest(s.plans)
    case None => s
    case Some(p) =>
      if actor !in s.plans[p].candidates then s
      else if accepted then s.(plans := s.plans[p := Accept(s.plans[p], actor, C.AllClear(s.rows))])
      else s.(plans := s.plans[p := Decline(s.plans[p], actor, s.now)])
  }

  // ---------------------------------------------------------------------------------------------
  // Handoffs

  function HandoffForTransport(status: C.TransportStatus): HandoffStatus {
    match status
    case TransportAssigned => HandoffAssigned
    case TransportAccepted => HandoffAccepted
    case EnRoute => InProgress case Arrived => InProgress case VehicleLoaded => InProgress case InTransit => InProgress
    case Delivered => HandoffCompleted
    case TransportDeclined => HandoffDeclined
    case TransportFailed => HandoffFailed
    case TransportCancelled => HandoffCancelled
    case TransportRequested => Planned
  }

  function HandoffForMobility(state: C.M.AllocationState): HandoffStatus {
    match state
    case Requested => Planned case Reserved => Planned
    case Assigned => HandoffAssigned
    case Active => InProgress case ReturnPending => InProgress
    case Completed => HandoffCompleted
    case Declined => HandoffDeclined
    case Failed => HandoffFailed
    case Cancelled => HandoffCancelled
  }

  function HandoffForParts(status: P.Status): HandoffStatus {
    match status
    case Requested => Planned
    case SupplierAssigned => HandoffAssigned
    case Reserved => InProgress case Ordered => InProgress case Shipped => InProgress
    case Delivered => HandoffCompleted
    case Failed => HandoffFailed
    case Cancelled => HandoffCancelled
  }

  /** A handoff keeps the plan it was first recorded under, and joins the latest one if it had none. */
  function PutHandoff(handoffs: seq<Handoff>, key: HandoffKey, plan: Option<nat>, status: HandoffStatus): seq<Handoff> {
    if handoffs == [] then [Handoff(key, plan, status)]
    else if handoffs[0].key == key then
      [Handoff(key, if handoffs[0].plan.Some? then handoffs[0].plan else plan, status)] + handoffs[1..]
    else [handoffs[0]] + PutHandoff(handoffs[1..], key, plan, status)
  }

  function MarkRecovery(plan: Plan, now: nat): Plan {
    if Closed(plan.status) then plan else plan.(status := PlanBlocked, recovery := FirstTime(plan.recovery, now))
  }

  function AfterHandoff(plan: Plan, status: HandoffStatus, clear: bool, now: nat): Plan {
    if status == HandoffDeclined || status == HandoffFailed then MarkRecovery(plan, now)
    else match LatestAccepted(plan.decisions) case None => plan case Some(actor) => Reconcile(plan, actor, clear)
  }

  function RecordHandoff(s: State, key: HandoffKey, status: HandoffStatus): State {
    var latest := Latest(s.plans);
    var t := s.(handoffs := PutHandoff(s.handoffs, key, latest, status));
    match latest
    case None => t
    case Some(p) => t.(plans := s.plans[p := AfterHandoff(s.plans[p], status, C.AllClear(s.rows), s.now)])
  }

  // ---------------------------------------------------------------------------------------------
  // The completion gate

  datatype Blocker = ConstraintBlocker(row: C.Row) | HandoffBlocker(handoff: Handoff)

  predicate Done(h: Handoff) { h.status == HandoffCompleted || h.status == HandoffCancelled }

  function ConstraintBlockers(rows: seq<C.Row>): seq<Blocker> {
    if rows == [] then []
    else ConstraintBlockers(rows[..|rows| - 1]) + if C.Clear(rows[|rows| - 1]) then [] else [ConstraintBlocker(rows[|rows| - 1])]
  }

  function HandoffBlockers(handoffs: seq<Handoff>): seq<Blocker> {
    if handoffs == [] then []
    else
      HandoffBlockers(handoffs[..|handoffs| - 1])
      + if Done(handoffs[|handoffs| - 1]) then [] else [HandoffBlocker(handoffs[|handoffs| - 1])]
  }

  function CompletionBlockers(rows: seq<C.Row>, handoffs: seq<Handoff>): seq<Blocker> {
    ConstraintBlockers(rows) + HandoffBlockers(handoffs)
  }

  /** The gate looks at the handoffs of the latest plan and of none; without a plan, at all of them. */
  predicate Considered(h: Handoff, latest: Option<nat>) { latest.None? || h.plan.None? || h.plan == latest }

  function ConsideredHandoffs(handoffs: seq<Handoff>, latest: Option<nat>): seq<Handoff> {
    if handoffs == [] then []
    else
      ConsideredHandoffs(handoffs[..|handoffs| - 1], latest)
      + if Considered(handoffs[|handoffs| - 1], latest) then [handoffs[|handoffs| - 1]] else []
  }

  predicate ReadyToComplete(s: State) {
    var latest := Latest(s.plans);
    && (latest.Some? ==> s.plans[latest.value].status == PlanAccepted)
    && CompletionBlockers(s.rows, ConsideredHandoffs(s.handoffs, latest)) == []
  }

  function RefreshRows(s: State): State { s.(rows := C.Sync(s.rows, s.sources, s.now)) }

  function RecordCompletion(s: State): State {
    var latest := Latest(s.plans);
    var outcome := Outcome(true, latest, s.rows, ConsideredHandoffs(s.handoffs, latest));
    var plans := match latest
      case None => s.plans
      case Some(p) => s.plans[p := s.plans[p].(status := PlanCompleted, recovery := None)];
    s.(outcome := Some(outcome), plans := plans)
  }

  /** Handoffs of exactly one plan. */
  function HandoffsOf(handoffs: seq<Handoff>, plan: nat): seq<Handoff> {
    if handoffs == [] then []
    else
      HandoffsOf(handoffs[..|handoffs| - 1], plan)
      + if handoffs[|handoffs| - 1].plan == Some(plan) then [handoffs[|handoffs| - 1]] else []
  }

  function RecordCancellation(s: State): State {
    match Latest(s.plans)
    case None => s.(outcome := Some(Outcome(false, None, s.rows, [])))
    case Some(p) =>
      var plan := s.plans[p];
      s.(outcome := Some(Outcome(false, Some(p), s.rows, HandoffsOf(s.handoffs, p))),
         plans := s.plans[p := if plan.status == PlanCompleted then plan else plan.(status := PlanCancelled)])
  }

  /** Work by the provider that has started counts as done once payment is due. */
  function FinishProviderWork(handoffs: seq<Handoff>): (r: seq<Handoff>)
    ensures |r| == |handoffs|
  {
    seq(|handoffs|, i requires 0 <= i < |handoffs| =>
      var h := handoffs[i];
      if h.key.kind == ServiceProvider && (h.status == HandoffAssigned || h.status == HandoffAccepted || h.status == InProgress)
      then h.(status := HandoffCompleted) else h)
  }

  /** The trigger on a cancelled case (migrations/039_case_cancellation_shop_os_appointments.sql). */
  function CancelAppointments(appointments: seq<C.Appointment>): seq<C.Appointment> {
    seq(|appointments|, i requires 0 <= i < |appointments| =>
      var a := appointments[i];
      if a.status == C.Held || a.status == C.Confirmed || a.status == C.InProgress then a.(status := C.Cancelled) else a)
  }

  // ---------------------------------------------------------------------------------------------
  // Transitions

  /** The roles that may make a transition; none where there is no rule. The later migrations are included. */
  function Rule(from: CaseState, to: CaseState): set<Role> {
    match (from, to)
    case (Intake, Triage) => {Customer, Admin}
    case (Triage, DiagnosticPending) => {Admin}
    case (Triage, ProviderSelection) => {Admin}
    case (Triage, TowPending) => {Admin}
    case (DiagnosticPending, DiagnosticInProgress) => {Diagnostic, Admin}
    case (DiagnosticInProgress, ProviderSelection) => {Diagnostic, Admin}
    case (DiagnosticInProgress, TowPending) => {Diagnostic, Admin}
    case (DiagnosticInProgress, RepairInProgress) => {Diagnostic, Admin}
    case (TowPending, TowInProgress) => {Tow, Admin}
    case (TowInProgress, ProviderSelection) => {Tow, Admin}
    case (TowInProgress, RepairInProgress) => {Partner, Admin}
    case (TowInProgress, DiagnosticPending) => {Tow, Admin}
    case (ProviderSelection, ProviderPending) => {Customer, Partner, Admin}
    case (ProviderPending, RepairInProgress) => {Partner, Admin}
    case (ProviderPending, ProviderSelection) => {Partner, Admin}
    case (RepairInProgress, PartsPending) => {Partner, Admin}
    case (PartsPending, RepairInProgress) => {PartsSupplier, Partner, Admin}
    case (RepairInProgress, PaymentPending) => {Partner, Admin}
    case (PaymentPending, CaseCompleted) => {Admin}
    case _ => {}
  }

  /** Whether the case may move, before anything is done about it. */
  function Permission(from: CaseState, to: CaseState, role: Role, byTransport: bool): Option<Error> {
    if to == CaseCancelled then
      if from == CaseCompleted then Some(InvalidCaseTransition)
      else if role != Admin && role != Customer then Some(TransitionForbidden)
      else None
    else if Rule(from, to) == {} then Some(InvalidCaseTransition)
    else if !(byTransport && from == TowPending && to == TowInProgress) && role !in Rule(from, to) then Some(TransitionForbidden)
    else None
  }

  function CompleteCase(s: State): Result<State, Error> {
    var refreshed := RefreshRows(s);
    if ReadyToComplete(refreshed) then Ok(RecordCompletion(refreshed).(caseState := CaseCompleted)) else Err(FulfillmentNotComplete)
  }

  function CancelCase(s: State): State {
    var moved := s.(caseState := CaseCancelled, sources := s.sources.(appointments := CancelAppointments(s.sources.appointments)));
    RecordCancellation(RefreshRows(moved))
  }

  function TransitionCase(s: State, to: CaseState, role: Role, byTransport: bool): Result<State, Error> {
    if s.caseState == to then Ok(s)
    else
      match Permission(s.caseState, to, role, byTransport)
      case Some(e) => Err(e)
      case None =>
        match to
        case PaymentPending => Ok(s.(handoffs := FinishProviderWork(s.handoffs), caseState := to))
        case CaseCompleted => CompleteCase(s)
        case CaseCancelled => Ok(CancelCase(s))
        case _ => Ok(s.(caseState := to))
  }

  /** The states between which offers and selections move a case directly. */
  predicate Selecting(c: CaseState) { c == ProviderSelection || c == ProviderPending || c == RepairInProgress }

  predicate Ended(c: CaseState) { c == CaseCompleted || c == CaseCancelled }

  function Next(s: State, a: Action): State {
    match a
    case Generate(ranked) => GeneratePlan(s, ranked)
    case Decide(actor, accepted) => DecideParticipant(s, actor, accepted)
    case UpsertHandoff(key, status) => RecordHandoff(s, key, status)
    case Refresh => RefreshRows(s)
    case Transition(to, role, byTransport) =>
      (match TransitionCase(s, to, role, byTransport) case Ok(t) => t case Err(_) => s)
    case Move(state) => if Selecting(state) && !Ended(s.caseState) then s.(caseState := state) else s
    case Operate(sources) => s.(sources := sources)
    case Edit(rows) => if C.UniqueKeys(rows) then s.(rows := rows) else s
    case Tick(seconds) => s.(now := s.now + seconds)
  }

  function Run(s: State, actions: seq<Action>): State {
    if actions == [] then s else Next(Run(s, actions[..|actions| - 1]), actions[|actions| - 1])
  }
}
