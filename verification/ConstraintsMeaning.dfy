/** When a projection is blocked or unknown; with readiness this tells every derived status. */
module ConstraintsMeaning {
  import opened Prelude
  import opened Constraints
  import opened ConstraintsProofs
  import M = Mobility

  /** A layer stands in the way of the case, from the rows alone. */
  ghost predicate LayerBlocked(src: Sources, kind: Kind) {
    match kind
    case Parts => Unavailable in src.parts
    case Mobility => exists i: nat :: Newest(src.mobility, LiveAllocation, i) && src.mobility[i] in {M.Failed, M.Declined}
    case CustomerTime => false
    case Approval =>
      exists i :: 0 <= i < |src.approvals| && !Outdated(src.approvals[i]) && src.approvals[i].state in {Rejected, Expired, Revoked}
    case Authorization => AuthBlocked in src.authorizations
    case Transport => exists i: nat :: Newest(src.dispatches, LiveDispatch, i) && TransportBlocked(src.dispatches[i])
  }

  /** An approval of another revision than the plan's current one. */
  predicate Outdated(a: ApprovalRow) {
    a.planRevision.Some? && a.revision.Some? && a.revision.value != a.planRevision.value
  }

  /** Turned down or failed; or, with a place to go, assigned to an inactive provider or on the road without an active one. */
  predicate TransportBlocked(d: Dispatch) {
    || d.status in {TransportDeclined, TransportFailed}
    || (d.destinationReady && d.status == TransportAssigned && d.provider == Some(false))
    || (d.destinationReady && d.provider != Some(true) && d.status in {TransportAccepted, EnRoute, Arrived, VehicleLoaded, InTransit})
  }

  /** Only a missed appointment without both of its times leaves a layer unknown. */
  ghost predicate LayerUnknown(src: Sources, kind: Kind) {
    && kind == CustomerTime
    && exists i: nat :: Newest(src.appointments, LiveAppointment, i) && src.appointments[i].status == NoShow
                        && (src.appointments[i].startsAt.None? || src.appointments[i].endsAt.None?)
  }

  /** An approval derives something exactly when some row is not outdated, and is satisfied when all such rows are approved. */
  lemma ApprovalsThatCount(src: Sources, now: int)
    ensures Derived(src, Approval, now).None? <==> forall i :: 0 <= i < |src.approvals| ==> Outdated(src.approvals[i])
    ensures Derived(src, Approval, now) in {None, Some(Satisfied)} <==>
      forall i :: 0 <= i < |src.approvals| && !Outdated(src.approvals[i]) ==> src.approvals[i].state == Approved
  {
    assert forall i :: 0 <= i < |src.approvals| ==> Current(src.approvals[i]) == !Outdated(src.approvals[i]);
    hide Derived;
    DerivedIffReady(src, Approval, now);
  }

  lemma {:induction false} CountPositive(parts: seq<Readiness>, r: Readiness)
    ensures CountReadiness(parts, r) > 0 <==> r in parts
    ensures r != CancelledPart && r in parts ==> LiveParts(parts) > 0
  {
    if parts != [] {
      CountPositive(parts[..|parts| - 1], r);
      assert parts == parts[..|parts| - 1] + [parts[|parts| - 1]];
    }
  }

  /** What is derived is Blocked exactly when the layer is blocked, and Unknown exactly when it is unknown. */
  ghost predicate DerivedTells(src: Sources, kind: Kind, now: int) {
    && (Derived(src, kind, now) == Some(Blocked) <==> LayerBlocked(src, kind))
    && (Derived(src, kind, now) == Some(Unknown) <==> LayerUnknown(src, kind))
  }

  lemma PartsTold(src: Sources, now: int)
    ensures DerivedTells(src, Parts, now)
  {
    CountPositive(src.parts, Unavailable);
  }

  lemma MobilityTold(src: Sources, now: int)
    ensures DerivedTells(src, Mobility, now)
  {
    FirstCongruent(src.mobility, (s: M.AllocationState) => s != M.Cancelled, LiveAllocation);
    FirstIsNewest(src.mobility, LiveAllocation);
  }

  lemma CustomerTimeTold(src: Sources, now: int)
    ensures DerivedTells(src, CustomerTime, now)
  {
    FirstCongruent(src.appointments, (a: Appointment) => a.status != Cancelled && a.status != Released, LiveAppointment);
    FirstIsNewest(src.appointments, LiveAppointment);
  }

  lemma ApprovalTold(src: Sources, now: int)
    ensures DerivedTells(src, Approval, now)
  {
    assert forall i :: 0 <= i < |src.approvals| ==> Current(src.approvals[i]) == !Outdated(src.approvals[i]);
    ApprovalStates(src.approvals);
    var states := CurrentApprovals(src.approvals);
    hide CurrentApprovals;
    if Pending !in states && !LayerBlocked(src, Approval) {
      forall i | 0 <= i < |states| ensures states[i] == Approved { assert states[i] in states; }
    }
  }

  lemma AuthorizationTold(src: Sources, now: int)
    ensures DerivedTells(src, Authorization, now)
  {
    var statuses := src.authorizations;
    if AuthBlocked !in statuses && AuthRequired !in statuses {
      forall i | 0 <= i < |statuses| ensures Settled(statuses[i]) { assert statuses[i] in statuses; }
    }
  }

  lemma TransportTold(src: Sources, now: int)
    ensures DerivedTells(src, Transport, now)
  {
    FirstCongruent(src.dispatches, (d: Dispatch) => d.status != TransportCancelled, LiveDispatch);
    FirstIsNewest(src.dispatches, LiveDispatch);
  }

  lemma AllTold(src: Sources, kind: Kind, now: int)
    ensures DerivedTells(src, kind, now)
  {
    hide DerivedTells;
    match kind
    case Parts => PartsTold(src, now);
    case Mobility => MobilityTold(src, now);
    case CustomerTime => CustomerTimeTold(src, now);
    case Approval => ApprovalTold(src, now);
    case Authorization => AuthorizationTold(src, now);
    case Transport => TransportTold(src, now);
  }

  /**
   * Every derived status, told from the operating rows: nothing without a row that counts, Blocked and
   * Unknown by the two predicates above, Satisfied when the layer is ready, and otherwise Required.
   */
  lemma DerivedStatus(src: Sources, kind: Kind, now: int)
    ensures Derived(src, kind, now) ==
      if !HasSource(src, kind) then None
      else if LayerBlocked(src, kind) then Some(Blocked)
      else if LayerUnknown(src, kind) then Some(Unknown)
      else if LayerReady(src, kind, now) then Some(Satisfied)
      else Some(Required)
  {
    hide Derived, LayerBlocked, LayerUnknown, LayerReady, HasSource;
    AllTold(src, kind, now);
    DerivedIffReady(src, kind, now);
    DerivedNeverWaives(src, kind, now);
    var d := Derived(src, kind, now);
    assert d.None? || d.value.Required? || d.value.Satisfied? || d.value.Waived? || d.value.Blocked? || d.value.Unknown?;
  }

  /** A passed or missed appointment has to be made again, and nothing about time is ever blocked. */
  lemma MissedTimeIsRequired(src: Sources, now: int, i: nat)
    requires Newest(src.appointments, LiveAppointment, i)
    requires
      var a := src.appointments[i];
      || (a.status == NoShow && a.startsAt.Some? && a.endsAt.Some?)
      || (a.status in {Held, Confirmed} && a.endsAt.Some? && a.endsAt.value <= now)
    ensures Derived(src, CustomerTime, now) == Some(Required)
  {
    CustomerTimeTold(src, now);
    FirstCongruent(src.appointments, (a: Appointment) => a.status != Cancelled && a.status != Released, LiveAppointment);
    FirstIsNewest(src.appointments, LiveAppointment);
  }

  /** What the derivations say of inputs that no query hands them: what was given up is required, and no demand is satisfied. */
  lemma EmptyDerivations(a: Appointment, now: int)
    ensures a.status in {Cancelled, Released} ==> DeriveCustomerTime(a, now) == Required
    ensures DeriveMobility(M.Cancelled) == Required && DeriveApproval([]) == Required && DeriveAuthorization([]) == Satisfied
  {
  }
}
