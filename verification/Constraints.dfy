/**
 * The constraint table of one case and its operational projection
 * (src/services/case-constraint-projection.ts). The operating tables stay authoritative; six rows of
 * the constraint table, each under its own key, cache what they mean for the case.
 */
module Constraints {
  import opened Prelude
  import M = Mobility

  datatype Status = Required | Satisfied | Waived | Blocked | Unknown

  datatype Kind = Parts | Mobility | CustomerTime | Approval | Authorization | Transport

  datatype Key = Projection(kind: Kind) | Named(name: string)

  datatype Type = Projected(kind: Kind) | Resource | Capability | Provider | Other

  /** `operational` is whether the row's source is the projection rather than a person or a partner. */
  datatype Row = Row(kind: Type, status: Status, key: Option<Key>, operational: bool)

  /** The source's list, in the order the projections are refreshed. */
  const KINDS := [Parts, Mobility, CustomerTime, Approval, Authorization, Transport]

  // ---------------------------------------------------------------------------------------------
  // The operating tables of one case

  datatype Readiness = Identified | Sourcing | Ordered | EtaKnown | Received | Ready | Unavailable | CancelledPart

  datatype AppointmentStatus = Held | Confirmed | InProgress | Completed | Cancelled | NoShow | Released

  /** Times that are not finite are absent. */
  datatype Appointment = Appointment(status: AppointmentStatus, startsAt: Option<int>, endsAt: Option<int>)

  datatype ApprovalState = Pending | Approved | Rejected | Expired | Revoked

  /** The current revision of the plan the approval belongs to, if any, and the revision it is for. */
  datatype ApprovalRow = ApprovalRow(state: ApprovalState, planRevision: Option<int>, revision: Option<int>)

  datatype AuthorizationStatus = AuthRequired | AuthSatisfied | AuthWaived | NotApplicable | AuthBlocked

  datatype TransportStatus =
    | TransportRequested | TransportAssigned | TransportAccepted | EnRoute | Arrived | VehicleLoaded | InTransit
    | Delivered | TransportDeclined | TransportCancelled | TransportFailed

  /** `provider` is absent without a provider, and otherwise tells whether the provider is active. */
  datatype Dispatch = Dispatch(status: TransportStatus, destinationReady: bool, provider: Option<bool>)

  /** Mobility, appointments and dispatches are listed newest first. */
  datatype Sources = Sources(
    parts: seq<Readiness>, mobility: seq<M.AllocationState>, appointments: seq<Appointment>,
    approvals: seq<ApprovalRow>, authorizations: seq<AuthorizationStatus>, dispatches: seq<Dispatch>)

  // ---------------------------------------------------------------------------------------------
  // Derivations

  function CountReadiness(parts: seq<Readiness>, r: Readiness): nat {
    if parts == [] then 0
    else CountReadiness(parts[..|parts| - 1], r) + if parts[|parts| - 1] == r then 1 else 0
  }

  function LiveParts(parts: seq<Readiness>): nat { |parts| - CountCancelled(parts) }

  function CountCancelled(parts: seq<Readiness>): (n: nat)
    ensures n <= |parts|
  {
    if parts == [] then 0
    else CountCancelled(parts[..|parts| - 1]) + if parts[|parts| - 1] == CancelledPart then 1 else 0
  }

  function DeriveParts(total: nat, ready: nat, unavailable: nat): Status {
    if unavailable > 0 then Blocked else if ready == total then Satisfied else Required
  }

  function DeriveMobility(current: M.AllocationState): Status {
    match current
    case Reserved => Satisfied case Assigned => Satisfied case Active => Satisfied
    case ReturnPending => Satisfied case Completed => Satisfied
    case Failed => Blocked case Declined => Blocked
    case _ => Required
  }

  function DeriveCustomerTime(a: Appointment, now: int): Status {
    var expired := a.endsAt.Some? && a.endsAt.value <= now;
    if a.status == Cancelled || a.status == Released then Required
    else if (a.status == Held || a.status == Confirmed) && expired then Required
    else if a.status == Held || a.status == Confirmed || a.status == InProgress || a.status == Completed then Satisfied
    else if a.startsAt.None? || a.endsAt.None? then Unknown
    else Required
  }

  function DeriveApproval(states: seq<ApprovalState>): Status {
    if states == [] then Required
    else if Rejected in states || Expired in states || Revoked in states then Blocked
    else if forall i :: 0 <= i < |states| ==> states[i] == Approved then Satisfied
    else if Pending in states then Required
    else Unknown
  }

  predicate Settled(s: AuthorizationStatus) { s == AuthSatisfied || s == AuthWaived || s == NotApplicable }

  function DeriveAuthorization(statuses: seq<AuthorizationStatus>): Status {
    if statuses == [] then Satisfied
    else if AuthBlocked in statuses then Blocked
    else if AuthRequired in statuses then Required
    else if forall i :: 0 <= i < |statuses| ==> Settled(statuses[i]) then Satisfied
    else Unknown
  }

  predicate UnderWay(s: TransportStatus) {
    s == TransportAccepted || s == EnRoute || s == Arrived || s == VehicleLoaded || s == InTransit
  }

  function DeriveTransport(d: Dispatch): Status {
    if d.status == TransportDeclined || d.status == TransportFailed then Blocked
    else if !d.destinationReady then Required
    else if d.status == TransportAssigned && d.provider == Some(false) then Blocked
    else if UnderWay(d.status) then (if d.provider == Some(true) then Satisfied else Blocked)
    else if d.status == Delivered then Satisfied
    else if d.status == TransportRequested || d.status == TransportAssigned then Required
    else Unknown
  }

  /** The first element that a query does not filter out. */
  function First<T>(xs: seq<T>, live: T -> bool): Option<T> {
    if xs == [] then None else if live(xs[0]) then Some(xs[0]) else First(xs[1..], live)
  }

  /** An approval counts while it is for no plan, for no revision, or for the plan's current revision. */
  predicate Current(a: ApprovalRow) { a.planRevision.None? || a.revision.None? || a.revision == a.planRevision }

  function CurrentApprovals(approvals: seq<ApprovalRow>): seq<ApprovalState> {
    if approvals == [] then []
    else (if Current(approvals[0]) then [approvals[0].state] else []) + CurrentApprovals(approvals[1..])
  }

  /** What the operating tables say about one kind: nothing when they hold no row that counts. */
  function Derived(src: Sources, kind: Kind, now: int): Option<Status> {
    match kind
    case Parts =>
      var total := LiveParts(src.parts);
      if total == 0 then None
      else Some(DeriveParts(total, CountReadiness(src.parts, Ready), CountReadiness(src.parts, Unavailable)))
    case Mobility =>
      (match First(src.mobility, (s: M.AllocationState) => s != M.Cancelled)
       case None => None case Some(s) => Some(DeriveMobility(s)))
    case CustomerTime =>
      (match First(src.appointments, (a: Appointment) => a.status != Cancelled && a.status != Released)
       case None => None case Some(a) => Some(DeriveCustomerTime(a, now)))
    case Approval =>
      var states := CurrentApprovals(src.approvals);
      if states == [] then None else Some(DeriveApproval(states))
    case Authorization =>
      if src.authorizations == [] then None else Some(DeriveAuthorization(src.authorizations))
    case Transport =>
      (match First(src.dispatches, (d: Dispatch) => d.status != TransportCancelled)
       case None => None case Some(d) => Some(DeriveTransport(d)))
  }

  // ---------------------------------------------------------------------------------------------
  // The table

  /** No two rows share a projection key (a unique index of the table). */
  predicate UniqueKeys(rows: seq<Row>) {
    forall i, j :: 0 <= i < j < |rows| ==> rows[i].key.None? || rows[i].key != rows[j].key
  }

  predicate Clear(row: Row) { row.status == Satisfied || row.status == Waived }

  predicate AllClear(rows: seq<Row>) { forall i :: 0 <= i < |rows| ==> Clear(rows[i]) }

  function ProjectedRow(kind: Kind, status: Status): Row { Row(Projected(kind), status, Some(Projection(kind)), true) }

  /** The insertion with its conflict clause: the row with that key is overwritten, whoever owned it. */
  function Upsert(rows: seq<Row>, kind: Kind, status: Status): seq<Row> {
    if rows == [] then [ProjectedRow(kind, status)]
    else if rows[0].key == Some(Projection(kind)) then [ProjectedRow(kind, status)] + rows[1..]
    else [rows[0]] + Upsert(rows[1..], kind, status)
  }

  /** The deletion spares a row that is not operational, even under the same key. */
  function Delete(rows: seq<Row>, kind: Kind): seq<Row> {
    if rows == [] then []
    else (if rows[0].key == Some(Projection(kind)) && rows[0].operational then [] else [rows[0]]) + Delete(rows[1..], kind)
  }

  function SyncKind(rows: seq<Row>, kind: Kind, derived: Option<Status>): seq<Row> {
    match derived case None => Delete(rows, kind) case Some(status) => Upsert(rows, kind, status)
  }

  function SyncKinds(rows: seq<Row>, kinds: seq<Kind>, src: Sources, now: int): seq<Row>
    decreases |kinds|
  {
    if kinds == [] then rows
    else SyncKinds(SyncKind(rows, kinds[0], Derived(src, kinds[0], now)), kinds[1..], src, now)
  }

  function Sync(rows: seq<Row>, src: Sources, now: int): seq<Row> { SyncKinds(rows, KINDS, src, now) }
}
