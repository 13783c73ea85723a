/** What a refreshed constraint table says, told from the operating tables alone. */
module ConstraintsProofs {
  import opened Prelude
  import opened Constraints
  import M = Mobility

  // ---------------------------------------------------------------------------------------------
  // The derivations, in closed form

  /** An element is the newest that counts when everything before it is filtered out. */
  ghost predicate Newest<T>(xs: seq<T>, live: T -> bool, i: nat) {
    i < |xs| && live(xs[i]) && forall j :: 0 <= j < i ==> !live(xs[j])
  }

  predicate LiveAllocation(s: M.AllocationState) { s != M.Cancelled }

  predicate LiveAppointment(a: Appointment) { a.status != Cancelled && a.status != Released }

  predicate LiveDispatch(d: Dispatch) { d.status != TransportCancelled }

  /** Whether the operating tables hold any row of a kind that counts. */
  predicate HasSource(src: Sources, kind: Kind) {
    match kind
    case Parts => exists i :: 0 <= i < |src.parts| && src.parts[i] != CancelledPart
    case Mobility => exists i :: 0 <= i < |src.mobility| && LiveAllocation(src.mobility[i])
    case CustomerTime => exists i :: 0 <= i < |src.appointments| && LiveAppointment(src.appointments[i])
    case Approval => exists i :: 0 <= i < |src.approvals| && Current(src.approvals[i])
    case Authorization => src.authorizations != []
    case Transport => exists i :: 0 <= i < |src.dispatches| && LiveDispatch(src.dispatches[i])
  }

  predicate CarInHand(s: M.AllocationState) {
    s == M.Reserved || s == M.Assigned || s == M.Active || s == M.ReturnPending || s == M.Completed
  }

  predicate TimeKept(a: Appointment, now: int) {
    || a.status == InProgress || a.status == Completed
    || ((a.status == Held || a.status == Confirmed) && (a.endsAt.None? || now < a.endsAt.value))
  }

  predicate TransportArranged(d: Dispatch) {
    d.destinationReady && (d.status == Delivered || (UnderWay(d.status) && d.provider == Some(true)))
  }

  /** What a case needs from each operating layer. */
  ghost predicate LayerReady(src: Sources, kind: Kind, now: int) {
    match kind
    case Parts => forall i :: 0 <= i < |src.parts| ==> src.parts[i] == Ready || src.parts[i] == CancelledPart
    case Mobility => forall i: nat :: Newest(src.mobility, LiveAllocation, i) ==> CarInHand(src.mobility[i])
    case CustomerTime => forall i: nat :: Newest(src.appointments, LiveAppointment, i) ==> TimeKept(src.appointments[i], now)
    case Approval => forall i :: 0 <= i < |src.approvals| && Current(src.approvals[i]) ==> src.approvals[i].state == Approved
    case Authorization => forall i :: 0 <= i < |src.authorizations| ==> Settled(src.authorizations[i])
    case Transport => forall i: nat :: Newest(src.dispatches, LiveDispatch, i) ==> TransportArranged(src.dispatches[i])
  }

  lemma {:induction false} FirstIsNewest<T>(xs: seq<T>, live: T -> bool)
    ensures First(xs, live).None? <==> forall i :: 0 <= i < |xs| ==> !live(xs[i])
    ensures First(xs, live).Some? ==> exists i: nat :: Newest(xs, live, i)
    ensures forall i: nat :: Newest(xs, live, i) ==> First(xs, live) == Some(xs[i])
  {
    if xs != [] {
      if live(xs[0]) {
        assert Newest(xs, live, 0);
      } else {
        FirstIsNewest(xs[1..], live);
        forall i: nat | Newest(xs, live, i) ensures First(xs, live) == Some(xs[i]) {
          assert Newest(xs[1..], live, i - 1);
        }
        forall i: nat | Newest(xs[1..], live, i) ensures Newest(xs, live, i + 1) { }
        assert xs == [xs[0]] + xs[1..];
      }
    }
  }

  /** A query's filter may be written in more than one way. */
  lemma {:induction false} FirstCongruent<T>(xs: seq<T>, p: T -> bool, q: T -> bool)
    requires forall i :: 0 <= i < |xs| ==> p(xs[i]) == q(xs[i])
    ensures First(xs, p) == First(xs, q)
  {
    if xs != [] { FirstCongruent(xs[1..], p, q); }
  }

  predicate OnlyReady(parts: seq<Readiness>) { forall i :: 0 <= i < |parts| ==> parts[i] == Ready || parts[i] == CancelledPart }

  predicate OnlyCancelled(parts: seq<Readiness>) { forall i :: 0 <= i < |parts| ==> parts[i] == CancelledPart }

  lemma {:induction false} PartsCounts(parts: seq<Readiness>)
    ensures CountReadiness(parts, Ready) + CountReadiness(parts, Unavailable) <= LiveParts(parts)
    ensures CountReadiness(parts, Ready) == LiveParts(parts) <==> OnlyReady(parts)
    ensures LiveParts(parts) == 0 <==> OnlyCancelled(parts)
  {
    if parts != [] {
      var before, last := parts[..|parts| - 1], parts[|parts| - 1];
      PartsCounts(before);
      assert OnlyReady(parts) <==> OnlyReady(before) && (last == Ready || last == CancelledPart) by {
        forall i | 0 <= i < |parts| ensures parts[i] == if i < |before| then before[i] else last { }
      }
      assert OnlyCancelled(parts) <==> OnlyCancelled(before) && last == CancelledPart by {
        forall i | 0 <= i < |parts| ensures parts[i] == if i < |before| then before[i] else last { }
      }
    }
  }

  lemma {:induction false} ApprovalStates(approvals: seq<ApprovalRow>)
    ensures CurrentApprovals(approvals) == [] <==> forall i :: 0 <= i < |approvals| ==> !Current(approvals[i])
    ensures forall st ::
      st in CurrentApprovals(approvals) <==> exists i :: 0 <= i < |approvals| && Current(approvals[i]) && approvals[i].state == st
  {
    if approvals != [] {
      ApprovalStates(approvals[1..]);
      assert approvals == [approvals[0]] + approvals[1..];
    }
  }

  lemma PartsDerived(src: Sources, now: int)
    ensures Derived(src, Parts, now).None? <==> !HasSource(src, Parts)
    ensures Derived(src, Parts, now) in {None, Some(Satisfied)} <==> LayerReady(src, Parts, now)
  {
    PartsCounts(src.parts);
    assert OnlyReady(src.parts) <==> LayerReady(src, Parts, now);
  }

  lemma MobilityDerived(src: Sources, now: int)
    ensures Derived(src, Mobility, now).None? <==> !HasSource(src, Mobility)
    ensures Derived(src, Mobility, now) in {None, Some(Satisfied)} <==> LayerReady(src, Mobility, now)
  {
    FirstCongruent(src.mobility, (s: M.AllocationState) => s != M.Cancelled, LiveAllocation);
    FirstIsNewest(src.mobility, LiveAllocation);
  }

  lemma CustomerTimeDerived(src: Sources, now: int)
    ensures Derived(src, CustomerTime, now).None? <==> !HasSource(src, CustomerTime)
    ensures Derived(src, CustomerTime, now) in {None, Some(Satisfied)} <==> LayerReady(src, CustomerTime, now)
  {
    FirstCongruent(src.appointments, (a: Appointment) => a.status != Cancelled && a.status != Released, LiveAppointment);
    FirstIsNewest(src.appointments, LiveAppointment);
  }

  lemma ApprovalDerived(src: Sources, now: int)
    ensures Derived(src, Approval, now).None? <==> !HasSource(src, Approval)
    ensures Derived(src, Approval, now) in {None, Some(Satisfied)} <==> LayerReady(src, Approval, now)
  {
    ApprovalStates(src.approvals);
    var states := CurrentApprovals(src.approvals);
    if LayerReady(src, Approval, now) {
      forall i | 0 <= i < |states| ensures states[i] == Approved { assert states[i] in states; }
    } else {
      var i :| 0 <= i < |src.approvals| && Current(src.approvals[i]) && src.approvals[i].state != Approved;
      assert src.approvals[i].state in states;
    }
  }

  lemma AuthorizationDerived(src: Sources, now: int)
    ensures Derived(src, Authorization, now).None? <==> !HasSource(src, Authorization)
    ensures Derived(src, Authorization, now) in {None, Some(Satisfied)} <==> LayerReady(src, Authorization, now)
  {
  }

  lemma TransportDerived(src: Sources, now: int)
    ensures Derived(src, Transport, now).None? <==> !HasSource(src, Transport)
    ensures Derived(src, Transport, now) in {None, Some(Satisfied)} <==> LayerReady(src, Transport, now)
  {
    FirstCongruent(src.dispatches, (d: Dispatch) => d.status != TransportCancelled, LiveDispatch);
    FirstIsNewest(src.dispatches, LiveDispatch);
  }

  /** The six derivations say nothing or "satisfied" exactly when the layer is ready. */
  lemma DerivedIffReady(src: Sources, kind: Kind, now: int)
    ensures Derived(src, kind, now).None? <==> !HasSource(src, kind)
    ensures Derived(src, kind, now) in {None, Some(Satisfied)} <==> LayerReady(src, kind, now)
  {
    match kind
    case Parts => PartsDerived(src, now);
    case Mobility => MobilityDerived(src, now);
    case CustomerTime => CustomerTimeDerived(src, now);
    case Approval => ApprovalDerived(src, now);
    case Authorization => AuthorizationDerived(src, now);
    case Transport => TransportDerived(src, now);
  }

  /** A derivation never waives: only a person does. */
  lemma DerivedNeverWaives(src: Sources, kind: Kind, now: int)
    ensures Derived(src, kind, now) != Some(Waived)
  {
  }

  // ---------------------------------------------------------------------------------------------
  // One projection

  predicate HasKey(row: Row, kind: Kind) { row.key == Some(Projection(kind)) }

  lemma {:induction false} UpsertMembers(rows: seq<Row>, kind: Kind, status: Status)
    requires UniqueKeys(rows)
    ensures forall r :: r in Upsert(rows, kind, status) <==> r == ProjectedRow(kind, status) || (r in rows && !HasKey(r, kind))
    ensures UniqueKeys(Upsert(rows, kind, status))
  {
    if rows != [] {
      var rest := rows[1..];
      assert rows == [rows[0]] + rest;
      if HasKey(rows[0], kind) {
        forall r | r in rest ensures !HasKey(r, kind) {
          var j :| 0 <= j < |rest| && rest[j] == r;
          assert rows[j + 1] == r;
        }
      } else {
        UpsertMembers(rest, kind, status);
        var after := Upsert(rest, kind, status);
        forall j | 0 <= j < |after| ensures rows[0].key.None? || rows[0].key != after[j].key {
          assert after[j] in after;
          if after[j] in rest {
            var k :| 0 <= k < |rest| && rest[k] == after[j];
            assert rows[k + 1] == after[j];
          }
        }
      }
    }
  }

  lemma {:induction false} DeleteMembers(rows: seq<Row>, kind: Kind)
    requires UniqueKeys(rows)
    ensures forall r :: r in Delete(rows, kind) <==> r in rows && !(HasKey(r, kind) && r.operational)
    ensures UniqueKeys(Delete(rows, kind))
  {
    if rows != [] {
      var rest := rows[1..];
      assert rows == [rows[0]] + rest;
      DeleteMembers(rest, kind);
      var after := Delete(rest, kind);
      forall j | 0 <= j < |after| ensures rows[0].key.None? || rows[0].key != after[j].key {
        assert after[j] in after && after[j] in rest;
        var k :| 0 <= k < |rest| && rest[k] == after[j];
        assert rows[k + 1] == after[j];
      }
    }
  }

  /** What a refresh of some kinds leaves of an old row. */
  predicate Survives(r: Row, kinds: seq<Kind>, src: Sources, now: int) {
    !(r.key.Some? && r.key.value.Projection? && r.key.value.kind in kinds
      && (Derived(src, r.key.value.kind, now).Some? || r.operational))
  }

  /** What a refresh of some kinds puts there. */
  predicate Projects(r: Row, kinds: seq<Kind>, src: Sources, now: int) {
    r.key.Some? && r.key.value.Projection? && r.key.value.kind in kinds
    && Derived(src, r.key.value.kind, now).Some?
    && r == ProjectedRow(r.key.value.kind, Derived(src, r.key.value.kind, now).value)
  }

  lemma {:induction false} SyncKindsMembers(rows: seq<Row>, kinds: seq<Kind>, src: Sources, now: int)
    requires UniqueKeys(rows)
    requires forall i, j :: 0 <= i < j < |kinds| ==> kinds[i] != kinds[j]
    ensures UniqueKeys(SyncKinds(rows, kinds, src, now))
    ensures forall r ::
      r in SyncKinds(rows, kinds, src, now) <==> Projects(r, kinds, src, now) || (r in rows && Survives(r, kinds, src, now))
    decreases |kinds|
  {
    if kinds != [] {
      hide Derived;
      var kind, rest := kinds[0], kinds[1..];
      var derived := Derived(src, kind, now);
      var once := SyncKind(rows, kind, derived);
      if derived.Some? { UpsertMembers(rows, kind, derived.value); } else { DeleteMembers(rows, kind); }
      SyncKindsMembers(once, rest, src, now);
      assert kinds == [kind] + rest;
      assert kind !in rest;
    }
  }

  /**
   * The refreshed table: for each kind with live source rows exactly its derived row, whatever stood
   * there; and of the old rows those without a projection key, plus those that a person put under the
   * key of a kind without source rows.
   */
  lemma SyncMembers(rows: seq<Row>, src: Sources, now: int)
    requires UniqueKeys(rows)
    ensures UniqueKeys(Sync(rows, src, now))
    ensures forall r ::
      r in Sync(rows, src, now) <==> Projects(r, KINDS, src, now) || (r in rows && Survives(r, KINDS, src, now))
  {
    SyncKindsMembers(rows, KINDS, src, now);
  }

  lemma EveryKind(kind: Kind)
    ensures kind in KINDS
  {
    match kind
    case Parts => assert KINDS[0] == kind;
    case Mobility => assert KINDS[1] == kind;
    case CustomerTime => assert KINDS[2] == kind;
    case Approval => assert KINDS[3] == kind;
    case Authorization => assert KINDS[4] == kind;
    case Transport => assert KINDS[5] == kind;
  }

  // ---------------------------------------------------------------------------------------------
  // Main results

  /** A row that no refresh touches: it has no projection key, or a person holds the key of a layer without rows. */
  predicate Lasting(r: Row, src: Sources) {
    r.key.None? || r.key.value.Named? || (!r.operational && !HasSource(src, r.key.value.kind))
  }

  /** A refreshed table is clear exactly when every layer is ready and every lasting row is clear. */
  lemma ClearAfterSyncIff(rows: seq<Row>, src: Sources, now: int)
    requires UniqueKeys(rows)
    ensures AllClear(Sync(rows, src, now))
       <==> (forall kind :: LayerReady(src, kind, now)) && (forall r :: r in rows && Lasting(r, src) ==> Clear(r))
  {
    hide Derived, LayerReady, HasSource, Sync;
    SyncMembers(rows, src, now);
    var after := Sync(rows, src, now);
    forall kind ensures kind in KINDS { EveryKind(kind); }
    forall kind ensures (Derived(src, kind, now).None? <==> !HasSource(src, kind))
      && (Derived(src, kind, now) in {None, Some(Satisfied)} <==> LayerReady(src, kind, now))
      && Derived(src, kind, now) != Some(Waived)
    {
      DerivedIffReady(src, kind, now);
      DerivedNeverWaives(src, kind, now);
    }
    forall r ensures Survives(r, KINDS, src, now) <==> Lasting(r, src) { }
    if AllClear(after) {
      forall kind ensures LayerReady(src, kind, now) {
        if Derived(src, kind, now).Some? {
          assert Projects(ProjectedRow(kind, Derived(src, kind, now).value), KINDS, src, now);
          assert ProjectedRow(kind, Derived(src, kind, now).value) in after;
        }
      }
      forall r | r in rows && Lasting(r, src) ensures Clear(r) { assert r in after; }
    }
    if (forall kind :: LayerReady(src, kind, now)) && (forall r :: r in rows && Lasting(r, src) ==> Clear(r)) {
      forall i | 0 <= i < |after| ensures Clear(after[i]) { assert after[i] in after; }
    }
  }

  /** However stale two tables were: with the same lasting rows, the refreshed tables hold the same rows. */
  lemma StalenessIrrelevant(rows: seq<Row>, stale: seq<Row>, src: Sources, now: int)
    requires UniqueKeys(rows) && UniqueKeys(stale)
    requires forall r :: Lasting(r, src) ==> (r in rows <==> r in stale)
    ensures forall r :: r in Sync(rows, src, now) <==> r in Sync(stale, src, now)
  {
    hide Derived, HasSource, Sync;
    SyncMembers(rows, src, now);
    SyncMembers(stale, src, now);
    forall r ensures Survives(r, KINDS, src, now) ==> Lasting(r, src) {
      if r.key.Some? && r.key.value.Projection? {
        EveryKind(r.key.value.kind);
        DerivedIffReady(src, r.key.value.kind, now);
      }
    }
  }

  /** A waiver of a projected row with live source rows does not survive a refresh: the derived status returns. */
  lemma WaiverOverwritten(rows: seq<Row>, src: Sources, now: int, kind: Kind)
    requires UniqueKeys(rows) && HasSource(src, kind)
    ensures forall r ::
      r in Sync(rows, src, now) && HasKey(r, kind) ==> r.operational && r.status != Waived && (Clear(r) <==> LayerReady(src, kind, now))
    ensures exists r :: r in Sync(rows, src, now) && HasKey(r, kind)
  {
    hide Derived, HasSource, LayerReady, Sync;
    SyncMembers(rows, src, now);
    EveryKind(kind);
    DerivedIffReady(src, kind, now);
    DerivedNeverWaives(src, kind, now);
    assert Projects(ProjectedRow(kind, Derived(src, kind, now).value), KINDS, src, now);
    assert ProjectedRow(kind, Derived(src, kind, now).value) in Sync(rows, src, now);
  }

  /** Refreshing twice at one instant is refreshing once. */
  lemma SyncSettles(rows: seq<Row>, src: Sources, now: int)
    requires UniqueKeys(rows)
    ensures forall r :: r in Sync(Sync(rows, src, now), src, now) <==> r in Sync(rows, src, now)
  {
    hide Derived, Sync;
    SyncMembers(rows, src, now);
    SyncMembers(Sync(rows, src, now), src, now);
  }
}
