/** Loaner allocation (src/services/mobility.ts): which allocation a resource is out with. */
module Mobility {
  import opened Prelude

  datatype ResourceStatus = Available | ReservedStatus | AssignedStatus | Maintenance | Offline | Retired

  datatype Resource = Resource(provider: ActorId, status: ResourceStatus)

  datatype AllocationState =
    | Requested | Reserved | Assigned | Active | ReturnPending | Completed | Declined | Cancelled | Failed

  datatype Allocation = Allocation(caseId: Id, state: AllocationState, provider: Option<ActorId>, resource: Option<Id>)

  datatype State = State(resources: map<Id, Resource>, allocations: seq<Allocation>)

  datatype Action =
    | AddResource(added: Id, provider: ActorId)
    | Request(caseId: Id)
    | Assign(allocation: nat, provider: ActorId, resource: Option<Id>)
    | Update(allocation: nat, to: AllocationState)

  /** The states in which an allocation has its resource out. */
  predicate Using(a: Allocation) { a.state == Assigned || a.state == Active || a.state == ReturnPending }

  predicate Assignable(s: AllocationState) { s == Requested || s == Reserved || s == Declined || s == Failed }

  predicate Allowed(from: AllocationState, to: AllocationState) {
    match from
    case Assigned => to == Active || to == Declined || to == Cancelled || to == Failed
    case Active => to == ReturnPending || to == Completed || to == Failed
    case ReturnPending => to == Completed || to == Failed
    case Requested => to == Cancelled || to == Declined || to == Failed
    case Reserved => to == Assigned || to == Cancelled || to == Failed
    case _ => false
  }

  /** The transitions that give the resource back. */
  predicate Releases(to: AllocationState) { to == Completed || to == Cancelled || to == Declined || to == Failed }

  predicate CanAssign(s: State, a: nat, provider: ActorId, resource: Option<Id>) {
    && a < |s.allocations| && Assignable(s.allocations[a].state)
    && (resource.Some? ==>
      && resource.value in s.resources
      && s.resources[resource.value].provider == provider
      && s.resources[resource.value].status == Available)
  }

  predicate CanUpdate(s: State, a: nat, to: AllocationState) {
    a < |s.allocations| && Allowed(s.allocations[a].state, to)
  }

  function SetStatus(resources: map<Id, Resource>, resource: Option<Id>, status: ResourceStatus): map<Id, Resource> {
    if resource.Some? && resource.value in resources
    then resources[resource.value := resources[resource.value].(status := status)]
    else resources
  }

  function Next(s: State, action: Action): State {
    match action
    case AddResource(r, provider) =>
      if r in s.resources then s else s.(resources := s.resources[r := Resource(provider, Available)])
    case Request(caseId) => s.(allocations := s.allocations + [Allocation(caseId, Requested, None, None)])
    case Assign(a, provider, resource) =>
      if CanAssign(s, a, provider, resource) then
        State(SetStatus(s.resources, resource, AssignedStatus),
        s.allocations[a := s.allocations[a].(state := Assigned, provider := Some(provider), resource := resource)])
      else s
    case Update(a, to) =>
      if CanUpdate(s, a, to) then
        State(if Releases(to) then SetStatus(s.resources, s.allocations[a].resource, Available) else s.resources,
        s.allocations[a := s.allocations[a].(state := to)])
      else s
  }

  function Run(s: State, actions: seq<Action>): State {
    if actions == [] then s else Next(Run(s, actions[..|actions| - 1]), actions[|actions| - 1])
  }

  const Empty := State(map[], [])

  predicate Out(s: State, i: nat, r: Id) {
    i < |s.allocations| && Using(s.allocations[i]) && s.allocations[i].resource == Some(r)
  }

  ghost predicate Inv(s: State) {
    && (forall i, r :: Out(s, i, r) ==> r in s.resources && s.resources[r].status == AssignedStatus)
    && (forall i, j, r :: Out(s, i, r) && Out(s, j, r) ==> i == j)
    && (forall r :: r in s.resources && s.resources[r].status == AssignedStatus ==> exists i :: Out(s, i, r))
    && (forall i :: 0 <= i < |s.allocations| ==> s.allocations[i].state != Reserved)
    && (forall i :: 0 <= i < |s.allocations| && s.allocations[i].state == Requested ==> s.allocations[i].resource.None?)
  }

  lemma StepKeepsInv(s: State, action: Action)
    requires Inv(s)
    ensures Inv(Next(s, action))
  {
    var t := Next(s, action);
    match action
    case AddResource(r, provider) =>
      assert forall i: nat, q: Id :: Out(t, i, q) <==> Out(s, i, q);
    case Request(caseId) =>
      assert forall i: nat, q: Id :: Out(t, i, q) <==> Out(s, i, q);
    case Assign(a, provider, resource) =>
      if CanAssign(s, a, provider, resource) {
        assert forall i: nat, q: Id :: i != a ==> (Out(t, i, q) <==> Out(s, i, q));
        assert forall q: Id :: Out(t, a, q) <==> resource == Some(q);
        assert forall q: Id :: !Out(s, a, q);
      }
    case Update(a, to) =>
      if CanUpdate(s, a, to) {
        assert forall i: nat, q: Id :: i != a ==> (Out(t, i, q) <==> Out(s, i, q));
        var held := s.allocations[a].resource;
        assert held.Some? ==> Out(s, a, held.value);
        assert forall q: Id :: Out(t, a, q) <==> !Releases(to) && held == Some(q);
        forall r | r in t.resources && t.resources[r].status == AssignedStatus ensures exists i :: Out(t, i, r) {
          var i :| Out(s, i, r);
          assert Out(t, i, r);
        }
      }
  }

  lemma {:induction false} RunKeepsInv(s: State, actions: seq<Action>)
    requires Inv(s)
    ensures Inv(Run(s, actions))
  {
    if actions != [] {
      RunKeepsInv(s, actions[..|actions| - 1]);
      StepKeepsInv(Run(s, actions[..|actions| - 1]), actions[|actions| - 1]);
    }
  }

  /**
   * In every reachable state a resource is marked assigned exactly when an allocation in use refers
   * to it, and then only one does; stale references of declined or failed allocations do not matter.
   */
  lemma AssignedIffOneUser(actions: seq<Action>, r: Id)
    requires r in Run(Empty, actions).resources
    ensures Run(Empty, actions).resources[r].status == AssignedStatus <==> exists i :: Out(Run(Empty, actions), i, r)
    ensures forall i, j :: Out(Run(Empty, actions), i, r) && Out(Run(Empty, actions), j, r) ==> i == j
  {
    RunKeepsInv(Empty, actions);
  }

  /** An allocation that gave its resource back still names it while another allocation has it out. */
  lemma StaleReferencesHappen(s: State, i: nat, j: nat, r: Id, provider: ActorId)
    requires i < |s.allocations| && j < |s.allocations| && i != j
    requires Assignable(s.allocations[i].state) && Assignable(s.allocations[j].state)
    requires r in s.resources && s.resources[r] == Resource(provider, Available)
    ensures
      var t := Run(s, [Assign(i, provider, Some(r)), Update(i, Declined), Assign(j, provider, Some(r))]);
      && |t.allocations| == |s.allocations|
      && t.allocations[i].resource == Some(r) && t.allocations[i].state == Declined
      && Out(t, j, r)
  {
    var a, b, c := Assign(i, provider, Some(r)), Update(i, Declined), Assign(j, provider, Some(r));
    assert [a, b, c][..2] == [a, b] && [a, b][..1] == [a] && [a][..0] == [];
    var s1 := Next(s, a);
    assert s1.resources[r].status == AssignedStatus && s1.allocations[i].state == Assigned;
    var s2 := Next(s1, b);
    assert s2.resources[r] == Resource(provider, Available) && s2.allocations[j] == s.allocations[j];
    assert Run(s, [a]) == Next(Run(s, []), a) == s1;
    assert Run(s, [a, b]) == s2;
    assert Run(s, [a, b, c]) == Next(s2, c);
  }

  // ---------------------------------------------------------------------------------------------
  // What every step does

  /** Every move between states there is. */
  const MOVES: set<(AllocationState, AllocationState)> := {
    (Requested, Cancelled), (Requested, Declined), (Requested, Failed),
    (Reserved, Assigned), (Reserved, Cancelled), (Reserved, Failed),
    (Assigned, Active), (Assigned, Declined), (Assigned, Cancelled), (Assigned, Failed),
    (Active, ReturnPending), (Active, Completed), (Active, Failed),
    (ReturnPending, Completed), (ReturnPending, Failed)}

  /** A resource that the provider owns and nobody has out or has taken off the road. */
  predicate Free(s: State, resource: Id, provider: ActorId) {
    resource in s.resources && s.resources[resource] == Resource(provider, Available)
  }

  /**
   * An assignment succeeds exactly from four states, with no resource or with a free one of the provider;
   * it then gives the allocation its provider and resource, marks that resource, and changes nothing else.
   */
  lemma AssignEffect(s: State, a: nat, provider: ActorId, resource: Option<Id>)
    requires a < |s.allocations|
    ensures
      var t, before := Next(s, Assign(a, provider, resource)), s.allocations[a];
      var granted := before.state in {Requested, Reserved, Declined, Failed} && (resource.Some? ==> Free(s, resource.value, provider));
      && (granted <==> CanAssign(s, a, provider, resource)) && (!granted ==> t == s)
      && (granted ==>
        && t.allocations == s.allocations[a := Allocation(before.caseId, Assigned, Some(provider), resource)]
        && t.resources == if resource.Some? then s.resources[resource.value := Resource(provider, AssignedStatus)] else s.resources)
  {
  }

  /** A move of an allocation succeeds exactly along the table; ending it makes its resource available again. */
  lemma UpdateEffect(s: State, a: nat, to: AllocationState)
    requires a < |s.allocations|
    ensures
      var t, before := Next(s, Update(a, to)), s.allocations[a];
      var granted := (before.state, to) in MOVES;
      && (granted <==> CanUpdate(s, a, to)) && (!granted ==> t == s)
      && (granted ==> t.allocations == s.allocations[a := before.(state := to)] && t.resources.Keys == s.resources.Keys)
      && (granted ==> forall r :: r in s.resources ==>
        t.resources[r] == if before.resource == Some(r) && to in {Completed, Cancelled, Declined, Failed}
                          then s.resources[r].(status := Available) else s.resources[r])
  {
  }

  /** Whoever gives a resource back leaves it to any other waiting allocation. */
  lemma ReturnedIsAssignable(s: State, i: nat, j: nat, r: Id, to: AllocationState)
    requires i < |s.allocations| && j < |s.allocations| && i != j && Out(s, i, r) && r in s.resources
    requires (s.allocations[i].state, to) in MOVES && to in {Completed, Cancelled, Declined, Failed}
    requires s.allocations[j].state in {Requested, Declined, Failed}
    ensures CanAssign(Next(s, Update(i, to)), j, s.resources[r].provider, Some(r))
  {
    UpdateEffect(s, i, to);
  }
}
