/** The mobility tables updated step by step; a thrown error rolls everything back. */
module MobilityDesk {
  import opened Prelude
  import opened Mobility

  datatype MobilityError =
    | AllocationNotFound | InvalidAllocationState | ResourceNotFound | ResourceProviderMismatch
    | ResourceUnavailable | InvalidAllocationTransition

  class Desk {
    var resources: map<Id, Resource>
    var allocations: seq<Allocation>

    ghost function State(): State
      reads this
    {
      Mobility.State(resources, allocations)
    }

    constructor ()
      ensures State() == Empty
    {
      resources, allocations := map[], [];
    }

    method RequestMobility(caseId: Id) returns (a: nat)
      modifies this
      ensures State() == Next(old(State()), Request(caseId))
      ensures a == |old(allocations)| && allocations == old(allocations) + [Allocation(caseId, Requested, None, None)] && resources == old(resources)
    {
      a := |allocations|;
      allocations := allocations + [Allocation(caseId, Requested, None, None)];
    }

    method AssignMobility(a: nat, provider: ActorId, resource: Option<Id>) returns (r: Result<(), MobilityError>)
      modifies this
      ensures r.Ok? <==> CanAssign(old(State()), a, provider, resource)
      ensures State() == Next(old(State()), Assign(a, provider, resource))
      ensures r == Err(AllocationNotFound) <==> a >= |old(allocations)|
      ensures r == Err(InvalidAllocationState) <==> a < |old(allocations)| && old(allocations)[a].state in {Assigned, Active, ReturnPending, Completed, Cancelled}
      ensures r.Err? && r.error in {ResourceNotFound, ResourceProviderMismatch, ResourceUnavailable} ==>
        resource.Some? && !Free(old(State()), resource.value, provider)
      ensures r.Ok? ==> allocations[a] == Allocation(old(allocations)[a].caseId, Assigned, Some(provider), resource)
      ensures r.Ok? && resource.Some? ==> Free(old(State()), resource.value, provider) && resources[resource.value] == Resource(provider, AssignedStatus)
    {
      if a >= |allocations| { return Err(AllocationNotFound); }
      if !Assignable(allocations[a].state) { return Err(InvalidAllocationState); }
      if resource.Some? {
        var id := resource.value;
        if id !in resources { return Err(ResourceNotFound); }
        if resources[id].provider != provider { return Err(ResourceProviderMismatch); }
        if resources[id].status != Available { return Err(ResourceUnavailable); }
        resources := resources[id := resources[id].(status := AssignedStatus)];
      }
      allocations := allocations[a := allocations[a].(state := Assigned, provider := Some(provider), resource := resource)];
      return Ok(());
    }

    method UpdateMobilityState(a: nat, to: AllocationState) returns (r: Result<(), MobilityError>)
      modifies this
      ensures r.Ok? <==> CanUpdate(old(State()), a, to)
      ensures State() == Next(old(State()), Update(a, to))
      ensures r == Err(AllocationNotFound) <==> a >= |old(allocations)|
      ensures r.Ok? <==> a < |old(allocations)| && (old(allocations)[a].state, to) in MOVES
      ensures r.Ok? ==> allocations[a] == old(allocations)[a].(state := to)
    {
      if a >= |allocations| { return Err(AllocationNotFound); }
      if !Allowed(allocations[a].state, to) { return Err(InvalidAllocationTransition); }
      var held := allocations[a].resource;
      allocations := allocations[a := allocations[a].(state := to)];
      if Releases(to) && held.Some? && held.value in resources {
        resources := resources[held.value := resources[held.value].(status := Available)];
      }
      return Ok(());
    }
  }
}
