/** The reservation table changed in place, within the transaction of the caller. */
module CapacityDesk {
  import opened Prelude
  import opened Capacity
  import G = CapacityGrants

  datatype CapacityError = WindowNotFound | NoLongerAvailable

  class Desk {
    var now: nat
    var windows: map<Id, Window>
    var holds: seq<Hold>

    ghost function State(): State
      reads this
    {
      Capacity.State(now, windows, holds)
    }

    /** Reserves units for a case; a case that already holds the window keeps the hold it has. */
    method ReserveCanonicalCapacity(caseId: Id, window: Id, units: Units, target: nat) returns (r: Result<(), CapacityError>)
      modifies this
      ensures r.Ok? <==> ReserveStep(old(State()), caseId, window, units, target).Some?
      ensures State() == Next(old(State()), Reserve(caseId, window, units, target))
      ensures r == Err(WindowNotFound) <==> window !in old(windows)
      ensures r.Ok? <==>
        && window in old(windows) && G.OnOffer(windows[window], target, now)
        && (G.HoldsAlready(old(State()), caseId, window) || LiveUnits(old(holds), window, now) + units <= windows[window].capacityUnits)
      ensures r.Ok? ==> HasLiveHold(holds, caseId, window, now)
    {
      G.GrantedIff(State(), caseId, window, units, target);
      if window !in windows { return Err(WindowNotFound); }
      if !Bookable(windows[window], target, now) { return Err(NoLongerAvailable); }
      var before := holds;
      holds := ExpireAll(holds, window, now);
      if HasLiveHold(holds, caseId, window, now) { return Ok(()); }
      var heldUnits := SumLive(window);
      if windows[window].capacityUnits - heldUnits < units {
        holds := before;
        return Err(NoLongerAvailable);
      }
      holds := holds + [Hold(caseId, window, units, Held, Min(windows[window].end, now + HOLD_SECONDS))];
      assert LiveFor(holds[|holds| - 1], caseId, window, now);
      return Ok(());
    }

    method SumLive(window: Id) returns (units: nat)
      ensures units == LiveUnits(holds, window, now)
    {
      units := 0;
      for i := 0 to |holds|
        invariant units == LiveUnits(holds[..i], window, now)
      {
        assert holds[..i + 1][..i] == holds[..i];
        if holds[i].window == window && holds[i].state == Held && now < holds[i].expiresAt {
          units := units + holds[i].units;
        }
      }
      assert holds[..|holds|] == holds;
    }

    /**
     * Live holds of the case last to the end of their windows; every other hold is as it was, none
     * becomes live or stops being live, and so every window has as many live units as before.
     */
    method ConfirmCaseCapacity(caseId: Id)
      modifies `holds
      ensures State() == Next(old(State()), Confirm(caseId))
      ensures |holds| == |old(holds)|
      ensures forall i :: 0 <= i < |holds| ==> (Live(holds[i], now) <==> Live(old(holds)[i], now))
      ensures forall i :: 0 <= i < |holds| && holds[i].caseId == caseId && Live(holds[i], now) && holds[i].window in windows ==>
        holds[i].expiresAt == windows[holds[i].window].end || windows[holds[i].window].end <= now
      ensures forall i :: 0 <= i < |holds| && (holds[i].caseId != caseId || !Live(old(holds)[i], now)) ==> holds[i] == old(holds)[i]
      ensures forall w :: LiveUnits(holds, w, now) == LiveUnits(old(holds), w, now)
    {
      ghost var before := holds;
      holds := ConfirmAll(holds, caseId, windows, now);
      forall w ensures LiveUnits(holds, w, now) == LiveUnits(before, w, now) {
        FewerLiveUnits(before, now, holds, now, w);
        FewerLiveUnits(holds, now, before, now, w);
      }
    }

    method ReleaseCaseCapacity(caseId: Id)
      modifies this
      ensures State() == Next(old(State()), Release(caseId))
      ensures |holds| == |old(holds)| && forall i :: 0 <= i < |holds| ==>
        holds[i] == if old(holds)[i].caseId == caseId && old(holds)[i].state == Held then old(holds)[i].(state := Released) else old(holds)[i]
      ensures forall i :: 0 <= i < |holds| && holds[i].caseId == caseId ==> holds[i].state != Held
    {
      holds := EndAll(holds, caseId, Released);
    }

    method ConsumeCaseCapacity(caseId: Id)
      modifies this
      ensures State() == Next(old(State()), Consume(caseId))
      ensures |holds| == |old(holds)| && forall i :: 0 <= i < |holds| ==>
        holds[i] == if old(holds)[i].caseId == caseId && old(holds)[i].state == Held then old(holds)[i].(state := Consumed) else old(holds)[i]
      ensures forall i :: 0 <= i < |holds| && holds[i].caseId == caseId ==> holds[i].state != Held
    {
      holds := EndAll(holds, caseId, Consumed);
    }
  }
}
