/** When a reservation is granted, and what every operation on capacity holds does to each hold. */
module CapacityGrants {
  import opened Prelude
  import opened Capacity

  /** A held row that has not run out. */
  predicate Holding(h: Hold, now: nat) { h.state == Held && now < h.expiresAt }

  /** The units of a window that are taken add up hold by hold, lapsed and ended holds counting nothing. */
  lemma {:induction false} UnitsAdd(a: seq<Hold>, b: seq<Hold>, window: Id, now: nat)
    ensures LiveUnits(a + b, window, now) == LiveUnits(a, window, now) + LiveUnits(b, window, now)
  {
    if b == [] {
      assert a + b == a;
    } else {
      UnitsAdd(a, b[..|b| - 1], window, now);
      assert (a + b)[..|a + b| - 1] == a + b[..|b| - 1];
    }
  }

  lemma UnitsOfOne(h: Hold, window: Id, now: nat)
    ensures LiveUnits([h], window, now) == if h.window == window && Holding(h, now) then h.units else 0
  {
    assert [h][..0] == [];
  }

  /** What is asked of a window apart from units, told state by state. */
  ghost predicate OnOffer(w: Window, target: nat, now: nat) {
    && (w.resource == None || w.resource == Some(Resource(true, false)))
    && w.state in {Open, Limited} && w.sync in {Current, Manual} && w.connectionActive != Some(false)
    && w.start <= target && target < w.end && now < w.end
  }

  ghost predicate HoldsAlready(s: State, caseId: Id, window: Id) {
    exists i :: 0 <= i < |s.holds| && s.holds[i].caseId == caseId && s.holds[i].window == window && Holding(s.holds[i], s.now)
  }

  /** Expiring what has run out frees no unit that was counted and takes no hold away from a case. */
  lemma SweepIsInvisible(s: State, caseId: Id, window: Id)
    ensures
      var swept := s.(holds := ExpireAll(s.holds, window, s.now));
      && LiveUnits(swept.holds, window, s.now) == LiveUnits(s.holds, window, s.now)
      && (HasLiveHold(swept.holds, caseId, window, s.now) <==> HoldsAlready(s, caseId, window))
  {
    var swept := ExpireAll(s.holds, window, s.now);
    FewerLiveUnits(s.holds, s.now, swept, s.now, window);
    FewerLiveUnits(swept, s.now, s.holds, s.now, window);
    if HoldsAlready(s, caseId, window) {
      var i :| 0 <= i < |s.holds| && s.holds[i].caseId == caseId && s.holds[i].window == window && Holding(s.holds[i], s.now);
      assert LiveFor(swept[i], caseId, window, s.now);
    }
    if HasLiveHold(swept, caseId, window, s.now) {
      var i :| 0 <= i < |swept| && LiveFor(swept[i], caseId, window, s.now);
      assert Holding(s.holds[i], s.now);
    }
  }

  /** A reservation is granted exactly for a bookable window that the case holds already or that has the units left. */
  lemma GrantedIff(s: State, caseId: Id, window: Id, units: Units, target: nat)
    ensures ReserveStep(s, caseId, window, units, target).Some? <==>
      && window in s.windows && OnOffer(s.windows[window], target, s.now)
      && (HoldsAlready(s, caseId, window) || LiveUnits(s.holds, window, s.now) + units <= s.windows[window].capacityUnits)
  {
    SweepIsInvisible(s, caseId, window);
  }

  /**
   * A granted reservation adds one hold of the wanted units, for half an hour or to the end of the
   * window, unless the case has one; a refused one changes nothing.
   */
  lemma ReservationEffect(s: State, caseId: Id, window: Id, units: Units, target: nat)
    ensures
      var t, granted := Next(s, Reserve(caseId, window, units, target)), ReserveStep(s, caseId, window, units, target).Some?;
      && t.windows == s.windows && t.now == s.now && (!granted ==> t == s)
      && (granted ==>
        && |t.holds| == |s.holds| + (if HoldsAlready(s, caseId, window) then 0 else 1)
        && (forall i :: 0 <= i < |s.holds| ==>
          t.holds[i] == if s.holds[i].window == window && s.holds[i].state == Held && s.holds[i].expiresAt <= s.now
          then s.holds[i].(state := Expired) else s.holds[i])
        && (!HoldsAlready(s, caseId, window) ==>
          var h := t.holds[|s.holds|];
          && h == Hold(caseId, window, units, Held, h.expiresAt)
          && (h.expiresAt == s.now + 1800 || h.expiresAt == s.windows[window].end)
          && s.now < h.expiresAt <= s.now + 1800 && h.expiresAt <= s.windows[window].end))
  {
    SweepIsInvisible(s, caseId, window);
  }

  /** After a granted reservation the case holds the window. */
  lemma GrantedIsHeld(s: State, caseId: Id, window: Id, units: Units, target: nat)
    requires ReserveStep(s, caseId, window, units, target).Some?
    ensures HoldsAlready(Next(s, Reserve(caseId, window, units, target)), caseId, window)
  {
    SweepIsInvisible(s, caseId, window);
    var t := Next(s, Reserve(caseId, window, units, target));
    if HoldsAlready(s, caseId, window) {
      var i :| 0 <= i < |s.holds| && s.holds[i].caseId == caseId && s.holds[i].window == window && Holding(s.holds[i], s.now);
      assert Holding(t.holds[i], t.now);
    } else {
      assert Holding(t.holds[|s.holds|], t.now);
    }
  }

  lemma AppendedHold(s: State, caseId: Id, window: Id, units: Units, target: nat)
    requires ReserveStep(s, caseId, window, units, target).Some? && !HoldsAlready(s, caseId, window)
    ensures Next(s, Reserve(caseId, window, units, target)) == s.(holds := ExpireAll(s.holds, window, s.now) + [NewHold(s, caseId, window, units)])
  {
    SweepIsInvisible(s, caseId, window);
    hide HoldsAlready, HasLiveHold, NewHold, LiveUnits;
  }

  lemma SweepKeepsUnits(s: State, window: Id, w: Id)
    ensures LiveUnits(ExpireAll(s.holds, window, s.now), w, s.now) == LiveUnits(s.holds, w, s.now)
  {
    hide LiveUnits;
    var swept := ExpireAll(s.holds, window, s.now);
    FewerLiveUnits(s.holds, s.now, swept, s.now, w);
    FewerLiveUnits(swept, s.now, s.holds, s.now, w);
  }

  lemma NewHoldLives(s: State, caseId: Id, window: Id, units: Units)
    requires window in s.windows && s.now < s.windows[window].end
    ensures Holding(NewHold(s, caseId, window, units), s.now)
    ensures NewHold(s, caseId, window, units).window == window && NewHold(s, caseId, window, units).caseId == caseId
  {
  }

  /** A reservation takes its units from the window and from no other. */
  lemma ReservationTakes(s: State, caseId: Id, window: Id, units: Units, target: nat, w: Id)
    requires ReserveStep(s, caseId, window, units, target).Some? && !HoldsAlready(s, caseId, window)
    ensures LiveUnits(Next(s, Reserve(caseId, window, units, target)).holds, w, s.now)
         == LiveUnits(s.holds, w, s.now) + if w == window then units else 0
  {
    hide HoldsAlready, HasLiveHold, LiveUnits, Next, ReserveStep;
    GrantedIff(s, caseId, window, units, target);
    AppendedHold(s, caseId, window, units, target);
    SweepKeepsUnits(s, window, w);
    UnitsAdd(ExpireAll(s.holds, window, s.now), [NewHold(s, caseId, window, units)], w, s.now);
    UnitsOfOne(NewHold(s, caseId, window, units), w, s.now);
    NewHoldLives(s, caseId, window, units);
  }

  /** Confirming makes every live hold of the case last to its window's end, if that is still ahead, and touches no other. */
  lemma ConfirmEffect(s: State, caseId: Id, i: nat)
    requires i < |s.holds|
    ensures
      var t, h := Next(s, Confirm(caseId)), s.holds[i];
      && |t.holds| == |s.holds| && t.windows == s.windows && t.now == s.now
      && t.holds[i] == if h.caseId == caseId && Holding(h, s.now) && h.window in s.windows && s.now < s.windows[h.window].end
                       then h.(expiresAt := s.windows[h.window].end) else h
  {
  }

  /** Releasing and consuming end exactly the held rows of the case, lapsed ones included. */
  lemma EndingEffect(s: State, caseId: Id, i: nat)
    requires i < |s.holds|
    ensures
      var r, c, h := Next(s, Release(caseId)), Next(s, Consume(caseId)), s.holds[i];
      && |r.holds| == |s.holds| == |c.holds| && r.windows == s.windows == c.windows && r.now == s.now == c.now
      && r.holds[i] == (if h.caseId == caseId && h.state == Held then h.(state := Released) else h)
      && c.holds[i] == (if h.caseId == caseId && h.state == Held then h.(state := Consumed) else h)
  {
  }

  /** What a released case held is free again: another case can have as many units at once. */
  lemma ReleasedUnitsCanBeBooked(s: State, caseId: Id, window: Id, units: Units, target: nat, other: Id)
    requires Inv(s) && other != caseId && ReserveStep(s, caseId, window, units, target).Some? && !HoldsAlready(s, caseId, window)
    ensures
      var released := Next(Next(s, Reserve(caseId, window, units, target)), Release(caseId));
      ReserveStep(released, other, window, units, target).Some?
  {
    hide HoldsAlready, HasLiveHold, LiveUnits, Next, ReserveStep, NewHold, Inv;
    GrantedIff(s, caseId, window, units, target);
    AppendedHold(s, caseId, window, units, target);
    var t := Next(s, Reserve(caseId, window, units, target));
    ReleaseStep(t, caseId);
    NewHoldLives(s, caseId, window, units);
    ReleasedTail(s, t, caseId, window);
    GrantedIff(Next(t, Release(caseId)), other, window, units, target);
  }

  /** Releasing keeps the tables but for the holds. */
  lemma ReleaseStep(t: State, caseId: Id)
    ensures Next(t, Release(caseId)) == t.(holds := EndAll(t.holds, caseId, Released))
  {
  }

  /** Once the case that came last is released, no more units are taken than before it came. */
  lemma ReleasedTail(s: State, t: State, caseId: Id, window: Id)
    requires |t.holds| == |s.holds| + 1 && t.holds[..|s.holds|] == ExpireAll(s.holds, window, s.now) && t.now == s.now
    requires t.holds[|s.holds|].caseId == caseId
    ensures LiveUnits(EndAll(t.holds, caseId, Released), window, s.now) <= LiveUnits(s.holds, window, s.now)
  {
    hide LiveUnits;
    var n, r := |s.holds|, EndAll(t.holds, caseId, Released);
    assert r == r[..n] + [r[n]];
    forall i | 0 <= i < n ensures r[i].window == s.holds[i].window && r[i].units == s.holds[i].units
                                  && (Live(r[i], s.now) ==> Live(s.holds[i], s.now)) {
      assert t.holds[i] == t.holds[..n][i];
    }
    UnitsAdd(r[..n], [r[n]], window, s.now);
    UnitsOfOne(r[n], window, s.now);
    FewerLiveUnits(s.holds, s.now, r[..n], s.now, window);
  }
}
