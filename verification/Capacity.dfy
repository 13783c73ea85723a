/**
 * Timed capacity holds (src/services/capacity-reservation.ts). A hold takes units of a window for a
 * case until it expires, is confirmed to the window's end, is released, or is consumed.
 */
module Capacity {
  import opened Prelude

  const HOLD_SECONDS := 1800

  type Units = u: int | u > 0 witness 1

  datatype WindowState = Open | Limited | BlockedWindow | UnknownWindow | Full

  datatype SyncState = Current | Manual | StaleSync | FailedSync

  /** A resource behind a window: whether it is active, and whether it is blocked or offline. */
  datatype Resource = Resource(active: bool, stopped: bool)

  datatype Window = Window(
    capacityUnits: int, state: WindowState, sync: SyncState, connectionActive: Option<bool>,
    resource: Option<Resource>, start: nat, end: nat)

  datatype HoldState = Held | Consumed | Released | Expired

  datatype Hold = Hold(caseId: Id, window: Id, units: Units, state: HoldState, expiresAt: nat)

  datatype State = State(now: nat, windows: map<Id, Window>, holds: seq<Hold>)

  datatype Action =
    | Reserve(caseId: Id, window: Id, units: Units, target: nat)
    | Confirm(caseId: Id)
    | Release(caseId: Id)
    | Consume(caseId: Id)
    | Change(window: Id, to: Window)
    | Tick(seconds: nat)

  // ---------------------------------------------------------------------------------------------
  // Steps

  /** Everything the reservation checks about a window before it counts units. */
  predicate Bookable(w: Window, target: nat, now: nat) {
    && (w.resource.Some? ==> w.resource.value.active && !w.resource.value.stopped)
    && !(w.state == BlockedWindow || w.state == UnknownWindow || w.state == Full)
    && (w.sync == Current || w.sync == Manual)
    && (w.connectionActive.Some? ==> w.connectionActive.value)
    && w.start <= target < w.end
    && now < w.end
  }

  predicate Live(h: Hold, now: nat) { h.state == Held && now < h.expiresAt }

  function ExpireHold(h: Hold, window: Id, now: nat): Hold {
    if h.window == window && h.state == Held && h.expiresAt <= now then h.(state := Expired) else h
  }

  function ExpireAll(holds: seq<Hold>, window: Id, now: nat): (r: seq<Hold>)
    ensures |r| == |holds| && forall i :: 0 <= i < |holds| ==> r[i] == ExpireHold(holds[i], window, now)
  {
    seq(|holds|, i requires 0 <= i < |holds| => ExpireHold(holds[i], window, now))
  }

  function ConfirmHold(h: Hold, caseId: Id, windows: map<Id, Window>, now: nat): Hold {
    if h.caseId == caseId && Live(h, now) && h.window in windows && now < windows[h.window].end
    then h.(expiresAt := windows[h.window].end) else h
  }

  function ConfirmAll(holds: seq<Hold>, caseId: Id, windows: map<Id, Window>, now: nat): (r: seq<Hold>)
    ensures |r| == |holds| && forall i :: 0 <= i < |holds| ==> r[i] == ConfirmHold(holds[i], caseId, windows, now)
  {
    seq(|holds|, i requires 0 <= i < |holds| => ConfirmHold(holds[i], caseId, windows, now))
  }

  function EndAll(holds: seq<Hold>, caseId: Id, to: HoldState): (r: seq<Hold>)
    ensures |r| == |holds|
    ensures forall i :: 0 <= i < |holds| ==>
      r[i] == if holds[i].caseId == caseId && holds[i].state == Held then holds[i].(state := to) else holds[i]
  {
    seq(|holds|, i requires 0 <= i < |holds| =>
      if holds[i].caseId == caseId && holds[i].state == Held then holds[i].(state := to) else holds[i])
  }

  predicate LiveFor(h: Hold, caseId: Id, window: Id, now: nat) { h.caseId == caseId && h.window == window && Live(h, now) }

  /** Units of the live holds on a window. */
  function LiveUnits(holds: seq<Hold>, window: Id, now: nat): nat {
    if holds == [] then 0
    else
      var last := holds[|holds| - 1];
      LiveUnits(holds[..|holds| - 1], window, now) + if last.window == window && Live(last, now) then last.units else 0
  }

  predicate HasLiveHold(holds: seq<Hold>, caseId: Id, window: Id, now: nat) {
    exists i :: 0 <= i < |holds| && LiveFor(holds[i], caseId, window, now)
  }

  predicate Fits(s: State, window: Id, units: Units)
    requires window in s.windows
  {
    s.windows[window].capacityUnits - LiveUnits(s.holds, window, s.now) >= units
  }

  function NewHold(s: State, caseId: Id, window: Id, units: Units): Hold
    requires window in s.windows
  {
    Hold(caseId, window, units, Held, Min(s.windows[window].end, s.now + HOLD_SECONDS))
  }

  /** The reservation; None when it throws and the caller's transaction is rolled back. */
  function ReserveStep(s: State, caseId: Id, window: Id, units: Units, target: nat): Option<State> {
    if window !in s.windows || !Bookable(s.windows[window], target, s.now) then None
    else
      var swept := s.(holds := ExpireAll(s.holds, window, s.now));
      if HasLiveHold(swept.holds, caseId, window, s.now) then Some(swept)
      else if !Fits(swept, window, units) then None
      else Some(swept.(holds := swept.holds + [NewHold(s, caseId, window, units)]))
  }

  function Next(s: State, a: Action): State {
    match a
    case Reserve(caseId, window, units, target) =>
      var r := ReserveStep(s, caseId, window, units, target);
      if r.Some? then r.value else s
    case Confirm(caseId) => s.(holds := ConfirmAll(s.holds, caseId, s.windows, s.now))
    case Release(caseId) => s.(holds := EndAll(s.holds, caseId, Released))
    case Consume(caseId) => s.(holds := EndAll(s.holds, caseId, Consumed))
    case Change(window, to) =>
      // Other services change a window; its size and end stay as they are.
      if window in s.windows && to.capacityUnits == s.windows[window].capacityUnits && to.end == s.windows[window].end
      then s.(windows := s.windows[window := to]) else s
    case Tick(d) => s.(now := s.now + d)
  }

  function Run(s: State, actions: seq<Action>): State {
    if actions == [] then s else Next(Run(s, actions[..|actions| - 1]), actions[|actions| - 1])
  }

  // ---------------------------------------------------------------------------------------------
  // The invariant

  ghost predicate NotOversold(s: State) {
    forall w :: w in s.windows ==> LiveUnits(s.holds, w, s.now) == 0 || LiveUnits(s.holds, w, s.now) <= s.windows[w].capacityUnits
  }

  ghost predicate OneHeldPerCase(holds: seq<Hold>) {
    forall i, j :: 0 <= i < j < |holds| && holds[i].caseId == holds[j].caseId && holds[i].window == holds[j].window ==>
      !(holds[i].state == Held && holds[j].state == Held)
  }

  ghost predicate WithinWindow(s: State, h: Hold) {
    h.window in s.windows && (h.state == Held ==> h.expiresAt <= s.windows[h.window].end)
  }

  ghost predicate Inv(s: State) {
    NotOversold(s) && OneHeldPerCase(s.holds) && forall i :: 0 <= i < |s.holds| ==> WithinWindow(s, s.holds[i])
  }

  /** Nothing becomes live: every live hold was live before, on the same window with the same units. */
  ghost predicate NoNewLife(before: seq<Hold>, t0: nat, after: seq<Hold>, t1: nat) {
    |before| == |after|
    && forall i :: 0 <= i < |after| ==>
      after[i].window == before[i].window && after[i].units == before[i].units && (Live(after[i], t1) ==> Live(before[i], t0))
  }

  lemma {:induction false} FewerLiveUnits(before: seq<Hold>, t0: nat, after: seq<Hold>, t1: nat, window: Id)
    requires NoNewLife(before, t0, after, t1)
    ensures LiveUnits(after, window, t1) <= LiveUnits(before, window, t0)
  {
    if after != [] { FewerLiveUnits(before[..|before| - 1], t0, after[..|after| - 1], t1, window); }
  }

  /** A step that gives life to no hold, keeps each row's identity and holds no longer than the window, is safe. */
  lemma QuietStepKeepsInv(s: State, t: State)
    requires Inv(s) && NoNewLife(s.holds, s.now, t.holds, t.now)
    requires forall w :: w in s.windows <==> w in t.windows
    requires forall w :: w in s.windows ==> t.windows[w].capacityUnits == s.windows[w].capacityUnits && t.windows[w].end == s.windows[w].end
    requires forall i :: 0 <= i < |t.holds| ==>
      t.holds[i].caseId == s.holds[i].caseId && (t.holds[i].state == Held ==> s.holds[i].state == Held) && WithinWindow(t, t.holds[i])
    ensures Inv(t)
  {
    forall w | w in t.windows
      ensures LiveUnits(t.holds, w, t.now) == 0 || LiveUnits(t.holds, w, t.now) <= t.windows[w].capacityUnits
    {
      FewerLiveUnits(s.holds, s.now, t.holds, t.now, w);
    }
  }

  lemma ExpireKeepsInv(s: State, window: Id)
    requires Inv(s)
    ensures Inv(s.(holds := ExpireAll(s.holds, window, s.now)))
  {
    forall i | 0 <= i < |s.holds| ensures WithinWindow(s, ExpireHold(s.holds[i], window, s.now)) {
      assert WithinWindow(s, s.holds[i]);
    }
    QuietStepKeepsInv(s, s.(holds := ExpireAll(s.holds, window, s.now)));
  }

  lemma NewHoldKeepsInv(s: State, caseId: Id, window: Id, units: Units)
    requires Inv(s) && window in s.windows && Fits(s, window, units)
    requires forall i :: 0 <= i < |s.holds| && s.holds[i].caseId == caseId && s.holds[i].window == window ==> s.holds[i].state != Held
    ensures Inv(s.(holds := s.holds + [NewHold(s, caseId, window, units)]))
  {
    var h := NewHold(s, caseId, window, units);
    var t := s.(holds := s.holds + [h]);
    forall i | 0 <= i < |t.holds| ensures WithinWindow(t, t.holds[i]) {
      if i < |s.holds| { assert WithinWindow(s, s.holds[i]); }
    }
    hide NewHold;
    forall w | w in t.windows
      ensures LiveUnits(t.holds, w, t.now) == 0 || LiveUnits(t.holds, w, t.now) <= t.windows[w].capacityUnits
    {
      OneMoreHold(s.holds, h, w, s.now);
    }
  }

  lemma OneMoreHold(holds: seq<Hold>, h: Hold, window: Id, now: nat)
    ensures LiveUnits(holds + [h], window, now) <= LiveUnits(holds, window, now) + if h.window == window then h.units else 0
  {
    assert (holds + [h])[..|holds|] == holds;
  }

  lemma StepKeepsInv(s: State, a: Action)
    requires Inv(s)
    ensures Inv(Next(s, a))
  {
    match a
    case Reserve(caseId, window, units, target) => ReserveKeepsInv(s, caseId, window, units, target);
    case Confirm(caseId) =>
      var t := Next(s, a);
      forall i | 0 <= i < |t.holds| ensures WithinWindow(t, t.holds[i]) { assert WithinWindow(s, s.holds[i]); }
      QuietStepKeepsInv(s, t);
    case Release(caseId) => EndKeepsInv(s, caseId, Released);
    case Consume(caseId) => EndKeepsInv(s, caseId, Consumed);
    case Change(window, to) =>
      var t := Next(s, a);
      forall i | 0 <= i < |t.holds| ensures WithinWindow(t, t.holds[i]) { assert WithinWindow(s, s.holds[i]); }
      QuietStepKeepsInv(s, t);
    case Tick(d) =>
      var t := Next(s, a);
      forall i | 0 <= i < |t.holds| ensures WithinWindow(t, t.holds[i]) { assert WithinWindow(s, s.holds[i]); }
      QuietStepKeepsInv(s, t);
  }

  lemma EndKeepsInv(s: State, caseId: Id, to: HoldState)
    requires Inv(s) && to != Held
    ensures Inv(s.(holds := EndAll(s.holds, caseId, to)))
  {
    var t := s.(holds := EndAll(s.holds, caseId, to));
    forall i | 0 <= i < |t.holds| ensures WithinWindow(t, t.holds[i]) { assert WithinWindow(s, s.holds[i]); }
    QuietStepKeepsInv(s, t);
  }

  lemma ReserveKeepsInv(s: State, caseId: Id, window: Id, units: Units, target: nat)
    requires Inv(s)
    ensures Inv(Next(s, Reserve(caseId, window, units, target)))
  {
    if window in s.windows && Bookable(s.windows[window], target, s.now) {
      var swept := s.(holds := ExpireAll(s.holds, window, s.now));
      ExpireKeepsInv(s, window);
      if !HasLiveHold(swept.holds, caseId, window, s.now) && Fits(swept, window, units) {
        forall i | 0 <= i < |swept.holds| && swept.holds[i].caseId == caseId && swept.holds[i].window == window
          ensures swept.holds[i].state != Held
        {
          assert !LiveFor(swept.holds[i], caseId, window, s.now);
        }
        NewHoldKeepsInv(swept, caseId, window, units);
      }
    }
  }

  lemma {:induction false} RunKeepsInv(s: State, actions: seq<Action>)
    requires Inv(s)
    ensures Inv(Run(s, actions))
  {
    if actions != [] {
      RunKeepsInv(s, actions[..|actions| - 1]);
      StepKeepsInv(Run(s, actions[..|actions| - 1]), actions[|actions| - 1]);
    }
  }

  // ---------------------------------------------------------------------------------------------
  // Main results: runs from any set of windows without holds

  /** At every instant the live holds of a window fit into it. */
  lemma NeverOversold(now: nat, windows: map<Id, Window>, actions: seq<Action>, w: Id)
    requires w in Run(State(now, windows, []), actions).windows
    ensures
      var s := Run(State(now, windows, []), actions);
      LiveUnits(s.holds, w, s.now) <= Max(s.windows[w].capacityUnits, 0)
  {
    RunKeepsInv(State(now, windows, []), actions);
  }

  /** A case has at most one live hold on a window, and no hold outlives its window. */
  lemma OneLiveHoldWithinWindow(now: nat, windows: map<Id, Window>, actions: seq<Action>, i: nat, j: nat)
    requires i < |Run(State(now, windows, []), actions).holds| && j < |Run(State(now, windows, []), actions).holds|
    ensures
      var s := Run(State(now, windows, []), actions);
      && (s.holds[i].state == Held ==> s.holds[i].window in s.windows && s.holds[i].expiresAt <= s.windows[s.holds[i].window].end)
      && (LiveFor(s.holds[i], s.holds[j].caseId, s.holds[j].window, s.now) && Live(s.holds[j], s.now) ==> i == j)
  {
    RunKeepsInv(State(now, windows, []), actions);
    var s := Run(State(now, windows, []), actions);
    assert WithinWindow(s, s.holds[i]);
  }

  /** Confirming extends live holds of the case to the window's end and revives nothing. */
  lemma ConfirmNeverRevives(s: State, caseId: Id, i: nat)
    requires Inv(s) && i < |s.holds|
    ensures
      var t := Next(s, Confirm(caseId));
      && (Live(t.holds[i], t.now) <==> Live(s.holds[i], s.now))
      && (t.holds[i] != s.holds[i] ==> s.holds[i].caseId == caseId && Live(s.holds[i], s.now)
                                       && t.holds[i].expiresAt == s.windows[s.holds[i].window].end)
      && forall w :: LiveUnits(t.holds, w, t.now) == LiveUnits(s.holds, w, s.now)
  {
    assert WithinWindow(s, s.holds[i]);
    var t := Next(s, Confirm(caseId));
    forall w ensures LiveUnits(t.holds, w, t.now) == LiveUnits(s.holds, w, s.now) {
      FewerLiveUnits(s.holds, s.now, t.holds, t.now, w);
      FewerLiveUnits(t.holds, t.now, s.holds, s.now, w);
    }
  }

  /** Once a hold is not live, no later step makes it live again. */
  lemma {:induction false} LapsedStaysLapsed(s: State, actions: seq<Action>, i: nat)
    requires i < |s.holds| && !Live(s.holds[i], s.now)
    ensures i < |Run(s, actions).holds| && !Live(Run(s, actions).holds[i], Run(s, actions).now)
  {
    if actions != [] {
      LapsedStaysLapsed(s, actions[..|actions| - 1], i);
    }
  }
}
