/**
 * Idempotent execution (src/services/idempotency.ts): one row per scoped key, locked for the whole
 * of a call, so that calls on one key follow one another. Hashes are taken to be injective: a hash
 * stands for the text it is taken of.
 */
module Idempotency {
  import opened Prelude
  import opened StableJson
  import StableJsonProofs

  const DAY := 86400
  const BAR: Text := [0x7C]
  const ANONYMOUS: Text := [0x61, 0x6E, 0x6F, 0x6E, 0x79, 0x6D, 0x6F, 0x75, 0x73]

  datatype Principal = Principal(role: Text, actor: Option<Text>)

  datatype Reply = Reply(status: nat, body: Text)

  /** How a business function ends: it commits, or it fails before or after having done its work. */
  datatype Ending = Commits | FailsEarly | FailsLate

  /** A business function; it either joins the transaction it is handed or commits work of its own. */
  datatype Work = Work(joins: bool, reply: Reply, ending: Ending)

  datatype Call = Call(principal: Principal, key: Option<Text>, operation: Text, body: Json, work: Work)

  datatype Row = Row(role: Text, actor: Option<Text>, operation: Text, requestHash: Text, response: Option<Reply>, expiresAt: nat)

  /** A business effect that became durable, with the call that caused it. */
  datatype Effect = Effect(call: Call, at: nat)

  datatype State = State(now: nat, rows: map<Text, Row>, effects: seq<Effect>)

  datatype Answer = Done(reply: Reply, isFresh: bool) | KeyTooLong | KeyReused | Failed

  /** An absent or an empty key asks for no protection. */
  predicate Protected(c: Call) { c.key.Some? && c.key.value != [] }

  function ScopedKey(c: Call): Text
    requires Protected(c)
  {
    c.principal.role + BAR + (if c.principal.actor.Some? then c.principal.actor.value else ANONYMOUS)
    + BAR + c.operation + BAR + c.key.value
  }

  function RequestHash(c: Call): Text { Print(c.body) }

  function NewRow(now: nat, c: Call): Row {
    Row(c.principal.role, c.principal.actor, c.operation, RequestHash(c), None, now + DAY)
  }

  predicate RowMatches(row: Row, c: Call) {
    row.requestHash == RequestHash(c) && row.operation == c.operation
    && row.role == c.principal.role && row.actor == c.principal.actor
  }

  /** Whether the work of a run that ended so is durable. */
  predicate Durable(w: Work) {
    w.ending == Commits || (!w.joins && w.ending == FailsLate)
  }

  function WithEffect(s: State, c: Call): State {
    if Durable(c.work) then s.(effects := s.effects + [Effect(c, s.now)]) else s
  }

  /** The row a run fills: a new one, one reset after expiry, or one that was never answered. */
  function Held(s: State, c: Call): Row
    requires Protected(c)
  {
    if ScopedKey(c) !in s.rows || s.rows[ScopedKey(c)].expiresAt <= s.now then NewRow(s.now, c) else s.rows[ScopedKey(c)]
  }

  /** Running the business function with the key's row held: the row is filled, or everything rolls back. */
  function RunHolding(s: State, c: Call): (State, Answer)
    requires Protected(c)
  {
    var t := WithEffect(s, c);
    if c.work.ending == Commits
    then (t.(rows := s.rows[ScopedKey(c) := Held(s, c).(response := Some(c.work.reply))]), Done(c.work.reply, true))
    else (t, Failed)
  }

  function Step(s: State, c: Call): (State, Answer) {
    if !Protected(c) then
      // The function is called without a transaction to join.
      (WithEffect(s, c.(work := c.work.(joins := false))),
       if c.work.ending == Commits then Done(c.work.reply, true) else Failed)
    else if |c.key.value| > 200 then (s, KeyTooLong)
    else
      var key := ScopedKey(c);
      if key !in s.rows || s.rows[key].expiresAt <= s.now then RunHolding(s, c)
      else if !RowMatches(s.rows[key], c) then (s, KeyReused)
      else if s.rows[key].response.Some? then (s, Done(s.rows[key].response.value, false))
      else RunHolding(s, c)
  }

  datatype Action = Invoke(call: Call) | Tick(seconds: nat)

  function Next(s: State, a: Action): State {
    match a
    case Invoke(c) => Step(s, c).0
    case Tick(d) => s.(now := s.now + d)
  }

  function Run(s: State, actions: seq<Action>): State {
    if actions == [] then s else Next(Run(s, actions[..|actions| - 1]), actions[|actions| - 1])
  }

  const Empty := State(0, map[], [])

  // ---------------------------------------------------------------------------------------------
  // Properties of runs

  ghost predicate Keyed(e: Effect, key: Text) { Protected(e.call) && ScopedKey(e.call) == key }

  ghost predicate OnSameKey(a: Effect, b: Effect) {
    Protected(a.call) && Protected(b.call) && ScopedKey(a.call) == ScopedKey(b.call)
  }

  /** Two effects of one scoped key are at least one expiry window apart. */
  ghost predicate AtMostOncePerWindow(effects: seq<Effect>) {
    forall i, j :: 0 <= i < j < |effects| && OnSameKey(effects[i], effects[j]) ==> effects[j].at >= effects[i].at + DAY
  }

  /** Bodies come from parsed JSON, and the functions of the run join (or do not join) the transaction. */
  ghost predicate Calls(actions: seq<Action>, joins: bool) {
    forall i :: 0 <= i < |actions| && actions[i].Invoke? ==>
      Valid(actions[i].call.body) && actions[i].call.work.joins == joins
  }

  /** The same request as the one that caused `e`, up to the order of object keys. */
  ghost predicate SameRequest(e: Effect, c: Call) {
    e.call.principal == c.principal && e.call.operation == c.operation && Same(e.call.body, c.body)
  }

  ghost predicate RowOk(s: State, key: Text) {
    && key in s.rows
    && s.rows[key].response.Some?
    && exists i :: 0 <= i < |s.effects| && Keyed(s.effects[i], key) && RowOf(s.effects[i]) == s.rows[key]
  }

  /** The row that the effect's own call left behind. */
  function RowOf(e: Effect): Row { NewRow(e.at, e.call).(response := Some(e.call.work.reply)) }

  ghost predicate RowsOk(s: State) { forall key :: key in s.rows ==> RowOk(s, key) }

  ghost predicate EffectsPast(s: State) {
    forall i :: 0 <= i < |s.effects| ==> s.effects[i].at <= s.now && Valid(s.effects[i].call.body)
  }

  /** The key's row stays in force at least until the window of each of its effects has passed. */
  ghost predicate Covered(s: State, e: Effect) {
    Protected(e.call) ==> ScopedKey(e.call) in s.rows && e.at + DAY <= s.rows[ScopedKey(e.call)].expiresAt
  }

  ghost predicate WindowsCovered(s: State) {
    forall i :: 0 <= i < |s.effects| ==> Covered(s, s.effects[i])
  }

  ghost predicate Inv(s: State) {
    RowsOk(s) && EffectsPast(s) && WindowsCovered(s) && AtMostOncePerWindow(s.effects)
  }

  lemma RowOkLasts(s: State, t: State, key: Text)
    requires RowOk(s, key) && key in t.rows && t.rows[key] == s.rows[key]
    requires |s.effects| <= |t.effects| && t.effects[..|s.effects|] == s.effects
    ensures RowOk(t, key)
  {
    var i :| 0 <= i < |s.effects| && Keyed(s.effects[i], key) && RowOf(s.effects[i]) == s.rows[key];
    assert t.effects[i] == t.effects[..|s.effects|][i];
  }

  /** One more effect, on a key whose earlier effects are all a window old, and on no key at all. */
  lemma AppendKeepsSpacing(effects: seq<Effect>, e: Effect)
    requires AtMostOncePerWindow(effects)
    requires forall i :: 0 <= i < |effects| && OnSameKey(effects[i], e) ==> e.at >= effects[i].at + DAY
    ensures AtMostOncePerWindow(effects + [e])
  {
    var more := effects + [e];
    forall i, j | 0 <= i < j < |more| && OnSameKey(more[i], more[j]) ensures more[j].at >= more[i].at + DAY {
      assert more[i] == effects[i];
      if j < |effects| { assert more[j] == effects[j]; }
    }
  }

  /** The state after a committed run on a key that was free. */
  function Filled(s: State, c: Call): State
    requires Protected(c)
  {
    State(s.now, s.rows[ScopedKey(c) := RowOf(Effect(c, s.now))], s.effects + [Effect(c, s.now)])
  }

  lemma FilledRowsOk(s: State, c: Call)
    requires RowsOk(s) && Protected(c)
    ensures RowsOk(Filled(s, c))
  {
    var t := Filled(s, c);
    assert t.effects[..|s.effects|] == s.effects;
    forall k | k in t.rows ensures RowOk(t, k) {
      if k == ScopedKey(c) {
        assert Keyed(t.effects[|s.effects|], k);
      } else {
        assert RowOk(s, k);
        RowOkLasts(s, t, k);
      }
    }
  }

  lemma FilledCovered(s: State, c: Call)
    requires WindowsCovered(s) && EffectsPast(s) && Protected(c)
    ensures WindowsCovered(Filled(s, c))
  {
    var t := Filled(s, c);
    forall i | 0 <= i < |t.effects| ensures Covered(t, t.effects[i]) {
      if i < |s.effects| {
        assert t.effects[i] == s.effects[i];
        assert Covered(s, s.effects[i]);
      }
    }
  }

  lemma RunHoldingKeepsInv(s: State, c: Call)
    requires Inv(s) && Valid(c.body) && Protected(c) && c.work.joins && c.work.ending == Commits
    requires ScopedKey(c) in s.rows ==> s.rows[ScopedKey(c)].expiresAt <= s.now
    ensures Inv(RunHolding(s, c).0)
  {
    assert RunHolding(s, c).0 == Filled(s, c);
    FilledRowsOk(s, c);
    FilledCovered(s, c);
    var e := Effect(c, s.now);
    forall i | 0 <= i < |s.effects| && OnSameKey(s.effects[i], e) ensures e.at >= s.effects[i].at + DAY {
      assert Covered(s, s.effects[i]);
    }
    AppendKeepsSpacing(s.effects, e);
  }

  lemma StepKeepsInv(s: State, c: Call)
    requires Inv(s) && Valid(c.body) && c.work.joins
    ensures Inv(Step(s, c).0)
  {
    if !Protected(c) {
      var t := Step(s, c).0;
      if t != s {
        var e := t.effects[|s.effects|];
        assert t.effects == s.effects + [e] && t.effects[..|s.effects|] == s.effects;
        forall key | key in t.rows ensures RowOk(t, key) { RowOkLasts(s, t, key); }
        forall i | 0 <= i < |t.effects| ensures Covered(t, t.effects[i]) {
          if i < |s.effects| { assert Covered(s, s.effects[i]); }
        }
        AppendKeepsSpacing(s.effects, e);
      }
    } else if |c.key.value| <= 200 && Step(s, c) == RunHolding(s, c) && c.work.ending == Commits {
      if ScopedKey(c) in s.rows { assert RowOk(s, ScopedKey(c)); }
      if ScopedKey(c) !in s.rows || s.rows[ScopedKey(c)].expiresAt <= s.now { RunHoldingKeepsInv(s, c); }
    }
  }

  lemma {:induction false} RunKeepsInv(s: State, actions: seq<Action>)
    requires Inv(s) && Calls(actions, true)
    ensures Inv(Run(s, actions))
  {
    if actions != [] {
      var front := actions[..|actions| - 1];
      RunKeepsInv(s, front);
      var last := actions[|actions| - 1];
      if last.Invoke? {
        StepKeepsInv(Run(s, front), last.call);
      } else {
        var t := Next(Run(s, front), last);
        forall key | key in t.rows ensures RowOk(t, key) { RowOkLasts(Run(s, front), t, key); }
        forall i | 0 <= i < |t.effects| ensures Covered(t, t.effects[i]) { assert Covered(Run(s, front), t.effects[i]); }
      }
    }
  }

  /** The window of an effect determines the row: it is the effect's own until the window has passed. */
  lemma WindowOwnsRow(s: State, i: nat)
    requires Inv(s) && i < |s.effects| && Protected(s.effects[i].call) && s.now < s.effects[i].at + DAY
    ensures ScopedKey(s.effects[i].call) in s.rows && s.rows[ScopedKey(s.effects[i].call)] == RowOf(s.effects[i])
  {
    var key := ScopedKey(s.effects[i].call);
    assert Covered(s, s.effects[i]) && RowOk(s, key);
    var j :| 0 <= j < |s.effects| && Keyed(s.effects[j], key) && RowOf(s.effects[j]) == s.rows[key];
    assert OnSameKey(s.effects[i], s.effects[j]) && OnSameKey(s.effects[j], s.effects[i]);
  }

  /**
   * Within the window of a committed run, every call on the key either repeats the same request and
   * gets the committed reply, or is refused; in neither case does the business function run.
   */
  lemma ReplayOrRefuse(actions: seq<Action>, i: nat, c: Call)
    requires Calls(actions, true) && Valid(c.body)
    requires Protected(c) && |c.key.value| <= 200
    requires i < |Run(Empty, actions).effects| && Keyed(Run(Empty, actions).effects[i], ScopedKey(c))
    requires Run(Empty, actions).now < Run(Empty, actions).effects[i].at + DAY
    ensures
      var s := Run(Empty, actions);
      var e := s.effects[i];
      Step(s, c) == (s, if SameRequest(e, c) then Done(e.call.work.reply, false) else KeyReused)
  {
    RunKeepsInv(Empty, actions);
    var s := Run(Empty, actions);
    WindowOwnsRow(s, i);
    StableJsonProofs.PrintsSameIffSame(s.effects[i].call.body, c.body);
  }

  /** A replayed reply belongs to the caller's own earlier call: same principal, operation and client key. */
  lemma ReplayIsOwn(e: Effect, c: Call)
    requires Protected(c) && Keyed(e, ScopedKey(c)) && SameRequest(e, c)
    ensures e.call.key == c.key
  {
    var prefix := c.principal.role + BAR + (if c.principal.actor.Some? then c.principal.actor.value else ANONYMOUS)
                  + BAR + c.operation + BAR;
    assert ScopedKey(c) == prefix + c.key.value && ScopedKey(e.call) == prefix + e.call.key.value;
    assert (prefix + c.key.value)[|prefix|..] == c.key.value;
    assert (prefix + e.call.key.value)[|prefix|..] == e.call.key.value;
  }

  /** A joining function that fails leaves neither an effect nor a trace in the key table. */
  lemma FailureLeavesNothing(s: State, c: Call)
    requires Protected(c) && c.work.joins && c.work.ending != Commits
    ensures Step(s, c).0 == s
  {
  }

  /** A function that commits on its own and then fails is run again by the retry: two effects in one window. */
  lemma OutsideWorkRepeats(s: State, c: Call)
    requires Protected(c) && |c.key.value| <= 200 && ScopedKey(c) !in s.rows && !c.work.joins && c.work.ending == FailsLate
    ensures
      var retry := c.(work := c.work.(ending := Commits));
      var t := Step(Step(s, c).0, retry).0;
      && t.effects == s.effects + [Effect(c, s.now), Effect(retry, s.now)]
      && OnSameKey(Effect(c, s.now), Effect(retry, s.now))
      && !AtMostOncePerWindow(t.effects)
  {
    var retry := c.(work := c.work.(ending := Commits));
    var t := Step(Step(s, c).0, retry).0;
    var n := |s.effects|;
    assert t.effects == s.effects + [Effect(c, s.now), Effect(retry, s.now)];
    assert t.effects[n] == Effect(c, s.now) && t.effects[n + 1] == Effect(retry, s.now);
    assert OnSameKey(t.effects[n], t.effects[n + 1]);
  }

  /** Without a key, or with an empty one, every committed call has its effect, however often it is repeated. */
  lemma UnprotectedRunsAgain(s: State, c: Call)
    requires !Protected(c) && c.work.ending == Commits
    ensures
      var once := Step(s, c).0;
      && Step(s, c).1 == Step(once, c).1 == Done(c.work.reply, true)
      && |Step(once, c).0.effects| == |s.effects| + 2
      && Step(once, c).0.rows == s.rows
  {
  }

  lemma RunTwo(c: Call, d: Call)
    ensures Run(Empty, [Invoke(c), Invoke(d)]) == Step(Step(Empty, c).0, d).0
  {
    hide Step;
    assert [Invoke(c), Invoke(d)][..1] == [Invoke(c)] && [Invoke(c)][..0] == [];
    assert Run(Empty, [Invoke(c)]) == Next(Run(Empty, []), Invoke(c));
  }

  /**
   * Effects happen at most once per key and window over every interleaving exactly when the
   * business functions do their work through the transaction they are handed.
   */
  lemma AtMostOnceIffJoining(joins: bool)
    ensures (forall actions :: Calls(actions, joins) ==> AtMostOncePerWindow(Run(Empty, actions).effects)) <==> joins
  {
    if joins {
      forall actions | Calls(actions, joins) ensures AtMostOncePerWindow(Run(Empty, actions).effects) {
        RunKeepsInv(Empty, actions);
      }
    } else {
      var c := Call(Principal([], None), Some([0x6B]), [], Null, Work(false, Reply(201, []), FailsLate));
      var retry := c.(work := c.work.(ending := Commits));
      var actions := [Invoke(c), Invoke(retry)];
      hide Step;
      RunTwo(c, retry);
      OutsideWorkRepeats(Empty, c);
      assert Calls(actions, joins);
    }
  }
}
