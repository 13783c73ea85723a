/** Safety of the outbox over every interleaving of claims, late workers, crashes and requeues. */
module OutboxProofs {
  import opened Prelude
  import opened Outbox

  function Upto(n: nat): (r: seq<nat>)
    ensures |r| == n && forall i :: 0 <= i < n ==> r[i] == i + 1
  {
    seq(n, i => i + 1)
  }

  lemma UptoHas(n: nat, k: nat)
    ensures k in Upto(n) <==> 1 <= k <= n
  {
    if 1 <= k <= n { assert Upto(n)[k - 1] == k; }
  }

  predicate RowOk(row: Row) {
    && 0 < row.max && row.attempts <= row.max
    && (row.phase == Pending ==> row.attempts < row.max)
    && row.max <= row.firstMax + 3 * row.requeues
  }

  /** Every number up to the row's count is recorded once, in order; a pending row may be one ahead. */
  predicate LogOk(s: State, i: Id)
    requires i < |s.rows|
  {
    var n := s.rows[i].attempts;
    Numbers(s.log, i) == Upto(n) || (s.rows[i].phase == Pending && Numbers(s.log, i) == Upto(n + 1))
  }

  predicate FlightOk(s: State, f: Id)
    requires f in s.flights
  {
    var flight := s.flights[f];
    && f < s.nextFlight && flight.row < |s.rows|
    && var row := s.rows[flight.row];
    && 0 < flight.copy.max && flight.copy.attempts <= row.attempts
    && (flight.copy.attempts == row.attempts ==> row.phase == Pending && row.max == flight.copy.max)
    && (flight.recorded.Some? ==>
        && !flight.recorded.value.outcome.Thrown?
        && flight.copy.attempts == row.attempts
        && Numbers(s.log, flight.row) == Upto(row.attempts + 1))
  }

  predicate Recorded(s: State, f: Id, i: Id) {
    f in s.flights && s.flights[f].row == i && s.flights[f].recorded.Some?
  }

  predicate RowsOk(s: State) { forall i :: 0 <= i < |s.rows| ==> RowOk(s.rows[i]) }

  ghost predicate LogsOk(s: State) {
    && (forall i :: 0 <= i < |s.rows| ==> LogOk(s, i))
    && (forall i: Id :: |s.rows| <= i ==> Numbers(s.log, i) == [])
  }

  predicate FlightsOk(s: State) { forall f <- s.flights :: FlightOk(s, f) }

  /** At most one worker stands between recording an attempt and writing the row. */
  ghost predicate OneRecorder(s: State) {
    forall f: Id, g: Id, i: Id :: Recorded(s, f, i) && Recorded(s, g, i) ==> f == g
  }

  ghost predicate Inv(s: State) { RowsOk(s) && LogsOk(s) && FlightsOk(s) && OneRecorder(s) }

  lemma NumbersPush(log: seq<Attempt>, a: Attempt, i: Id)
    ensures Numbers(log + [a], i) == Numbers(log, i) + if a.row == i then [a.number] else []
  {
    assert (log + [a])[..|log|] == log;
  }

  /** A number that is still free is the next one, and nobody holds it. */
  lemma FreeNumberIsNext(s: State, f: Id)
    requires Inv(s) && f in s.flights && s.flights[f].copy.attempts + 1 !in Numbers(s.log, s.flights[f].row)
    ensures var flight := s.flights[f];
      && flight.row < |s.rows|
      && flight.copy.attempts == s.rows[flight.row].attempts
      && s.rows[flight.row].phase == Pending && s.rows[flight.row].max == flight.copy.max
      && Numbers(s.log, flight.row) == Upto(flight.copy.attempts)
      && (forall g :: !Recorded(s, g, flight.row))
  {
    var flight := s.flights[f];
    var n := s.rows[flight.row].attempts;
    assert FlightOk(s, f) && LogOk(s, flight.row);
    UptoHas(n, flight.copy.attempts + 1);
    UptoHas(n + 1, flight.copy.attempts + 1);
    forall g ensures !Recorded(s, g, flight.row) {
      if g in s.flights { assert FlightOk(s, g); }
    }
  }

  /** The state after a successful record: one more number for one row, one flight with a reply. */
  predicate RecordedBy(s: State, t: State, f: Id, reply: Reply) {
    && f in s.flights && !reply.outcome.Thrown?
    && t.rows == s.rows && t.nextFlight == s.nextFlight
    && t.flights == s.flights[f := s.flights[f].(recorded := Some(reply))]
    && t.log == s.log + [Attempt(s.flights[f].row, s.flights[f].copy.attempts + 1, reply.outcome.Delivered?)]
  }

  lemma RecordedKeepsLogs(s: State, t: State, f: Id, reply: Reply)
    requires Inv(s) && RecordedBy(s, t, f, reply)
    requires s.flights[f].copy.attempts + 1 !in Numbers(s.log, s.flights[f].row)
    ensures LogsOk(t)
    ensures forall i: Id :: i != s.flights[f].row ==> Numbers(t.log, i) == Numbers(s.log, i)
    ensures Numbers(t.log, s.flights[f].row) == Upto(s.flights[f].copy.attempts + 1)
  {
    hide Numbers, RowOk, FlightOk;
    FreeNumberIsNext(s, f);
    var flight := s.flights[f];
    var n := flight.copy.attempts;
    assert Upto(n) + [n + 1] == Upto(n + 1);
    forall i: Id ensures Numbers(t.log, i) == Numbers(s.log, i) + if i == flight.row then [n + 1] else [] {
      NumbersPush(s.log, t.log[|s.log|], i);
    }
    forall i | 0 <= i < |t.rows| ensures LogOk(t, i) { assert LogOk(s, i); }
  }

  lemma RecordedKeepsFlights(s: State, t: State, f: Id, reply: Reply)
    requires Inv(s) && RecordedBy(s, t, f, reply)
    requires s.flights[f].copy.attempts + 1 !in Numbers(s.log, s.flights[f].row)
    ensures FlightsOk(t) && OneRecorder(t)
  {
    FreeNumberIsNext(s, f);
    RecordedKeepsLogs(s, t, f, reply);
    forall g | g in t.flights ensures FlightOk(t, g) {
      assert FlightOk(s, g);
      if g != f { assert !Recorded(s, g, s.flights[f].row); }
    }
    forall g: Id, h: Id, i: Id | Recorded(t, g, i) && Recorded(t, h, i) ensures g == h {
      assert g != f ==> Recorded(s, g, i);
      assert h != f ==> Recorded(s, h, i);
    }
  }

  lemma RecordKeepsInv(s: State, f: Id, driver: Driver, channel: Option<Channel>, outcome: Outcome)
    requires Inv(s) && f in s.flights && s.flights[f].recorded.None?
    ensures Inv(RecordAttempt(s, f, driver, channel, outcome))
  {
    hide Decide, ProviderOf;
    var t := RecordAttempt(s, f, driver, channel, outcome);
    if Recordable(s, f, driver, channel, outcome) {
      var reply := t.flights[f].recorded.value;
      assert RecordedBy(s, t, f, reply);
      RecordedKeepsLogs(s, t, f, reply);
      RecordedKeepsFlights(s, t, f, reply);
    } else {
      DropKeepsInv(s, f);
    }
  }

  lemma DropKeepsInv(s: State, f: Id)
    requires Inv(s)
    ensures Inv(Drop(s, f))
  {
    var t := Drop(s, f);
    forall g | g in t.flights ensures FlightOk(t, g) { assert FlightOk(s, g); }
    forall i | 0 <= i < |t.rows| ensures LogOk(t, i) { assert LogOk(s, i); }
    forall g: Id, h: Id, i: Id | Recorded(t, g, i) && Recorded(t, h, i) ensures g == h {
      assert Recorded(s, g, i) && Recorded(s, h, i);
    }
  }

  lemma WriteKeepsInv(s: State, f: Id)
    requires Inv(s) && Writable(s, f)
    ensures Inv(WriteRow(s, f))
  {
    hide Delay, ErrorText, MessageId, Generated;
    var t := WriteRow(s, f);
    var flight := s.flights[f];
    var i := flight.row;
    assert FlightOk(s, f) && Recorded(s, f, i) && RowOk(s.rows[i]);
    forall g | g in t.flights ensures FlightOk(t, g) {
      assert FlightOk(s, g);
      if s.flights[g].row == i { assert Recorded(s, g, i) ==> g == f; }
    }
    forall j | 0 <= j < |t.rows| ensures LogOk(t, j) { assert LogOk(s, j); }
    forall g: Id, h: Id, j: Id | Recorded(t, g, j) && Recorded(t, h, j) ensures g == h {
      assert Recorded(s, g, j) && Recorded(s, h, j);
    }
  }

  lemma ClaimKeepsInv(s: State, i: Id, worker: string)
    requires Inv(s) && i < |s.rows| && s.rows[i].phase == Pending
    ensures Inv(ClaimRow(s, i, worker))
  {
    var t := ClaimRow(s, i, worker);
    assert RowOk(s.rows[i]);
    forall g | g in t.flights ensures FlightOk(t, g) {
      if g != s.nextFlight { assert FlightOk(s, g); }
    }
    forall j | 0 <= j < |t.rows| ensures LogOk(t, j) { assert LogOk(s, j); }
    forall g: Id, h: Id, j: Id | Recorded(t, g, j) && Recorded(t, h, j) ensures g == h {
      assert g != s.nextFlight && h != s.nextFlight;
      assert Recorded(s, g, j) && Recorded(s, h, j);
    }
  }

  lemma RequeueKeepsInv(s: State, i: Id)
    requires Inv(s) && i < |s.rows| && s.rows[i].phase == Dead
    ensures Inv(Next(s, Requeue(i)))
  {
    var t := Next(s, Requeue(i));
    assert RowOk(s.rows[i]);
    forall g | g in t.flights ensures FlightOk(t, g) { assert FlightOk(s, g); }
    forall j | 0 <= j < |t.rows| ensures LogOk(t, j) { assert LogOk(s, j); }
    forall g: Id, h: Id, j: Id | Recorded(t, g, j) && Recorded(t, h, j) ensures g == h {
      assert Recorded(s, g, j) && Recorded(s, h, j);
    }
  }

  lemma EnqueueKeepsInv(s: State, max: nat)
    requires Inv(s) && max > 0
    ensures Inv(Next(s, Enqueue(max)))
  {
    var t := Next(s, Enqueue(max));
    forall g | g in t.flights ensures FlightOk(t, g) { assert FlightOk(s, g); }
    forall j | 0 <= j < |t.rows| ensures LogOk(t, j) { if j < |s.rows| { assert LogOk(s, j); } else { assert Upto(0) == []; } }
    forall g: Id, h: Id, j: Id | Recorded(t, g, j) && Recorded(t, h, j) ensures g == h {
      assert Recorded(s, g, j) && Recorded(s, h, j);
    }
  }

  lemma TickKeepsInv(s: State, seconds: nat)
    requires Inv(s)
    ensures Inv(Next(s, Tick(seconds)))
  {
    var t := Next(s, Tick(seconds));
    forall g | g in t.flights ensures FlightOk(t, g) { assert FlightOk(s, g); }
    forall j | 0 <= j < |t.rows| ensures LogOk(t, j) { assert LogOk(s, j); }
    forall g: Id, h: Id, j: Id | Recorded(t, g, j) && Recorded(t, h, j) ensures g == h {
      assert Recorded(s, g, j) && Recorded(s, h, j);
    }
  }

  /** Every step keeps the invariant, whenever it happens: no step needs to be inside its lock. */
  lemma StepKeepsInv(s: State, a: Action)
    requires Inv(s) && (a.Enqueue? ==> a.max > 0)
    ensures Inv(Next(s, a))
  {
    hide RecordAttempt, WriteRow, ClaimRow, Drop, Requeued, Inv;
    match a
    case Enqueue(max) => EnqueueKeepsInv(s, max);
    case Claim(i, worker) => if i < |s.rows| && Claimable(s.rows[i], s.now) { ClaimKeepsInv(s, i, worker); }
    case Record(f, driver, channel, outcome) =>
      if f in s.flights && s.flights[f].recorded.None? { RecordKeepsInv(s, f, driver, channel, outcome); }
    case Write(f) => if Writable(s, f) { WriteKeepsInv(s, f); }
    case Crash(f) => DropKeepsInv(s, f);
    case Requeue(i) => if i < |s.rows| && s.rows[i].phase == Dead { RequeueKeepsInv(s, i); }
    case Tick(seconds) => TickKeepsInv(s, seconds);
  }

  lemma {:induction false} RunKeepsInv(s: State, actions: seq<Action>)
    requires Inv(s) && Sensible(actions)
    ensures Inv(Run(s, actions))
  {
    if actions != [] {
      hide Inv, Next;
      RunKeepsInv(s, actions[..|actions| - 1]);
      StepKeepsInv(Run(s, actions[..|actions| - 1]), actions[|actions| - 1]);
    }
  }

  // ---------------------------------------------------------------------------------------------
  // Main results

  /** The attempt limit holds in every run, and each manual requeue adds at most three attempts to it. */
  lemma AttemptsBounded(actions: seq<Action>, i: Id)
    requires Sensible(actions) && i < |Run(Empty, actions).rows|
    ensures var row := Run(Empty, actions).rows[i];
      && row.attempts <= row.firstMax + 3 * row.requeues
      && (row.phase == Pending ==> row.attempts < row.max)
  {
    RunKeepsInv(Empty, actions);
    assert RowOk(Run(Empty, actions).rows[i]);
  }

  /** The recorded attempts of a notification are numbered 1, 2, 3, ... without gap or repetition. */
  lemma AttemptNumbersExact(actions: seq<Action>, i: Id)
    requires Sensible(actions) && i < |Run(Empty, actions).rows|
    ensures var s := Run(Empty, actions);
      && Numbers(s.log, i) == Upto(|Numbers(s.log, i)|)
      && s.rows[i].attempts <= |Numbers(s.log, i)| <= s.rows[i].attempts + 1
      && (s.rows[i].phase != Pending ==> |Numbers(s.log, i)| == s.rows[i].attempts)
  {
    RunKeepsInv(Empty, actions);
    assert LogOk(Run(Empty, actions), i);
  }

  lemma SentStepKeeps(s: State, a: Action, i: Id)
    requires Inv(s) && i < |s.rows| && s.rows[i].phase == Sent
    ensures i < |Next(s, a).rows| && Next(s, a).rows[i] == s.rows[i]
  {
    if a.Write? && Writable(s, a.flight) {
      assert FlightOk(s, a.flight);
    }
  }

  /** Sent is final, however late a slow worker reports. */
  lemma {:induction false} SentIsFinal(s: State, actions: seq<Action>, i: Id)
    requires Inv(s) && Sensible(actions) && i < |s.rows| && s.rows[i].phase == Sent
    ensures i < |Run(s, actions).rows| && Run(s, actions).rows[i] == s.rows[i]
  {
    if actions != [] {
      var before := actions[..|actions| - 1];
      SentIsFinal(s, before, i);
      RunKeepsInv(s, before);
      SentStepKeeps(Run(s, before), actions[|actions| - 1], i);
    }
  }

  /** A dead row comes back with room for at least three more attempts, and only by a requeue. */
  lemma DeadUntilRequeued(s: State, a: Action, i: Id)
    requires Inv(s) && i < |s.rows| && s.rows[i].phase == Dead
    ensures i < |Next(s, a).rows|
    ensures a != Requeue(i) ==> Next(s, a).rows[i] == s.rows[i]
    ensures a == Requeue(i) ==> Claimable(Next(s, a).rows[i], s.now) && Next(s, a).rows[i].max >= s.rows[i].attempts + 3
  {
    if a.Write? && Writable(s, a.flight) {
      assert FlightOk(s, a.flight);
    }
  }

  // ---------------------------------------------------------------------------------------------
  // The crash window between recording and writing

  /** An attempt is recorded, the row does not know, and nobody is left to tell it. */
  ghost predicate Stranded(s: State, i: Id) {
    && i < |s.rows| && s.rows[i].phase == Pending
    && Numbers(s.log, i) == Upto(s.rows[i].attempts + 1)
    && (forall f :: !Recorded(s, f, i))
  }

  /** A crash strands a row exactly when it falls between the two writes. */
  lemma CrashStrandsIffRecorded(s: State, f: Id)
    requires Inv(s) && f in s.flights && !Stranded(s, s.flights[f].row)
    ensures Stranded(Next(s, Crash(f)), s.flights[f].row) <==> s.flights[f].recorded.Some?
  {
    var t := Next(s, Crash(f));
    var i := s.flights[f].row;
    assert FlightOk(s, f);
    if s.flights[f].recorded.Some? {
      assert Recorded(s, f, i);
      forall g ensures !Recorded(t, g, i) {
        if Recorded(t, g, i) { assert Recorded(s, g, i); }
      }
    } else {
      forall g ensures Recorded(s, g, i) ==> Recorded(t, g, i) { }
    }
  }

  /** It can happen to every notification that could be delivered: claimed, recorded, and then the worker is gone. */
  lemma StrandingHappens(s: State, i: Id, worker: string, driver: Driver, channel: Option<Channel>, outcome: Outcome)
    requires Inv(s) && i < |s.rows| && Claimable(s.rows[i], s.now) && !Stranded(s, i) && !outcome.Thrown?
    requires forall f :: !Recorded(s, f, i)
    ensures var f := s.nextFlight;
      Stranded(Next(Next(Next(s, Claim(i, worker)), Record(f, driver, channel, outcome)), Crash(f)), i)
  {
    hide Inv, Stranded, Decide, ProviderOf, Recordable;
    var f := s.nextFlight;
    var s1 := Next(s, Claim(i, worker));
    RetryableIffNotStranded(s, i, worker, driver, channel, outcome);
    StepKeepsInv(s, Claim(i, worker));
    var s2 := Next(s1, Record(f, driver, channel, outcome));
    StepKeepsInv(s1, Record(f, driver, channel, outcome));
    assert Recorded(s2, f, i);
    RecordedIsNotStranded(s2, f, i);
    CrashStrandsIffRecorded(s2, f);
  }

  lemma RecordedIsNotStranded(s: State, f: Id, i: Id)
    requires Recorded(s, f, i)
    ensures !Stranded(s, i)
  {
  }

  lemma StrandedRecord(s: State, f: Id, driver: Driver, channel: Option<Channel>, outcome: Outcome, i: Id)
    requires Inv(s) && Stranded(s, i) && f in s.flights && s.flights[f].recorded.None?
    ensures Stranded(RecordAttempt(s, f, driver, channel, outcome), i)
  {
    hide Decide, ProviderOf;
    var t := RecordAttempt(s, f, driver, channel, outcome);
    if Recordable(s, f, driver, channel, outcome) {
      FreeNumberIsNext(s, f);
      NumbersPush(s.log, t.log[|s.log|], i);
      assert |Upto(s.rows[i].attempts)| != |Upto(s.rows[i].attempts + 1)|;
    }
    forall g ensures !Recorded(t, g, i) {
      assert Recorded(t, g, i) ==> Recorded(s, g, i);
    }
  }

  lemma StrandedStep(s: State, a: Action, i: Id)
    requires Inv(s) && Stranded(s, i)
    ensures Stranded(Next(s, a), i) && Next(s, a).rows[i].attempts == s.rows[i].attempts
  {
    hide RecordAttempt, Written;
    if a.Record? && a.flight in s.flights && s.flights[a.flight].recorded.None? {
      StrandedRecord(s, a.flight, a.driver, a.channel, a.outcome, i);
      RecordKeepsRows(s, a.flight, a.driver, a.channel, a.outcome);
    } else {
      var t := Next(s, a);
      if a.Write? && Writable(s, a.flight) {
        assert Recorded(s, a.flight, s.flights[a.flight].row);
      }
      forall g ensures !Recorded(t, g, i) {
        assert Recorded(t, g, i) ==> Recorded(s, g, i);
      }
    }
  }

  lemma RecordKeepsRows(s: State, f: Id, driver: Driver, channel: Option<Channel>, outcome: Outcome)
    requires f in s.flights
    ensures RecordAttempt(s, f, driver, channel, outcome).rows == s.rows
  {
  }

  /** A stranded notification stays pending, at the same count, in every continuation: it is never sent and never dies. */
  lemma {:induction false} StrandedForever(s: State, actions: seq<Action>, i: Id)
    requires Inv(s) && Sensible(actions) && Stranded(s, i)
    ensures Stranded(Run(s, actions), i) && Run(s, actions).rows[i].attempts == s.rows[i].attempts
  {
    if actions != [] {
      hide Stranded, Inv, Next;
      var before := actions[..|actions| - 1];
      StrandedForever(s, before, i);
      RunKeepsInv(s, before);
      StrandedStep(Run(s, before), actions[|actions| - 1], i);
    }
  }

  /** A pending row that nobody is writing accepts the next attempt of a fresh claim exactly when it is not stranded. */
  lemma RetryableIffNotStranded(s: State, i: Id, worker: string, driver: Driver, channel: Option<Channel>, outcome: Outcome)
    requires Inv(s) && i < |s.rows| && s.rows[i].phase == Pending && !outcome.Thrown?
    requires forall f :: !Recorded(s, f, i)
    ensures Recordable(ClaimRow(s, i, worker), s.nextFlight, driver, channel, outcome) <==> !Stranded(s, i)
  {
    assert LogOk(s, i);
    var n := s.rows[i].attempts;
    UptoHas(n, n + 1);
    UptoHas(n + 1, n + 1);
  }

  // ---------------------------------------------------------------------------------------------
  // Batches

  function CountClaimable(rows: seq<Row>, now: nat): nat {
    if rows == [] then 0 else CountClaimable(rows[..|rows| - 1], now) + if Claimable(rows[|rows| - 1], now) then 1 else 0
  }

  lemma {:induction false} CountSplits(a: seq<Row>, b: seq<Row>, now: nat)
    ensures CountClaimable(a + b, now) == CountClaimable(a, now) + CountClaimable(b, now)
  {
    if b == [] {
      assert a + b == a;
    } else {
      CountSplits(a, b[..|b| - 1], now);
      assert (a + b)[..|a + b| - 1] == a + b[..|b| - 1];
    }
  }

  lemma {:induction false} ClaimKeepsEarlier(s: State, i: nat, limit: nat, worker: string, k: nat)
    requires k < i <= |s.rows|
    ensures var t := ClaimFrom(s, i, limit, worker); |t.rows| == |s.rows| && t.rows[k] == s.rows[k]
    decreases |s.rows| - i
  {
    if i < |s.rows| && limit > 0 {
      if Claimable(s.rows[i], s.now) {
        ClaimKeepsEarlier(ClaimRow(s, i, worker), i + 1, limit - 1, worker, k);
      } else {
        ClaimKeepsEarlier(s, i + 1, limit, worker, k);
      }
    }
  }

  /** A batch locks exactly the oldest claimable rows: those with fewer than `limit` claimable rows before them. */
  lemma {:induction false} ClaimsOldest(s: State, i: nat, limit: nat, worker: string, k: nat)
    requires i <= k < |s.rows|
    ensures var t := ClaimFrom(s, i, limit, worker);
      && |t.rows| == |s.rows|
      && t.rows[k] ==
        (if Claimable(s.rows[k], s.now) && CountClaimable(s.rows[i..k], s.now) < limit
         then s.rows[k].(lockedAt := Some(s.now), lockedBy := Some(worker)) else s.rows[k])
    decreases |s.rows| - i
  {
    if limit > 0 {
      var taken := Claimable(s.rows[i], s.now);
      var next := if taken then ClaimRow(s, i, worker) else s;
      if i == k {
        ClaimKeepsEarlier(next, i + 1, if taken then limit - 1 else limit, worker, k);
        assert CountClaimable(s.rows[i..k], s.now) == 0;
      } else {
        ClaimsOldest(next, i + 1, if taken then limit - 1 else limit, worker, k);
        CountSplits([s.rows[i]], s.rows[i + 1..k], s.now);
        assert s.rows[i..k] == [s.rows[i]] + s.rows[i + 1..k];
        assert CountClaimable([s.rows[i]], s.now) == if taken then 1 else 0;
        assert next.rows[i + 1..k] == s.rows[i + 1..k];
      }
    }
  }

  lemma {:induction false} ClaimFromKeepsInv(s: State, i: nat, limit: nat, worker: string)
    requires Inv(s) && i <= |s.rows|
    ensures Inv(ClaimFrom(s, i, limit, worker)) && ClaimFrom(s, i, limit, worker).nextFlight >= s.nextFlight
    decreases |s.rows| - i
  {
    hide Inv;
    if i < |s.rows| && limit > 0 {
      if Claimable(s.rows[i], s.now) {
        ClaimKeepsInv(s, i, worker);
        ClaimFromKeepsInv(ClaimRow(s, i, worker), i + 1, limit - 1, worker);
      } else {
        ClaimFromKeepsInv(s, i + 1, limit, worker);
      }
    }
  }

  lemma {:induction false} AbandonKeepsInv(s: State, f: Id, end: Id)
    requires Inv(s) && f <= end
    ensures Inv(Abandon(s, f, end)) && Abandon(s, f, end).rows == s.rows && Abandon(s, f, end).log == s.log
    decreases end - f
  {
    hide Inv;
    if f < end {
      DropKeepsInv(s, f);
      AbandonKeepsInv(Drop(s, f), f + 1, end);
    }
  }

  lemma {:induction false} DeliverFromKeepsInv(s: State, f: Id, end: Id, driver: Driver, answers: Answers)
    requires Inv(s) && f <= end
    ensures Inv(DeliverFrom(s, f, end, driver, answers))
    decreases end - f
  {
    hide Inv, Next;
    if f < end {
      if f !in s.flights {
        DeliverFromKeepsInv(s, f + 1, end, driver, answers);
      } else {
        var answer := answers(s.flights[f].row);
        var recorded := Next(s, Record(f, driver, answer.0, answer.1));
        StepKeepsInv(s, Record(f, driver, answer.0, answer.1));
        if f !in recorded.flights {
          AbandonKeepsInv(recorded, f, end);
        } else {
          StepKeepsInv(recorded, Write(f));
          DeliverFromKeepsInv(Next(recorded, Write(f)), f + 1, end, driver, answers);
        }
      }
    }
  }

  /** A whole batch keeps everything proved about single steps. */
  lemma BatchKeepsInv(s: State, driver: Driver, worker: string, limit: nat, answers: Answers)
    requires Inv(s)
    ensures Inv(Batch(s, driver, worker, limit, answers))
  {
    ClaimFromKeepsInv(s, 0, limit, worker);
    DeliverFromKeepsInv(ClaimFrom(s, 0, limit, worker), s.nextFlight, ClaimFrom(s, 0, limit, worker).nextFlight, driver, answers);
  }

  /**
   * A stranded row at the head of a batch stops the whole batch: whatever the adapters answer, no row
   * gets a result, although every claimed row stays locked.
   */
  lemma StrandedHeadBlocksBatch(s: State, f: Id, end: Id, driver: Driver, answers: Answers)
    requires Inv(s) && f < end && f in s.flights && s.flights[f].recorded.None? && Stranded(s, s.flights[f].row)
    ensures DeliverFrom(s, f, end, driver, answers).rows == s.rows
    ensures DeliverFrom(s, f, end, driver, answers).log == s.log
  {
    hide Decide, ProviderOf;
    var flight := s.flights[f];
    var answer := answers(flight.row);
    var n := s.rows[flight.row].attempts;
    assert FlightOk(s, f);
    UptoHas(n + 1, flight.copy.attempts + 1);
    assert !Recordable(s, f, driver, answer.0, answer.1);
    var recorded := Next(s, Record(f, driver, answer.0, answer.1));
    assert recorded == Drop(s, f);
    DropKeepsInv(s, f);
    AbandonKeepsInv(recorded, f, end);
  }

  // ---------------------------------------------------------------------------------------------
  // Back-off

  lemma {:induction false} PowerGrows(n: nat)
    ensures Power2(n) > n
  {
    if n > 0 { PowerGrows(n - 1); }
  }

  /** The wait doubles from half a minute and stops growing at an hour. */
  lemma DelayDoubles(n: nat)
    requires n > 0
    ensures Delay(1) == 30 && Delay(n + 1) == Min(3600, 2 * Delay(n)) && 30 <= Delay(n) <= 3600
  {
    assert Power2(n) == 2 * Power2(n - 1);
    PowerGrows(n - 1);
    assert Power2(0) == 1;
  }

  // ---------------------------------------------------------------------------------------------
  // Two drivers of one table

  /** What a row's schedule is: everything but the texts. */
  function Schedule(row: Row): (Phase, nat, nat, nat, Option<nat>, Option<string>) {
    (row.phase, row.attempts, row.max, row.availableAt, row.lockedAt, row.provider)
  }

  /**
   * For one answer of the adapter the two drivers move the row to the same schedule exactly when the
   * limit is not zero, or the attempt exhausts the default limit anyway, or the message went out.
   */
  lemma DriversAgreeOnSchedule(row: Row, copy: Row, provider: string, outcome: Outcome, generated: string, now: nat)
    requires !outcome.Thrown?
    ensures Schedule(Written(row, copy, Reply(NodeDriver, provider, outcome), generated, now))
         == Schedule(Written(row, copy, Reply(NativeDriver, provider, outcome), generated, now))
       <==> copy.max > 0 || copy.attempts + 1 >= DEFAULT_ATTEMPTS || outcome.Delivered?
  {
    hide Delay, ErrorText, MessageId;
  }

  /** In every run the limit a worker copied is positive, so one answer gives one schedule, whichever driver writes it. */
  lemma DriversAgreeInRuns(actions: seq<Action>, f: Id, row: Row, provider: string, outcome: Outcome, generated: string, now: nat)
    requires Sensible(actions) && f in Run(Empty, actions).flights && !outcome.Thrown?
    ensures
      var copy := Run(Empty, actions).flights[f].copy;
      Schedule(Written(row, copy, Reply(NodeDriver, provider, outcome), generated, now))
        == Schedule(Written(row, copy, Reply(NativeDriver, provider, outcome), generated, now))
  {
    hide Run, Written, Schedule;
    EmptyInv();
    RunKeepsInv(Empty, actions);
    var s := Run(Empty, actions);
    assert FlightOk(s, f);
    DriversAgreeOnSchedule(row, s.flights[f].copy, provider, outcome, generated, now);
  }

  lemma EmptyInv()
    ensures Inv(Empty)
  {
  }

  /** Before that, they decide alike unless the adapter itself threw: only one of them catches. */
  lemma DriversDecideAlike(provider: string, channel: Option<Channel>, outcome: Outcome)
    ensures Decide(NodeDriver, provider, channel, outcome) == Decide(NativeDriver, provider, channel, outcome)
       <==> !outcome.Thrown? || channel.None? || !channel.value.enabled || !Registered(provider)
  {
  }

  /** The texts agree exactly when the adapter gave a non-empty one, or nothing the other could prefer. */
  lemma DriversAgreeOnError(code: Option<string>, message: Option<string>)
    ensures ErrorText(NodeDriver, code, message) == ErrorText(NativeDriver, code, message)
       <==> Present(message) || (message.None? && (code.None? || code.value == "delivery_failed"))
  {
  }

  /**
   * The whole row, texts included, is the same from both drivers exactly when: a delivery came with an
   * identifier; or a failure came with a limit and a text on which they agree.
   */
  lemma DriversWriteSameRow(row: Row, copy: Row, provider: string, outcome: Outcome, generated: string, now: nat)
    requires !outcome.Thrown?
    ensures Written(row, copy, Reply(NodeDriver, provider, outcome), generated, now)
         == Written(row, copy, Reply(NativeDriver, provider, outcome), generated, now)
       <==> match outcome
            case Delivered(id) => Present(id) || id == Some(generated)
            case Failed(code, message) =>
              && (copy.max > 0 || copy.attempts + 1 >= DEFAULT_ATTEMPTS)
              && (Present(message) || (message.None? && (code.None? || code.value == "delivery_failed")))
  {
    hide Delay, ErrorText;
    if outcome.Failed? { DriversAgreeOnError(outcome.code, outcome.message); }
  }
}
