/** What the outcome of a notification means: which of its attempts went out, and when it may be tried again. */
module OutboxDelivery {
  import opened Prelude
  import opened Outbox
  import opened OutboxProofs

  /** The numbers of a notification's attempts that went out. */
  function SentNumbers(log: seq<Attempt>, row: Id): seq<nat> {
    if log == [] then []
    else
      var last := log[|log| - 1];
      SentNumbers(log[..|log| - 1], row) + if last.row == row && last.sent then [last.number] else []
  }

  /** A sent row was sent by its last attempt; a dead one by none; a pending one at most by an attempt not yet written. */
  predicate DeliveryOk(s: State, i: Id)
    requires i < |s.rows|
  {
    var row, sent := s.rows[i], SentNumbers(s.log, i);
    match row.phase
    case Sent => row.attempts > 0 && sent == [row.attempts]
    case Dead => sent == [] && row.attempts >= row.max
    case Pending => sent == [] || (sent == [row.attempts + 1] && Numbers(s.log, i) == Upto(row.attempts + 1))
  }

  /** A recorded reply says of its attempt what the log says. */
  predicate ReplyOk(s: State, f: Id)
    requires f in s.flights
  {
    var flight := s.flights[f];
    flight.recorded.Some? ==>
      flight.row < |s.rows|
      && SentNumbers(s.log, flight.row) ==
         (if flight.recorded.value.outcome.Delivered? then [s.rows[flight.row].attempts + 1] else [])
  }

  ghost predicate Delivered(s: State) {
    && (forall i :: 0 <= i < |s.rows| ==> DeliveryOk(s, i))
    && (forall i: Id :: |s.rows| <= i ==> SentNumbers(s.log, i) == [])
    && (forall f <- s.flights :: ReplyOk(s, f))
  }

  lemma SentPush(log: seq<Attempt>, a: Attempt, i: Id)
    ensures SentNumbers(log + [a], i) == SentNumbers(log, i) + if a.row == i && a.sent then [a.number] else []
  {
    assert (log + [a])[..|log|] == log;
  }

  lemma RecordedSent(s: State, t: State, f: Id, reply: Reply, i: Id)
    requires RecordedBy(s, t, f, reply)
    ensures SentNumbers(t.log, i)
      == SentNumbers(s.log, i) + if i == s.flights[f].row && reply.outcome.Delivered? then [s.flights[f].copy.attempts + 1] else []
  {
    SentPush(s.log, t.log[|s.log|], i);
  }

  lemma RecordedDelivers(s: State, t: State, f: Id, reply: Reply)
    requires Inv(s) && Delivered(s) && RecordedBy(s, t, f, reply)
    requires s.flights[f].copy.attempts + 1 !in Numbers(s.log, s.flights[f].row)
    ensures Delivered(t)
  {
    hide SentNumbers, Numbers;
    var flight := s.flights[f];
    FreeNumberIsNext(s, f);
    RecordedKeepsLogs(s, t, f, reply);
    assert DeliveryOk(s, flight.row);
    assert |Upto(flight.copy.attempts)| != |Upto(flight.copy.attempts + 1)|;
    hide Inv;
    forall i | 0 <= i < |t.rows| ensures DeliveryOk(t, i) {
      assert DeliveryOk(s, i);
      RecordedSent(s, t, f, reply, i);
    }
    forall i: Id | |t.rows| <= i ensures SentNumbers(t.log, i) == [] { RecordedSent(s, t, f, reply, i); }
    forall g | g in t.flights ensures ReplyOk(t, g) {
      assert ReplyOk(s, g);
      RecordedSent(s, t, f, reply, t.flights[g].row);
      if g != f { assert !Recorded(s, g, flight.row); }
    }
  }

  lemma RecordDelivers(s: State, f: Id, driver: Driver, channel: Option<Channel>, outcome: Outcome)
    requires Inv(s) && Delivered(s) && f in s.flights && s.flights[f].recorded.None?
    requires Recordable(s, f, driver, channel, outcome)
    ensures Delivered(RecordAttempt(s, f, driver, channel, outcome))
  {
    hide Decide, ProviderOf, Inv, Delivered, Numbers;
    var t := RecordAttempt(s, f, driver, channel, outcome);
    var reply := t.flights[f].recorded.value;
    assert RecordedBy(s, t, f, reply);
    RecordedDelivers(s, t, f, reply);
  }

  lemma WriteDelivers(s: State, f: Id)
    requires Inv(s) && Delivered(s) && Writable(s, f)
    ensures Delivered(WriteRow(s, f))
  {
    hide Delay, ErrorText, MessageId, Generated, SentNumbers, Numbers;
    var t := WriteRow(s, f);
    var flight := s.flights[f];
    assert FlightOk(s, f) && ReplyOk(s, f) && DeliveryOk(s, flight.row) && Recorded(s, f, flight.row);
    forall i | 0 <= i < |t.rows| ensures DeliveryOk(t, i) { assert DeliveryOk(s, i); }
    forall g | g in t.flights ensures ReplyOk(t, g) {
      assert ReplyOk(s, g);
      assert Recorded(s, g, flight.row) ==> g == f;
    }
  }

  lemma QuietDelivers(s: State, t: State)
    requires Delivered(s) && t.log == s.log && |t.rows| >= |s.rows|
    requires forall i :: 0 <= i < |s.rows| ==> t.rows[i].phase == s.rows[i].phase && t.rows[i].attempts == s.rows[i].attempts && t.rows[i].max == s.rows[i].max
    requires forall i :: |s.rows| <= i < |t.rows| ==> t.rows[i].phase == Pending
    requires forall f <- t.flights :: t.flights[f].recorded.Some? ==> f in s.flights && t.flights[f] == s.flights[f]
    ensures Delivered(t)
  {
    forall i | 0 <= i < |t.rows| ensures DeliveryOk(t, i) { if i < |s.rows| { assert DeliveryOk(s, i); } }
    forall f | f in t.flights ensures ReplyOk(t, f) { if t.flights[f].recorded.Some? { assert ReplyOk(s, f); } }
  }

  lemma RequeueDelivers(s: State, i: Id)
    requires Inv(s) && Delivered(s) && i < |s.rows| && s.rows[i].phase == Dead
    ensures Delivered(Next(s, Requeue(i)))
  {
    hide SentNumbers, Numbers;
    var t := Next(s, Requeue(i));
    forall j | 0 <= j < |t.rows| ensures DeliveryOk(t, j) { assert DeliveryOk(s, j); }
    forall f | f in t.flights ensures ReplyOk(t, f) { assert ReplyOk(s, f) && FlightOk(s, f); }
  }

  lemma StepDelivers(s: State, a: Action)
    requires Inv(s) && Delivered(s)
    ensures Delivered(Next(s, a))
  {
    hide Inv, Delivered, SentNumbers, Numbers;
    match a
    case Record(f, driver, channel, outcome) =>
      if f in s.flights && s.flights[f].recorded.None? {
        if Recordable(s, f, driver, channel, outcome) {
          RecordDelivers(s, f, driver, channel, outcome);
        } else {
          QuietDelivers(s, Next(s, a));
        }
      }
    case Write(f) => if Writable(s, f) { WriteDelivers(s, f); }
    case Requeue(i) => if i < |s.rows| && s.rows[i].phase == Dead { RequeueDelivers(s, i); }
    case _ => QuietDelivers(s, Next(s, a));
  }

  lemma EmptyDelivers()
    ensures Delivered(Empty)
  {
  }

  lemma {:induction false} RunDelivers(actions: seq<Action>)
    requires Sensible(actions)
    ensures Delivered(Run(Empty, actions))
  {
    if actions == [] {
      EmptyDelivers();
    } else {
      hide Inv, Delivered, Next;
      var front := actions[..|actions| - 1];
      RunDelivers(front);
      EmptyInv();
      RunKeepsInv(Empty, front);
      StepDelivers(Run(Empty, front), actions[|actions| - 1]);
    }
  }

  // ---------------------------------------------------------------------------------------------
  // Main results

  function LastAttempt(log: seq<Attempt>, row: Id): Option<Attempt> {
    if log == [] then None
    else if log[|log| - 1].row == row then Some(log[|log| - 1])
    else LastAttempt(log[..|log| - 1], row)
  }

  lemma {:induction false} LastAttemptNumbers(log: seq<Attempt>, i: Id)
    ensures LastAttempt(log, i).None? <==> Numbers(log, i) == []
    ensures LastAttempt(log, i).Some? ==>
      && LastAttempt(log, i).value.row == i
      && Numbers(log, i)[|Numbers(log, i)| - 1] == LastAttempt(log, i).value.number
      && (LastAttempt(log, i).value.sent ==>
          SentNumbers(log, i) != [] && SentNumbers(log, i)[|SentNumbers(log, i)| - 1] == LastAttempt(log, i).value.number)
  {
    if log != [] { LastAttemptNumbers(log[..|log| - 1], i); }
  }

  /** A number that went out was recorded, and the last one recorded went out if it is among them. */
  lemma {:induction false} SentAreNumbers(log: seq<Attempt>, i: Id, k: nat)
    ensures k in SentNumbers(log, i) ==> k in Numbers(log, i)
    ensures k in SentNumbers(log, i) <==> exists m :: 0 <= m < |log| && log[m] == Attempt(i, k, true)
  {
    if log != [] {
      var front, last := log[..|log| - 1], log[|log| - 1];
      SentAreNumbers(front, i, k);
      assert log == front + [last];
      if last == Attempt(i, k, true) { assert log[|log| - 1] == Attempt(i, k, true); }
    }
  }

  lemma {:induction false} LastSentIsLast(log: seq<Attempt>, i: Id)
    requires Numbers(log, i) == Upto(|Numbers(log, i)|) && Numbers(log, i) != [] && |Numbers(log, i)| in SentNumbers(log, i)
    ensures LastAttempt(log, i).Some? && LastAttempt(log, i).value.sent
  {
    var front, last := log[..|log| - 1], log[|log| - 1];
    var n := |Numbers(log, i)|;
    if last.row == i {
      assert Numbers(log, i) == Numbers(front, i) + [last.number];
      forall m | 0 <= m < n - 1 ensures Numbers(front, i)[m] == m + 1 { assert Numbers(log, i)[m] == Upto(n)[m]; }
      assert Numbers(front, i) == Upto(n - 1);
      UptoHas(n - 1, n);
      SentAreNumbers(front, i, n);
    } else {
      LastSentIsLast(front, i);
    }
  }

  /**
   * In every run a notification is sent exactly when its last recorded attempt went out and that attempt
   * is not still waiting to be written, by a worker that holds it or by one that was lost.
   */
  lemma SentIffLastAttemptWentOut(actions: seq<Action>, i: Id)
    requires Sensible(actions) && i < |Run(Empty, actions).rows|
    ensures
      var s := Run(Empty, actions);
      var last := LastAttempt(s.log, i);
      s.rows[i].phase == Sent <==> last.Some? && last.value.sent && (forall f :: !Recorded(s, f, i)) && !Stranded(s, i)
  {
    RunDelivers(actions);
    EmptyInv();
    RunKeepsInv(Empty, actions);
    hide Run, SentNumbers, Numbers;
    var s := Run(Empty, actions);
    assert DeliveryOk(s, i) && LogOk(s, i);
    LastAttemptNumbers(s.log, i);
    var n := s.rows[i].attempts;
    if s.rows[i].phase == Sent {
      assert n in SentNumbers(s.log, i);
      LastSentIsLast(s.log, i);
      forall f ensures !Recorded(s, f, i) { if f in s.flights { assert FlightOk(s, f); } }
    }
  }

  /** A dead notification used up its limit, and none of its attempts went out: a requeue repeats nothing. */
  lemma DeadWasNeverSent(actions: seq<Action>, i: Id)
    requires Sensible(actions) && i < |Run(Empty, actions).rows| && Run(Empty, actions).rows[i].phase == Dead
    ensures
      var s := Run(Empty, actions);
      && s.rows[i].attempts >= s.rows[i].max
      && forall k :: 0 <= k < |s.log| && s.log[k].row == i ==> !s.log[k].sent
  {
    RunDelivers(actions);
    hide Run;
    var s := Run(Empty, actions);
    assert DeliveryOk(s, i);
    forall k | 0 <= k < |s.log| && s.log[k].row == i ensures !s.log[k].sent {
      if s.log[k].sent { SentAreNumbers(s.log, i, s.log[k].number); }
    }
  }

  lemma {:induction false} OneSentAttempt(log: seq<Attempt>, i: Id, k: nat, l: nat)
    requires k < l < |log| && log[k].row == i && log[l].row == i && log[k].sent && log[l].sent
    ensures |SentNumbers(log, i)| >= 2
  {
    var n := |log| - 1;
    if l < n {
      OneSentAttempt(log[..n], i, k, l);
    } else {
      SentAreNumbers(log[..n], i, log[k].number);
      assert log[..n][k] == Attempt(i, log[k].number, true);
    }
  }

  /** At most one recorded attempt of a notification ever went out. */
  lemma SentAtMostOnce(actions: seq<Action>, k: nat, l: nat)
    requires Sensible(actions) && k < |Run(Empty, actions).log| && l < |Run(Empty, actions).log|
    requires
      var log := Run(Empty, actions).log;
      log[k].row == log[l].row && log[k].sent && log[l].sent
    ensures k == l
  {
    RunDelivers(actions);
    hide Run;
    var s := Run(Empty, actions);
    var i := s.log[k].row;
    if k < l { OneSentAttempt(s.log, i, k, l); }
    if l < k { OneSentAttempt(s.log, i, l, k); }
    if i < |s.rows| { assert DeliveryOk(s, i); }
  }

  // ---------------------------------------------------------------------------------------------
  // One attempt

  /** When a row may be claimed: pending, due, and not locked within the last five minutes. */
  lemma ClaimTakesExactly(s: State, i: Id, worker: string)
    ensures Next(s, Claim(i, worker)) != s
       <==> && i < |s.rows| && s.rows[i].phase == Pending && s.rows[i].availableAt <= s.now
            && (s.rows[i].lockedAt.None? || s.rows[i].lockedAt.value + 300 < s.now)
  {
    if i < |s.rows| && Claimable(s.rows[i], s.now) { assert ClaimRow(s, i, worker).nextFlight != s.nextFlight; }
  }

  /**
   * Writing an attempt: a delivery makes the row sent, now, and clears its error; a failure that reaches
   * the limit makes it dead; any other failure unlocks it and keeps it pending, to be claimed again
   * exactly when the wait for this attempt is over.
   */
  lemma WriteDecides(s: State, f: Id)
    requires Writable(s, f) && s.flights[f].copy.max > 0
    ensures
      var flight := s.flights[f];
      var outcome, n := flight.recorded.value.outcome, flight.copy.attempts + 1;
      var t := Next(s, Write(f));
      && |t.rows| == |s.rows| && f !in t.flights
      && var row := t.rows[flight.row];
      && row.attempts == n && row.lockedAt.None? && row.lockedBy.None? && row.max == s.rows[flight.row].max
      && (outcome.Delivered? ==> row.phase == Sent && row.sentAt == Some(s.now) && row.lastError.None?)
      && (outcome.Failed? && n >= flight.copy.max ==> row.phase == Dead && row.lastError.Some?)
      && (outcome.Failed? && n < flight.copy.max ==>
          && row.phase == Pending && row.lastError.Some?
          && forall now: nat :: Claimable(row, now) <==> s.now + Delay(n) <= now)
      && forall j :: 0 <= j < |s.rows| && j != flight.row ==> t.rows[j] == s.rows[j]
  {
    hide ErrorText, MessageId, Generated, Delay;
  }

  /** What a driver makes of an attempt before it sends anything, and of the provider it uses. */
  lemma RefusalsComeFirst(driver: Driver, row: Row, channel: Option<Channel>, outcome: Outcome)
    ensures channel.None? || !channel.value.enabled ==> Decide(driver, ProviderOf(row, channel), channel, outcome).code == Some("channel_disabled")
    ensures channel.Some? && channel.value.enabled && ProviderOf(row, channel) !in {"internal", "twilio", "resend", "webpush"} ==>
      Decide(driver, ProviderOf(row, channel), channel, outcome).code == Some("provider_not_configured")
    ensures channel.Some? && channel.value.enabled && ProviderOf(row, channel) in {"internal", "twilio", "resend", "webpush"} && !outcome.Thrown? ==>
      Decide(driver, ProviderOf(row, channel), channel, outcome) == outcome
    ensures channel.Some? && channel.value.enabled && ProviderOf(row, channel) in {"internal", "twilio", "resend", "webpush"} && outcome.Thrown? ==>
      Decide(driver, ProviderOf(row, channel), channel, outcome) ==
        if driver == NodeDriver then Failed(Some("adapter_exception"), Some(outcome.text)) else outcome
    ensures row.provider.Some? && row.provider.value != "" ==> ProviderOf(row, channel) == row.provider.value
    ensures row.provider.None? && channel.Some? && channel.value.provider.Some? && channel.value.provider.value != "" ==>
      ProviderOf(row, channel) == channel.value.provider.value
    ensures row.provider.None? && channel.None? ==> ProviderOf(row, channel) == "internal"
  {
  }

  /** Queueing adds one row, due at once, never tried, locked by nobody; it changes no other row. */
  lemma EnqueueAdds(s: State, max: nat)
    ensures
      var t := Next(s, Enqueue(max));
      && t == s.(rows := t.rows) && |t.rows| == |s.rows| + 1 && t.rows[..|s.rows|] == s.rows
      && t.rows[|s.rows|] == Row(Pending, 0, max, s.now, None, None, None, None, None, None, max, 0)
  {
  }

  /** The limit and the error text of each driver: the Worker takes zero for missing, and a text only when there is one. */
  lemma DriverReadings(max: nat, code: Option<string>, message: Option<string>, generated: string)
    ensures Limit(NodeDriver, max) == max && Limit(NativeDriver, max) == if max == 0 then 5 else max
    ensures message.Some? ==> ErrorText(NodeDriver, code, message) == message.value
    ensures message.None? ==> ErrorText(NodeDriver, code, message) == if code.Some? then code.value else "delivery_failed"
    ensures ErrorText(NativeDriver, code, message) == if message.Some? && message.value != "" then message.value else "delivery_failed"
    ensures MessageId(NodeDriver, code, generated) == code
    ensures MessageId(NativeDriver, code, generated) == if code.Some? && code.value != "" then code else Some(generated)
  {
  }

  /** A manual requeue is for dead rows: pending again and due at once, with room for three more attempts and one more requeue counted. */
  lemma RequeueAllows(s: State, i: Id)
    requires i < |s.rows|
    ensures
      var t, row := Next(s, Requeue(i)), s.rows[i];
      && t == s.(rows := t.rows) && |t.rows| == |s.rows| && (forall k :: 0 <= k < |s.rows| && k != i ==> t.rows[k] == s.rows[k])
      && (row.phase != Dead ==> t == s)
      && (row.phase == Dead ==>
        t.rows[i] == Row(Pending, row.attempts, if row.max >= row.attempts + 3 then row.max else row.attempts + 3, s.now, None, None,
                         row.provider, row.messageId, row.sentAt, None, row.firstMax, row.requeues + 1))
  {
  }
}
