/** The outbox table as the drivers see it: rows changed in place, one batch at a time. */
module OutboxDesk {
  import opened Prelude
  import O = Outbox

  datatype RequeueError = NotificationNotFound | NotificationNotFailed

  class Desk {
    var rows: seq<O.Row>
    var flights: map<Id, O.Flight>
    var nextFlight: Id
    var log: seq<O.Attempt>
    var now: nat

    ghost function State(): O.State
      reads this
    {
      O.State(rows, flights, nextFlight, log, now)
    }

    constructor ()
      ensures State() == O.Empty
    {
      rows, flights, nextFlight, log, now := [], map[], 0, [], 0;
    }

    method Enqueue(max: nat)
      modifies this
      ensures State() == O.Next(old(State()), O.Enqueue(max))
    {
      rows := rows + [O.NewRow(max, now)];
    }

    /** Claims the oldest claimable rows. */
    method ClaimBatch(limit: nat, worker: string)
      modifies this
      ensures State() == O.ClaimFrom(old(State()), 0, limit, worker)
    {
      var i, left := 0, limit;
      while i < |rows| && left > 0
        invariant 0 <= i <= |rows|
        invariant O.ClaimFrom(old(State()), 0, limit, worker) == O.ClaimFrom(State(), i, left, worker)
        decreases |rows| - i
      {
        if O.Claimable(rows[i], now) {
          var row := rows[i].(lockedAt := Some(now), lockedBy := Some(worker));
          rows := rows[i := row];
          flights := flights[nextFlight := O.Flight(i, row, None)];
          nextFlight := nextFlight + 1;
          left := left - 1;
        }
        i := i + 1;
      }
    }

    /** Records one attempt and writes the row; false when recording failed and the loop must end. */
    method DeliverOne(f: Id, driver: O.Driver, channel: Option<O.Channel>, outcome: O.Outcome) returns (ok: bool)
      requires f in flights && flights[f].recorded.None? && flights[f].row < |rows|
      modifies this
      ensures ok == O.Recordable(old(State()), f, driver, channel, outcome)
      ensures State() == var recorded := O.Next(old(State()), O.Record(f, driver, channel, outcome));
        if ok then O.Next(recorded, O.Write(f)) else recorded
      ensures flights == old(flights) - {f} && |rows| == old(|rows|)
    {
      var flight := flights[f];
      var provider := O.ProviderOf(flight.copy, channel);
      var decided := O.Decide(driver, provider, channel, outcome);
      var number := flight.copy.attempts + 1;
      flights := flights - {f};
      if decided.Thrown? || number in O.Numbers(log, flight.row) { return false; }
      log := log + [O.Attempt(flight.row, number, decided.Delivered?)];
      var reply := O.Reply(driver, provider, decided);
      rows := rows[flight.row := O.Written(rows[flight.row], flight.copy, reply, O.Generated(f), now)];
      ok := true;
    }

    /** The loop's exception: the copies not yet delivered are forgotten, their rows stay locked. */
    method AbandonBatch(from: Id, end: Id)
      requires from <= end
      modifies this
      ensures State() == O.Abandon(old(State()), from, end)
    {
      var f := from;
      while f < end
        invariant f <= end
        invariant O.Abandon(old(State()), from, end) == O.Abandon(State(), f, end)
      {
        flights := flights - {f};
        f := f + 1;
      }
    }

    method DeliverBatch(from: Id, end: Id, driver: O.Driver, answers: O.Answers)
      requires from <= end
      requires forall g :: from <= g < end ==> g in flights && flights[g].recorded.None? && flights[g].row < |rows|
      modifies this
      ensures State() == O.DeliverFrom(old(State()), from, end, driver, answers)
    {
      hide O.Next, O.DeliverFrom, O.Recordable;
      var f := from;
      while f < end
        invariant f <= end
        invariant O.DeliverFrom(old(State()), from, end, driver, answers) == O.DeliverFrom(State(), f, end, driver, answers)
        invariant forall g :: f <= g < end ==> g in flights && flights[g].recorded.None? && flights[g].row < |rows|
      {
        var answer := answers(flights[f].row);
        DeliverStep(State(), f, end, driver, answers);
        var ok := DeliverOne(f, driver, answer.0, answer.1);
        if !ok {
          AbandonBatch(f, end);
          return;
        }
        f := f + 1;
      }
      DeliverDone(State(), end, driver, answers);
    }

    /** One call of a driver. */
    method ProcessBatch(driver: O.Driver, worker: string, limit: nat, answers: O.Answers)
      modifies this
      ensures State() == O.Batch(old(State()), driver, worker, limit, answers)
    {
      var first := nextFlight;
      ClaimedFlights(State(), 0, limit, worker);
      ClaimBatch(limit, worker);
      DeliverBatch(first, nextFlight, driver, answers);
    }

    static lemma DeliverDone(s: O.State, end: Id, driver: O.Driver, answers: O.Answers)
      ensures O.DeliverFrom(s, end, end, driver, answers) == s
    {
    }

    static lemma DeliverStep(s: O.State, f: Id, end: Id, driver: O.Driver, answers: O.Answers)
      requires f < end && f in s.flights && s.flights[f].recorded.None? && s.flights[f].row < |s.rows|
      ensures var answer := answers(s.flights[f].row);
        var recorded := O.Next(s, O.Record(f, driver, answer.0, answer.1));
        O.DeliverFrom(s, f, end, driver, answers) ==
          if O.Recordable(s, f, driver, answer.0, answer.1) then
            O.DeliverFrom(O.Next(recorded, O.Write(f)), f + 1, end, driver, answers)
          else O.Abandon(recorded, f, end)
    {
    }

    /** Every flight a batch creates is fresh and unrecorded. */
    static lemma {:induction false} ClaimedFlights(s: O.State, i: nat, limit: nat, worker: string)
      requires i <= |s.rows|
      ensures var t := O.ClaimFrom(s, i, limit, worker);
        && |t.rows| == |s.rows|
        && (forall g :: g in s.flights && g < s.nextFlight ==> g in t.flights && t.flights[g] == s.flights[g])
        && (forall g :: s.nextFlight <= g < t.nextFlight ==> g in t.flights && t.flights[g].recorded.None? && t.flights[g].row < |t.rows|)
      decreases |s.rows| - i
    {
      if i < |s.rows| && limit > 0 {
        if O.Claimable(s.rows[i], s.now) {
          var next := O.ClaimRow(s, i, worker);
          ClaimedFlights(next, i + 1, limit - 1, worker);
        } else {
          ClaimedFlights(s, i + 1, limit, worker);
        }
      }
    }

    method RequeueFailed(i: Id) returns (r: Result<O.Row, RequeueError>)
      modifies this
      ensures State() == O.Next(old(State()), O.Requeue(i))
      ensures r == if i >= old(|rows|) then Err(NotificationNotFound)
        else if old(rows)[i].phase != O.Dead then Err(NotificationNotFailed) else Ok(rows[i])
    {
      if i >= |rows| { return Err(NotificationNotFound); }
      if rows[i].phase != O.Dead { return Err(NotificationNotFailed); }
      rows := rows[i := O.Requeued(rows[i], now)];
      r := Ok(rows[i]);
    }
  }
}
