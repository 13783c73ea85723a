/**
 * The notification outbox (src/services/notifications.ts) and its two drivers: the Node process and
 * the worker's own copy (cloudflare/worker.js). A worker claims rows, sends, records the attempt in a
 * table that is unique by notification and attempt number (migrations/011_notifications_delivery.sql),
 * and only then writes the row. The two writes are separate statements, so a crash may fall between.
 */
module Outbox {
  import opened Prelude

  const LOCK_SECONDS := 300
  const DEFAULT_ATTEMPTS := 5

  datatype Phase = Pending | Sent | Dead

  datatype Driver = NodeDriver | NativeDriver

  /** `firstMax` and `requeues` are history: the limit at insertion and the manual requeues since. */
  datatype Row = Row(
    phase: Phase, attempts: nat, max: nat, availableAt: nat, lockedAt: Option<nat>, lockedBy: Option<string>,
    provider: Option<string>, messageId: Option<string>, sentAt: Option<nat>, lastError: Option<string>,
    firstMax: nat, requeues: nat)

  datatype Channel = Channel(provider: Option<string>, enabled: bool)

  /** What an adapter returns, or that it threw. */
  datatype Outcome =
    | Delivered(messageId: Option<string>)
    | Failed(code: Option<string>, message: Option<string>)
    | Thrown(text: string)

  /** A decided attempt, waiting to be written to the row. */
  datatype Reply = Reply(driver: Driver, provider: string, outcome: Outcome)

  /** A worker's copy of a claimed row. */
  datatype Flight = Flight(row: Id, copy: Row, recorded: Option<Reply>)

  datatype Attempt = Attempt(row: Id, number: nat, sent: bool)

  datatype State = State(rows: seq<Row>, flights: map<Id, Flight>, nextFlight: Id, log: seq<Attempt>, now: nat)

  datatype Action =
    | Enqueue(max: nat)
    | Claim(row: Id, worker: string)
    | Record(flight: Id, driver: Driver, channel: Option<Channel>, outcome: Outcome)
    | Write(flight: Id)
    | Crash(flight: Id)
    | Requeue(row: Id)
    | Tick(seconds: nat)

  const Empty := State([], map[], 0, [], 0)

  // ---------------------------------------------------------------------------------------------
  // One row

  predicate Claimable(row: Row, now: nat) {
    row.phase == Pending && row.availableAt <= now && (row.lockedAt.None? || row.lockedAt.value + LOCK_SECONDS < now)
  }

  function Present(s: Option<string>): bool { s.Some? && s.value != "" }

  function ProviderOf(row: Row, channel: Option<Channel>): string {
    if Present(row.provider) then row.provider.value
    else if channel.Some? && Present(channel.value.provider) then channel.value.provider.value
    else "internal"
  }

  predicate Registered(provider: string) {
    provider == "internal" || provider == "twilio" || provider == "resend" || provider == "webpush"
  }

  /** The result a driver works with: its own refusals first, then the adapter's answer. */
  function Decide(driver: Driver, provider: string, channel: Option<Channel>, outcome: Outcome): Outcome {
    if channel.None? || !channel.value.enabled then Failed(Some("channel_disabled"), Some("Notification channel is disabled"))
    else if !Registered(provider) then Failed(Some("provider_not_configured"), Some("No adapter registered for " + provider))
    else if outcome.Thrown? && driver == NodeDriver then Failed(Some("adapter_exception"), Some(outcome.text))
    else outcome
  }

  function Power2(n: nat): nat { if n == 0 then 1 else 2 * Power2(n - 1) }

  function Delay(attempt: nat): nat { Min(3600, Power2(Max(0, attempt - 1)) * 30) }

  /** The limit a driver reads: the worker's copy takes zero for a missing value. */
  function Limit(driver: Driver, max: nat): nat {
    if driver == NativeDriver && max == 0 then DEFAULT_ATTEMPTS else max
  }

  function ErrorText(driver: Driver, code: Option<string>, message: Option<string>): string {
    match driver
    case NodeDriver =>
      if message.Some? then message.value else if code.Some? then code.value else "delivery_failed"
    case NativeDriver => if Present(message) then message.value else "delivery_failed"
  }

  function MessageId(driver: Driver, id: Option<string>, generated: string): Option<string> {
    if driver == NodeDriver || Present(id) then id else Some(generated)
  }

  /** The update of the row; `generated` is the identifier the worker's copy makes up when it has none. */
  function Written(row: Row, copy: Row, reply: Reply, generated: string, now: nat): Row
    requires !reply.outcome.Thrown?
  {
    var n := copy.attempts + 1;
    var base := row.(attempts := n, provider := Some(reply.provider), lockedAt := None, lockedBy := None);
    match reply.outcome
    case Delivered(id) =>
      base.(phase := Sent, messageId := MessageId(reply.driver, id, generated), sentAt := Some(now), lastError := None)
    case Failed(code, message) =>
      var text := Some(ErrorText(reply.driver, code, message));
      if n >= Limit(reply.driver, copy.max) then base.(phase := Dead, lastError := text)
      else base.(phase := Pending, lastError := text, availableAt := now + Delay(n))
  }

  function Requeued(row: Row, now: nat): Row {
    row.(phase := Pending, max := Max(row.max, row.attempts + 3), availableAt := now, lockedAt := None,
         lockedBy := None, lastError := None, requeues := row.requeues + 1)
  }

  // ---------------------------------------------------------------------------------------------
  // The table

  function NewRow(max: nat, now: nat): Row {
    Row(Pending, 0, max, now, None, None, None, None, None, None, max, 0)
  }

  /** The attempt numbers recorded for a notification, in order. */
  function Numbers(log: seq<Attempt>, row: Id): seq<nat> {
    if log == [] then []
    else
      var last := log[|log| - 1];
      Numbers(log[..|log| - 1], row) + if last.row == row then [last.number] else []
  }

  function ClaimRow(s: State, i: Id, worker: string): State
    requires i < |s.rows|
  {
    var row := s.rows[i].(lockedAt := Some(s.now), lockedBy := Some(worker));
    s.(rows := s.rows[i := row], flights := s.flights[s.nextFlight := Flight(i, row, None)], nextFlight := s.nextFlight + 1)
  }

  function Drop(s: State, f: Id): State { s.(flights := s.flights - {f}) }

  /** Recording fails, and so ends the flight, when the adapter threw through or the number is taken. */
  predicate Recordable(s: State, f: Id, driver: Driver, channel: Option<Channel>, outcome: Outcome)
    requires f in s.flights
  {
    var flight := s.flights[f];
    && !Decide(driver, ProviderOf(flight.copy, channel), channel, outcome).Thrown?
    && flight.copy.attempts + 1 !in Numbers(s.log, flight.row)
  }

  function RecordAttempt(s: State, f: Id, driver: Driver, channel: Option<Channel>, outcome: Outcome): State
    requires f in s.flights
  {
    var flight := s.flights[f];
    var provider := ProviderOf(flight.copy, channel);
    var decided := Decide(driver, provider, channel, outcome);
    if !Recordable(s, f, driver, channel, outcome) then Drop(s, f)
    else
      s.(log := s.log + [Attempt(flight.row, flight.copy.attempts + 1, decided.Delivered?)],
         flights := s.flights[f := flight.(recorded := Some(Reply(driver, provider, decided)))])
  }

  /** The identifier made up for a message: distinct for every flight. */
  function Generated(f: Id): string { "generated:" + seq(f, _ => '1') }

  function WriteRow(s: State, f: Id): State
    requires f in s.flights && s.flights[f].recorded.Some? && !s.flights[f].recorded.value.outcome.Thrown?
    requires s.flights[f].row < |s.rows|
  {
    var flight := s.flights[f];
    var row := Written(s.rows[flight.row], flight.copy, flight.recorded.value, Generated(f), s.now);
    Drop(s.(rows := s.rows[flight.row := row]), f)
  }

  predicate Writable(s: State, f: Id) {
    f in s.flights && s.flights[f].recorded.Some? && !s.flights[f].recorded.value.outcome.Thrown?
    && s.flights[f].row < |s.rows|
  }

  function Next(s: State, a: Action): State {
    match a
    case Enqueue(max) => s.(rows := s.rows + [NewRow(max, s.now)])
    case Claim(i, worker) => if i < |s.rows| && Claimable(s.rows[i], s.now) then ClaimRow(s, i, worker) else s
    case Record(f, driver, channel, outcome) =>
      if f in s.flights && s.flights[f].recorded.None? then RecordAttempt(s, f, driver, channel, outcome) else s
    case Write(f) => if Writable(s, f) then WriteRow(s, f) else s
    case Crash(f) => Drop(s, f)
    case Requeue(i) =>
      if i < |s.rows| && s.rows[i].phase == Dead then s.(rows := s.rows[i := Requeued(s.rows[i], s.now)]) else s
    case Tick(seconds) => s.(now := s.now + seconds)
  }

  function Run(s: State, actions: seq<Action>): State {
    if actions == [] then s else Next(Run(s, actions[..|actions| - 1]), actions[|actions| - 1])
  }

  /** Notifications are inserted with a positive attempt limit (the column's default is five). */
  predicate Sensible(actions: seq<Action>) {
    forall i :: 0 <= i < |actions| ==> (actions[i].Enqueue? ==> actions[i].max > 0)
  }

  // ---------------------------------------------------------------------------------------------
  // Batches

  /** Claims the oldest claimable rows from position `i` on, at most `limit` of them. */
  function ClaimFrom(s: State, i: nat, limit: nat, worker: string): (t: State)
    requires i <= |s.rows|
    ensures s.nextFlight <= t.nextFlight
    decreases |s.rows| - i
  {
    if i == |s.rows| || limit == 0 then s
    else if Claimable(s.rows[i], s.now) then ClaimFrom(ClaimRow(s, i, worker), i + 1, limit - 1, worker)
    else ClaimFrom(s, i + 1, limit, worker)
  }

  /** Forgets the flights from `f` up to `end`: their worker's loop was abandoned. */
  function Abandon(s: State, f: Id, end: Id): State
    requires f <= end
    decreases end - f
  {
    if f == end then s else Abandon(Drop(s, f), f + 1, end)
  }

  /** What the adapters answer during a batch, by notification. */
  type Answers = Id -> (Option<Channel>, Outcome)

  /** Delivers flights `f` to `end` one after another; the first one that fails to record ends the loop. */
  function DeliverFrom(s: State, f: Id, end: Id, driver: Driver, answers: Answers): State
    requires f <= end
    decreases end - f
  {
    if f == end then s
    else if f !in s.flights then DeliverFrom(s, f + 1, end, driver, answers)
    else
      var answer := answers(s.flights[f].row);
      var recorded := Next(s, Record(f, driver, answer.0, answer.1));
      if f !in recorded.flights then Abandon(recorded, f, end)
      else DeliverFrom(Next(recorded, Write(f)), f + 1, end, driver, answers)
  }

  /** One call of a driver: claim, then deliver. */
  function Batch(s: State, driver: Driver, worker: string, limit: nat, answers: Answers): State {
    var claimed := ClaimFrom(s, 0, limit, worker);
    DeliverFrom(claimed, s.nextFlight, claimed.nextFlight, driver, answers)
  }
}
