/** The procedure of src/services/idempotency.ts, writing its key row step by step. */
module IdempotencyTable {
  import opened Prelude
  import opened StableJson
  import opened Idempotency

  /** The key table, written row by row inside one transaction that commits or rolls back. */
  class KeyTable {
    var now: nat
    var rows: map<Text, Row>
    ghost var effects: seq<Effect>

    ghost function State(): State
      reads this
    {
      Idempotency.State(now, rows, effects)
    }

    constructor ()
      ensures State() == Empty
    {
      now, rows, effects := 0, map[], [];
    }

    method WithIdempotency(c: Call) returns (answer: Answer)
      modifies this
      ensures (State(), answer) == Step(old(State()), c)
    {
      if c.key.None? || c.key.value == [] {
        answer := RunBusiness(c, false);
        return;
      }
      if |c.key.value| > 200 { return KeyTooLong; }
      var key := ScopedKey(c);
      var before := rows;
      if key !in rows {
        rows := rows[key := NewRow(now, c)];
      }
      var row := rows[key];
      if row.expiresAt <= now {
        rows := rows[key := Row(c.principal.role, c.principal.actor, c.operation, RequestHash(c), None, now + DAY)];
      } else if row.requestHash != RequestHash(c) || row.operation != c.operation
                || row.role != c.principal.role || row.actor != c.principal.actor {
        rows := before;
        return KeyReused;
      } else if row.response.Some? {
        return Done(row.response.value, false);
      }
      answer := RunBusiness(c, c.work.joins);
      if answer.Failed? {
        rows := before;
      } else {
        rows := rows[key := rows[key].(response := Some(answer.reply))];
        assert rows == before[key := Held(old(State()), c).(response := Some(answer.reply))];
      }
    }

    /** The callback: its effect is durable if it commits, or if it committed by itself before failing. */
    method RunBusiness(c: Call, joins: bool) returns (answer: Answer)
      modifies this`effects
      ensures State() == WithEffect(old(State()), c.(work := c.work.(joins := joins)))
      ensures answer == if c.work.ending == Commits then Done(c.work.reply, true) else Failed
    {
      if c.work.ending == Commits || (!joins && c.work.ending == FailsLate) {
        effects := effects + [Effect(c.(work := c.work.(joins := joins)), now)];
      }
      if c.work.ending == Commits {
        answer := Done(c.work.reply, true);
      } else {
        answer := Failed;
      }
    }
  }
}
