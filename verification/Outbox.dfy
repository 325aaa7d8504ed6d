/** The outbox table: rows by `seq` (pg-polling-dispatcher.ts:212-223, 245-248, 270-293). */
module Outbox {
  type Seq = nat

  datatype Row = Row(dispatched: bool, attempts: nat)

  type Table = map<Seq, Row>

  /** The predicate of `selectNextRow`. */
  predicate Eligible(rows: Table, max: int, s: Seq) {
    s in rows && !rows[s].dispatched && rows[s].attempts < max
  }

  /** `UPDATE … SET dispatched_at`. */
  function MarkDispatched(rows: Table, s: Seq): Table
    requires s in rows
  {
    rows[s := rows[s].(dispatched := true)]
  }

  /** `UPDATE … SET attempts = attempts + 1`. */
  function RecordFailure(rows: Table, s: Seq): Table
    requires s in rows
  {
    rows[s := rows[s].(attempts := rows[s].attempts + 1)]
  }
}
