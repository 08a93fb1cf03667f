/**
 The queue table of the PostgreSQL backend: each SQL statement as a function on
 rows. A row is available when its time has come and no lease is running.
 */
module LeaseTable {
  import opened Wrappers
  import opened Jobs

  datatype Row = Row(availableAt: Time, lease: Option<Time>)

  type Rows = map<JobId, Row>

  predicate Available(row: Row, now: Time) {
    row.availableAt <= now && (row.lease.None? || row.lease.value <= now)
  }

  function Enqueue(rows: Rows, id: JobId, now: Time): Rows {
    rows[id := Row(now, None)]
  }

  function Lease(rows: Rows, id: JobId, until: Time): Rows
    requires id in rows
  {
    rows[id := rows[id].(lease := Some(until))]
  }

  function Ack(rows: Rows, id: JobId): Rows {
    rows - {id}
  }

  function Nack(rows: Rows, id: JobId, now: Time): Rows {
    if id in rows then rows[id := Row(now, None)] else rows
  }
}
