/** Rows of the client's local database (`item_overviews` joined with `item_payloads`). */
module LocalDb {
  import opened Common
  import opened Crypto

  datatype Row = Row(version: nat, gen: nat, trashed: bool, createdAt: int, payload: Payload)

  type Rows = map<Uuid, Row>

  function RowAt(rows: Rows, u: Uuid): Option<Row> {
    if u in rows then Some(rows[u]) else None
  }
}
