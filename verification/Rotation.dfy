/**
 Key rotation: advance the account's generation, re-encrypt the listed local rows in
 batches of 100 with one transaction per row, push each batch under the optimistic
 concurrency check, and settle conflicts by re-encrypting the server's newest content.

 Other devices may write between any two steps; any step may fail.
 */
module Rotation {
  import opened Common
  import opened Crypto
  import opened LocalDb
  import opened Server

  const BATCH_SIZE := 100

  // ------------------------------------------------------------------- inputs

  /** The two root keys and the confirmed generation of one rotation. */
  datatype Rekey = Rekey(oldSvk: Svk, newSvk: Svk, gen: nat)

  /** A row of the rotation query. */
  datatype Listed = Listed(uuid: Uuid, version: nat, gen: nat, payload: Payload)

  predicate Selected(rows: Rows, u: Uuid, gen: nat) {
    u in rows && !rows[u].trashed && rows[u].gen < gen
  }

  /** `list_rotation_items`: every live row below the generation, once, lowest generation first. */
  ghost predicate IsListing(rows: Rows, gen: nat, listing: seq<Listed>) {
    && (forall i | 0 <= i < |listing| ::
          var r := listing[i];
          Selected(rows, r.uuid, gen)
          && r == Listed(r.uuid, rows[r.uuid].version, rows[r.uuid].gen, rows[r.uuid].payload))
    && (forall u | Selected(rows, u, gen) :: exists i :: 0 <= i < |listing| && listing[i].uuid == u)
    && (forall i, j | 0 <= i < j < |listing| :: listing[i].uuid != listing[j].uuid && listing[i].gen <= listing[j].gen)
  }

  /** Environment decisions for one listed row. */
  datatype RowTurn = RowTurn(persistOk: bool, beforePush: seq<PushItem>, beforeFetch: seq<PushItem>,
                             fetchOk: bool, beforeRetry: seq<PushItem>, retryOk: bool)

  datatype Env = Env(row: nat -> RowTurn, batch: nat -> Delivery)

  datatype Stage = AccountStep | Decrypt | Persist | PushRequest | EpochRejected | ConflictUnsettled | StoreBlob

  // ------------------------------------------------------------------- the server side

  /** What a row says, whatever key it is under; a tombstone says nothing. */
  function Content(b: Body): Option<string> {
    match b case Live(p) => Some(p.content) case Tombstone => None
  }

  /** The table, what the other writers have made of each item, and which items they wrote. */
  datatype Remote = Remote(table: Table, meaning: map<Uuid, Option<string>>, touched: set<Uuid>)

  function OtherWrites(r: Remote, ps: seq<PushItem>): Remote
    decreases |ps|
  {
    if ps == [] then r
    else
      var p := ps[0];
      var r' := if r.table.Accepts(p)
                then Remote(r.table.Write(p), r.meaning[p.uuid := Content(p.body)], r.touched + {p.uuid})
                else r;
      OtherWrites(r', ps[1..])
  }

  /** Our own pushes are not supposed to change what an item says. */
  function OwnPush(r: Remote, p: PushItem): (Remote, PushOutcome) {
    var (t, o) := r.table.Push(p);
    (r.(table := t), o)
  }

  /** `account_rotate_key`: forwards only; an old or equal generation is confirmed without storing the blob. */
  function AdvanceAccount(t: Table, newGen: nat, blob: WrappedSvk): (Table, nat) {
    if newGen <= t.minGen then (t, t.minGen) else (t.(minGen := newGen, blob := blob), newGen)
  }

  // ------------------------------------------------------------------- one batch

  function NewPayload(k: Rekey, u: Uuid, plain: string): Payload {
    Sealed(Dek(k.newSvk), u, k.gen, plain)
  }

  /** The narrow transaction: payload and generation only. */
  function ReencryptRow(rows: Rows, k: Rekey, u: Uuid, plain: string): Rows {
    if u in rows then rows[u := rows[u].(gen := k.gen, payload := NewPayload(k, u, plain))] else rows
  }

  function ReencryptFrom(rows: Rows, k: Rekey, batch: seq<Listed>, i: nat, base: nat, env: Env)
    : (Rows, seq<PushItem>, Option<Stage>)
    requires i <= |batch|
    decreases |batch| - i
  {
    if i == |batch| then (rows, [], None)
    else
      var r := batch[i];
      match Open(Dek(k.oldSvk), r.uuid, r.gen, r.payload)
      case None => (rows, [], Some(Decrypt))
      case Some(plain) =>
        if !env.row(base + i).persistOk then (rows, [], Some(Persist))
        else
          var (rows', items, e) := ReencryptFrom(ReencryptRow(rows, k, r.uuid, plain), k, batch, i + 1, base, env);
          (rows', [PushItem(r.uuid, r.version, k.gen, Live(NewPayload(k, r.uuid, plain)))] + items, e)
  }

  /** The server handles the items of a request one after the other. */
  function PushFrom(rem: Remote, items: seq<PushItem>, i: nat, limit: nat, base: nat, env: Env): (Remote, seq<PushOutcome>)
    requires i <= limit <= |items|
    decreases limit - i
  {
    if i == limit then (rem, [])
    else
      var (rem', o) := OwnPush(OtherWrites(rem, env.row(base + i).beforePush), items[i]);
      var (rem'', os) := PushFrom(rem', items, i + 1, limit, base, env);
      (rem'', [o] + os)
  }

  /** A conflict: fetch the server's current content, re-encrypt it, push it at the server's version. */
  function SettleConflict(rem: Remote, k: Rekey, r: Listed, version: nat, t: RowTurn): (Remote, bool) {
    var rem1 := OtherWrites(rem, t.beforeFetch);
    var fetched := if t.fetchOk then rem1.table.Fetch(r.uuid, version) else None;
    if fetched.None? then (rem1, false)
    else
      match Open(Dek(k.oldSvk), r.uuid, r.gen, fetched.value)
      case None => (rem1, false)
      case Some(plain) =>
        var rem2 := OtherWrites(rem1, t.beforeRetry);
        var (rem3, o) := OwnPush(rem2, PushItem(r.uuid, version, k.gen, Live(NewPayload(k, r.uuid, plain))));
        (rem3, o == Applied && t.retryOk)
  }

  function SettleFrom(rem: Remote, k: Rekey, batch: seq<Listed>, outcomes: seq<PushOutcome>, i: nat, base: nat, env: Env)
    : (Remote, Option<Stage>)
    requires i <= |outcomes| == |batch|
    decreases |batch| - i
  {
    if i == |batch| then (rem, None)
    else
      match outcomes[i]
      case Applied => SettleFrom(rem, k, batch, outcomes, i + 1, base, env)
      case EpochTooOld => (rem, Some(EpochRejected))
      case Conflict(version) =>
        var (rem', ok) := SettleConflict(rem, k, batch[i], version, env.row(base + i));
        if ok then SettleFrom(rem', k, batch, outcomes, i + 1, base, env) else (rem', Some(ConflictUnsettled))
  }

  datatype State = State(rows: Rows, remote: Remote)

  lemma {:induction false} PushFromCount(rem: Remote, items: seq<PushItem>, i: nat, limit: nat, base: nat, env: Env)
    requires i <= limit <= |items|
    ensures |PushFrom(rem, items, i, limit, base, env).1| == limit - i
    decreases limit - i
  {
    if i < limit {
      var (rem', o) := OwnPush(OtherWrites(rem, env.row(base + i).beforePush), items[i]);
      PushFromCount(rem', items, i + 1, limit, base, env);
    }
  }

  lemma {:induction false} ReencryptCount(rows: Rows, k: Rekey, batch: seq<Listed>, i: nat, base: nat, env: Env)
    requires i <= |batch|
    ensures var (_, items, e) := ReencryptFrom(rows, k, batch, i, base, env); e == None ==> |items| == |batch| - i
    decreases |batch| - i
  {
    if i < |batch| && Open(Dek(k.oldSvk), batch[i].uuid, batch[i].gen, batch[i].payload).Some? {
      ReencryptCount(ReencryptRow(rows, k, batch[i].uuid, batch[i].payload.content), k, batch, i + 1, base, env);
    }
  }

  function PushAndSettle(rem: Remote, k: Rekey, batch: seq<Listed>, items: seq<PushItem>, base: nat, env: Env)
    : (Remote, Option<Stage>)
    requires |items| == |batch|
  {
    match env.batch(base)
    case Broken(handled) =>
      var limit := if handled < |items| then handled else |items|;
      (PushFrom(rem, items, 0, limit, base, env).0, Some(PushRequest))
    case Delivered =>
      PushFromCount(rem, items, 0, |items|, base, env);
      var (rem', outcomes) := PushFrom(rem, items, 0, |items|, base, env);
      SettleFrom(rem', k, batch, outcomes, 0, base, env)
  }

  function RotateBatch(st: State, k: Rekey, batch: seq<Listed>, base: nat, env: Env): (State, Option<Stage>) {
    var (rows, items, e) := ReencryptFrom(st.rows, k, batch, 0, base, env);
    ReencryptCount(st.rows, k, batch, 0, base, env);
    if e != None then (st.(rows := rows), e)
    else
      var (rem, e') := PushAndSettle(st.remote, k, batch, items, base, env);
      (State(rows, rem), e')
  }

  // ------------------------------------------------------------------- all batches

  /** `rows.iter().skip(cursor_row).take(batch_size)` */
  function BatchAt(listing: seq<Listed>, c: nat): (b: seq<Listed>)
    ensures c < |listing| ==> 0 < |b| <= |listing| - c && b == listing[c..c + |b|]
    ensures |b| <= MAX_BATCH
    ensures c >= |listing| ==> b == []
  {
    if c >= |listing| then []
    else if c + BATCH_SIZE < |listing| then listing[c..c + BATCH_SIZE] else listing[c..]
  }

  function BatchesFrom(st: State, k: Rekey, listing: seq<Listed>, c: nat, env: Env): (State, Option<Stage>)
    decreases |listing| - c
  {
    var batch := BatchAt(listing, c);
    if batch == [] then (st, None)
    else
      var (st', e) := RotateBatch(st, k, batch, c, env);
      if e != None then (st', e) else BatchesFrom(st', k, listing, c + |batch|, env)
  }

  /** The batches, glued together, are the listing: each listed row is visited exactly once. */
  function Visits(listing: seq<Listed>, c: nat): seq<Listed>
    decreases |listing| - c
  {
    var batch := BatchAt(listing, c);
    if batch == [] then [] else batch + Visits(listing, c + |batch|)
  }

  lemma SlicesJoin(listing: seq<Listed>, c: nat, d: nat)
    requires c <= d <= |listing|
    ensures listing[c..d] + listing[d..] == listing[c..]
  {
  }

  lemma {:induction false} BatchesVisitEachRowOnce(listing: seq<Listed>, c: nat)
    requires c <= |listing|
    ensures Visits(listing, c) == listing[c..]
    decreases |listing| - c
  {
    var batch := BatchAt(listing, c);
    if batch != [] {
      BatchesVisitEachRowOnce(listing, c + |batch|);
      SlicesJoin(listing, c, c + |batch|);
    }
  }
}
