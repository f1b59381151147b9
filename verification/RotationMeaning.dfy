/** What rotation does to the meaning of local rows and of server items. */
module RotationMeaning {
  import opened Common
  import opened Crypto
  import opened LocalDb
  import opened Server
  import opened Rotation

  // ------------------------------------------------------------------- the whole rotation

  /** How the account request ends: answered, lost, stopped between its two updates, or its reply lost. */
  datatype AccountDelivery = Confirmed | Lost | GenerationOnly | ReplyLost

  /** Everything the environment decides in one rotation. */
  datatype Weather = Weather(account: AccountDelivery, env: Env, blobStored: bool)

  datatype Request = Request(mk: MasterKey, oldSvk: Svk, newSvk: Svk, newGen: nat)
  {
    function Blob(): WrappedSvk { WrapSvk(mk, newSvk) }
  }

  function ConfirmedGen(t: Table, q: Request): nat {
    AdvanceAccount(t, q.newGen, q.Blob()).1
  }

  function KeysOf(t: Table, q: Request): Rekey {
    Rekey(q.oldSvk, q.newSvk, ConfirmedGen(t, q))
  }

  function AccountTable(t: Table, q: Request, d: AccountDelivery): Table {
    match d
    case Lost => t
    case GenerationOnly => if q.newGen <= t.minGen then t else t.(minGen := q.newGen)
    case Confirmed => AdvanceAccount(t, q.newGen, q.Blob()).0
    case ReplyLost => AdvanceAccount(t, q.newGen, q.Blob()).0
  }

  function WithTable(st: State, t: Table): State {
    st.(remote := st.remote.(table := t))
  }

  function Rotate(st: State, q: Request, listing: seq<Listed>, w: Weather): (State, Option<Stage>) {
    var t := st.remote.table;
    var st1 := WithTable(st, AccountTable(t, q, w.account));
    if w.account != Confirmed then (st1, Some(AccountStep))
    else
      var (st2, e) := BatchesFrom(st1, KeysOf(t, q), listing, 0, w.env);
      if e != None then (st2, e)
      else if !w.blobStored then (st2, Some(StoreBlob))
      else (st2, None)
  }

  // ------------------------------------------------------------------- local rows

  ghost predicate Distinct(batch: seq<Listed>) {
    forall i, j | 0 <= i < j < |batch| :: batch[i].uuid != batch[j].uuid
  }

  /** The row re-encrypted, nothing else about it changed. */
  function Moved(row: Row, k: Rekey, u: Uuid, plain: string): Row {
    row.(gen := k.gen, payload := NewPayload(k, u, plain))
  }

  ghost predicate Opens(k: Rekey, r: Listed) {
    Open(Dek(k.oldSvk), r.uuid, r.gen, r.payload) == Some(r.payload.content)
  }

  /** The fate of row `u` when the entries from `lo` on are processed: untouched, or moved because
      it is listed and opened; and moved for sure if it is listed and nothing failed. */
  ghost predicate Fate(before: Rows, after: Rows, k: Rekey, listing: seq<Listed>, lo: nat, u: Uuid, ok: bool)
    requires lo <= |listing|
  {
    && after.Keys == before.Keys
    && (u in before ==>
          || (after[u] == before[u] && (ok ==> forall j | lo <= j < |listing| :: listing[j].uuid != u))
          || (exists j :: lo <= j < |listing| && listing[j].uuid == u && Opens(k, listing[j])
                          && after[u] == Moved(before[u], k, u, listing[j].payload.content)))
  }

  lemma {:induction false} ReencryptFate(rows: Rows, k: Rekey, batch: seq<Listed>, i: nat, base: nat, env: Env, u: Uuid)
    requires i <= |batch| && Distinct(batch)
    ensures var (rows', items, e) := ReencryptFrom(rows, k, batch, i, base, env);
            Fate(rows, rows', k, batch, i, u, e == None)
    decreases |batch| - i
  {
    if i < |batch| {
      var r := batch[i];
      if Opens(k, r) && env.row(base + i).persistOk {
        var mid := ReencryptRow(rows, k, r.uuid, r.payload.content);
        ReencryptFate(mid, k, batch, i + 1, base, env, u);
        assert mid.Keys == rows.Keys;
      }
    }
  }

  lemma RotateBatchRows(st: State, k: Rekey, batch: seq<Listed>, base: nat, env: Env, u: Uuid)
    requires Distinct(batch)
    ensures var (st', e) := RotateBatch(st, k, batch, base, env);
            Fate(st.rows, st'.rows, k, batch, 0, u, e == None)
  {
    ReencryptFate(st.rows, k, batch, 0, base, env, u);
  }

  lemma {:induction false} BatchesRows(st: State, k: Rekey, listing: seq<Listed>, c: nat, env: Env, u: Uuid)
    requires c <= |listing| && Distinct(listing)
    ensures var (st', e) := BatchesFrom(st, k, listing, c, env);
            Fate(st.rows, st'.rows, k, listing, c, u, e == None)
    decreases |listing| - c
  {
    if c < |listing| {
      var mid, e, n := FirstBatchRows(st, k, listing, c, env, u);
      if e == None {
        BatchesRows(mid, k, listing, c + n, env, u);
        var (end, e') := BatchesFrom(mid, k, listing, c + n, env);
        BatchThenRest(st.rows, mid.rows, end.rows, k, listing, c, n, u, e' == None);
      } else {
        BatchIsPartOfListing(st.rows, mid.rows, k, listing, c, n, u);
      }
    }
  }

  /** The next batch, and what is left after it. */
  lemma FirstBatchRows(st: State, k: Rekey, listing: seq<Listed>, c: nat, env: Env, u: Uuid)
    returns (mid: State, e: Option<Stage>, n: nat)
    requires c < |listing| && Distinct(listing)
    ensures 0 < n <= |listing| - c
    ensures BatchesFrom(st, k, listing, c, env) == if e != None then (mid, e) else BatchesFrom(mid, k, listing, c + n, env)
    ensures Fate(st.rows, mid.rows, k, listing[c..c + n], 0, u, e == None)
  {
    var batch := BatchAt(listing, c);
    n := |batch|;
    var r := RotateBatch(st, k, batch, c, env);
    mid, e := r.0, r.1;
    assert forall i | 0 <= i < |batch| :: batch[i] == listing[c + i];
    RotateBatchRows(st, k, batch, c, env, u);
  }

  lemma BatchIsPartOfListing(a: Rows, b: Rows, k: Rekey, listing: seq<Listed>, c: nat, n: nat, u: Uuid)
    requires c + n <= |listing| && Fate(a, b, k, listing[c..c + n], 0, u, false)
    ensures Fate(a, b, k, listing, c, u, false)
  {
    if u in a && b[u] != a[u] {
      var j :| 0 <= j < n && listing[c..c + n][j].uuid == u && Opens(k, listing[c..c + n][j])
               && b[u] == Moved(a[u], k, u, listing[c..c + n][j].payload.content);
      assert listing[c + j] == listing[c..c + n][j];
    }
  }

  lemma BatchThenRest(a: Rows, m: Rows, b: Rows, k: Rekey, listing: seq<Listed>, c: nat, n: nat, u: Uuid, ok: bool)
    requires c + n <= |listing| && Distinct(listing)
    requires Fate(a, m, k, listing[c..c + n], 0, u, true)
    requires Fate(m, b, k, listing, c + n, u, ok)
    ensures Fate(a, b, k, listing, c, u, ok)
  {
    var batch := listing[c..c + n];
    assert forall i | 0 <= i < n :: batch[i] == listing[c + i];
    if u in a {
      if j :| 0 <= j < n && batch[j].uuid == u && Opens(k, batch[j]) && m[u] == Moved(a[u], k, u, batch[j].payload.content) {
        assert listing[c + j].uuid == u;
        assert b[u] == m[u];
      } else {
        assert m[u] == a[u];
        assert forall j | c <= j < c + n :: listing[j] == batch[j - c];
      }
    }
  }

  /** The row was moved: it was live, below the generation and opened; only its key changed. */
  ghost predicate RowMoved(row: Row, now: Row, k: Rekey, u: Uuid) {
    && !row.trashed && row.gen < k.gen
    && Open(Dek(k.oldSvk), u, row.gen, row.payload) == Some(row.payload.content)
    && now == Moved(row, k, u, row.payload.content)
  }

  /** Every state a rotation can stop in, whatever failed: rows are as they were or moved; after
      success exactly the live rows below the confirmed generation are moved. */
  lemma RotateRows(st: State, q: Request, listing: seq<Listed>, w: Weather, u: Uuid)
    requires IsListing(st.rows, ConfirmedGen(st.remote.table, q), listing) && u in st.rows
    ensures var (st', e) := Rotate(st, q, listing, w);
            var k := KeysOf(st.remote.table, q);
            && st'.rows.Keys == st.rows.Keys
            && (st'.rows[u] == st.rows[u] || RowMoved(st.rows[u], st'.rows[u], k, u))
            && (e == None && Selected(st.rows, u, k.gen) ==> RowMoved(st.rows[u], st'.rows[u], k, u))
            && (!Selected(st.rows, u, k.gen) ==> st'.rows[u] == st.rows[u])
  {
    if w.account == Confirmed {
      var k := KeysOf(st.remote.table, q);
      var st1 := WithTable(st, AccountTable(st.remote.table, q, w.account));
      BatchesRows(st1, k, listing, 0, w.env, u);
    }
  }

  /** A row opens under exactly one of the two keys: the old one at its old generation if it was
      not moved, the new one at the confirmed generation if it was. */
  lemma EveryStopLeavesRowsReadable(st: State, q: Request, listing: seq<Listed>, w: Weather, u: Uuid)
    requires IsListing(st.rows, ConfirmedGen(st.remote.table, q), listing) && u in st.rows
    requires q.oldSvk != q.newSvk
    requires Open(Dek(q.oldSvk), u, st.rows[u].gen, st.rows[u].payload) == Some(st.rows[u].payload.content)
    requires st.rows[u].gen < ConfirmedGen(st.remote.table, q)
    ensures var (st', e) := Rotate(st, q, listing, w);
            u in st'.rows &&
            var now := st'.rows[u];
            var plain := Some(st.rows[u].payload.content);
            var gen := ConfirmedGen(st.remote.table, q);
            && (now.gen < gen <==> Open(Dek(q.oldSvk), u, now.gen, now.payload) == plain)
            && (now.gen == gen <==> Open(Dek(q.newSvk), u, now.gen, now.payload) == plain)
            && now.gen <= gen
            && (e == None ==> (now.gen == gen <==> !st.rows[u].trashed))
  {
    RotateRows(st, q, listing, w, u);
  }

  // ------------------------------------------------------------------- the account

  ghost predicate SameAccount(a: Remote, b: Remote) {
    a.table.blob == b.table.blob && a.table.minGen == b.table.minGen
  }

  lemma {:induction false} OtherWritesAccount(rem: Remote, ps: seq<PushItem>)
    ensures SameAccount(rem, OtherWrites(rem, ps))
    decreases |ps|
  {
    if ps != [] {
      var p := ps[0];
      var rem' := if rem.table.Accepts(p)
                  then Remote(rem.table.Write(p), rem.meaning[p.uuid := Content(p.body)], rem.touched + {p.uuid})
                  else rem;
      OtherWritesAccount(rem', ps[1..]);
    }
  }

  lemma {:induction false} PushFromAccount(rem: Remote, items: seq<PushItem>, i: nat, limit: nat, base: nat, env: Env)
    requires i <= limit <= |items|
    ensures SameAccount(rem, PushFrom(rem, items, i, limit, base, env).0)
    decreases limit - i
  {
    if i < limit {
      OtherWritesAccount(rem, env.row(base + i).beforePush);
      var (rem', o) := OwnPush(OtherWrites(rem, env.row(base + i).beforePush), items[i]);
      PushFromAccount(rem', items, i + 1, limit, base, env);
    }
  }

  lemma SettleConflictAccount(rem: Remote, k: Rekey, r: Listed, version: nat, t: RowTurn)
    ensures SameAccount(rem, SettleConflict(rem, k, r, version, t).0)
  {
    OtherWritesAccount(rem, t.beforeFetch);
    OtherWritesAccount(OtherWrites(rem, t.beforeFetch), t.beforeRetry);
  }

  lemma {:induction false} SettleFromAccount(rem: Remote, k: Rekey, batch: seq<Listed>, outcomes: seq<PushOutcome>, i: nat, base: nat, env: Env)
    requires i <= |outcomes| == |batch|
    ensures SameAccount(rem, SettleFrom(rem, k, batch, outcomes, i, base, env).0)
    decreases |batch| - i
  {
    if i < |batch| {
      match outcomes[i] {
        case Applied => SettleFromAccount(rem, k, batch, outcomes, i + 1, base, env);
        case EpochTooOld =>
        case Conflict(version) =>
          SettleConflictAccount(rem, k, batch[i], version, env.row(base + i));
          SettleFromAccount(SettleConflict(rem, k, batch[i], version, env.row(base + i)).0, k, batch, outcomes, i + 1, base, env);
      }
    }
  }

  lemma RotateBatchAccount(st: State, k: Rekey, batch: seq<Listed>, base: nat, env: Env)
    ensures SameAccount(st.remote, RotateBatch(st, k, batch, base, env).0.remote)
  {
    var (rows, items, e) := ReencryptFrom(st.rows, k, batch, 0, base, env);
    ReencryptCount(st.rows, k, batch, 0, base, env);
    if e == None {
      match env.batch(base) {
        case Broken(handled) =>
          PushFromAccount(st.remote, items, 0, if handled < |items| then handled else |items|, base, env);
        case Delivered =>
          PushFromCount(st.remote, items, 0, |items|, base, env);
          PushFromAccount(st.remote, items, 0, |items|, base, env);
          var (rem, outcomes) := PushFrom(st.remote, items, 0, |items|, base, env);
          SettleFromAccount(rem, k, batch, outcomes, 0, base, env);
      }
    }
  }

  lemma {:induction false} BatchesAccount(st: State, k: Rekey, listing: seq<Listed>, c: nat, env: Env)
    ensures SameAccount(st.remote, BatchesFrom(st, k, listing, c, env).0.remote)
    decreases |listing| - c
  {
    var batch := BatchAt(listing, c);
    if batch != [] {
      RotateBatchAccount(st, k, batch, c, env);
      var (st', e) := RotateBatch(st, k, batch, c, env);
      if e == None {
        BatchesAccount(st', k, listing, c + |batch|, env);
      }
    }
  }

  /** The account request took effect and was not a confirmation of an older request. */
  ghost predicate BlobReplaced(t: Table, q: Request, d: AccountDelivery) {
    t.minGen < q.newGen && (d == Confirmed || d == ReplyLost)
  }

  lemma RotateBlob(st: State, q: Request, listing: seq<Listed>, w: Weather)
    ensures Rotate(st, q, listing, w).0.remote.table.blob
         == if BlobReplaced(st.remote.table, q, w.account) then q.Blob() else st.remote.table.blob
  {
    if w.account == Confirmed {
      var st1 := WithTable(st, AccountTable(st.remote.table, q, w.account));
      BatchesAccount(st1, KeysOf(st.remote.table, q), listing, 0, w.env);
    }
  }

  /** After any rotation, successful or not, a lock and a password unlock: the password still
      unwraps a key, and a row that was readable before is readable exactly when the row was
      moved just in case the account's blob was replaced. */
  lemma ReadableAfterReunlockIff(st: State, q: Request, listing: seq<Listed>, w: Weather, u: Uuid, userId: Uuid)
    requires IsListing(st.rows, ConfirmedGen(st.remote.table, q), listing) && u in st.rows
    requires q.oldSvk != q.newSvk
    requires UnwrapSvk(q.mk, userId, st.remote.table.blob) == Some(q.oldSvk)
    requires Open(Dek(q.oldSvk), u, st.rows[u].gen, st.rows[u].payload) == Some(st.rows[u].payload.content)
    ensures var (st', e) := Rotate(st, q, listing, w);
            var svk := UnwrapSvk(q.mk, userId, st'.remote.table.blob);
            u in st'.rows && svk.Some? &&
            var now := st'.rows[u];
            var readable := Open(Dek(svk.value), u, now.gen, now.payload) == Some(st.rows[u].payload.content);
            var moved := RowMoved(st.rows[u], now, KeysOf(st.remote.table, q), u);
            && (readable <==> (moved <==> BlobReplaced(st.remote.table, q, w.account)))
            && (e == None ==>
                 (readable <==> (Selected(st.rows, u, ConfirmedGen(st.remote.table, q)) <==> st.remote.table.minGen < q.newGen)))
  {
    RotateRows(st, q, listing, w, u);
    RotateBlob(st, q, listing, w);
  }

  // ------------------------------------------------------------------- server items

  /** A listed row, and what its item meant when the rotation began. */
  datatype Target = Target(r: Listed, initial: Option<string>)

  datatype Phase = Waiting | Newer | Settled

  ghost predicate Known(rem: Remote, x: Target) {
    && x.r.uuid in rem.table.items && x.r.uuid in rem.meaning
    && (x.r.uuid !in rem.touched ==> rem.meaning[x.r.uuid] == x.initial)
  }

  /** `Waiting`: not pushed yet; where the server still has the version the row was listed with,
      the local content is what the item means.  `Newer`: the server moved past that version.
      `Settled`: handled; the server's content is what the item means, and unless somebody else
      wrote the item since, it is under the new key at the new generation. */
  ghost predicate Holds(phase: Phase, rem: Remote, k: Rekey, x: Target) {
    Known(rem, x) &&
    var u := x.r.uuid;
    var item := rem.table.items[u];
    match phase
    case Waiting =>
      x.r.version <= item.version &&
      rem.meaning[u] == (if item.version == x.r.version then Some(x.r.payload.content) else Content(item.body))
    case Newer => x.r.version < item.version && rem.meaning[u] == Content(item.body)
    case Settled =>
      && rem.meaning[u] == Content(item.body)
      && (u !in rem.touched ==>
            rem.meaning[u].Some? && item.gen == k.gen && item.body == Live(NewPayload(k, u, rem.meaning[u].value)))
  }

  /** Other writers advance the version and the meaning together. */
  lemma {:induction false} OtherWritesKeep(phase: Phase, rem: Remote, ps: seq<PushItem>, k: Rekey, x: Target)
    requires Holds(phase, rem, k, x)
    ensures Holds(phase, OtherWrites(rem, ps), k, x)
    ensures var u, t := x.r.uuid, OtherWrites(rem, ps);
            || (t.table.items[u] == rem.table.items[u] && t.meaning[u] == rem.meaning[u])
            || rem.table.items[u].version < t.table.items[u].version
    decreases |ps|
  {
    if ps != [] {
      var p := ps[0];
      var rem' := if rem.table.Accepts(p)
                  then Remote(rem.table.Write(p), rem.meaning[p.uuid := Content(p.body)], rem.touched + {p.uuid})
                  else rem;
      OtherWritesKeep(phase, rem', ps[1..], k, x);
    }
  }

  /** Our pushes of other items do not matter. */
  lemma OwnPushKeeps(phase: Phase, rem: Remote, p: PushItem, k: Rekey, x: Target)
    requires Holds(phase, rem, k, x) && p.uuid != x.r.uuid
    ensures Holds(phase, OwnPush(rem, p).0, k, x)
  {
  }

  function ItemOf(k: Rekey, r: Listed): PushItem {
    PushItem(r.uuid, r.version, k.gen, Live(NewPayload(k, r.uuid, r.payload.content)))
  }

  /** Pushing the row itself settles it or finds the server ahead. */
  lemma OwnPushSettles(rem: Remote, k: Rekey, x: Target)
    requires Holds(Waiting, rem, k, x)
    ensures var (rem', o) := OwnPush(rem, ItemOf(k, x.r));
            match o
            case Applied => Holds(Settled, rem', k, x)
            case Conflict(_) => Holds(Newer, rem', k, x)
            case EpochTooOld => true
  {
  }

  ghost predicate PhaseAfter(o: PushOutcome, rem: Remote, k: Rekey, x: Target) {
    match o
    case Applied => Holds(Settled, rem, k, x)
    case Conflict(_) => Holds(Newer, rem, k, x)
    case EpochTooOld => true
  }

  lemma {:induction false} PushFromElsewhere(phase: Phase, rem: Remote, items: seq<PushItem>, i: nat, base: nat, env: Env, k: Rekey, x: Target)
    requires i <= |items| && Holds(phase, rem, k, x)
    requires forall j | i <= j < |items| :: items[j].uuid != x.r.uuid
    ensures Holds(phase, PushFrom(rem, items, i, |items|, base, env).0, k, x)
    decreases |items| - i
  {
    if i < |items| {
      var rem1 := OtherWrites(rem, env.row(base + i).beforePush);
      OtherWritesKeep(phase, rem, env.row(base + i).beforePush, k, x);
      OwnPushKeeps(phase, rem1, items[i], k, x);
      PushFromElsewhere(phase, OwnPush(rem1, items[i]).0, items, i + 1, base, env, k, x);
    }
  }

  lemma {:induction false} PushFromReaches(rem: Remote, items: seq<PushItem>, i: nat, j: nat, base: nat, env: Env, k: Rekey, x: Target)
    requires i <= j < |items| && Holds(Waiting, rem, k, x)
    requires items[j] == ItemOf(k, x.r)
    requires forall n | i <= n < |items| && n != j :: items[n].uuid != x.r.uuid
    ensures var (rem', os) := PushFrom(rem, items, i, |items|, base, env);
            |os| == |items| - i && PhaseAfter(os[j - i], rem', k, x)
    decreases |items| - i
  {
    PushFromCount(rem, items, i, |items|, base, env);
    var rem1 := OtherWrites(rem, env.row(base + i).beforePush);
    OtherWritesKeep(Waiting, rem, env.row(base + i).beforePush, k, x);
    var (rem2, o) := OwnPush(rem1, items[i]);
    if i < j {
      OwnPushKeeps(Waiting, rem1, items[i], k, x);
      PushFromReaches(rem2, items, i + 1, j, base, env, k, x);
    } else {
      OwnPushSettles(rem1, k, x);
      match o {
        case Applied => PushFromElsewhere(Settled, rem2, items, i + 1, base, env, k, x);
        case Conflict(_) => PushFromElsewhere(Newer, rem2, items, i + 1, base, env, k, x);
        case EpochTooOld =>
      }
    }
  }

  lemma SettleElsewhere(phase: Phase, rem: Remote, k: Rekey, r: Listed, version: nat, t: RowTurn, x: Target)
    requires Holds(phase, rem, k, x) && r.uuid != x.r.uuid
    ensures Holds(phase, SettleConflict(rem, k, r, version, t).0, k, x)
  {
    OtherWritesKeep(phase, rem, t.beforeFetch, k, x);
    OtherWritesKeep(phase, OtherWrites(rem, t.beforeFetch), t.beforeRetry, k, x);
  }

  /** The conflict branch pushes back exactly the content it fetched, or fails. */
  lemma SettleOwn(rem: Remote, k: Rekey, version: nat, t: RowTurn, x: Target)
    requires Holds(Newer, rem, k, x)
    ensures var (rem', ok) := SettleConflict(rem, k, x.r, version, t); ok ==> Holds(Settled, rem', k, x)
  {
    var rem1 := OtherWrites(rem, t.beforeFetch);
    OtherWritesKeep(Newer, rem, t.beforeFetch, k, x);
    OtherWritesKeep(Newer, rem1, t.beforeRetry, k, x);
  }

  lemma {:induction false} SettleFromKeeps(rem: Remote, k: Rekey, batch: seq<Listed>, outcomes: seq<PushOutcome>, i: nat, base: nat, env: Env, x: Target)
    requires i <= |outcomes| == |batch| && Holds(Settled, rem, k, x)
    requires forall j | i <= j < |batch| && outcomes[j] != Applied :: batch[j].uuid != x.r.uuid
    ensures Holds(Settled, SettleFrom(rem, k, batch, outcomes, i, base, env).0, k, x)
    decreases |batch| - i
  {
    if i < |batch| {
      match outcomes[i] {
        case Applied => SettleFromKeeps(rem, k, batch, outcomes, i + 1, base, env, x);
        case EpochTooOld =>
        case Conflict(version) =>
          SettleElsewhere(Settled, rem, k, batch[i], version, env.row(base + i), x);
          SettleFromKeeps(SettleConflict(rem, k, batch[i], version, env.row(base + i)).0, k, batch, outcomes, i + 1, base, env, x);
      }
    }
  }

  lemma {:induction false} SettleFromReaches(rem: Remote, k: Rekey, batch: seq<Listed>, outcomes: seq<PushOutcome>, i: nat, j: nat, base: nat, env: Env, x: Target)
    requires i <= j < |outcomes| == |batch| && Distinct(batch) && batch[j] == x.r
    requires PhaseAfter(outcomes[j], rem, k, x)
    ensures var (rem', e) := SettleFrom(rem, k, batch, outcomes, i, base, env); e == None ==> Holds(Settled, rem', k, x)
    decreases |batch| - i
  {
    if outcomes[j] == Applied {
      SettleFromKeeps(rem, k, batch, outcomes, i, base, env, x);
    } else if i == j {
      match outcomes[i] {
        case EpochTooOld =>
        case Conflict(version) =>
          SettleOwn(rem, k, version, env.row(base + i), x);
          var (rem', ok) := SettleConflict(rem, k, batch[i], version, env.row(base + i));
          if ok {
            SettleFromKeeps(rem', k, batch, outcomes, i + 1, base, env, x);
          }
      }
    } else {
      match outcomes[i] {
        case Applied => SettleFromReaches(rem, k, batch, outcomes, i + 1, j, base, env, x);
        case EpochTooOld =>
        case Conflict(version) =>
          if outcomes[j].Conflict? {
            SettleElsewhere(Newer, rem, k, batch[i], version, env.row(base + i), x);
          }
          SettleFromReaches(SettleConflict(rem, k, batch[i], version, env.row(base + i)).0, k, batch, outcomes, i + 1, j, base, env, x);
      }
    }
  }

  /** The request carries each row once, re-encrypted, at the version it was listed with. */
  lemma {:induction false} ReencryptItems(rows: Rows, k: Rekey, batch: seq<Listed>, i: nat, base: nat, env: Env)
    requires i <= |batch|
    ensures var (_, items, e) := ReencryptFrom(rows, k, batch, i, base, env);
            e == None ==> |items| == |batch| - i && forall j | 0 <= j < |items| :: items[j] == ItemOf(k, batch[i + j])
    decreases |batch| - i
  {
    if i < |batch| && Open(Dek(k.oldSvk), batch[i].uuid, batch[i].gen, batch[i].payload).Some? {
      ReencryptItems(ReencryptRow(rows, k, batch[i].uuid, batch[i].payload.content), k, batch, i + 1, base, env);
    }
  }

  lemma BatchReaches(st: State, k: Rekey, batch: seq<Listed>, j: nat, base: nat, env: Env, x: Target)
    requires j < |batch| && batch[j] == x.r && Distinct(batch) && Holds(Waiting, st.remote, k, x)
    ensures var (st', e) := RotateBatch(st, k, batch, base, env); e == None ==> Holds(Settled, st'.remote, k, x)
  {
    var (rows, items, e) := ReencryptFrom(st.rows, k, batch, 0, base, env);
    ReencryptItems(st.rows, k, batch, 0, base, env);
    if e == None && env.batch(base) == Delivered {
      assert forall n | 0 <= n < |items| :: items[n] == ItemOf(k, batch[0 + n]) && items[n].uuid == batch[n].uuid;
      PushFromReaches(st.remote, items, 0, j, base, env, k, x);
      var (rem, outcomes) := PushFrom(st.remote, items, 0, |items|, base, env);
      SettleFromReaches(rem, k, batch, outcomes, 0, j, base, env, x);
    }
  }

  lemma BatchElsewhere(phase: Phase, st: State, k: Rekey, batch: seq<Listed>, base: nat, env: Env, x: Target)
    requires phase != Newer && Holds(phase, st.remote, k, x) && forall j | 0 <= j < |batch| :: batch[j].uuid != x.r.uuid
    ensures var (st', e) := RotateBatch(st, k, batch, base, env); e == None ==> Holds(phase, st'.remote, k, x)
  {
    var (rows, items, e) := ReencryptFrom(st.rows, k, batch, 0, base, env);
    ReencryptItems(st.rows, k, batch, 0, base, env);
    if e == None && env.batch(base) == Delivered {
      assert forall n | 0 <= n < |items| :: items[n] == ItemOf(k, batch[0 + n]) && items[n].uuid == batch[n].uuid;
      PushFromElsewhere(phase, st.remote, items, 0, base, env, k, x);
      PushFromCount(st.remote, items, 0, |items|, base, env);
      var (rem, outcomes) := PushFrom(st.remote, items, 0, |items|, base, env);
      SettleFromElsewhere(phase, rem, k, batch, outcomes, 0, base, env, x);
    }
  }

  lemma {:induction false} SettleFromElsewhere(phase: Phase, rem: Remote, k: Rekey, batch: seq<Listed>, outcomes: seq<PushOutcome>, i: nat, base: nat, env: Env, x: Target)
    requires i <= |outcomes| == |batch| && Holds(phase, rem, k, x)
    requires forall j | i <= j < |batch| :: batch[j].uuid != x.r.uuid
    ensures Holds(phase, SettleFrom(rem, k, batch, outcomes, i, base, env).0, k, x)
    decreases |batch| - i
  {
    if i < |batch| {
      match outcomes[i] {
        case Applied => SettleFromElsewhere(phase, rem, k, batch, outcomes, i + 1, base, env, x);
        case EpochTooOld =>
        case Conflict(version) =>
          SettleElsewhere(phase, rem, k, batch[i], version, env.row(base + i), x);
          SettleFromElsewhere(phase, SettleConflict(rem, k, batch[i], version, env.row(base + i)).0, k, batch, outcomes, i + 1, base, env, x);
      }
    }
  }

  /** Where row `j` of the listing stands when the loop is at row `c`. */
  ghost function PhaseAt(c: nat, j: nat): Phase {
    if c <= j then Waiting else Settled
  }

  /** One batch keeps the invariant if it is completed, and gives the rest if it is not. */
  ghost predicate KeptByBatch(s: State, k: Rekey, listing: seq<Listed>, d: nat, env: Env,
                              inv: (nat, State) -> bool, stopped: (State, Option<Stage>) -> bool) {
    var r := RotateBatch(s, k, BatchAt(listing, d), d, env);
    if r.1 == None then inv(d + |BatchAt(listing, d)|, r.0) else stopped(r.0, r.1)
  }

  /** What every completed batch keeps holds when all are done, and what every failing one gives holds
      when the loop stops early. */
  lemma {:induction false} BatchesKeep(st: State, k: Rekey, listing: seq<Listed>, c: nat, env: Env,
                                       inv: (nat, State) -> bool, stopped: (State, Option<Stage>) -> bool)
    requires c <= |listing| && inv(c, st)
    requires forall d: nat, s: State | d < |listing| && inv(d, s) :: KeptByBatch(s, k, listing, d, env, inv, stopped)
    ensures var r := BatchesFrom(st, k, listing, c, env);
            if r.1 == None then inv(|listing|, r.0) else stopped(r.0, r.1)
    decreases |listing| - c
  {
    if c < |listing| {
      var batch := BatchAt(listing, c);
      var r := RotateBatch(st, k, batch, c, env);
      assert KeptByBatch(st, k, listing, c, env, inv, stopped);
      if r.1 == None {
        BatchesKeep(r.0, k, listing, c + |batch|, env, inv, stopped);
      }
    }
  }

  lemma BatchesReach(st: State, k: Rekey, listing: seq<Listed>, c: nat, j: nat, env: Env, x: Target)
    requires c <= |listing| && j < |listing| && Distinct(listing) && listing[j] == x.r
    requires Holds(PhaseAt(c, j), st.remote, k, x)
    ensures var r := BatchesFrom(st, k, listing, c, env); r.1 == None ==> Holds(Settled, r.0.remote, k, x)
  {
    var inv := (d: nat, s: State) => Holds(PhaseAt(d, j), s.remote, k, x);
    var stopped := (s: State, e: Option<Stage>) => true;
    forall d: nat, s: State | d < |listing| && inv(d, s)
      ensures KeptByBatch(s, k, listing, d, env, inv, stopped)
    {
      OneBatchReaches(s, k, listing, d, j, env, x);
    }
    BatchesKeep(st, k, listing, c, env, inv, stopped);
  }

  lemma OneBatchReaches(st: State, k: Rekey, listing: seq<Listed>, c: nat, j: nat, env: Env, x: Target)
    requires c < |listing| && j < |listing| && Distinct(listing) && listing[j] == x.r
    requires Holds(PhaseAt(c, j), st.remote, k, x)
    ensures var batch := BatchAt(listing, c);
            var r := RotateBatch(st, k, batch, c, env);
            r.1 == None ==> Holds(PhaseAt(c + |batch|, j), r.0.remote, k, x)
  {
    var batch := BatchAt(listing, c);
    assert forall i | 0 <= i < |batch| :: batch[i] == listing[c + i];
    if c <= j < c + |batch| {
      BatchReaches(st, k, batch, j - c, c, env, x);
    } else {
      BatchElsewhere(PhaseAt(c, j), st, k, batch, c, env, x);
    }
  }

  /** What each item means when the rotation starts: the local content where the server still has
      the local row's version, else the server's. */
  function StartMeaning(rows: Rows, t: Table): map<Uuid, Option<string>> {
    map u | u in t.items ::
      if u in rows && rows[u].version == t.items[u].version then Some(rows[u].payload.content)
      else Content(t.items[u].body)
  }

  function Begin(rows: Rows, t: Table): State {
    State(rows, Remote(t, StartMeaning(rows, t), {}))
  }

  /** The row has no unpushed edit: where the versions are equal the server says the same. */
  ghost predicate Clean(rows: Rows, t: Table, u: Uuid) {
    u in t.items && u in rows && t.items[u].version == rows[u].version ==>
      Content(t.items[u].body) == Some(rows[u].payload.content)
  }

  /** When a rotation succeeds, every moved item the server knew (at the local version or a later
      one) still says what it meant, with the edits of others included; and unless others wrote
      it meanwhile it is now under the new key at the confirmed generation.  For a clean row that
      is the content the server had, an earlier edit by another device included. */
  lemma RotationPreservesServerMeaning(rows: Rows, t: Table, q: Request, listing: seq<Listed>, w: Weather, u: Uuid)
    requires IsListing(rows, ConfirmedGen(t, q), listing) && Selected(rows, u, ConfirmedGen(t, q))
    requires u in t.items && rows[u].version <= t.items[u].version
    ensures var (st', e) := Rotate(Begin(rows, t), q, listing, w);
            var k, far := KeysOf(t, q), st'.remote;
            e == None ==>
              && u in far.table.items && u in far.meaning
              && Content(far.table.items[u].body) == far.meaning[u]
              && (u !in far.touched ==>
                    && far.meaning[u] == StartMeaning(rows, t)[u]
                    && far.meaning[u].Some?
                    && far.table.items[u].gen == k.gen
                    && far.table.items[u].body == Live(NewPayload(k, u, far.meaning[u].value)))
              && (u !in far.touched && Clean(rows, t, u) ==>
                    Content(far.table.items[u].body) == Content(t.items[u].body))
  {
    if w.account == Confirmed {
      var k := KeysOf(t, q);
      var st1 := WithTable(Begin(rows, t), AccountTable(t, q, w.account));
      var j :| 0 <= j < |listing| && listing[j].uuid == u;
      var x := Target(listing[j], StartMeaning(rows, t)[u]);
      BatchesReach(st1, k, listing, 0, j, w.env, x);
    }
  }
}
