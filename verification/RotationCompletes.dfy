/** When a rotation can come to its end. */
module RotationCompletes {
  import opened Common
  import opened Crypto
  import opened LocalDb
  import opened Server
  import opened Rotation
  import opened RotationMeaning

  // ------------------------------------------------------------------- rows the server never saw

  /** If the server has the item at all, somebody else put it there. */
  ghost predicate Foreign(rem: Remote, u: Uuid) {
    u in rem.table.items ==> u in rem.touched && rem.table.items[u].version >= 1
  }

  ghost predicate Has(rem: Remote, u: Uuid) {
    u in rem.table.items
  }

  /** Still foreign, and still there if it was there. */
  ghost predicate StaysForeign(a: Remote, b: Remote, u: Uuid) {
    Foreign(b, u) && (Has(a, u) ==> Has(b, u))
  }

  lemma {:induction false} OtherWritesStayForeign(rem: Remote, ps: seq<PushItem>, u: Uuid)
    requires Foreign(rem, u)
    ensures StaysForeign(rem, OtherWrites(rem, ps), u)
    decreases |ps|
  {
    if ps != [] {
      var p := ps[0];
      var rem' := if rem.table.Accepts(p)
                  then Remote(rem.table.Write(p), rem.meaning[p.uuid := Content(p.body)], rem.touched + {p.uuid})
                  else rem;
      OtherWritesStayForeign(rem', ps[1..], u);
    }
  }

  lemma OwnPushStaysForeign(rem: Remote, p: PushItem, u: Uuid)
    requires Foreign(rem, u) && (p.uuid == u ==> p.target != 0)
    ensures var (rem', o) := OwnPush(rem, p);
            StaysForeign(rem, rem', u) && (p.uuid == u && p.gen >= rem.table.minGen && o != Conflict(0) ==> Has(rem', u))
  {
  }

  /** Row `j` of the request is the item; unless it came back as unknown or too old, the server has it. */
  lemma {:induction false} PushFromForeign(rem: Remote, items: seq<PushItem>, i: nat, limit: nat, base: nat, env: Env, u: Uuid)
    requires i <= limit <= |items| && Foreign(rem, u)
    requires forall j | i <= j < limit && items[j].uuid == u :: items[j].target != 0
    ensures var (rem', outcomes) := PushFrom(rem, items, i, limit, base, env);
            && |outcomes| == limit - i && StaysForeign(rem, rem', u)
            && forall j | i <= j < limit && items[j].uuid == u ::
                 outcomes[j - i] == Conflict(0) || outcomes[j - i] == EpochTooOld || Has(rem', u)
    decreases limit - i
  {
    if i < limit {
      var mid := OtherWrites(rem, env.row(base + i).beforePush);
      OtherWritesStayForeign(rem, env.row(base + i).beforePush, u);
      OwnPushStaysForeign(mid, items[i], u);
      var (rem', o) := OwnPush(mid, items[i]);
      PushFromForeign(rem', items, i + 1, limit, base, env, u);
    }
  }

  /** There is nothing to fetch at version 0. */
  lemma SettleForeign(rem: Remote, k: Rekey, r: Listed, version: nat, t: RowTurn, u: Uuid)
    requires Foreign(rem, u)
    ensures var (rem', ok) := SettleConflict(rem, k, r, version, t);
            StaysForeign(rem, rem', u) && (r.uuid == u && version == 0 ==> !ok)
  {
    var rem1 := OtherWrites(rem, t.beforeFetch);
    OtherWritesStayForeign(rem, t.beforeFetch, u);
    OtherWritesStayForeign(rem1, t.beforeRetry, u);
    if t.fetchOk && rem1.table.Fetch(r.uuid, version).Some? {
      var plain := Open(Dek(k.oldSvk), r.uuid, r.gen, rem1.table.Fetch(r.uuid, version).value);
      if plain.Some? {
        OwnPushStaysForeign(OtherWrites(rem1, t.beforeRetry),
                            PushItem(r.uuid, version, k.gen, Live(NewPayload(k, r.uuid, plain.value))), u);
      }
    }
  }

  lemma {:induction false} SettleFromForeign(
    rem: Remote, k: Rekey, batch: seq<Listed>, outcomes: seq<PushOutcome>, i: nat, base: nat, env: Env, u: Uuid)
    requires i <= |outcomes| == |batch| && Foreign(rem, u)
    ensures var (rem', e) := SettleFrom(rem, k, batch, outcomes, i, base, env);
            && StaysForeign(rem, rem', u)
            && (e == None ==> forall j | i <= j < |batch| && batch[j].uuid == u ::
                                outcomes[j] != Conflict(0) && outcomes[j] != EpochTooOld)
    decreases |batch| - i
  {
    if i < |batch| {
      match outcomes[i] {
        case Applied => SettleFromForeign(rem, k, batch, outcomes, i + 1, base, env, u);
        case EpochTooOld =>
        case Conflict(version) =>
          SettleForeign(rem, k, batch[i], version, env.row(base + i), u);
          SettleFromForeign(SettleConflict(rem, k, batch[i], version, env.row(base + i)).0, k, batch, outcomes, i + 1, base, env, u);
      }
    }
  }

  lemma BatchForeign(st: State, k: Rekey, batch: seq<Listed>, base: nat, env: Env, u: Uuid)
    requires Foreign(st.remote, u) && forall j | 0 <= j < |batch| && batch[j].uuid == u :: batch[j].version != 0
    ensures var (st', e) := RotateBatch(st, k, batch, base, env);
            e == None ==>
              && StaysForeign(st.remote, st'.remote, u)
              && (forall j | 0 <= j < |batch| && batch[j].uuid == u :: Has(st'.remote, u))
  {
    var (rows, items, e) := ReencryptFrom(st.rows, k, batch, 0, base, env);
    ReencryptItems(st.rows, k, batch, 0, base, env);
    if e == None && env.batch(base) == Delivered {
      assert forall n | 0 <= n < |items| :: items[n] == ItemOf(k, batch[0 + n]) && items[n].uuid == batch[n].uuid;
      PushFromForeign(st.remote, items, 0, |items|, base, env, u);
      var (rem, outcomes) := PushFrom(st.remote, items, 0, |items|, base, env);
      SettleFromForeign(rem, k, batch, outcomes, 0, base, env, u);
    }
  }

  lemma BatchesForeign(st: State, k: Rekey, listing: seq<Listed>, j: nat, env: Env, u: Uuid)
    requires j < |listing| && listing[j].uuid == u && Foreign(st.remote, u)
    requires forall i | 0 <= i < |listing| && listing[i].uuid == u :: listing[i].version != 0
    ensures var r := BatchesFrom(st, k, listing, 0, env); r.1 == None ==> Has(r.0.remote, u) && Foreign(r.0.remote, u)
  {
    var inv := (d: nat, s: State) => Foreign(s.remote, u) && (d > j ==> Has(s.remote, u));
    var stopped := (s: State, e: Option<Stage>) => true;
    forall d: nat, s: State | d < |listing| && inv(d, s)
      ensures KeptByBatch(s, k, listing, d, env, inv, stopped)
    {
      var batch := BatchAt(listing, d);
      assert forall i | 0 <= i < |batch| :: batch[i] == listing[d + i];
      BatchForeign(s, k, batch, d, env, u);
      if d <= j < d + |batch| {
        assert batch[j - d].uuid == u;
      }
    }
    BatchesKeep(st, k, listing, 0, env, inv, stopped);
  }

  /** A live row below the generation that the server has never seen stops every rotation, unless
      another device creates the item while it runs. */
  lemma NeverPushedRowStopsRotation(rows: Rows, t: Table, q: Request, listing: seq<Listed>, w: Weather, u: Uuid)
    requires IsListing(rows, ConfirmedGen(t, q), listing) && Selected(rows, u, ConfirmedGen(t, q)) && rows[u].version != 0
    ensures var (st', e) := Rotate(Begin(rows, t), q, listing, w);
            e == None ==> u in t.items || u in st'.remote.touched
  {
    if w.account == Confirmed && u !in t.items {
      var st1 := WithTable(Begin(rows, t), AccountTable(t, q, w.account));
      var j :| 0 <= j < |listing| && listing[j].uuid == u;
      BatchesForeign(st1, KeysOf(t, q), listing, j, w.env, u);
    }
  }

  // ------------------------------------------------------------------- calm weather

  /** Nobody else writes. */
  ghost predicate Quiet(env: Env) {
    forall i: nat :: env.row(i).beforePush == [] && env.row(i).beforeFetch == [] && env.row(i).beforeRetry == []
  }

  /** Nobody else writes and nothing is lost. */
  ghost predicate Calm(env: Env) {
    && (forall i: nat :: env.row(i) == RowTurn(true, [], [], true, [], true))
    && (forall i: nat :: env.batch(i) == Delivered)
  }

  /** The server's copy is live and opens with the old key at the generation of the listed row. */
  ghost predicate ServerOpens(t: Table, k: Rekey, r: Listed) {
    && r.uuid in t.items && t.items[r.uuid].body.Live?
    && Open(Dek(k.oldSvk), r.uuid, r.gen, t.items[r.uuid].body.payload).Some?
  }

  /** The row opens, and the server is at its version or has a copy that opens. */
  ghost predicate CanMove(t: Table, k: Rekey, r: Listed) {
    Opens(k, r) && (t.VersionOf(r.uuid) == r.version || ServerOpens(t, k, r))
  }

  lemma {:induction false} ReencryptionCompletes(rows: Rows, k: Rekey, batch: seq<Listed>, i: nat, base: nat, env: Env)
    requires i <= |batch| && Calm(env)
    ensures ReencryptFrom(rows, k, batch, i, base, env).2 == None <==> forall j | i <= j < |batch| :: Opens(k, batch[j])
    decreases |batch| - i
  {
    if i < |batch| {
      assert env.row(base + i).persistOk;
      if Opens(k, batch[i]) {
        ReencryptionCompletes(ReencryptRow(rows, k, batch[i].uuid, batch[i].payload.content), k, batch, i + 1, base, env);
      }
    }
  }

  ghost predicate DistinctItems(items: seq<PushItem>) {
    forall i, j | 0 <= i < j < |items| :: items[i].uuid != items[j].uuid
  }

  /** A row the request does not carry, or carries at another version, stays as it is. */
  lemma {:induction false} QuietPushKeeps(rem: Remote, items: seq<PushItem>, i: nat, limit: nat, base: nat, env: Env, u: Uuid)
    requires i <= limit <= |items| && Quiet(env)
    requires forall j | i <= j < limit && items[j].uuid == u :: items[j].target != rem.table.VersionOf(u)
    ensures var t := PushFrom(rem, items, i, limit, base, env).0.table;
            t.minGen == rem.table.minGen && ItemAt(t, u) == ItemAt(rem.table, u)
    decreases limit - i
  {
    if i < limit {
      assert OtherWrites(rem, env.row(base + i).beforePush) == rem;
      QuietPushKeeps(OwnPush(rem, items[i]).0, items, i + 1, limit, base, env, u);
    }
  }

  lemma {:induction false} CalmOutcome(rem: Remote, items: seq<PushItem>, i: nat, base: nat, env: Env, j: nat)
    requires i <= j < |items| && Calm(env) && DistinctItems(items) && items[j].gen >= rem.table.minGen
    ensures var outcomes, v := PushFrom(rem, items, i, |items|, base, env).1, rem.table.VersionOf(items[j].uuid);
            |outcomes| == |items| - i && outcomes[j - i] == if items[j].target == v then Applied else Conflict(v)
    decreases |items| - i
  {
    assert OtherWrites(rem, env.row(base + i).beforePush) == rem;
    PushFromCount(rem, items, i, |items|, base, env);
    if i < j {
      CalmOutcome(OwnPush(rem, items[i]).0, items, i + 1, base, env, j);
    }
  }

  lemma CalmSettle(rem: Remote, k: Rekey, r: Listed, t: RowTurn)
    requires t == RowTurn(true, [], [], true, [], true) && k.gen >= rem.table.minGen
    ensures var (rem', ok) := SettleConflict(rem, k, r, rem.table.VersionOf(r.uuid), t);
            && (ok <==> ServerOpens(rem.table, k, r))
            && rem'.table.minGen == rem.table.minGen
            && forall u | u != r.uuid :: ItemAt(rem'.table, u) == ItemAt(rem.table, u)
  {
    assert OtherWrites(rem, []) == rem;
  }

  /** The settlement succeeds exactly when every conflicting row has a server copy that opens. */
  lemma {:induction false} SettlementCompletes(
    rem: Remote, k: Rekey, batch: seq<Listed>, outcomes: seq<PushOutcome>, i: nat, base: nat, env: Env)
    requires i <= |outcomes| == |batch| && Calm(env) && Distinct(batch) && k.gen >= rem.table.minGen
    requires forall j | i <= j < |batch| ::
               outcomes[j] == Applied || outcomes[j] == Conflict(rem.table.VersionOf(batch[j].uuid))
    ensures var (rem', e) := SettleFrom(rem, k, batch, outcomes, i, base, env);
            e == None <==> forall j | i <= j < |batch| :: outcomes[j] == Applied || ServerOpens(rem.table, k, batch[j])
    decreases |batch| - i
  {
    if i < |batch| {
      if outcomes[i] == Applied {
        SettlementCompletes(rem, k, batch, outcomes, i + 1, base, env);
      } else {
        CalmSettle(rem, k, batch[i], env.row(base + i));
        var (rem', ok) := SettleConflict(rem, k, batch[i], rem.table.VersionOf(batch[i].uuid), env.row(base + i));
        forall j | i < j < |batch|
          ensures ItemAt(rem'.table, batch[j].uuid) == ItemAt(rem.table, batch[j].uuid)
        {
        }
        if ok {
          assert forall j | i < j < |batch| :: ServerOpens(rem'.table, k, batch[j]) <==> ServerOpens(rem.table, k, batch[j]);
          SettlementCompletes(rem', k, batch, outcomes, i + 1, base, env);
        }
      }
    }
  }

  lemma {:induction false} SettlementKeeps(
    rem: Remote, k: Rekey, batch: seq<Listed>, outcomes: seq<PushOutcome>, i: nat, base: nat, env: Env, u: Uuid)
    requires i <= |outcomes| == |batch| && Quiet(env) && forall j | i <= j < |batch| :: batch[j].uuid != u
    ensures var t := SettleFrom(rem, k, batch, outcomes, i, base, env).0.table;
            t.minGen == rem.table.minGen && ItemAt(t, u) == ItemAt(rem.table, u)
    decreases |batch| - i
  {
    if i < |batch| {
      match outcomes[i] {
        case Applied => SettlementKeeps(rem, k, batch, outcomes, i + 1, base, env, u);
        case EpochTooOld =>
        case Conflict(version) =>
          assert OtherWrites(rem, []) == rem;
          var (rem', ok) := SettleConflict(rem, k, batch[i], version, env.row(base + i));
          assert env.row(base + i).beforeFetch == [] && env.row(base + i).beforeRetry == [];
          SettlementKeeps(rem', k, batch, outcomes, i + 1, base, env, u);
      }
    }
  }

  /** The outcomes of a calm request, and what it leaves of the rows that conflicted. */
  lemma CalmRequest(rem: Remote, k: Rekey, batch: seq<Listed>, items: seq<PushItem>, base: nat, env: Env)
    requires |items| == |batch| && Calm(env) && Distinct(batch) && k.gen >= rem.table.minGen
    requires forall j | 0 <= j < |items| :: items[j] == ItemOf(k, batch[j])
    ensures var (rem', outcomes) := PushFrom(rem, items, 0, |items|, base, env);
            && |outcomes| == |batch| && rem'.table.minGen == rem.table.minGen
            && forall j | 0 <= j < |batch| ::
                 var v := rem.table.VersionOf(batch[j].uuid);
                 if v == batch[j].version then outcomes[j] == Applied
                 else outcomes[j] == Conflict(v) && ItemAt(rem'.table, batch[j].uuid) == ItemAt(rem.table, batch[j].uuid)
  {
    PushFromCount(rem, items, 0, |items|, base, env);
    PushFromAccount(rem, items, 0, |items|, base, env);
    assert DistinctItems(items);
    forall j | 0 <= j < |batch|
      ensures var (rem', outcomes) := PushFrom(rem, items, 0, |items|, base, env);
              var v := rem.table.VersionOf(batch[j].uuid);
              if v == batch[j].version then outcomes[j] == Applied
              else outcomes[j] == Conflict(v) && ItemAt(rem'.table, batch[j].uuid) == ItemAt(rem.table, batch[j].uuid)
    {
      CalmOutcome(rem, items, 0, base, env, j);
      if rem.table.VersionOf(batch[j].uuid) != batch[j].version {
        QuietPushKeeps(rem, items, 0, |items|, base, env, batch[j].uuid);
      }
    }
  }

  lemma PushAndSettleCompletes(rem: Remote, k: Rekey, batch: seq<Listed>, items: seq<PushItem>, base: nat, env: Env)
    requires |items| == |batch| && Calm(env) && Distinct(batch) && k.gen >= rem.table.minGen
    requires forall j | 0 <= j < |items| :: items[j] == ItemOf(k, batch[j])
    ensures PushAndSettle(rem, k, batch, items, base, env).1 == None <==>
            forall j | 0 <= j < |batch| :: rem.table.VersionOf(batch[j].uuid) == batch[j].version || ServerOpens(rem.table, k, batch[j])
  {
    CalmRequest(rem, k, batch, items, base, env);
    var (rem', outcomes) := PushFrom(rem, items, 0, |items|, base, env);
    SettlementCompletes(rem', k, batch, outcomes, 0, base, env);
    forall j | 0 <= j < |batch|
      ensures outcomes[j] == Applied || ServerOpens(rem'.table, k, batch[j])
         <==> rem.table.VersionOf(batch[j].uuid) == batch[j].version || ServerOpens(rem.table, k, batch[j])
    {
    }
  }

  lemma PushAndSettleKeeps(rem: Remote, k: Rekey, batch: seq<Listed>, items: seq<PushItem>, base: nat, env: Env, u: Uuid)
    requires |items| == |batch| && Quiet(env) && forall j | 0 <= j < |batch| :: batch[j].uuid != u
    requires forall j | 0 <= j < |items| :: items[j] == ItemOf(k, batch[j])
    ensures var t := PushAndSettle(rem, k, batch, items, base, env).0.table;
            t.minGen == rem.table.minGen && ItemAt(t, u) == ItemAt(rem.table, u)
  {
    if env.batch(base).Broken? {
      QuietPushKeeps(rem, items, 0, if env.batch(base).handled < |items| then env.batch(base).handled else |items|, base, env, u);
    }
    PushFromCount(rem, items, 0, |items|, base, env);
    QuietPushKeeps(rem, items, 0, |items|, base, env, u);
    var (rem', outcomes) := PushFrom(rem, items, 0, |items|, base, env);
    SettlementKeeps(rem', k, batch, outcomes, 0, base, env, u);
  }

  lemma BatchCompletes(st: State, k: Rekey, batch: seq<Listed>, base: nat, env: Env)
    requires Calm(env) && Distinct(batch) && k.gen >= st.remote.table.minGen
    ensures RotateBatch(st, k, batch, base, env).1 == None
       <==> forall j | 0 <= j < |batch| :: CanMove(st.remote.table, k, batch[j])
  {
    var (rows, items, e) := ReencryptFrom(st.rows, k, batch, 0, base, env);
    ReencryptionCompletes(st.rows, k, batch, 0, base, env);
    ReencryptItems(st.rows, k, batch, 0, base, env);
    if e == None {
      assert forall j | 0 <= j < |items| :: items[j] == ItemOf(k, batch[0 + j]);
      PushAndSettleCompletes(st.remote, k, batch, items, base, env);
    }
  }

  lemma BatchKeeps(st: State, k: Rekey, batch: seq<Listed>, base: nat, env: Env, u: Uuid)
    requires Quiet(env) && forall j | 0 <= j < |batch| :: batch[j].uuid != u
    ensures var t := RotateBatch(st, k, batch, base, env).0.remote.table;
            t.minGen == st.remote.table.minGen && ItemAt(t, u) == ItemAt(st.remote.table, u)
  {
    var (rows, items, e) := ReencryptFrom(st.rows, k, batch, 0, base, env);
    ReencryptItems(st.rows, k, batch, 0, base, env);
    if e == None {
      assert forall j | 0 <= j < |items| :: items[j] == ItemOf(k, batch[0 + j]);
      PushAndSettleKeeps(st.remote, k, batch, items, base, env, u);
    }
  }

  /** Everything before `d` could move, and for the later rows the question is as open as it was. */
  ghost predicate CompletedUpTo(t: Table, k: Rekey, listing: seq<Listed>, d: nat, s: State) {
    && d <= |listing| && s.remote.table.minGen == t.minGen
    && (forall j | 0 <= j < d :: CanMove(t, k, listing[j]))
    && (forall j | d <= j < |listing| :: CanMove(s.remote.table, k, listing[j]) <==> CanMove(t, k, listing[j]))
  }

  ghost predicate SomeCannotMove(t: Table, k: Rekey, listing: seq<Listed>) {
    exists j :: 0 <= j < |listing| && !CanMove(t, k, listing[j])
  }

  lemma BatchesComplete(st: State, k: Rekey, listing: seq<Listed>, env: Env)
    requires Calm(env) && Distinct(listing) && k.gen >= st.remote.table.minGen
    ensures BatchesFrom(st, k, listing, 0, env).1 == None <==> !SomeCannotMove(st.remote.table, k, listing)
  {
    var t := st.remote.table;
    var inv := (d: nat, s: State) => CompletedUpTo(t, k, listing, d, s);
    var stopped := (s: State, e: Option<Stage>) => SomeCannotMove(t, k, listing);
    forall d: nat, s: State | d < |listing| && inv(d, s)
      ensures KeptByBatch(s, k, listing, d, env, inv, stopped)
    {
      OneBatchCompletes(t, s, k, listing, d, env);
    }
    BatchesKeep(st, k, listing, 0, env, inv, stopped);
  }

  /** The next batch succeeds exactly when its rows can move, and what it does to the server leaves
      the question open for the later ones. */
  lemma OneBatchCompletes(t: Table, st: State, k: Rekey, listing: seq<Listed>, c: nat, env: Env)
    requires c < |listing| && Calm(env) && Distinct(listing) && k.gen >= t.minGen && CompletedUpTo(t, k, listing, c, st)
    ensures var batch := BatchAt(listing, c);
            var r := RotateBatch(st, k, batch, c, env);
            if r.1 == None then CompletedUpTo(t, k, listing, c + |batch|, r.0) else SomeCannotMove(t, k, listing)
  {
    var batch := BatchAt(listing, c);
    var n := |batch|;
    var r := RotateBatch(st, k, batch, c, env);
    assert forall i | 0 <= i < n :: batch[i] == listing[c + i];
    BatchCompletes(st, k, batch, c, env);
    RotateBatchAccount(st, k, batch, c, env);
    if r.1 == None {
      forall j | c <= j < c + n
        ensures CanMove(t, k, listing[j])
      {
        assert batch[j - c] == listing[j];
      }
      forall j | c + n <= j < |listing|
        ensures CanMove(r.0.remote.table, k, listing[j]) <==> CanMove(t, k, listing[j])
      {
        BatchKeeps(st, k, batch, c, env, listing[j].uuid);
      }
    } else {
      var i :| 0 <= i < n && !CanMove(st.remote.table, k, batch[i]);
      assert !CanMove(t, k, listing[c + i]);
    }
  }

  /** In calm weather a rotation comes to its end exactly when every live row below the confirmed
      generation opens with the old key and the server is at its version, or holds a live copy
      that opens with the old key at the row's generation. */
  lemma RotationCompletesIff(rows: Rows, t: Table, q: Request, listing: seq<Listed>, w: Weather)
    requires IsListing(rows, ConfirmedGen(t, q), listing)
    requires w.account == Confirmed && w.blobStored && Calm(w.env)
    ensures Rotate(Begin(rows, t), q, listing, w).1 == None <==>
            forall u | Selected(rows, u, ConfirmedGen(t, q)) ::
              CanMove(t, KeysOf(t, q), Listed(u, rows[u].version, rows[u].gen, rows[u].payload))
  {
    var k := KeysOf(t, q);
    var st1 := WithTable(Begin(rows, t), AccountTable(t, q, w.account));
    BatchesComplete(st1, k, listing, w.env);
    var movable := forall j | 0 <= j < |listing| :: CanMove(t, k, listing[j]);
    assert SomeCannotMove(st1.remote.table, k, listing) <==> !movable by {
      assert forall j | 0 <= j < |listing| :: CanMove(st1.remote.table, k, listing[j]) <==> CanMove(t, k, listing[j]);
    }
    assert Rotate(Begin(rows, t), q, listing, w).1 == None <==> movable;
    if movable {
      forall u | Selected(rows, u, k.gen)
        ensures CanMove(t, k, Listed(u, rows[u].version, rows[u].gen, rows[u].payload))
      {
        var j :| 0 <= j < |listing| && listing[j].uuid == u;
        assert CanMove(t, k, listing[j]);
      }
    }
  }
}
