/** Exactly which rows a rotation has moved wherever it stops, and what it has made of the account. */
module RotationStops {
  import opened Common
  import opened Crypto
  import opened LocalDb
  import opened Server
  import opened Rotation
  import opened RotationMeaning
  import opened RotationCompletes

  // ------------------------------------------------------------------- rows

  /** The rows of `listing[lo..hi]` are under the new key, nothing else about them and no other row
      has changed. */
  ghost predicate MovedRange(before: Rows, after: Rows, k: Rekey, listing: seq<Listed>, lo: nat, hi: nat)
    requires lo <= hi <= |listing|
  {
    && after.Keys == before.Keys
    && (forall j | lo <= j < hi && listing[j].uuid in before ::
          after[listing[j].uuid] == Moved(before[listing[j].uuid], k, listing[j].uuid, listing[j].payload.content))
    && (forall u | u in before && (forall j | lo <= j < hi :: listing[j].uuid != u) :: after[u] == before[u])
  }

  lemma MovedJoins(a: Rows, b: Rows, c: Rows, k: Rekey, listing: seq<Listed>, lo: nat, mid: nat, hi: nat)
    requires lo <= mid <= hi <= |listing| && Distinct(listing)
    requires MovedRange(a, b, k, listing, lo, mid) && MovedRange(b, c, k, listing, mid, hi)
    ensures MovedRange(a, c, k, listing, lo, hi)
  {
    forall j | lo <= j < hi && listing[j].uuid in a
      ensures c[listing[j].uuid] == Moved(a[listing[j].uuid], k, listing[j].uuid, listing[j].payload.content)
    {
      var u := listing[j].uuid;
      if j < mid {
        assert forall i | mid <= i < hi :: listing[i].uuid != u;
      } else {
        assert forall i | lo <= i < mid :: listing[i].uuid != u;
      }
    }
  }

  /** The row opens with the old key and its transaction succeeds. */
  ghost predicate GoesThrough(k: Rekey, r: Listed, t: RowTurn) {
    Opens(k, r) && t.persistOk
  }

  lemma OneMoved(rows: Rows, k: Rekey, listing: seq<Listed>, i: nat)
    requires i < |listing|
    ensures MovedRange(rows, ReencryptRow(rows, k, listing[i].uuid, listing[i].payload.content), k, listing, i, i + 1)
  {
    forall u | u in rows && (forall j | i <= j < i + 1 :: listing[j].uuid != u)
      ensures ReencryptRow(rows, k, listing[i].uuid, listing[i].payload.content)[u] == rows[u]
    {
      assert listing[i].uuid != u;
    }
  }

  lemma ReencryptOnce(rows: Rows, k: Rekey, batch: seq<Listed>, i: nat, base: nat, env: Env)
    requires i < |batch|
    ensures var r := ReencryptFrom(rows, k, batch, i, base, env);
            if GoesThrough(k, batch[i], env.row(base + i)) then
              var mid := ReencryptRow(rows, k, batch[i].uuid, batch[i].payload.content);
              var later := ReencryptFrom(mid, k, batch, i + 1, base, env);
              r.0 == later.0 && r.2 == later.2
            else r.0 == rows && r.2 == Some(if Opens(k, batch[i]) then Persist else Decrypt)
  {
  }

  /** The rows before the first that does not go through are committed, whatever follows. */
  lemma {:induction false} ReencryptStops(rows: Rows, k: Rekey, batch: seq<Listed>, i: nat, base: nat, env: Env) returns (n: nat)
    requires i <= |batch| && Distinct(batch)
    ensures var r := ReencryptFrom(rows, k, batch, i, base, env);
            && i <= n <= |batch| && MovedRange(rows, r.0, k, batch, i, n)
            && (forall j | i <= j < n :: GoesThrough(k, batch[j], env.row(base + j)))
            && (n == |batch| ==> r.2 == None)
            && (n < |batch| ==> r.2 == Some(if Opens(k, batch[n]) then Persist else Decrypt)
                                && !GoesThrough(k, batch[n], env.row(base + n)))
    decreases |batch| - i
  {
    n := i;
    if i < |batch| {
      ReencryptOnce(rows, k, batch, i, base, env);
      if GoesThrough(k, batch[i], env.row(base + i)) {
        var mid := ReencryptRow(rows, k, batch[i].uuid, batch[i].payload.content);
        n := ReencryptStops(mid, k, batch, i + 1, base, env);
        OneMoved(rows, k, batch, i);
        MovedJoins(rows, mid, ReencryptFrom(mid, k, batch, i + 1, base, env).0, k, batch, i, i + 1, n);
      }
    }
  }

  /** What a stop after `n` moved rows says about the rows, the listing and the requests. */
  ghost predicate StopsAt(k: Rekey, listing: seq<Listed>, env: Env, n: nat, e: Option<Stage>) {
    && n <= |listing|
    && (forall j | 0 <= j < n :: GoesThrough(k, listing[j], env.row(j)))
    && match e
       case None => n == |listing|
       case Some(Decrypt) => n < |listing| && !Opens(k, listing[n])
       case Some(Persist) => n < |listing| && Opens(k, listing[n]) && !env.row(n).persistOk
       case Some(stage) => exists c: nat :: RequestFails(listing, env, c, n, stage)
  }

  /** The request for the batch that starts at `c` and ends at `n` broke, or was answered badly. */
  ghost predicate RequestFails(listing: seq<Listed>, env: Env, c: nat, n: nat, stage: Stage) {
    && c < |listing| && c % BATCH_SIZE == 0 && n == c + |BatchAt(listing, c)|
    && (stage == PushRequest || stage == EpochRejected || stage == ConflictUnsettled)
    && (stage == PushRequest <==> env.batch(c).Broken?)
  }

  lemma RangeOfBatch(a: Rows, b: Rows, k: Rekey, listing: seq<Listed>, c: nat, len: nat, n: nat)
    requires c + len <= |listing| && n <= len && MovedRange(a, b, k, listing[c..c + len], 0, n)
    ensures MovedRange(a, b, k, listing, c, c + n)
  {
    var batch := listing[c..c + len];
    forall j | c <= j < c + n && listing[j].uuid in a
      ensures b[listing[j].uuid] == Moved(a[listing[j].uuid], k, listing[j].uuid, listing[j].payload.content)
    {
      assert batch[j - c] == listing[j];
    }
    forall u | u in a && (forall j | c <= j < c + n :: listing[j].uuid != u)
      ensures b[u] == a[u]
    {
      assert forall j | 0 <= j < n :: batch[j] == listing[c + j];
    }
  }

  lemma {:induction false} SettleStage(rem: Remote, k: Rekey, batch: seq<Listed>, outcomes: seq<PushOutcome>, i: nat, base: nat, env: Env)
    requires i <= |outcomes| == |batch|
    ensures var e := SettleFrom(rem, k, batch, outcomes, i, base, env).1;
            e == None || e == Some(EpochRejected) || e == Some(ConflictUnsettled)
    decreases |batch| - i
  {
    if i < |batch| {
      match outcomes[i] {
        case Applied => SettleStage(rem, k, batch, outcomes, i + 1, base, env);
        case EpochTooOld =>
        case Conflict(version) =>
          SettleStage(SettleConflict(rem, k, batch[i], version, env.row(base + i)).0, k, batch, outcomes, i + 1, base, env);
      }
    }
  }

  /** One batch: its rows are moved up to the first that does not go through, and all of them before
      anything is sent. */
  lemma BatchOutcome(st: State, k: Rekey, batch: seq<Listed>, base: nat, env: Env) returns (n: nat)
    requires Distinct(batch)
    ensures var r := RotateBatch(st, k, batch, base, env);
            && n <= |batch| && MovedRange(st.rows, r.0.rows, k, batch, 0, n)
            && (forall j | 0 <= j < n :: GoesThrough(k, batch[j], env.row(base + j)))
            && (n < |batch| ==> r.1 == Some(if Opens(k, batch[n]) then Persist else Decrypt)
                                && !GoesThrough(k, batch[n], env.row(base + n)) && r.0.remote == st.remote)
            && (n == |batch| ==> SentWell(r.1, env.batch(base)))
  {
    n := ReencryptStops(st.rows, k, batch, 0, base, env);
    ReencryptCount(st.rows, k, batch, 0, base, env);
    if n == |batch| {
      SentStage(st.remote, k, batch, ReencryptFrom(st.rows, k, batch, 0, base, env).1, base, env);
    }
  }

  /** How the sending of a batch can end. */
  ghost predicate SentWell(e: Option<Stage>, d: Delivery) {
    && (e == None || e == Some(PushRequest) || e == Some(EpochRejected) || e == Some(ConflictUnsettled))
    && (e == Some(PushRequest) <==> d.Broken?)
  }

  lemma BatchOutcomeInListing(st: State, k: Rekey, listing: seq<Listed>, c: nat, env: Env) returns (n: nat)
    requires c < |listing| && Distinct(listing)
    ensures var batch := BatchAt(listing, c);
            var r := RotateBatch(st, k, batch, c, env);
            && n <= |batch| && MovedRange(st.rows, r.0.rows, k, listing, c, c + n)
            && (forall j | c <= j < c + n :: GoesThrough(k, listing[j], env.row(j)))
            && (n < |batch| ==> r.1 == Some(if Opens(k, listing[c + n]) then Persist else Decrypt)
                                && !GoesThrough(k, listing[c + n], env.row(c + n)) && r.0.remote == st.remote)
            && (n == |batch| ==> SentWell(r.1, env.batch(c)))
  {
    var batch := BatchAt(listing, c);
    assert forall i | 0 <= i < |batch| :: batch[i] == listing[c + i];
    n := BatchOutcome(st, k, batch, c, env);
    RangeOfBatch(st.rows, RotateBatch(st, k, batch, c, env).0.rows, k, listing, c, |batch|, n);
    forall j | c <= j < c + n
      ensures GoesThrough(k, listing[j], env.row(j))
    {
      assert GoesThrough(k, batch[j - c], env.row(c + (j - c)));
    }
  }

  lemma SentStage(rem: Remote, k: Rekey, batch: seq<Listed>, items: seq<PushItem>, base: nat, env: Env)
    requires |items| == |batch|
    ensures SentWell(PushAndSettle(rem, k, batch, items, base, env).1, env.batch(base))
  {
    if env.batch(base).Delivered? {
      PushFromCount(rem, items, 0, |items|, base, env);
      var (rem', outcomes) := PushFrom(rem, items, 0, |items|, base, env);
      SettleStage(rem', k, batch, outcomes, 0, base, env);
    }
  }

  /** The first `d` rows are moved and a batch begins at `d`. */
  ghost predicate MovedUpTo(origin: Rows, k: Rekey, listing: seq<Listed>, env: Env, d: nat, s: State) {
    && d <= |listing| && (d % BATCH_SIZE == 0 || d == |listing|)
    && (forall j | 0 <= j < d :: GoesThrough(k, listing[j], env.row(j)))
    && MovedRange(origin, s.rows, k, listing, 0, d)
  }

  ghost predicate StoppedAt(origin: Rows, k: Rekey, listing: seq<Listed>, env: Env, n: nat, s: State, e: Option<Stage>) {
    n <= |listing| && MovedRange(origin, s.rows, k, listing, 0, n) && StopsAt(k, listing, env, n, e)
  }

  lemma OneBatchStops(origin: Rows, st: State, k: Rekey, listing: seq<Listed>, c: nat, env: Env)
    requires c < |listing| && Distinct(listing) && MovedUpTo(origin, k, listing, env, c, st)
    ensures var batch := BatchAt(listing, c);
            var r := RotateBatch(st, k, batch, c, env);
            if r.1 == None then MovedUpTo(origin, k, listing, env, c + |batch|, r.0)
            else exists n: nat :: StoppedAt(origin, k, listing, env, n, r.0, r.1)
  {
    var n := BatchOutcomeInListing(st, k, listing, c, env);
    var batch := BatchAt(listing, c);
    var r := RotateBatch(st, k, batch, c, env);
    MovedJoins(origin, st.rows, r.0.rows, k, listing, 0, c, c + n);
    if r.1 != None {
      if n == |batch| {
        assert RequestFails(listing, env, c, c + n, r.1.value);
      }
      assert StoppedAt(origin, k, listing, env, c + n, r.0, r.1);
    }
  }

  lemma BatchesStop(st: State, k: Rekey, listing: seq<Listed>, env: Env) returns (n: nat)
    requires Distinct(listing)
    ensures var r := BatchesFrom(st, k, listing, 0, env); StoppedAt(st.rows, k, listing, env, n, r.0, r.1)
  {
    var inv := (d: nat, s: State) => MovedUpTo(st.rows, k, listing, env, d, s);
    var stopped := (s: State, e: Option<Stage>) => exists n: nat :: StoppedAt(st.rows, k, listing, env, n, s, e);
    forall d: nat, s: State | d < |listing| && inv(d, s)
      ensures KeptByBatch(s, k, listing, d, env, inv, stopped)
    {
      OneBatchStops(st.rows, s, k, listing, d, env);
    }
    BatchesKeep(st, k, listing, 0, env, inv, stopped);
    var r := BatchesFrom(st, k, listing, 0, env);
    if r.1 == None {
      n := |listing|;
    } else {
      n :| StoppedAt(st.rows, k, listing, env, n, r.0, r.1);
    }
  }

  /** The rows at every stop.  A rotation has moved exactly the first `n` listed rows: none if the
      account step failed, those before the first row that does not open or is not persisted, the
      whole of the batch whose request failed, or all of them. */
  lemma RotationMovesExactly(st: State, q: Request, listing: seq<Listed>, w: Weather) returns (n: nat)
    requires IsListing(st.rows, ConfirmedGen(st.remote.table, q), listing)
    ensures var (st', e) := Rotate(st, q, listing, w);
            var k := KeysOf(st.remote.table, q);
            && n <= |listing| && MovedRange(st.rows, st'.rows, k, listing, 0, n)
            && (if w.account != Confirmed then n == 0 && e == Some(AccountStep)
                else if e == Some(StoreBlob) then n == |listing| && !w.blobStored
                else StopsAt(k, listing, w.env, n, e))
  {
    n := 0;
    if w.account == Confirmed {
      var st1 := WithTable(st, AccountTable(st.remote.table, q, w.account));
      n := BatchesStop(st1, KeysOf(st.remote.table, q), listing, w.env);
    }
  }

  // ------------------------------------------------------------------- the server

  lemma FailingBatch(st: State, k: Rekey, listing: seq<Listed>, c: nat, env: Env, i: nat)
    requires c <= i < |listing| && i < c + BATCH_SIZE && Distinct(listing)
    requires !GoesThrough(k, listing[i], env.row(i))
    ensures var r := RotateBatch(st, k, BatchAt(listing, c), c, env); r.1 != None && r.0.remote == st.remote
  {
    var n := BatchOutcomeInListing(st, k, listing, c, env);
    assert n < |BatchAt(listing, c)|;
  }

  lemma LaterBatchUntouched(st: State, k: Rekey, listing: seq<Listed>, c: nat, env: Env, j: nat)
    requires c < |listing| && Distinct(listing) && Quiet(env) && c + |BatchAt(listing, c)| <= j < |listing|
    ensures ItemAt(RotateBatch(st, k, BatchAt(listing, c), c, env).0.remote.table, listing[j].uuid)
         == ItemAt(st.remote.table, listing[j].uuid)
  {
    var batch := BatchAt(listing, c);
    assert forall i | 0 <= i < |batch| :: batch[i] == listing[c + i];
    BatchKeeps(st, k, batch, c, env, listing[j].uuid);
  }

  /** A batch is sent only when all of its rows are moved: with no other writer, the server's item of a
      listed row is untouched if any row of its batch, or of an earlier one, does not go through. */
  lemma NotSentIfNotMoved(st: State, q: Request, listing: seq<Listed>, w: Weather, i: nat, j: nat)
    requires IsListing(st.rows, ConfirmedGen(st.remote.table, q), listing) && i < |listing| && j < |listing| && Quiet(w.env)
    requires i - i % BATCH_SIZE <= j && !GoesThrough(KeysOf(st.remote.table, q), listing[i], w.env.row(i))
    ensures ItemAt(Rotate(st, q, listing, w).0.remote.table, listing[j].uuid)
         == ItemAt(st.remote.table, listing[j].uuid)
  {
    if w.account == Confirmed {
      NotSent(WithTable(st, AccountTable(st.remote.table, q, w.account)), KeysOf(st.remote.table, q), listing, w.env, i, j);
    }
  }

  lemma NotSent(st: State, k: Rekey, listing: seq<Listed>, env: Env, i: nat, j: nat)
    requires i < |listing| && j < |listing| && i - i % BATCH_SIZE <= j && Distinct(listing) && Quiet(env)
    requires !GoesThrough(k, listing[i], env.row(i))
    ensures ItemAt(BatchesFrom(st, k, listing, 0, env).0.remote.table, listing[j].uuid)
         == ItemAt(st.remote.table, listing[j].uuid)
  {
    var u, b := listing[j].uuid, i - i % BATCH_SIZE;
    var inv := (d: nat, s: State) => Before(d, b) && SameItem(s, st, u);
    var stopped := (s: State, e: Option<Stage>) => SameItem(s, st, u);
    forall d: nat, s: State | d < |listing| && inv(d, s)
      ensures KeptByBatch(s, k, listing, d, env, inv, stopped)
    {
      NotSentStep(s, k, listing, d, env, b, i, j);
    }
    BatchesKeep(st, k, listing, 0, env, inv, stopped);
  }

  ghost predicate Before(d: nat, b: nat) {
    d % BATCH_SIZE == 0 && d <= b
  }

  ghost predicate SameItem(a: State, b: State, u: Uuid) {
    ItemAt(a.remote.table, u) == ItemAt(b.remote.table, u)
  }

  lemma NotSentStep(s: State, k: Rekey, listing: seq<Listed>, d: nat, env: Env, b: nat, i: nat, j: nat)
    requires d < |listing| && b <= i < |listing| && b <= j < |listing| && i < b + BATCH_SIZE && b % BATCH_SIZE == 0
    requires Before(d, b) && Distinct(listing) && Quiet(env) && !GoesThrough(k, listing[i], env.row(i))
    ensures var r := RotateBatch(s, k, BatchAt(listing, d), d, env);
            (r.1 == None ==> Before(d + |BatchAt(listing, d)|, b)) && SameItem(r.0, s, listing[j].uuid)
  {
    if d < b {
      LaterBatchUntouched(s, k, listing, d, env, j);
    } else {
      FailingBatch(s, k, listing, d, env, i);
    }
  }

  lemma {:induction false} PushedRow(rem: Remote, items: seq<PushItem>, i: nat, limit: nat, base: nat, env: Env, j: nat)
    requires i <= j < limit <= |items| && Quiet(env) && DistinctItems(items)
    requires items[j].gen >= rem.table.minGen && items[j].target == rem.table.VersionOf(items[j].uuid)
    ensures var t, p := PushFrom(rem, items, i, limit, base, env).0.table, items[j];
            p.uuid in t.items && t.items[p.uuid] == Item(p.target + 1, p.gen, p.body, t.items[p.uuid].seqno)
    decreases limit - i
  {
    assert OtherWrites(rem, env.row(base + i).beforePush) == rem;
    var rem' := OwnPush(rem, items[i]).0;
    if i < j {
      PushedRow(rem', items, i + 1, limit, base, env, j);
    } else {
      QuietPushKeeps(rem', items, i + 1, limit, base, env, items[j].uuid);
    }
  }

  /** A request that breaks has written what the server handled of it: with no other writer, the first
      `handled` rows whose version is the server's are there under the new key, the rest is untouched. */
  lemma BrokenRequestWrites(st: State, k: Rekey, batch: seq<Listed>, base: nat, env: Env, j: nat)
    requires j < |batch| && Distinct(batch) && Quiet(env) && k.gen >= st.remote.table.minGen
    requires env.batch(base).Broken? && forall i | 0 <= i < |batch| :: GoesThrough(k, batch[i], env.row(base + i))
    ensures var r, b, s := batch[j], RotateBatch(st, k, batch, base, env), st.remote.table;
            && b.1 == Some(PushRequest)
            && var t := b.0.remote.table;
               if j < env.batch(base).handled && s.VersionOf(r.uuid) == r.version then
                 r.uuid in t.items && t.items[r.uuid].version == r.version + 1 && t.items[r.uuid].gen == k.gen
                 && t.items[r.uuid].body == Live(NewPayload(k, r.uuid, r.payload.content))
               else ItemAt(t, r.uuid) == ItemAt(s, r.uuid)
  {
    var n := ReencryptStops(st.rows, k, batch, 0, base, env);
    assert n == |batch|;
    ReencryptItems(st.rows, k, batch, 0, base, env);
    var items := ReencryptFrom(st.rows, k, batch, 0, base, env).1;
    assert forall i | 0 <= i < |items| :: items[i] == ItemOf(k, batch[0 + i]);
    assert GoesThrough(k, batch[j], env.row(base + j));
    BrokenPushWrites(st.remote, items, env.batch(base).handled, base, env, j);
  }

  lemma BrokenPushWrites(rem: Remote, items: seq<PushItem>, handled: nat, base: nat, env: Env, j: nat)
    requires j < |items| && Quiet(env) && DistinctItems(items) && items[j].gen >= rem.table.minGen
    ensures var p := items[j];
            var t := PushFrom(rem, items, 0, if handled < |items| then handled else |items|, base, env).0.table;
            if j < handled && p.target == rem.table.VersionOf(p.uuid) then
              p.uuid in t.items && t.items[p.uuid] == Item(p.target + 1, p.gen, p.body, t.items[p.uuid].seqno)
            else ItemAt(t, p.uuid) == ItemAt(rem.table, p.uuid)
  {
    var limit := if handled < |items| then handled else |items|;
    if j < handled && items[j].target == rem.table.VersionOf(items[j].uuid) {
      PushedRow(rem, items, 0, limit, base, env, j);
    } else {
      QuietPushKeeps(rem, items, 0, limit, base, env, items[j].uuid);
    }
  }

  // ------------------------------------------------------------------- the account

  /** Once the account request reached the server, the gate is at the larger generation for good, and
      nothing sealed for an older one is taken any more, whatever became of the rest. */
  lemma RotationRaisesTheGate(st: State, q: Request, listing: seq<Listed>, w: Weather, p: PushItem)
    ensures var t, t' := st.remote.table, Rotate(st, q, listing, w).0.remote.table;
            && t'.minGen == (if w.account == Lost || q.newGen <= t.minGen then t.minGen else q.newGen)
            && (w.account != Lost && p.gen < q.newGen ==> t'.Push(p) == (t', EpochTooOld))
            && ConfirmedGen(t, q) == (if t.minGen < q.newGen then q.newGen else t.minGen)
  {
    if w.account == Confirmed {
      var st1 := WithTable(st, AccountTable(st.remote.table, q, w.account));
      BatchesAccount(st1, KeysOf(st.remote.table, q), listing, 0, w.env);
    }
  }
}
