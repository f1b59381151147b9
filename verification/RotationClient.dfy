/** `rotate_key` as it runs, proved to compute `RotationMeaning.Rotate`. */
module RotationClient {
  import opened Common
  import opened Crypto
  import opened LocalDb
  import opened Server
  import opened Rotation
  import opened RotationMeaning

  /** Refused before anything was done, or ended: at a stage that failed, or with the keys promoted. */
  datatype Result = Refused | Ended(failed: Option<Stage>)

  class Client {
    var rows: Rows
    var table: Table
    ghost var meaning: map<Uuid, Option<string>>
    ghost var touched: set<Uuid>
    var locked: bool
    var connected: bool
    var userId: Option<Uuid>
    var mk: Option<MasterKey>
    var svk: Option<Svk>
    var dek: Option<Key>
    var localGen: nat
    var localBlob: Option<WrappedSvk>

    constructor (rows: Rows, table: Table, connected: bool, userId: Option<Uuid>,
                 locked: bool, mk: Option<MasterKey>, svk: Option<Svk>, localGen: nat)
      ensures View() == State(rows, Remote(table, map[], {}))
      ensures this.connected == connected && this.userId == userId
      ensures this.locked == locked && this.mk == mk && this.svk == svk && this.localGen == localGen
    {
      this.rows, this.table, this.meaning, this.touched := rows, table, map[], {};
      this.connected, this.userId, this.locked, this.mk, this.svk := connected, userId, locked, mk, svk;
      this.dek := if svk.Some? then Some(Dek(svk.value)) else None;
      this.localGen, this.localBlob := localGen, None;
    }

    ghost function Far(): Remote
      reads this`table, this`meaning, this`touched
    {
      Remote(table, meaning, touched)
    }

    ghost function View(): State
      reads this`rows, this`table, this`meaning, this`touched
    {
      State(rows, Far())
    }

    /** Writes of other devices, one after the other. */
    method Interference(ps: seq<PushItem>)
      modifies this`table, this`meaning, this`touched
      ensures Far() == old(OtherWrites(Far(), ps))
    {
      ghost var result := OtherWrites(Far(), ps);
      for i := 0 to |ps|
        invariant OtherWrites(Far(), ps[i..]) == result
      {
        var p := ps[i];
        assert ps[i..][0] == p && ps[i..][1..] == ps[i + 1..];
        if table.Accepts(p) {
          table := table.Write(p);
          meaning, touched := meaning[p.uuid := Content(p.body)], touched + {p.uuid};
        }
      }
    }

    /** `list_rotation_items`: repeatedly take a remaining row of lowest generation. */
    method ListRotationItems(gen: nat) returns (listing: seq<Listed>)
      ensures IsListing(rows, gen, listing)
    {
      listing := [];
      var todo := set u | u in rows && Selected(rows, u, gen);
      while todo != {}
        invariant forall u | u in todo :: Selected(rows, u, gen)
        invariant forall u | Selected(rows, u, gen) ::
                    u in todo || exists i :: 0 <= i < |listing| && listing[i].uuid == u
        invariant forall i | 0 <= i < |listing| ::
                    var r := listing[i];
                    && Selected(rows, r.uuid, gen) && r.uuid !in todo
                    && r == Listed(r.uuid, rows[r.uuid].version, rows[r.uuid].gen, rows[r.uuid].payload)
        invariant forall i, j | 0 <= i < j < |listing| ::
                    listing[i].uuid != listing[j].uuid && listing[i].gen <= listing[j].gen
        invariant forall i, u | 0 <= i < |listing| && u in todo :: listing[i].gen <= rows[u].gen
        decreases todo
      {
        ghost var lowest := LowestExists(rows, todo);
        var u :| u in todo && forall v | v in todo :: rows[u].gen <= rows[v].gen;
        var r := Listed(u, rows[u].version, rows[u].gen, rows[u].payload);
        ghost var before := listing;
        listing := listing + [r];
        todo := todo - {u};
        assert forall i | 0 <= i < |before| :: listing[i] == before[i];
        assert listing[|before|].uuid == u;
      }
    }

    method ReencryptBatch(k: Rekey, batch: seq<Listed>, base: nat, env: Env) returns (items: seq<PushItem>, e: Option<Stage>)
      modifies this`rows
      ensures (rows, items, e) == ReencryptFrom(old(rows), k, batch, 0, base, env)
    {
      items := [];
      ghost var result := ReencryptFrom(rows, k, batch, 0, base, env);
      for i := 0 to |batch|
        invariant var (r, more, err) := ReencryptFrom(rows, k, batch, i, base, env);
                  result.0 == r && result.1 == items + more && result.2 == err
      {
        var r := batch[i];
        var plain := Open(Dek(k.oldSvk), r.uuid, r.gen, r.payload);
        if plain.None? {
          assert items + [] == items;
          return items, Some(Decrypt);
        }
        if !env.row(base + i).persistOk {
          assert items + [] == items;
          return items, Some(Persist);
        }
        var sealed := NewPayload(k, r.uuid, plain.value);
        if r.uuid in rows {
          rows := rows[r.uuid := rows[r.uuid].(gen := k.gen, payload := sealed)];
        }
        ghost var more := ReencryptFrom(rows, k, batch, i + 1, base, env).1;
        var item := PushItem(r.uuid, r.version, k.gen, Live(sealed));
        assert items + ([item] + more) == (items + [item]) + more;
        items := items + [item];
      }
      assert items + [] == items;
      e := None;
    }

    method PushOne(item: PushItem, writes: seq<PushItem>) returns (o: PushOutcome)
      modifies this`table, this`meaning, this`touched
      ensures (Far(), o) == OwnPush(OtherWrites(old(Far()), writes), item)
    {
      Interference(writes);
      var (t, outcome) := table.Push(item);
      table, o := t, outcome;
    }

    method PushBatch(items: seq<PushItem>, limit: nat, base: nat, env: Env) returns (outcomes: seq<PushOutcome>)
      requires limit <= |items|
      modifies this`table, this`meaning, this`touched
      ensures (Far(), outcomes) == old(PushFrom(Far(), items, 0, limit, base, env))
    {
      outcomes := [];
      ghost var result := PushFrom(Far(), items, 0, limit, base, env);
      for i := 0 to limit
        invariant var (far, more) := PushFrom(Far(), items, i, limit, base, env);
                  result.0 == far && result.1 == outcomes + more
      {
        var o := PushOne(items[i], env.row(base + i).beforePush);
        ghost var more := PushFrom(Far(), items, i + 1, limit, base, env).1;
        assert outcomes + ([o] + more) == (outcomes + [o]) + more;
        outcomes := outcomes + [o];
      }
      assert outcomes + [] == outcomes;
    }

    method Settle(k: Rekey, r: Listed, version: nat, t: RowTurn) returns (ok: bool)
      modifies this`table, this`meaning, this`touched
      ensures (Far(), ok) == old(SettleConflict(Far(), k, r, version, t))
    {
      Interference(t.beforeFetch);
      var fetched := if t.fetchOk then table.Fetch(r.uuid, version) else None;
      if fetched.None? {
        return false;
      }
      var plain := Open(Dek(k.oldSvk), r.uuid, r.gen, fetched.value);
      if plain.None? {
        return false;
      }
      Interference(t.beforeRetry);
      var (after, o) := table.Push(PushItem(r.uuid, version, k.gen, Live(NewPayload(k, r.uuid, plain.value))));
      table := after;
      ok := o == Applied && t.retryOk;
    }

    method SettleOutcomes(k: Rekey, batch: seq<Listed>, outcomes: seq<PushOutcome>, base: nat, env: Env) returns (e: Option<Stage>)
      requires |outcomes| == |batch|
      modifies this`table, this`meaning, this`touched
      ensures (Far(), e) == old(SettleFrom(Far(), k, batch, outcomes, 0, base, env))
    {
      ghost var result := SettleFrom(Far(), k, batch, outcomes, 0, base, env);
      for i := 0 to |batch|
        invariant SettleFrom(Far(), k, batch, outcomes, i, base, env) == result
      {
        match outcomes[i] {
          case Applied =>
          case EpochTooOld =>
            return Some(EpochRejected);
          case Conflict(version) =>
            var ok := Settle(k, batch[i], version, env.row(base + i));
            if !ok {
              return Some(ConflictUnsettled);
            }
        }
      }
      e := None;
    }

    method OneBatch(k: Rekey, batch: seq<Listed>, base: nat, env: Env) returns (e: Option<Stage>)
      modifies this`rows, this`table, this`meaning, this`touched
      ensures (View(), e) == old(RotateBatch(View(), k, batch, base, env))
    {
      ReencryptCount(rows, k, batch, 0, base, env);
      var items, failed := ReencryptBatch(k, batch, base, env);
      if failed != None {
        return failed;
      }
      match env.batch(base) {
        case Broken(handled) =>
          var _ := PushBatch(items, if handled < |items| then handled else |items|, base, env);
          e := Some(PushRequest);
        case Delivered =>
          PushFromCount(Far(), items, 0, |items|, base, env);
          var outcomes := PushBatch(items, |items|, base, env);
          e := SettleOutcomes(k, batch, outcomes, base, env);
      }
    }

    method AllBatches(k: Rekey, listing: seq<Listed>, env: Env) returns (e: Option<Stage>)
      modifies this`rows, this`table, this`meaning, this`touched
      ensures (View(), e) == old(BatchesFrom(View(), k, listing, 0, env))
    {
      ghost var result := BatchesFrom(View(), k, listing, 0, env);
      var c := 0;
      while true
        invariant BatchesFrom(View(), k, listing, c, env) == result
        decreases |listing| - c
      {
        var batch := BatchAt(listing, c);
        if batch == [] {
          return None;
        }
        var failed := OneBatch(k, batch, c, env);
        if failed != None {
          return failed;
        }
        c := c + |batch|;
      }
    }

    /** Everything up to the promotion of the keys. */
    method MoveEverything(q: Request, w: Weather) returns (failed: Option<Stage>, ghost listing: seq<Listed>)
      modifies this`rows, this`table, this`meaning, this`touched
      ensures IsListing(old(rows), ConfirmedGen(old(table), q), listing)
      ensures (View(), failed) == Rotate(Begin(old(rows), old(table)), q, listing, w)
    {
      var k := KeysOf(table, q);
      meaning, touched := StartMeaning(rows, table), {};
      table := AccountTable(table, q, w.account);
      var rowsToMove := ListRotationItems(k.gen);
      listing := rowsToMove;
      if w.account != Confirmed {
        return Some(AccountStep), listing;
      }
      failed := AllBatches(k, rowsToMove, w.env);
      if failed == None && !w.blobStored {
        failed := Some(StoreBlob);
      }
    }

    /** The keys change hands only at the very end; an earlier stop leaves the session as it was. */
    method RotateKey(newSvk: Svk, newGen: nat, w: Weather) returns (result: Result, ghost listing: seq<Listed>)
      modifies this
      ensures result.Refused? <==> old(locked || !connected || userId.None? || mk.None? || svk.None?)
      ensures result.Refused? ==> View() == old(View())
      ensures !result.Refused? ==>
                var q := Request(old(mk).value, old(svk).value, newSvk, newGen);
                && IsListing(old(rows), ConfirmedGen(old(table), q), listing)
                && (View(), result.failed) == Rotate(Begin(old(rows), old(table)), q, listing, w)
      ensures result == Ended(None) ==>
                && svk == Some(newSvk) && dek == Some(Dek(newSvk))
                && localGen == ConfirmedGen(old(table), Request(old(mk).value, old(svk).value, newSvk, newGen))
                && localBlob == Some(WrapSvk(old(mk).value, newSvk))
      ensures result != Ended(None) ==> svk == old(svk) && dek == old(dek) && localGen == old(localGen)
      ensures mk == old(mk) && locked == old(locked) && connected == old(connected) && userId == old(userId)
    {
      listing := [];
      if locked || !connected || userId.None? || mk.None? || svk.None? {
        return Refused, [];
      }
      var q := Request(mk.value, svk.value, newSvk, newGen);
      var gen := ConfirmedGen(table, q);
      var failed;
      failed, listing := MoveEverything(q, w);
      if failed == None {
        localBlob := Some(q.Blob());
        localGen := gen;
        svk, dek := Some(newSvk), Some(Dek(newSvk));
      }
      result := Ended(failed);
    }
  }

  lemma LowestExists(rows: Rows, todo: set<Uuid>) returns (best: Uuid)
    requires todo != {} && forall u | u in todo :: u in rows
    ensures best in todo && forall v | v in todo :: rows[best].gen <= rows[v].gen
    decreases todo
  {
    var u :| u in todo;
    var rest := todo - {u};
    best := u;
    if rest != {} {
      var m := LowestExists(rows, rest);
      best := if rows[u].gen <= rows[m].gen then u else m;
    }
    forall v | v in todo
      ensures rows[best].gen <= rows[v].gen
    {
      assert v == u || v in rest;
    }
  }
}
