/** Settling a reported conflict: keep the server's side, or force the local one. */
module Resolution {
  import opened Common
  import opened Crypto
  import opened LocalDb
  import opened Server
  import opened Pushing
  import Sync

  datatype World = World(server: Table, rows: Rows, cursor: nat, durable: nat, localGen: nat)

  /** Others' writes before the request, the fate of the request, and whether the local transaction
      succeeds.  A forced push may be carried out without its answer coming back. */
  datatype ResolveTurn = ResolveTurn(writes: seq<PushItem>, request: Delivery, persistOk: bool)

  function KeepServer(w: World, u: Uuid, version: nat, t: ResolveTurn): (World, bool) {
    var s := w.server.PushAll(t.writes);
    var fetched := s.Fetch(u, version);
    if t.request.Broken? || fetched.None? || !t.persistOk then (w.(server := s), false)
    else
      var up := Sync.Upsert(Sync.Overview(u, version, w.localGen, false), fetched.value);
      (w.(server := s, rows := Sync.ApplyBatch(w.rows, [up], []), durable := w.cursor), true)
  }

  function ForceLocal(w: World, u: Uuid, version: nat, t: ResolveTurn): (World, bool) {
    var s := w.server.PushAll(t.writes);
    if u !in w.rows || t.request == Broken(0) then (w.(server := s), false)
    else
      var (s', o) := s.Push(Forced(w, u, version));
      (w.(server := s'), o == Applied && t.request.Delivered?)
  }

  /** The local row, pushed at the server's version. */
  function Forced(w: World, u: Uuid, version: nat): PushItem
    requires u in w.rows
  {
    LocalItem(w.rows, u).(target := version)
  }

  function Resolve(w: World, u: Uuid, version: nat, force: bool, t: ResolveTurn): (World, bool) {
    if force then ForceLocal(w, u, version, t) else KeepServer(w, u, version, t)
  }

  lemma OneUpsert(rows: Rows, up: Sync.Upsert)
    ensures var u := up.overview.uuid;
            var created := if u in rows then rows[u].createdAt else 0;
            (Sync.ApplyBatch(rows, [up], [])
             == rows[u := Row(up.overview.version, up.overview.gen, false, created, up.payload)])
  {
    var gone: set<Uuid> := set v | v in [];
    assert rows - gone == rows;
    assert [up][1..] == [];
    var u := up.overview.uuid;
    var created := if u in rows then rows[u].createdAt else 0;
    var after := rows[u := Row(up.overview.version, up.overview.gen, false, created, up.payload)];
    assert Sync.Upserted(after, []) == after;
  }

  /** Either choice that returns Ok leaves both sides with one payload for the item and touches
      nothing else; the in-memory cursor stays. */
  lemma ResolutionAgrees(w: World, u: Uuid, version: nat, force: bool, t: ResolveTurn)
    requires Resolve(w, u, version, force, t).1
    ensures var w' := Resolve(w, u, version, force, t).0;
            var s := w.server.PushAll(t.writes);
            && u in w'.rows && u in w'.server.items && w'.server.items[u].body == Live(w'.rows[u].payload)
            && w'.cursor == w.cursor && w'.durable == (if force then w.durable else w.cursor)
            && (u in w.rows ==> w'.rows[u].createdAt == w.rows[u].createdAt)
            && (forall v | v != u :: ItemAt(w'.server, v) == ItemAt(s, v))
            && w'.rows - {u} == w.rows - {u}
            && (if force then w'.rows == w.rows && w'.server.items[u].version == version + 1
                else w'.server == s && w'.rows[u].version == version == s.items[u].version)
  {
    if !force {
      var up := Sync.Upsert(Sync.Overview(u, version, w.localGen, false), w.server.PushAll(t.writes).Fetch(u, version).value);
      OneUpsert(w.rows, up);
    }
  }

  /** The local side was forced, the server took it, and the answer was lost. */
  ghost predicate AppliedUnheard(w: World, u: Uuid, version: nat, force: bool, t: ResolveTurn) {
    && force && u in w.rows && t.request.Broken? && t.request.handled > 0
    && w.server.PushAll(t.writes).Accepts(Forced(w, u, version))
  }

  /** A choice that does not return Ok leaves rows and cursors alone.  It changes the server exactly
      when a forced push was accepted and its answer lost, and then both sides already agree. */
  lemma FailedResolutionChangesTheServerIff(w: World, u: Uuid, version: nat, force: bool, t: ResolveTurn)
    requires !Resolve(w, u, version, force, t).1
    ensures var w' := Resolve(w, u, version, force, t).0;
            var s := w.server.PushAll(t.writes);
            && w' == w.(server := w'.server)
            && (w'.server != s <==> AppliedUnheard(w, u, version, force, t))
            && (forall v | v != u :: ItemAt(w'.server, v) == ItemAt(s, v))
            && (AppliedUnheard(w, u, version, force, t) ==>
                  u in w'.server.items && w'.server.items[u].version == version + 1
                  && w'.server.items[u].body == Live(w.rows[u].payload))
  {
    var s := w.server.PushAll(t.writes);
    if AppliedUnheard(w, u, version, force, t) {
      assert s.Write(Forced(w, u, version)).lastSeq == s.lastSeq + 1;
    }
  }

  /** After a lost answer, forcing again at the same version is refused although nothing is left to do. */
  lemma RetryAfterLostAnswer(w: World, u: Uuid, version: nat, t: ResolveTurn, again: ResolveTurn)
    requires AppliedUnheard(w, u, version, true, t) && again.writes == []
    ensures var w' := Resolve(w, u, version, true, t).0;
            Resolve(w', u, version, true, again) == (w', false)
  {
    var w' := Resolve(w, u, version, true, t).0;
    assert w'.server.PushAll([]) == w'.server && w'.server.VersionOf(u) == version + 1;
  }

  /** What was reported is still true of the table the push left behind. */
  lemma {:induction false} ReportedVersionsStand(s: Table, r: Table, items: seq<PushItem>, i: nat, env: Env, toxic: set<Uuid>, e: Event)
    requires i <= |items| && Quiet(env) && Pushed(s, r, items, 0, |items|)
    requires e in ExpectedFrom(s, items, i, |items|, env, toxic)
    ensures exists j :: i <= j < |items| && items[j].uuid == e.uuid && items[j].target == e.localVersion
                        && items[j].gen >= r.minGen
    ensures r.VersionOf(e.uuid) == e.serverVersion != e.localVersion && ItemAt(r, e.uuid) == ItemAt(s, e.uuid)
    decreases |items| - i
  {
    QuietOthers(s, env, i);
    if i < |items| {
      assert RowAfter(s, r, items[i]);
      if e !in ExpectedFrom(s, items, i + 1, |items|, env, toxic) {
        assert ConflictsAt(s, items[i]) && items[i].uuid == e.uuid;
      } else {
        ReportedVersionsStand(s, r, items, i + 1, env, toxic, e);
      }
    }
  }

  /** With nobody else writing: forcing works exactly at the server's version with a key the server
      still takes, keeping the server's side exactly at the version of a live item. */
  lemma SettlesIff(w: World, u: Uuid, version: nat, t: ResolveTurn)
    requires t.writes == [] && t.request.Delivered? && t.persistOk
    ensures Resolve(w, u, version, true, t).1
            <==> u in w.rows && w.rows[u].gen >= w.server.minGen && version == w.server.VersionOf(u)
    ensures Resolve(w, u, version, false, t).1
            <==> u in w.server.items && w.server.items[u].body.Live? && version == w.server.VersionOf(u)
  {
    assert w.server.PushAll([]) == w.server;
  }

  /** A reported conflict, in terms of the local rows and the table the push left behind. */
  lemma ReportedRow(s: Table, rows: Rows, items: seq<PushItem>, env: Env, toxic: set<Uuid>, e: Event)
    requires ListsRows(items, rows) && Quiet(env) && AnsweredFrom(items, 0, env) == |items|
    requires e in PushRowsFrom(s, items, 0, env, toxic).1
    ensures var t := PushRowsFrom(s, items, 0, env, toxic).0;
            && e.uuid in rows && rows[e.uuid].version == e.localVersion && rows[e.uuid].gen >= t.minGen
            && t.VersionOf(e.uuid) == e.serverVersion != e.localVersion
            && ItemAt(t, e.uuid) == ItemAt(s, e.uuid)
  {
    var t := PushRowsFrom(s, items, 0, env, toxic).0;
    WritesExactlyTheAccepted(s, items, 0, env, toxic);
    PublishesExactlyTheConflicts(s, items, env, toxic);
    ReportedVersionsStand(s, t, items, 0, env, toxic, e);
  }

  /** Push, then settle a reported conflict with nobody else writing: forcing the local side always
      works, and keeping the server's works exactly when the server holds a live item. */
  lemma ReportedConflictsCanBeSettled(w: World, items: seq<PushItem>, env: Env, toxic: set<Uuid>, e: Event, t: ResolveTurn)
    requires ListsRows(items, w.rows) && Quiet(env) && AnsweredFrom(items, 0, env) == |items|
    requires e in PushRowsFrom(w.server, items, 0, env, toxic).1
    requires t.writes == [] && t.request.Delivered? && t.persistOk
    ensures var w' := w.(server := PushRowsFrom(w.server, items, 0, env, toxic).0);
            && Resolve(w', e.uuid, e.serverVersion, true, t).1
            && (Resolve(w', e.uuid, e.serverVersion, false, t).1
                <==> e.uuid in w.server.items && w.server.items[e.uuid].body.Live?)
  {
    ReportedRow(w.server, w.rows, items, env, toxic, e);
    SettlesIff(w.(server := PushRowsFrom(w.server, items, 0, env, toxic).0), e.uuid, e.serverVersion, t);
  }

  /** Keeping the server's side stores it at the session's generation: it can be read afterwards
      exactly when the server's payload is of that generation. */
  lemma KeptServerSideReadableIff(w: World, u: Uuid, version: nat, t: ResolveTurn, dek: Key)
    requires Resolve(w, u, version, false, t).1
    requires var p := w.server.PushAll(t.writes).items[u].body.payload; p.key == dek && p.ad == u
    ensures var rows := Resolve(w, u, version, false, t).0.rows;
            u in rows && (Open(dek, u, rows[u].gen, rows[u].payload).Some? <==> rows[u].payload.gen == w.localGen)
  {
    ResolutionAgrees(w, u, version, false, t);
    var up := Sync.Upsert(Sync.Overview(u, version, w.localGen, false), w.server.PushAll(t.writes).Fetch(u, version).value);
    OneUpsert(w.rows, up);
  }

  /** After a settled conflict the next push reports the item again exactly when the local side was
      forced and the row's version, which is not updated, is not by luck the server's new one. */
  lemma SettledConflictReturnsIff(
    w: World, u: Uuid, version: nat, force: bool, t: ResolveTurn, items: seq<PushItem>, env: Env, toxic: set<Uuid>)
    requires Resolve(w, u, version, force, t).1
    requires ListsRows(items, Resolve(w, u, version, force, t).0.rows)
    requires Quiet(env) && AnsweredFrom(items, 0, env) == |items|
    ensures var w' := Resolve(w, u, version, force, t).0;
            (exists e :: e in PushRowsFrom(w'.server, items, 0, env, toxic).1 && e.uuid == u)
            <==> force && w.rows[u].version != version + 1
  {
    var w' := Resolve(w, u, version, force, t).0;
    ResolutionAgrees(w, u, version, force, t);
    var j :| 0 <= j < |items| && items[j].uuid == u;
    QuietOthers(w'.server, env, j);
    ReportedIff(w'.server, items, env, toxic, j);
  }
}
