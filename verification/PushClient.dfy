/** `push_local_changes` and `resolve_conflict` as they run. */
module PushClient {
  import opened Common
  import opened Crypto
  import opened LocalDb
  import opened Server
  import opened Pushing
  import opened PendingDeletes
  import opened Resolution
  import Sync

  datatype Status = Ok | Locked | NotConnected | ListFailed | RequestFailed

  /** Environment decisions of one push: the deletions' request, then the rows' requests. */
  datatype PushTurn = PushTurn(pendingReadable: bool, pendingEnv: Env, clearOk: bool, listOk: bool, env: Env)

  class Client {
    var locked: bool
    var connected: bool
    var server: Table
    var rows: Rows
    var pending: seq<Recorded>
    var cursor: nat
    var durable: nat
    var localGen: nat
    var bus: seq<Event>
    const toxic: set<Uuid>

    constructor (world: World, pending: seq<Recorded>, toxic: set<Uuid>)
      ensures State() == world && this.pending == pending && this.toxic == toxic
      ensures !locked && connected && bus == []
    {
      locked, connected := false, true;
      server, rows, cursor, durable, localGen := world.server, world.rows, world.cursor, world.durable, world.localGen;
      this.pending, this.toxic, bus := pending, toxic, [];
    }

    ghost function State(): World
      reads this
    {
      World(server, rows, cursor, durable, localGen)
    }

    /** The server's side of a request: item by item, each under the concurrency check. */
    method HandleRequest(items: seq<PushItem>, c: nat, limit: nat, env: Env) returns (outcomes: seq<PushOutcome>)
      requires c <= limit <= |items|
      modifies this`server
      ensures (server, outcomes) == HandleFrom(old(server), items, c, limit, env)
      ensures |outcomes| == limit - c
    {
      ghost var result := HandleFrom(server, items, c, limit, env);
      outcomes := [];
      assert outcomes + result.1 == result.1;
      for i := c to limit
        invariant |outcomes| == i - c
        invariant var (t, rest) := HandleFrom(server, items, i, limit, env); (t, outcomes + rest) == result
      {
        var (t, o) := server.PushAll(env.before(i)).Push(items[i]);
        ghost var rest := HandleFrom(t, items, i + 1, limit, env).1;
        assert outcomes + ([o] + rest) == (outcomes + [o]) + rest;
        server := t;
        outcomes := outcomes + [o];
      }
      assert outcomes + [] == outcomes;
    }

    /** The version of the first row of the chunk with this uuid. */
    method LocalVersion(items: seq<PushItem>, c: nat, end: nat, u: Uuid, otherwise: nat) returns (v: nat)
      requires c <= end <= |items|
      ensures (exists i :: c <= i < end && items[i].uuid == u && v == items[i].target
                           && forall j | c <= j < i :: items[j].uuid != u)
              || ((forall i | c <= i < end :: items[i].uuid != u) && v == otherwise)
    {
      for i := c to end
        invariant forall j | c <= j < i :: items[j].uuid != u
      {
        if items[i].uuid == u {
          return items[i].target;
        }
      }
      v := otherwise;
    }

    /** Publish the conflicts of one answered request. */
    method PublishConflicts(items: seq<PushItem>, c: nat, outcomes: seq<PushOutcome>)
      requires c + |outcomes| <= |items| && Distinct(items)
      modifies this`bus
      ensures bus == old(bus) + Report(items, c, outcomes, toxic)
    {
      ghost var result := bus + Report(items, c, outcomes, toxic);
      assert outcomes[0..] == outcomes;
      for i := 0 to |outcomes|
        invariant bus + Report(items, c + i, outcomes[i..], toxic) == result
      {
        var p := items[c + i];
        assert outcomes[i..][0] == outcomes[i] && outcomes[i..][1..] == outcomes[i + 1..];
        if outcomes[i].Conflict? {
          var v := LocalVersion(items, c, c + |outcomes|, p.uuid, outcomes[i].serverVersion);
          assert v == p.target;
          bus := bus + [ConflictDetected(p.uuid, v, outcomes[i].serverVersion, p.uuid in toxic)];
        }
      }
      assert bus + [] == bus;
    }

    method FlushTombstones(env: Env, clearOk: bool)
      modifies this`server, this`pending
      ensures (server, pending) == FlushPending(old(server), old(pending), env, clearOk)
    {
      if 0 < |pending| <= MAX_BATCH {
        var outcomes := HandleRequest(Tombstones(pending), 0, Handled(0, |pending|, env.request(0)), env);
        if env.request(0).Delivered? && clearOk && AllApplied(outcomes) {
          pending := [];
        }
      }
    }

    /** One request of up to 100 rows: what is left to do afterwards completes the whole. */
    method PushChunk(listing: seq<PushItem>, c: nat, env: Env) returns (ok: bool)
      requires c < |listing| && Distinct(listing)
      modifies this`server, this`bus
      ensures ok == env.request(c).Delivered?
      ensures var (t, events, answered) := PushRowsFrom(old(server), listing, c, env, toxic);
              if ok then
                var (t', events', answered') := PushRowsFrom(server, listing, ChunkEnd(c, |listing|), env, toxic);
                t == t' && answered == answered' && old(bus) + events == bus + events'
              else t == server && !answered && old(bus) + events == bus
    {
      var end := ChunkEnd(c, |listing|);
      var outcomes := HandleRequest(listing, c, Handled(c, end, env.request(c)), env);
      ok := env.request(c).Delivered?;
      if ok {
        PublishConflicts(listing, c, outcomes);
        ghost var later := PushRowsFrom(server, listing, end, env, toxic).1;
        assert old(bus) + (Report(listing, c, outcomes, toxic) + later) == bus + later;
      } else {
        assert bus + [] == bus;
      }
    }

    method PushRows(listing: seq<PushItem>, env: Env) returns (ok: bool)
      requires Distinct(listing)
      modifies this`server, this`bus
      ensures var (t, events, answered) := PushRowsFrom(old(server), listing, 0, env, toxic);
              server == t && bus == old(bus) + events && ok == answered
    {
      ghost var (t, events, answered) := PushRowsFrom(server, listing, 0, env, toxic);
      ghost var published := bus + events;
      var c: nat := 0;
      while c < |listing|
        invariant c <= |listing|
        invariant PushRowsFrom(server, listing, c, env, toxic).0 == t
        invariant PushRowsFrom(server, listing, c, env, toxic).2 == answered
        invariant bus + PushRowsFrom(server, listing, c, env, toxic).1 == published
      {
        ok := PushChunk(listing, c, env);
        if !ok {
          return;
        }
        c := ChunkEnd(c, |listing|);
      }
      assert bus + [] == bus;
      ok := true;
    }

    /** Deletions first, then every row the listing gives. */
    method PushLocalChanges(listing: seq<PushItem>, t: PushTurn) returns (status: Status)
      requires ListsRows(listing, rows)
      modifies this`server, this`pending, this`bus
      ensures locked || !connected ==>
                unchanged(this) && status == if locked then Locked else NotConnected
      ensures !locked && connected ==>
                var (s, kept) := if t.pendingReadable then FlushPending(old(server), old(pending), t.pendingEnv, t.clearOk)
                                 else (old(server), old(pending));
                && pending == kept
                && (!t.listOk ==> server == s && bus == old(bus) && status == ListFailed)
                && (t.listOk ==>
                      var n := AnsweredFrom(listing, 0, t.env);
                      && server == PushRowsFrom(s, listing, 0, t.env, toxic).0
                      && bus == old(bus) + ExpectedFrom(s, listing, 0, n, t.env, toxic)
                      && status == if n == |listing| then Ok else RequestFailed)
    {
      if locked {
        return Locked;
      }
      if !connected {
        return NotConnected;
      }
      if t.pendingReadable {
        FlushTombstones(t.pendingEnv, t.clearOk);
      }
      if !t.listOk {
        return ListFailed;
      }
      PublishesExactlyTheConflicts(server, listing, t.env, toxic);
      var ok := PushRows(listing, t.env);
      status := if ok then Ok else RequestFailed;
    }

    method ResolveConflict(u: Uuid, version: nat, force: bool, t: ResolveTurn) returns (ok: bool)
      modifies this`server, this`rows, this`durable
      ensures locked || !connected ==> unchanged(this) && !ok
      ensures !locked && connected ==> (State(), ok) == old(Resolve(State(), u, version, force, t))
      ensures ok ==> u in rows && u in server.items && server.items[u].body == Live(rows[u].payload)
    {
      if locked || !connected {
        return false;
      }
      ghost var w := State();
      if !force {
        server := server.PushAll(t.writes);
        var payload := server.Fetch(u, version);
        if t.request.Broken? || payload.None? || !t.persistOk {
          return false;
        }
        var created := if u in rows then rows[u].createdAt else 0;
        OneUpsert(rows, Sync.Upsert(Sync.Overview(u, version, localGen, false), payload.value));
        rows := rows[u := Row(version, localGen, false, created, payload.value)];
        durable := cursor;
        return true;
      }
      server := server.PushAll(t.writes);
      if u !in rows || t.request == Broken(0) {
        return false;
      }
      var (s, o) := server.Push(PushItem(u, version, rows[u].gen, Live(rows[u].payload)));
      server := s;
      ok := o == Applied && t.request.Delivered?;
    }
  }
}
