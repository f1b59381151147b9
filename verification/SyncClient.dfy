/** The sync loop as it runs, proved to compute `Sync.SyncSession`. */
module SyncClient {
  import opened Common
  import opened Crypto
  import opened LocalDb
  import opened Server
  import opened Sync
  import opened SyncRuns

  lemma OneMorePage(p: Progress, turns: nat -> PageTurn)
    requires p.world.server.Valid()
    ensures match OnePage(p, turns(p.pages))
            case Stop(w, r) => SyncFrom(p, turns) == (w, r)
            case Continue(q) => q.world.server.Valid() && SyncFrom(p, turns) == SyncFrom(q, turns)
  {
    OnePageServer(p, turns(p.pages));
    OnePageEvolves(p, turns(p.pages));
  }

  class Client {
    var server: Table
    var rows: Rows
    var durable: nat
    var cursor: nat
    var ignored: set<Uuid>

    constructor (server: Table, rows: Rows, durable: nat, ignored: set<Uuid>)
      ensures State() == World(server, rows, durable, durable, ignored)
    {
      this.server, this.rows, this.durable, this.cursor, this.ignored := server, rows, durable, durable, ignored;
    }

    ghost function State(): World
      reads this
    {
      World(server, rows, durable, cursor, ignored)
    }

    /** Download what the page lists; deletions are collected, ignored items skipped. */
    method CollectPage(page: seq<Overview>, fetch: nat -> FetchTurn)
      returns (upserts: seq<Upsert>, deletes: seq<Uuid>, failed: bool)
      requires server.Valid()
      modifies this`server
      ensures Collected(server, upserts, deletes, failed)
           == CollectFrom(Collected(old(server), [], [], false), page, 0, ignored, fetch)
      ensures server.Valid()
    {
      upserts, deletes, failed := [], [], false;
      ghost var result := CollectFrom(Collected(server, [], [], false), page, 0, ignored, fetch);
      for i := 0 to |page|
        invariant server.Valid()
        invariant CollectFrom(Collected(server, upserts, deletes, failed), page, i, ignored, fetch) == result
      {
        var ov := page[i];
        PushAllEvolves(server, fetch(i).writes);
        server := server.PushAll(fetch(i).writes);
        if ov.uuid !in ignored {
          if ov.deleted {
            deletes := deletes + [ov.uuid];
          } else {
            var payload := server.Fetch(ov.uuid, ov.version);
            if payload.Some? && fetch(i).ok {
              upserts := upserts + [Upsert(ov, payload.value)];
            } else {
              failed := true;
            }
          }
        }
      }
    }

    /** `persist_synced_page`: one transaction for the rows and the cursor. */
    method PersistSyncedPage(upserts: seq<Upsert>, deletes: seq<Uuid>, newCursor: nat, ok: bool) returns (done: bool)
      modifies this`rows, this`durable
      ensures done == ok
      ensures ok ==> rows == ApplyBatch(old(rows), upserts, deletes) && durable == newCursor
      ensures !ok ==> rows == old(rows) && durable == old(durable)
    {
      if ok {
        var applied: Rows := rows - (set u | u in deletes);
        ghost var result := ApplyBatch(rows, upserts, deletes);
        for i := 0 to |upserts|
          invariant Upserted(applied, upserts[i..]) == result
        {
          var Upsert(ov, payload) := upserts[i];
          assert upserts[i..][0] == upserts[i] && upserts[i..][1..] == upserts[i + 1..];
          var created := if ov.uuid in applied then applied[ov.uuid].createdAt else 0;
          applied := applied[ov.uuid := Row(ov.version, ov.gen, false, created, payload)];
        }
        rows, durable := applied, newCursor;
      }
      done := ok;
    }

    /** Download and persist one pulled page; the last one moves the cursor unless something failed. */
    method AbsorbPage(page: Page, failed: bool, t: PageTurn, ghost p: Progress)
      returns (missed: bool, stop: Option<Result>)
      requires server.Valid() && p == Progress(State(), p.engine, p.pages, failed)
      modifies this`server, this`rows, this`durable, this`cursor
      ensures match FinishPage(p, page, t)
              case Continue(q) => stop == None && q == Progress(State(), page.next, p.pages + 1, missed)
              case Stop(w, r) => stop == Some(r) && State() == w
      ensures server.Valid()
    {
      var upserts, deletes, lost := CollectPage(page.overviews, t.fetch);
      missed := failed || lost;
      if upserts != [] || deletes != [] {
        var done := PersistSyncedPage(upserts, deletes, page.next, t.persistOk);
        missed := missed || !done;
      }
      if page.hasMore {
        stop := None;
      } else {
        if !missed {
          cursor := page.next;
        }
        stop := Some(Done(!missed));
      }
    }

    /** One round of the paging loop: pull, download, persist. */
    method PageRound(engine: nat, pages: nat, failed: bool, t: PageTurn, ghost p: Progress)
      returns (next: nat, missed: bool, stop: Option<Result>)
      requires server.Valid() && p == Progress(State(), engine, pages, failed)
      modifies this`server, this`rows, this`durable, this`cursor
      ensures match OnePage(p, t)
              case Continue(q) => stop == None && q == Progress(State(), next, pages + 1, missed)
              case Stop(w, r) => stop == Some(r) && State() == w
      ensures server.Valid() && (stop == None ==> pages + 1 <= MAX_PAGES)
    {
      next, missed := engine, failed;
      if pages + 1 > MAX_PAGES {
        return next, missed, Some(TooManyPages(!failed));
      }
      assert server.PushAll(t.writes).Valid() by {
        PushAllEvolves(server, t.writes);
      }
      server := server.PushAll(t.writes);
      if !t.pullOk || Expired(server, engine) {
        return next, missed, Some(PullFailed(!failed));
      }
      var page := Pull(server, engine).value;
      next := page.next;
      missed, stop := AbsorbPage(page, failed, t, Progress(State(), engine, pages, failed));
    }

    /** `sync`: needs a transport; runs one session; fails if the session stopped early or the list of
        ignored items, which is written last, could not be.  The flag that would ask for a second
        session is never raised. */
    method Sync(connected: bool, ignoredWritten: bool, turns: nat -> PageTurn, ghost edited: set<Uuid>) returns (ok: bool)
      requires Good(State(), edited)
      modifies this
      ensures !connected ==> State() == old(State()) && !ok
      ensures connected ==>
                old(server.Valid()) &&
                var (w, r) := old(SyncSession(State(), turns));
                State() == w && ok == (r.Done? && ignoredWritten)
      ensures connected ==> Good(State(), Untouched(edited, old(rows), rows))
    {
      if !connected {
        return false;
      }
      var r := Synchronize(turns, edited);
      ok := r.Done? && ignoredWritten;
    }

    /** One session: page until the server has no more; the cursor moves unless something failed. */
    method Synchronize(turns: nat -> PageTurn, ghost edited: set<Uuid>) returns (r: Result)
      requires Good(State(), edited)
      modifies this
      ensures old(server.Valid()) && (State(), r) == old(SyncSession(State(), turns))
      ensures Good(State(), Untouched(edited, old(rows), rows))
      ensures r == Done(true) ==> DurableSound(State(), Untouched(edited, old(rows), rows))
    {
      ghost var result := SyncSession(State(), turns);
      ghost var left := Untouched(edited, rows, result.0.rows);
      assert Good(result.0, left) && (result.1 == Done(true) ==> DurableSound(result.0, left)) by {
        SessionKeepsCursors(State(), edited, turns);
      }
      var engine, pages, failed := cursor, 0, false;
      while true
        invariant server.Valid() && pages <= MAX_PAGES
        invariant SyncFrom(Progress(State(), engine, pages, failed), turns) == result
        decreases MAX_PAGES - pages
      {
        OneMorePage(Progress(State(), engine, pages, failed), turns);
        var next, missed, stop := PageRound(engine, pages, failed, turns(pages), Progress(State(), engine, pages, failed));
        if stop.Some? {
          return stop.value;
        }
        engine, pages, failed := next, pages + 1, missed;
      }
    }

    /** The cursor read back at unlock; an unreadable one restarts from 0. */
    method LoadPersistedCursor(readable: bool)
      requires server.Valid()
      modifies this`cursor
      ensures old(server.Valid()) && State() == old(Step(State(), Unlock(readable)))
    {
      cursor := if readable then durable else 0;
    }
  }
}
