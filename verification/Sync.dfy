/**
 Metadata-first sync: a paged pull with per-item payload downloads, one database
 transaction per page, an in-memory cursor that is held back on any failure, and a
 durable cursor that is written with every persisted page.

 Other devices may write to the server between any two steps.
 */
module Sync {
  import opened Common
  import opened Crypto
  import opened LocalDb
  import opened Server

  const PAGE_LIMIT := 100
  const MAX_PAGES := 10_000

  // ------------------------------------------------------------------ the server's pull

  /** A metadata-only row of a pulled page. */
  datatype Overview = Overview(uuid: Uuid, version: nat, gen: nat, deleted: bool)

  datatype Page = Page(next: nat, overviews: seq<Overview>, hasMore: bool)

  /** The change numbers in use after `cursor`, ascending. */
  function Since(index: map<nat, Uuid>, cursor: nat, last: nat): (ns: seq<nat>)
    ensures forall n :: n in ns <==> cursor < n <= last && n in index
    ensures forall i, j | 0 <= i < j < |ns| :: ns[i] < ns[j]
    decreases last - cursor
  {
    if cursor >= last then []
    else if cursor + 1 in index then
      var rest := Since(index, cursor + 1, last);
      assert forall i | 0 <= i < |rest| :: rest[i] in rest;
      [cursor + 1] + rest
    else Since(index, cursor + 1, last)
  }

  function ToOverview(u: Uuid, item: Item): Overview {
    Overview(u, item.version, item.gen, item.body.Tombstone?)
  }

  /** The server answers 410 when the cursor lies before the lowest change number it holds. */
  predicate Expired(s: Table, cursor: nat) {
    s.items != map[] && forall u | u in s.items :: cursor + 1 < s.items[u].seqno
  }

  function Pull(s: Table, cursor: nat): (r: Option<Page>)
    requires s.Valid()
    ensures r.None? <==> Expired(s, cursor)
  {
    if Expired(s, cursor) then None
    else
      var ns := Since(s.index, cursor, s.lastSeq);
      var taken := if |ns| > PAGE_LIMIT then ns[..PAGE_LIMIT] else ns;
      assert forall i | 0 <= i < |taken| :: taken[i] in ns;
      var next := if taken == [] then cursor else taken[|taken| - 1];
      Some(Page(next, seq(|taken|, i requires 0 <= i < |taken| =>
                                     ToOverview(s.index[taken[i]], s.items[s.index[taken[i]]])),
                |ns| > PAGE_LIMIT))
  }

  // --------------------------------------------------------------------- one page

  /** Environment decisions: others' writes before a download, and whether the network delivers it. */
  datatype FetchTurn = FetchTurn(writes: seq<PushItem>, ok: bool)

  /** Environment decisions for one page. */
  datatype PageTurn = PageTurn(writes: seq<PushItem>, pullOk: bool, fetch: nat -> FetchTurn, persistOk: bool)

  datatype Upsert = Upsert(overview: Overview, payload: Payload)

  datatype Collected = Collected(server: Table, upserts: seq<Upsert>, deletes: seq<Uuid>, failed: bool)

  function CollectOne(c: Collected, ov: Overview, ignored: set<Uuid>, t: FetchTurn): Collected {
    var s := c.server.PushAll(t.writes);
    if ov.uuid in ignored then c.(server := s)
    else if ov.deleted then c.(server := s, deletes := c.deletes + [ov.uuid])
    else
      match s.Fetch(ov.uuid, ov.version)
      case Some(payload) =>
        if t.ok then c.(server := s, upserts := c.upserts + [Upsert(ov, payload)])
        else c.(server := s, failed := true)
      case None => c.(server := s, failed := true)
  }

  function CollectFrom(c: Collected, page: seq<Overview>, i: nat, ignored: set<Uuid>, fetch: nat -> FetchTurn): Collected
    requires i <= |page|
    decreases |page| - i
  {
    if i == |page| then c else CollectFrom(CollectOne(c, page[i], ignored, fetch(i)), page, i + 1, ignored, fetch)
  }

  /** `apply_sync_batch_txn`: deletes first, then upserts that keep an existing creation time. */
  function Upserted(rows: Rows, upserts: seq<Upsert>): Rows
    decreases |upserts|
  {
    if upserts == [] then rows
    else
      var Upsert(ov, payload) := upserts[0];
      var created := if ov.uuid in rows then rows[ov.uuid].createdAt else 0;
      Upserted(rows[ov.uuid := Row(ov.version, ov.gen, false, created, payload)], upserts[1..])
  }

  function ApplyBatch(rows: Rows, upserts: seq<Upsert>, deletes: seq<Uuid>): Rows {
    Upserted(rows - (set u | u in deletes), upserts)
  }

  // ------------------------------------------------------------------- one session

  datatype World = World(server: Table, rows: Rows, durable: nat, cursor: nat, ignored: set<Uuid>)

  /** How a session ends; `clean` says that until then no download and no page transaction failed. */
  datatype Result = Done(clean: bool) | PullFailed(clean: bool) | TooManyPages(clean: bool)

  /** Loop state: how far the engine has paged and whether anything failed so far. */
  datatype Progress = Progress(world: World, engine: nat, pages: nat, failed: bool)

  datatype PageEnd = Continue(p: Progress) | Stop(w: World, r: Result)

  function PersistPage(p: Progress, c: Collected, next: nat, persistOk: bool): Progress {
    var w := p.world.(server := c.server);
    var failed := p.failed || c.failed;
    if c.upserts == [] && c.deletes == [] then Progress(w, next, p.pages + 1, failed)
    else if persistOk then
      Progress(w.(rows := ApplyBatch(w.rows, c.upserts, c.deletes), durable := next), next, p.pages + 1, failed)
    else Progress(w, next, p.pages + 1, true)
  }

  /** Downloading and persisting a page that was just pulled. */
  function FinishPage(p: Progress, page: Page, t: PageTurn): PageEnd {
    var c := CollectFrom(Collected(p.world.server, [], [], false), page.overviews, 0, p.world.ignored, t.fetch);
    var q := PersistPage(p, c, page.next, t.persistOk);
    if page.hasMore then Continue(q)
    else Stop(if q.failed then q.world else q.world.(cursor := q.engine), Done(!q.failed))
  }

  function OnePage(p: Progress, t: PageTurn): PageEnd
    requires p.world.server.Valid()
  {
    if p.pages + 1 > MAX_PAGES then Stop(p.world, TooManyPages(!p.failed))
    else
      PushAllEvolves(p.world.server, t.writes);
      var w := p.world.(server := p.world.server.PushAll(t.writes));
      if !t.pullOk || Expired(w.server, p.engine) then Stop(w, PullFailed(!p.failed))
      else FinishPage(p.(world := w), Pull(w.server, p.engine).value, t)
  }

  lemma {:induction false} CollectEvolves(c: Collected, page: seq<Overview>, i: nat, ignored: set<Uuid>, fetch: nat -> FetchTurn)
    requires i <= |page| && c.server.Valid()
    ensures Evolves(c.server, CollectFrom(c, page, i, ignored, fetch).server)
    decreases |page| - i
  {
    if i < |page| {
      var d := CollectOne(c, page[i], ignored, fetch(i));
      PushAllEvolves(c.server, fetch(i).writes);
      CollectEvolves(d, page, i + 1, ignored, fetch);
      EvolvesTransitive(c.server, d.server, CollectFrom(c, page, i, ignored, fetch).server);
    }
  }

  function EndWorld(e: PageEnd): World {
    match e case Continue(p) => p.world case Stop(w, _) => w
  }

  lemma PageEvolves(s: Table, writes: seq<PushItem>, page: seq<Overview>, ignored: set<Uuid>, fetch: nat -> FetchTurn)
    requires s.Valid()
    ensures Evolves(s, s.PushAll(writes))
    ensures Evolves(s, CollectFrom(Collected(s.PushAll(writes), [], [], false), page, 0, ignored, fetch).server)
  {
    PushAllEvolves(s, writes);
    var c := Collected(s.PushAll(writes), [], [], false);
    CollectEvolves(c, page, 0, ignored, fetch);
    EvolvesTransitive(s, c.server, CollectFrom(c, page, 0, ignored, fetch).server);
  }

  /** The table as one page of the loop leaves it. */
  ghost function PageServer(p: Progress, t: PageTurn): Table
    requires p.world.server.Valid()
  {
    PushAllEvolves(p.world.server, t.writes);
    var s := p.world.server.PushAll(t.writes);
    if p.pages + 1 > MAX_PAGES then p.world.server
    else if !t.pullOk || Expired(s, p.engine) then s
    else CollectFrom(Collected(s, [], [], false), Pull(s, p.engine).value.overviews, 0, p.world.ignored, t.fetch).server
  }

  lemma OnePageServer(p: Progress, t: PageTurn)
    requires p.world.server.Valid()
    ensures EndWorld(OnePage(p, t)).server == PageServer(p, t)
    ensures OnePage(p, t).Continue? ==> OnePage(p, t).p.pages == p.pages + 1 <= MAX_PAGES
  {
  }

  lemma OnePageEvolves(p: Progress, t: PageTurn)
    requires p.world.server.Valid()
    ensures Evolves(p.world.server, PageServer(p, t))
  {
    PushAllEvolves(p.world.server, t.writes);
    var s := p.world.server.PushAll(t.writes);
    if t.pullOk && !Expired(s, p.engine) {
      PageEvolves(p.world.server, t.writes, Pull(s, p.engine).value.overviews, p.world.ignored, t.fetch);
    }
  }

  function SyncFrom(p: Progress, turns: nat -> PageTurn): (World, Result)
    requires p.world.server.Valid()
    decreases MAX_PAGES - p.pages
  {
    OnePageServer(p, turns(p.pages));
    OnePageEvolves(p, turns(p.pages));
    match OnePage(p, turns(p.pages))
    case Stop(w, r) => (w, r)
    case Continue(q) => SyncFrom(q, turns)
  }

  function SyncSession(w: World, turns: nat -> PageTurn): (World, Result)
    requires w.server.Valid()
  {
    SyncFrom(Progress(w, w.cursor, 0, false), turns)
  }

  // ---------------------------------------------------------------- pulled pages

  /** A page holds, as they are, exactly the rows changed in (cursor, next]. */
  ghost predicate Covers(s: Table, cursor: nat, page: Page) {
    && cursor <= page.next
    && (forall ov | ov in page.overviews ::
          && ov.uuid in s.items && ov == ToOverview(ov.uuid, s.items[ov.uuid])
          && cursor < s.items[ov.uuid].seqno <= page.next)
    && (forall u | u in s.items && cursor < s.items[u].seqno <= page.next ::
          ToOverview(u, s.items[u]) in page.overviews)
    && (cursor <= s.lastSeq ==> page.next <= s.lastSeq)
    && (cursor <= s.lastSeq && !page.hasMore ==> page.next == s.lastSeq)
  }

  /** The page is a prefix of the change order. */
  lemma PageIsAPrefix(s: Table, cursor: nat)
    requires s.Valid() && !Expired(s, cursor)
    ensures var ns, page := Since(s.index, cursor, s.lastSeq), Pull(s, cursor).value;
            var n := |page.overviews|;
            && n == (if |ns| > PAGE_LIMIT then PAGE_LIMIT else |ns|)
            && page.hasMore == (|ns| > PAGE_LIMIT)
            && page.next == (if n == 0 then cursor else ns[n - 1])
            && forall i | 0 <= i < n :: ns[i] in ns
                 && page.overviews[i] == ToOverview(s.index[ns[i]], s.items[s.index[ns[i]]])
  {
  }

  lemma PageHasEveryChange(s: Table, cursor: nat, u: Uuid)
    requires s.Valid() && !Expired(s, cursor)
    requires u in s.items && cursor < s.items[u].seqno <= Pull(s, cursor).value.next
    ensures ToOverview(u, s.items[u]) in Pull(s, cursor).value.overviews
  {
    PageIsAPrefix(s, cursor);
    var ns := Since(s.index, cursor, s.lastSeq);
    var i :| 0 <= i < |ns| && ns[i] == s.items[u].seqno;
    assert Pull(s, cursor).value.overviews[i] == ToOverview(u, s.items[u]);
  }

  /** The counter's latest number is in use, so the changes after a cursor end with it. */
  lemma SinceReachesTheEnd(s: Table, cursor: nat)
    requires s.Valid() && cursor <= s.lastSeq
    ensures var ns := Since(s.index, cursor, s.lastSeq);
            if cursor == s.lastSeq then ns == [] else ns != [] && ns[|ns| - 1] == s.lastSeq
  {
    var ns := Since(s.index, cursor, s.lastSeq);
    if cursor < s.lastSeq {
      assert s.lastSeq in ns;
      var i :| 0 <= i < |ns| && ns[i] == s.lastSeq;
      assert ns[|ns| - 1] in ns;
    }
  }

  lemma NextIsInRange(s: Table, cursor: nat)
    requires s.Valid() && !Expired(s, cursor)
    ensures var page := Pull(s, cursor).value;
            && cursor <= page.next
            && (cursor <= s.lastSeq ==> page.next <= s.lastSeq)
            && (cursor <= s.lastSeq && !page.hasMore ==> page.next == s.lastSeq)
  {
    PageIsAPrefix(s, cursor);
    var ns, page := Since(s.index, cursor, s.lastSeq), Pull(s, cursor).value;
    if cursor <= s.lastSeq {
      SinceReachesTheEnd(s, cursor);
    }
    if page.overviews != [] {
      assert ns[|page.overviews| - 1] in ns;
    }
  }

  lemma PullCovers(s: Table, cursor: nat)
    requires s.Valid() && !Expired(s, cursor)
    ensures Covers(s, cursor, Pull(s, cursor).value)
  {
    NextIsInRange(s, cursor);
    var page := Pull(s, cursor).value;
    forall ov | ov in page.overviews
      ensures ov.uuid in s.items && ov == ToOverview(ov.uuid, s.items[ov.uuid])
      ensures cursor < s.items[ov.uuid].seqno <= page.next
    {
      PageIsAPrefix(s, cursor);
      var i :| 0 <= i < |page.overviews| && page.overviews[i] == ov;
      var ns := Since(s.index, cursor, s.lastSeq);
      assert ns[i] in ns && s.items[s.index[ns[i]]].seqno == ns[i];
    }
    forall u | u in s.items && cursor < s.items[u].seqno <= page.next
      ensures ToOverview(u, s.items[u]) in page.overviews
    {
      PageHasEveryChange(s, cursor, u);
    }
  }

  // ------------------------------------------------------------- agreement with the server

  ghost predicate Agrees(rows: Rows, u: Uuid, item: Item) {
    match item.body
    case Tombstone => u !in rows
    case Live(payload) =>
      u in rows && rows[u].version == item.version && rows[u].gen == item.gen
      && rows[u].payload == payload && !rows[u].trashed
  }

  /** Every row that is not exempt and whose last change is after `from` and at or before `c` is up
      to date. */
  ghost predicate Sound(s: Table, rows: Rows, exempt: set<Uuid>, from: nat, c: nat) {
    forall u | u in s.items && u !in exempt && from < s.items[u].seqno <= c :: Agrees(rows, u, s.items[u])
  }

  /** No row is left over: every one that is not exempt is on the server. */
  ghost predicate Known(s: Table, rows: Rows, exempt: set<Uuid>) {
    forall u | u in rows && u !in exempt :: u in s.items
  }

  lemma SoundEvolves(s: Table, t: Table, rows: Rows, exempt: set<Uuid>, from: nat, c: nat)
    requires Evolves(s, t) && c <= s.lastSeq && Sound(s, rows, exempt, from, c)
    ensures Sound(t, rows, exempt, from, c)
  {
  }

  /** What a download delivered is what the table holds, unless the row has changed since. */
  ghost predicate Truthful(t: Table, ov: Overview, body: Body) {
    ov.uuid in t.items &&
    (ov.version < t.items[ov.uuid].version ||
     (t.items[ov.uuid].version == ov.version && t.items[ov.uuid].gen == ov.gen && t.items[ov.uuid].body == body))
  }

  lemma TruthfulEvolves(s: Table, t: Table, ov: Overview, body: Body)
    requires Evolves(s, t) && Truthful(s, ov, body)
    ensures Truthful(t, ov, body)
  {
  }

  ghost predicate Brings(c: Collected, u: Uuid) {
    u in c.deletes || exists up :: up in c.upserts && up.overview.uuid == u
  }

  /** Invariant of collecting a page pulled from `s0`: everything collected is on the page and
      truthful, and without a failure everything not ignored among the first `i` is collected. */
  ghost predicate Collects(c: Collected, s0: Table, page: seq<Overview>, i: nat, ignored: set<Uuid>)
    requires i <= |page|
  {
    && Evolves(s0, c.server)
    && (forall up | up in c.upserts ::
          up.overview in page && !up.overview.deleted && Truthful(c.server, up.overview, Live(up.payload)))
    && (forall u | u in c.deletes :: exists ov :: ov in page && ov.uuid == u && ov.deleted)
    && (!c.failed ==> forall k | 0 <= k < i :: page[k].uuid in ignored || Brings(c, page[k].uuid))
  }

  lemma CollectsOne(c: Collected, s0: Table, page: seq<Overview>, i: nat, ignored: set<Uuid>, t: FetchTurn)
    requires i < |page| && Collects(c, s0, page, i, ignored)
    requires forall ov | ov in page :: ov.uuid in s0.items && ov == ToOverview(ov.uuid, s0.items[ov.uuid])
    ensures Collects(CollectOne(c, page[i], ignored, t), s0, page, i + 1, ignored)
  {
    var ov, s := page[i], c.server.PushAll(t.writes);
    var e := c.(server := s);
    assert Collects(e, s0, page, i, ignored) by {
      CollectsLater(c, s0, page, i, ignored, t.writes);
    }
    var d := CollectOne(c, ov, ignored, t);
    assert forall u | Brings(e, u) :: Brings(d, u);
    if ov.uuid !in ignored && !ov.deleted && s.Fetch(ov.uuid, ov.version).Some? && t.ok {
      var up := Upsert(ov, s.Fetch(ov.uuid, ov.version).value);
      assert Truthful(s, ov, Live(up.payload));
      assert up in d.upserts;
    }
  }

  lemma CollectsLater(c: Collected, s0: Table, page: seq<Overview>, i: nat, ignored: set<Uuid>, writes: seq<PushItem>)
    requires i <= |page| && Collects(c, s0, page, i, ignored)
    ensures Collects(c.(server := c.server.PushAll(writes)), s0, page, i, ignored)
  {
    var s := c.server.PushAll(writes);
    PushAllEvolves(c.server, writes);
    EvolvesTransitive(s0, c.server, s);
    forall up | up in c.upserts
      ensures Truthful(s, up.overview, Live(up.payload))
    {
      TruthfulEvolves(c.server, s, up.overview, Live(up.payload));
    }
    assert forall u | Brings(c, u) :: Brings(c.(server := s), u);
  }

  lemma {:induction false} CollectsAll(c: Collected, s0: Table, page: seq<Overview>, i: nat, ignored: set<Uuid>, fetch: nat -> FetchTurn)
    requires i <= |page| && Collects(c, s0, page, i, ignored)
    requires forall ov | ov in page :: ov.uuid in s0.items && ov == ToOverview(ov.uuid, s0.items[ov.uuid])
    ensures Collects(CollectFrom(c, page, i, ignored, fetch), s0, page, |page|, ignored)
    decreases |page| - i
  {
    if i < |page| {
      CollectsOne(c, s0, page, i, ignored, fetch(i));
      CollectsAll(CollectOne(c, page[i], ignored, fetch(i)), s0, page, i + 1, ignored, fetch);
    }
  }

  ghost predicate HoldsUpsert(rows: Rows, up: Upsert) {
    var u := up.overview.uuid;
    u in rows && rows[u].version == up.overview.version && rows[u].gen == up.overview.gen
    && rows[u].payload == up.payload && !rows[u].trashed
  }

  /** After the upserts, a row holds one of its upserts, or was not mentioned and is as before. */
  lemma {:induction false} UpsertedRow(rows: Rows, upserts: seq<Upsert>, u: Uuid)
    ensures var r := Upserted(rows, upserts);
            || (exists up :: up in upserts && up.overview.uuid == u && HoldsUpsert(r, up))
            || ((forall up | up in upserts :: up.overview.uuid != u)
                && (u in r <==> u in rows) && (u in r ==> r[u] == rows[u]))
    decreases |upserts|
  {
    if upserts != [] {
      var Upsert(ov, payload) := upserts[0];
      var created := if ov.uuid in rows then rows[ov.uuid].createdAt else 0;
      var rows' := rows[ov.uuid := Row(ov.version, ov.gen, false, created, payload)];
      assert upserts == [upserts[0]] + upserts[1..];
      UpsertedRow(rows', upserts[1..], u);
      var r := Upserted(rows', upserts[1..]);
      if exists up :: up in upserts[1..] && up.overview.uuid == u && HoldsUpsert(r, up) {
        var up :| up in upserts[1..] && up.overview.uuid == u && HoldsUpsert(r, up);
        assert up in upserts;
      } else if ov.uuid == u {
        assert HoldsUpsert(r, upserts[0]);
      }
    }
  }

  /** The rows of `edited` that a step left as they were. */
  ghost function Untouched(edited: set<Uuid>, before: Rows, after: Rows): set<Uuid> {
    set u | u in edited && RowAt(before, u) == RowAt(after, u)
  }

  /** What is not after the cursor is not on the page, and so is not brought in. */
  lemma UnlistedIsNotBrought(c: Collected, s0: Table, page: Page, cursor: nat, ignored: set<Uuid>, u: Uuid)
    requires Covers(s0, cursor, page) && Collects(c, s0, page.overviews, |page.overviews|, ignored)
    requires u in c.server.items ==> c.server.items[u].seqno <= cursor
    ensures !Brings(c, u)
  {
    forall ov | ov in page.overviews
      ensures ov.uuid != u
    {
      assert ov.uuid in s0.items && cursor < s0.items[ov.uuid].seqno;
    }
  }

  /** A page writes only the rows it delivers. */
  lemma OnlyDeliveredRowsChange(c: Collected, rows: Rows, u: Uuid)
    requires !Brings(c, u)
    ensures RowAt(ApplyBatch(rows, c.upserts, c.deletes), u) == RowAt(rows, u)
  {
    UpsertedRow(rows - (set d | d in c.deletes), c.upserts, u);
  }

  /** Persisting a truthful page never makes a row wrong that counted as right, and a local edit that
      it replaces needs no exemption any more. */
  lemma PageKeepsSound(c: Collected, s0: Table, page: Page, cursor: nat, rows: Rows, ignored: set<Uuid>,
                       exempt: set<Uuid>, edited: set<Uuid>, origin: Rows, from: nat, m: nat)
    requires Covers(s0, cursor, page) && m <= s0.lastSeq
    requires Collects(c, s0, page.overviews, |page.overviews|, ignored)
    requires Sound(s0, rows, exempt + Untouched(edited, origin, rows), from, m)
    ensures var rows' := ApplyBatch(rows, c.upserts, c.deletes);
            Sound(c.server, rows', exempt + Untouched(edited, origin, rows'), from, m)
  {
    var rows' := ApplyBatch(rows, c.upserts, c.deletes);
    forall u | u in c.server.items && u !in exempt + Untouched(edited, origin, rows') && from < c.server.items[u].seqno <= m
      ensures Agrees(rows', u, c.server.items[u])
    {
      RowAfterPage(c, s0, page, cursor, rows, ignored, u);
      if !Brings(c, u) {
        OnlyDeliveredRowsChange(c, rows, u);
        assert u !in Untouched(edited, origin, rows);
      }
    }
  }

  lemma PageKeepsKnown(c: Collected, s0: Table, page: Page, rows: Rows, ignored: set<Uuid>,
                       exempt: set<Uuid>, edited: set<Uuid>, origin: Rows, cursor: nat)
    requires Covers(s0, cursor, page)
    requires Collects(c, s0, page.overviews, |page.overviews|, ignored)
    requires Known(s0, rows, exempt + Untouched(edited, origin, rows))
    ensures var rows' := ApplyBatch(rows, c.upserts, c.deletes);
            Known(c.server, rows', exempt + Untouched(edited, origin, rows'))
  {
    var rows' := ApplyBatch(rows, c.upserts, c.deletes);
    forall u | u in rows' && u !in exempt + Untouched(edited, origin, rows')
      ensures u in c.server.items
    {
      if Brings(c, u) {
        assert exists ov :: ov in page.overviews && ov.uuid == u;
      } else {
        OnlyDeliveredRowsChange(c, rows, u);
        assert u in rows && u !in Untouched(edited, origin, rows);
      }
    }
  }

  /** A row unchanged since the pull: delivered rows agree afterwards, others are as before. */
  lemma RowAfterPage(c: Collected, s0: Table, page: Page, cursor: nat, rows: Rows, ignored: set<Uuid>, u: Uuid)
    requires Covers(s0, cursor, page)
    requires Collects(c, s0, page.overviews, |page.overviews|, ignored)
    requires u in c.server.items && c.server.items[u].seqno <= s0.lastSeq
    ensures var rows' := ApplyBatch(rows, c.upserts, c.deletes);
            if Brings(c, u) then Agrees(rows', u, c.server.items[u])
            else Agrees(rows', u, c.server.items[u]) <==> Agrees(rows, u, c.server.items[u])
  {
    var item := c.server.items[u];
    assert u in s0.items && s0.items[u] == item;
    var kept := rows - (set d | d in c.deletes);
    UpsertedRow(kept, c.upserts, u);
    if u in c.deletes {
      var ov :| ov in page.overviews && ov.uuid == u && ov.deleted;
      assert item.body.Tombstone?;
      forall up | up in c.upserts
        ensures up.overview.uuid != u
      {
      }
    } else if exists up :: up in c.upserts && up.overview.uuid == u {
      var up :| up in c.upserts && up.overview.uuid == u && HoldsUpsert(Upserted(kept, c.upserts), up);
      assert up.overview == ToOverview(u, item);
    }
  }

  /** The cursor written with a page is right exactly when every row the page failed to deliver
      was already up to date locally (or has changed again, and so will be listed again). */
  lemma DurableCursorIff(c: Collected, s0: Table, page: Page, cursor: nat, rows: Rows, ignored: set<Uuid>)
    requires Covers(s0, cursor, page) && cursor <= s0.lastSeq
    requires Collects(c, s0, page.overviews, |page.overviews|, ignored)
    requires Sound(s0, rows, ignored, 0, cursor)
    ensures Sound(c.server, ApplyBatch(rows, c.upserts, c.deletes), ignored, 0, page.next)
       <==> forall u | u in c.server.items && u !in ignored && !Brings(c, u)
                       && cursor < c.server.items[u].seqno <= page.next ::
              Agrees(rows, u, c.server.items[u])
  {
    var rows' := ApplyBatch(rows, c.upserts, c.deletes);
    forall u | u in c.server.items && u !in ignored && c.server.items[u].seqno <= page.next
      ensures if Brings(c, u) || c.server.items[u].seqno <= cursor
              then Agrees(rows', u, c.server.items[u])
              else Agrees(rows', u, c.server.items[u]) <==> Agrees(rows, u, c.server.items[u])
    {
      RowAfterPage(c, s0, page, cursor, rows, ignored, u);
    }
  }

  /** Without a failure the page makes every row it covers right, whatever was there before. */
  lemma CleanPageIsSound(c: Collected, s0: Table, page: Page, cursor: nat, rows: Rows, ignored: set<Uuid>)
    requires Covers(s0, cursor, page) && cursor <= s0.lastSeq && !c.failed
    requires Collects(c, s0, page.overviews, |page.overviews|, ignored)
    ensures Sound(c.server, ApplyBatch(rows, c.upserts, c.deletes), ignored, cursor, page.next)
  {
    forall u | u in c.server.items && u !in ignored && cursor < c.server.items[u].seqno <= page.next
      ensures Agrees(ApplyBatch(rows, c.upserts, c.deletes), u, c.server.items[u])
    {
      var k :| 0 <= k < |page.overviews| && page.overviews[k] == ToOverview(u, s0.items[u]);
      assert Brings(c, u);
      RowAfterPage(c, s0, page, cursor, rows, ignored, u);
    }
  }
}
