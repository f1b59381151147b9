/** What a session does page by page: how far the durable cursor gets, and which rows it leaves alone. */
module SyncPages {
  import opened Common
  import opened Crypto
  import opened LocalDb
  import opened Server
  import opened Sync
  import opened SyncRuns

  // ------------------------------------------------------------------- the durable cursor

  /** What the downloads of this page brought in, if it is pulled. */
  ghost function Gathered(p: Progress, t: PageTurn): Collected
    requires p.world.server.Valid() && Pulls(p, t)
  {
    PushAllEvolves(p.world.server, t.writes);
    var s := p.world.server.PushAll(t.writes);
    CollectFrom(Collected(s, [], [], false), Pull(s, p.engine).value.overviews, 0, p.world.ignored, t.fetch)
  }

  ghost predicate Pulls(p: Progress, t: PageTurn) {
    p.pages + 1 <= MAX_PAGES && t.pullOk && !Expired(p.world.server.PushAll(t.writes), p.engine)
  }

  ghost function PageEndAt(p: Progress, t: PageTurn): nat
    requires p.world.server.Valid() && Pulls(p, t)
  {
    PushAllEvolves(p.world.server, t.writes);
    Pull(p.world.server.PushAll(t.writes), p.engine).value.next
  }

  ghost predicate HasContent(c: Collected) {
    c.upserts != [] || c.deletes != []
  }

  /** The page was pulled, brought something in, and its transaction succeeded. */
  ghost predicate Committed(p: Progress, t: PageTurn)
    requires p.world.server.Valid()
  {
    Pulls(p, t) && HasContent(Gathered(p, t)) && t.persistOk
  }

  /** The end of the last page from here on whose transaction succeeds, else `d`. */
  ghost function LastEnd(p: Progress, turns: nat -> PageTurn, d: nat): nat
    requires p.world.server.Valid()
    decreases MAX_PAGES - p.pages
  {
    var t := turns(p.pages);
    var d' := if Committed(p, t) then PageEndAt(p, t) else d;
    OnePageServer(p, t);
    OnePageEvolves(p, t);
    match OnePage(p, t)
    case Stop(_, _) => d'
    case Continue(q) => LastEnd(q, turns, d')
  }

  lemma PageWritesItsEnd(p: Progress, t: PageTurn)
    requires p.world.server.Valid()
    ensures EndWorld(OnePage(p, t)).durable == if Committed(p, t) then PageEndAt(p, t) else p.world.durable
    ensures OnePage(p, t).Continue? ==> Pulls(p, t) && OnePage(p, t).p.engine == PageEndAt(p, t)
  {
    PushAllEvolves(p.world.server, t.writes);
  }

  /** After any session the durable cursor is the end of the last page whose transaction succeeded, or
      what it was if none did. */
  lemma {:induction false} DurableIsTheLastPersistedEnd(p: Progress, turns: nat -> PageTurn)
    requires p.world.server.Valid()
    ensures SyncFrom(p, turns).0.durable == LastEnd(p, turns, p.world.durable)
    decreases MAX_PAGES - p.pages
  {
    var t := turns(p.pages);
    PageWritesItsEnd(p, t);
    OnePageServer(p, t);
    OnePageEvolves(p, t);
    match OnePage(p, t) {
      case Stop(w, r) =>
      case Continue(q) => DurableIsTheLastPersistedEnd(q, turns);
    }
  }

  /** The page is persisted, and the one after it is not even pulled. */
  ghost predicate LastPersisted(p: Progress, turns: nat -> PageTurn)
    requires p.world.server.Valid()
  {
    && Committed(p, turns(p.pages)) && OnePage(p, turns(p.pages)).Continue?
    && var q := OnePage(p, turns(p.pages)).p; !Pulls(q, turns(q.pages))
  }

  lemma StoppedAfterPage(p: Progress, turns: nat -> PageTurn)
    requires p.world.server.Valid() && LastPersisted(p, turns)
    ensures SyncFrom(p, turns).0.durable == PageEndAt(p, turns(p.pages))
  {
    var t := turns(p.pages);
    PageWritesItsEnd(p, t);
    OnePageServer(p, t);
    OnePageEvolves(p, t);
    StopsWithoutPull(OnePage(p, t).p, turns);
  }

  /** The session goes on from here to a page that is persisted, ends at `d`, and is the last to be
      pulled. */
  ghost predicate EndsAfterPage(p: Progress, turns: nat -> PageTurn, d: nat)
    requires p.world.server.Valid()
    decreases MAX_PAGES - p.pages
  {
    var t := turns(p.pages);
    OnePageServer(p, t);
    OnePageEvolves(p, t);
    || (LastPersisted(p, turns) && d == PageEndAt(p, t))
    || (OnePage(p, t).Continue? && EndsAfterPage(OnePage(p, t).p, turns, d))
  }

  lemma {:induction false} EndsWithThatCursor(p: Progress, turns: nat -> PageTurn, d: nat)
    requires p.world.server.Valid() && EndsAfterPage(p, turns, d)
    ensures SyncFrom(p, turns).0.durable == d
    decreases MAX_PAGES - p.pages
  {
    var t := turns(p.pages);
    OnePageServer(p, t);
    OnePageEvolves(p, t);
    if LastPersisted(p, turns) && d == PageEndAt(p, t) {
      StoppedAfterPage(p, turns);
    } else {
      EndsWithThatCursor(OnePage(p, t).p, turns, d);
    }
  }

  /** A session that is stopped after any number of pages, the last of them persisted: the next unlock
      resumes at the end of that page. */
  lemma UnlockResumesAtThePageEnd(w: World, turns: nat -> PageTurn, d: nat)
    requires w.server.Valid() && EndsAfterPage(Progress(w, w.cursor, 0, false), turns, d)
    ensures var v := SyncSession(w, turns).0; v.server.Valid() && Step(v, Unlock(true)).cursor == d
  {
    var start := Progress(w, w.cursor, 0, false);
    EndsWithThatCursor(start, turns, d);
    SyncFromEvolves(start, turns);
  }

  lemma StopsWithoutPull(p: Progress, turns: nat -> PageTurn)
    requires p.world.server.Valid() && !Pulls(p, turns(p.pages))
    ensures SyncFrom(p, turns).0.durable == p.world.durable
  {
    PageWritesItsEnd(p, turns(p.pages));
    assert OnePage(p, turns(p.pages)).Stop?;
  }

  lemma {:induction false} LastEndGrows(p: Progress, turns: nat -> PageTurn, d: nat)
    requires p.world.server.Valid() && d <= p.engine
    ensures d <= LastEnd(p, turns, d)
    decreases MAX_PAGES - p.pages
  {
    var t := turns(p.pages);
    OnePageServer(p, t);
    OnePageEvolves(p, t);
    PageWritesItsEnd(p, t);
    PageEndIsLater(p, t);
    match OnePage(p, t) {
      case Stop(w, r) =>
      case Continue(q) => LastEndGrows(q, turns, if Committed(p, t) then PageEndAt(p, t) else d);
    }
  }

  lemma PageEndIsLater(p: Progress, t: PageTurn)
    requires p.world.server.Valid()
    ensures Pulls(p, t) ==> p.engine <= PageEndAt(p, t)
    ensures Committed(p, t) ==> p.engine < PageEndAt(p, t)
  {
    if Pulls(p, t) {
      PushAllEvolves(p.world.server, t.writes);
      var s := p.world.server.PushAll(t.writes);
      PullCovers(s, p.engine);
      if Committed(p, t) {
        var page := Pull(s, p.engine).value;
        CollectsAll(Collected(s, [], [], false), s, page.overviews, 0, p.world.ignored, t.fetch);
        SomethingListed(Gathered(p, t), s, page, p.world.ignored);
        assert page.overviews[0] in page.overviews;
      }
    }
  }

  lemma SomethingListed(c: Collected, s0: Table, page: Page, ignored: set<Uuid>)
    requires Collects(c, s0, page.overviews, |page.overviews|, ignored) && HasContent(c)
    ensures page.overviews != []
  {
    if c.upserts != [] {
      assert c.upserts[0] in c.upserts;
    } else {
      assert c.deletes[0] in c.deletes;
    }
  }

  /** A client that is stopped in every session still gets on: if the first page is persisted, the
      cursor the next unlock reads lies beyond the one this session started from. */
  lemma StoppedSessionsGetOn(w: World, turns: nat -> PageTurn)
    requires w.server.Valid() && Committed(Progress(w, w.cursor, 0, false), turns(0))
    ensures SyncSession(w, turns).0.durable > w.cursor
  {
    var p := Progress(w, w.cursor, 0, false);
    DurableIsTheLastPersistedEnd(p, turns);
    PageEndIsLater(p, turns(0));
    PageWritesItsEnd(p, turns(0));
    OnePageServer(p, turns(0));
    OnePageEvolves(p, turns(0));
    match OnePage(p, turns(0)) {
      case Stop(_, _) =>
      case Continue(q) => LastEndGrows(q, turns, PageEndAt(p, turns(0)));
    }
  }

  // ------------------------------------------------------------------- failures

  /** A download failed, or the transaction of a page that brought something in. */
  ghost predicate PageFails(p: Progress, t: PageTurn)
    requires p.world.server.Valid()
  {
    Pulls(p, t) && (Gathered(p, t).failed || (HasContent(Gathered(p, t)) && !t.persistOk))
  }

  ghost predicate NothingFails(p: Progress, turns: nat -> PageTurn)
    requires p.world.server.Valid()
    decreases MAX_PAGES - p.pages
  {
    var t := turns(p.pages);
    OnePageServer(p, t);
    OnePageEvolves(p, t);
    !PageFails(p, t) && (OnePage(p, t).Continue? ==> NothingFails(OnePage(p, t).p, turns))
  }

  lemma PageFailsIff(p: Progress, t: PageTurn)
    requires p.world.server.Valid()
    ensures match OnePage(p, t)
            case Continue(q) => q.failed <==> p.failed || PageFails(p, t)
            case Stop(_, r) => r.clean <==> !p.failed && !PageFails(p, t)
  {
    PushAllEvolves(p.world.server, t.writes);
    if Pulls(p, t) {
      var s := p.world.server.PushAll(t.writes);
      FinishFailsIff(p.(world := p.world.(server := s)), Pull(s, p.engine).value, t);
    }
  }

  lemma FinishFailsIff(p: Progress, page: Page, t: PageTurn)
    ensures var c := CollectFrom(Collected(p.world.server, [], [], false), page.overviews, 0, p.world.ignored, t.fetch);
            var fails := c.failed || (HasContent(c) && !t.persistOk);
            match FinishPage(p, page, t)
            case Continue(q) => q.failed <==> p.failed || fails
            case Stop(_, r) => r.clean <==> !p.failed && !fails
  {
  }

  /** A session reports itself clean exactly when no download and no page transaction failed in it. */
  lemma {:induction false} CleanIff(p: Progress, turns: nat -> PageTurn)
    requires p.world.server.Valid()
    ensures SyncFrom(p, turns).1.clean <==> !p.failed && NothingFails(p, turns)
    decreases MAX_PAGES - p.pages
  {
    var t := turns(p.pages);
    PageFailsIff(p, t);
    OnePageServer(p, t);
    OnePageEvolves(p, t);
    match OnePage(p, t) {
      case Stop(w, r) =>
      case Continue(q) => CleanIff(q, turns);
    }
  }

  // ------------------------------------------------------------------- ignored items

  lemma {:induction false} IgnoredIsNotBrought(c: Collected, page: seq<Overview>, i: nat, ignored: set<Uuid>, fetch: nat -> FetchTurn, u: Uuid)
    requires i <= |page| && u in ignored && !Brings(c, u)
    ensures !Brings(CollectFrom(c, page, i, ignored, fetch), u)
    decreases |page| - i
  {
    if i < |page| {
      IgnoredIsNotBrought(CollectOne(c, page[i], ignored, fetch(i)), page, i + 1, ignored, fetch, u);
    }
  }

  lemma PulledPageLeavesIgnored(p: Progress, t: PageTurn, u: Uuid)
    requires p.world.server.Valid() && !Expired(p.world.server, p.engine) && u in p.world.ignored
    ensures RowAt(EndWorld(FinishPage(p, Pull(p.world.server, p.engine).value, t)).rows, u) == RowAt(p.world.rows, u)
  {
    var page := Pull(p.world.server, p.engine).value;
    var c0 := Collected(p.world.server, [], [], false);
    var c := CollectFrom(c0, page.overviews, 0, p.world.ignored, t.fetch);
    assert !Brings(c, u) by {
      IgnoredIsNotBrought(c0, page.overviews, 0, p.world.ignored, t.fetch, u);
    }
    OnlyDeliveredRowsChange(c, p.world.rows, u);
    FinishedRows(p, page, t);
  }

  lemma PageLeavesIgnored(p: Progress, t: PageTurn, u: Uuid)
    requires p.world.server.Valid() && u in p.world.ignored
    ensures var w := EndWorld(OnePage(p, t)); RowAt(w.rows, u) == RowAt(p.world.rows, u) && w.ignored == p.world.ignored
  {
    if Pulls(p, t) {
      PushAllEvolves(p.world.server, t.writes);
      var p' := p.(world := p.world.(server := p.world.server.PushAll(t.writes)));
      FinishIgnores(p', Pull(p'.world.server, p.engine).value, t);
      PulledPageLeavesIgnored(p', t, u);
      PageFinishes(p, t);
    } else {
      UnpulledPage(p, t);
    }
  }

  lemma PageFinishes(p: Progress, t: PageTurn)
    requires p.world.server.Valid() && Pulls(p, t)
    ensures var s := p.world.server.PushAll(t.writes);
            s.Valid() && OnePage(p, t) == FinishPage(p.(world := p.world.(server := s)), Pull(s, p.engine).value, t)
  {
    PushAllEvolves(p.world.server, t.writes);
  }

  lemma UnpulledPage(p: Progress, t: PageTurn)
    requires p.world.server.Valid() && !Pulls(p, t)
    ensures var w := EndWorld(OnePage(p, t)); w.rows == p.world.rows && w.ignored == p.world.ignored
  {
  }

  lemma FinishIgnores(p: Progress, page: Page, t: PageTurn)
    ensures EndWorld(FinishPage(p, page, t)).ignored == p.world.ignored
  {
  }

  lemma {:induction false} IgnoredFrom(p: Progress, turns: nat -> PageTurn, u: Uuid)
    requires p.world.server.Valid() && u in p.world.ignored
    ensures RowAt(SyncFrom(p, turns).0.rows, u) == RowAt(p.world.rows, u)
    decreases MAX_PAGES - p.pages
  {
    var t := turns(p.pages);
    PageLeavesIgnored(p, t, u);
    OnePageServer(p, t);
    OnePageEvolves(p, t);
    match OnePage(p, t) {
      case Stop(w, r) =>
      case Continue(q) => IgnoredFrom(q, turns, u);
    }
  }

  /** No session touches the row of an ignored item. */
  lemma IgnoredRowsStay(w: World, turns: nat -> PageTurn, u: Uuid)
    requires w.server.Valid() && u in w.ignored
    ensures RowAt(SyncSession(w, turns).0.rows, u) == RowAt(w.rows, u)
  {
    IgnoredFrom(Progress(w, w.cursor, 0, false), turns, u);
  }

  // ------------------------------------------------------------------- rows that open

  /** Live items are sealed for their own uuid and generation. */
  ghost predicate SealedRight(s: Table) {
    forall u | u in s.items && s.items[u].body.Live? :: FitsRow(s.items[u].body.payload, u, s.items[u].gen)
  }

  ghost predicate FitsRow(p: Payload, u: Uuid, gen: nat) {
    p.ad == u && p.gen == gen
  }

  ghost predicate RightWrites(ps: seq<PushItem>) {
    forall p | p in ps && p.body.Live? :: FitsRow(p.body.payload, p.uuid, p.gen)
  }

  ghost predicate RightTurn(t: PageTurn) {
    RightWrites(t.writes) && forall k :: RightWrites(t.fetch(k).writes)
  }

  /** Every row opens with the key it was sealed with. */
  ghost predicate RowsOpen(rows: Rows) {
    forall u | u in rows :: FitsRow(rows[u].payload, u, rows[u].gen)
  }

  lemma {:induction false} WritesStayRight(s: Table, ps: seq<PushItem>)
    requires SealedRight(s) && RightWrites(ps)
    ensures SealedRight(s.PushAll(ps))
    decreases |ps|
  {
    if ps != [] {
      assert ps[0] in ps && forall p | p in ps[1..] :: p in ps;
      WritesStayRight(s.Push(ps[0]).0, ps[1..]);
    }
  }

  ghost predicate CollectedRight(c: Collected, s0: Table) {
    && Evolves(s0, c.server) && SealedRight(c.server)
    && forall up | up in c.upserts :: FitsRow(up.payload, up.overview.uuid, up.overview.gen)
  }

  /** What is downloaded at the exact version goes with the generation the page listed. */
  lemma {:induction false} CollectStaysRight(c: Collected, s0: Table, page: seq<Overview>, i: nat, ignored: set<Uuid>, fetch: nat -> FetchTurn)
    requires i <= |page| && CollectedRight(c, s0) && forall k :: RightWrites(fetch(k).writes)
    requires forall ov | ov in page :: ov.uuid in s0.items && ov == ToOverview(ov.uuid, s0.items[ov.uuid])
    ensures CollectedRight(CollectFrom(c, page, i, ignored, fetch), s0)
    decreases |page| - i
  {
    if i < |page| {
      CollectOneRight(c, s0, page[i], ignored, fetch(i));
      CollectStaysRight(CollectOne(c, page[i], ignored, fetch(i)), s0, page, i + 1, ignored, fetch);
    }
  }

  lemma CollectOneRight(c: Collected, s0: Table, ov: Overview, ignored: set<Uuid>, t: FetchTurn)
    requires CollectedRight(c, s0) && RightWrites(t.writes)
    requires ov.uuid in s0.items && ov == ToOverview(ov.uuid, s0.items[ov.uuid])
    ensures CollectedRight(CollectOne(c, ov, ignored, t), s0)
  {
    var s := c.server.PushAll(t.writes);
    PushAllEvolves(c.server, t.writes);
    EvolvesTransitive(s0, c.server, s);
    WritesStayRight(c.server, t.writes);
  }

  lemma BatchRowsOpen(rows: Rows, upserts: seq<Upsert>, deletes: seq<Uuid>)
    requires RowsOpen(rows) && forall up | up in upserts :: FitsRow(up.payload, up.overview.uuid, up.overview.gen)
    ensures RowsOpen(ApplyBatch(rows, upserts, deletes))
  {
    var kept := rows - (set u | u in deletes);
    forall u | u in ApplyBatch(rows, upserts, deletes)
      ensures FitsRow(ApplyBatch(rows, upserts, deletes)[u].payload, u, ApplyBatch(rows, upserts, deletes)[u].gen)
    {
      UpsertedRow(kept, upserts, u);
    }
  }

  lemma PulledPageRowsOpen(p: Progress, t: PageTurn)
    requires p.world.server.Valid() && !Expired(p.world.server, p.engine) && RightTurn(t)
    requires SealedRight(p.world.server) && RowsOpen(p.world.rows)
    ensures var w := EndWorld(FinishPage(p, Pull(p.world.server, p.engine).value, t)); SealedRight(w.server) && RowsOpen(w.rows)
  {
    var page := Pull(p.world.server, p.engine).value;
    FinishedRows(p, page, t);
    PageGathersRight(p.world.server, p.engine, p.world.ignored, t.fetch);
    var c := CollectFrom(Collected(p.world.server, [], [], false), page.overviews, 0, p.world.ignored, t.fetch);
    BatchRowsOpen(p.world.rows, c.upserts, c.deletes);
  }

  lemma PageGathersRight(s: Table, cursor: nat, ignored: set<Uuid>, fetch: nat -> FetchTurn)
    requires s.Valid() && !Expired(s, cursor) && SealedRight(s) && forall k :: RightWrites(fetch(k).writes)
    ensures var c := CollectFrom(Collected(s, [], [], false), Pull(s, cursor).value.overviews, 0, ignored, fetch);
            SealedRight(c.server) && forall up | up in c.upserts :: FitsRow(up.payload, up.overview.uuid, up.overview.gen)
  {
    PullCovers(s, cursor);
    PushAllEvolves(s, []);
    CollectStaysRight(Collected(s, [], [], false), s, Pull(s, cursor).value.overviews, 0, ignored, fetch);
  }

  lemma PageRowsOpen(p: Progress, t: PageTurn)
    requires p.world.server.Valid() && RightTurn(t) && SealedRight(p.world.server) && RowsOpen(p.world.rows)
    ensures var w := EndWorld(OnePage(p, t)); SealedRight(w.server) && RowsOpen(w.rows)
  {
    if p.pages + 1 <= MAX_PAGES {
      PushAllEvolves(p.world.server, t.writes);
      WritesStayRight(p.world.server, t.writes);
      if Pulls(p, t) {
        PulledPageRowsOpen(p.(world := p.world.(server := p.world.server.PushAll(t.writes))), t);
      }
    }
  }

  lemma {:induction false} RowsOpenFrom(p: Progress, turns: nat -> PageTurn)
    requires p.world.server.Valid() && SealedRight(p.world.server) && RowsOpen(p.world.rows)
    requires forall i :: RightTurn(turns(i))
    ensures RowsOpen(SyncFrom(p, turns).0.rows)
    decreases MAX_PAGES - p.pages
  {
    var t := turns(p.pages);
    PageRowsOpen(p, t);
    OnePageServer(p, t);
    OnePageEvolves(p, t);
    match OnePage(p, t) {
      case Stop(w, r) =>
      case Continue(q) => RowsOpenFrom(q, turns);
    }
  }

  /** Downloads are of the exact version listed, so a session never pairs the generation of one version
      with the payload of another, whoever writes in between: every row it leaves opens at its own
      generation. */
  lemma SyncedRowsOpen(w: World, turns: nat -> PageTurn)
    requires w.server.Valid() && SealedRight(w.server) && RowsOpen(w.rows) && forall i :: RightTurn(turns(i))
    ensures RowsOpen(SyncSession(w, turns).0.rows)
  {
    RowsOpenFrom(Progress(w, w.cursor, 0, false), turns);
  }
}
