/**
 The server's item table.  Every accepted write gives the row the next number of a
 per-user change counter, so a row is listed only at its latest change.  `index` is
 the table's index on that counter.
 */
module Server {
  import opened Common
  import opened Crypto

  datatype Body = Live(payload: Payload) | Tombstone

  datatype Item = Item(version: nat, gen: nat, body: Body, seqno: nat)

  /** One element of a push batch; `target` is the version the writer expects. */
  datatype PushItem = PushItem(uuid: Uuid, target: nat, gen: nat, body: Body)

  datatype PushOutcome = Applied | Conflict(serverVersion: nat) | EpochTooOld

  /** The server refuses a push request with more items than this. */
  const MAX_BATCH := 100

  /** A push request is answered, or breaks after the server handled some of its items. */
  datatype Delivery = Delivered | Broken(handled: nat)

  datatype Table = Table(
    items: map<Uuid, Item>, index: map<nat, Uuid>, lastSeq: nat, minGen: nat, blob: WrappedSvk)
  {
    /** The counter is dense at its top, every row sits at its own number. */
    ghost predicate Valid() {
      && (forall u | u in items :: items[u].version >= 1 && 1 <= items[u].seqno <= lastSeq)
      && (forall u | u in items :: items[u].seqno in index && index[items[u].seqno] == u)
      && (forall n | n in index :: index[n] in items && items[index[n]].seqno == n)
      && (lastSeq > 0 ==> lastSeq in index)
    }

    /** The version a conflict reports: 0 when there is no such row. */
    function VersionOf(u: Uuid): nat {
      if u in items then items[u].version else 0
    }

    /** The optimistic-concurrency check of `upsert_item_occ`. */
    predicate Accepts(p: PushItem) {
      p.gen >= minGen && p.target == VersionOf(p.uuid)
    }

    function Write(p: PushItem): Table {
      var n := lastSeq + 1;
      var item := Item(VersionOf(p.uuid) + 1, p.gen, p.body, n);
      var kept := if p.uuid in items then index - {items[p.uuid].seqno} else index;
      this.(items := items[p.uuid := item], index := kept[n := p.uuid], lastSeq := n)
    }

    function Push(p: PushItem): (Table, PushOutcome) {
      if p.gen < minGen then (this, EpochTooOld)
      else if Accepts(p) then (Write(p), Applied)
      else (this, Conflict(VersionOf(p.uuid)))
    }

    function PushAll(ps: seq<PushItem>): Table
      decreases |ps|
    {
      if ps == [] then this else Push(ps[0]).0.PushAll(ps[1..])
    }

    /** The exact-version payload download. */
    function Fetch(u: Uuid, version: nat): Option<Payload> {
      if u in items && items[u].version == version && items[u].body.Live?
      then Some(items[u].body.payload) else None
    }
  }

  function ItemAt(t: Table, u: Uuid): Option<Item> {
    if u in t.items then Some(t.items[u]) else None
  }

  /** What any number of accepted or refused pushes may do to the table. */
  ghost predicate Evolves(s: Table, t: Table) {
    && s.Valid() && t.Valid()
    && s.lastSeq <= t.lastSeq && s.minGen == t.minGen && s.blob == t.blob
    && (forall u | u in s.items :: u in t.items &&
          (t.items[u] == s.items[u] ||
           (s.items[u].version < t.items[u].version && s.lastSeq < t.items[u].seqno)))
    && (forall u | u in t.items && u !in s.items :: s.lastSeq < t.items[u].seqno)
  }

  lemma WriteEvolves(s: Table, p: PushItem)
    requires s.Valid()
    ensures Evolves(s, s.Write(p))
  {
    var t := s.Write(p);
    assert forall n | n in t.index :: n == t.lastSeq || (n in s.index && s.index[n] != p.uuid);
  }

  lemma PushEvolves(s: Table, p: PushItem)
    requires s.Valid()
    ensures Evolves(s, s.Push(p).0)
  {
    WriteEvolves(s, p);
  }

  lemma EvolvesTransitive(s: Table, t: Table, r: Table)
    requires Evolves(s, t) && Evolves(t, r)
    ensures Evolves(s, r)
  {
  }

  lemma {:induction false} PushAllEvolves(s: Table, ps: seq<PushItem>)
    requires s.Valid()
    ensures Evolves(s, s.PushAll(ps))
    decreases |ps|
  {
    if ps != [] {
      var t := s.Push(ps[0]).0;
      PushEvolves(s, ps[0]);
      PushAllEvolves(t, ps[1..]);
      EvolvesTransitive(s, t, t.PushAll(ps[1..]));
    }
  }
}
