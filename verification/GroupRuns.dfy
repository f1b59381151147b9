/**
 Group operations overlapping each other.  An addition reads the group key and stores its
 wrapping later; a rotation or removal draws a key, replaces the entries at the relay and
 only then replaces the key in the admin's store.  No lock spans these steps.
 */
module GroupRuns {
  import opened Common
  import opened Groups

  type Thread = nat

  /** An operation under way: a wrapped key to be stored, a drawn key to be relayed, a relayed key
      to be promoted. */
  datatype Flight =
    | Adding(wrapped: Wrapped)
    | Relaying(key: GroupKey, pk: PublicKey, removed: Option<Uuid>)
    | Promoting(key: GroupKey, removed: Option<Uuid>)

  datatype State = State(world: World, flights: map<Thread, Flight>)

  datatype Step =
    | Other(op: Op)
    | BeginAdd(thread: Thread, group: Uuid, member: Uuid)
    | StoreAdd(thread: Thread, wire: Wire)
    | BeginRotate(thread: Thread, group: Uuid, removed: Option<Uuid>)
    | Relay(thread: Thread, wire: Wire)
    | Promote(thread: Thread)

  // ------------------------------------------------------------------- the steps

  function Land(s: State, t: Thread, w: World): State {
    State(w, s.flights - {t})
  }

  function StartAdd(s: State, t: Thread, g: Uuid, m: Uuid): State {
    if t in s.flights || g !in s.world.groups || m !in s.world.publicKeys then s
    else s.(flights := s.flights[t := Adding(Wrap(s.world.groups[g], m, s.world.publicKeys[m]))])
  }

  function FinishAdd(s: State, t: Thread, wire: Wire): State {
    if t !in s.flights || !s.flights[t].Adding? then s
    else if wire.Refused? then Land(s, t, s.world)
    else
      var x := s.flights[t].wrapped;
      Land(s, t, s.world.(entries := s.world.entries[(x.group, x.member) := x]))
  }

  function StartRotate(s: State, t: Thread, g: Uuid, removed: Option<Uuid>): State {
    if t in s.flights || g !in s.world.groups || s.world.groups[g].admin !in s.world.publicKeys
       || removed == Some(s.world.groups[g].admin)
    then s
    else
      var admin := s.world.groups[g].admin;
      State(s.world.(next := s.world.next + 1),
            s.flights[t := Relaying(GroupKey(g, admin, s.world.next), s.world.publicKeys[admin], removed)])
  }

  function RelayKeys(s: State, t: Thread, wire: Wire): State {
    if t !in s.flights || !s.flights[t].Relaying? then s
    else
      var Relaying(key, pk, removed) := s.flights[t];
      var w := s.world.(entries := Replace(s.world.entries, Rewrap(key, [(key.admin, pk)])));
      match wire
      case Refused => Land(s, t, s.world)
      case Unanswered => Land(s, t, w)
      case Answered => State(w, s.flights[t := Promoting(key, removed)])
  }

  function PromoteKey(s: State, t: Thread): State {
    if t !in s.flights || !s.flights[t].Promoting? then s
    else
      var key := s.flights[t].key;
      Land(s, t, s.world.(groups := s.world.groups[key.group := key]))
  }

  /** `Other` is publishing a key or creating a group, which are single steps. */
  function Next(s: State, e: Step): State {
    match e
    case Other(op) => if op.Publish? || op.Create? then s.(world := Perform(s.world, op).0) else s
    case BeginAdd(t, g, m) => StartAdd(s, t, g, m)
    case StoreAdd(t, wire) => FinishAdd(s, t, wire)
    case BeginRotate(t, g, removed) => StartRotate(s, t, g, removed)
    case Relay(t, wire) => RelayKeys(s, t, wire)
    case Promote(t) => PromoteKey(s, t)
  }

  /** A new group's id is not in use. */
  ghost predicate Admissible(s: State, e: Step) {
    e.Other? && e.op.Create? ==> e.op.group !in s.world.groups
  }

  function Run(s: State, steps: seq<Step>): State
    decreases |steps|
  {
    if steps == [] then s else Run(Next(s, steps[0]), steps[1..])
  }

  ghost predicate AdmissibleRun(s: State, steps: seq<Step>)
    decreases |steps|
  {
    steps == [] || (Admissible(s, steps[0]) && AdmissibleRun(Next(s, steps[0]), steps[1..]))
  }

  // ------------------------------------------------------------------- uninterrupted operations

  lemma LandAfter(s: State, t: Thread, f: Flight)
    requires t !in s.flights
    ensures s.flights[t := f] - {t} == s.flights
  {
  }

  /** The client's operations are these steps without anything in between. */
  lemma AddIsTwoSteps(s: State, t: Thread, g: Uuid, m: Uuid, wire: Wire)
    requires t !in s.flights
    ensures Next(Next(s, BeginAdd(t, g, m)), StoreAdd(t, wire)) == s.(world := Perform(s.world, Add(g, m, wire)).0)
  {
    var s1 := StartAdd(s, t, g, m);
    if t in s1.flights {
      LandAfter(s, t, s1.flights[t]);
    }
  }

  /** A removal names the member it removes, and the admin cannot be that member. */
  lemma RemoveIsThreeSteps(s: State, t: Thread, g: Uuid, m: Uuid, wire: Wire)
    requires t !in s.flights
    ensures Next(Next(Next(s, BeginRotate(t, g, Some(m))), Relay(t, wire)), Promote(t))
         == s.(world := Perform(s.world, Remove(g, m, wire)).0)
    ensures Perform(s.world, Remove(g, m, wire)).1 <==>
            g in s.world.groups && s.world.groups[g].admin != m && s.world.groups[g].admin in s.world.publicKeys && wire.Answered?
  {
    RotateIsThreeSteps(s, t, g, Some(m), wire);
  }

  lemma RotateIsThreeSteps(s: State, t: Thread, g: Uuid, removed: Option<Uuid>, wire: Wire)
    requires t !in s.flights
    ensures var admins := g in s.world.groups && removed == Some(s.world.groups[g].admin);
            (Next(Next(Next(s, BeginRotate(t, g, removed)), Relay(t, wire)), Promote(t))
             == s.(world := if admins then s.world else Perform(s.world, Rotate(g, wire)).0))
  {
    var s1 := StartRotate(s, t, g, removed);
    if t in s1.flights {
      var f := s1.flights[t];
      LandAfter(s, t, f);
      LandAfter(s, t, Promoting(f.key, removed));
      assert s1.flights[t := Promoting(f.key, removed)] == s.flights[t := Promoting(f.key, removed)];
    }
  }

  // ------------------------------------------------------------------- freshness

  /** Every key the relay ever held for a member: (group, member, key). */
  type Seen = set<(Uuid, Uuid, Sik)>

  ghost function Shown(e: Entries): Seen {
    set k | k in e :: (k.0, k.1, e[k].envelope.sik)
  }

  ghost predicate Rotating(f: Flight) {
    f.Relaying? || f.Promoting?
  }

  ghost predicate GroupsOk(w: World) {
    forall g | g in w.groups :: w.groups[g].group == g && w.groups[g].sik < w.next
  }

  ghost predicate EntryOk(w: World, k: (Uuid, Uuid), x: Wrapped) {
    && k.0 in w.groups && x.group == k.0 && x.member == k.1
    && x.envelope.ad == k.0 && x.envelope.sik < w.next
  }

  ghost predicate WellFormed(w: World) {
    GroupsOk(w) && forall k | k in w.entries :: EntryOk(w, k, w.entries[k])
  }

  ghost predicate FlightOk(w: World, f: Flight) {
    match f
    case Adding(x) => x.group in w.groups && x.envelope.ad == x.group && x.envelope.sik < w.next
    case _ =>
      && f.key.group in w.groups && f.key.admin == w.groups[f.key.group].admin && f.key.sik < w.next
      && f.removed != Some(f.key.admin)
  }

  /** A drawn key that is not yet promoted is nobody's current key, in no addition under way, and has
      been seen by nobody but the admin of its group. */
  ghost predicate Unborn(s: State, seen: Seen, key: GroupKey) {
    && (forall g | g in s.world.groups :: s.world.groups[g].sik != key.sik)
    && (forall t | t in s.flights && s.flights[t].Adding? :: s.flights[t].wrapped.envelope.sik != key.sik)
    && (forall x | x in seen && x.2 == key.sik :: x.0 == key.group && x.1 == key.admin)
  }

  /** Groups, entries and operations under way are in order, and `seen` has everything shown so far. */
  ghost predicate InOrder(s: State, seen: Seen) {
    && WellFormed(s.world) && Shown(s.world.entries) <= seen && (forall x | x in seen :: x.2 < s.world.next)
    && (forall t | t in s.flights :: FlightOk(s.world, s.flights[t]))
  }

  ghost predicate RotatesAt(s: State, t: Thread) {
    t in s.flights && Rotating(s.flights[t])
  }

  /** Drawn keys are unborn and no two of them are the same. */
  ghost predicate KeysFresh(s: State, seen: Seen) {
    && (forall t | RotatesAt(s, t) :: Unborn(s, seen, s.flights[t].key))
    && (forall t, u | t != u && RotatesAt(s, t) && RotatesAt(s, u) :: s.flights[t].key.sik != s.flights[u].key.sik)
  }

  ghost predicate Fresh(s: State, seen: Seen) {
    InOrder(s, seen) && KeysFresh(s, seen)
  }

  /** The entries after a replacement: the admin's alone for that group, the others as they were. */
  lemma Replaced(e: Entries, key: GroupKey, pk: PublicKey)
    ensures var r := Replace(e, Rewrap(key, [(key.admin, pk)]));
            && (forall k :: k in r <==> (if k.0 == key.group then k.1 == key.admin else k in e))
            && (forall k | k in r :: if k.0 == key.group then r[k] == Wrap(key, key.admin, pk) else r[k] == e[k])
  {
    var ws := Rewrap(key, [(key.admin, pk)]);
    assert ws == [Wrap(key, key.admin, pk)] && ws[1..] == [];
    var others := map k | k in e && k.0 != key.group :: e[k];
    assert Replace(e, ws) == InsertAll(others[(key.group, key.admin) := ws[0]], []);
  }

  lemma NextIsWellFormed(s: State, seen: Seen, e: Step)
    requires InOrder(s, seen) && Admissible(s, e)
    ensures WellFormed(Next(s, e).world)
  {
    NextGroupsOk(s, seen, e);
    if e.Relay? && e.thread in s.flights && s.flights[e.thread].Relaying? {
      Replaced(s.world.entries, s.flights[e.thread].key, s.flights[e.thread].pk);
    }
    forall k | k in Next(s, e).world.entries
      ensures EntryOk(Next(s, e).world, k, Next(s, e).world.entries[k])
    {
      assert k in s.world.entries ==> EntryOk(s.world, k, s.world.entries[k]);
      GroupsStayIfAny(s, seen, e, k.0);
    }
  }

  lemma NextGroupsOk(s: State, seen: Seen, e: Step)
    requires InOrder(s, seen)
    ensures GroupsOk(Next(s, e).world) && s.world.next <= Next(s, e).world.next
  {
    assert e.Promote? && e.thread in s.flights ==> FlightOk(s.world, s.flights[e.thread]);
  }

  lemma GroupsStayIfAny(s: State, seen: Seen, e: Step, g: Uuid)
    requires InOrder(s, seen) && Admissible(s, e)
    ensures g in s.world.groups ==> g in Next(s, e).world.groups
  {
    if g in s.world.groups {
      GroupsStay(s, seen, e, g);
    }
  }

  /** Groups stay, each with its admin. */
  lemma GroupsStay(s: State, seen: Seen, e: Step, g: Uuid)
    requires InOrder(s, seen) && Admissible(s, e) && g in s.world.groups
    ensures var w := Next(s, e).world; g in w.groups && w.groups[g].admin == s.world.groups[g].admin
  {
  }

  lemma FlightStaysOk(s: State, seen: Seen, e: Step, t: Thread)
    requires InOrder(s, seen) && Admissible(s, e) && t in Next(s, e).flights
    ensures FlightOk(Next(s, e).world, Next(s, e).flights[t])
  {
    var f := Next(s, e).flights[t];
    var g := if f.Adding? then f.wrapped.group else f.key.group;
    assert t in s.flights ==> FlightOk(s.world, s.flights[t]);
    if g in s.world.groups {
      GroupsStay(s, seen, e, g);
    }
  }

  lemma ShownIsDrawn(w: World)
    requires WellFormed(w)
    ensures forall x | x in Shown(w.entries) :: x.2 < w.next
  {
  }

  lemma NextKeepsOrder(s: State, seen: Seen, e: Step)
    requires InOrder(s, seen) && Admissible(s, e)
    ensures InOrder(Next(s, e), seen + Shown(Next(s, e).world.entries))
  {
    var s' := Next(s, e);
    NextIsWellFormed(s, seen, e);
    NextGroupsOk(s, seen, e);
    ShownIsDrawn(s'.world);
    forall t | t in s'.flights
      ensures FlightOk(s'.world, s'.flights[t])
    {
      FlightStaysOk(s, seen, e, t);
    }
  }

  /** What the relay shows after a step: what it showed, the wrapping just stored, or the admin's. */
  lemma NewlyShown(s: State, e: Step, x: (Uuid, Uuid, Sik))
    requires x in Shown(Next(s, e).world.entries) && x !in Shown(s.world.entries)
    ensures
      || (&& e.StoreAdd? && e.thread in s.flights && s.flights[e.thread].Adding?
          && x == var y := s.flights[e.thread].wrapped; (y.group, y.member, y.envelope.sik))
      || (&& e.Relay? && RotatesAt(s, e.thread)
          && x == var key := s.flights[e.thread].key; (key.group, key.admin, key.sik))
  {
    var k :| k in Next(s, e).world.entries && x == (k.0, k.1, Next(s, e).world.entries[k].envelope.sik);
    if e.Relay? && e.thread in s.flights && s.flights[e.thread].Relaying? {
      Replaced(s.world.entries, s.flights[e.thread].key, s.flights[e.thread].pk);
    }
    assert k in s.world.entries && s.world.entries[k] == Next(s, e).world.entries[k] ==> x in Shown(s.world.entries);
  }

  /** A key that is under way stays unborn until it is promoted. */
  lemma NextKeepsUnborn(s: State, seen: Seen, e: Step, t: Thread)
    requires Fresh(s, seen) && Admissible(s, e) && RotatesAt(s, t) && RotatesAt(Next(s, e), t)
    ensures Unborn(Next(s, e), seen + Shown(Next(s, e).world.entries), s.flights[t].key)
  {
    var s', key := Next(s, e), s.flights[t].key;
    assert Unborn(s, seen, key) && FlightOk(s.world, s.flights[t]);
    forall g | g in s'.world.groups
      ensures s'.world.groups[g].sik != key.sik
    {
      assert e.Promote? && e.thread in s.flights && s.flights[e.thread].Promoting? ==> RotatesAt(s, e.thread);
    }
    forall x | x in seen + Shown(s'.world.entries) && x.2 == key.sik
      ensures x.0 == key.group && x.1 == key.admin
    {
      if x !in Shown(s.world.entries) && x in Shown(s'.world.entries) {
        NewlyShown(s, e, x);
      }
    }
  }

  /** A rotation under way keeps its key; only one that starts has a new one. */
  lemma SameKeyOrNew(s: State, e: Step, t: Thread)
    requires RotatesAt(Next(s, e), t)
    ensures if RotatesAt(s, t) then Next(s, e).flights[t].key == s.flights[t].key
            else e.BeginRotate? && e.thread == t && Next(s, e).flights[t].key.sik == s.world.next
  {
  }

  lemma NextKeepsFresh(s: State, seen: Seen, e: Step)
    requires Fresh(s, seen) && Admissible(s, e)
    ensures Fresh(Next(s, e), seen + Shown(Next(s, e).world.entries))
  {
    NextKeepsOrder(s, seen, e);
    var s', seen' := Next(s, e), seen + Shown(Next(s, e).world.entries);
    forall t | RotatesAt(s', t)
      ensures Unborn(s', seen', s'.flights[t].key)
    {
      SameKeyOrNew(s, e, t);
      if RotatesAt(s, t) {
        NextKeepsUnborn(s, seen, e, t);
      } else {
        DrawnIsUnborn(s, seen, e, t);
      }
    }
    forall t, u | t != u && RotatesAt(s', t) && RotatesAt(s', u)
      ensures s'.flights[t].key.sik != s'.flights[u].key.sik
    {
      SameKeyOrNew(s, e, t);
      SameKeyOrNew(s, e, u);
    }
  }

  lemma DrawnIsUnborn(s: State, seen: Seen, e: Step, t: Thread)
    requires Fresh(s, seen) && e.BeginRotate? && e.thread == t && !RotatesAt(s, t) && RotatesAt(Next(s, e), t)
    ensures Unborn(Next(s, e), seen + Shown(Next(s, e).world.entries), Next(s, e).flights[t].key)
  {
  }

  ghost function SeenOver(s: State, steps: seq<Step>, seen: Seen): Seen
    decreases |steps|
  {
    if steps == [] then seen
    else SeenOver(Next(s, steps[0]), steps[1..], seen + Shown(Next(s, steps[0]).world.entries))
  }

  /** A new client: no groups, no entries, nothing under way. */
  const NEW := State(World(map[], map[], map[], 0), map[])

  /** Freshness holds through every run, and so in every state a new client reaches. */
  lemma {:induction false} RunKeepsFresh(s: State, seen: Seen, steps: seq<Step>)
    requires Fresh(s, seen) && AdmissibleRun(s, steps)
    ensures Fresh(Run(s, steps), SeenOver(s, steps, seen))
    decreases |steps|
  {
    if steps != [] {
      NextKeepsFresh(s, seen, steps[0]);
      RunKeepsFresh(Next(s, steps[0]), seen + Shown(Next(s, steps[0]).world.entries), steps[1..]);
    }
  }

  // ------------------------------------------------------------------- agreement

  ghost predicate PromotesFor(s: State, t: Thread, g: Uuid) {
    t in s.flights && s.flights[t].Promoting? && s.flights[t].key.group == g
  }

  ghost predicate Current(s: State, g: Uuid, sik: Sik) {
    g in s.world.groups && s.world.groups[g].sik == sik
  }

  /** The entry wraps the key in the admin's store, or, while a replacement has reached the relay and
      not yet the store, the key about to be promoted. */
  ghost predicate EntryAgrees(s: State, k: (Uuid, Uuid))
    requires k in s.world.entries
  {
    var sik := s.world.entries[k].envelope.sik;
    && (forall t | PromotesFor(s, t, k.0) :: sik == s.flights[t].key.sik)
    && ((exists t :: PromotesFor(s, t, k.0)) || Current(s, k.0, sik))
  }

  ghost predicate OnePromoter(s: State) {
    forall g, t, u | PromotesFor(s, t, g) && PromotesFor(s, u, g) :: t == u
  }

  /** Every wrapped key at the relay agrees, and no two rotations of a group are about to promote. */
  ghost predicate Agrees(s: State) {
    (forall k | k in s.world.entries :: EntryAgrees(s, k)) && OnePromoter(s)
  }

  /** Nothing that concerns the entry has changed. */
  lemma EntryStays(s: State, s': State, k: (Uuid, Uuid))
    requires k in s.world.entries && k in s'.world.entries && s'.world.entries[k] == s.world.entries[k]
    requires k.0 in s.world.groups && k.0 in s'.world.groups && s'.world.groups[k.0] == s.world.groups[k.0]
    requires forall t :: PromotesFor(s', t, k.0) <==> PromotesFor(s, t, k.0)
    requires forall t | PromotesFor(s, t, k.0) :: t in s'.flights && s'.flights[t] == s.flights[t]
    ensures EntryAgrees(s', k) <==> EntryAgrees(s, k)
  {
    if t :| PromotesFor(s, t, k.0) {
      assert PromotesFor(s', t, k.0);
    }
  }

  /** The steps that put relay and store out of step: storing a wrapping of a key that a rotation has
      overtaken, relaying without hearing the answer, and relaying while another rotation of the
      group is about to promote. */
  ghost predicate Slips(s: State, e: Step) {
    match e
    case StoreAdd(t, wire) =>
      && t in s.flights && s.flights[t].Adding? && !wire.Refused?
      && var x := s.flights[t].wrapped;
         (exists u :: PromotesFor(s, u, x.group)) || !Current(s, x.group, x.envelope.sik)
    case Relay(t, wire) =>
      && t in s.flights && s.flights[t].Relaying?
      && (wire.Unanswered? || (wire.Answered? && exists u :: PromotesFor(s, u, s.flights[t].key.group)))
    case _ => false
  }

  lemma StoreAgreesIff(s: State, seen: Seen, t: Thread, wire: Wire)
    requires Fresh(s, seen) && Agrees(s)
    ensures Agrees(Next(s, StoreAdd(t, wire))) <==> !Slips(s, StoreAdd(t, wire))
  {
    var s' := Next(s, StoreAdd(t, wire));
    assert forall u, g :: PromotesFor(s', u, g) <==> PromotesFor(s, u, g);
    var stored := t in s.flights && s.flights[t].Adding? && !wire.Refused?;
    forall k | k in s'.world.entries && !(stored && k == (s.flights[t].wrapped.group, s.flights[t].wrapped.member))
      ensures EntryAgrees(s', k)
    {
      EntryStays(s, s', k);
    }
    if stored {
      StoredEntryAgreesIff(s, seen, t, wire);
    }
  }

  lemma StoredEntryAgreesIff(s: State, seen: Seen, t: Thread, wire: Wire)
    requires Fresh(s, seen) && t in s.flights && s.flights[t].Adding? && !wire.Refused?
    ensures var s', x := Next(s, StoreAdd(t, wire)), s.flights[t].wrapped;
            && (x.group, x.member) in s'.world.entries
            && (EntryAgrees(s', (x.group, x.member)) <==> !Slips(s, StoreAdd(t, wire)))
  {
    var s', x := Next(s, StoreAdd(t, wire)), s.flights[t].wrapped;
    assert FlightOk(s.world, s.flights[t]);
    assert forall u, g :: PromotesFor(s', u, g) <==> PromotesFor(s, u, g);
    if u :| PromotesFor(s, u, x.group) {
      assert RotatesAt(s, u) && Unborn(s, seen, s.flights[u].key) && PromotesFor(s', u, x.group);
    }
  }

  /** Who is about to promote after a replacement has reached the relay. */
  lemma PromotersAfterRelay(s: State, t: Thread, wire: Wire, u: Thread, g: Uuid)
    requires t in s.flights && s.flights[t].Relaying? && !wire.Refused?
    ensures PromotesFor(Next(s, Relay(t, wire)), u, g)
       <==> PromotesFor(s, u, g) || (wire.Answered? && u == t && g == s.flights[t].key.group)
  {
  }

  lemma UnansweredRelayDisagrees(s: State, seen: Seen, t: Thread)
    requires Fresh(s, seen) && t in s.flights && s.flights[t].Relaying?
    ensures !Agrees(Next(s, Relay(t, Unanswered)))
  {
    var s', key := Next(s, Relay(t, Unanswered)), s.flights[t].key;
    assert RotatesAt(s, t) && Unborn(s, seen, key);
    Replaced(s.world.entries, key, s.flights[t].pk);
    var k := (key.group, key.admin);
    assert k in s'.world.entries && s'.world.entries[k].envelope.sik == key.sik;
    if u :| PromotesFor(s', u, key.group) {
      PromotersAfterRelay(s, t, Unanswered, u, key.group);
      assert RotatesAt(s, u) && u != t;
    }
  }

  lemma AnsweredRelayAgreesIff(s: State, seen: Seen, t: Thread)
    requires Fresh(s, seen) && Agrees(s) && t in s.flights && s.flights[t].Relaying?
    ensures Agrees(Next(s, Relay(t, Answered))) <==> !(exists u :: PromotesFor(s, u, s.flights[t].key.group))
  {
    var s', key := Next(s, Relay(t, Answered)), s.flights[t].key;
    Replaced(s.world.entries, key, s.flights[t].pk);
    PromotersAfterRelay(s, t, Answered, t, key.group);
    if u :| PromotesFor(s, u, key.group) {
      PromotersAfterRelay(s, t, Answered, u, key.group);
      assert u != t;
    } else {
      forall u, g
        ensures PromotesFor(s', u, g) <==> PromotesFor(s, u, g) || (u == t && g == key.group)
      {
        PromotersAfterRelay(s, t, Answered, u, g);
      }
      forall k | k in s'.world.entries
        ensures EntryAgrees(s', k)
      {
        if k.0 != key.group {
          EntryStays(s, s', k);
        }
      }
    }
  }

  lemma RelayAgreesIff(s: State, seen: Seen, t: Thread, wire: Wire)
    requires Fresh(s, seen) && Agrees(s)
    ensures Agrees(Next(s, Relay(t, wire))) <==> !Slips(s, Relay(t, wire))
  {
    if t in s.flights && s.flights[t].Relaying? && !wire.Refused? {
      if wire.Answered? {
        AnsweredRelayAgreesIff(s, seen, t);
      } else {
        UnansweredRelayDisagrees(s, seen, t);
      }
    } else {
      assert forall u, g :: PromotesFor(Next(s, Relay(t, wire)), u, g) <==> PromotesFor(s, u, g);
    }
  }

  lemma PromoteAgrees(s: State, seen: Seen, t: Thread)
    requires Fresh(s, seen) && Agrees(s)
    ensures Agrees(Next(s, Promote(t)))
  {
    var s' := Next(s, Promote(t));
    if t in s.flights && s.flights[t].Promoting? {
      var key := s.flights[t].key;
      assert PromotesFor(s, t, key.group);
      assert forall u, g :: PromotesFor(s', u, g) <==> PromotesFor(s, u, g) && u != t;
      forall k | k in s'.world.entries
        ensures EntryAgrees(s', k)
      {
        if k.0 != key.group {
          EntryStays(s, s', k);
        }
      }
    }
  }

  lemma OtherStepsAgree(s: State, seen: Seen, e: Step)
    requires Fresh(s, seen) && Agrees(s) && Admissible(s, e) && (e.Other? || e.BeginAdd? || e.BeginRotate?)
    ensures Agrees(Next(s, e))
  {
    var s' := Next(s, e);
    assert forall u, g :: PromotesFor(s', u, g) <==> PromotesFor(s, u, g);
    forall k | k in s'.world.entries
      ensures EntryAgrees(s', k)
    {
      EntryStays(s, s', k);
    }
  }

  /** In every interleaving, a step breaks the agreement exactly when it is one of these. */
  lemma AgreementKeptIff(s: State, seen: Seen, e: Step)
    requires Fresh(s, seen) && Agrees(s) && Admissible(s, e)
    ensures Agrees(Next(s, e)) <==> !Slips(s, e)
  {
    match e {
      case StoreAdd(t, wire) => StoreAgreesIff(s, seen, t, wire);
      case Relay(t, wire) => RelayAgreesIff(s, seen, t, wire);
      case Promote(t) => PromoteAgrees(s, seen, t);
      case _ => OtherStepsAgree(s, seen, e);
    }
  }

  ghost predicate NeverSlips(s: State, steps: seq<Step>)
    decreases |steps|
  {
    steps == [] || (!Slips(s, steps[0]) && NeverSlips(Next(s, steps[0]), steps[1..]))
  }

  /** Over any interleaving without such a step, relay and store agree; when no promotion is left to
      do, every wrapped key is the one in the admin's store. */
  lemma {:induction false} RunKeepsAgreement(s: State, seen: Seen, steps: seq<Step>)
    requires Fresh(s, seen) && Agrees(s) && AdmissibleRun(s, steps) && NeverSlips(s, steps)
    ensures var end := Run(s, steps);
            && Agrees(end)
            && (forall k | k in end.world.entries && !(exists t :: PromotesFor(end, t, k.0)) ::
                  Current(end, k.0, end.world.entries[k].envelope.sik))
    decreases |steps|
  {
    if steps != [] {
      NextKeepsFresh(s, seen, steps[0]);
      AgreementKeptIff(s, seen, steps[0]);
      RunKeepsAgreement(Next(s, steps[0]), seen + Shown(Next(s, steps[0]).world.entries), steps[1..]);
    }
  }

  /** So it is for everything a new client can do. */
  lemma NewClientKeepsAgreement(steps: seq<Step>)
    requires AdmissibleRun(NEW, steps)
    ensures Fresh(Run(NEW, steps), SeenOver(NEW, steps, {}))
    ensures NeverSlips(NEW, steps) ==> Agrees(Run(NEW, steps))
  {
    RunKeepsFresh(NEW, {}, steps);
    if NeverSlips(NEW, steps) {
      RunKeepsAgreement(NEW, {}, steps);
    }
  }

  // ------------------------------------------------------------------- forward secrecy

  ghost predicate AddsAt(s: State, t: Thread, g: Uuid, m: Uuid) {
    t in s.flights && s.flights[t].Adding? && s.flights[t].wrapped.group == g && s.flights[t].wrapped.member == m
  }

  /** `m` does not run `g`, has not seen its key, and no addition under way would show it. */
  ghost predicate Secret(s: State, seen: Seen, g: Uuid, m: Uuid) {
    && g in s.world.groups && s.world.groups[g].admin != m
    && (g, m, s.world.groups[g].sik) !in seen
    && (forall t | AddsAt(s, t, g, m) :: s.flights[t].wrapped.envelope.sik != s.world.groups[g].sik)
  }

  ghost predicate NeverBeginsToAdd(steps: seq<Step>, g: Uuid, m: Uuid) {
    forall i | 0 <= i < |steps| :: !(steps[i].BeginAdd? && steps[i].group == g && steps[i].member == m)
  }

  lemma CurrentKeyAfter(s: State, e: Step, g: Uuid)
    requires g in s.world.groups && Admissible(s, e)
    ensures var w := Next(s, e).world;
            && g in w.groups
            && (w.groups[g] == s.world.groups[g]
                || (e.Promote? && PromotesFor(s, e.thread, g) && w.groups[g] == s.flights[e.thread].key))
  {
  }

  lemma AdditionsAfter(s: State, e: Step, t: Thread, g: Uuid, m: Uuid)
    requires AddsAt(Next(s, e), t, g, m) && !(e.BeginAdd? && e.group == g && e.member == m)
    requires forall h | h in s.world.groups :: s.world.groups[h].group == h
    ensures AddsAt(s, t, g, m) && Next(s, e).flights[t] == s.flights[t]
  {
  }

  lemma StaysSecret(s: State, seen: Seen, e: Step, g: Uuid, m: Uuid)
    requires Fresh(s, seen) && Secret(s, seen, g, m) && Admissible(s, e)
    requires !(e.BeginAdd? && e.group == g && e.member == m)
    ensures Secret(Next(s, e), seen + Shown(Next(s, e).world.entries), g, m)
  {
    var s' := Next(s, e);
    CurrentKeyAfter(s, e, g);
    var current := s'.world.groups[g];
    assert e.Relay? && RotatesAt(s, e.thread) ==> FlightOk(s.world, s.flights[e.thread]);
    if current != s.world.groups[g] {
      assert RotatesAt(s, e.thread) && Unborn(s, seen, current) && FlightOk(s.world, s.flights[e.thread]);
    }
    if (g, m, current.sik) in Shown(s'.world.entries) && (g, m, current.sik) !in Shown(s.world.entries) {
      NewlyShown(s, e, (g, m, current.sik));
    }
    forall t | AddsAt(s', t, g, m)
      ensures s'.flights[t].wrapped.envelope.sik != current.sik
    {
      AdditionsAfter(s, e, t, g, m);
    }
  }

  lemma {:induction false} SecretOverRun(s: State, seen: Seen, steps: seq<Step>, g: Uuid, m: Uuid)
    requires Fresh(s, seen) && Secret(s, seen, g, m) && AdmissibleRun(s, steps) && NeverBeginsToAdd(steps, g, m)
    ensures Secret(Run(s, steps), SeenOver(s, steps, seen), g, m)
    decreases |steps|
  {
    if steps != [] {
      NextKeepsFresh(s, seen, steps[0]);
      StaysSecret(s, seen, steps[0], g, m);
      SecretOverRun(Next(s, steps[0]), seen + Shown(Next(s, steps[0]).world.entries), steps[1..], g, m);
    }
  }

  /** Forward secrecy in every interleaving: once a removal has returned Ok, and until an addition of
      the member begins, the group's key is none the relay ever showed the member.  Additions that
      were under way may still store an entry, but only of a key from before. */
  lemma RemovedMemberNeverSeesTheKey(s: State, seen: Seen, t: Thread, m: Uuid, steps: seq<Step>)
    requires Fresh(s, seen) && t in s.flights && s.flights[t].Promoting? && s.flights[t].removed == Some(m)
    requires AdmissibleRun(Next(s, Promote(t)), steps) && NeverBeginsToAdd(steps, s.flights[t].key.group, m)
    ensures var g := s.flights[t].key.group;
            var s1 := Next(s, Promote(t));
            var end := Run(s1, steps);
            g in end.world.groups &&
            (g, m, end.world.groups[g].sik) !in SeenOver(s1, steps, seen + Shown(s1.world.entries))
  {
    var g, key, s1 := s.flights[t].key.group, s.flights[t].key, Next(s, Promote(t));
    NextKeepsFresh(s, seen, Promote(t));
    assert RotatesAt(s, t) && Unborn(s, seen, key) && FlightOk(s.world, s.flights[t]);
    assert Shown(s1.world.entries) <= seen;
    forall u | AddsAt(s1, u, g, m)
      ensures s1.flights[u].wrapped.envelope.sik != key.sik
    {
      assert u in s.flights && s.flights[u].Adding?;
    }
    assert Secret(s1, seen + Shown(s1.world.entries), g, m);
    SecretOverRun(s1, seen + Shown(s1.world.entries), steps, g, m);
  }

  /** The answer matters: if it is lost, the member's entry is gone but the admin goes on with a key
      the member has seen. */
  lemma UnansweredRemovalKeepsTheOldKey(s: State, seen: Seen, t: Thread, m: Uuid)
    requires Fresh(s, seen) && t in s.flights && s.flights[t].Relaying? && s.flights[t].removed == Some(m)
    requires var k := (s.flights[t].key.group, m);
             k in s.world.entries && Current(s, k.0, s.world.entries[k].envelope.sik)
    ensures var g, w := s.flights[t].key.group, Next(s, Relay(t, Unanswered)).world;
            g in w.groups && (g, m) !in w.entries && (g, m, w.groups[g].sik) in seen
  {
    var g := s.flights[t].key.group;
    assert FlightOk(s.world, s.flights[t]);
    Replaced(s.world.entries, s.flights[t].key, s.flights[t].pk);
    assert (g, m, s.world.entries[(g, m)].envelope.sik) in Shown(s.world.entries);
  }

  // ------------------------------------------------------------------- entries of a removed member

  /** No entry, and no addition under way that would make one. */
  ghost predicate Out(s: State, g: Uuid, m: Uuid) {
    && (g, m) !in s.world.entries && g in s.world.groups && s.world.groups[g].admin != m
    && (forall t :: !AddsAt(s, t, g, m))
  }

  lemma StaysOut(s: State, seen: Seen, e: Step, g: Uuid, m: Uuid)
    requires Fresh(s, seen) && Out(s, g, m) && Admissible(s, e)
    requires !(e.BeginAdd? && e.group == g && e.member == m)
    ensures Out(Next(s, e), g, m)
  {
    GroupsStay(s, seen, e, g);
    if e.Relay? && e.thread in s.flights && s.flights[e.thread].Relaying? {
      assert FlightOk(s.world, s.flights[e.thread]);
      Replaced(s.world.entries, s.flights[e.thread].key, s.flights[e.thread].pk);
    }
    assert e.StoreAdd? ==> !AddsAt(s, e.thread, g, m);
    forall t
      ensures !AddsAt(Next(s, e), t, g, m)
    {
      if AddsAt(Next(s, e), t, g, m) {
        AdditionsAfter(s, e, t, g, m);
      }
    }
  }

  lemma {:induction false} OutOverRun(s: State, seen: Seen, steps: seq<Step>, g: Uuid, m: Uuid)
    requires Fresh(s, seen) && Out(s, g, m) && AdmissibleRun(s, steps) && NeverBeginsToAdd(steps, g, m)
    ensures (g, m) !in Run(s, steps).world.entries
    decreases |steps|
  {
    if steps != [] {
      NextKeepsFresh(s, seen, steps[0]);
      StaysOut(s, seen, steps[0], g, m);
      OutOverRun(Next(s, steps[0]), seen + Shown(Next(s, steps[0]).world.entries), steps[1..], g, m);
    }
  }

  /** A member that is not the admin can come to have an entry without a new addition exactly when it
      has one or an addition of it is still under way. */
  lemma EntryComesBackIff(s: State, seen: Seen, g: Uuid, m: Uuid)
    requires Fresh(s, seen) && g in s.world.groups && s.world.groups[g].admin != m
    ensures (exists steps: seq<Step> :: AdmissibleRun(s, steps) && NeverBeginsToAdd(steps, g, m)
                                        && (g, m) in Run(s, steps).world.entries)
       <==> !Out(s, g, m)
  {
    if Out(s, g, m) {
      forall steps: seq<Step> | AdmissibleRun(s, steps) && NeverBeginsToAdd(steps, g, m)
        ensures (g, m) !in Run(s, steps).world.entries
      {
        OutOverRun(s, seen, steps, g, m);
      }
    } else if (g, m) in s.world.entries {
      assert AdmissibleRun(s, []) && NeverBeginsToAdd([], g, m) && Run(s, []) == s;
    } else {
      var t :| AddsAt(s, t, g, m);
      var steps, s' := [StoreAdd(t, Answered)], Next(s, StoreAdd(t, Answered));
      assert steps[1..] == [] && Run(s', []) == s' && AdmissibleRun(s', []);
      assert AdmissibleRun(s, steps) && NeverBeginsToAdd(steps, g, m) && Run(s, steps) == s';
    }
  }

  // ------------------------------------------------------------------- wrapped for the right key

  /** Every key ever published: (user, key). */
  type Published = set<(Uuid, PublicKey)>

  ghost function PublishedBy(s: State, e: Step, pub: Published): Published {
    if e.Other? && e.op.Publish? then pub + {(e.op.user, e.op.pk)} else pub
  }

  ghost function PublishedOver(s: State, steps: seq<Step>, pub: Published): Published
    decreases |steps|
  {
    if steps == [] then pub else PublishedOver(Next(s, steps[0]), steps[1..], PublishedBy(s, steps[0], pub))
  }

  /** Whatever is wrapped for a user, at the relay or under way, is wrapped for a key that user published. */
  ghost predicate OwnKeys(s: State, pub: Published) {
    && (forall u | u in s.world.publicKeys :: (u, s.world.publicKeys[u]) in pub)
    && (forall k | k in s.world.entries :: (k.1, s.world.entries[k].envelope.pk) in pub)
    && (forall t | t in s.flights :: FlightOwnKey(s.flights[t], pub))
  }

  ghost predicate FlightOwnKey(f: Flight, pub: Published) {
    match f
    case Adding(x) => (x.member, x.envelope.pk) in pub
    case Relaying(key, pk, _) => (key.admin, pk) in pub
    case Promoting(_, _) => true
  }

  lemma FlightKeepsOwnKey(s: State, e: Step, pub: Published, t: Thread)
    requires OwnKeys(s, pub) && t in Next(s, e).flights
    ensures FlightOwnKey(Next(s, e).flights[t], PublishedBy(s, e, pub))
  {
    assert t in s.flights ==> FlightOwnKey(s.flights[t], pub);
  }

  lemma EntryKeepsOwnKey(s: State, e: Step, pub: Published, k: (Uuid, Uuid))
    requires OwnKeys(s, pub) && k in Next(s, e).world.entries
    ensures (k.1, Next(s, e).world.entries[k].envelope.pk) in pub
  {
    if e.Relay? && e.thread in s.flights && s.flights[e.thread].Relaying? {
      Replaced(s.world.entries, s.flights[e.thread].key, s.flights[e.thread].pk);
    }
    assert (e.Relay? || e.StoreAdd?) && e.thread in s.flights ==> FlightOwnKey(s.flights[e.thread], pub);
  }

  lemma NextKeepsOwnKeys(s: State, e: Step, pub: Published)
    requires OwnKeys(s, pub)
    ensures OwnKeys(Next(s, e), PublishedBy(s, e, pub))
  {
    forall k | k in Next(s, e).world.entries
      ensures (k.1, Next(s, e).world.entries[k].envelope.pk) in pub
    {
      EntryKeepsOwnKey(s, e, pub, k);
    }
    forall t | t in Next(s, e).flights
      ensures FlightOwnKey(Next(s, e).flights[t], PublishedBy(s, e, pub))
    {
      FlightKeepsOwnKey(s, e, pub, t);
    }
  }

  /** In every interleaving nothing is ever wrapped for somebody else's key. */
  lemma {:induction false} RunKeepsOwnKeys(s: State, steps: seq<Step>, pub: Published)
    requires OwnKeys(s, pub)
    ensures OwnKeys(Run(s, steps), PublishedOver(s, steps, pub))
    decreases |steps|
  {
    if steps != [] {
      NextKeepsOwnKeys(s, steps[0], pub);
      RunKeepsOwnKeys(Next(s, steps[0]), steps[1..], PublishedBy(s, steps[0], pub));
    }
  }

  // ------------------------------------------------------------------- access

  /** The member's entry opens, with that key pair, to the key the admin encrypts with. */
  ghost predicate CanOpen(s: State, g: Uuid, m: Uuid, pk: PublicKey) {
    && g in s.world.groups && (g, m) in s.world.entries
    && Unwrap(s.world.entries[(g, m)], pk) == Some(s.world.groups[g].sik)
  }

  /** Replaces the group's entries or key, or the member's entry. */
  ghost predicate Disturbs(s: State, e: Step, g: Uuid, m: Uuid) {
    match e
    case Relay(t, wire) => !wire.Refused? && RotatesAt(s, t) && s.flights[t].key.group == g
    case Promote(t) => PromotesFor(s, t, g)
    case StoreAdd(t, wire) => !wire.Refused? && AddsAt(s, t, g, m)
    case _ => false
  }

  ghost predicate NeverDisturbed(s: State, steps: seq<Step>, g: Uuid, m: Uuid)
    decreases |steps|
  {
    steps == [] || (!Disturbs(s, steps[0], g, m) && NeverDisturbed(Next(s, steps[0]), steps[1..], g, m))
  }

  lemma StepKeepsAccess(s: State, e: Step, g: Uuid, m: Uuid, pk: PublicKey)
    requires CanOpen(s, g, m, pk) && Admissible(s, e) && !Disturbs(s, e, g, m)
    ensures CanOpen(Next(s, e), g, m, pk)
  {
    CurrentKeyAfter(s, e, g);
    if e.Relay? && e.thread in s.flights && s.flights[e.thread].Relaying? {
      Replaced(s.world.entries, s.flights[e.thread].key, s.flights[e.thread].pk);
    }
  }

  lemma {:induction false} AccessOverRun(s: State, steps: seq<Step>, g: Uuid, m: Uuid, pk: PublicKey)
    requires CanOpen(s, g, m, pk) && AdmissibleRun(s, steps) && NeverDisturbed(s, steps, g, m)
    ensures CanOpen(Run(s, steps), g, m, pk)
    decreases |steps|
  {
    if steps != [] {
      StepKeepsAccess(s, steps[0], g, m, pk);
      AccessOverRun(Next(s, steps[0]), steps[1..], g, m, pk);
    }
  }

  /** An addition whose key is still current gives the member access, with the key pair it was wrapped
      for, and keeps it through every interleaving that does not rotate the group; an addition
      that was overtaken gives none. */
  lemma AddedMemberHasAccessIff(s: State, seen: Seen, t: Thread, wire: Wire, steps: seq<Step>)
    requires Fresh(s, seen) && t in s.flights && s.flights[t].Adding? && !wire.Refused?
    requires var x := s.flights[t].wrapped; var s1 := Next(s, StoreAdd(t, wire));
             AdmissibleRun(s1, steps) && NeverDisturbed(s1, steps, x.group, x.member)
    ensures var x := s.flights[t].wrapped;
            && x.group in s.world.groups
            && (CanOpen(Next(s, StoreAdd(t, wire)), x.group, x.member, x.envelope.pk)
                <==> x.envelope.sik == s.world.groups[x.group].sik)
            && (x.envelope.sik == s.world.groups[x.group].sik ==>
                  CanOpen(Run(Next(s, StoreAdd(t, wire)), steps), x.group, x.member, x.envelope.pk))
  {
    var x, s1 := s.flights[t].wrapped, Next(s, StoreAdd(t, wire));
    assert FlightOk(s.world, s.flights[t]);
    if x.envelope.sik == s.world.groups[x.group].sik {
      AccessOverRun(s1, steps, x.group, x.member, x.envelope.pk);
    }
  }

  /** The addition stays under way: its thread does not store yet, and the group's key is not replaced. */
  ghost predicate Waits(s: State, steps: seq<Step>, t: Thread, g: Uuid)
    decreases |steps|
  {
    steps == [] ||
    (&& !(steps[0].StoreAdd? && steps[0].thread == t)
     && !(steps[0].Promote? && PromotesFor(s, steps[0].thread, g))
     && Waits(Next(s, steps[0]), steps[1..], t, g))
  }

  lemma {:induction false} AdditionWaits(s: State, steps: seq<Step>, t: Thread, g: Uuid)
    requires t in s.flights && s.flights[t].Adding? && g in s.world.groups && AdmissibleRun(s, steps) && Waits(s, steps, t, g)
    ensures var r := Run(s, steps);
            t in r.flights && r.flights[t] == s.flights[t] && g in r.world.groups && r.world.groups[g] == s.world.groups[g]
    decreases |steps|
  {
    if steps != [] {
      CurrentKeyAfter(s, steps[0], g);
      AdditionWaits(Next(s, steps[0]), steps[1..], t, g);
    }
  }

  /** The whole addition: whatever happens between its two steps and afterwards, short of replacing the
      group's key or entries, the member opens the group's key with the key pair it had published when
      the addition began. */
  lemma AddedMemberOpensWithItsOwnKey(
    s: State, seen: Seen, t: Thread, g: Uuid, m: Uuid, between: seq<Step>, wire: Wire, after: seq<Step>)
    requires Fresh(s, seen) && t !in s.flights && g in s.world.groups && m in s.world.publicKeys && !wire.Refused?
    requires var s1 := Next(s, BeginAdd(t, g, m)); AdmissibleRun(s1, between) && Waits(s1, between, t, g)
    requires var s3 := Next(Run(Next(s, BeginAdd(t, g, m)), between), StoreAdd(t, wire));
             AdmissibleRun(s3, after) && NeverDisturbed(s3, after, g, m)
    ensures var s3 := Next(Run(Next(s, BeginAdd(t, g, m)), between), StoreAdd(t, wire));
            CanOpen(Run(s3, after), g, m, s.world.publicKeys[m])
  {
    var s1 := Next(s, BeginAdd(t, g, m));
    AdditionWaits(s1, between, t, g);
    var s3 := Next(Run(s1, between), StoreAdd(t, wire));
    assert CanOpen(s3, g, m, s.world.publicKeys[m]);
    AccessOverRun(s3, after, g, m, s.world.publicKeys[m]);
  }

  /** A created group is its creator's: in the store under its id, with no entries, and the creator is
      the one member that cannot be removed. */
  lemma CreatorRunsTheGroup(s: State, seen: Seen, g: Uuid, admin: Uuid, m: Uuid, wire: Wire)
    requires Fresh(s, seen) && g !in s.world.groups
    ensures var w := Next(s, Other(Create(g, admin))).world;
            && g in w.groups && (g, m) !in w.entries
            && (admin in w.publicKeys && wire.Answered? ==> (Perform(w, Remove(g, m, wire)).1 <==> m != admin))
  {
  }
}
