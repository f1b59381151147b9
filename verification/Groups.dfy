/**
 Group sharing: the admin's store of group keys and the relay's table of keys wrapped
 for members.  Adding a member wraps the current group key; removing one and rotating
 draw a fresh key and replace the group's whole entry list.

 A request to the relay may be refused, or carried out without the answer coming back.
 */
module Groups {
  import opened Common

  /** A sharing key pair; the public half stands for it. */
  type PublicKey = nat

  /** Group keys are numbered in the order they are drawn. */
  type Sik = nat

  datatype GroupKey = GroupKey(group: Uuid, admin: Uuid, sik: Sik)

  /** A KEM envelope: opens with the key pair it was made for, under the group it was made for. */
  datatype Envelope = Envelope(pk: PublicKey, ad: Uuid, sik: Sik)

  datatype Wrapped = Wrapped(group: Uuid, member: Uuid, envelope: Envelope)

  type Entries = map<(Uuid, Uuid), Wrapped>

  datatype Wire = Answered | Refused | Unanswered

  datatype World = World(publicKeys: map<Uuid, PublicKey>, entries: Entries, groups: map<Uuid, GroupKey>, next: Sik)

  function Wrap(key: GroupKey, member: Uuid, pk: PublicKey): Wrapped {
    Wrapped(key.group, member, Envelope(pk, key.group, key.sik))
  }

  /** Member side. */
  function Unwrap(w: Wrapped, pk: PublicKey): Option<Sik> {
    if w.envelope.pk == pk && w.envelope.ad == w.group then Some(w.envelope.sik) else None
  }

  // ------------------------------------------------------------------- relay and key operations

  function InsertAll(e: Entries, ws: seq<Wrapped>): Entries
    decreases |ws|
  {
    if ws == [] then e else InsertAll(e[(ws[0].group, ws[0].member) := ws[0]], ws[1..])
  }

  /** `replace_group_wrapped_keys`: the first key names the group whose old entries go. */
  function Replace(e: Entries, ws: seq<Wrapped>): Entries {
    if ws == [] then e
    else InsertAll(map k | k in e && k.0 != ws[0].group :: e[k], ws)
  }

  function Rewrap(key: GroupKey, members: seq<(Uuid, PublicKey)>): seq<Wrapped> {
    seq(|members|, i requires 0 <= i < |members| => Wrap(key, members[i].0, members[i].1))
  }

  // ------------------------------------------------------------------- client operations

  datatype Op =
    | Publish(user: Uuid, pk: PublicKey)
    | Create(group: Uuid, admin: Uuid)
    | Add(group: Uuid, member: Uuid, wire: Wire)
    | Remove(group: Uuid, member: Uuid, wire: Wire)
    | Rotate(group: Uuid, wire: Wire)

  function AddMember(w: World, g: Uuid, m: Uuid, wire: Wire): (World, bool) {
    if g !in w.groups || m !in w.publicKeys || wire.Refused? then (w, false)
    else
      var x := Wrap(w.groups[g], m, w.publicKeys[m]);
      (w.(entries := w.entries[(x.group, x.member) := x]), wire.Answered?)
  }

  function RotateGroup(w: World, g: Uuid, wire: Wire): (World, bool) {
    if g !in w.groups || w.groups[g].admin !in w.publicKeys then (w, false)
    else
      var admin := w.groups[g].admin;
      var key := GroupKey(g, admin, w.next);
      var drawn := w.(next := w.next + 1);
      var replaced := Replace(w.entries, Rewrap(key, [(admin, w.publicKeys[admin])]));
      match wire
      case Refused => (drawn, false)
      case Unanswered => (drawn.(entries := replaced), false)
      case Answered => (drawn.(entries := replaced, groups := w.groups[g := key]), true)
  }

  /** Only the admin is passed on as remaining, so only the admin cannot be removed. */
  function RemoveMember(w: World, g: Uuid, m: Uuid, wire: Wire): (World, bool) {
    if g in w.groups && w.groups[g].admin == m then (w, false) else RotateGroup(w, g, wire)
  }

  function Perform(w: World, op: Op): (World, bool) {
    match op
    case Publish(u, pk) => (w.(publicKeys := w.publicKeys[u := pk]), true)
    case Create(g, admin) => (w.(groups := w.groups[g := GroupKey(g, admin, w.next)], next := w.next + 1), true)
    case Add(g, m, wire) => AddMember(w, g, m, wire)
    case Remove(g, m, wire) => RemoveMember(w, g, m, wire)
    case Rotate(g, wire) => RotateGroup(w, g, wire)
  }

  // ------------------------------------------------------------------- the entries after a rotation

  /** Of the rotated group only the admin's entry is left, and it opens to the new key; other groups
      keep theirs.  The remaining members lose their access with the removed one. */
  lemma EntriesAfterRotation(w: World, g: Uuid, wire: Wire, h: Uuid, m: Uuid)
    requires g in w.groups && w.groups[g].admin in w.publicKeys && !wire.Refused?
    ensures var e := RotateGroup(w, g, wire).0.entries;
            if h != g then (h, m) in e <==> (h, m) in w.entries
            else (h, m) in e <==> m == w.groups[g].admin
    ensures var e := RotateGroup(w, g, wire).0.entries;
            forall k | k in e :: if k.0 != g then k in w.entries && e[k] == w.entries[k]
                                 else Unwrap(e[k], w.publicKeys[w.groups[g].admin]) == Some(w.next)
                                      && e[k].group == g && e[k].member == k.1
  {
    var admin := w.groups[g].admin;
    var key := GroupKey(g, admin, w.next);
    var ws := Rewrap(key, [(admin, w.publicKeys[admin])]);
    assert ws == [Wrap(key, admin, w.publicKeys[admin])] && ws[1..] == [];
    var others := map k | k in w.entries && k.0 != g :: w.entries[k];
    assert Replace(w.entries, ws) == InsertAll(others[(g, admin) := ws[0]], []);
  }

  /** A rotation that is answered brings its group back into agreement, whatever happened before. */
  lemma RotationMends(w: World, g: Uuid)
    requires g in w.groups && w.groups[g].admin in w.publicKeys
    ensures var w' := RotateGroup(w, g, Answered).0;
            forall m | (g, m) in w'.entries ::
              w'.entries[(g, m)].envelope.sik == w'.groups[g].sik && m == w'.groups[g].admin
  {
    forall m | (g, m) in RotateGroup(w, g, Answered).0.entries
      ensures m == w.groups[g].admin
    {
      EntriesAfterRotation(w, g, Answered, g, m);
    }
    EntriesAfterRotation(w, g, Answered, g, w.groups[g].admin);
  }

  // ------------------------------------------------------------------- the running code

  class GroupAdmin {
    var userId: Option<Uuid>
    var connected: bool
    var publicKeys: map<Uuid, PublicKey>
    var entries: Entries
    var groups: map<Uuid, GroupKey>
    var next: Sik

    constructor (userId: Option<Uuid>, connected: bool)
      ensures State() == World(map[], map[], map[], 0) && this.userId == userId && this.connected == connected
    {
      this.userId, this.connected := userId, connected;
      publicKeys, entries, groups, next := map[], map[], map[], 0;
    }

    ghost function State(): World
      reads this
    {
      World(publicKeys, entries, groups, next)
    }

    /** The relay: drop the group's entries, then insert the new ones one by one. */
    method ReplaceWrappedKeys(ws: seq<Wrapped>)
      modifies this`entries
      ensures entries == Replace(old(entries), ws)
    {
      ghost var result := Replace(entries, ws);
      if ws != [] {
        entries := map k | k in entries && k.0 != ws[0].group :: entries[k];
      }
      assert ws[0..] == ws;
      for i := 0 to |ws|
        invariant InsertAll(entries, ws[i..]) == result
      {
        assert ws[i..][0] == ws[i] && ws[i..][1..] == ws[i + 1..];
        entries := entries[(ws[i].group, ws[i].member) := ws[i]];
      }
    }

    /** Wrap a fresh key for each of the remaining members. */
    method RewrapFor(key: GroupKey, members: seq<(Uuid, PublicKey)>) returns (ws: seq<Wrapped>)
      ensures ws == Rewrap(key, members)
    {
      ws := [];
      for i := 0 to |members|
        invariant |ws| == i && forall j | 0 <= j < i :: ws[j] == Wrap(key, members[j].0, members[j].1)
      {
        ws := ws + [Wrap(key, members[i].0, members[i].1)];
      }
    }

    method CreateGroup(id: Uuid) returns (ok: bool)
      modifies this`groups, this`next
      ensures ok == userId.Some?
      ensures State() == if ok then old(Perform(State(), Create(id, userId.value)).0) else old(State())
    {
      ok := userId.Some?;
      if ok {
        groups, next := groups[id := GroupKey(id, userId.value, next)], next + 1;
      }
    }

    method AddGroupMember(g: Uuid, m: Uuid, wire: Wire) returns (ok: bool)
      modifies this`entries
      ensures !connected ==> unchanged(this) && !ok
      ensures connected ==> (State(), ok) == old(Perform(State(), Add(g, m, wire)))
    {
      if !connected || g !in groups || m !in publicKeys || wire.Refused? {
        return false;
      }
      var wrapped := Wrap(groups[g], m, publicKeys[m]);
      entries := entries[(wrapped.group, wrapped.member) := wrapped];
      ok := wire.Answered?;
    }

    method RotateGroupSik(g: Uuid, wire: Wire) returns (ok: bool)
      modifies this`entries, this`groups, this`next
      ensures !connected ==> unchanged(this) && !ok
      ensures connected ==> (State(), ok) == old(Perform(State(), Rotate(g, wire)))
    {
      if !connected || g !in groups || groups[g].admin !in publicKeys {
        return false;
      }
      var admin := groups[g].admin;
      var key := GroupKey(g, admin, next);
      next := next + 1;
      var ws := RewrapFor(key, [(admin, publicKeys[admin])]);
      if wire.Refused? {
        return false;
      }
      ReplaceWrappedKeys(ws);
      if wire.Unanswered? {
        return false;
      }
      groups := groups[g := key];
      ok := true;
    }

    /** The admin would be in the remaining set, which is refused. */
    method RemoveGroupMember(g: Uuid, m: Uuid, wire: Wire) returns (ok: bool)
      modifies this`entries, this`groups, this`next
      ensures !connected ==> unchanged(this) && !ok
      ensures connected ==> (State(), ok) == old(Perform(State(), Remove(g, m, wire)))
    {
      if connected && g in groups && groups[g].admin == m {
        return false;
      }
      ok := RotateGroupSik(g, wire);
    }
  }
}
