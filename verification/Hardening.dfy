/**
 Crash-report scrubbing.  Text is taken as its UTF-8 octets, one `char` each, since the
 scanner works on octets.
 */
module Hardening {
  import opened Common

  // ------------------------------------------------------------------- the UUID scanner

  predicate HexDigit(c: char) {
    '0' <= c <= '9' || 'a' <= c <= 'f' || 'A' <= c <= 'F'
  }

  predicate DashPlace(i: int) {
    i == 8 || i == 13 || i == 18 || i == 23
  }

  predicate PlaceOk(c: char, i: int) {
    if DashPlace(i) then c == '-' else HexDigit(c)
  }

  /** What the two loops of `is_uuid_at` establish about the window. */
  predicate UuidPlaces(w: string)
    requires |w| == 36
  {
    forall i | 0 <= i < 36 :: PlaceOk(w[i], i)
  }

  function Window(s: string, i: nat, n: nat): string
    requires i + n <= |s|
  {
    s[i..i + n]
  }

  ghost predicate HexGroup(g: string, n: nat) {
    |g| == n && forall i | 0 <= i < n :: HexDigit(g[i])
  }

  ghost function Joined(a: string, b: string, c: string, d: string, e: string): string {
    a + "-" + b + "-" + c + "-" + d + "-" + e
  }

  /** The textual form of RFC 4122, section 3: hex groups of 8, 4, 4, 4 and 12 digits. */
  ghost predicate UuidForm(w: string) {
    exists a, b, c, d, e ::
      && HexGroup(a, 8) && HexGroup(b, 4) && HexGroup(c, 4) && HexGroup(d, 4) && HexGroup(e, 12)
      && w == Joined(a, b, c, d, e)
  }

  ghost predicate ContainsUuid(s: string) {
    exists i: nat :: i + 36 <= |s| && UuidForm(Window(s, i, 36))
  }

  lemma JoinedAt(a: string, b: string, c: string, d: string, e: string, i: nat)
    requires |a| == 8 && |b| == 4 && |c| == 4 && |d| == 4 && |e| == 12 && i < 36
    ensures var w := Joined(a, b, c, d, e);
            && |w| == 36
            && w[i] == if i < 8 then a[i] else if i == 8 then '-' else if i < 13 then b[i - 9]
                       else if i == 13 then '-' else if i < 18 then c[i - 14] else if i == 18 then '-'
                       else if i < 23 then d[i - 19] else if i == 23 then '-' else e[i - 24]
  {
    var ab := a + "-" + b;
    var abc := ab + "-" + c;
    assert |ab| == 13 && |abc| == 18;
  }

  lemma FormIsPlaces(w: string)
    requires |w| == 36
    ensures UuidForm(w) <==> UuidPlaces(w)
  {
    if UuidForm(w) {
      var a, b, c, d, e :| HexGroup(a, 8) && HexGroup(b, 4) && HexGroup(c, 4) && HexGroup(d, 4) && HexGroup(e, 12)
                           && w == Joined(a, b, c, d, e);
      forall i | 0 <= i < 36
        ensures PlaceOk(w[i], i)
      {
        JoinedAt(a, b, c, d, e, i);
      }
    }
    if UuidPlaces(w) {
      PlacesAreForm(w);
    }
  }

  lemma GroupOf(w: string, from: nat, to: nat)
    requires |w| == 36 && from <= to <= 36 && UuidPlaces(w) && forall i | from <= i < to :: !DashPlace(i)
    ensures HexGroup(w[from..to], to - from)
  {
    forall i | 0 <= i < to - from
      ensures HexDigit(w[from..to][i])
    {
      assert w[from..to][i] == w[from + i] && PlaceOk(w[from + i], from + i);
    }
  }

  lemma PlacesAreForm(w: string)
    requires |w| == 36 && UuidPlaces(w)
    ensures UuidForm(w)
  {
    var a, b, c, d, e := w[0..8], w[9..13], w[14..18], w[19..23], w[24..36];
    GroupOf(w, 0, 8);
    GroupOf(w, 9, 13);
    GroupOf(w, 14, 18);
    GroupOf(w, 19, 23);
    GroupOf(w, 24, 36);
    var j := Joined(a, b, c, d, e);
    JoinedAt(a, b, c, d, e, 0);
    forall i: nat | i < 36
      ensures j[i] == w[i]
    {
      JoinedAt(a, b, c, d, e, i);
      assert PlaceOk(w[i], i);
    }
    assert w == j;
  }

  method IsUuidAt(s: string, start: nat) returns (found: bool)
    requires start + 36 <= |s|
    ensures found <==> UuidForm(Window(s, start, 36))
  {
    ghost var w := Window(s, start, 36);
    FormIsPlaces(w);
    var dashes := [8, 13, 18, 23];
    for k := 0 to 4
      invariant forall j | 0 <= j < k :: w[dashes[j]] == '-'
    {
      assert s[start + dashes[k]] == w[dashes[k]];
      if s[start + dashes[k]] != '-' {
        assert DashPlace(dashes[k]) && !PlaceOk(w[dashes[k]], dashes[k]);
        return false;
      }
    }
    assert w[dashes[0]] == '-' && w[dashes[1]] == '-' && w[dashes[2]] == '-' && w[dashes[3]] == '-';
    for i := 0 to 36
      invariant forall j | 0 <= j < i :: PlaceOk(w[j], j)
    {
      assert s[start + i] == w[i];
      if i !in dashes && !HexDigit(s[start + i]) {
        assert !PlaceOk(w[i], i);
        return false;
      }
    }
    return true;
  }

  /** `looks_like_uuid` holds exactly when some 36-octet window has the form. */
  method LooksLikeUuid(s: string) returns (found: bool)
    ensures found <==> ContainsUuid(s)
  {
    if |s| < 36 {
      return false;
    }
    for start := 0 to |s| - 36 + 1
      invariant forall i: nat :: i < start ==> !UuidForm(Window(s, i, 36))
    {
      var here := IsUuidAt(s, start);
      if here {
        return true;
      }
    }
    return false;
  }

  // ------------------------------------------------------------------- events

  predicate Contains(s: string, part: string) {
    exists i: nat :: i + |part| <= |s| && Window(s, i, |part|) == part
  }

  predicate SecretKey(key: string) {
    var k := Lower(key);
    || Contains(k, "secret") || Contains(k, "password") || Contains(k, "token") || Contains(k, "decrypted")
    || Contains(k, "plaintext") || Contains(k, "title") || Contains(k, "email") || Contains(k, "mnemonic")
    || k == "uuid"
  }

  /** Text that must not leave the device. */
  ghost predicate Leaks(s: string) {
    ContainsUuid(s) || Contains(s, "DecryptedSecret") || Contains(s, "DecryptedOverview")
  }

  datatype Value = Text(text: string) | Scalar(n: int) | Nested(parts: seq<Value>)

  datatype User = User(id: Option<string>, email: Option<string>)

  datatype Event = Event(
    message: Option<string>, breadcrumbs: seq<string>, stacktrace: Option<seq<string>>,
    extra: map<string, Value>, user: Option<User>)

  const REDACTED := "[redacted]"

  ghost predicate Dropped(key: string, value: Value) {
    SecretKey(key) || (value.Text? && Leaks(value.text))
  }

  ghost function ScrubbedUser(u: User): User {
    User(if u.id.Some? && ContainsUuid(u.id.value) then None else u.id,
         if u.email.Some? && u.email.value != "" then None else u.email)
  }

  /** The scrubber as one filter. */
  ghost function Scrubbed(e: Event): Event {
    Event(
      if e.message.Some? && Leaks(e.message.value) then Some(REDACTED) else e.message,
      e.breadcrumbs, e.stacktrace,
      map k | k in e.extra && !Dropped(k, e.extra[k]) :: e.extra[k],
      if e.user.Some? then Some(ScrubbedUser(e.user.value)) else None)
  }

  /** Nothing the scrubber looks for is there. */
  ghost predicate Clean(e: Event) {
    && (e.message.Some? ==> !Leaks(e.message.value))
    && (e.user.Some? && e.user.value.id.Some? ==> !ContainsUuid(e.user.value.id.value))
    && (e.user.Some? && e.user.value.email.Some? ==> e.user.value.email.value == "")
    && (forall k | k in e.extra :: !Dropped(k, e.extra[k]))
  }

  lemma RedactedIsClean()
    ensures !Leaks(REDACTED)
  {
  }

  /** A scrubbed event is clean, scrubbing leaves clean events alone and only those, and diagnostics
      pass through. */
  lemma ScrubCleans(e: Event)
    ensures Clean(Scrubbed(e))
    ensures Scrubbed(e) == e <==> Clean(e)
    ensures Scrubbed(e).breadcrumbs == e.breadcrumbs && Scrubbed(e).stacktrace == e.stacktrace
  {
    RedactedIsClean();
    if Clean(e) {
      assert Scrubbed(e).extra == e.extra;
    }
    if Scrubbed(e) == e {
      assert forall k | k in e.extra :: k in Scrubbed(e).extra;
    }
  }

  /** The words that mark a key as secret, whatever their case and whatever stands around them. */
  function SecretWords(): seq<string> {
    ["secret", "password", "token", "decrypted", "plaintext", "title", "email", "mnemonic"]
  }

  /** No key with one of these words, and no key that is `uuid` in any case, is left. */
  lemma NoSecretKeyIsLeft(e: Event, key: string, word: string)
    requires key in Scrubbed(e).extra && word in SecretWords()
    ensures !Contains(Lower(key), word) && Lower(key) != "uuid"
  {
  }

  /** What is scrubbed is replaced or dropped, and everything else about the event stays: the message
      is there as before, in the clear or redacted; a harmless id, an empty email and every other
      extra are kept. */
  lemma ScrubKeepsTheRest(e: Event, key: string)
    ensures var s := Scrubbed(e);
            && (s.message.Some? <==> e.message.Some?)
            && (e.message.Some? ==> s.message == Some(if Leaks(e.message.value) then "[redacted]" else e.message.value))
            && (s.user.Some? <==> e.user.Some?)
            && (e.user.Some? ==>
                  && (s.user.value.id == e.user.value.id || (s.user.value.id == None && ContainsUuid(e.user.value.id.value)))
                  && (s.user.value.email == e.user.value.email || (s.user.value.email == None && e.user.value.email != Some(""))))
            && (key in s.extra <==>
                  key in e.extra && !SecretKey(key) && !(e.extra[key].Text? && Leaks(e.extra[key].text)))
            && (key in s.extra ==> s.extra[key] == e.extra[key])
  {
  }

  lemma ScrubIsIdempotent(e: Event)
    ensures Scrubbed(Scrubbed(e)) == Scrubbed(e)
  {
    ScrubCleans(e);
    ScrubCleans(Scrubbed(e));
  }

  // ------------------------------------------------------------------- the running code

  class CrashEvent {
    var message: Option<string>
    var breadcrumbs: seq<string>
    var stacktrace: Option<seq<string>>
    var extra: map<string, Value>
    var user: Option<User>

    constructor (e: Event)
      ensures Contents() == e
    {
      message, breadcrumbs, stacktrace, extra, user := e.message, e.breadcrumbs, e.stacktrace, e.extra, e.user;
    }

    ghost function Contents(): Event
      reads this
    {
      Event(message, breadcrumbs, stacktrace, extra, user)
    }

    method LeaksAnything(s: string) returns (leaks: bool)
      ensures leaks <==> Leaks(s)
    {
      leaks := LooksLikeUuid(s);
      leaks := leaks || Contains(s, "DecryptedSecret") || Contains(s, "DecryptedOverview");
    }

    method ScrubUser()
      modifies this`user
      ensures user == if old(user).Some? then Some(ScrubbedUser(old(user).value)) else None
    {
      if user.Some? {
        if user.value.email.Some? && user.value.email.value != "" {
          user := Some(user.value.(email := None));
        }
        if user.value.id.Some? {
          var account := LooksLikeUuid(user.value.id.value);
          if account {
            user := Some(user.value.(id := None));
          }
        }
      }
    }

    /** First pass over the extras, in the map's own order: which keys have to go. */
    method KeysToRemove(order: seq<string>) returns (gone: seq<string>)
      requires forall k :: k in order <==> k in extra
      ensures forall k :: k in gone <==> k in extra && Dropped(k, extra[k])
    {
      gone := [];
      for i := 0 to |order|
        invariant forall k :: k in gone <==> k in order[..i] && k in extra && Dropped(k, extra[k])
      {
        var key := order[i];
        assert key in order && order[..i + 1] == order[..i] + [key];
        if SecretKey(key) {
          gone := gone + [key];
        } else if extra[key].Text? {
          var leaks := LeaksAnything(extra[key].text);
          if leaks {
            gone := gone + [key];
          }
        }
      }
      assert order[..|order|] == order;
    }

    /** Second pass: remove them. */
    method RemoveKeys(gone: seq<string>)
      modifies this`extra
      ensures extra == map k | k in old(extra) && k !in gone :: old(extra)[k]
    {
      ghost var before := extra;
      for i := 0 to |gone|
        invariant extra == map k | k in before && k !in gone[..i] :: before[k]
      {
        assert gone[..i + 1] == gone[..i] + [gone[i]];
        extra := extra - {gone[i]};
      }
      assert gone[..|gone|] == gone;
    }

    method ScrubMessage()
      modifies this`message
      ensures message == if old(message).Some? && Leaks(old(message).value) then Some(REDACTED) else old(message)
    {
      if message.Some? {
        var leaks := LeaksAnything(message.value);
        if leaks {
          message := Some(REDACTED);
        }
      }
    }

    method ScrubCrashEvent(order: seq<string>)
      requires forall k :: k in order <==> k in extra
      modifies this
      ensures Contents() == Scrubbed(old(Contents()))
      ensures Clean(Contents())
    {
      ScrubCleans(Contents());
      ScrubMessage();
      ScrubUser();
      var gone := KeysToRemove(order);
      RemoveKeys(gone);
    }
  }
}
