/** Version strings: parsing the leading `major.minor.patch`, and what the update check makes of it. */
module Versions {
  import opened Common

  type Triple = (nat, nat, nat)

  // ------------------------------------------------------------------- parsing

  predicate Numeral(c: char) {
    '0' <= c <= '9'
  }

  function Value(s: string): nat
    requires forall i | 0 <= i < |s| :: Numeral(s[i])
    decreases |s|
  {
    if s == "" then 0
    else
      assert Numeral(s[|s| - 1]);
      10 * Value(s[..|s| - 1]) + (s[|s| - 1] - '0') as int
  }

  /** `parse::<u32>().ok().unwrap_or(0)`; a sign cannot occur, since signs end the core. */
  function Component(s: string): nat {
    if s != "" && (forall i | 0 <= i < |s| :: Numeral(s[i])) && Value(s) < U32 then Value(s) else 0
  }

  predicate Among(c: char, stops: string) {
    c in stops
  }

  /** The text before the first stop, and the text after it. */
  function Before(s: string, stops: string): string {
    if s == "" || Among(s[0], stops) then "" else [s[0]] + Before(s[1..], stops)
  }

  function After(s: string, stops: string): string {
    if s == "" then "" else if Among(s[0], stops) then s[1..] else After(s[1..], stops)
  }

  /** A missing part and an empty one both count as 0. */
  function ParseVersion(v: string): Triple {
    var core := Before(v, "-+");
    var rest := After(core, ".");
    (Component(Before(core, ".")), Component(Before(rest, ".")), Component(Before(After(rest, "."), ".")))
  }

  predicate Less(a: Triple, b: Triple) {
    a.0 < b.0 || (a.0 == b.0 && (a.1 < b.1 || (a.1 == b.1 && a.2 < b.2)))
  }

  predicate IsNewer(current: string, candidate: string) {
    Less(ParseVersion(current), ParseVersion(candidate))
  }

  // ------------------------------------------------------------------- printing

  function Show(n: nat): (s: string)
    ensures s != "" && forall i | 0 <= i < |s| :: Numeral(s[i])
  {
    var d := ['0' + (n % 10) as char];
    if n < 10 then d else Show(n / 10) + d
  }

  lemma {:induction false} ShowReadsBack(n: nat)
    ensures Value(Show(n)) == n
  {
    var s := Show(n);
    assert s[|s| - 1] == '0' + (n % 10) as char;
    if n < 10 {
      assert s[..|s| - 1] == "";
    } else {
      ShowReadsBack(n / 10);
      assert s[..|s| - 1] == Show(n / 10);
    }
  }

  ghost predicate StopFree(s: string, stops: string) {
    forall i | 0 <= i < |s| :: !Among(s[i], stops)
  }

  /** Cutting at a stop. */
  lemma {:induction false} CutAt(s: string, t: string, stops: string)
    requires StopFree(s, stops) && (t == "" || Among(t[0], stops))
    ensures Before(s + t, stops) == s
    ensures After(s + t, stops) == if t == "" then "" else t[1..]
    decreases |s|
  {
    if s == "" {
      assert s + t == t;
    } else {
      assert (s + t)[0] == s[0] && (s + t)[1..] == s[1..] + t;
      assert !Among(s[0], stops);
      CutAt(s[1..], t, stops);
    }
  }

  lemma NumeralsAreStopFree(n: nat)
    ensures StopFree(Show(n), "-+") && StopFree(Show(n), ".")
  {
    var s := Show(n);
    forall i | 0 <= i < |s|
      ensures !Among(s[i], "-+") && !Among(s[i], ".")
    {
      assert Numeral(s[i]);
    }
  }

  /** Nothing, further dotted parts, a pre-release or build metadata. */
  ghost predicate Suffix(t: string) {
    t == "" || Among(t[0], ".-+")
  }

  lemma {:induction false} BeforeSplits(s: string, t: string, stops: string)
    requires StopFree(s, stops)
    ensures Before(s + t, stops) == s + Before(t, stops)
    decreases |s|
  {
    if s == "" {
      assert s + t == t;
    } else {
      assert (s + t)[0] == s[0] && (s + t)[1..] == s[1..] + t;
      assert !Among(s[0], stops);
      BeforeSplits(s[1..], t, stops);
    }
  }

  /** The core of a printed version keeps the three numbers; whatever follows starts with a dot. */
  lemma CoreOf(a: nat, b: nat, c: nat, t: string)
    requires Suffix(t)
    ensures var tail := Before(t, "-+");
            && (tail == "" || Among(tail[0], "."))
            && Before(Show(a) + ("." + (Show(b) + ("." + (Show(c) + t)))), "-+")
               == Show(a) + ("." + (Show(b) + ("." + (Show(c) + tail))))
  {
    NumeralsAreStopFree(a);
    NumeralsAreStopFree(b);
    NumeralsAreStopFree(c);
    BeforeSplits(Show(c), t, "-+");
    BeforeSplits(".", Show(c) + t, "-+");
    BeforeSplits(Show(b), "." + (Show(c) + t), "-+");
    BeforeSplits(".", Show(b) + ("." + (Show(c) + t)), "-+");
    BeforeSplits(Show(a), "." + (Show(b) + ("." + (Show(c) + t))), "-+");
  }

  /** Any printed triple is recovered, whatever suffix follows it. */
  lemma ParseRecoversTriple(a: nat, b: nat, c: nat, t: string)
    requires a < U32 && b < U32 && c < U32 && Suffix(t)
    ensures ParseVersion(Show(a) + ("." + (Show(b) + ("." + (Show(c) + t))))) == (a, b, c)
  {
    CoreOf(a, b, c, t);
    var tail := Before(t, "-+");
    var third := Show(c) + tail;
    var second := Show(b) + ("." + third);
    NumeralsAreStopFree(a);
    NumeralsAreStopFree(b);
    NumeralsAreStopFree(c);
    CutAt(Show(a), "." + second, ".");
    assert ("." + second)[1..] == second;
    CutAt(Show(b), "." + third, ".");
    assert ("." + third)[1..] == third;
    CutAt(Show(c), tail, ".");
    ShowReadsBack(a);
    ShowReadsBack(b);
    ShowReadsBack(c);
  }

  /** A number beyond 32 bits counts as 0. */
  lemma OversizeCountsAsZero(n: nat)
    ensures Component(Show(n)) == if n < U32 then n else 0
  {
    ShowReadsBack(n);
  }

  // ------------------------------------------------------------------- chains of updates

  /** The versions installed in turn when a client is offered these manifests. */
  function Installed(current: string, offers: seq<string>): seq<string>
    decreases |offers|
  {
    if offers == [] then []
    else if IsNewer(current, offers[0]) then [offers[0]] + Installed(offers[0], offers[1..])
    else Installed(current, offers[1..])
  }

  /** The version as one number, most significant component first. */
  ghost function Rank(v: string): nat {
    RankOf(ParseVersion(v))
  }

  ghost function RankOf(t: Triple): nat {
    t.0 * U32 * U32 + t.1 * U32 + t.2
  }

  lemma RankOrder(a: Triple, b: Triple)
    requires a.1 < U32 && a.2 < U32 && b.1 < U32 && b.2 < U32
    ensures Less(a, b) <==> RankOf(a) < RankOf(b)
  {
  }

  /** Newer means greater as a number. */
  lemma NewerIffGreater(current: string, candidate: string)
    ensures IsNewer(current, candidate) <==> Rank(current) < Rank(candidate)
  {
    RankOrder(ParseVersion(current), ParseVersion(candidate));
  }

  ghost function Ranks(vs: seq<string>): seq<nat> {
    seq(|vs|, i requires 0 <= i < |vs| => Rank(vs[i]))
  }

  ghost predicate AllAbove(n: nat, ns: seq<nat>) {
    forall i | 0 <= i < |ns| :: n < ns[i]
  }

  ghost predicate Climbing(ns: seq<nat>) {
    forall i, j | 0 <= i < j < |ns| :: ns[i] < ns[j]
  }

  lemma ClimbOn(current: nat, first: nat, rest: seq<nat>)
    requires current < first && AllAbove(first, rest) && Climbing(rest)
    ensures AllAbove(current, [first] + rest) && Climbing([first] + rest)
  {
  }

  lemma RanksOf(v: string, vs: seq<string>)
    ensures Ranks([v] + vs) == [Rank(v)] + Ranks(vs)
  {
  }

  /** Every installed version is greater than the one it started from and than all installed before
      it, so no chain of offers leads down or back. */
  lemma {:induction false} UpdatesClimb(current: string, offers: seq<string>)
    ensures AllAbove(Rank(current), Ranks(Installed(current, offers)))
    ensures Climbing(Ranks(Installed(current, offers)))
    decreases |offers|
  {
    if offers != [] {
      var offer, later := offers[0], offers[1..];
      NewerIffGreater(current, offer);
      if IsNewer(current, offer) {
        UpdatesClimb(offer, later);
        RanksOf(offer, Installed(offer, later));
        ClimbOn(Rank(current), Rank(offer), Ranks(Installed(offer, later)));
      } else {
        UpdatesClimb(current, later);
      }
    }
  }

  /** The version in use after the offers. */
  function Latest(current: string, offers: seq<string>): string {
    var vs := Installed(current, offers);
    if vs == [] then current else vs[|vs| - 1]
  }

  /** And no offer is missed: what is in use at the end is one of them or the start, and none of them
      is greater. */
  lemma {:induction false} NothingNewerIsMissed(current: string, offers: seq<string>)
    ensures var latest := Latest(current, offers);
            && (latest == current || latest in offers) && Rank(current) <= Rank(latest)
            && forall i | 0 <= i < |offers| :: Rank(offers[i]) <= Rank(latest)
    decreases |offers|
  {
    if offers != [] {
      var next := LatestOnward(current, offers);
      NothingNewerIsMissed(next, offers[1..]);
      forall i | 0 <= i < |offers|
        ensures Rank(offers[i]) <= Rank(Latest(next, offers[1..]))
      {
        assert i > 0 ==> offers[i] == offers[1..][i - 1];
      }
    }
  }

  /** One offer taken or left. */
  lemma LatestOnward(current: string, offers: seq<string>) returns (next: string)
    requires offers != []
    ensures (next == current || next == offers[0]) && Rank(current) <= Rank(next) && Rank(offers[0]) <= Rank(next)
    ensures Latest(current, offers) == Latest(next, offers[1..])
  {
    NewerIffGreater(current, offers[0]);
    next := if IsNewer(current, offers[0]) then offers[0] else current;
  }

  lemma UpdatesCannotCycle(current: string, offers: seq<string>)
    ensures var vs := Installed(current, offers);
            && current !in vs
            && forall i, j | 0 <= i < j < |vs| :: vs[i] != vs[j]
  {
    UpdatesClimb(current, offers);
    var vs := Installed(current, offers);
    var ns := Ranks(vs);
    forall i | 0 <= i < |vs| ensures vs[i] != current {
      assert Rank(current) < ns[i];
    }
    forall i, j | 0 <= i < j < |vs| ensures vs[i] != vs[j] {
      assert ns[i] < ns[j];
    }
  }

  /** Precedence is that of Semantic Versioning 2.0.0, item 11, on the numbers alone: a release is
      never offered over one of its own pre-releases. */
  lemma PreReleasesAreNotOrdered(x: string, y: string, a: nat, b: nat, c: nat, d: nat, e: nat, f: nat)
    requires Prints(x, a, b, c) && Prints(y, d, e, f)
    ensures IsNewer(x, y) <==> a * U32 * U32 + b * U32 + c < d * U32 * U32 + e * U32 + f
  {
    PrintedRank(x, a, b, c);
    PrintedRank(y, d, e, f);
    NewerIffGreater(x, y);
  }

  /** `x` is `a.b.c`, all of 32 bits, with nothing, further parts, a pre-release or build metadata after it. */
  ghost predicate Prints(x: string, a: nat, b: nat, c: nat) {
    && a < U32 && b < U32 && c < U32
    && exists t :: Suffix(t) && x == Show(a) + ("." + (Show(b) + ("." + (Show(c) + t))))
  }

  lemma PrintedRank(x: string, a: nat, b: nat, c: nat)
    requires Prints(x, a, b, c)
    ensures Rank(x) == a * U32 * U32 + b * U32 + c
  {
    var t :| Suffix(t) && x == Show(a) + ("." + (Show(b) + ("." + (Show(c) + t))));
    ParseRecoversTriple(a, b, c, t);
  }

  /** Anything that is not a number counts as 0. */
  lemma GarbageCountsAsZero(s: string)
    requires s == "" || exists i :: 0 <= i < |s| && !Numeral(s[i])
    ensures Component(s) == 0
  {
  }
}
