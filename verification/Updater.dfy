/** The updater's codecs: signatures printed in hex, and dotted version numbers. */
module Updater {
  import opened Common

  // ------------------------------------------------------------------- hex

  const SIGNATURE_LEN := 64

  /** A hex digit as `{:02x}` prints it. */
  function Digit(n: nat): char
    requires n < 16
  {
    "0123456789abcdef"[n]
  }

  function HexVal(c: char): (v: Option<nat>)
    ensures v.Some? ==> v.value < 16
  {
    if '0' <= c <= '9' then Some((c - '0') as int)
    else if 'a' <= c <= 'f' then Some((c - 'a') as int + 10)
    else if 'A' <= c <= 'F' then Some((c - 'A') as int + 10)
    else None
  }

  /** One byte as two digits. */
  function Pair(b: Byte): string {
    [Digit(b / 16), Digit(b % 16)]
  }

  function Printed(bytes: seq<Byte>): string
    decreases |bytes|
  {
    if bytes == [] then "" else Pair(bytes[0]) + Printed(bytes[1..])
  }

  /** Unicode `White_Space`. */
  predicate Space(c: char) {
    || '\U{9}' <= c <= '\U{D}' || c == ' ' || c == '\U{85}' || c == '\U{A0}' || c == '\U{1680}'
    || '\U{2000}' <= c <= '\U{200A}' || c == '\U{2028}' || c == '\U{2029}' || c == '\U{202F}'
    || c == '\U{205F}' || c == '\U{3000}'
  }

  function Trim(s: string): string
    decreases |s|
  {
    if s != "" && Space(s[0]) then Trim(s[1..])
    else if s != "" && Space(s[|s| - 1]) then Trim(s[..|s| - 1])
    else s
  }

  /** A character is a digit of value `n` exactly when it is the printed digit, in either case. */
  lemma DigitIff(c: char, n: nat)
    requires n < 16
    ensures HexVal(c) == Some(n) <==> LowerChar(c) == Digit(n)
  {
  }

  lemma {:induction false} PrintedAt(bytes: seq<Byte>, i: nat)
    requires i < |bytes|
    ensures |Printed(bytes)| == 2 * |bytes|
    ensures Printed(bytes)[2 * i] == Digit(bytes[i] / 16) && Printed(bytes)[2 * i + 1] == Digit(bytes[i] % 16)
    decreases |bytes|
  {
    if |bytes| == 1 {
      assert Printed(bytes[1..]) == "";
    } else {
      PrintedAt(bytes[1..], if i == 0 then 0 else i - 1);
    }
  }

  lemma {:induction false} PrintedLength(bytes: seq<Byte>)
    ensures |Printed(bytes)| == 2 * |bytes|
    decreases |bytes|
  {
    if bytes != [] {
      PrintedLength(bytes[1..]);
    }
  }

  lemma {:induction false} PrintedAppend(bytes: seq<Byte>, b: Byte)
    ensures Printed(bytes + [b]) == Printed(bytes) + Pair(b)
    decreases |bytes|
  {
    if bytes == [] {
      assert [b][1..] == [] && bytes + [b] == [b];
    } else {
      PrintedAppend(bytes[1..], b);
      assert (bytes + [b])[1..] == bytes[1..] + [b];
    }
  }

  lemma LowerAppend(s: string, i: nat)
    requires i + 2 <= |s|
    ensures Lower(s[..i + 2]) == Lower(s[..i]) + [LowerChar(s[i]), LowerChar(s[i + 1])]
  {
  }

  /** Two digits read are two digits printed. */
  lemma OneMorePair(s: string, bytes: seq<Byte>, i: nat, b: Byte)
    requires i + 2 <= |s| && Lower(s[..i]) == Printed(bytes)
    requires HexVal(s[i]) == Some(b / 16) && HexVal(s[i + 1]) == Some(b % 16)
    ensures Lower(s[..i + 2]) == Printed(bytes + [b])
  {
    DigitIff(s[i], b / 16);
    DigitIff(s[i + 1], b % 16);
    PrintedAppend(bytes, b);
    LowerAppend(s, i);
  }

  /** Decoding gives these bytes exactly when they print as the trimmed text in lower case; `None`
      means that no 64 bytes do. */
  method HexDecode64(text: string) returns (r: Option<seq<Byte>>)
    ensures r.Some? ==> |r.value| == SIGNATURE_LEN && Lower(Trim(text)) == Printed(r.value)
    ensures r.None? ==> forall b: seq<Byte> | |b| == SIGNATURE_LEN :: Lower(Trim(text)) != Printed(b)
  {
    var s := Trim(text);
    if |s| != 128 {
      forall b: seq<Byte> | |b| == SIGNATURE_LEN ensures Lower(s) != Printed(b) {
        PrintedLength(b);
      }
      return None;
    }
    var out := new Byte[SIGNATURE_LEN](_ => 0);
    var i := 0;
    ghost var k: nat := 0;
    while i < 128
      invariant i == 2 * k && k <= SIGNATURE_LEN
      invariant Lower(s[..i]) == Printed(out[..k])
    {
      var hi, lo := HexVal(s[i]), HexVal(s[i + 1]);
      if hi.None? || lo.None? {
        NotPrinted(s, k);
        return None;
      }
      var b := hi.value * 16 + lo.value;
      OneMorePair(s, out[..k], i, b);
      out[i / 2] := b;
      assert out[..k + 1] == out[..k] + [b];
      i, k := i + 2, k + 1;
    }
    assert s[..128] == s && out[..64] == out[..];
    r := Some(out[..]);
  }

  lemma NotPrinted(s: string, i: nat)
    requires |s| == 2 * SIGNATURE_LEN && i < SIGNATURE_LEN && (HexVal(s[2 * i]).None? || HexVal(s[2 * i + 1]).None?)
    ensures forall b: seq<Byte> | |b| == SIGNATURE_LEN :: Lower(s) != Printed(b)
  {
    forall b: seq<Byte> | |b| == SIGNATURE_LEN
      ensures Lower(s) != Printed(b)
    {
      PrintedAt(b, i);
      DigitIff(s[2 * i], b[i] / 16);
      DigitIff(s[2 * i + 1], b[i] % 16);
      assert Lower(s)[2 * i] == LowerChar(s[2 * i]) && Lower(s)[2 * i + 1] == LowerChar(s[2 * i + 1]);
    }
  }

  /** `sign_hex` on the signature's bytes. */
  method PrintHex(bytes: seq<Byte>) returns (s: string)
    ensures s == Printed(bytes) && |s| == 2 * |bytes|
  {
    PrintedLength(bytes);
    s := "";
    assert bytes[0..] == bytes;
    for i := 0 to |bytes|
      invariant s + Printed(bytes[i..]) == Printed(bytes)
    {
      var b := bytes[i];
      var pair := Pair(b);
      assert bytes[i..][0] == b && bytes[i..][1..] == bytes[i + 1..];
      assert (s + pair) + Printed(bytes[i + 1..]) == s + (pair + Printed(bytes[i + 1..]));
      s := s + pair;
    }
    assert s + "" == s;
  }

  ghost predicate Tight(c: char) {
    LowerChar(c) == c && !Space(c)
  }

  lemma DigitIsTight(n: nat)
    requires n < 16
    ensures Tight(Digit(n))
  {
  }

  lemma {:induction false} PrintedDigits(bytes: seq<Byte>)
    ensures forall k | 0 <= k < |Printed(bytes)| :: Tight(Printed(bytes)[k])
    decreases |bytes|
  {
    if bytes != [] {
      DigitIsTight(bytes[0] / 16);
      DigitIsTight(bytes[0] % 16);
      PrintedDigits(bytes[1..]);
    }
  }

  lemma PrintedIsTight(bytes: seq<Byte>)
    ensures Trim(Printed(bytes)) == Printed(bytes) && Lower(Printed(bytes)) == Printed(bytes)
  {
    var s := Printed(bytes);
    PrintedDigits(bytes);
    if s != "" {
      assert Tight(s[0]) && Tight(s[|s| - 1]);
    }
    forall k | 0 <= k < |s| ensures Lower(s)[k] == s[k] {
      assert Tight(s[k]);
    }
    assert Lower(s) == s;
  }

  lemma DigitIsInjective(m: nat, n: nat)
    requires m < 16 && n < 16 && Digit(m) == Digit(n)
    ensures m == n
  {
    DigitIff(Digit(m), m);
    DigitIff(Digit(n), n);
  }

  lemma {:induction false} PrintedIsInjective(a: seq<Byte>, b: seq<Byte>)
    requires Printed(a) == Printed(b)
    ensures a == b
    decreases |a|
  {
    PrintedLength(a);
    PrintedLength(b);
    if a != [] {
      assert Printed(a) == Pair(a[0]) + Printed(a[1..]) && Printed(b) == Pair(b[0]) + Printed(b[1..]);
      assert Printed(a)[2..] == Printed(a[1..]) && Printed(b)[2..] == Printed(b[1..]);
      PrintedIsInjective(a[1..], b[1..]);
      assert Printed(a)[0] == Digit(a[0] / 16) && Printed(b)[0] == Digit(b[0] / 16);
      assert Printed(a)[1] == Digit(a[0] % 16) && Printed(b)[1] == Digit(b[0] % 16);
      DigitIsInjective(a[0] / 16, b[0] / 16);
      DigitIsInjective(a[0] % 16, b[0] % 16);
      assert a == [a[0]] + a[1..] && b == [b[0]] + b[1..];
    }
  }

  ghost predicate Blank(s: string) {
    forall i | 0 <= i < |s| :: Space(s[i])
  }

  /** No space at either end. */
  ghost predicate Trimmed(s: string) {
    s == "" || (!Space(s[0]) && !Space(s[|s| - 1]))
  }

  /** Trimming takes off the blanks at both ends and nothing else. */
  lemma {:induction false} TrimPadding(pre: string, core: string, post: string)
    requires Blank(pre) && Blank(post) && Trimmed(core)
    ensures Trim(pre + core + post) == core
    decreases |pre| + |post|
  {
    var s := pre + core + post;
    if pre != "" {
      assert s[0] == pre[0] && s[1..] == pre[1..] + core + post;
      TrimPadding(pre[1..], core, post);
    } else if post != "" && core != "" {
      assert s[0] == core[0] && s[|s| - 1] == post[|post| - 1] && s[..|s| - 1] == pre + core + post[..|post| - 1];
      TrimPadding(pre, core, post[..|post| - 1]);
    } else if post != "" {
      assert s[0] == post[0] && s[1..] == pre + core + post[1..];
      TrimPadding(pre, core, post[1..]);
    } else {
      assert s == core;
    }
  }

  /** Printing then decoding any 64 bytes, with any blanks around them: a trailing newline for one. */
  method SignThenDecode(bytes: seq<Byte>, pre: string, post: string) returns (r: Option<seq<Byte>>)
    requires |bytes| == SIGNATURE_LEN && Blank(pre) && Blank(post)
    ensures r == Some(bytes)
  {
    var s := PrintHex(bytes);
    r := HexDecode64(pre + s + post);
    PrintedIsTight(bytes);
    PrintedDigits(bytes);
    assert Trimmed(s) by {
      if s != "" {
        assert Tight(s[0]) && Tight(s[|s| - 1]);
      }
    }
    TrimPadding(pre, s, post);
    if r.Some? {
      PrintedIsInjective(r.value, bytes);
    }
  }
}
