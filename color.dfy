/**
 * The hex colour parser of the plug-in (`_parse_color_rgba`): a string such as
 * "#RRGGBB" or "#RRGGBBAA" becomes four channels in 0..1, with opaque white as the
 * fallback for anything it cannot read.
 *
 * Channels are exact reals `n / 255` rather than floating-point values.
 */
module Color {
  import opened Wrappers

  /** Red, green, blue and alpha, each the value of its hex pair divided by 255. */
  datatype Rgba = Rgba(r: real, g: real, b: real, a: real)

  const OpaqueWhite := Rgba(1.0, 1.0, 1.0, 1.0)

  /** The characters Python's `str.isspace` accepts, which `str.strip` removes. */
  predicate IsSpace(c: char) {
    || c == ' '
    || ('\t' <= c <= '\r')
    || ('\U{1c}' <= c <= '\U{1f}')
    || c == '\U{85}' || c == '\U{a0}' || c == '\U{1680}'
    || ('\U{2000}' <= c <= '\U{200a}')
    || c == '\U{2028}' || c == '\U{2029}' || c == '\U{202f}' || c == '\U{205f}' || c == '\U{3000}'
  }

  predicate AllSpace(s: string) {
    forall i :: 0 <= i < |s| ==> IsSpace(s[i])
  }

  /** `s.lstrip()`: removes exactly the leading run of whitespace. */
  function StripLeading(s: string): string {
    if s != [] && IsSpace(s[0]) then StripLeading(s[1..]) else s
  }

  /** `s.rstrip()`: removes exactly the trailing run of whitespace. */
  function StripTrailing(s: string): string {
    if s != [] && IsSpace(s[|s| - 1]) then StripTrailing(s[..|s| - 1]) else s
  }

  /** `s.strip()` */
  function Strip(s: string): string {
    StripTrailing(StripLeading(s))
  }

  /** `s.lstrip("#")`: removes every leading '#'. */
  function StripHashes(s: string): string {
    if s != [] && s[0] == '#' then StripHashes(s[1..]) else s
  }

  /**
   * `(color_str or "").strip().lstrip("#")`; `None` stands for Python's None. What is
   * left never starts with '#'.
   */
  function Normalized(colorStr: Option<string>): (n: string)
    ensures n == [] || n[0] != '#'
  {
    var s := match colorStr
      case None => ""
      case Some(t) => t;
    StripHashesSpec(Strip(s));
    StripHashes(Strip(s))
  }

  predicate IsHexDigit(c: char) {
    '0' <= c <= '9' || 'a' <= c <= 'f' || 'A' <= c <= 'F'
  }

  predicate AllHex(s: string) {
    forall i :: 0 <= i < |s| ==> IsHexDigit(s[i])
  }

  function HexValue(c: char): (v: nat)
    requires IsHexDigit(c)
    ensures v < 16
  {
    if '0' <= c <= '9' then c as int - '0' as int
    else if 'a' <= c <= 'f' then c as int - 'a' as int + 10
    else c as int - 'A' as int + 10
  }

  /**
   * `int(pair, 16)` where the pair must be two ASCII hex digits. Python's `int` is more
   * lenient (see PyHexPair); this strict reader is the one the rest of the model uses.
   */
  function HexPair(c0: char, c1: char): (v: Option<int>)
    ensures v.Some? <==> IsHexDigit(c0) && IsHexDigit(c1)
    ensures v.Some? ==> 0 <= v.value < 256
  {
    if IsHexDigit(c0) && IsHexDigit(c1) then Some(16 * HexValue(c0) + HexValue(c1)) else None
  }

  /**
   * The whitespace `int()` trims around its digits: ASCII ' ' and '\t'..'\r', and every
   * non-ASCII character `str.isspace` accepts. The ASCII separators U+001C..U+001F pass
   * `isspace` but not `int()`.
   */
  predicate IsIntSpace(c: char) {
    IsSpace(c) && !('\U{1c}' <= c <= '\U{1f}')
  }

  /**
   * `int(pair, 16)` as Python evaluates it on a two-character string: besides two hex
   * digits it accepts one digit with surrounding whitespace, and a sign before one
   * digit. Non-ASCII decimal digits, which Python also accepts, are not modelled.
   */
  function PyHexPair(c0: char, c1: char): (v: Option<int>)
    ensures v.Some? ==> -15 <= v.value < 256
    ensures HexPair(c0, c1).Some? ==> v == HexPair(c0, c1)
  {
    if IsHexDigit(c0) && IsHexDigit(c1) then Some(16 * HexValue(c0) + HexValue(c1))
    else if (IsIntSpace(c0) || c0 == '+') && IsHexDigit(c1) then Some(HexValue(c1))
    else if c0 == '-' && IsHexDigit(c1) then Some(-(HexValue(c1) as int))
    else if IsHexDigit(c0) && IsIntSpace(c1) then Some(HexValue(c0))
    else None
  }

  /** The exact value of `n / 255.0`. */
  function Unit(n: int): real {
    n as real / 255.0
  }

  predicate InUnitRange(c: Rgba) {
    && 0.0 <= c.r <= 1.0 && 0.0 <= c.g <= 1.0
    && 0.0 <= c.b <= 1.0 && 0.0 <= c.a <= 1.0
  }

  /** The range Python's lenient `int(pair, 16)` allows: -15/255 up to 1. */
  predicate InLenientRange(c: Rgba) {
    && Unit(-15) <= c.r <= 1.0 && Unit(-15) <= c.g <= 1.0
    && Unit(-15) <= c.b <= 1.0 && Unit(-15) <= c.a <= 1.0
  }

  function Pair(s: string, i: nat, strict: bool): Option<int>
    requires i + 2 <= |s|
  {
    if strict then HexPair(s[i], s[i + 1]) else PyHexPair(s[i], s[i + 1])
  }

  /**
   * The length dispatch on the stripped string: six characters give RGB with alpha 1,
   * eight give RGBA, and a failing pair or any other length gives opaque white. The
   * strict reader keeps every channel in 0..1; the lenient one can go down to -15/255.
   */
  function DecodeStripped(s: string, strict: bool): (c: Rgba)
    ensures strict ==> InUnitRange(c)
    ensures InLenientRange(c)
    ensures |s| != 6 && |s| != 8 ==> c == OpaqueWhite
  {
    if |s| == 6 || |s| == 8 then
      var r, g, b := Pair(s, 0, strict), Pair(s, 2, strict), Pair(s, 4, strict);
      var a := if |s| == 8 then Pair(s, 6, strict) else Some(255);
      if r.Some? && g.Some? && b.Some? && a.Some? then
        Rgba(Unit(r.value), Unit(g.value), Unit(b.value), if |s| == 8 then Unit(a.value) else 1.0)
      else
        OpaqueWhite
    else
      OpaqueWhite
  }

  /** `_parse_color_rgba` with the strict pair reader: every channel lies in 0..1. */
  function ParseColorRgba(colorStr: Option<string>): (c: Rgba)
    ensures InUnitRange(c)
  {
    DecodeStripped(Normalized(colorStr), true)
  }

  /**
   * `_parse_color_rgba` as written, with Python's lenient `int(pair, 16)` on ASCII hex
   * digits (PyHexPair): channels stay at most 1 but can fall to -15/255.
   */
  function ParseColorRgbaAsWritten(colorStr: Option<string>): (c: Rgba)
    ensures InLenientRange(c)
    ensures |Normalized(colorStr)| != 6 && |Normalized(colorStr)| != 8 ==> c == OpaqueWhite
  {
    DecodeStripped(Normalized(colorStr), false)
  }

  /** The stripped strings the parser reads as a colour: six or eight hex digits. */
  predicate WellFormed(s: string) {
    (|s| == 6 || |s| == 8) && AllHex(s)
  }

  /** The byte value of the hex pair at `i`. */
  function PairValue(s: string, i: nat): (v: nat)
    requires i + 2 <= |s| && IsHexDigit(s[i]) && IsHexDigit(s[i + 1])
    ensures v < 256
  {
    16 * HexValue(s[i]) + HexValue(s[i + 1])
  }

  function Hashes(k: nat): (h: string)
    ensures |h| == k && forall i :: 0 <= i < k ==> h[i] == '#'
  {
    seq(k, _ => '#')
  }

  /** `lstrip` removes a leading run of whitespace and nothing after it. */
  lemma {:induction false} StripLeadingSpec(s: string)
    ensures var r := StripLeading(s);
      && |r| <= |s| && r == s[|s| - |r|..]
      && AllSpace(s[..|s| - |r|])
      && (r == [] || !IsSpace(r[0]))
  {
    if s != [] && IsSpace(s[0]) {
      StripLeadingSpec(s[1..]);
      var r := StripLeading(s[1..]);
      assert s[1..][..|s| - 1 - |r|] == s[1..|s| - |r|];
    }
  }

  /** `rstrip` removes a trailing run of whitespace and nothing before it. */
  lemma {:induction false} StripTrailingSpec(s: string)
    ensures var r := StripTrailing(s);
      && |r| <= |s| && r == s[..|r|]
      && AllSpace(s[|r|..])
      && (r == [] || !IsSpace(r[|r| - 1]))
  {
    if s != [] && IsSpace(s[|s| - 1]) {
      StripTrailingSpec(s[..|s| - 1]);
      var r := StripTrailing(s[..|s| - 1]);
      assert forall i :: 0 <= i < |s| - 1 - |r| ==> s[|r|..][i] == s[..|s| - 1][|r|..][i];
    }
  }

  /** `lstrip("#")` removes the leading '#' characters and nothing after them. */
  lemma {:induction false} StripHashesSpec(s: string)
    ensures var r := StripHashes(s);
      && |r| <= |s| && r == s[|s| - |r|..]
      && (forall i :: 0 <= i < |s| - |r| ==> s[i] == '#')
      && (r == [] || r[0] != '#')
  {
    if s != [] && s[0] == '#' {
      StripHashesSpec(s[1..]);
      var r := StripHashes(s[1..]);
      assert s[1..][|s| - 1 - |r|..] == s[|s| - |r|..];
      forall i | 0 < i < |s| - |r|
        ensures s[i] == '#'
      {
        assert s[i] == s[1..][i - 1];
      }
    }
  }

  lemma {:induction false} StripLeadingOf(ws: string, t: string)
    requires AllSpace(ws)
    requires t == [] || !IsSpace(t[0])
    ensures StripLeading(ws + t) == t
  {
    if ws == [] {
      assert ws + t == t;
    } else {
      assert (ws + t)[1..] == ws[1..] + t;
      StripLeadingOf(ws[1..], t);
    }
  }

  lemma {:induction false} StripTrailingOf(t: string, ws: string)
    requires AllSpace(ws)
    requires t == [] || !IsSpace(t[|t| - 1])
    ensures StripTrailing(t + ws) == t
  {
    if ws == [] {
      assert t + ws == t;
    } else {
      assert (t + ws)[..|t + ws| - 1] == t + ws[..|ws| - 1];
      StripTrailingOf(t, ws[..|ws| - 1]);
    }
  }

  lemma {:induction false} StripHashesOf(k: nat, t: string)
    requires t == [] || t[0] != '#'
    ensures StripHashes(Hashes(k) + t) == t
  {
    if k == 0 {
      assert Hashes(k) + t == t;
    } else {
      assert (Hashes(k) + t)[1..] == Hashes(k - 1) + t;
      StripHashesOf(k - 1, t);
    }
  }

  /**
   * Surrounding whitespace and any number of leading '#' are ignored: the parser reads
   * exactly the characters between them.
   */
  lemma NormalizedOf(lead: string, k: nat, core: string, trail: string)
    requires AllSpace(lead) && AllSpace(trail)
    requires core != [] && !IsSpace(core[0]) && core[0] != '#' && !IsSpace(core[|core| - 1])
    ensures Normalized(Some(lead + Hashes(k) + core + trail)) == core
  {
    var body := Hashes(k) + core;
    assert !IsSpace(body[0]) by {
      if k == 0 { assert body[0] == core[0]; } else { assert body[0] == '#'; }
    }
    assert body[|body| - 1] == core[|core| - 1];
    assert lead + Hashes(k) + core + trail == lead + (body + trail);
    StripLeadingOf(lead, body + trail);
    StripTrailingOf(body, trail);
    StripHashesOf(k, core);
  }

  /** The length dispatch on six or eight hex digits reads the pairs in order. */
  lemma DecodeDigits(digits: string)
    requires WellFormed(digits)
    ensures var c := DecodeStripped(digits, true);
      && c.r == Unit(PairValue(digits, 0)) && c.g == Unit(PairValue(digits, 2))
      && c.b == Unit(PairValue(digits, 4))
      && c.a == if |digits| == 6 then 1.0 else Unit(PairValue(digits, 6))
  {
  }

  /**
   * Six hex digits give the three pairs over 255 with alpha 1; eight digits give the
   * fourth pair as alpha. Case of the letters, surrounding whitespace and leading
   * '#' characters do not matter.
   */
  lemma ParseHexDigits(lead: string, k: nat, digits: string, trail: string)
    requires AllSpace(lead) && AllSpace(trail) && WellFormed(digits)
    ensures var c := ParseColorRgba(Some(lead + Hashes(k) + digits + trail));
      && c.r == Unit(16 * HexValue(digits[0]) + HexValue(digits[1]))
      && c.g == Unit(16 * HexValue(digits[2]) + HexValue(digits[3]))
      && c.b == Unit(16 * HexValue(digits[4]) + HexValue(digits[5]))
      && c.a == if |digits| == 6 then 1.0 else Unit(16 * HexValue(digits[6]) + HexValue(digits[7]))
  {
    var x := lead + Hashes(k) + digits + trail;
    assert !IsSpace(digits[0]) && !IsSpace(digits[|digits| - 1]);
    NormalizedOf(lead, k, digits, trail);
    assert ParseColorRgba(Some(x)) == DecodeStripped(digits, true);
    DecodeDigits(digits);
  }

  lemma UnitIsOne(n: int)
    ensures Unit(n) == 1.0 <==> n == 255
  {
  }

  lemma PairIsFF(s: string, i: nat)
    requires i + 2 <= |s| && IsHexDigit(s[i]) && IsHexDigit(s[i + 1])
    ensures PairValue(s, i) == 255 <==> HexValue(s[i]) == 15 && HexValue(s[i + 1]) == 15
  {
  }

  /** The length dispatch alone: opaque white exactly when `s` is malformed or all 'f'. */
  lemma {:induction false} DecodeWhite(s: string)
    ensures DecodeStripped(s, true) == OpaqueWhite
      <==> !WellFormed(s) || forall i :: 0 <= i < |s| ==> HexValue(s[i]) == 15
  {
    if WellFormed(s) {
      var c := DecodeStripped(s, true);
      assert c.r == Unit(PairValue(s, 0)) && c.g == Unit(PairValue(s, 2)) && c.b == Unit(PairValue(s, 4));
      assert c.a == if |s| == 6 then 1.0 else Unit(PairValue(s, 6));
      UnitIsOne(PairValue(s, 0)); UnitIsOne(PairValue(s, 2)); UnitIsOne(PairValue(s, 4));
      PairIsFF(s, 0); PairIsFF(s, 2); PairIsFF(s, 4);
      if |s| == 8 {
        UnitIsOne(PairValue(s, 6));
        PairIsFF(s, 6);
      }
      if c == OpaqueWhite {
        forall i | 0 <= i < |s| ensures HexValue(s[i]) == 15 {
          if i < 2 {} else if i < 4 {} else if i < 6 {} else {}
        }
      }
    } else if |s| == 6 || |s| == 8 {
      var j :| 0 <= j < |s| && !IsHexDigit(s[j]);
      if j < 2 {
        assert HexPair(s[0], s[1]).None?;
      } else if j < 4 {
        assert HexPair(s[2], s[3]).None?;
      } else if j < 6 {
        assert HexPair(s[4], s[5]).None?;
      } else {
        assert HexPair(s[6], s[7]).None?;
      }
    }
  }

  /**
   * The parser returns opaque white exactly when the stripped input is not six or
   * eight hex digits (wrong length, empty, None, or a non-hex character), or when every
   * one of its digits is 'f' or 'F'.
   */
  lemma WhiteExactlyWhenMalformed(colorStr: Option<string>)
    ensures var s := Normalized(colorStr);
      ParseColorRgba(colorStr) == OpaqueWhite
      <==> !WellFormed(s) || forall i :: 0 <= i < |s| ==> HexValue(s[i]) == 15
  {
    DecodeWhite(Normalized(colorStr));
  }

  /**
   * The strict reader changes nothing on six or eight hex digits, nor on strings of the
   * wrong length: the two parsers differ only where a pair holds a sign or whitespace.
   */
  lemma StrictAgreesWithAsWritten(colorStr: Option<string>)
    requires var s := Normalized(colorStr); WellFormed(s) || (|s| != 6 && |s| != 8)
    ensures ParseColorRgbaAsWritten(colorStr) == ParseColorRgba(colorStr)
  {
    DecodeAgrees(Normalized(colorStr));
  }

  lemma DecodeAgrees(s: string)
    requires WellFormed(s) || (|s| != 6 && |s| != 8)
    ensures DecodeStripped(s, false) == DecodeStripped(s, true)
  {
    if WellFormed(s) {
      assert HexPair(s[0], s[1]).Some? && HexPair(s[2], s[3]).Some? && HexPair(s[4], s[5]).Some?;
      if |s| == 8 {
        assert HexPair(s[6], s[7]).Some?;
      }
    }
  }

  /**
   * As written, a signed pair passes Python's `int(pair, 16)`: "#-f0000" yields a red
   * channel of -15/255, outside the documented 0..1, where the strict reader falls back
   * to white.
   */
  lemma SignedPairLeavesUnitRange()
    ensures ParseColorRgbaAsWritten(Some("#-f0000")).r < 0.0
    ensures ParseColorRgba(Some("#-f0000")) == OpaqueWhite
  {
    var s := "-f0000";
    assert "" + Hashes(1) + s + "" == "#-f0000";
    NormalizedOf("", 1, s, "");
    DecodeSigned(s);
  }

  lemma DecodeSigned(s: string)
    requires s == "-f0000"
    ensures DecodeStripped(s, false).r == Unit(-15)
    ensures DecodeStripped(s, true) == OpaqueWhite
  {
    assert PyHexPair(s[0], s[1]) == Some(-15);
    assert HexPair(s[0], s[1]).None?;
  }

  /**
   * As written, a pair padded with whitespace passes Python's `int(pair, 16)`:
   * "#f f000" paints red 15/255 and green 240/255, where the strict reader falls back
   * to white.
   */
  lemma PaddedPairDiffers()
    ensures ParseColorRgbaAsWritten(Some("#f f000")) == Rgba(Unit(15), Unit(240), 0.0, 1.0)
    ensures ParseColorRgba(Some("#f f000")) == OpaqueWhite
  {
    var s := "f f000";
    assert "" + Hashes(1) + s + "" == "#f f000";
    NormalizedOf("", 1, s, "");
    DecodePadded(s);
  }

  lemma DecodePadded(s: string)
    requires s == "f f000"
    ensures DecodeStripped(s, false) == Rgba(Unit(15), Unit(240), 0.0, 1.0)
    ensures DecodeStripped(s, true) == OpaqueWhite
  {
    assert PyHexPair(s[0], s[1]) == Some(15);
    assert PyHexPair(s[2], s[3]) == Some(240);
    assert PyHexPair(s[4], s[5]) == Some(0);
    assert HexPair(s[0], s[1]).None?;
  }

  /**
   * An ASCII separator such as U+001C counts as whitespace for `strip()` but not for
   * `int()`: "a\U{1c}0000" makes the first pair raise, so the parser falls back to white.
   */
  lemma SeparatorPaddingRejected()
    ensures ParseColorRgbaAsWritten(Some("a\U{1c}0000")) == OpaqueWhite
  {
    var s := "a\U{1c}0000";
    assert "" + Hashes(0) + s + "" == s;
    NormalizedOf("", 0, s, "");
    assert PyHexPair(s[0], s[1]).None?;
  }
}
