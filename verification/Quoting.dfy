/** JSON string literals: what `JSON.stringify` prints for a string, and reading it back. */
module Quoting {
  import opened Texts

  const QUOTE: CodeUnit := 34
  const BACKSLASH: CodeUnit := 92

  function HexDigit(n: nat): CodeUnit
    requires n < 16
  {
    if n < 10 then 48 + n else 87 + n
  }

  function HexValue(c: CodeUnit): nat {
    if 48 <= c <= 57 then c - 48 else if 97 <= c <= 102 then c - 87 else 0
  }

  /** `\u` and four lower-case hexadecimal digits. */
  function UnicodeEscape(u: CodeUnit): Text {
    [BACKSLASH, 117, HexDigit(u / 4096), HexDigit(u / 256 % 16), HexDigit(u / 16 % 16), HexDigit(u % 16)]
  }

  predicate IsSurrogate(u: CodeUnit) { IsHigh(u) || IsLow(u) }

  /** The escape of one code unit that is not half of a surrogate pair. */
  function EscapeUnit(u: CodeUnit): Text {
    if u == QUOTE || u == BACKSLASH then [BACKSLASH, u]
    else if u == 8 then [BACKSLASH, 98]
    else if u == 9 then [BACKSLASH, 116]
    else if u == 10 then [BACKSLASH, 110]
    else if u == 12 then [BACKSLASH, 102]
    else if u == 13 then [BACKSLASH, 114]
    else if u < 32 || IsSurrogate(u) then UnicodeEscape(u)
    else [u]
  }

  /** Surrogate pairs are printed as they are, lone surrogates escaped. */
  function Escape(s: Text): Text {
    if s == [] then []
    else if |s| >= 2 && IsHigh(s[0]) && IsLow(s[1]) then [s[0], s[1]] + Escape(s[2..])
    else EscapeUnit(s[0]) + Escape(s[1..])
  }

  function Quote(s: Text): Text {
    [QUOTE] + Escape(s) + [QUOTE]
  }

  // ------------------------------------------------------------------ reading back

  datatype Unit = Unit(value: CodeUnit, width: nat)

  function ShortEscape(c: CodeUnit): CodeUnit {
    if c == 98 then 8 else if c == 116 then 9 else if c == 110 then 10
    else if c == 102 then 12 else if c == 114 then 13 else c
  }

  /** The first code unit of a string literal's body, per section 7 of RFC 8259. */
  function FirstUnit(t: Text): (r: Unit)
    requires t != [] && t[0] != QUOTE
    ensures r.width > 0
  {
    if t[0] != BACKSLASH then Unit(t[0], 1)
    else if |t| >= 6 && t[1] == 117 then
      var value := ((HexValue(t[2]) * 16 + HexValue(t[3])) * 16 + HexValue(t[4])) * 16 + HexValue(t[5]);
      Unit(if value < 0x10000 then value else 0, 6)
    else if |t| >= 2 then Unit(ShortEscape(t[1]), 2)
    else Unit(t[0], 1)
  }

  /** The body up to its closing quote, and the text after that quote. */
  function Unescape(t: Text): Option<(Text, Text)>
    decreases |t|
  {
    if t == [] then None
    else if t[0] == QUOTE then Some(([], t[1..]))
    else
      var first := FirstUnit(t);
      if first.width > |t| then None
      else match Unescape(t[first.width..])
        case None => None
        case Some((s, rest)) => Some(([first.value] + s, rest))
  }

  lemma HexRoundTrip(u: CodeUnit)
    ensures ((u / 4096 * 16 + u / 256 % 16) * 16 + u / 16 % 16) * 16 + u % 16 == u
  {
    assert u / 4096 == u / 256 / 16;
    assert u / 256 == u / 16 / 16;
  }

  lemma HexDigitValue(n: nat)
    requires n < 16
    ensures HexValue(HexDigit(n)) == n
  {
  }

  lemma UnitReadBack(u: CodeUnit, rest: Text)
    ensures var t := EscapeUnit(u) + rest; t != [] && t[0] != QUOTE && FirstUnit(t) == Unit(u, |EscapeUnit(u)|)
  {
    var t := EscapeUnit(u) + rest;
    if EscapeUnit(u) == UnicodeEscape(u) {
      HexRoundTrip(u);
      HexDigitValue(u / 4096);
      HexDigitValue(u / 256 % 16);
      HexDigitValue(u / 16 % 16);
      HexDigitValue(u % 16);
      assert t[2] == HexDigit(u / 4096) && t[3] == HexDigit(u / 256 % 16)
          && t[4] == HexDigit(u / 16 % 16) && t[5] == HexDigit(u % 16);
    }
  }

  lemma UnescapeStep(t: Text, first: Unit, rest: Text)
    requires t != [] && t[0] != QUOTE && FirstUnit(t) == first && first.width <= |t| && t[first.width..] == rest
    ensures Unescape(t) == match Unescape(rest) case None => None case Some((s, r)) => Some(([first.value] + s, r))
  {
  }

  lemma UnitStep(u: CodeUnit, after: Text, s: Text, r: Text)
    requires Unescape(after) == Some((s, r))
    ensures Unescape(EscapeUnit(u) + after) == Some(([u] + s, r))
  {
    var t := EscapeUnit(u) + after;
    UnitReadBack(u, after);
    assert t[|EscapeUnit(u)|..] == after;
    UnescapeStep(t, Unit(u, |EscapeUnit(u)|), after);
  }

  lemma RawStep(u: CodeUnit, after: Text, s: Text, r: Text)
    requires u != QUOTE && u != BACKSLASH
    requires Unescape(after) == Some((s, r))
    ensures Unescape([u] + after) == Some(([u] + s, r))
  {
    var t := [u] + after;
    assert t[1..] == after;
    UnescapeStep(t, Unit(u, 1), after);
  }

  lemma PairStep(hi: CodeUnit, lo: CodeUnit, after: Text, s: Text, r: Text)
    requires IsHigh(hi) && IsLow(lo)
    requires Unescape(after) == Some((s, r))
    ensures Unescape([hi, lo] + after) == Some(([hi, lo] + s, r))
  {
    RawStep(lo, after, s, r);
    RawStep(hi, [lo] + after, [lo] + s, r);
    assert [hi, lo] + after == [hi] + ([lo] + after);
    assert [hi, lo] + s == [hi] + ([lo] + s);
  }

  lemma Regroup(a: Text, b: Text, c: Text, d: Text)
    ensures (a + b) + c + d == a + (b + c + d)
  {
  }

  /** Reading a printed string gives the string back, whatever follows the closing quote. */
  lemma {:induction false} UnescapeEscape(s: Text, rest: Text)
    ensures Unescape(Escape(s) + [QUOTE] + rest) == Some((s, rest))
    decreases |s|
  {
    if s == [] {
      var t := Escape(s) + [QUOTE] + rest;
      assert t == [QUOTE] + rest;
      assert t[1..] == rest;
    } else if |s| >= 2 && IsHigh(s[0]) && IsLow(s[1]) {
      UnescapeEscape(s[2..], rest);
      Regroup([s[0], s[1]], Escape(s[2..]), [QUOTE], rest);
      PairStep(s[0], s[1], Escape(s[2..]) + [QUOTE] + rest, s[2..], rest);
      assert s == [s[0], s[1]] + s[2..];
    } else {
      UnescapeEscape(s[1..], rest);
      Regroup(EscapeUnit(s[0]), Escape(s[1..]), [QUOTE], rest);
      UnitStep(s[0], Escape(s[1..]) + [QUOTE] + rest, s[1..], rest);
      assert s == [s[0]] + s[1..];
    }
  }

  lemma AfterOpening(body: Text, r: Text)
    ensures ([QUOTE] + body + [QUOTE] + r)[1..] == body + [QUOTE] + r
  {
  }

  /** Two printed strings that start the same text are the same string. */
  lemma QuoteUnique(x: Text, y: Text, r: Text, s: Text)
    requires Quote(x) + r == Quote(y) + s
    ensures x == y && r == s
  {
    AfterOpening(Escape(x), r);
    AfterOpening(Escape(y), s);
    UnescapeEscape(x, r);
    UnescapeEscape(y, s);
  }
}
