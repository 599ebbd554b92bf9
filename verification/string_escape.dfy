/**
 * StringEscapeUtils.escapeJavaString over UTF-16 code units, and a decoder
 * for the body of a Java string literal following the Java Language
 * Specification, section 3.3 (Unicode escapes) and section 3.10.7 (escape
 * sequences), against which the escaping is proved lossless.
 */
module StringEscape {
  import opened Outcomes

  /** A Java `char`: one UTF-16 code unit, surrogates included. */
  type CodeUnit = x: int | 0 <= x < 0x1_0000

  const Backspace: CodeUnit := 8
  const Tab: CodeUnit := 9
  const LineFeed: CodeUnit := 10
  const FormFeed: CodeUnit := 12
  const CarriageReturn: CodeUnit := 13
  const Space: CodeUnit := 32
  const Quote: CodeUnit := 34
  const Apostrophe: CodeUnit := 39
  const Backslash: CodeUnit := 92
  const LetterB: CodeUnit := 98
  const LetterF: CodeUnit := 102
  const LetterN: CodeUnit := 110
  const LetterR: CodeUnit := 114
  const LetterS: CodeUnit := 115
  const LetterT: CodeUnit := 116
  const LetterU: CodeUnit := 117

  predicate IsPrintableAscii(c: CodeUnit) { 32 <= c <= 127 }

  /** The code units the `default` branch writes as `\uXXXX`. */
  predicate NeedsUnicodeEscape(c: CodeUnit) {
    c != Quote && c != Backslash && c != LineFeed && c != CarriageReturn && c != Tab
    && (c < 32 || c > 127)
  }

  /** `0`..`9` or `a`..`f`: the digits `%x` writes. */
  predicate IsLowerHexDigit(c: int) { 48 <= c <= 57 || 97 <= c <= 102 }

  /** One lower-case hexadecimal digit, as `%x` writes it. */
  function HexDigit(d: int): (r: CodeUnit)
    requires 0 <= d < 16
    ensures IsLowerHexDigit(r) && IsHexDigit(r) && HexValue(r) == d
  {
    if d < 10 then 48 + d else 87 + d
  }

  /** `String.format("\\u%04x", (int) ch)`: always exactly four digits, since `ch` < 0x10000. */
  function UnicodeEscape(c: CodeUnit): (r: seq<CodeUnit>)
    ensures |r| == 6 && r[0] == Backslash && r[1] == LetterU
    ensures forall i :: 2 <= i < 6 ==> IsLowerHexDigit(r[i]) && IsHexDigit(r[i])
  {
    var q1 := c / 16;
    var q2 := q1 / 16;
    var q3 := q2 / 16;
    [Backslash, LetterU, HexDigit(q3), HexDigit(q2 % 16), HexDigit(q1 % 16), HexDigit(c % 16)]
  }

  /** The four digits of `\uXXXX` read back as the code unit they were made from. */
  lemma UnicodeEscapeValue(c: CodeUnit)
    ensures HexQuad(UnicodeEscape(c)[2..]) == c
  {
    var q1 := c / 16;
    var q2 := q1 / 16;
    var q3 := q2 / 16;
    assert q3 < 16;
  }

  /** The text the loop body appends for one code unit. */
  function EscapeUnit(c: CodeUnit): (r: seq<CodeUnit>)
    ensures 1 <= |r| <= 6
  {
    if c == Quote then [Backslash, Quote]
    else if c == Backslash then [Backslash, Backslash]
    else if c == LineFeed then [Backslash, LetterN]
    else if c == CarriageReturn then [Backslash, LetterR]
    else if c == Tab then [Backslash, LetterT]
    else if c < 32 || c > 127 then UnicodeEscape(c)
    else [c]
  }

  /** `f` applied to each code unit of `s`, the results concatenated in order. */
  function ConcatMap(f: CodeUnit -> seq<CodeUnit>, s: seq<CodeUnit>): seq<CodeUnit>
    decreases |s|
  {
    if s == [] then [] else ConcatMap(f, s[..|s| - 1]) + f(s[|s| - 1])
  }

  lemma {:induction false} ConcatMapAppend(f: CodeUnit -> seq<CodeUnit>, a: seq<CodeUnit>, b: seq<CodeUnit>)
    ensures ConcatMap(f, a + b) == ConcatMap(f, a) + ConcatMap(f, b)
    decreases |b|
  {
    if b == [] {
      assert a + b == a;
    } else {
      var ab := a + b;
      assert ab[..|ab| - 1] == a + b[..|b| - 1] && ab[|ab| - 1] == b[|b| - 1];
      ConcatMapAppend(f, a, b[..|b| - 1]);
    }
  }

  /** The escaped form of `s`: the escapes of its code units, in order. */
  function Escaped(s: seq<CodeUnit>): seq<CodeUnit> {
    ConcatMap(EscapeUnit, s)
  }

  /** Each code unit grows to between one and six. */
  lemma {:induction false} EscapedLength(s: seq<CodeUnit>)
    ensures |s| <= |Escaped(s)| <= 6 * |s|
    decreases |s|
  {
    if s != [] {
      EscapedLength(s[..|s| - 1]);
    }
  }

  /** Every code unit of an escaped string is printable ASCII. */
  lemma {:induction false} EscapedIsPrintable(s: seq<CodeUnit>)
    ensures forall i :: 0 <= i < |Escaped(s)| ==> IsPrintableAscii(Escaped(s)[i])
    decreases |s|
  {
    if s != [] {
      var init := s[..|s| - 1];
      EscapedIsPrintable(init);
      var e := EscapeUnit(s[|s| - 1]);
      assert forall j :: 0 <= j < |e| ==> IsPrintableAscii(e[j]);
      forall i | 0 <= i < |Escaped(s)| ensures IsPrintableAscii(Escaped(s)[i]) {
        if i < |Escaped(init)| {
          assert Escaped(s)[i] == Escaped(init)[i];
        } else {
          assert Escaped(s)[i] == e[i - |Escaped(init)|];
        }
      }
    }
  }

  method EscapeJavaString(value: Option<seq<CodeUnit>>) returns (r: Option<seq<CodeUnit>>)
    ensures value.None? ==> r.None?
    ensures value.Some? ==> r == Some(Escaped(value.value))
  {
    if value.None? {
      return None;
    }
    var s := value.value;
    var escaped: seq<CodeUnit> := [];
    for i := 0 to |s|
      invariant escaped == Escaped(s[..i])
    {
      var ch := s[i];
      assert s[..i + 1][..i] == s[..i];
      if ch == Quote {
        escaped := escaped + [Backslash, Quote];
      } else if ch == Backslash {
        escaped := escaped + [Backslash, Backslash];
      } else if ch == LineFeed {
        escaped := escaped + [Backslash, LetterN];
      } else if ch == CarriageReturn {
        escaped := escaped + [Backslash, LetterR];
      } else if ch == Tab {
        escaped := escaped + [Backslash, LetterT];
      } else if ch < 32 || ch > 127 {
        escaped := escaped + UnicodeEscape(ch);
      } else {
        escaped := escaped + [ch];
      }
    }
    assert s[..|s|] == s;
    return Some(escaped);
  }

  /** Escaping distributes over concatenation. */
  lemma EscapedAppend(a: seq<CodeUnit>, b: seq<CodeUnit>)
    ensures Escaped(a + b) == Escaped(a) + Escaped(b)
  {
    ConcatMapAppend(EscapeUnit, a, b);
  }

  lemma EscapedCons(c: CodeUnit, rest: seq<CodeUnit>)
    ensures Escaped([c] + rest) == EscapeUnit(c) + Escaped(rest)
  {
    EscapedAppend([c], rest);
    assert [c][..0] == [];
    assert ConcatMap(EscapeUnit, [c]) == ConcatMap(EscapeUnit, []) + EscapeUnit(c);
    assert Escaped([c]) == EscapeUnit(c);
  }

  /**
   * Printable ASCII other than `"` and `\` passes through, so strings made of
   * it (the empty string among them) are their own escaped form.
   */
  lemma {:induction false} PlainTextIsFixedPoint(s: seq<CodeUnit>)
    requires forall i :: 0 <= i < |s| ==> IsPrintableAscii(s[i]) && s[i] != Quote && s[i] != Backslash
    ensures Escaped(s) == s
    decreases |s|
  {
    if s != [] {
      PlainTextIsFixedPoint(s[..|s| - 1]);
      assert s[..|s| - 1] + [s[|s| - 1]] == s;
    }
  }

  // ---------------------------------------------------------------------------
  // Decoding a string literal's body, as javac reads it
  // ---------------------------------------------------------------------------

  predicate IsHexDigit(c: int) { 48 <= c <= 57 || 65 <= c <= 70 || 97 <= c <= 102 }

  function HexValue(c: int): (r: int)
    requires IsHexDigit(c)
    ensures 0 <= r < 16
  {
    if c <= 57 then c - 48 else if c <= 70 then c - 55 else c - 87
  }

  /** The value of four hexadecimal digits. */
  function HexQuad(d: seq<CodeUnit>): CodeUnit
    requires |d| == 4 && forall i :: 0 <= i < 4 ==> IsHexDigit(d[i])
  {
    ((HexValue(d[0]) * 16 + HexValue(d[1])) * 16 + HexValue(d[2])) * 16 + HexValue(d[3])
  }

  /** Adds a decoded prefix in front of the decoding of the rest, if that succeeded. */
  function Prepend(p: seq<CodeUnit>, rest: Option<seq<CodeUnit>>): Option<seq<CodeUnit>> {
    if rest.None? then None else Some(p + rest.value)
  }

  lemma PrependTwice(p: seq<CodeUnit>, q: seq<CodeUnit>, rest: Option<seq<CodeUnit>>)
    ensures Prepend(p, Prepend(q, rest)) == Prepend(p + q, rest)
  {
    if rest.Some? {
      assert p + (q + rest.value) == (p + q) + rest.value;
    }
  }

  /** Drops the `u`s that open a Unicode escape (JLS §3.3 allows several). */
  function SkipUs(s: seq<CodeUnit>): (r: seq<CodeUnit>)
    ensures |r| <= |s| && r == s[|s| - |r|..]
    ensures r != [] ==> r[0] != LetterU
    decreases |s|
  {
    if s != [] && s[0] == LetterU then SkipUs(s[1..]) else s
  }

  /**
   * JLS §3.3: replaces each Unicode escape by the code unit it denotes. A
   * backslash starts an escape only when an even number of backslashes comes
   * right before it, so a pair `\\` is copied as it is. An eligible `\u` not
   * followed by four hexadecimal digits is a compile-time error (None).
   */
  function TranslateUnicodeEscapes(s: seq<CodeUnit>): Option<seq<CodeUnit>>
    decreases |s|
  {
    if s == [] then Some([])
    else if s[0] == Backslash && |s| >= 2 && s[1] == Backslash then
      Prepend([Backslash, Backslash], TranslateUnicodeEscapes(s[2..]))
    else if s[0] == Backslash && |s| >= 2 && s[1] == LetterU then
      var digits := SkipUs(s[1..]);
      if |digits| >= 4 && IsHexDigit(digits[0]) && IsHexDigit(digits[1])
         && IsHexDigit(digits[2]) && IsHexDigit(digits[3])
      then Prepend([HexQuad(digits[..4])], TranslateUnicodeEscapes(digits[4..]))
      else None
    else Prepend([s[0]], TranslateUnicodeEscapes(s[1..]))
  }

  predicate IsOctalDigit(c: int) { 48 <= c <= 55 }

  /** How many digits an octal escape takes: the longest of `\d`, `\dd`, `\zdd` (z in 0..3). */
  function OctalLength(d: seq<CodeUnit>): (n: nat)
    requires d != [] && IsOctalDigit(d[0])
    ensures 1 <= n <= 3 && n <= |d|
    ensures forall i :: 0 <= i < n ==> IsOctalDigit(d[i])
  {
    if |d| >= 2 && IsOctalDigit(d[1]) then
      if d[0] <= 51 && |d| >= 3 && IsOctalDigit(d[2]) then 3 else 2
    else 1
  }

  /** The value of an octal escape's one to three digits. */
  function OctalValue(d: seq<CodeUnit>): (r: CodeUnit)
    requires 1 <= |d| <= 3 && forall i :: 0 <= i < |d| ==> IsOctalDigit(d[i])
  {
    assert IsOctalDigit(d[0]) && (|d| >= 2 ==> IsOctalDigit(d[1])) && (|d| == 3 ==> IsOctalDigit(d[2]));
    var v0 := d[0] as int - 48;
    if |d| == 1 then v0
    else if |d| == 2 then v0 * 8 + (d[1] as int - 48)
    else (v0 * 8 + (d[1] as int - 48)) * 8 + (d[2] as int - 48)
  }

  /** The character a single-character escape sequence stands for (JLS §3.10.7). */
  function SimpleEscape(c: CodeUnit): Option<CodeUnit> {
    if c == LetterB then Some(Backspace)
    else if c == LetterS then Some(Space)
    else if c == LetterT then Some(Tab)
    else if c == LetterN then Some(LineFeed)
    else if c == LetterF then Some(FormFeed)
    else if c == LetterR then Some(CarriageReturn)
    else if c == Quote then Some(Quote)
    else if c == Apostrophe then Some(Apostrophe)
    else if c == Backslash then Some(Backslash)
    else None
  }

  /**
   * JLS §3.10.7: interprets the escape sequences of a string literal's body
   * once Unicode escapes are translated. A raw `"`, CR or LF cannot occur in
   * the body, and neither can an unknown escape: both are None.
   */
  function InterpretEscapes(s: seq<CodeUnit>): Option<seq<CodeUnit>>
    decreases |s|
  {
    if s == [] then Some([])
    else if s[0] == Quote || s[0] == LineFeed || s[0] == CarriageReturn then None
    else if s[0] != Backslash then Prepend([s[0]], InterpretEscapes(s[1..]))
    else if |s| == 1 then None
    else if IsOctalDigit(s[1]) then
      var n := OctalLength(s[1..]);
      Prepend([OctalValue(s[1..1 + n])], InterpretEscapes(s[1 + n..]))
    else match SimpleEscape(s[1])
      case Some(c) => Prepend([c], InterpretEscapes(s[2..]))
      case None => None
  }

  /** What javac makes of the text between the quotes of a string literal. */
  function DecodeLiteralBody(s: seq<CodeUnit>): Option<seq<CodeUnit>> {
    match TranslateUnicodeEscapes(s)
    case None => None
    case Some(t) => InterpretEscapes(t)
  }

  /** The text after the JLS §3.3 step: only the `\uXXXX` escapes are resolved. */
  function UnicodeResolved(s: seq<CodeUnit>): seq<CodeUnit>
    decreases |s|
  {
    if s == [] then []
    else (if NeedsUnicodeEscape(s[0]) then [s[0]] else EscapeUnit(s[0])) + UnicodeResolved(s[1..])
  }

  /** JLS §3.3 keeps a two-unit escape other than `\\` and `\u` as it is. */
  lemma TranslateTwoUnitEscape(e: seq<CodeUnit>, tail: seq<CodeUnit>)
    requires |e| == 2 && e[0] == Backslash && e[1] != Backslash && e[1] != LetterU
    ensures TranslateUnicodeEscapes(e + tail) == Prepend(e, TranslateUnicodeEscapes(tail))
  {
    var s := e + tail;
    var s1 := s[1..];
    assert s1[0] == e[1] && s1[1..] == tail;
    assert TranslateUnicodeEscapes(s1) == Prepend([e[1]], TranslateUnicodeEscapes(tail));
    assert TranslateUnicodeEscapes(s) == Prepend([Backslash], TranslateUnicodeEscapes(s1));
    assert [Backslash] + [e[1]] == e;
    PrependTwice([Backslash], [e[1]], TranslateUnicodeEscapes(tail));
  }

  /** JLS §3.3 turns `\uXXXX` back into the code unit it was made from. */
  lemma TranslateUnicodeEscape(c: CodeUnit, tail: seq<CodeUnit>)
    ensures TranslateUnicodeEscapes(UnicodeEscape(c) + tail) == Prepend([c], TranslateUnicodeEscapes(tail))
  {
    var e := UnicodeEscape(c);
    var s := e + tail;
    assert s[1..] == e[1..] + tail;
    assert e[1..][0] == LetterU && e[1..][1] != LetterU;
    assert SkipUs(s[1..][1..]) == s[1..][1..];
    assert SkipUs(s[1..]) == s[2..];
    assert s[2..][..4] == e[2..];
    assert s[2..][4..] == tail;
    UnicodeEscapeValue(c);
  }

  lemma TranslateStep(c: CodeUnit, tail: seq<CodeUnit>)
    ensures TranslateUnicodeEscapes(EscapeUnit(c) + tail)
         == Prepend(if NeedsUnicodeEscape(c) then [c] else EscapeUnit(c), TranslateUnicodeEscapes(tail))
  {
    var e := EscapeUnit(c);
    var s := e + tail;
    if c == Quote || c == LineFeed || c == CarriageReturn || c == Tab {
      TranslateTwoUnitEscape(e, tail);
    } else if c == Backslash {
      assert s[2..] == tail;
    } else if c < 32 || c > 127 {
      TranslateUnicodeEscape(c, tail);
    } else {
      assert s[1..] == tail;
    }
  }

  lemma {:induction false} TranslateEscaped(s: seq<CodeUnit>)
    ensures TranslateUnicodeEscapes(Escaped(s)) == Some(UnicodeResolved(s))
    decreases |s|
  {
    if s == [] {
    } else {
      assert s == [s[0]] + s[1..];
      EscapedCons(s[0], s[1..]);
      TranslateStep(s[0], Escaped(s[1..]));
      TranslateEscaped(s[1..]);
    }
  }

  lemma InterpretStep(c: CodeUnit, tail: seq<CodeUnit>)
    ensures InterpretEscapes((if NeedsUnicodeEscape(c) then [c] else EscapeUnit(c)) + tail)
         == Prepend([c], InterpretEscapes(tail))
  {
    var e := if NeedsUnicodeEscape(c) then [c] else EscapeUnit(c);
    var s := e + tail;
    if c == Quote || c == Backslash || c == LineFeed || c == CarriageReturn || c == Tab {
      assert s[0] == Backslash && !IsOctalDigit(s[1]);
      assert s[2..] == tail;
    } else {
      assert e == [c];
      assert s[1..] == tail;
    }
  }

  lemma {:induction false} InterpretResolved(s: seq<CodeUnit>)
    ensures InterpretEscapes(UnicodeResolved(s)) == Some(s)
    decreases |s|
  {
    if s != [] {
      var c := s[0];
      InterpretStep(c, UnicodeResolved(s[1..]));
      InterpretResolved(s[1..]);
      assert [c] + s[1..] == s;
    }
  }

  /** Reading the escaped text back as a Java string literal gives the original code units. */
  lemma EscapeRoundTrip(s: seq<CodeUnit>)
    ensures DecodeLiteralBody(Escaped(s)) == Some(s)
  {
    TranslateEscaped(s);
    InterpretResolved(s);
  }

  /** Different strings never escape to the same text. */
  lemma EscapeIsInjective(a: seq<CodeUnit>, b: seq<CodeUnit>)
    requires Escaped(a) == Escaped(b)
    ensures a == b
  {
    EscapeRoundTrip(a);
    EscapeRoundTrip(b);
  }

  /** The cases of StringEscapeUtilsTest: `\u001f`, `\u00a9` and `\u20ac`, in lower-case hexadecimal. */
  lemma LowerCaseEscapeExamples()
    ensures Escaped([0x1F]) == [Backslash, LetterU, 48, 48, 49, 102]
    ensures Escaped([0xA9]) == [Backslash, LetterU, 48, 48, 97, 57]
    ensures Escaped([0x20AC]) == [Backslash, LetterU, 50, 48, 97, 99]
  {
    assert Escaped([0x1F]) == [Backslash, LetterU, 48, 48, 49, 102] by {
      EscapedSingle(0x1F);
      assert 0x1F / 16 == 1 && 1 / 16 == 0 && 0 / 16 == 0;
      assert UnicodeEscape(0x1F) == [Backslash, LetterU, HexDigit(0), HexDigit(0), HexDigit(1), HexDigit(15)];
    }
    assert Escaped([0xA9]) == [Backslash, LetterU, 48, 48, 97, 57] by {
      EscapedSingle(0xA9);
      assert 0xA9 / 16 == 10 && 10 / 16 == 0 && 0 / 16 == 0;
      assert UnicodeEscape(0xA9) == [Backslash, LetterU, HexDigit(0), HexDigit(0), HexDigit(10), HexDigit(9)];
    }
    assert Escaped([0x20AC]) == [Backslash, LetterU, 50, 48, 97, 99] by {
      EscapedSingle(0x20AC);
      assert 0x20AC / 16 == 0x20A && 0x20A / 16 == 0x20 && 0x20 / 16 == 2;
      assert UnicodeEscape(0x20AC) == [Backslash, LetterU, HexDigit(2), HexDigit(0), HexDigit(10), HexDigit(12)];
    }
  }

  /**
   * What one code unit escapes to: `"`, `\`, LF, CR and TAB get their
   * two-unit escapes, every other unit outside 32..127 gets `\u` and four
   * lower-case hexadecimal digits, and the rest is copied.
   */
  lemma EscapedUnitTable(c: CodeUnit)
    ensures c == Quote ==> Escaped([c]) == [Backslash, Quote]
    ensures c == Backslash ==> Escaped([c]) == [Backslash, Backslash]
    ensures c == LineFeed ==> Escaped([c]) == [Backslash, LetterN]
    ensures c == CarriageReturn ==> Escaped([c]) == [Backslash, LetterR]
    ensures c == Tab ==> Escaped([c]) == [Backslash, LetterT]
    ensures NeedsUnicodeEscape(c) ==> Escaped([c]) == UnicodeEscape(c)
    ensures IsPrintableAscii(c) && c != Quote && c != Backslash ==> Escaped([c]) == [c]
  {
    EscapedSingle(c);
  }

  lemma EscapedSingle(c: CodeUnit)
    ensures Escaped([c]) == EscapeUnit(c)
  {
    assert [c][..0] == [];
    assert ConcatMap(EscapeUnit, [c]) == ConcatMap(EscapeUnit, []) + EscapeUnit(c);
  }
}
