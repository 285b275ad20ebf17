/**
 Text as JavaScript has it, a sequence of UTF-16 code units, and the string literals that
 `JSON.stringify` writes: section 7 of RFC 8259, with lone surrogates escaped.
 */
module JsonText {
  import opened Common

  type Unit = u: int | 0 <= u < 0x1_0000
  type Text = seq<Unit>

  const QUOTE: Unit := 0x22
  const BACKSLASH: Unit := 0x5C
  const LETTER_U: Unit := 0x75

  predicate IsHigh(u: Unit) { 0xD800 <= u < 0xDC00 }
  predicate IsLow(u: Unit) { 0xDC00 <= u < 0xE000 }

  /** The letter after the backslash of a two-unit escape. */
  function ShortEscape(u: Unit): Option<Unit> {
    match u
    case 0x08 => Some(0x62)
    case 0x09 => Some(0x74)
    case 0x0A => Some(0x6E)
    case 0x0C => Some(0x66)
    case 0x0D => Some(0x72)
    case 0x22 => Some(0x22)
    case 0x5C => Some(0x5C)
    case _ => None
  }

  function ShortUnescape(u: Unit): Option<Unit> {
    match u
    case 0x62 => Some(0x08)
    case 0x74 => Some(0x09)
    case 0x6E => Some(0x0A)
    case 0x66 => Some(0x0C)
    case 0x72 => Some(0x0D)
    case 0x22 => Some(0x22)
    case 0x5C => Some(0x5C)
    case 0x2F => Some(0x2F)
    case _ => None
  }

  function HexDigit(d: int): Unit
    requires 0 <= d < 16
  {
    if d < 10 then 0x30 + d else 0x61 + d - 10
  }

  function HexValue(u: Unit): (v: Option<int>)
    ensures v.Some? ==> 0 <= v.value < 16
  {
    if 0x30 <= u <= 0x39 then Some(u - 0x30)
    else if 0x61 <= u <= 0x66 then Some(u - 0x61 + 10)
    else if 0x41 <= u <= 0x46 then Some(u - 0x41 + 10)
    else None
  }

  function Hex4(u: Unit): Text {
    [HexDigit(u / 0x1000), HexDigit(u / 0x100 % 16), HexDigit(u / 0x10 % 16), HexDigit(u % 16)]
  }

  function ReadHex4(t: Text): (r: Option<Unit>)
    requires |t| == 4
  {
    match (HexValue(t[0]), HexValue(t[1]), HexValue(t[2]), HexValue(t[3]))
    case (Some(a), Some(b), Some(c), Some(d)) => Some(0x1000 * a + 0x100 * b + 0x10 * c + d)
    case _ => None
  }

  lemma HexDigitRoundTrip(d: int)
    requires 0 <= d < 16
    ensures HexValue(HexDigit(d)) == Some(d)
  {
  }

  lemma Nibbles(u: Unit)
    ensures u == 0x1000 * (u / 0x1000) + 0x100 * (u / 0x100 % 16) + 0x10 * (u / 0x10 % 16) + u % 16
    ensures 0 <= u / 0x1000 < 16
  {
    assert u / 0x100 == u / 0x1000 * 16 + u / 0x100 % 16;
    assert u / 0x10 == u / 0x100 * 16 + u / 0x10 % 16;
  }

  lemma HexRoundTrip(u: Unit)
    ensures ReadHex4(Hex4(u)) == Some(u)
  {
    hide HexDigit, HexValue;
    Nibbles(u);
    HexDigitRoundTrip(u / 0x1000);
    HexDigitRoundTrip(u / 0x100 % 16);
    HexDigitRoundTrip(u / 0x10 % 16);
    HexDigitRoundTrip(u % 16);
  }

  function EscapeUnit(u: Unit): Text {
    if ShortEscape(u).Some? then [BACKSLASH, ShortEscape(u).value]
    else if u < 0x20 || IsHigh(u) || IsLow(u) then [BACKSLASH, LETTER_U] + Hex4(u)
    else [u]
  }

  function Escape(s: Text): Text {
    if s == [] then []
    else if IsHigh(s[0]) && |s| > 1 && IsLow(s[1]) then s[..2] + Escape(s[2..])
    else EscapeUnit(s[0]) + Escape(s[1..])
  }

  /** `JSON.stringify` of a string. */
  function Quote(s: Text): Text {
    [QUOTE] + Escape(s) + [QUOTE]
  }

  /** Reads the rest of a string literal, its closing quote included. */
  function ReadString(t: Text): (r: Option<(Text, Text)>)
    ensures r.Some? ==> |r.value.1| < |t|
  {
    if t == [] then None
    else if t[0] == QUOTE then Some(([], t[1..]))
    else if t[0] < 0x20 then None
    else if t[0] != BACKSLASH then Prepend(t[0], ReadString(t[1..]))
    else if |t| < 2 then None
    else if t[1] == LETTER_U then
      if |t| < 6 then None
      else
        match ReadHex4(t[2..6])
        case None => None
        case Some(u) => Prepend(u, ReadString(t[6..]))
    else
      match ShortUnescape(t[1])
      case None => None
      case Some(u) => Prepend(u, ReadString(t[2..]))
  }

  function Prepend(u: Unit, r: Option<(Text, Text)>): (r': Option<(Text, Text)>)
    ensures r'.Some? <==> r.Some?
    ensures r.Some? ==> r'.value.1 == r.value.1
  {
    match r
    case None => None
    case Some((s, rest)) => Some(([u] + s, rest))
  }

  lemma ReadsShort(u: Unit, t: Text)
    requires ShortEscape(u).Some?
    ensures ReadString([BACKSLASH, ShortEscape(u).value] + t) == Prepend(u, ReadString(t))
  {
    assert ([BACKSLASH, ShortEscape(u).value] + t)[2..] == t;
    assert ShortUnescape(ShortEscape(u).value) == Some(u);
  }

  lemma ReadsHex(u: Unit, t: Text)
    ensures ReadString([BACKSLASH, LETTER_U] + Hex4(u) + t) == Prepend(u, ReadString(t))
  {
    hide ReadHex4;
    HexRoundTrip(u);
    var e := [BACKSLASH, LETTER_U] + Hex4(u) + t;
    assert e[2..6] == Hex4(u);
    assert e[6..] == t;
  }

  lemma ReadsRaw(u: Unit, t: Text)
    requires u >= 0x20 && u != QUOTE && u != BACKSLASH
    ensures ReadString([u] + t) == Prepend(u, ReadString(t))
  {
  }

  lemma ReadsUnit(u: Unit, t: Text)
    ensures ReadString(EscapeUnit(u) + t) == Prepend(u, ReadString(t))
  {
    hide ReadString;
    if ShortEscape(u).Some? {
      ReadsShort(u, t);
    } else if u < 0x20 || IsHigh(u) || IsLow(u) {
      ReadsHex(u, t);
    } else {
      ReadsRaw(u, t);
    }
  }

  lemma Assoc(a: Text, b: Text, c: Text)
    ensures (a + b) + c == a + (b + c)
  {
  }

  lemma ReadsPair(u: Unit, v: Unit, t: Text, s: Text, rest: Text)
    requires IsHigh(u) && IsLow(v) && ReadString(t) == Some((s, rest))
    ensures ReadString([u, v] + t) == Some(([u, v] + s, rest))
  {
    hide ReadString;
    ReadsRaw(v, t);
    ReadsRaw(u, [v] + t);
    assert [u, v] + t == [u] + ([v] + t);
    assert [u, v] + s == [u] + ([v] + s);
  }

  lemma ReadsPairFirst(s: Text, escaped: Text, tail: Text, rest: Text)
    requires |s| > 1 && IsHigh(s[0]) && IsLow(s[1])
    requires ReadString(escaped + tail) == Some((s[2..], rest))
    ensures ReadString(s[..2] + escaped + tail) == Some((s, rest))
  {
    hide ReadString;
    ReadsPair(s[0], s[1], escaped + tail, s[2..], rest);
    assert s[..2] == [s[0], s[1]];
    Assoc(s[..2], escaped, tail);
    assert s == s[..2] + s[2..];
  }

  lemma ReadsUnitFirst(s: Text, escaped: Text, tail: Text, rest: Text)
    requires s != []
    requires ReadString(escaped + tail) == Some((s[1..], rest))
    ensures ReadString(EscapeUnit(s[0]) + escaped + tail) == Some((s, rest))
  {
    hide ReadString, EscapeUnit;
    ReadsUnit(s[0], escaped + tail);
    Assoc(EscapeUnit(s[0]), escaped, tail);
    assert s == [s[0]] + s[1..];
  }

  /** An escaped string reads back as itself, up to its closing quote and no further. */
  lemma {:induction false} ReadsEscaped(s: Text, rest: Text)
    ensures ReadString(Escape(s) + ([QUOTE] + rest)) == Some((s, rest))
  {
    var tail := [QUOTE] + rest;
    if s == [] {
      assert Escape(s) + tail == tail;
    } else {
      hide ReadString, EscapeUnit;
      if IsHigh(s[0]) && |s| > 1 && IsLow(s[1]) {
        ReadsEscaped(s[2..], rest);
        ReadsPairFirst(s, Escape(s[2..]), tail, rest);
      } else {
        ReadsEscaped(s[1..], rest);
        ReadsUnitFirst(s, Escape(s[1..]), tail, rest);
      }
    }
  }

  /** JavaScript's default order on strings: code unit by code unit. */
  predicate Less(a: Text, b: Text) {
    if b == [] then false
    else if a == [] then true
    else a[0] < b[0] || (a[0] == b[0] && Less(a[1..], b[1..]))
  }

  lemma {:induction false} LessIrreflexive(a: Text)
    ensures !Less(a, a)
  {
    if a != [] { LessIrreflexive(a[1..]); }
  }

  lemma {:induction false} LessTransitive(a: Text, b: Text, c: Text)
    requires Less(a, b) && Less(b, c)
    ensures Less(a, c)
  {
    if a != [] && a[0] == b[0] && b[0] == c[0] {
      LessTransitive(a[1..], b[1..], c[1..]);
    }
  }

  lemma {:induction false} LessTotal(a: Text, b: Text)
    ensures Less(a, b) || a == b || Less(b, a)
  {
    if a != [] && b != [] && a[0] == b[0] {
      LessTotal(a[1..], b[1..]);
      if a[1..] == b[1..] {
        assert a == [a[0]] + a[1..] && b == [b[0]] + b[1..];
      }
    }
  }

  /** The order said outright: up to some place the texts are equal, and there one ends or has the smaller unit. */
  ghost predicate ComesBefore(a: Text, b: Text) {
    exists n: nat :: BeforeAt(a, b, n)
  }

  predicate BeforeAt(a: Text, b: Text, n: nat) {
    && n <= |a| && n < |b| && a[..n] == b[..n]
    && (n == |a| || a[n] < b[n])
  }

  lemma {:induction false} LessIsBefore(a: Text, b: Text)
    ensures Less(a, b) <==> ComesBefore(a, b)
  {
    if b == [] {
    } else if a == [] || a[0] < b[0] {
      assert BeforeAt(a, b, 0);
    } else if a[0] == b[0] {
      LessIsBefore(a[1..], b[1..]);
      if Less(a, b) {
        var n: nat :| BeforeAt(a[1..], b[1..], n);
        BeforeLonger(a, b, n);
      }
      if ComesBefore(a, b) {
        var n: nat :| BeforeAt(a, b, n);
        BeforeShorter(a, b, n);
      }
    } else {
      forall n: nat
        ensures !BeforeAt(a, b, n)
      {
        if 0 < n <= |a| && n <= |b| {
          assert a[..n][0] != b[..n][0];
        }
      }
    }
  }

  lemma BeforeLonger(a: Text, b: Text, n: nat)
    requires a != [] && b != [] && a[0] == b[0] && BeforeAt(a[1..], b[1..], n)
    ensures BeforeAt(a, b, n + 1)
  {
    assert a[..n + 1] == [a[0]] + a[1..][..n];
    assert b[..n + 1] == [b[0]] + b[1..][..n];
  }

  lemma BeforeShorter(a: Text, b: Text, n: nat)
    requires a != [] && b != [] && a[0] == b[0] && BeforeAt(a, b, n)
    ensures n > 0 && BeforeAt(a[1..], b[1..], n - 1)
  {
    assert a[1..][..n - 1] == a[..n][1..];
    assert b[1..][..n - 1] == b[..n][1..];
  }

  // ---- The characters themselves ----

  /** A text of ASCII characters. */
  function Ascii(s: string): (t: Text)
    ensures |t| == |s|
    ensures forall i :: 0 <= i < |s| ==> t[i] == s[i] as int % 0x80
  {
    if s == [] then [] else [s[0] as int % 0x80] + Ascii(s[1..])
  }

  /** What `JSON.stringify` writes between the quotes for one unit that is not part of a surrogate pair. */
  lemma EscapesAre(u: Unit)
    ensures u == 0x08 ==> Escape([u]) == Ascii("\\b")
    ensures u == 0x09 ==> Escape([u]) == Ascii("\\t")
    ensures u == 0x0A ==> Escape([u]) == Ascii("\\n")
    ensures u == 0x0C ==> Escape([u]) == Ascii("\\f")
    ensures u == 0x0D ==> Escape([u]) == Ascii("\\r")
    ensures u == 0x22 ==> Escape([u]) == Ascii("\\\"")
    ensures u == 0x5C ==> Escape([u]) == Ascii("\\\\")
    ensures (u < 0x20 && u !in {0x08, 0x09, 0x0A, 0x0C, 0x0D}) || 0xD800 <= u < 0xE000 ==>
      Escape([u]) == Ascii("\\u") + [HexOf(u / 4096), HexOf(u / 256 % 16), HexOf(u / 16 % 16), HexOf(u % 16)]
    ensures (0x20 <= u < 0xD800 && u != 0x22 && u != 0x5C) || 0xE000 <= u ==> Escape([u]) == [u]
  {
    SingleEscape(u);
    HexIsLower(u / 4096);
    HexIsLower(u / 256 % 16);
    HexIsLower(u / 16 % 16);
    HexIsLower(u % 16);
    AsciiControls();
    AsciiOthers();
    hide Ascii, HexDigit, HexOf, Escape;
  }

  lemma SingleEscape(u: Unit)
    ensures Escape([u]) == EscapeUnit(u)
  {
    assert [u][1..] == [];
    assert EscapeUnit(u) + [] == EscapeUnit(u);
  }

  lemma AsciiControls()
    ensures Ascii("\\b") == [0x5C, 0x62] && Ascii("\\t") == [0x5C, 0x74] && Ascii("\\n") == [0x5C, 0x6E]
  {
  }

  lemma AsciiOthers()
    ensures Ascii("\\f") == [0x5C, 0x66] && Ascii("\\r") == [0x5C, 0x72] && Ascii("\\\"") == [0x5C, 0x22]
    ensures Ascii("\\\\") == [0x5C, 0x5C] && Ascii("\\u") == [0x5C, 0x75]
  {
  }

  function HexOf(d: int): Unit
    requires 0 <= d < 16
  {
    "0123456789abcdef"[d] as int
  }

  lemma HexIsLower(d: int)
    requires 0 <= d < 16
    ensures HexDigit(d) == HexOf(d)
  {
  }

  /** A surrogate pair is written as it is; otherwise a text is escaped unit by unit. */
  lemma EscapeSteps(s: Text)
    requires s != []
    ensures
      if |s| > 1 && 0xD800 <= s[0] < 0xDC00 <= s[1] < 0xE000 then Escape(s) == [s[0], s[1]] + Escape(s[2..])
      else Escape(s) == Escape([s[0]]) + Escape(s[1..])
  {
    SingleEscape(s[0]);
    hide EscapeUnit;
    assert |s| > 1 ==> s[..2] == [s[0], s[1]];
  }
}
