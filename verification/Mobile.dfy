/** Normal form of Iranian mobile numbers, lib/mobile.ts. */
module Mobile {
  import opened Common
  import opened JsStrings

  /** `[\s\-()]`. */
  predicate IsSeparator(c: char) {
    IsSpace(c) || c == '-' || c == '(' || c == ')'
  }

  predicate IsKept(c: char) {
    !IsSeparator(c)
  }

  /** A Persian digit becomes the ASCII digit of the same value. */
  function AsciiDigit(c: char): char {
    if '\U{06F0}' <= c <= '\U{06F9}' then DigitChar(c as int - '\U{06F0}' as int) else c
  }

  function AsciiDigits(s: string): (r: string)
    ensures |r| == |s|
  {
    if s == [] then [] else [AsciiDigit(s[0])] + AsciiDigits(s[1..])
  }

  function Clean(input: string): string {
    AsciiDigits(Keep(Trim(input), IsKept))
  }

  predicate IsLocalMobile(s: string) {
    |s| == 11 && s[..2] == "09" && AllDigits(s[2..])
  }

  predicate IsE164Mobile(s: string) {
    |s| == 13 && s[..4] == "+989" && AllDigits(s[4..])
  }

  function Candidate(digits: string): string {
    if StartsWith(digits, "0098") then "+" + digits[2..]
    else if StartsWith(digits, "98") && |digits| == 12 then "+" + digits
    else digits
  }

  /** The result for an input that is a string; anything else is refused. */
  function NormalizeText(input: string): Option<string> {
    var candidate := Candidate(Clean(input));
    if IsE164Mobile(candidate) then Some("0" + candidate[3..])
    else if IsLocalMobile(candidate) then Some(candidate)
    else None
  }

  method NormalizeIranMobile(input: Option<string>) returns (mobile: Option<string>)
    ensures mobile == if input.None? then None else NormalizeText(input.value)
  {
    if input.None? {
      return None;
    }
    var digits := Clean(input.value);
    var candidate := digits;
    if StartsWith(candidate, "0098") {
      candidate := "+" + candidate[2..];
    } else if StartsWith(candidate, "98") && |candidate| == 12 {
      candidate := "+" + candidate;
    }
    if IsE164Mobile(candidate) {
      return Some("0" + candidate[3..]);
    }
    if IsLocalMobile(candidate) {
      return Some(candidate);
    }
    return None;
  }

  /** The four ways to write the mobile with these nine subscriber digits. */
  predicate Writes(cleaned: string, subscriber: string) {
    && |subscriber| == 9 && AllDigits(subscriber)
    && (cleaned == "09" + subscriber || cleaned == "+989" + subscriber
        || cleaned == "00989" + subscriber || cleaned == "989" + subscriber)
  }

  /**
   Exactly the four spellings are accepted, after separators are dropped and Persian digits read, and
   the answer is the local spelling of the same subscriber.
   */
  lemma AcceptsExactlyTheSpellings(input: string)
    ensures NormalizeText(input).Some? <==> exists subscriber :: Writes(Clean(input), subscriber)
    ensures forall subscriber :: Writes(Clean(input), subscriber) ==> NormalizeText(input) == Some("09" + subscriber)
  {
    hide Clean;
    var cleaned := Clean(input);
    forall subscriber | Writes(cleaned, subscriber)
      ensures NormalizeText(input) == Some("09" + subscriber)
    {
      SpellingAccepted(input, subscriber);
    }
    if NormalizeText(input).Some? {
      var subscriber := AcceptedSpelling(input);
    }
  }

  lemma SpellingAccepted(input: string, subscriber: string)
    requires Writes(Clean(input), subscriber)
    ensures NormalizeText(input) == Some("09" + subscriber)
  {
    hide Clean;
    var cleaned := Clean(input);
    if cleaned == "09" + subscriber {
      assert cleaned[1] != "0098"[1] && cleaned[0] != "98"[0];
      assert Candidate(cleaned) == cleaned;
    } else if cleaned == "+989" + subscriber {
      assert cleaned[0] != "0098"[0] && cleaned[0] != "98"[0];
      assert Candidate(cleaned) == cleaned;
      assert "0" + cleaned[3..] == "09" + subscriber;
    } else if cleaned == "00989" + subscriber {
      assert Candidate(cleaned) == "+" + cleaned[2..] == "+989" + subscriber;
      assert "0" + Candidate(cleaned)[3..] == "09" + subscriber;
    } else {
      assert cleaned[0] != "0098"[0];
      assert Candidate(cleaned) == "+" + cleaned == "+989" + subscriber;
      assert "0" + Candidate(cleaned)[3..] == "09" + subscriber;
    }
  }

  lemma AcceptedSpelling(input: string) returns (subscriber: string)
    requires NormalizeText(input).Some?
    ensures Writes(Clean(input), subscriber)
  {
    hide Clean;
    var cleaned := Clean(input);
    var candidate := Candidate(cleaned);
    if IsE164Mobile(candidate) {
      subscriber := candidate[4..];
      assert candidate == "+989" + subscriber;
      if StartsWith(cleaned, "0098") {
        assert cleaned[2..] == candidate[1..] == "989" + subscriber;
        assert cleaned[0] == "0098"[0] && cleaned[1] == "0098"[1];
        assert cleaned == "00" + cleaned[2..] == "00989" + subscriber;
      } else if StartsWith(cleaned, "98") && |cleaned| == 12 {
        assert cleaned == candidate[1..] == "989" + subscriber;
      }
    } else {
      subscriber := candidate[2..];
      assert candidate == "09" + subscriber;
      assert candidate[0] == "09"[0] != "+"[0];
      assert candidate == cleaned;
    }
  }

  lemma {:induction false} CleanDigits(s: string)
    requires AllDigits(s)
    ensures Clean(s) == s
  {
    TrimNothing(s);
    KeepAll(s, IsKept);
    AsciiDigitsKeep(s);
  }

  lemma {:induction false} AsciiDigitsKeep(s: string)
    requires AllDigits(s)
    ensures AsciiDigits(s) == s
  {
    if s != [] {
      AsciiDigitsKeep(s[1..]);
      assert s == [s[0]] + s[1..];
    }
  }

  /** The normal form is accepted and is its own normal form. */
  lemma NormalFormIsFixed(input: string)
    requires NormalizeText(input).Some?
    ensures NormalizeText(NormalizeText(input).value) == NormalizeText(input)
  {
    var subscriber := AcceptedSpelling(input);
    SpellingAccepted(input, subscriber);
    var mobile := "09" + subscriber;
    CleanDigits(mobile);
    SpellingAccepted(mobile, subscriber);
  }

  /** Two accepted inputs have one normal form exactly when they name the same subscriber. */
  lemma SameMobileIffSameSubscriber(a: string, b: string, x: string, y: string)
    requires Writes(Clean(a), x) && Writes(Clean(b), y)
    ensures NormalizeText(a) == NormalizeText(b) <==> x == y
  {
    hide Clean, NormalizeText;
    SpellingAccepted(a, x);
    SpellingAccepted(b, y);
    if NormalizeText(a) == NormalizeText(b) {
      assert x == ("09" + x)[2..] == ("09" + y)[2..] == y;
    }
  }

  // ---- What the cleaning ignores ----

  lemma {:induction false} TrimIsSeparators(s: string)
    ensures Keep(TrimStart(s), IsKept) == Keep(s, IsKept)
    ensures Keep(TrimEnd(s), IsKept) == Keep(s, IsKept)
  {
    if s != [] {
      TrimIsSeparators(s[1..]);
      var front, last := s[..|s| - 1], s[|s| - 1..];
      TrimIsSeparators(front);
      assert s == front + last;
      KeepAppend(front, last, IsKept);
    }
  }

  lemma CleanIgnoresTrim(s: string)
    ensures Clean(s) == AsciiDigits(Keep(s, IsKept))
  {
    TrimIsSeparators(s);
    TrimIsSeparators(TrimStart(s));
  }

  lemma {:induction false} AsciiDigitsAppend(a: string, b: string)
    ensures AsciiDigits(a + b) == AsciiDigits(a) + AsciiDigits(b)
  {
    if a == [] {
      assert a + b == b;
    } else {
      assert (a + b)[1..] == a[1..] + b;
      AsciiDigitsAppend(a[1..], b);
    }
  }

  lemma CleanAround(a: string, c: char, b: string)
    ensures Clean(a + [c] + b) == Clean(a) + (if IsKept(c) then [AsciiDigit(c)] else []) + Clean(b)
  {
    CleanIgnoresTrim(a);
    CleanIgnoresTrim(b);
    CleanIgnoresTrim(a + [c] + b);
    KeepAppend(a + [c], b, IsKept);
    KeepAppend(a, [c], IsKept);
    var keptA, keptB := Keep(a, IsKept), Keep(b, IsKept);
    var keptC := if IsKept(c) then [c] else [];
    assert Keep([c], IsKept) == keptC;
    AsciiDigitsAppend(keptA + keptC, keptB);
    AsciiDigitsAppend(keptA, keptC);
  }

  /** A separator may stand anywhere, and a Persian digit for an ASCII one, without changing the answer. */
  lemma SpellingDoesNotMatter(a: string, separator: char, d: int, b: string)
    requires IsSeparator(separator) && 0 <= d < 10
    ensures NormalizeText(a + [separator] + b) == NormalizeText(a + b)
    ensures NormalizeText(a + ['\U{06F0}' + d as char] + b) == NormalizeText(a + [DigitChar(d)] + b)
  {
    hide Clean, NormalizeText;
    CleanAround(a, separator, b);
    CleanAround(a, '\U{06F0}' + d as char, b);
    CleanAround(a, DigitChar(d), b);
    CleanAppend(a, b);
    CleanDecides(a + [separator] + b, a + b);
    CleanDecides(a + ['\U{06F0}' + d as char] + b, a + [DigitChar(d)] + b);
  }

  lemma CleanAppend(a: string, b: string)
    ensures Clean(a + b) == Clean(a) + Clean(b)
  {
    CleanIgnoresTrim(a);
    CleanIgnoresTrim(b);
    CleanIgnoresTrim(a + b);
    KeepAppend(a, b, IsKept);
    AsciiDigitsAppend(Keep(a, IsKept), Keep(b, IsKept));
  }

  lemma CleanDecides(a: string, b: string)
    requires Clean(a) == Clean(b)
    ensures NormalizeText(a) == NormalizeText(b)
  {
  }

  const PERSIAN_DIGITS := "\U{06F0}\U{06F1}\U{06F2}\U{06F3}\U{06F4}\U{06F5}\U{06F6}\U{06F7}\U{06F8}\U{06F9}"

  /**
   Character by character: white space, hyphens and parentheses go, a Persian digit becomes the ASCII digit of
   its value, and everything else stays.
   */
  lemma CleanedIs(a: string, c: char, d: nat, b: string)
    requires d < 10
    ensures IsWhite(c) || c in "-()" ==> Clean(a + [c] + b) == Clean(a) + Clean(b)
    ensures Clean(a + [PERSIAN_DIGITS[d]] + b) == Clean(a) + ["0123456789"[d]] + Clean(b)
    ensures !IsWhite(c) && c !in "-()" && c !in PERSIAN_DIGITS ==> Clean(a + [c] + b) == Clean(a) + [c] + Clean(b)
  {
    CleanAround(a, c, b);
    CleanAround(a, PERSIAN_DIGITS[d], b);
    hide Clean, IsSpace, IsWhite;
    CharactersAre(c, d);
  }

  lemma CharactersAre(c: char, d: nat)
    requires d < 10
    ensures IsKept(c) <==> !IsWhite(c) && c !in "-()"
    ensures IsKept(PERSIAN_DIGITS[d]) && AsciiDigit(PERSIAN_DIGITS[d]) == "0123456789"[d]
    ensures c !in PERSIAN_DIGITS ==> AsciiDigit(c) == c
  {
    SpacesAre(c);
    assert c in "-()" <==> c == '-' || c == '(' || c == ')' by {
      assert "-()"[0] == '-' && "-()"[1] == '(' && "-()"[2] == ')';
    }
    if '\U{06F0}' <= c <= '\U{06F9}' {
      assert PERSIAN_DIGITS[c as int - 0x6F0] == c;
    }
  }
}
