/**
 * The string operations the bot relies on, written out character by character:
 * Python's str.startswith, str.replace, str.strip, str.lower, str.rstrip, str.join
 * and int(), SQLite's LIKE '%q%' and the BINARY collation used by ORDER BY.
 */
module Text {
  import opened Wrappers

  predicate StartsWith(s: string, prefix: string)
  {
    |prefix| <= |s| && s[..|prefix|] == prefix
  }

  /** `sub` occurs somewhere in `s` as a contiguous run. */
  predicate Contains(s: string, sub: string)
  {
    StartsWith(s, sub) || (s != [] && Contains(s[1..], sub))
  }

  /** An occurrence is a run of `s` equal to `sub`, at some position. */
  lemma {:induction false} ContainsAt(s: string, sub: string, i: nat)
    requires i + |sub| <= |s| && s[i..i + |sub|] == sub
    ensures Contains(s, sub)
  {
    if i > 0 {
      assert s[1..][i - 1..i - 1 + |sub|] == s[i..i + |sub|];
      ContainsAt(s[1..], sub, i - 1);
    }
  }

  /** A string none of whose characters is the pattern's first character does not contain it. */
  lemma {:induction false} NotContainsFirstChar(s: string, sub: string)
    requires sub != [] && forall i :: 0 <= i < |s| ==> s[i] != sub[0]
    ensures !Contains(s, sub)
  {
    if s != [] {
      NotContainsFirstChar(s[1..], sub);
    }
  }

  /**
   * Python's `s.replace(pat, rep)`: every non-overlapping occurrence of `pat`,
   * found scanning left to right, is replaced by `rep`.
   */
  function ReplaceAll(s: string, pat: string, rep: string): (r: string)
    requires pat != ""
    decreases |s|
  {
    if |s| < |pat| then s
    else if s[..|pat|] == pat then rep + ReplaceAll(s[|pat|..], pat, rep)
    else [s[0]] + ReplaceAll(s[1..], pat, rep)
  }

  /** A string in which the pattern does not occur comes back unchanged. */
  lemma {:induction false} ReplaceAllNoMatch(s: string, pat: string, rep: string)
    requires pat != "" && !Contains(s, pat)
    ensures ReplaceAll(s, pat, rep) == s
    decreases |s|
  {
    if |s| < |pat| {
    } else if s[..|pat|] == pat {
      assert false;
    } else {
      ReplaceAllNoMatch(s[1..], pat, rep);
    }
  }

  /** Removing a prefix with replace-all gives back the suffix when the suffix does not contain it. */
  lemma ReplacePrefix(pat: string, x: string)
    requires pat != "" && !Contains(x, pat)
    ensures ReplaceAll(pat + x, pat, "") == x
  {
    assert (pat + x)[..|pat|] == pat;
    assert (pat + x)[|pat|..] == x;
    ReplaceAllNoMatch(x, pat, "");
  }

  /**
   * Replace-all is not strip-prefix: a suffix that itself starts with the pattern
   * loses that occurrence too.
   */
  lemma ReplaceRemovesInnerOccurrence(pat: string, x: string)
    requires pat != "" && !Contains(x, pat)
    ensures ReplaceAll(pat + (pat + x), pat, "") == x
    ensures pat + x != x
  {
    assert (pat + (pat + x))[..|pat|] == pat;
    assert (pat + (pat + x))[|pat|..] == pat + x;
    ReplacePrefix(pat, x);
  }

  // ---------------------------------------------------------------------------
  // Character classes

  /** The characters for which Python's str.isspace() holds. */
  predicate IsSpace(c: char)
  {
    c == ' ' || ('\t' <= c <= '\r') || ('\U{1C}' <= c <= '\U{1F}') || c == '\U{85}' || c == '\U{A0}'
    || c == '\U{1680}' || ('\U{2000}' <= c <= '\U{200A}') || c == '\U{2028}' || c == '\U{2029}'
    || c == '\U{202F}' || c == '\U{205F}' || c == '\U{3000}'
  }

  predicate IsDigit(c: char)
  {
    '0' <= c <= '9'
  }

  predicate IsAsciiUpper(c: char)
  {
    'A' <= c <= 'Z'
  }

  function LowerChar(c: char): (d: char)
    ensures !IsAsciiUpper(d)
    ensures IsAsciiUpper(c) || d == c
  {
    if IsAsciiUpper(c) then (c as int + 32) as char else c
  }

  /** Lowering never makes or unmakes whitespace. */
  lemma LowerCharSpace(c: char)
    ensures IsSpace(LowerChar(c)) <==> IsSpace(c)
  {
  }

  /** str.lower() on the ASCII letters; every other character is kept. */
  function AsciiLower(s: string): (r: string)
    ensures |r| == |s|
    ensures forall i :: 0 <= i < |s| ==> r[i] == LowerChar(s[i])
  {
    seq(|s|, i requires 0 <= i < |s| => LowerChar(s[i]))
  }

  lemma AsciiLowerIdempotent(s: string)
    ensures AsciiLower(AsciiLower(s)) == AsciiLower(s)
  {
  }

  // ---------------------------------------------------------------------------
  // Trimming

  function TrimStart(s: string): (r: string)
    ensures |r| <= |s| && r == s[|s| - |r|..]
    ensures r == [] || !IsSpace(r[0])
    ensures forall i :: 0 <= i < |s| - |r| ==> IsSpace(s[i])
  {
    if s != [] && IsSpace(s[0]) then TrimStart(s[1..]) else s
  }

  function TrimEnd(s: string): (r: string)
    ensures |r| <= |s| && r == s[..|r|]
    ensures r == [] || !IsSpace(r[|r| - 1])
    ensures forall i :: |r| <= i < |s| ==> IsSpace(s[i])
  {
    if s != [] && IsSpace(s[|s| - 1]) then TrimEnd(s[..|s| - 1]) else s
  }

  /** Python's str.strip() with no argument. */
  function Strip(s: string): string
  {
    TrimEnd(TrimStart(s))
  }

  /**
   * Strip removes exactly the whitespace at both ends: what is left is a
   * contiguous piece of `s` with no whitespace at either end, and everything
   * around it is whitespace.
   */
  lemma StripSpec(s: string)
    ensures StripOffset(s) + |Strip(s)| <= |s|
    ensures Strip(s) == s[StripOffset(s)..StripOffset(s) + |Strip(s)|]
    ensures forall i :: 0 <= i < StripOffset(s) ==> IsSpace(s[i])
    ensures forall i :: StripOffset(s) + |Strip(s)| <= i < |s| ==> IsSpace(s[i])
    ensures Strip(s) == [] || (!IsSpace(Strip(s)[0]) && !IsSpace(Strip(s)[|Strip(s)| - 1]))
  {
    StripPiece(s);
    StripTail(s);
    StripEnds(s);
  }

  /** What Strip leaves is the piece of `s` that starts at StripOffset. */
  lemma StripPiece(s: string)
    ensures StripOffset(s) + |Strip(s)| <= |s|
    ensures Strip(s) == s[StripOffset(s)..StripOffset(s) + |Strip(s)|]
  {
    var t := TrimStart(s);
    SliceOfSuffix(s, |s| - |t|, |TrimEnd(t)|);
  }

  lemma SliceOfSuffix(s: string, lo: nat, n: nat)
    requires lo + n <= |s|
    ensures s[lo..][..n] == s[lo..lo + n]
  {
  }

  /** Everything after the piece Strip leaves is whitespace. */
  lemma StripTail(s: string)
    ensures forall i :: StripOffset(s) + |Strip(s)| <= i < |s| ==> IsSpace(s[i])
  {
    var t := TrimStart(s);
    SuffixTailSpaces(s, |s| - |t|, t);
  }

  /** TrimEnd on a suffix of `s` leaves whitespace only behind it in `s`. */
  lemma SuffixTailSpaces(s: string, lo: nat, t: string)
    requires lo <= |s| && t == s[lo..]
    ensures forall i :: lo + |TrimEnd(t)| <= i < |s| ==> IsSpace(s[i])
  {
    forall i | lo + |TrimEnd(t)| <= i < |s| ensures IsSpace(s[i]) {
      assert s[i] == t[i - lo];
    }
  }

  /** What Strip leaves starts and ends with a character that is not whitespace. */
  lemma StripEnds(s: string)
    ensures |Strip(s)| <= |s|
    ensures Strip(s) == [] || (!IsSpace(Strip(s)[0]) && !IsSpace(Strip(s)[|Strip(s)| - 1]))
  {
    var t := TrimStart(s);
    var r := TrimEnd(t);
    if r != [] {
      assert r[0] == t[0];
    }
  }

  /** Strip leaves nothing exactly when every character is whitespace. */
  lemma StripEmpty(s: string)
    ensures Strip(s) == [] <==> forall i :: 0 <= i < |s| ==> IsSpace(s[i])
  {
    StripSpec(s);
    var o := StripOffset(s);
    if Strip(s) != [] {
      assert s[o] == Strip(s)[0];
    }
  }
  /** Whitespace at both ends is already gone. */
  lemma StripTrimmed(s: string)
    requires s == [] || (!IsSpace(s[0]) && !IsSpace(s[|s| - 1]))
    ensures Strip(s) == s
  {
    assert TrimStart(s) == s;
    assert TrimEnd(s) == s;
  }

  /** Stripping and lowering a text that was already stripped and lowered changes nothing. */
  lemma StripLowerIdempotent(s: string)
    ensures var r := AsciiLower(Strip(s)); AsciiLower(Strip(r)) == r
  {
    var t := Strip(s);
    var r := AsciiLower(t);
    StripEnds(s);
    if t != [] {
      LowerCharSpace(t[0]);
      LowerCharSpace(t[|t| - 1]);
    }
    StripTrimmed(r);
    AsciiLowerIdempotent(t);
  }


  /** How many leading whitespace characters Strip drops. */
  function StripOffset(s: string): nat
  {
    |s| - |TrimStart(s)|
  }

  lemma StripIdempotent(s: string)
    ensures Strip(Strip(s)) == Strip(s)
  {
    var r := Strip(s);
    StripSpec(s);
    assert TrimStart(r) == r;
    assert TrimEnd(r) == r;
  }

  /** Python's s.rstrip(c) for a single character c. */
  function RStripChar(s: string, c: char): (r: string)
    ensures |r| <= |s| && r == s[..|r|]
    ensures r == [] || r[|r| - 1] != c
    ensures forall i :: |r| <= i < |s| ==> s[i] == c
  {
    if s != [] && s[|s| - 1] == c then RStripChar(s[..|s| - 1], c) else s
  }

  /** Python's sep.join(parts). */
  function Join(parts: seq<string>, sep: string): (r: string)
  {
    if |parts| == 0 then ""
    else if |parts| == 1 then parts[0]
    else Join(parts[..|parts| - 1], sep) + sep + parts[|parts| - 1]
  }

  /** Joining k parts inserts k - 1 separators and keeps every part. */
  lemma {:induction false} JoinLength(parts: seq<string>, sep: string)
    requires |parts| > 0
    ensures |Join(parts, sep)| == SumLengths(parts) + (|parts| - 1) * |sep|
  {
    if |parts| > 1 {
      JoinLength(parts[..|parts| - 1], sep);
      SumLengthsSnoc(parts);
    }
  }

  function SumLengths(parts: seq<string>): nat
  {
    if parts == [] then 0 else |parts[0]| + SumLengths(parts[1..])
  }

  lemma {:induction false} SumLengthsSnoc(parts: seq<string>)
    requires |parts| > 0
    ensures SumLengths(parts) == SumLengths(parts[..|parts| - 1]) + |parts[|parts| - 1]|
  {
    if |parts| > 1 {
      assert parts[1..][..|parts[1..]| - 1] == parts[..|parts| - 1][1..];
      SumLengthsSnoc(parts[1..]);
    }
  }

  // ---------------------------------------------------------------------------
  // Integers: Python's int(s) and str(n)

  function DigitValue(c: char): nat
    requires IsDigit(c)
  {
    c as int - '0' as int
  }

  function Digit(d: nat): (c: char)
    requires d < 10
    ensures IsDigit(c) && DigitValue(c) == d
  {
    ('0' as int + d) as char
  }

  predicate AllDigits(s: string)
  {
    forall i :: 0 <= i < |s| ==> IsDigit(s[i])
  }

  function DigitsValue(s: string): nat
    requires AllDigits(s)
  {
    if s == [] then 0 else DigitsValue(s[..|s| - 1]) * 10 + DigitValue(s[|s| - 1])
  }

  /** str(n) for a non-negative n. */
  function NatToString(n: nat): (s: string)
    ensures |s| > 0 && AllDigits(s)
  {
    if n < 10 then [Digit(n)] else NatToString(n / 10) + [Digit(n % 10)]
  }

  /** str(n) for any integer n. */
  function IntToString(n: int): string
  {
    if n < 0 then "-" + NatToString(-n) else NatToString(n)
  }

  /**
   * Python's int(s) on a string: surrounding whitespace is ignored, one optional
   * sign, then a numeral of ASCII digits in which single underscores may separate
   * digits; anything else raises ValueError (None here).
   */
  function ParseInt(s: string): Option<int>
  {
    ParseSigned(Strip(s))
  }

  /** A character that may stand in a numeral. */
  predicate NumeralChar(c: char)
  {
    IsDigit(c) || c == '_'
  }

  /**
   * A numeral as int() reads it: a digit, then digits, each of which may have
   * a single underscore before it.
   */
  predicate IsNumeral(t: string)
    decreases |t|
  {
    && |t| > 0 && IsDigit(t[0])
    && (|t| == 1 || if t[1] == '_' then IsNumeral(t[2..]) else IsNumeral(t[1..]))
  }

  /** A numeral holds digits and underscores only. */
  lemma {:induction false} NumeralChars(t: string)
    requires IsNumeral(t)
    ensures forall i :: 0 <= i < |t| ==> NumeralChar(t[i])
    decreases |t|
  {
    if |t| > 1 {
      if t[1] == '_' {
        NumeralChars(t[2..]);
        assert forall i :: 2 <= i < |t| ==> t[i] == t[2..][i - 2];
      } else {
        NumeralChars(t[1..]);
        assert forall i :: 1 <= i < |t| ==> t[i] == t[1..][i - 1];
      }
    }
  }

  /** The digits of a text, underscores removed. */
  function DropUnderscores(t: string): string
  {
    if t == [] then [] else (if t[0] == '_' then [] else [t[0]]) + DropUnderscores(t[1..])
  }

  /** Digits and underscores, the underscores removed, leave digits only. */
  lemma {:induction false} DropUnderscoresAllDigits(t: string)
    requires forall i :: 0 <= i < |t| ==> NumeralChar(t[i])
    ensures AllDigits(DropUnderscores(t))
  {
    if t != [] {
      assert forall i :: 1 <= i < |t| ==> t[1..][i - 1] == t[i];
      DropUnderscoresAllDigits(t[1..]);
    }
  }

  /** The value of a numeral: its digits read in base ten. */
  function NumeralValue(t: string): nat
    requires IsNumeral(t)
  {
    NumeralChars(t);
    DropUnderscoresAllDigits(t);
    DigitsValue(DropUnderscores(t))
  }

  /** One optional sign followed by a numeral, and nothing else. */
  function ParseSigned(t: string): Option<int>
  {
    if |t| > 0 && (t[0] == '-' || t[0] == '+') then
      if IsNumeral(t[1..]) then
        var v: int := NumeralValue(t[1..]);
        Some(if t[0] == '-' then -v else v)
      else None
    else if IsNumeral(t) then Some(NumeralValue(t))
    else None
  }

  /** What int() accepts holds only digits, underscores and signs. */
  lemma ParseSignedChars(t: string, i: nat)
    requires i < |t| && ParseSigned(t).Some?
    ensures NumeralChar(t[i]) || t[i] == '-' || t[i] == '+'
  {
    if |t| > 0 && (t[0] == '-' || t[0] == '+') {
      if i > 0 {
        NumeralChars(t[1..]);
        assert t[i] == t[1..][i - 1];
      }
    } else {
      NumeralChars(t);
    }
  }

  /** Removing underscores works piece by piece. */
  lemma {:induction false} DropUnderscoresConcat(a: string, b: string)
    ensures DropUnderscores(a + b) == DropUnderscores(a) + DropUnderscores(b)
  {
    if a == [] {
      assert a + b == b;
    } else {
      assert (a + b)[0] == a[0] && (a + b)[1..] == a[1..] + b;
      DropUnderscoresConcat(a[1..], b);
    }
  }

  /** A text of digits only has no underscore to remove. */
  lemma {:induction false} DropUnderscoresDigits(t: string)
    requires AllDigits(t)
    ensures DropUnderscores(t) == t
  {
    if t != [] {
      assert AllDigits(t[1..]) by {
        assert forall i :: 1 <= i < |t| ==> t[1..][i - 1] == t[i];
      }
      DropUnderscoresDigits(t[1..]);
      assert t == [t[0]] + t[1..];
    }
  }

  /** A non-empty run of digits is a numeral whose value is that of its digits. */
  lemma DigitsNumeral(t: string)
    requires |t| > 0 && AllDigits(t)
    ensures IsNumeral(t) && NumeralValue(t) == DigitsValue(t)
  {
    DigitsAreNumeral(t);
    DropUnderscoresDigits(t);
  }

  lemma {:induction false} DigitsAreNumeral(t: string)
    requires |t| > 0 && AllDigits(t)
    ensures IsNumeral(t)
  {
    if |t| > 1 {
      assert AllDigits(t[1..]) by {
        assert forall i :: 1 <= i < |t| ==> t[1..][i - 1] == t[i];
      }
      DigitsAreNumeral(t[1..]);
    }
  }

  /** A numeral holds no whitespace. */
  lemma NumeralNoSpace(t: string)
    requires forall i :: 0 <= i < |t| ==> NumeralChar(t[i])
    ensures Strip(t) == t
  {
    assert forall i :: 0 <= i < |t| ==> !IsSpace(t[i]) by {
      forall i | 0 <= i < |t| ensures !IsSpace(t[i]) {
        assert NumeralChar(t[i]);
      }
    }
    StripOfNoSpace(t);
  }

  /** A numeral with no sign reads as its value. */
  lemma ParseSignedNumeral(t: string)
    requires IsNumeral(t)
    ensures ParseSigned(t) == Some(NumeralValue(t) as int)
  {
    assert IsDigit(t[0]);
  }

  /** A minus sign followed by a numeral reads as the negated value. */
  lemma ParseSignedNegative(d: string)
    requires IsNumeral(d)
    ensures ParseSigned("-" + d) == Some(-(NumeralValue(d) as int))
  {
    var t := "-" + d;
    assert t[0] == '-' && t[1..] == d;
  }

  /**
   * int() ignores a single underscore between two runs of digits:
   * int("1_000") == int("1000").
   */
  lemma ParseIntUnderscore(a: string, b: string)
    requires |a| > 0 && |b| > 0 && AllDigits(a) && AllDigits(b)
    ensures ParseInt(a + "_" + b) == ParseInt(a + b) == Some(DigitsValue(a + b) as int)
  {
    UnderscoreNumeral(a, b);
    UnderscoreDigits(a, b);
    NumeralParses(a + "_" + b);
    assert AllDigits(a + b);
    DigitsNumeral(a + b);
    NumeralParses(a + b);
  }

  /** int() reads a numeral as its value. */
  lemma NumeralParses(t: string)
    requires IsNumeral(t)
    ensures ParseInt(t) == Some(NumeralValue(t) as int)
  {
    NumeralChars(t);
    NumeralNoSpace(t);
    ParseSignedNumeral(t);
  }

  /** Two runs of digits joined by one underscore hold digits and that underscore only. */
  lemma UnderscoreChars(a: string, b: string)
    requires AllDigits(a) && AllDigits(b)
    ensures var t := a + "_" + b; forall i :: 0 <= i < |t| ==> NumeralChar(t[i])
    ensures forall i :: 0 <= i < |a + b| ==> NumeralChar((a + b)[i])
  {
    var t := a + "_" + b;
    forall i | 0 <= i < |t| ensures NumeralChar(t[i]) {
      if i < |a| {
        assert t[i] == a[i];
      } else if i > |a| {
        assert t[i] == b[i - |a| - 1];
      }
    }
    forall i | 0 <= i < |a + b| ensures NumeralChar((a + b)[i]) {
      if i < |a| {
        assert (a + b)[i] == a[i];
      } else {
        assert (a + b)[i] == b[i - |a|];
      }
    }
  }

  /** Two runs of digits joined by one underscore form a numeral. */
  lemma {:induction false} UnderscoreNumeral(a: string, b: string)
    requires |a| > 0 && |b| > 0 && AllDigits(a) && AllDigits(b)
    ensures IsNumeral(a + "_" + b)
    decreases |a|
  {
    var t := a + "_" + b;
    assert t[0] == a[0];
    if |a| == 1 {
      assert t[1] == '_' && t[2..] == b;
      DigitsAreNumeral(b);
    } else {
      assert t[1] == a[1] && t[1..] == a[1..] + "_" + b;
      assert AllDigits(a[1..]) by {
        assert forall i :: 1 <= i < |a| ==> a[1..][i - 1] == a[i];
      }
      UnderscoreNumeral(a[1..], b);
    }
  }

  /** Dropping the underscore leaves the two runs joined. */
  lemma UnderscoreDigits(a: string, b: string)
    requires AllDigits(a) && AllDigits(b)
    ensures DropUnderscores(a + "_" + b) == a + b
  {
    DropUnderscoresConcat(a + "_", b);
    DropUnderscoresConcat(a, "_");
    DropUnderscoresDigits(a);
    DropUnderscoresDigits(b);
    assert DropUnderscores("_") == [] by {
      assert "_"[1..] == [];
    }
    assert DropUnderscores(a + "_") == a;
  }


  lemma {:induction false} NatToStringRoundTrip(n: nat)
    ensures DigitsValue(NatToString(n)) == n
  {
    if n >= 10 {
      var s := NatToString(n);
      assert s[..|s| - 1] == NatToString(n / 10);
      NatToStringRoundTrip(n / 10);
    }
  }

  lemma StripOfNoSpace(s: string)
    requires forall i :: 0 <= i < |s| ==> !IsSpace(s[i])
    ensures Strip(s) == s
  {
    assert TrimStart(s) == s;
    assert TrimEnd(s) == s;
  }

  /** int() fails on text holding a character that is neither whitespace, an ASCII digit, a sign nor an underscore. */
  lemma ParseIntRejects(s: string, i: nat)
    requires i < |s| && !IsSpace(s[i]) && !IsDigit(s[i]) && s[i] != '-' && s[i] != '+' && s[i] != '_'
    ensures ParseInt(s) == None
  {
    StripSpec(s);
    var lo := StripOffset(s);
    var t := Strip(s);
    assert lo <= i < lo + |t|;
    assert t[i - lo] == s[i];
    if ParseSigned(t).Some? {
      ParseSignedChars(t, i - lo);
    }
  }

  /** int(str(n)) == n: the decimal text the bot writes into its buttons parses back. */
  lemma IntRoundTrip(n: int)
    ensures ParseInt(IntToString(n)) == Some(n)
  {
    IntToStringStripped(n);
    if n < 0 {
      NatReadsBack(-n);
    } else {
      NatReadsBack(n);
    }
  }

  /** str(m), with or without a leading minus sign, reads back as m or -m. */
  lemma NatReadsBack(m: nat)
    ensures ParseSigned(NatToString(m)) == Some(m)
    ensures ParseSigned("-" + NatToString(m)) == Some(-(m as int))
  {
    var d := NatToString(m);
    NatToStringRoundTrip(m);
    DigitsNumeral(d);
    ParseSignedNumeral(d);
    ParseSignedNegative(d);
  }

  /** str(n) carries no surrounding whitespace for strip() to remove. */
  lemma IntToStringStripped(n: int)
    ensures Strip(IntToString(n)) == IntToString(n)
  {
    IntToStringChars(n);
    StripOfNoSpace(IntToString(n));
  }

  /** The characters of str(n): a leading minus sign at most, then decimal digits. */
  lemma IntToStringChars(n: int)
    ensures forall i :: 0 <= i < |IntToString(n)| ==> IsDigit(IntToString(n)[i]) || (i == 0 && IntToString(n)[i] == '-')
  {
    if n < 0 {
      var d := NatToString(-n);
      assert forall i :: 1 <= i < |IntToString(n)| ==> IntToString(n)[i] == d[i - 1];
    }
  }

  /** A decimal numeral never contains a pattern that starts with a letter. */
  lemma IntToStringHasNoLetterWord(n: int, pat: string)
    requires pat != [] && !IsDigit(pat[0]) && pat[0] != '-'
    ensures !Contains(IntToString(n), pat)
  {
    IntToStringChars(n);
    NotContainsFirstChar(IntToString(n), pat);
  }

  // ---------------------------------------------------------------------------
  // SQLite LIKE '%q%' (no wildcard characters inside q)

  /** `q` occurs in `s` when ASCII letters are compared without regard to case. */
  predicate LikeContains(s: string, q: string)
  {
    Contains(AsciiLower(s), AsciiLower(q))
  }

  // ---------------------------------------------------------------------------
  // SQLite's BINARY collation: code-point-by-code-point comparison

  predicate StrLess(a: string, b: string)
  {
    if a == [] then b != []
    else if b == [] then false
    else if a[0] != b[0] then a[0] < b[0]
    else StrLess(a[1..], b[1..])
  }

  lemma {:induction false} StrLessIrreflexive(a: string)
    ensures !StrLess(a, a)
  {
    if a != [] { StrLessIrreflexive(a[1..]); }
  }

  lemma {:induction false} StrLessTransitive(a: string, b: string, c: string)
    requires StrLess(a, b) && StrLess(b, c)
    ensures StrLess(a, c)
  {
    if a != [] && b != [] && c != [] && a[0] == b[0] && b[0] == c[0] {
      StrLessTransitive(a[1..], b[1..], c[1..]);
    }
  }

  lemma {:induction false} StrLessTotal(a: string, b: string)
    ensures a == b || StrLess(a, b) || StrLess(b, a)
  {
    if a != [] && b != [] && a[0] == b[0] {
      StrLessTotal(a[1..], b[1..]);
      if a[1..] == b[1..] {
        assert a == [a[0]] + a[1..] && b == [b[0]] + b[1..];
      }
    }
  }

  lemma StrLessAsymmetric(a: string, b: string)
    requires StrLess(a, b)
    ensures !StrLess(b, a)
  {
    if StrLess(b, a) {
      StrLessTransitive(a, b, a);
      StrLessIrreflexive(a);
    }
  }
}
