/** Positions, character classes and the label/identifier validators shared by
    the scanner and the parser of the GO TO recognizer (utils.js). */
module Utils {

  /** A 1-based line/column pair. The source mutates one in place; here it is a
      value, so `clone` is the identity and every token or error simply keeps
      the value it was given. */
  datatype Position = Position(line: int, column: int) {

    /** Moves past one consumed character: a newline starts the next line at
        column 1, anything else moves one column to the right. */
    function Advance(c: char): (p: Position)
      ensures c == '\n' ==> p.line == line + 1 && p.column == 1
      ensures c != '\n' ==> p.line == line && p.column == column + 1
    {
      if c == '\n' then Position(line + 1, 1) else Position(line, column + 1)
    }
  }

  /** The position a fresh scanner starts from. */
  const Start := Position(1, 1)

  /** The position reached from `Start` after consuming every character of `s`. */
  function PosAfter(s: seq<char>): (p: Position)
    ensures p.line >= 1 && p.column >= 1
    decreases |s|
  {
    if s == [] then Start else PosAfter(s[..|s| - 1]).Advance(s[|s| - 1])
  }

  /** Number of newline characters in `s`. */
  function NewlineCount(s: seq<char>): nat
    decreases |s|
  {
    if s == [] then 0
    else NewlineCount(s[..|s| - 1]) + (if s[|s| - 1] == '\n' then 1 else 0)
  }

  /** The line reached after `s` is one plus the number of newlines in it. */
  lemma {:induction false} PosAfterLine(s: seq<char>)
    ensures PosAfter(s).line == NewlineCount(s) + 1
    decreases |s|
  {
    if s != [] {
      PosAfterLine(s[..|s| - 1]);
    }
  }

  /** The column is 1 exactly at the start of the text and right after a newline;
      this is when a `C` would be taken for a comment. */
  lemma ColumnOneAtLineStart(s: seq<char>)
    ensures PosAfter(s).column == 1 <==> (|s| == 0 || s[|s| - 1] == '\n')
  {
  }

  /** On text without newlines the column is one more than the number of
      characters consumed, and the line stays 1. */
  lemma {:induction false} PosAfterNewlineFree(s: seq<char>)
    requires '\n' !in s
    ensures PosAfter(s) == Position(1, |s| + 1)
    decreases |s|
  {
    if s != [] {
      PosAfterNewlineFree(s[..|s| - 1]);
    }
  }

  /** A single ASCII letter, either case. */
  predicate IsAlpha(c: char) {
    ('a' <= c <= 'z') || ('A' <= c <= 'Z')
  }

  /** A single ASCII decimal digit. */
  predicate IsDigit(c: char) {
    '0' <= c <= '9'
  }

  /** Letters and digits: the characters an identifier continues with. */
  predicate IsAlnum(c: char) {
    IsAlpha(c) || IsDigit(c)
  }

  /** The JavaScript `\s` class: ASCII tab, line feed, vertical tab, form feed,
      carriage return and space, plus the Unicode space separators, the line
      and paragraph separators and the byte order mark. */
  predicate IsWhitespace(c: char) {
    || ('\t' <= c <= '\r')
    || c == ' ' || c == '\U{00A0}' || c == '\U{1680}'
    || ('\U{2000}' <= c <= '\U{200A}')
    || c == '\U{2028}' || c == '\U{2029}' || c == '\U{202F}'
    || c == '\U{205F}' || c == '\U{3000}' || c == '\U{FEFF}'
  }

  /** Letters, digits and whitespace are three disjoint classes. */
  lemma CharClassesDisjoint(c: char)
    ensures !(IsAlpha(c) && IsDigit(c))
    ensures IsAlnum(c) ==> !IsWhitespace(c)
    ensures IsAlnum(c) ==> c != '(' && c != ')' && c != ','
  {
  }

  /** A `C` or `c` in the first column opens a full-line comment. */
  predicate IsCommentStart(c: char, p: Position) {
    (c == 'C' || c == 'c') && p.column == 1
  }

  /** Every character of `s` is a decimal digit. */
  predicate AllDigits(s: seq<char>) {
    forall k | 0 <= k < |s| :: IsDigit(s[k])
  }

  /** Every character of `s` is a letter or a digit. */
  predicate AllAlnum(s: seq<char>) {
    forall k | 0 <= k < |s| :: IsAlnum(s[k])
  }

  function Pow10(n: nat): (r: nat)
    ensures r >= 1
  {
    if n == 0 then 1 else 10 * Pow10(n - 1)
  }

  /** The decimal value of a digit string; `parseInt` agrees with it on every
      string that consists of digits only. */
  function DigitsValue(s: seq<char>): (v: nat)
    requires AllDigits(s)
    ensures v < Pow10(|s|)
    decreases |s|
  {
    if s == [] then 0
    else
      var front := DigitsValue(s[..|s| - 1]);
      assert front + 1 <= Pow10(|s| - 1);
      front * 10 + (s[|s| - 1] as int - '0' as int)
  }

  /** The regular expression of `isValidLabel`: one to five digits, the first
      of them not zero. */
  predicate MatchesLabelPattern(s: seq<char>) {
    1 <= |s| <= 5 && '1' <= s[0] <= '9' && AllDigits(s)
  }

  /** A statement label: the label pattern, and a numeric value in [1, 99999]. */
  predicate IsValidLabel(s: seq<char>) {
    MatchesLabelPattern(s) && 1 <= DigitsValue(s) <= 99999
  }

  /** A digit string is worth at least its leading digit. */
  lemma {:induction false} DigitsValueAtLeastLead(s: seq<char>)
    requires |s| >= 1 && AllDigits(s)
    ensures DigitsValue(s) >= s[0] as int - '0' as int
    decreases |s|
  {
    if |s| > 1 {
      var front := s[..|s| - 1];
      assert front[0] == s[0];
      DigitsValueAtLeastLead(front);
    }
  }

  /** The label pattern alone already confines the value to [1, 99999], so the
      numeric comparison in `isValidLabel` never rejects anything. */
  lemma LabelPatternInRange(s: seq<char>)
    requires MatchesLabelPattern(s)
    ensures 1 <= DigitsValue(s) <= 99999
  {
    DigitsValueAtLeastLead(s);
    assert Pow10(|s|) <= Pow10(5) by {
      Pow10Monotone(|s|, 5);
    }
  }

  lemma {:induction false} Pow10Monotone(m: nat, n: nat)
    requires m <= n
    ensures Pow10(m) <= Pow10(n)
    decreases n
  {
    if m < n {
      Pow10Monotone(m, n - 1);
    }
  }

  /** A label is valid exactly when it is one to five digits without a leading
      zero. */
  lemma ValidLabelIff(s: seq<char>)
    ensures IsValidLabel(s) <==> (1 <= |s| <= 5 && s[0] != '0' && AllDigits(s))
  {
    if 1 <= |s| <= 5 && s[0] != '0' && AllDigits(s) {
      assert IsDigit(s[0]);
      LabelPatternInRange(s);
    }
  }

  /** `0`, every label with a leading zero and every label of six or more
      characters (such as `100000`) are rejected. */
  lemma InvalidLabels(s: seq<char>)
    ensures !IsValidLabel("0")
    ensures !IsValidLabel("100000")
    ensures |s| >= 1 && s[0] == '0' ==> !IsValidLabel(s)
    ensures |s| >= 6 ==> !IsValidLabel(s)
    ensures IsValidLabel("1") && IsValidLabel("99999")
  {
    assert DigitsValue("1") == 1;
    assert DigitsValue("99999") == 99999 by {
      assert "99999"[..4] == "9999";
      assert "9999"[..3] == "999";
      assert "999"[..2] == "99";
      assert "99"[..1] == "9";
    }
  }

  /** The regular expression of `isValidIdentifier` (case-insensitive): a letter
      followed by at most five letters or digits. */
  predicate IsValidIdentifier(s: seq<char>) {
    1 <= |s| <= 6 && IsAlpha(s[0]) && forall k | 1 <= k < |s| :: IsAlnum(s[k])
  }

  /** A letter-led alphanumeric run (what the scanner produces) is a valid
      identifier exactly when it has at most six characters. */
  lemma IdentifierValidIffShort(s: seq<char>)
    requires |s| >= 1 && IsAlpha(s[0]) && AllAlnum(s)
    ensures IsValidIdentifier(s) <==> |s| <= 6
  {
  }

  /** ASCII upper-casing of one character. */
  function UpperChar(c: char): char {
    if 'a' <= c <= 'z' then (c as int - 32) as char else c
  }

  /** `toUpperCase` as the core uses it: on ASCII text. */
  function ToFortranCase(s: seq<char>): (r: seq<char>)
    ensures |r| == |s|
  {
    seq(|s|, k requires 0 <= k < |s| => UpperChar(s[k]))
  }

  /** After `toFortranCase` no lower-case ASCII letter is left, and every
      character is either kept or is a lower-case letter replaced by its
      upper-case form. */
  lemma FortranCaseUpper(s: seq<char>)
    ensures forall k | 0 <= k < |s| :: !('a' <= ToFortranCase(s)[k] <= 'z')
    ensures forall k | 0 <= k < |s| ::
      || ToFortranCase(s)[k] == s[k]
      || ('a' <= s[k] <= 'z' && ToFortranCase(s)[k] as int + 32 == s[k] as int)
  {
  }

  /** Upper-casing keeps each character's class and never creates or removes a
      newline or a comment letter. */
  lemma UpperCharPreservesClasses(c: char)
    ensures IsAlpha(UpperChar(c)) <==> IsAlpha(c)
    ensures IsDigit(UpperChar(c)) <==> IsDigit(c)
    ensures IsWhitespace(UpperChar(c)) <==> IsWhitespace(c)
    ensures UpperChar(c) == '\n' <==> c == '\n'
    ensures UpperChar(c) in {'C', 'c'} <==> c in {'C', 'c'}
    ensures !IsAlpha(c) ==> UpperChar(c) == c
  {
  }

  /** On an alphanumeric string, `toFortranCase` keeps the length, upper-cases
      every letter, keeps every digit, and is idempotent. */
  lemma FortranCaseOnAlnum(s: seq<char>)
    requires AllAlnum(s)
    ensures |ToFortranCase(s)| == |s|
    ensures forall k | 0 <= k < |s| && IsDigit(s[k]) :: ToFortranCase(s)[k] == s[k]
    ensures forall k | 0 <= k < |s| && IsAlpha(s[k]) ::
      'A' <= ToFortranCase(s)[k] <= 'Z'
      && (ToFortranCase(s)[k] == s[k] || ToFortranCase(s)[k] as int + 32 == s[k] as int)
    ensures AllAlnum(ToFortranCase(s))
    ensures ToFortranCase(ToFortranCase(s)) == ToFortranCase(s)
  {
  }

  /** Upper-casing twice is upper-casing once, on any text. */
  lemma FortranCaseIdempotent(s: seq<char>)
    ensures ToFortranCase(ToFortranCase(s)) == ToFortranCase(s)
  {
  }

  /** Upper-casing commutes with taking a slice and with concatenation. */
  lemma FortranCaseSlice(s: seq<char>, i: nat, j: nat)
    requires i <= j <= |s|
    ensures ToFortranCase(s)[i..j] == ToFortranCase(s[i..j])
  {
  }

  lemma FortranCaseConcat(a: seq<char>, b: seq<char>)
    ensures ToFortranCase(a + b) == ToFortranCase(a) + ToFortranCase(b)
  {
  }
}
