/** What the scanner of lexer.js guarantees about the tokens of a line: the
    shape of the token list, the text and position of every token, that no
    character is dropped or invented, maximal munch, the lexical errors, and
    case-insensitivity. Stated over the index-based reference, which `Lex`
    is proved to compute. */
module LexerProperties {
  import opened Results
  import opened Utils
  import opened ErrorHandling
  import opened Tokens
  import opened MaximalMunch
  import opened Lexing

  /** No character of `s` is whitespace. */
  predicate NoWhitespace(s: seq<char>) {
    forall i | 0 <= i < |s| :: !IsWhitespace(s[i])
  }

  /** The kind of a punctuation token. */
  function PunctuationKind(c: char): TokenType
    requires c in {'(', ')', ','}
  {
    if c == '(' then LeftParen else if c == ')' then RightParen else Comma
  }

  // ---------------------------------------------------------------------------
  // One token at a time

  /** Only whitespace remains: the next token is the end marker, recorded at
      the position after the whole line. */
  lemma EndMarkerToken(input: seq<char>, k: nat)
    requires k <= |input|
    requires forall i | k <= i < |input| :: IsWhitespace(input[i])
    ensures TokenAt(input, k) == Success((Token(EOF, "", PosAt(input, |input|)), |input|))
  {
    RunEndUnique(input, k, IsWhitespace, |input|);
  }

  /** A maximal digit run after optional whitespace, not followed by a letter,
      is an `INTEGER` holding exactly those digits, recorded at the run's first
      character, and scanning resumes right after the run. */
  lemma NumberToken(input: seq<char>, k: nat, j: nat, e: nat)
    requires k <= j < e <= |input|
    requires forall i | k <= i < j :: IsWhitespace(input[i])
    requires forall i | j <= i < e :: IsDigit(input[i])
    requires e == |input| || !IsAlnum(input[e])
    ensures TokenAt(input, k) == Success((Token(Integer, input[j..e], PosAt(input, j)), e))
  {
    RunEndUnique(input, k, IsWhitespace, j);
    RunEndUnique(input, j, IsDigit, e);
  }

  /** A digit run directly followed by a letter is a lexical error carrying
      that letter, at that letter's position (`GO TO 123ABC`). */
  lemma NumberGluedToLetter(input: seq<char>, k: nat, j: nat, e: nat)
    requires k <= j < e < |input|
    requires forall i | k <= i < j :: IsWhitespace(input[i])
    requires forall i | j <= i < e :: IsDigit(input[i])
    requires IsAlpha(input[e])
    ensures TokenAt(input, k) == Failure(InvalidCharacter(PosAt(input, e), input[e]))
  {
    RunEndUnique(input, k, IsWhitespace, j);
    RunEndUnique(input, j, IsDigit, e);
  }

  /** A digit run followed by something other than a letter or digit (an
      opening parenthesis, `#`, whitespace, a comma, a closing parenthesis,
      the end) is still an `INTEGER`; that character is left for the next
      token. */
  lemma NumberBeforeNonLetter(input: seq<char>, k: nat, j: nat, e: nat)
    requires k <= j < e < |input|
    requires forall i | k <= i < j :: IsWhitespace(input[i])
    requires forall i | j <= i < e :: IsDigit(input[i])
    requires !IsAlnum(input[e])
    ensures TokenAt(input, k).Success?
    ensures TokenAt(input, k).value.1 == e && TokenAt(input, k).value.0.value == input[j..e]
  {
    NumberToken(input, k, j, e);
  }

  /** A maximal letter-led alphanumeric run is a word: upper-cased, recorded at
      its first character, and `GO`/`TO` exactly when the upper-cased word is
      `GO`/`TO`. */
  lemma WordToken(input: seq<char>, k: nat, j: nat, e: nat)
    requires k <= j < e <= |input|
    requires forall i | k <= i < j :: IsWhitespace(input[i])
    requires IsAlpha(input[j])
    requires forall i | j <= i < e :: IsAlnum(input[i])
    requires e == |input| || !IsAlnum(input[e])
    ensures TokenAt(input, k)
         == Success((Token(WordKind(ToFortranCase(input[j..e])), ToFortranCase(input[j..e]), PosAt(input, j)), e))
  {
    RunEndUnique(input, k, IsWhitespace, j);
    RunEndUnique(input, j, IsAlnum, e);
  }

  /** A parenthesis or comma after optional whitespace is a one-character
      token. */
  lemma PunctuationToken(input: seq<char>, k: nat, j: nat)
    requires k <= j < |input|
    requires forall i | k <= i < j :: IsWhitespace(input[i])
    requires input[j] in {'(', ')', ','}
    ensures TokenAt(input, k) == Success((Token(PunctuationKind(input[j]), [input[j]], PosAt(input, j)), j + 1))
  {
    RunEndUnique(input, k, IsWhitespace, j);
  }

  /** Any other character is a lexical error carrying that character at its
      position. */
  lemma InvalidCharacterError(input: seq<char>, k: nat, j: nat)
    requires k <= j < |input|
    requires forall i | k <= i < j :: IsWhitespace(input[i])
    requires Stray(input[j])
    ensures TokenAt(input, k) == Failure(InvalidCharacter(PosAt(input, j), input[j]))
  {
    RunEndUnique(input, k, IsWhitespace, j);
  }

  /** Token `t`, scanned from index `j` with scanning resuming at `next`,
      spans exactly its own text (upper-cased), records the position of
      `input[j]`, and, when it is a word or a number, is a maximal
      alphanumeric run. */
  predicate Spans(input: seq<char>, t: Token, j: nat, next: nat)
    requires j <= next <= |input|
  {
    && next == j + |t.value|
    && t.position == PosAt(input, j)
    && ToFortranCase(input[j..next]) == t.value
    && NoWhitespace(input[j..next])
    && (t.kind == EOF <==> j == |input|)
    && (t.kind in {Integer, Identifier, GoKeyword, ToKeyword} ==>
          IsAlnum(input[j]) && (next == |input| || !IsAlnum(input[next])))
    && (t.kind in {LeftParen, RightParen, Comma} ==> !IsAlnum(input[j]))
  }

  /** A number spans its own digits. */
  lemma NumberSpan(input: seq<char>, j: nat)
    requires j < |input| && IsDigit(input[j]) && TokenStartingAt(input, j).Success?
    ensures Spans(input, TokenStartingAt(input, j).value.0, j, TokenStartingAt(input, j).value.1)
  {
    var e := RunEnd(input, j, IsDigit);
    assert AllDigits(input[j..e]);
    FortranCaseOnAlnum(input[j..e]);
    assert ToFortranCase(input[j..e]) == input[j..e];
  }

  /** A word spans its own letters and digits. */
  lemma WordSpan(input: seq<char>, j: nat)
    requires j < |input| && IsAlpha(input[j])
    ensures Spans(input, TokenStartingAt(input, j).value.0, j, TokenStartingAt(input, j).value.1)
  {
    var e := RunEnd(input, j, IsAlnum);
    FortranCaseOnAlnum(input[j..e]);
  }

  /** The token starting exactly at `j` spans its own text. */
  lemma TokenStartingSpan(input: seq<char>, j: nat)
    requires j <= |input| && (j == |input| || !IsWhitespace(input[j]))
    requires TokenStartingAt(input, j).Success?
    ensures Spans(input, TokenStartingAt(input, j).value.0, j, TokenStartingAt(input, j).value.1)
  {
    if j < |input| {
      if IsDigit(input[j]) {
        NumberSpan(input, j);
      } else if IsAlpha(input[j]) {
        WordSpan(input, j);
      }
    }
  }

  /** Where the token found from index `k` sits in the input: after the
      whitespace from `k`, at the first non-whitespace index `j`, spanning its
      own text. */
  lemma TokenSpan(input: seq<char>, k: nat) returns (j: nat)
    requires k <= |input| && TokenAt(input, k).Success?
    ensures k <= j <= TokenAt(input, k).value.1
    ensures forall i | k <= i < j :: IsWhitespace(input[i])
    ensures Spans(input, TokenAt(input, k).value.0, j, TokenAt(input, k).value.1)
  {
    j := RunEnd(input, k, IsWhitespace);
    TokenStartingSpan(input, j);
  }

  // ---------------------------------------------------------------------------
  // The whole line

  /** One step of scanning a line: the first token, then the rest. */
  lemma TokensFromStep(input: seq<char>, k: nat)
    requires k <= |input| && TokenAt(input, k).Success?
    ensures var (t, next) := TokenAt(input, k).value;
      TokensFrom(input, k)
        == if t.kind == EOF then Lexed([t], None)
           else Lexed([t] + TokensFrom(input, next).tokens, TokensFrom(input, next).error)
  {
  }

  /** Every token the reference finds has well-formed text. */
  lemma TokenAtWellFormed(input: seq<char>, k: nat)
    requires k <= |input| && TokenAt(input, k).Success?
    ensures WellFormedToken(TokenAt(input, k).value.0)
  {
    var j := RunEnd(input, k, IsWhitespace);
    if j < |input| && IsAlpha(input[j]) {
      var e := RunEnd(input, j, IsAlnum);
      FortranCaseOnAlnum(input[j..e]);
    }
  }

  /** The shape of a scanning result: every token well-formed; on success
      exactly one end marker, as the last token; on a lexical error no end
      marker at all. */
  predicate Shaped(r: Lexed) {
    && (forall i | 0 <= i < |r.tokens| :: WellFormedToken(r.tokens[i]))
    && (r.error.None? ==> |r.tokens| >= 1 && r.tokens[|r.tokens| - 1].kind == EOF)
    && (r.error.None? ==> forall i | 0 <= i < |r.tokens| - 1 :: r.tokens[i].kind != EOF)
    && (r.error.Some? ==> forall i | 0 <= i < |r.tokens| :: r.tokens[i].kind != EOF)
    && (r.error.Some? ==> r.error.value.LexerError?)
  }

  /** A well-formed token other than the end marker, put in front of a
      well-shaped result, keeps it well-shaped. */
  lemma ShapedCons(t: Token, rest: Lexed)
    requires WellFormedToken(t) && t.kind != EOF && Shaped(rest)
    ensures Shaped(Lexed([t] + rest.tokens, rest.error))
  {
    var ts := [t] + rest.tokens;
    forall i | 1 <= i < |ts|
      ensures ts[i] == rest.tokens[i - 1]
    {
    }
  }

  /** Scanning ends with exactly one end marker, as the last token, unless it
      stops at a lexical error, in which case no end marker was produced; every
      token produced has well-formed text. */
  lemma {:induction false} TokensFromShape(input: seq<char>, k: nat)
    requires k <= |input|
    ensures Shaped(TokensFrom(input, k))
    decreases |input| - k
  {
    if TokenAt(input, k).Success? {
      var (t, next) := TokenAt(input, k).value;
      TokenAtWellFormed(input, k);
      if t.kind != EOF {
        TokensFromShape(input, next);
        ShapedCons(t, TokensFrom(input, next));
      }
    }
  }

  /** `tokenize` on a comment-free line always stops: either the tokens end
      with exactly one end marker, or the lexical error is reported and no end
      marker was produced. */
  lemma LexShape(input: seq<char>)
    requires NoCommentStart(input)
    ensures var r := Lex(input);
      && (r.error.None? ==> |r.tokens| >= 1 && r.tokens[|r.tokens| - 1].kind == EOF)
      && (r.error.None? ==> forall i | 0 <= i < |r.tokens| - 1 :: r.tokens[i].kind != EOF)
      && (r.error.Some? ==> forall i | 0 <= i < |r.tokens| :: r.tokens[i].kind != EOF)
      && (forall i | 0 <= i < |r.tokens| :: WellFormedToken(r.tokens[i]))
  {
    TokensFromShape(input, 0);
  }

  /** The line with whitespace removed and letters upper-cased. */
  function Canonical(s: seq<char>): seq<char>
    decreases |s|
  {
    if s == [] then [] else Kept(s[0]) + Canonical(s[1..])
  }

  /** What the canonical form keeps of one character. */
  function Kept(c: char): seq<char> {
    if IsWhitespace(c) then [] else [UpperChar(c)]
  }

  /** The token texts, concatenated in order. */
  function Spelling(ts: seq<Token>): seq<char>
    decreases |ts|
  {
    if ts == [] then [] else ts[0].value + Spelling(ts[1..])
  }

  lemma {:induction false} CanonicalConcat(a: seq<char>, b: seq<char>)
    ensures Canonical(a + b) == Canonical(a) + Canonical(b)
    decreases |a|
  {
    if a != [] {
      assert (a + b)[0] == a[0];
      assert (a + b)[1..] == a[1..] + b;
      CanonicalConcat(a[1..], b);
      calc {
        Canonical(a + b);
        Kept(a[0]) + Canonical(a[1..] + b);
        Kept(a[0]) + (Canonical(a[1..]) + Canonical(b));
        (Kept(a[0]) + Canonical(a[1..])) + Canonical(b);
      }
    } else {
      assert a + b == b;
    }
  }

  lemma {:induction false} CanonicalOfWhitespace(s: seq<char>)
    requires forall i | 0 <= i < |s| :: IsWhitespace(s[i])
    ensures Canonical(s) == []
    decreases |s|
  {
    if s != [] {
      CanonicalOfWhitespace(s[1..]);
    }
  }

  lemma {:induction false} CanonicalOfNonWhitespace(s: seq<char>)
    requires NoWhitespace(s)
    ensures Canonical(s) == ToFortranCase(s)
    decreases |s|
  {
    if s != [] {
      CanonicalOfNonWhitespace(s[1..]);
      assert ToFortranCase(s) == [UpperChar(s[0])] + ToFortranCase(s[1..]);
    }
  }

  /** The characters a token was scanned from, leading whitespace included,
      canonicalise to the token's text. */
  lemma TokenCanonical(input: seq<char>, k: nat)
    requires k <= |input| && TokenAt(input, k).Success?
    ensures Canonical(input[k..TokenAt(input, k).value.1]) == TokenAt(input, k).value.0.value
  {
    var j := TokenSpan(input, k);
    var next := TokenAt(input, k).value.1;
    assert input[k..next] == input[k..j] + input[j..next];
    CanonicalConcat(input[k..j], input[j..next]);
    CanonicalOfWhitespace(input[k..j]);
    CanonicalOfNonWhitespace(input[j..next]);
  }

  /** No character is dropped or invented: on success the token texts,
      concatenated, are the rest of the line with its whitespace removed and
      its letters upper-cased. */
  lemma {:induction false} TokensFromSpelling(input: seq<char>, k: nat)
    requires k <= |input| && TokensFrom(input, k).error.None?
    ensures Spelling(TokensFrom(input, k).tokens) == Canonical(input[k..])
    decreases |input| - k
  {
    var (t, next) := TokenAt(input, k).value;
    TokenCanonical(input, k);
    if t.kind == EOF {
      SpellingStep(input, k, t, next, []);
    } else {
      TokensFromSpelling(input, next);
      SpellingStep(input, k, t, next, TokensFrom(input, next).tokens);
    }
  }

  /** A token canonicalising its own span, followed by tokens spelling the
      rest of the line, spells the line from the token's scan start. */
  lemma SpellingStep(input: seq<char>, k: nat, t: Token, next: nat, rest: seq<Token>)
    requires k <= next <= |input|
    requires Canonical(input[k..next]) == t.value
    requires Spelling(rest) == Canonical(input[next..])
    ensures Spelling([t] + rest) == Canonical(input[k..])
  {
    assert input[k..] == input[k..next] + input[next..];
    CanonicalConcat(input[k..next], input[next..]);
    assert ([t] + rest)[1..] == rest;
  }

  /** `Lex` keeps every non-whitespace character, upper-cased, in order. */
  lemma LexSpellsInput(input: seq<char>)
    requires NoCommentStart(input) && Lex(input).error.None?
    ensures Spelling(Lex(input).tokens) == Canonical(input)
  {
    TokensFromSpelling(input, 0);
    assert input[0..] == input;
  }

  // ---------------------------------------------------------------------------
  // Where scanning fails

  /** A character outside the alphabet of the line: not whitespace, not a
      letter or digit, not a parenthesis or a comma. */
  predicate Stray(c: char) {
    !IsWhitespace(c) && !IsAlnum(c) && c !in {'(', ')', ','}
  }

  /** The characters token texts are made of. */
  predicate InAlphabet(c: char) {
    IsAlnum(c) || c in {'(', ')', ','}
  }

  /** The scanner reports its lexical error at `input[j]` only for one of two
      reasons: the character is stray, or it is a letter directly after a
      digit. */
  predicate LexicalErrorAt(input: seq<char>, j: nat)
    requires j < |input|
  {
    Stray(input[j]) || (IsAlpha(input[j]) && 0 < j && IsDigit(input[j - 1]))
  }

  lemma WellFormedTextInAlphabet(t: Token)
    requires WellFormedToken(t)
    ensures forall i | 0 <= i < |t.value| :: InAlphabet(t.value[i])
  {
  }

  /** Well-formed tokens spell only characters of the alphabet. */
  lemma {:induction false} SpellingInAlphabet(ts: seq<Token>)
    requires forall i | 0 <= i < |ts| :: WellFormedToken(ts[i])
    ensures forall i | 0 <= i < |Spelling(ts)| :: InAlphabet(Spelling(ts)[i])
    decreases |ts|
  {
    if ts != [] {
      WellFormedTextInAlphabet(ts[0]);
      SpellingInAlphabet(ts[1..]);
    }
  }

  /** The canonical form keeps every non-whitespace character, upper-cased. */
  lemma CanonicalKeeps(s: seq<char>, k: nat)
    requires k < |s| && !IsWhitespace(s[k])
    ensures UpperChar(s[k]) in Canonical(s)
  {
    assert s == s[..k] + ([s[k]] + s[k + 1..]);
    CanonicalConcat(s[..k], [s[k]] + s[k + 1..]);
    CanonicalConcat([s[k]], s[k + 1..]);
    assert [s[k]][1..] == [];
  }

  /** A token read from `i` never spans a stray character at `k`: scanning
      resumes at or before it, and the token is not the end marker. */
  lemma TokenBeforeStray(input: seq<char>, i: nat, k: nat)
    requires i <= k < |input| && Stray(input[k]) && TokenAt(input, i).Success?
    ensures TokenAt(input, i).value.0.kind != EOF
    ensures TokenAt(input, i).value.1 <= k
  {
    var (t, next) := TokenAt(input, i).value;
    if next > k {
      TokenCanonical(input, i);
      TokenAtWellFormed(input, i);
      assert input[i..next][k - i] == input[k];
      CanonicalKeeps(input[i..next], k - i);
      WellFormedTextInAlphabet(t);
      UpperCharPreservesClasses(input[k]);
      assert false;
    }
  }

  /** Scanning from `i` stops with its error at or before a stray character
      at `k`. */
  lemma {:induction false} TokensFromStrayBound(input: seq<char>, i: nat, k: nat) returns (j: nat)
    requires i <= k < |input| && Stray(input[k])
    ensures i <= j <= k && LexicalErrorAt(input, j)
    ensures TokensFrom(input, i).error == Some(InvalidCharacter(PosAt(input, j), input[j]))
    decreases |input| - i
  {
    if TokenAt(input, i).Failure? {
      j := TokenAtFailure(input, i);
    } else {
      TokenBeforeStray(input, i, k);
      j := TokensFromStrayBound(input, TokenAt(input, i).value.1, k);
    }
  }

  /** A stray character anywhere on a comment-free line makes scanning fail,
      as in `GO TO 100#`, and the error is reported at that character or at
      an offending character before it. */
  lemma StrayCharacterFails(input: seq<char>, k: nat) returns (j: nat)
    requires NoCommentStart(input) && k < |input| && Stray(input[k])
    ensures Lex(input).error.Some?
    ensures j <= k && LexicalErrorAt(input, j)
    ensures Lex(input).error.value == InvalidCharacter(PosAt(input, j), input[j])
  {
    j := TokensFromStrayBound(input, 0, k);
  }

  /** The first offending character is the one reported: with no stray
      character and no letter glued to a digit before a stray character at
      `k`, the error names the character at `k`, at its position. */
  lemma FirstStrayReported(input: seq<char>, k: nat)
    requires NoCommentStart(input) && k < |input| && Stray(input[k])
    requires forall m | 0 <= m < k :: !LexicalErrorAt(input, m)
    ensures Lex(input).error == Some(InvalidCharacter(PosAt(input, k), input[k]))
  {
    var j := StrayCharacterFails(input, k);
  }

  /** The error met by the token starting at or after `k` sits at a stray
      character or a letter glued to a digit run; everything the scanner
      passed over on the way is whitespace or digits. */
  lemma TokenAtFailure(input: seq<char>, k: nat) returns (j: nat)
    requires k <= |input| && TokenAt(input, k).Failure?
    ensures k <= j < |input| && LexicalErrorAt(input, j)
    ensures TokenAt(input, k).error == InvalidCharacter(PosAt(input, j), input[j])
    ensures forall m | k <= m < j :: IsWhitespace(input[m]) || IsDigit(input[m])
  {
    var s := RunEnd(input, k, IsWhitespace);
    if IsDigit(input[s]) {
      j := RunEnd(input, s, IsDigit);
    } else {
      j := s;
    }
  }

  lemma {:induction false} TokensFromFailure(input: seq<char>, k: nat) returns (j: nat)
    requires k <= |input| && TokensFrom(input, k).error.Some?
    ensures k <= j < |input| && LexicalErrorAt(input, j)
    ensures TokensFrom(input, k).error.value == InvalidCharacter(PosAt(input, j), input[j])
    decreases |input| - k
  {
    if TokenAt(input, k).Failure? {
      j := TokenAtFailure(input, k);
    } else {
      j := TokensFromFailure(input, TokenAt(input, k).value.1);
    }
  }

  /** `tokenize` fails only at a stray character or at a letter directly
      after a digit, and the error names that character at its position. */
  lemma LexFailureCause(input: seq<char>) returns (j: nat)
    requires NoCommentStart(input) && Lex(input).error.Some?
    ensures j < |input| && LexicalErrorAt(input, j)
    ensures Lex(input).error.value == InvalidCharacter(PosAt(input, j), input[j])
  {
    j := TokensFromFailure(input, 0);
  }

  /** The scanner stands on a token boundary at `k`: the start of the line,
      the end, or a point where the characters on the two sides are not both
      letters or digits. */
  predicate Boundary(input: seq<char>, k: nat)
    requires k <= |input|
  {
    k == 0 || k == |input| || !IsAlnum(input[k - 1]) || !IsAlnum(input[k])
  }

  /** Token `t` sits at index `j` of the line: it records the position of
      `input[j]`, its text is the upper-cased input from there, and a number
      or word is a maximal alphanumeric run (no letter or digit on either
      side). */
  predicate PlacedAt(input: seq<char>, t: Token, j: nat) {
    && j + |t.value| <= |input|
    && t.position == PosAt(input, j)
    && ToFortranCase(input[j..j + |t.value|]) == t.value
    && (t.kind == EOF ==> j == |input|)
    && (t.kind in {Integer, Identifier, GoKeyword, ToKeyword} ==>
          && (j == 0 || !IsAlnum(input[j - 1]))
          && (j + |t.value| == |input| || !IsAlnum(input[j + |t.value|])))
  }

  /** A token spanning `input[j..next]`, reached from a boundary `k` across
      whitespace only, is placed at `j`, and `next` is again a boundary. */
  lemma SpanPlaced(input: seq<char>, t: Token, k: nat, j: nat, next: nat)
    requires k <= j <= next <= |input| && Boundary(input, k)
    requires forall i | k <= i < j :: IsWhitespace(input[i])
    requires Spans(input, t, j, next)
    requires WellFormedToken(t)
    ensures PlacedAt(input, t, j) && Boundary(input, next)
  {
    if j > k {
      CharClassesDisjoint(input[j - 1]);
    }
    if 0 < next < |input| && t.kind in {LeftParen, RightParen, Comma} {
      assert next == j + 1;
    }
  }

  /** From a token boundary, the next token is placed at its first
      non-whitespace index, and scanning resumes on a boundary. */
  lemma TokenPlaced(input: seq<char>, k: nat) returns (j: nat)
    requires k <= |input| && Boundary(input, k) && TokenAt(input, k).Success?
    ensures k <= j && TokenAt(input, k).value.1 == j + |TokenAt(input, k).value.0.value|
    ensures PlacedAt(input, TokenAt(input, k).value.0, j)
    ensures Boundary(input, TokenAt(input, k).value.1)
  {
    j := TokenSpan(input, k);
    TokenAtWellFormed(input, k);
    var (t, next) := TokenAt(input, k).value;
    SpanPlaced(input, t, k, j, next);
  }

  /** Every token of `ts` is placed at the matching index of `starts`, at or
      after `k`, and the tokens do not overlap. */
  predicate PlacedFrom(input: seq<char>, ts: seq<Token>, starts: seq<nat>, k: nat) {
    && |starts| == |ts|
    && (forall i | 0 <= i < |ts| :: k <= starts[i] && PlacedAt(input, ts[i], starts[i]))
    && (forall i | 0 <= i < |ts| - 1 :: starts[i] + |ts[i].value| <= starts[i + 1])
  }

  lemma PlacedCons(input: seq<char>, t: Token, j: nat, ts: seq<Token>, starts: seq<nat>, k: nat, next: nat)
    requires k <= j && next == j + |t.value| && PlacedAt(input, t, j)
    requires PlacedFrom(input, ts, starts, next)
    ensures PlacedFrom(input, [t] + ts, [j] + starts, k)
  {
    var ts' := [t] + ts;
    var starts' := [j] + starts;
    forall i | 1 <= i < |ts'|
      ensures ts'[i] == ts[i - 1] && starts'[i] == starts[i - 1]
    {
    }
  }

  /** Every token is placed at a start index, the start indices increase with
      no overlap, and the first is at or after `k`. */
  lemma {:induction false} TokensFromPlacement(input: seq<char>, k: nat) returns (starts: seq<nat>)
    requires k <= |input| && Boundary(input, k)
    ensures PlacedFrom(input, TokensFrom(input, k).tokens, starts, k)
    decreases |input| - k
  {
    if TokenAt(input, k).Failure? {
      starts := [];
    } else {
      var (t, next) := TokenAt(input, k).value;
      var j := TokenPlaced(input, k);
      if t.kind == EOF {
        starts := [j];
        PlacedCons(input, t, j, [], [], k, next);
      } else {
        var rest := TokensFromPlacement(input, next);
        starts := [j] + rest;
        PlacedCons(input, t, j, TokensFrom(input, next).tokens, rest, k, next);
      }
    }
  }

  /** On a line without newlines a token placed at 0-based index `j` records
      line 1, column j + 2 — one past the character's own column — and the end
      marker records column |input| + 1. */
  lemma PlacedColumn(input: seq<char>, t: Token, j: nat)
    requires '\n' !in input && PlacedAt(input, t, j) && WellFormedToken(t)
    ensures t.kind != EOF ==> j < |input| && t.position == Position(1, j + 2)
    ensures t.kind == EOF ==> t.position == Position(1, |input| + 1)
  {
    PosAtNewlineFree(input, j);
  }

  /** On a newline-free line: each token other than the end marker, placed at
      0-based index `starts[i]`, records line 1, column starts[i] + 2; the end
      marker records column |input| + 1. */
  predicate NewlineFreeColumns(input: seq<char>, ts: seq<Token>, starts: seq<nat>)
    requires |starts| == |ts|
  {
    && (forall i | 0 <= i < |ts| && ts[i].kind != EOF ::
          starts[i] < |input| && ts[i].position == Position(1, starts[i] + 2))
    && (forall i | 0 <= i < |ts| && ts[i].kind == EOF :: ts[i].position == Position(1, |input| + 1))
  }

  /** The columns of placed, well-formed tokens on a newline-free line. */
  lemma PlacedColumns(input: seq<char>, ts: seq<Token>, starts: seq<nat>)
    requires '\n' !in input && PlacedFrom(input, ts, starts, 0)
    requires forall i | 0 <= i < |ts| :: WellFormedToken(ts[i])
    ensures NewlineFreeColumns(input, ts, starts)
  {
    forall i | 0 <= i < |ts|
      ensures ts[i].kind != EOF ==> starts[i] < |input| && ts[i].position == Position(1, starts[i] + 2)
      ensures ts[i].kind == EOF ==> ts[i].position == Position(1, |input| + 1)
    {
      PlacedColumn(input, ts[i], starts[i]);
    }
  }

  /** The columns of a whole newline-free line. */
  lemma LexColumnsNewlineFree(input: seq<char>) returns (starts: seq<nat>)
    requires NoCommentStart(input) && '\n' !in input
    ensures PlacedFrom(input, Lex(input).tokens, starts, 0)
    ensures NewlineFreeColumns(input, Lex(input).tokens, starts)
  {
    var ts := TokensFrom(input, 0).tokens;
    starts := TokensFromPlacement(input, 0);
    TokensFromShape(input, 0);
    PlacedColumns(input, ts, starts);
  }

  // ---------------------------------------------------------------------------
  // Case-insensitivity

  lemma {:induction false} PosAfterUpperCase(s: seq<char>)
    ensures PosAfter(ToFortranCase(s)) == PosAfter(s)
    decreases |s|
  {
    if s != [] {
      var front := s[..|s| - 1];
      assert ToFortranCase(s)[..|s| - 1] == ToFortranCase(front);
      PosAfterUpperCase(front);
      UpperCharPreservesClasses(s[|s| - 1]);
    }
  }

  lemma PosAtUpperCase(input: seq<char>, k: nat)
    requires k <= |input|
    ensures PosAt(ToFortranCase(input), k) == PosAt(input, k)
  {
    if k < |input| {
      assert ToFortranCase(input)[..k + 1] == ToFortranCase(input[..k + 1]);
      PosAfterUpperCase(input[..k + 1]);
    } else {
      PosAfterUpperCase(input);
    }
  }

  /** A run of a class that upper-casing preserves ends at the same index in
      the upper-cased line. */
  lemma RunEndUpperCase(input: seq<char>, k: nat, inRun: char -> bool)
    requires k <= |input|
    requires forall c :: inRun(UpperChar(c)) == inRun(c)
    ensures RunEnd(ToFortranCase(input), k, inRun) == RunEnd(input, k, inRun)
  {
    var e := RunEnd(input, k, inRun);
    var upper := ToFortranCase(input);
    assert forall i | k <= i < e :: inRun(upper[i]) by {
      forall i | k <= i < e ensures inRun(upper[i]) {
        assert upper[i] == UpperChar(input[i]);
      }
    }
    assert e == |upper| || !inRun(upper[e]) by {
      if e < |upper| {
        assert upper[e] == UpperChar(input[e]);
      }
    }
    RunEndUnique(upper, k, inRun, e);
  }

  lemma ClassesUnderUpperCase()
    ensures forall c :: IsWhitespace(UpperChar(c)) == IsWhitespace(c)
    ensures forall c :: IsDigit(UpperChar(c)) == IsDigit(c)
    ensures forall c :: IsAlnum(UpperChar(c)) == IsAlnum(c)
    ensures forall c :: IsAlpha(UpperChar(c)) == IsAlpha(c)
  {
    forall c ensures IsAlnum(UpperChar(c)) == IsAlnum(c) {
      UpperCharPreservesClasses(c);
    }
  }

  /** The digit-run branch of scanning is unchanged by upper-casing, except
      that a letter glued to the run is reported upper-cased. */
  lemma NumberUpperCase(input: seq<char>, j: nat)
    requires j < |input| && IsDigit(input[j])
    ensures var a := TokenStartingAt(input, j);
      var b := TokenStartingAt(ToFortranCase(input), j);
      && (a.Success? <==> b.Success?)
      && (a.Success? ==> b.value == a.value)
      && (a.Failure? ==> b.error == InvalidCharacter(a.error.position, UpperChar(a.error.offending)))
  {
    var upper := ToFortranCase(input);
    ClassesUnderUpperCase();
    assert upper[j] == UpperChar(input[j]);
    RunEndUpperCase(input, j, IsDigit);
    var e := RunEnd(input, j, IsDigit);
    PosAtUpperCase(input, e);
    PosAtUpperCase(input, j);
    assert upper[j..e] == input[j..e] by {
      forall i | j <= i < e ensures upper[i] == input[i] {
        UpperCharPreservesClasses(input[i]);
      }
    }
    if e < |input| {
      assert upper[e] == UpperChar(input[e]);
    }
  }

  /** The word branch of scanning is unchanged by upper-casing. */
  lemma WordUpperCase(input: seq<char>, j: nat)
    requires j < |input| && IsAlpha(input[j])
    ensures TokenStartingAt(ToFortranCase(input), j) == TokenStartingAt(input, j)
  {
    var upper := ToFortranCase(input);
    ClassesUnderUpperCase();
    assert upper[j] == UpperChar(input[j]);
    UpperCharPreservesClasses(input[j]);
    RunEndUpperCase(input, j, IsAlnum);
    var e := RunEnd(input, j, IsAlnum);
    PosAtUpperCase(input, j);
    FortranCaseSlice(input, j, e);
    FortranCaseIdempotent(input[j..e]);
  }

  /** Scanning one token of the upper-cased line gives the same token and the
      same resume index; an error is the same error, at the same position,
      carrying the upper-cased character. */
  lemma TokenAtUpperCase(input: seq<char>, k: nat)
    requires k <= |input|
    ensures var a := TokenAt(input, k);
      var b := TokenAt(ToFortranCase(input), k);
      && (a.Success? <==> b.Success?)
      && (a.Success? ==> b.value == a.value)
      && (a.Failure? ==> b.error == InvalidCharacter(a.error.position, UpperChar(a.error.offending)))
  {
    var upper := ToFortranCase(input);
    ClassesUnderUpperCase();
    RunEndUpperCase(input, k, IsWhitespace);
    var j := RunEnd(input, k, IsWhitespace);
    PosAtUpperCase(input, j);
    if j < |input| {
      var c := input[j];
      assert upper[j] == UpperChar(c);
      UpperCharPreservesClasses(c);
      if IsDigit(c) {
        NumberUpperCase(input, j);
      } else if IsAlpha(c) {
        WordUpperCase(input, j);
      } else {
        assert upper[j] == c;
      }
    }
  }

  /** Upper-casing the line changes neither the tokens (kinds, texts and
      positions) nor whether and where scanning fails. */
  lemma {:induction false} TokensFromUpperCase(input: seq<char>, k: nat)
    requires k <= |input|
    ensures var a := TokensFrom(input, k);
      var b := TokensFrom(ToFortranCase(input), k);
      && b.tokens == a.tokens
      && (b.error.Some? <==> a.error.Some?)
      && (a.error.Some? ==> b.error.value.position == a.error.value.position)
    decreases |input| - k
  {
    TokenAtUpperCase(input, k);
    match TokenAt(input, k)
    case Failure(_) =>
    case Success((t, next)) =>
      if t.kind != EOF {
        TokensFromUpperCase(input, next);
      }
  }

  /** A comment-free line stays comment-free when upper-cased. */
  lemma NoCommentStartUpperCase(input: seq<char>)
    requires NoCommentStart(input)
    ensures NoCommentStart(ToFortranCase(input))
  {
    var upper := ToFortranCase(input);
    forall k | 0 <= k < |upper| && AtLineStart(upper, k)
      ensures upper[k] != 'C' && upper[k] != 'c'
    {
      UpperCharPreservesClasses(input[k]);
      if k > 0 {
        UpperCharPreservesClasses(input[k - 1]);
      }
      assert AtLineStart(input, k);
    }
  }

  /** Keyword recognition is case-insensitive: a line and its upper-cased
      form give the same tokens, and fail (or not) at the same position. */
  lemma LexCaseInsensitive(input: seq<char>)
    requires NoCommentStart(input)
    ensures NoCommentStart(ToFortranCase(input))
    ensures Lex(ToFortranCase(input)).tokens == Lex(input).tokens
    ensures Lex(ToFortranCase(input)).error.Some? <==> Lex(input).error.Some?
    ensures Lex(input).error.Some? ==>
      Lex(ToFortranCase(input)).error.value.position == Lex(input).error.value.position
  {
    NoCommentStartUpperCase(input);
    TokensFromUpperCase(input, 0);
  }
}
