/** Whole lines from end to end: the shapes of statement the recognizer is
    built for and the mistakes it reports, scanned by `Lex` and recognised by
    `ParseString`, with the record or the error and the column it reports.
    Each shape is stated for every label, word or character that fits it. */
module Scenarios {
  import opened Results
  import opened Utils
  import opened ErrorHandling
  import opened Tokens
  import opened MaximalMunch
  import opened Lexing
  import opened Parsing
  import opened LexerProperties
  import opened ParserProperties

  // ---------------------------------------------------------------------------
  // Scanning token by token

  /** Scanning from `k` finds `t` and resumes at `e`. */
  predicate Found(input: seq<char>, k: nat, t: Token, e: nat) {
    k <= e <= |input| && TokenAt(input, k) == Success((t, e))
  }

  /** The end marker found at `k` is the whole rest of the scan. */
  lemma LexesEnd(input: seq<char>, k: nat, t: Token)
    requires k <= |input| && TokenAt(input, k) == Success((t, |input|)) && t.kind == EOF
    ensures TokensFrom(input, k) == Lexed([t], None)
  {
  }

  /** A lexical error at `k` ends the scan with no further tokens. */
  lemma LexesError(input: seq<char>, k: nat, d: Diagnostic)
    requires k <= |input| && TokenAt(input, k) == Failure(d)
    ensures TokensFrom(input, k) == Lexed([], Some(d))
  {
  }

  /** A token found at `k` comes in front of the scan resumed after it. */
  lemma LexesCons(input: seq<char>, k: nat, t: Token, e: nat, rest: Lexed)
    requires k <= |input| && TokenAt(input, k) == Success((t, e)) && t.kind != EOF
    requires e <= |input| && TokensFrom(input, e) == rest
    ensures TokensFrom(input, k) == Lexed([t] + rest.tokens, rest.error)
  {
  }

  /** Two tokens, then a lexical error. */
  lemma Chain2Error(input: seq<char>, t1: Token, e1: nat, t2: Token, e2: nat, d: Diagnostic)
    requires Found(input, 0, t1, e1) && t1.kind != EOF
    requires Found(input, e1, t2, e2) && t2.kind != EOF
    requires e2 <= |input| && TokenAt(input, e2) == Failure(d)
    ensures TokensFrom(input, 0) == Lexed([t1, t2], Some(d))
  {
    LexesError(input, e2, d);
    LexesCons(input, e1, t2, e2, Lexed([], Some(d)));
    LexesCons(input, 0, t1, e1, Lexed([t2], Some(d)));
    assert [t1] + [t2] == [t1, t2];
  }

  /** Two tokens, then the end marker. */
  lemma Chain3(input: seq<char>, t1: Token, e1: nat, t2: Token, e2: nat, t3: Token)
    requires Found(input, 0, t1, e1) && t1.kind != EOF
    requires Found(input, e1, t2, e2) && t2.kind != EOF
    requires Found(input, e2, t3, |input|) && t3.kind == EOF
    ensures TokensFrom(input, 0) == Lexed([t1, t2, t3], None)
  {
    LexesEnd(input, e2, t3);
    LexesCons(input, e1, t2, e2, Lexed([t3], None));
    LexesCons(input, 0, t1, e1, Lexed([t2] + [t3], None));
    assert [t1] + ([t2] + [t3]) == [t1, t2, t3];
  }

  /** Three tokens from `k`, then the end marker. */
  lemma Chain4(input: seq<char>, k: nat, t1: Token, e1: nat, t2: Token, e2: nat, t3: Token, e3: nat, t4: Token)
    requires Found(input, k, t1, e1) && t1.kind != EOF
    requires Found(input, e1, t2, e2) && t2.kind != EOF
    requires Found(input, e2, t3, e3) && t3.kind != EOF
    requires Found(input, e3, t4, |input|) && t4.kind == EOF
    ensures TokensFrom(input, k) == Lexed([t1, t2, t3, t4], None)
  {
    LexesEnd(input, e3, t4);
    LexesCons(input, e2, t3, e3, Lexed([t4], None));
    LexesCons(input, e1, t2, e2, Lexed([t3] + [t4], None));
    LexesCons(input, k, t1, e1, Lexed([t2] + ([t3] + [t4]), None));
    assert [t1] + ([t2] + ([t3] + [t4])) == [t1, t2, t3, t4];
  }

  /** Four tokens, then the end marker. */
  lemma Chain5(input: seq<char>, t1: Token, e1: nat, t2: Token, e2: nat, t3: Token, e3: nat, t4: Token, e4: nat, t5: Token)
    requires Found(input, 0, t1, e1) && t1.kind != EOF
    requires Found(input, e1, t2, e2) && t2.kind != EOF
    requires Found(input, e2, t3, e3) && t3.kind != EOF
    requires Found(input, e3, t4, e4) && t4.kind != EOF
    requires Found(input, e4, t5, |input|) && t5.kind == EOF
    ensures TokensFrom(input, 0) == Lexed([t1, t2, t3, t4, t5], None)
  {
    Chain4(input, e1, t2, e2, t3, e3, t4, e4, t5);
    LexesCons(input, 0, t1, e1, Lexed([t2, t3, t4, t5], None));
    assert [t1] + [t2, t3, t4, t5] == [t1, t2, t3, t4, t5];
  }

  /** Three tokens in front of a scan resumed after them. */
  lemma ChainPrefix3(input: seq<char>, t1: Token, e1: nat, t2: Token, e2: nat, t3: Token, e3: nat, rest: Lexed)
    requires Found(input, 0, t1, e1) && t1.kind != EOF
    requires Found(input, e1, t2, e2) && t2.kind != EOF
    requires Found(input, e2, t3, e3) && t3.kind != EOF
    requires e3 <= |input| && TokensFrom(input, e3) == rest
    ensures TokensFrom(input, 0) == Lexed([t1, t2, t3] + rest.tokens, rest.error)
  {
    LexesCons(input, e2, t3, e3, rest);
    LexesCons(input, e1, t2, e2, Lexed([t3] + rest.tokens, rest.error));
    LexesCons(input, 0, t1, e1, Lexed([t2] + ([t3] + rest.tokens), rest.error));
    assert [t1] + ([t2] + ([t3] + rest.tokens)) == [t1, t2, t3] + rest.tokens;
  }

  /** Three tokens in front of a scan that finds two more. */
  lemma Chain3Then2(input: seq<char>, t1: Token, e1: nat, t2: Token, e2: nat, t3: Token, e3: nat, t4: Token, t5: Token)
    requires Found(input, 0, t1, e1) && t1.kind != EOF
    requires Found(input, e1, t2, e2) && t2.kind != EOF
    requires Found(input, e2, t3, e3) && t3.kind != EOF
    requires e3 <= |input| && TokensFrom(input, e3) == Lexed([t4, t5], None)
    ensures TokensFrom(input, 0) == Lexed([t1, t2, t3, t4, t5], None)
  {
    ChainPrefix3(input, t1, e1, t2, e2, t3, e3, Lexed([t4, t5], None));
    assert [t1, t2, t3] + [t4, t5] == [t1, t2, t3, t4, t5];
  }

  /** Four tokens in front of a scan resumed after them. */
  lemma ChainPrefix4(input: seq<char>, t1: Token, e1: nat, t2: Token, e2: nat, t3: Token, e3: nat, t4: Token, e4: nat, rest: Lexed)
    requires Found(input, 0, t1, e1) && t1.kind != EOF
    requires Found(input, e1, t2, e2) && t2.kind != EOF
    requires Found(input, e2, t3, e3) && t3.kind != EOF
    requires Found(input, e3, t4, e4) && t4.kind != EOF
    requires e4 <= |input| && TokensFrom(input, e4) == rest
    ensures TokensFrom(input, 0) == Lexed([t1, t2, t3, t4] + rest.tokens, rest.error)
  {
    LexesCons(input, e3, t4, e4, rest);
    ChainPrefix3(input, t1, e1, t2, e2, t3, e3, Lexed([t4] + rest.tokens, rest.error));
    assert [t1, t2, t3] + ([t4] + rest.tokens) == [t1, t2, t3, t4] + rest.tokens;
  }

  // ---------------------------------------------------------------------------
  // Lines and their characters

  /** A newline-free line that does not open with `C` or `c` holds no comment
      start. */
  lemma NewlineFreeNoComment(input: string)
    requires '\n' !in input
    requires |input| > 0 ==> input[0] != 'C' && input[0] != 'c'
    ensures NoCommentStart(input)
  {
  }

  /** A digit run holds no newline. */
  lemma DigitsNewlineFree(s: string)
    requires AllDigits(s)
    ensures '\n' !in s
  {
  }

  /** An alphanumeric run holds no newline. */
  lemma AlnumNewlineFree(s: string)
    requires AllAlnum(s)
    ensures '\n' !in s
  {
  }

  /** A slice of a suffix is a slice of the whole. */
  lemma ShiftSlice(input: string, k: nat, a: nat, b: nat)
    requires a <= b && k + b <= |input|
    ensures input[k..][a..b] == input[k + a..k + b]
  {
  }

  /** A suffix of a suffix is a suffix of the whole. */
  lemma ShiftSuffix(input: string, k: nat, a: nat)
    requires k + a <= |input|
    ensures input[k..][a..] == input[k + a..]
  {
  }

  /** A slice made of digits: each of its characters is a digit, by index. */
  lemma SliceDigits(input: string, j: nat, e: nat)
    requires j <= e <= |input| && AllDigits(input[j..e])
    ensures forall i | j <= i < e :: IsDigit(input[i])
  {
    forall i | j <= i < e
      ensures IsDigit(input[i])
    {
      assert input[i] == input[j..e][i - j];
    }
  }

  /** A suffix made of letters and digits: each of its characters is one, by index. */
  lemma SuffixAlnum(input: string, j: nat)
    requires j <= |input| && AllAlnum(input[j..])
    ensures forall i | j <= i < |input| :: IsAlnum(input[i])
  {
    forall i | j <= i < |input|
      ensures IsAlnum(input[i])
    {
      assert input[i] == input[j..][i - j];
    }
  }

  lemma NewlineFreeConcat(a: string, b: string)
    requires '\n' !in a && '\n' !in b
    ensures '\n' !in a + b
  {
  }

  /** The line opens with `GO TO `. */
  predicate GoToAt(input: string) {
    && |input| >= 6
    && input[0] == 'G' && input[1] == 'O' && input[2] == ' '
    && input[3] == 'T' && input[4] == 'O' && input[5] == ' '
  }

  /** `GO TO ` in front of a newline-free rest: a newline-free, comment-free
      line opening with `GO TO `. */
  lemma GoToPrefix(rest: string, input: string)
    requires input == "GO TO " + rest && '\n' !in rest
    ensures GoToAt(input) && input[6..] == rest
    ensures '\n' !in input && NoCommentStart(input)
  {
    assert input[6..] == rest;
    NewlineFreeNoComment(input);
  }

  /** When the line scans without error, `parseString` reports exactly what
      the parse of its tokens gives. */
  lemma ParseStringOfTokens(input: string, handler: ErrorHandler)
    requires NoCommentStart(input) && Lex(input).error.None?
    ensures var r := ParseStatement(Lex(input).tokens);
      ParseString(input, handler).0 == if r.Success? then Parsed(r.value) else Failed(r.error)
  {
  }

  // ---------------------------------------------------------------------------
  // Single tokens on a newline-free line

  /** The two keywords of a line opening with `GO TO `. */
  const GoToken: Token := Token(GoKeyword, "GO", Position(1, 2))
  const ToToken: Token := Token(ToKeyword, "TO", Position(1, 5))

  /** The end marker of a newline-free line. */
  function EndToken(input: string): Token {
    Token(EOF, "", Position(1, |input| + 1))
  }

  /** Both keywords are already in upper case and are classified as
      themselves. */
  lemma KeywordWords()
    ensures ToFortranCase("GO") == "GO" && WordKind("GO") == GoKeyword
    ensures ToFortranCase("TO") == "TO" && WordKind("TO") == ToKeyword
  {
    assert UpperChar('G') == 'G' && UpperChar('O') == 'O' && UpperChar('T') == 'T';
  }

  /** `GO ` opening a newline-free line: the keyword at column 2. */
  lemma GoAtStart(input: string)
    requires |input| >= 3 && input[0] == 'G' && input[1] == 'O' && input[2] == ' ' && '\n' !in input
    ensures Found(input, 0, GoToken, 2)
  {
    assert input[0..2] == "GO";
    KeywordWords();
    WordToken(input, 0, 0, 2);
    PosAtNewlineFree(input, 0);
  }

  /** `GO TO ` opening a newline-free line: `GO` at column 2, `TO` at column 5. */
  lemma GoToAtStart(input: string)
    requires GoToAt(input) && '\n' !in input
    ensures Found(input, 0, GoToken, 2)
    ensures Found(input, 2, ToToken, 5)
  {
    GoAtStart(input);
    assert input[3..5] == "TO";
    KeywordWords();
    WordToken(input, 2, 3, 5);
    PosAtNewlineFree(input, 3);
  }

  /** `GO`, `TO` and a label token from column 8 to index `e`. */
  predicate LabelFound(input: string, e: nat) {
    && 6 < e <= |input|
    && Found(input, 0, GoToken, 2) && Found(input, 2, ToToken, 5)
    && Found(input, 5, Token(Integer, input[6..e], Position(1, 8)), e)
  }

  /** `GO TO ` and a digit run ending at `e` that no letter or digit follows. */
  lemma LabelHead(input: string, e: nat)
    requires GoToAt(input) && '\n' !in input && 6 < e <= |input|
    requires forall i | 6 <= i < e :: IsDigit(input[i])
    requires e == |input| || !IsAlnum(input[e])
    ensures LabelFound(input, e)
  {
    NumberAt(input, 5, 6, e);
    GoToAtStart(input);
  }

  /** The label prefix in front of a scan that finds two more tokens. */
  lemma LabelThen2(input: string, e: nat, t4: Token, t5: Token)
    requires LabelFound(input, e) && TokensFrom(input, e) == Lexed([t4, t5], None)
    ensures TokensFrom(input, 0) == Lexed([GoToken, ToToken, Token(Integer, input[6..e], Position(1, 8)), t4, t5], None)
  {
    Chain3Then2(input, GoToken, 2, ToToken, 5, Token(Integer, input[6..e], Position(1, 8)), e, t4, t5);
  }

  /** Only whitespace from `k` on: the end marker, at the column after the
      line. */
  lemma EndAt(input: string, k: nat)
    requires k <= |input| && '\n' !in input
    requires forall i | k <= i < |input| :: IsWhitespace(input[i])
    ensures Found(input, k, EndToken(input), |input|)
  {
    EndMarkerToken(input, k);
    PosAtNewlineFree(input, |input|);
  }

  /** Whitespace from `k`, then a digit run from `j` to `e` not followed by a
      letter or digit: an `INTEGER` at column j + 2. */
  lemma NumberAt(input: string, k: nat, j: nat, e: nat)
    requires k <= j < e <= |input| && '\n' !in input
    requires forall i | k <= i < j :: IsWhitespace(input[i])
    requires forall i | j <= i < e :: IsDigit(input[i])
    requires e == |input| || !IsAlnum(input[e])
    ensures Found(input, k, Token(Integer, input[j..e], Position(1, j + 2)), e)
  {
    NumberToken(input, k, j, e);
    PosAtNewlineFree(input, j);
  }

  /** Whitespace from `k`, then a letter-led alphanumeric run from `j` to `e`
      not followed by a letter or digit: the upper-cased word at column j + 2. */
  lemma WordAt(input: string, k: nat, j: nat, e: nat)
    requires k <= j < e <= |input| && '\n' !in input
    requires forall i | k <= i < j :: IsWhitespace(input[i])
    requires IsAlpha(input[j]) && forall i | j <= i < e :: IsAlnum(input[i])
    requires e == |input| || !IsAlnum(input[e])
    ensures var w := ToFortranCase(input[j..e]);
      Found(input, k, Token(WordKind(w), w, Position(1, j + 2)), e)
  {
    WordToken(input, k, j, e);
    PosAtNewlineFree(input, j);
  }

  /** The upper-cased word of a line, as its token at column `j` + 2. */
  function WordTokenAt(input: string, j: nat): Token
    requires j <= |input|
  {
    var w := ToFortranCase(input[j..]);
    Token(WordKind(w), w, Position(1, j + 2))
  }

  /** Whitespace from `k`, then a word from `j` to the end of the line: the
      word and the end marker. */
  lemma WordToEnd(input: string, k: nat, j: nat)
    requires k <= j < |input| && '\n' !in input
    requires forall i | k <= i < j :: IsWhitespace(input[i])
    requires IsAlpha(input[j]) && forall i | j <= i < |input| :: IsAlnum(input[i])
    ensures TokensFrom(input, k) == Lexed([WordTokenAt(input, j), EndToken(input)], None)
  {
    var n := |input|;
    WordAt(input, k, j, n);
    assert input[j..n] == input[j..];
    EndAt(input, n);
    LexesEnd(input, n, EndToken(input));
    LexesCons(input, k, WordTokenAt(input, j), n, Lexed([EndToken(input)], None));
  }

  /** Whitespace from `k`, then a parenthesis or comma at `j`: that character
      as a token at column j + 2. */
  lemma PunctuationAt(input: string, k: nat, j: nat)
    requires k <= j < |input| && '\n' !in input && input[j] in {'(', ')', ','}
    requires forall i | k <= i < j :: IsWhitespace(input[i])
    ensures Found(input, k, Token(PunctuationKind(input[j]), [input[j]], Position(1, j + 2)), j + 1)
  {
    PunctuationToken(input, k, j);
    PosAtNewlineFree(input, j);
  }

  /** The opening parenthesis right after `GO TO `, at column 8. */
  lemma OpenParenAfterGoTo(input: string)
    requires GoToAt(input) && '\n' !in input && |input| > 6 && input[6] == '('
    ensures Found(input, 5, Token(LeftParen, "(", Position(1, 8)), 7)
  {
    PunctuationAt(input, 5, 6);
    assert [input[6]] == "(";
  }


  /** A line whose scan stops at a lexical error fails with that error. */
  lemma LexErrorOutcome(input: string, ts: seq<Token>, d: Diagnostic, handler: ErrorHandler)
    requires NoCommentStart(input) && TokensFrom(input, 0) == Lexed(ts, Some(d))
    ensures ParseString(input, handler).0 == Failed(Raised(d))
  {
  }

  // ---------------------------------------------------------------------------
  // GO TO label

  /** `GO TO ` then only digits. */
  predicate DigitsAfterGoTo(input: string) {
    && GoToAt(input) && '\n' !in input && |input| > 6
    && forall i | 6 <= i < |input| :: IsDigit(input[i])
  }

  lemma UnconditionalInput(input: string, labelText: string)
    requires input == "GO TO " + labelText && |labelText| >= 1 && AllDigits(labelText)
    ensures DigitsAfterGoTo(input) && input[6..] == labelText
  {
    DigitsNewlineFree(labelText);
    GoToPrefix(labelText, input);
    forall i | 6 <= i < |input|
      ensures IsDigit(input[i])
    {
      assert input[i] == labelText[i - 6];
    }
  }

  /** The keywords, the label at column 8 and the end marker. */
  lemma LabelLineTokens(input: string)
    requires DigitsAfterGoTo(input)
    ensures NoCommentStart(input)
    ensures TokensFrom(input, 0)
         == Lexed([GoToken, ToToken, Token(Integer, input[6..], Position(1, 8)), EndToken(input)], None)
  {
    var n := |input|;
    NewlineFreeNoComment(input);
    GoToAtStart(input);
    NumberAt(input, 5, 6, n);
    assert input[6..n] == input[6..];
    EndAt(input, n);
    Chain4(input, 0, GoToken, 2, ToToken, 5, Token(Integer, input[6..], Position(1, 8)), n, EndToken(input));
  }

  /** The parse of `GO`, `TO`, one `INTEGER` and the end marker. */
  lemma UnconditionalTokens(ts: seq<Token>, labelText: string, p: Position, end: Token)
    requires ts == [GoToken, ToToken, Token(Integer, labelText, p), end] && end.kind == EOF
    ensures IsValidLabel(labelText) ==> ParseStatement(ts) == Success(Unconditional(labelText, p.line, p.column))
    ensures !IsValidLabel(labelText) ==> ParseStatement(ts) == Failure(Raised(InvalidLabel(p, labelText)))
  {
    assert ParseStatement(ts) == ParseUnconditional(ts, 2);
  }

  lemma UnconditionalStatement(input: string)
    requires DigitsAfterGoTo(input)
    ensures NoCommentStart(input) && TokensFrom(input, 0).error.None?
    ensures IsValidLabel(input[6..]) ==>
      ParseStatement(TokensFrom(input, 0).tokens) == Success(Unconditional(input[6..], 1, 8))
    ensures !IsValidLabel(input[6..]) ==>
      ParseStatement(TokensFrom(input, 0).tokens) == Failure(Raised(InvalidLabel(Position(1, 8), input[6..])))
  {
    LabelLineTokens(input);
    UnconditionalTokens(TokensFrom(input, 0).tokens, input[6..], Position(1, 8), EndToken(input));
  }

  lemma UnconditionalOutcome(input: string, handler: ErrorHandler)
    requires DigitsAfterGoTo(input)
    ensures NoCommentStart(input)
    ensures IsValidLabel(input[6..]) ==> ParseString(input, handler).0 == Parsed(Unconditional(input[6..], 1, 8))
    ensures !IsValidLabel(input[6..]) ==>
      ParseString(input, handler).0 == Failed(Raised(InvalidLabel(Position(1, 8), input[6..])))
  {
    UnconditionalStatement(input);
    ParseStringOfTokens(input, handler);
  }

  /** `GO TO 100` is the unconditional statement at column 8; a label out of
      range (`GO TO 0`, `GO TO 100000`) is the invalid-label error there. */
  lemma UnconditionalLine(input: string, labelText: string, handler: ErrorHandler)
    requires input == "GO TO " + labelText && |labelText| >= 1 && AllDigits(labelText)
    ensures NoCommentStart(input)
    ensures IsValidLabel(labelText) ==> ParseString(input, handler).0 == Parsed(Unconditional(labelText, 1, 8))
    ensures !IsValidLabel(labelText) ==>
      ParseString(input, handler).0 == Failed(Raised(InvalidLabel(Position(1, 8), labelText)))
  {
    UnconditionalInput(input, labelText);
    UnconditionalOutcome(input, handler);
  }

  // ---------------------------------------------------------------------------
  // GO label

  /** `GO ` then only digits. */
  predicate DigitsAfterGo(input: string) {
    && |input| > 3 && input[0] == 'G' && input[1] == 'O' && input[2] == ' ' && '\n' !in input
    && forall i | 3 <= i < |input| :: IsDigit(input[i])
  }

  lemma MissingToInput(input: string, labelText: string)
    requires input == "GO " + labelText && |labelText| >= 1 && AllDigits(labelText)
    ensures DigitsAfterGo(input)
  {
    assert input[0] == 'G' && input[1] == 'O' && input[2] == ' ';
    DigitsNewlineFree(labelText);
    NewlineFreeConcat("GO ", labelText);
    forall i | 3 <= i < |input|
      ensures IsDigit(input[i])
    {
      assert input[i] == labelText[i - 3];
    }
  }

  /** The keyword, the number at column 5 and the end marker. */
  lemma MissingToTokens(input: string)
    requires DigitsAfterGo(input)
    ensures NoCommentStart(input)
    ensures TokensFrom(input, 0)
         == Lexed([GoToken, Token(Integer, input[3..], Position(1, 5)), EndToken(input)], None)
  {
    var n := |input|;
    NewlineFreeNoComment(input);
    GoAtStart(input);
    NumberAt(input, 2, 3, n);
    assert input[3..n] == input[3..];
    EndAt(input, n);
    Chain3(input, GoToken, 2, Token(Integer, input[3..], Position(1, 5)), n, EndToken(input));
  }

  /** `GO` followed by anything but `TO` is the unexpected-token error at the
      second token. */
  lemma MissingToParse(ts: seq<Token>)
    requires |ts| >= 2 && ts[0] == GoToken && ts[1].kind != ToKeyword
    ensures ParseStatement(ts) == Failure(Raised(UnexpectedToken(ts[1].position, "TO", ts[1].kind.Name())))
  {
  }

  lemma MissingToStatement(input: string)
    requires DigitsAfterGo(input)
    ensures NoCommentStart(input) && TokensFrom(input, 0).error.None?
    ensures ParseStatement(TokensFrom(input, 0).tokens) == Failure(Raised(UnexpectedToken(Position(1, 5), "TO", "INTEGER")))
  {
    MissingToTokens(input);
    MissingToParse(TokensFrom(input, 0).tokens);
  }

  lemma MissingToOutcome(input: string, handler: ErrorHandler)
    requires DigitsAfterGo(input)
    ensures NoCommentStart(input)
    ensures ParseString(input, handler).0 == Failed(Raised(UnexpectedToken(Position(1, 5), "TO", "INTEGER")))
  {
    MissingToStatement(input);
    ParseStringOfTokens(input, handler);
  }

  /** `GO 100`: the label where `TO` belongs is the unexpected-token error at
      its column, 5, expecting `TO` and finding `INTEGER`. */
  lemma MissingToLine(input: string, labelText: string, handler: ErrorHandler)
    requires input == "GO " + labelText && |labelText| >= 1 && AllDigits(labelText)
    ensures NoCommentStart(input)
    ensures ParseString(input, handler).0 == Failed(Raised(UnexpectedToken(Position(1, 5), "TO", "INTEGER")))
  {
    MissingToInput(input, labelText);
    MissingToOutcome(input, handler);
  }

  // ---------------------------------------------------------------------------
  // GO TO with no target

  /** `GO TO` then only whitespace. */
  predicate KeywordsThenBlank(input: string) {
    && |input| >= 5 && '\n' !in input
    && input[0] == 'G' && input[1] == 'O' && input[2] == ' ' && input[3] == 'T' && input[4] == 'O'
    && forall i | 5 <= i < |input| :: IsWhitespace(input[i])
  }

  lemma NoTargetInput(input: string, blank: string)
    requires input == "GO TO" + blank && '\n' !in blank
    requires forall i | 0 <= i < |blank| :: IsWhitespace(blank[i])
    ensures KeywordsThenBlank(input)
  {
    NewlineFreeConcat("GO TO", blank);
    forall i | 5 <= i < |input|
      ensures IsWhitespace(input[i])
    {
      assert input[i] == blank[i - 5];
    }
  }

  /** The two keywords and the end marker after the trailing whitespace. */
  lemma NoTargetTokens(input: string)
    requires KeywordsThenBlank(input)
    ensures NoCommentStart(input)
    ensures TokensFrom(input, 0) == Lexed([GoToken, ToToken, EndToken(input)], None)
  {
    NewlineFreeNoComment(input);
    GoAtStart(input);
    assert input[3..5] == "TO";
    KeywordWords();
    if 5 < |input| {
      CharClassesDisjoint(input[5]);
    }
    WordToken(input, 2, 3, 5);
    PosAtNewlineFree(input, 3);
    EndAt(input, 5);
    Chain3(input, GoToken, 2, ToToken, 5, EndToken(input));
  }

  /** `GO`, `TO` and then the end marker: the unexpected-token error at the
      end marker, expecting a target. */
  lemma NoTargetParse(ts: seq<Token>)
    requires |ts| == 3 && ts[0] == GoToken && ts[1] == ToToken && ts[2].kind == EOF
    ensures ParseStatement(ts) == Failure(Raised(UnexpectedToken(ts[2].position, ExpectedTarget, "EOF")))
  {
  }

  lemma NoTargetStatement(input: string)
    requires KeywordsThenBlank(input)
    ensures NoCommentStart(input) && TokensFrom(input, 0).error.None?
    ensures ParseStatement(TokensFrom(input, 0).tokens)
         == Failure(Raised(UnexpectedToken(Position(1, |input| + 1), ExpectedTarget, "EOF")))
  {
    NoTargetTokens(input);
    NoTargetParse([GoToken, ToToken, EndToken(input)]);
  }

  lemma NoTargetOutcome(input: string, handler: ErrorHandler)
    requires KeywordsThenBlank(input)
    ensures NoCommentStart(input)
    ensures ParseString(input, handler).0
         == Failed(Raised(UnexpectedToken(Position(1, |input| + 1), ExpectedTarget, "EOF")))
  {
    NoTargetStatement(input);
    ParseStringOfTokens(input, handler);
  }

  /** `GO TO` alone: the end marker where the target belongs is the
      unexpected-token error at the column after the line, expecting a target
      and finding `EOF`. */
  lemma NoTargetLine(input: string, blank: string, handler: ErrorHandler)
    requires input == "GO TO" + blank && '\n' !in blank
    requires forall i | 0 <= i < |blank| :: IsWhitespace(blank[i])
    ensures NoCommentStart(input)
    ensures ParseString(input, handler).0
         == Failed(Raised(UnexpectedToken(Position(1, |input| + 1), ExpectedTarget, "EOF")))
  {
    NoTargetInput(input, blank);
    NoTargetOutcome(input, handler);
  }

  // ---------------------------------------------------------------------------
  // Lexical errors after GO TO

  /** `GO TO ` then a digit run ending at a letter at `e`. */
  predicate GluedAfterGoTo(input: string, e: nat) {
    && GoToAt(input) && '\n' !in input && 6 < e < |input|
    && (forall i | 6 <= i < e :: IsDigit(input[i]))
    && IsAlpha(input[e])
  }

  lemma GluedInput(input: string, digits: string, a: char, more: string) returns (e: nat)
    requires input == "GO TO " + digits + [a] + more
    requires |digits| >= 1 && AllDigits(digits) && IsAlpha(a) && '\n' !in more
    ensures GluedAfterGoTo(input, e) && e == |digits| + 6 && input[e] == a
  {
    var rest := digits + [a] + more;
    assert input == "GO TO " + rest;
    DigitsNewlineFree(digits);
    assert '\n' !in rest;
    GoToPrefix(rest, input);
    e := 6 + |digits|;
    assert input[e] == a;
    forall i | 6 <= i < e
      ensures IsDigit(input[i])
    {
      assert input[i] == digits[i - 6];
    }
  }

  /** Only the keywords are scanned, then the lexical error at the letter. */
  lemma GluedOutcome(input: string, e: nat, handler: ErrorHandler)
    requires GluedAfterGoTo(input, e)
    ensures NoCommentStart(input)
    ensures TokensFrom(input, 0) == Lexed([GoToken, ToToken], Some(InvalidCharacter(Position(1, e + 2), input[e])))
    ensures ParseString(input, handler).0 == Failed(Raised(InvalidCharacter(Position(1, e + 2), input[e])))
  {
    var d := InvalidCharacter(Position(1, e + 2), input[e]);
    NewlineFreeNoComment(input);
    GoToAtStart(input);
    NumberGluedToLetter(input, 5, 6, e);
    PosAtNewlineFree(input, e);
    Chain2Error(input, GoToken, 2, ToToken, 5, d);
    LexErrorOutcome(input, [GoToken, ToToken], d, handler);
  }

  /** `GO TO 123ABC`: a label run into a letter is a lexical error at that
      letter, whose column is |digits| + 8. */
  lemma GluedLabelLine(input: string, digits: string, a: char, more: string, handler: ErrorHandler)
    requires input == "GO TO " + digits + [a] + more
    requires |digits| >= 1 && AllDigits(digits) && IsAlpha(a) && '\n' !in more
    ensures NoCommentStart(input)
    ensures ParseString(input, handler).0 == Failed(Raised(InvalidCharacter(Position(1, |digits| + 8), a)))
  {
    var e := GluedInput(input, digits, a, more);
    GluedOutcome(input, e, handler);
  }

  /** `GO TO ` then a character outside the alphabet. */
  predicate StrayAfterGoTo(input: string) {
    && GoToAt(input) && '\n' !in input && |input| > 6
    && !IsWhitespace(input[6]) && !IsAlnum(input[6]) && input[6] !in {'(', ')', ','}
  }

  lemma StrayInput(input: string, c: char, more: string)
    requires input == "GO TO " + [c] + more && '\n' !in more
    requires !IsWhitespace(c) && !IsAlnum(c) && c !in {'(', ')', ','}
    ensures StrayAfterGoTo(input) && input[6] == c
  {
    var rest := [c] + more;
    assert input == "GO TO " + rest;
    GoToPrefix(rest, input);
  }

  /** Only the keywords are scanned, then the lexical error at column 8. */
  lemma StrayOutcome(input: string, handler: ErrorHandler)
    requires StrayAfterGoTo(input)
    ensures NoCommentStart(input)
    ensures TokensFrom(input, 0) == Lexed([GoToken, ToToken], Some(InvalidCharacter(Position(1, 8), input[6])))
    ensures ParseString(input, handler).0 == Failed(Raised(InvalidCharacter(Position(1, 8), input[6])))
  {
    var d := InvalidCharacter(Position(1, 8), input[6]);
    NewlineFreeNoComment(input);
    GoToAtStart(input);
    InvalidCharacterError(input, 5, 6);
    PosAtNewlineFree(input, 6);
    Chain2Error(input, GoToken, 2, ToToken, 5, d);
    LexErrorOutcome(input, [GoToken, ToToken], d, handler);
  }

  /** `GO TO #100`: a character outside the alphabet right after `GO TO ` is
      a lexical error at column 8. */
  lemma StrayCharacterLine(input: string, c: char, more: string, handler: ErrorHandler)
    requires input == "GO TO " + [c] + more && '\n' !in more
    requires !IsWhitespace(c) && !IsAlnum(c) && c !in {'(', ')', ','}
    ensures NoCommentStart(input)
    ensures ParseString(input, handler).0 == Failed(Raised(InvalidCharacter(Position(1, 8), c)))
  {
    StrayInput(input, c, more);
    StrayOutcome(input, handler);
  }

  // ---------------------------------------------------------------------------
  // GO TO label word

  /** `GO TO `, a digit run ending at `e`, one space, then a word. */
  predicate LabelAndWord(input: string, e: nat) {
    && GoToAt(input) && '\n' !in input && 6 < e && e + 1 < |input|
    && (forall i | 6 <= i < e :: IsDigit(input[i]))
    && input[e] == ' ' && IsAlpha(input[e + 1])
    && (forall i | e + 1 <= i < |input| :: IsAlnum(input[i]))
  }

  /** The layout of `label word`: the label, one space and the word, and no
      newline. */
  predicate TrailingLayout(rest: string, labelText: string, word: string) {
    && |rest| == |labelText| + 1 + |word| && '\n' !in rest
    && rest[..|labelText|] == labelText && rest[|labelText|] == ' ' && rest[|labelText| + 1..] == word
  }

  lemma TrailingList(rest: string, labelText: string, word: string)
    requires rest == labelText + " " + word
    requires AllDigits(labelText) && AllAlnum(word)
    ensures TrailingLayout(rest, labelText, word)
  {
    DigitsNewlineFree(labelText);
    AlnumNewlineFree(word);
    NewlineFreeConcat(labelText, " ");
    NewlineFreeConcat(labelText + " ", word);
  }

  lemma TrailingRegroup(input: string, labelText: string, word: string)
    requires input == "GO TO " + labelText + " " + word
    ensures input == "GO TO " + (labelText + " " + word)
  {
  }

  /** `GO TO ` followed by the layout of `label word`. */
  lemma TrailingPlaced(input: string, rest: string, labelText: string, word: string) returns (e: nat)
    requires GoToAt(input) && input[6..] == rest && '\n' !in input && TrailingLayout(rest, labelText, word)
    requires |labelText| >= 1 && AllDigits(labelText)
    requires |word| >= 1 && IsAlpha(word[0]) && AllAlnum(word)
    ensures LabelAndWord(input, e) && e == 6 + |labelText|
    ensures input[6..e] == labelText && input[e + 1..] == word
  {
    e := 6 + |labelText|;
    ShiftSlice(input, 6, 0, |labelText|);
    ShiftSuffix(input, 6, |labelText| + 1);
    SliceDigits(input, 6, e);
    SuffixAlnum(input, e + 1);
  }

  lemma TrailingWordInput(input: string, labelText: string, word: string) returns (e: nat)
    requires input == "GO TO " + labelText + " " + word
    requires |labelText| >= 1 && AllDigits(labelText)
    requires |word| >= 1 && IsAlpha(word[0]) && AllAlnum(word)
    ensures LabelAndWord(input, e) && e == 6 + |labelText|
    ensures input[6..e] == labelText && input[e + 1..] == word
  {
    var rest := labelText + " " + word;
    TrailingRegroup(input, labelText, word);
    TrailingList(rest, labelText, word);
    GoToPrefix(rest, input);
    e := TrailingPlaced(input, rest, labelText, word);
  }

  /** The keywords, the label at column 8, the word at column e + 3 and the
      end marker. */
  lemma TrailingWordTokens(input: string, e: nat)
    requires LabelAndWord(input, e)
    ensures NoCommentStart(input)
    ensures TokensFrom(input, 0)
         == Lexed([GoToken, ToToken, Token(Integer, input[6..e], Position(1, 8)), WordTokenAt(input, e + 1), EndToken(input)], None)
  {
    NewlineFreeNoComment(input);
    LabelHead(input, e);
    WordToEnd(input, e, e + 1);
    LabelThen2(input, e, WordTokenAt(input, e + 1), EndToken(input));
  }

  /** A label followed by anything but the end of the statement: the label
      is checked first, then the trailing token is the error. */
  lemma TrailingTokenParse(ts: seq<Token>, labelText: string)
    requires |ts| >= 4 && ts[0] == GoToken && ts[1] == ToToken
    requires ts[2].kind == Integer && ts[2].value == labelText && ts[3].kind != EOF
    ensures IsValidLabel(labelText) ==>
      ParseStatement(ts) == Failure(Raised(UnexpectedToken(ts[3].position, ExpectedEnd, ts[3].kind.Name())))
    ensures !IsValidLabel(labelText) ==>
      ParseStatement(ts) == Failure(Raised(InvalidLabel(ts[2].position, labelText)))
  {
    assert ParseStatement(ts) == ParseUnconditional(ts, 2);
  }

  /** The trailing-word line's tokens: the label at column 8, then a word. */
  lemma TrailingWordParse(ts: seq<Token>, labelText: string, w: Token, end: Token)
    requires ts == [GoToken, ToToken, Token(Integer, labelText, Position(1, 8)), w, end]
    requires w.kind == WordKind(w.value)
    ensures IsValidLabel(labelText) ==>
      ParseStatement(ts) == Failure(Raised(UnexpectedToken(w.position, ExpectedEnd, w.kind.Name())))
    ensures !IsValidLabel(labelText) ==>
      ParseStatement(ts) == Failure(Raised(InvalidLabel(Position(1, 8), labelText)))
  {
    TrailingTokenParse(ts, labelText);
  }

  lemma TrailingWordStatement(input: string, e: nat)
    requires LabelAndWord(input, e)
    ensures NoCommentStart(input) && TokensFrom(input, 0).error.None?
    ensures var t := WordTokenAt(input, e + 1);
      IsValidLabel(input[6..e]) ==>
        ParseStatement(TokensFrom(input, 0).tokens) == Failure(Raised(UnexpectedToken(t.position, ExpectedEnd, t.kind.Name())))
    ensures !IsValidLabel(input[6..e]) ==>
      ParseStatement(TokensFrom(input, 0).tokens) == Failure(Raised(InvalidLabel(Position(1, 8), input[6..e])))
  {
    TrailingWordTokens(input, e);
    TrailingWordParse(TokensFrom(input, 0).tokens, input[6..e], WordTokenAt(input, e + 1), EndToken(input));
  }

  lemma TrailingWordOutcome(input: string, e: nat, handler: ErrorHandler)
    requires LabelAndWord(input, e)
    ensures NoCommentStart(input)
    ensures var t := WordTokenAt(input, e + 1);
      IsValidLabel(input[6..e]) ==>
        ParseString(input, handler).0 == Failed(Raised(UnexpectedToken(t.position, ExpectedEnd, t.kind.Name())))
    ensures !IsValidLabel(input[6..e]) ==>
      ParseString(input, handler).0 == Failed(Raised(InvalidLabel(Position(1, 8), input[6..e])))
  {
    TrailingWordStatement(input, e);
    ParseStringOfTokens(input, handler);
  }

  /** `GO TO 100 EXTRA`: a word after the label is the end-of-statement error
      at the word's column, |label| + 9, naming the word's kind; an invalid
      label is reported before it. */
  lemma TrailingWordLine(input: string, labelText: string, word: string, handler: ErrorHandler)
    requires input == "GO TO " + labelText + " " + word
    requires |labelText| >= 1 && AllDigits(labelText)
    requires |word| >= 1 && IsAlpha(word[0]) && AllAlnum(word)
    ensures NoCommentStart(input)
    ensures IsValidLabel(labelText) ==>
      ParseString(input, handler).0
        == Failed(Raised(UnexpectedToken(Position(1, |labelText| + 9), ExpectedEnd, WordKind(ToFortranCase(word)).Name())))
    ensures !IsValidLabel(labelText) ==>
      ParseString(input, handler).0 == Failed(Raised(InvalidLabel(Position(1, 8), labelText)))
  {
    var e := TrailingWordInput(input, labelText, word);
    TrailingWordOutcome(input, e, handler);
  }

  // ---------------------------------------------------------------------------
  // GO TO word

  /** `GO TO ` then a word to the end of the line. */
  predicate WordAfterGoTo(input: string) {
    && GoToAt(input) && '\n' !in input && |input| > 6
    && IsAlpha(input[6]) && forall i | 6 <= i < |input| :: IsAlnum(input[i])
  }

  lemma AssignedInput(input: string, word: string)
    requires input == "GO TO " + word && |word| >= 1 && IsAlpha(word[0]) && AllAlnum(word)
    ensures WordAfterGoTo(input) && input[6..] == word
  {
    AlnumNewlineFree(word);
    GoToPrefix(word, input);
    forall i | 6 <= i < |input|
      ensures IsAlnum(input[i])
    {
      assert input[i] == word[i - 6];
    }
  }

  /** The keywords, the upper-cased word at column 8 and the end marker. */
  lemma WordLineTokens(input: string)
    requires WordAfterGoTo(input)
    ensures NoCommentStart(input)
    ensures TokensFrom(input, 0) == Lexed([GoToken, ToToken, WordTokenAt(input, 6), EndToken(input)], None)
  {
    var n := |input|;
    NewlineFreeNoComment(input);
    GoToAtStart(input);
    WordAt(input, 5, 6, n);
    assert input[6..n] == input[6..];
    EndAt(input, n);
    Chain4(input, 0, GoToken, 2, ToToken, 5, WordTokenAt(input, 6), n, EndToken(input));
  }

  /** The parse of `GO`, `TO`, one word and the end marker: an identifier is
      the assigned statement when it is valid and the invalid-identifier
      error when not; a keyword is the unexpected-token error for the target. */
  lemma WordLineParse(ts: seq<Token>, word: string, p: Position, end: Token)
    requires ts == [GoToken, ToToken, Token(WordKind(word), word, p), end] && end.kind == EOF
    ensures WordKind(word) == Identifier && IsValidIdentifier(word) ==>
      ParseStatement(ts) == Success(Assigned(word, p.line, p.column))
    ensures WordKind(word) == Identifier && !IsValidIdentifier(word) ==>
      ParseStatement(ts) == Failure(Raised(InvalidIdentifier(p, word)))
    ensures WordKind(word) != Identifier ==>
      ParseStatement(ts) == Failure(Raised(UnexpectedToken(p, ExpectedTarget, WordKind(word).Name())))
  {
    if WordKind(word) == Identifier {
      assert ParseStatement(ts) == ParseAssigned(ts, 2);
    }
  }

  lemma AssignedStatement(input: string)
    requires WordAfterGoTo(input)
    ensures NoCommentStart(input) && TokensFrom(input, 0).error.None?
    ensures var w := ToFortranCase(input[6..]);
      var r := ParseStatement(TokensFrom(input, 0).tokens);
      && (WordKind(w) == Identifier && IsValidIdentifier(w) ==> r == Success(Assigned(w, 1, 8)))
      && (WordKind(w) == Identifier && !IsValidIdentifier(w) ==> r == Failure(Raised(InvalidIdentifier(Position(1, 8), w))))
      && (WordKind(w) != Identifier ==> r == Failure(Raised(UnexpectedToken(Position(1, 8), ExpectedTarget, WordKind(w).Name()))))
  {
    WordLineTokens(input);
    WordLineParse(TokensFrom(input, 0).tokens, ToFortranCase(input[6..]), Position(1, 8), EndToken(input));
  }

  lemma AssignedOutcome(input: string, handler: ErrorHandler)
    requires WordAfterGoTo(input)
    ensures NoCommentStart(input)
    ensures var w := ToFortranCase(input[6..]);
      && (WordKind(w) == Identifier && IsValidIdentifier(w) ==>
            ParseString(input, handler).0 == Parsed(Assigned(w, 1, 8)))
      && (WordKind(w) == Identifier && !IsValidIdentifier(w) ==>
            ParseString(input, handler).0 == Failed(Raised(InvalidIdentifier(Position(1, 8), w))))
      && (WordKind(w) != Identifier ==>
            ParseString(input, handler).0 == Failed(Raised(UnexpectedToken(Position(1, 8), ExpectedTarget, WordKind(w).Name()))))
  {
    AssignedStatement(input);
    ParseStringOfTokens(input, handler);
  }

  /** `GO TO I`: a word after `GO TO` is the assigned statement at column 8
      when it has at most six characters (upper-cased), the invalid-identifier
      error when longer (`GO TO TOOLONGNAME`), and the target error when it
      is a keyword (`GO TO GO`). */
  lemma AssignedLine(input: string, word: string, handler: ErrorHandler)
    requires input == "GO TO " + word && |word| >= 1 && IsAlpha(word[0]) && AllAlnum(word)
    ensures NoCommentStart(input)
    ensures var w := ToFortranCase(word);
      && (WordKind(w) == Identifier && |word| <= 6 ==> ParseString(input, handler).0 == Parsed(Assigned(w, 1, 8)))
      && (WordKind(w) == Identifier && |word| > 6 ==>
            ParseString(input, handler).0 == Failed(Raised(InvalidIdentifier(Position(1, 8), w))))
      && (WordKind(w) != Identifier ==>
            ParseString(input, handler).0 == Failed(Raised(UnexpectedToken(Position(1, 8), ExpectedTarget, WordKind(w).Name()))))
  {
    AssignedInput(input, word);
    var w := ToFortranCase(word);
    FortranCaseOnAlnum(word);
    UpperCharPreservesClasses(word[0]);
    IdentifierValidIffShort(w);
    AssignedOutcome(input, handler);
  }

  // ---------------------------------------------------------------------------
  // GO TO (label), word

  /** `GO TO (`, a digit run ending at `e`, then `), ` and a word. */
  predicate ComputedAfterGoTo(input: string, e: nat) {
    && GoToAt(input) && '\n' !in input && 7 < e && e + 3 < |input|
    && input[6] == '(' && (forall i | 7 <= i < e :: IsDigit(input[i]))
    && input[e] == ')' && input[e + 1] == ',' && input[e + 2] == ' '
    && IsAlpha(input[e + 3]) && (forall i | e + 3 <= i < |input| :: IsAlnum(input[i]))
  }

  /** The layout of `(label), word`: a parenthesis, the label, `), ` and the
      word, and no newline. */
  predicate ComputedLayout(rest: string, labelText: string, word: string) {
    && |rest| == |labelText| + 4 + |word| && '\n' !in rest
    && rest[0] == '(' && rest[1..|labelText| + 1] == labelText
    && rest[|labelText| + 1] == ')' && rest[|labelText| + 2] == ',' && rest[|labelText| + 3] == ' '
    && rest[|labelText| + 4..] == word
  }

  lemma ComputedList(rest: string, labelText: string, word: string)
    requires rest == "(" + labelText + "), " + word
    requires AllDigits(labelText) && AllAlnum(word)
    ensures ComputedLayout(rest, labelText, word)
  {
    DigitsNewlineFree(labelText);
    AlnumNewlineFree(word);
    NewlineFreeConcat("(", labelText);
    NewlineFreeConcat("(" + labelText, "), ");
    NewlineFreeConcat("(" + labelText + "), ", word);
  }

  lemma ComputedRegroup(input: string, labelText: string, word: string)
    requires input == "GO TO (" + labelText + "), " + word
    ensures input == "GO TO " + ("(" + labelText + "), " + word)
  {
  }

  /** The character-level facts that make up `ComputedAfterGoTo`. */
  lemma ComputedShape(input: string, e: nat)
    requires GoToAt(input) && '\n' !in input && 7 < e && e + 3 < |input|
    requires input[6] == '(' && AllDigits(input[7..e])
    requires input[e] == ')' && input[e + 1] == ',' && input[e + 2] == ' '
    requires IsAlpha(input[e + 3]) && AllAlnum(input[e + 3..])
    ensures ComputedAfterGoTo(input, e)
  {
    SliceDigits(input, 7, e);
    SuffixAlnum(input, e + 3);
  }

  /** `GO TO ` followed by the layout of `(label), word`. */
  lemma ComputedPlaced(input: string, rest: string, labelText: string, word: string) returns (e: nat)
    requires GoToAt(input) && input[6..] == rest && ComputedLayout(rest, labelText, word)
    requires |labelText| >= 1 && AllDigits(labelText)
    requires |word| >= 1 && IsAlpha(word[0]) && AllAlnum(word)
    ensures ComputedAfterGoTo(input, e) && e == 7 + |labelText|
    ensures input[7..e] == labelText && input[e + 3..] == word
  {
    e := 7 + |labelText|;
    ShiftSlice(input, 6, 1, |labelText| + 1);
    ShiftSuffix(input, 6, |labelText| + 4);
    assert '\n' !in input by {
      assert input == input[..6] + rest;
    }
    ComputedShape(input, e);
  }

  lemma ComputedInput(input: string, labelText: string, word: string) returns (e: nat)
    requires input == "GO TO (" + labelText + "), " + word
    requires |labelText| >= 1 && AllDigits(labelText)
    requires |word| >= 1 && IsAlpha(word[0]) && AllAlnum(word)
    ensures ComputedAfterGoTo(input, e) && e == 7 + |labelText|
    ensures input[7..e] == labelText && input[e + 3..] == word
  {
    var rest := "(" + labelText + "), " + word;
    ComputedRegroup(input, labelText, word);
    ComputedList(rest, labelText, word);
    GoToPrefix(rest, input);
    e := ComputedPlaced(input, rest, labelText, word);
  }

  /** The four tokens from a `)` at `e`: the parenthesis, the comma, the word
      and the end marker. */
  function CloseTail(input: string, e: nat): seq<Token>
    requires e + 3 <= |input|
  {
    [Token(RightParen, ")", Position(1, e + 2)), Token(Comma, ",", Position(1, e + 3)),
     WordTokenAt(input, e + 3), EndToken(input)]
  }

  /** From a `)` at `e` followed by `, ` and a word to the end of the line. */
  lemma CloseTailTokens(input: string, e: nat)
    requires '\n' !in input && e + 3 < |input|
    requires input[e] == ')' && input[e + 1] == ',' && input[e + 2] == ' '
    requires IsAlpha(input[e + 3]) && forall i | e + 3 <= i < |input| :: IsAlnum(input[i])
    ensures TokensFrom(input, e) == Lexed(CloseTail(input, e), None)
  {
    var n := |input|;
    PunctuationAt(input, e, e);
    PunctuationAt(input, e + 1, e + 1);
    assert [input[e]] == ")" && [input[e + 1]] == ",";
    WordAt(input, e + 2, e + 3, n);
    assert input[e + 3..n] == input[e + 3..];
    EndAt(input, n);
    Chain4(input, e, Token(RightParen, ")", Position(1, e + 2)), e + 1, Token(Comma, ",", Position(1, e + 3)), e + 2,
           WordTokenAt(input, e + 3), n, EndToken(input));
  }

  lemma ComputedTokens(input: string, e: nat)
    requires ComputedAfterGoTo(input, e)
    ensures NoCommentStart(input)
    ensures TokensFrom(input, 0)
         == Lexed([GoToken, ToToken, Token(LeftParen, "(", Position(1, 8)), Token(Integer, input[7..e], Position(1, 9))]
                  + CloseTail(input, e), None)
  {
    NewlineFreeNoComment(input);
    CloseTailTokens(input, e);
    GoToAtStart(input);
    OpenParenAfterGoTo(input);
    NumberAt(input, 7, 7, e);
    ChainPrefix4(input, GoToken, 2, ToToken, 5, Token(LeftParen, "(", Position(1, 8)), 7,
                 Token(Integer, input[7..e], Position(1, 9)), e, Lexed(CloseTail(input, e), None));
  }

  /** `GO TO (label)` followed by `)`, `,`, a word and the end marker. */
  predicate ComputedSequence(ts: seq<Token>, labelText: string) {
    && |ts| == 8 && ts[0] == GoToken && ts[1] == ToToken
    && ts[2] == Token(LeftParen, "(", Position(1, 8)) && ts[3] == Token(Integer, labelText, Position(1, 9))
    && ts[4].kind == RightParen && ts[5].kind == Comma && ts[7].kind == EOF
    && ts[6].kind == WordKind(ts[6].value)
  }

  lemma ComputedSequenceAccepted(ts: seq<Token>, labelText: string)
    requires ComputedSequence(ts, labelText) && IsValidLabel(labelText) && ts[6].kind == Identifier
    ensures ParseStatement(ts) == Success(Computed([labelText], ts[6].value, 1, 8))
  {
    var s := Computed([labelText], ts[6].value, 1, 8);
    assert LabelsAt(ts, 3, [labelText]);
    ParseComplete(ts, s);
  }

  lemma ComputedSequenceKeyword(ts: seq<Token>, labelText: string)
    requires ComputedSequence(ts, labelText) && IsValidLabel(labelText) && ts[6].kind != Identifier
    ensures ParseStatement(ts) == Failure(Raised(MissingExpression(ts[6].position)))
  {
    ParseLabelListComplete(ts, 3, [labelText]);
    assert ParseStatement(ts) == ParseComputed(ts, 2);
  }

  lemma ComputedSequenceBadLabel(ts: seq<Token>, labelText: string)
    requires ComputedSequence(ts, labelText) && !IsValidLabel(labelText)
    ensures ParseStatement(ts) == Failure(Raised(InvalidLabel(Position(1, 9), labelText)))
  {
    assert ParseStatement(ts) == ParseComputed(ts, 2);
  }

  /** The parse of a computed statement with one label: the statement at the
      parenthesis when the label is valid and the word an identifier; the
      invalid-label error when the label is not valid; the missing-expression
      error at the word when it is a keyword. */
  lemma ComputedParse(ts: seq<Token>, labelText: string, tail: seq<Token>)
    requires ts == [GoToken, ToToken, Token(LeftParen, "(", Position(1, 8)), Token(Integer, labelText, Position(1, 9))] + tail
    requires |tail| == 4 && tail[0].kind == RightParen && tail[1].kind == Comma && tail[3].kind == EOF
    requires tail[2].kind == WordKind(tail[2].value)
    ensures IsValidLabel(labelText) && tail[2].kind == Identifier ==>
      ParseStatement(ts) == Success(Computed([labelText], tail[2].value, 1, 8))
    ensures !IsValidLabel(labelText) ==>
      ParseStatement(ts) == Failure(Raised(InvalidLabel(Position(1, 9), labelText)))
    ensures IsValidLabel(labelText) && tail[2].kind != Identifier ==>
      ParseStatement(ts) == Failure(Raised(MissingExpression(tail[2].position)))
  {
    assert ts[6] == tail[2];
    assert ComputedSequence(ts, labelText);
    if !IsValidLabel(labelText) {
      ComputedSequenceBadLabel(ts, labelText);
    } else if tail[2].kind == Identifier {
      ComputedSequenceAccepted(ts, labelText);
    } else {
      ComputedSequenceKeyword(ts, labelText);
    }
  }

  lemma ComputedStatement(input: string, e: nat)
    requires ComputedAfterGoTo(input, e)
    ensures NoCommentStart(input) && TokensFrom(input, 0).error.None?
    ensures var labelText := input[7..e];
      var t := WordTokenAt(input, e + 3);
      var r := ParseStatement(TokensFrom(input, 0).tokens);
      && (IsValidLabel(labelText) && t.kind == Identifier ==> r == Success(Computed([labelText], t.value, 1, 8)))
      && (!IsValidLabel(labelText) ==> r == Failure(Raised(InvalidLabel(Position(1, 9), labelText))))
      && (IsValidLabel(labelText) && t.kind != Identifier ==> r == Failure(Raised(MissingExpression(t.position))))
  {
    ComputedTokens(input, e);
    ComputedParse(TokensFrom(input, 0).tokens, input[7..e], CloseTail(input, e));
  }

  lemma ComputedOutcome(input: string, e: nat, handler: ErrorHandler)
    requires ComputedAfterGoTo(input, e)
    ensures NoCommentStart(input)
    ensures var labelText := input[7..e];
      var t := WordTokenAt(input, e + 3);
      && (IsValidLabel(labelText) && t.kind == Identifier ==>
            ParseString(input, handler).0 == Parsed(Computed([labelText], t.value, 1, 8)))
      && (!IsValidLabel(labelText) ==>
            ParseString(input, handler).0 == Failed(Raised(InvalidLabel(Position(1, 9), labelText))))
      && (IsValidLabel(labelText) && t.kind != Identifier ==>
            ParseString(input, handler).0 == Failed(Raised(MissingExpression(t.position))))
  {
    ComputedStatement(input, e);
    ParseStringOfTokens(input, handler);
  }

  /** `GO TO (10), I`: one label in parentheses, a comma and a word is the
      computed statement at the parenthesis, column 8; an invalid label is
      reported at column 9; a keyword where the expression belongs is the
      missing-expression error at its column, |label| + 12. */
  lemma ComputedLine(input: string, labelText: string, word: string, handler: ErrorHandler)
    requires input == "GO TO (" + labelText + "), " + word
    requires |labelText| >= 1 && AllDigits(labelText)
    requires |word| >= 1 && IsAlpha(word[0]) && AllAlnum(word)
    ensures NoCommentStart(input)
    ensures var w := ToFortranCase(word);
      && (IsValidLabel(labelText) && WordKind(w) == Identifier ==>
            ParseString(input, handler).0 == Parsed(Computed([labelText], w, 1, 8)))
      && (!IsValidLabel(labelText) ==>
            ParseString(input, handler).0 == Failed(Raised(InvalidLabel(Position(1, 9), labelText))))
      && (IsValidLabel(labelText) && WordKind(w) != Identifier ==>
            ParseString(input, handler).0 == Failed(Raised(MissingExpression(Position(1, |labelText| + 12)))))
  {
    var e := ComputedInput(input, labelText, word);
    ComputedOutcome(input, e, handler);
  }

  // ---------------------------------------------------------------------------
  // GO TO (), word

  /** `GO TO (), ` then a word. */
  predicate EmptyListAfterGoTo(input: string) {
    && GoToAt(input) && '\n' !in input && |input| > 10
    && input[6] == '(' && input[7] == ')' && input[8] == ',' && input[9] == ' '
    && IsAlpha(input[10]) && forall i | 10 <= i < |input| :: IsAlnum(input[i])
  }

  lemma EmptyListInput(input: string, word: string)
    requires input == "GO TO (), " + word && |word| >= 1 && IsAlpha(word[0]) && AllAlnum(word)
    ensures EmptyListAfterGoTo(input)
  {
    var rest := "(), " + word;
    assert input == "GO TO " + rest;
    AlnumNewlineFree(word);
    NewlineFreeConcat("(), ", word);
    GoToPrefix(rest, input);
    assert input[6] == '(' && input[7] == ')' && input[8] == ',' && input[9] == ' ';
    forall i | 10 <= i < |input|
      ensures IsAlnum(input[i])
    {
      assert input[i] == word[i - 10];
    }
  }

  lemma EmptyListTokens(input: string)
    requires EmptyListAfterGoTo(input)
    ensures NoCommentStart(input)
    ensures TokensFrom(input, 0) == Lexed([GoToken, ToToken, Token(LeftParen, "(", Position(1, 8))] + CloseTail(input, 7), None)
  {
    NewlineFreeNoComment(input);
    CloseTailTokens(input, 7);
    GoToAtStart(input);
    OpenParenAfterGoTo(input);
    ChainPrefix3(input, GoToken, 2, ToToken, 5, Token(LeftParen, "(", Position(1, 8)), 7, Lexed(CloseTail(input, 7), None));
  }

  /** The parse of `GO`, `TO`, `(` and then anything but a label: the
      unexpected-token error at that token, expecting a label. */
  lemma EmptyListParse(ts: seq<Token>)
    requires |ts| >= 4 && ts[0] == GoToken && ts[1] == ToToken && ts[2].kind == LeftParen
    requires ts[3].kind != Integer
    ensures ParseStatement(ts)
         == Failure(Raised(UnexpectedToken(ts[3].position, ExpectedFirstLabel, ts[3].kind.Name())))
  {
    assert ParseStatement(ts) == ParseComputed(ts, 2);
  }

  /** The token list of an empty label list: `)` right after `(`. */
  lemma EmptyListSequence(input: string, ts: seq<Token>)
    requires |input| >= 10
    requires ts == [GoToken, ToToken, Token(LeftParen, "(", Position(1, 8))] + CloseTail(input, 7)
    ensures |ts| >= 4 && ts[0] == GoToken && ts[1] == ToToken && ts[2].kind == LeftParen
    ensures ts[3] == Token(RightParen, ")", Position(1, 9))
  {
  }

  lemma EmptyListStatement(input: string)
    requires EmptyListAfterGoTo(input)
    ensures NoCommentStart(input) && TokensFrom(input, 0).error.None?
    ensures ParseStatement(TokensFrom(input, 0).tokens)
         == Failure(Raised(UnexpectedToken(Position(1, 9), ExpectedFirstLabel, ")")))
  {
    var ts := TokensFrom(input, 0).tokens;
    EmptyListTokens(input);
    EmptyListSequence(input, ts);
    EmptyListParse(ts);
  }

  lemma EmptyListOutcome(input: string, handler: ErrorHandler)
    requires EmptyListAfterGoTo(input)
    ensures NoCommentStart(input)
    ensures ParseString(input, handler).0 == Failed(Raised(UnexpectedToken(Position(1, 9), ExpectedFirstLabel, ")")))
  {
    EmptyListStatement(input);
    ParseStringOfTokens(input, handler);
  }

  /** `GO TO (), I`: an empty label list is the unexpected-token error at the
      closing parenthesis, column 9, expecting a label. */
  lemma EmptyListLine(input: string, word: string, handler: ErrorHandler)
    requires input == "GO TO (), " + word && |word| >= 1 && IsAlpha(word[0]) && AllAlnum(word)
    ensures NoCommentStart(input)
    ensures ParseString(input, handler).0 == Failed(Raised(UnexpectedToken(Position(1, 9), ExpectedFirstLabel, ")")))
  {
    EmptyListInput(input, word);
    EmptyListOutcome(input, handler);
  }
}
