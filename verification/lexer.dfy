/** The scanner of lexer.js as an immutable record threaded through pure
    functions. The record holds the source's `input`, `index`, `position` and
    `currentChar`; each function returns the record the corresponding method
    would leave behind. The source's `tokens` array is the list `TokenizeFrom`
    accumulates, its `startPosition` is the local `start` of the functions
    that read a token, and its `inComment` flag, written but never read, has
    no counterpart. */
module Lexing {
  import opened Results
  import opened Utils
  import opened ErrorHandling
  import opened Tokens
  import opened MaximalMunch

  /** Scanner state. `index` is the index of the next character to read,
      `current` the character most recently read (`None` once the input is
      exhausted), and `position` has already moved past `current`. */
  datatype Lexer = Lexer(input: seq<char>, index: nat, position: Position, current: Option<char>) {

    /** The states the scanner can be in once constructed. */
    predicate Valid() {
      && index <= |input|
      && position == PosAfter(input[..index])
      && (current.Some? ==> 1 <= index && current.value == input[index - 1])
      && (current.None? ==> index == |input|)
    }

    /** Index of the current character; `|input|` once the input is exhausted. */
    function Here(): (h: nat)
      requires Valid()
      ensures h <= |input|
      ensures h < |input| <==> current.Some?
      ensures current.Some? ==> current.value == input[h]
    {
      if current.Some? then index - 1 else |input|
    }

    /** The position held is the reference position of the current character. */
    lemma PositionIsPosAt()
      requires Valid()
      ensures position == PosAt(input, Here())
    {
      if current.None? {
        assert input[..index] == input;
      }
    }

    /** `advance`: read the next character, moving the position past it, or
        record that the input is exhausted. The comment check of the source
        never fires on a line satisfying `NoCommentStart`; on any other line
        the source recurses without bound. */
    function Advance(): (r: Lexer)
      requires index <= |input| && position == PosAfter(input[..index])
      requires NoCommentStart(input)
      ensures r.Valid() && r.input == input
      ensures index < |input| ==> r.index == index + 1 && r.current == Some(input[index])
      ensures index == |input| ==> r.index == index && r.current.None?
    {
      if index < |input| then
        var c := input[index];
        NoCommentAt(input, index);
        assert input[..index + 1][..index] == input[..index];
        Lexer(input, index + 1, position.Advance(c), Some(c))
      else
        this.(current := None)
    }

    /** Advancing from a valid state moves the current character one to the
        right, and stays put at the end of the input. */
    lemma AdvanceHere()
      requires Valid() && NoCommentStart(input)
      ensures Advance().Here() == if current.Some? then Here() + 1 else Here()
    {
    }

    /** `skipWhitespace`: advance while the current character is whitespace. */
    function SkipWhitespace(): (r: Lexer)
      requires Valid() && NoCommentStart(input)
      ensures r.Valid() && r.input == input
      ensures r.Here() == RunEnd(input, Here(), IsWhitespace)
      decreases |input| - Here()
    {
      if current.Some? && IsWhitespace(current.value) then
        AdvanceHere();
        Advance().SkipWhitespace()
      else
        this
    }

    /** The digit loop of `makeNumber`: the digits read and the state after
        them. */
    function ScanDigits(): (r: (string, Lexer))
      requires Valid() && NoCommentStart(input)
      ensures r.1.Valid() && r.1.input == input
      ensures r.1.Here() == RunEnd(input, Here(), IsDigit)
      ensures r.0 == input[Here()..r.1.Here()]
      decreases |input| - Here()
    {
      if current.Some? && IsDigit(current.value) then
        AdvanceHere();
        RunEndStep(input, Here(), IsDigit);
        var (rest, after) := Advance().ScanDigits();
        ([current.value] + rest, after)
      else
        ([], this)
    }

    /** The letter-or-digit loop of `makeIdentifierOrKeyword`. */
    function ScanWord(): (r: (string, Lexer))
      requires Valid() && NoCommentStart(input)
      ensures r.1.Valid() && r.1.input == input
      ensures r.1.Here() == RunEnd(input, Here(), IsAlnum)
      ensures r.0 == input[Here()..r.1.Here()]
      decreases |input| - Here()
    {
      if current.Some? && IsAlnum(current.value) then
        AdvanceHere();
        RunEndStep(input, Here(), IsAlnum);
        var (rest, after) := Advance().ScanWord();
        ([current.value] + rest, after)
      else
        ([], this)
    }

    /** `makeNumber`: a maximal digit run becomes an `INTEGER` recorded at the
        run's first character; a letter right after the run is a lexical error
        at that letter, any other character is left for the next token. */
    function MakeNumber(): (r: Result<(Token, Lexer), Diagnostic>)
      requires Valid() && NoCommentStart(input)
      requires current.Some? && IsDigit(current.value)
      ensures var e := RunEnd(input, Here(), IsDigit);
        && (r.Success? <==> e == |input| || !IsAlpha(input[e]))
        && (r.Success? ==>
              && r.value.0 == Token(Integer, input[Here()..e], position)
              && r.value.1.Valid() && r.value.1.input == input && r.value.1.Here() == e)
        && (r.Failure? ==> r.error == InvalidCharacter(PosAt(input, e), input[e]))
    {
      var start := position;
      var (digits, after) := ScanDigits();
      after.PositionIsPosAt();
      if after.current.Some?
         && !IsWhitespace(after.current.value)
         && after.current.value != ','
         && after.current.value != ')'
      then
        if IsAlpha(after.current.value) then
          Failure(InvalidCharacter(after.position, after.current.value))
        else
          Success((Token(Integer, digits, start), after))
      else
        Success((Token(Integer, digits, start), after))
    }

    /** `makeIdentifierOrKeyword`: a maximal letter-led alphanumeric run,
        upper-cased, recorded at the run's first character, and classified as
        `GO`, `TO` or `IDENTIFIER`. */
    function MakeIdentifierOrKeyword(): (r: (Token, Lexer))
      requires Valid() && NoCommentStart(input)
      requires current.Some? && IsAlpha(current.value)
      ensures var e := RunEnd(input, Here(), IsAlnum);
        && r.0.value == ToFortranCase(input[Here()..e])
        && r.0.position == position
        && r.0.kind == WordKind(r.0.value)
        && r.1.Valid() && r.1.input == input && r.1.Here() == e
    {
      var start := position;
      var (word, after) := ScanWord();
      var upper := ToFortranCase(word);
      if upper == "GO" then (Token(GoKeyword, upper, start), after)
      else if upper == "TO" then (Token(ToKeyword, upper, start), after)
      else (Token(Identifier, upper, start), after)
    }

    /** `getNextToken`: skip whitespace, then scan one token, or the end marker
        at the position after the whole line. It produces exactly the token
        that the index-based reference finds at the current character. */
    function GetNextToken(): (r: Result<(Token, Lexer), Diagnostic>)
      requires Valid() && NoCommentStart(input)
      ensures var expected := TokenAt(input, Here());
        && (expected.Failure? ==> r == Failure(expected.error))
        && (expected.Success? ==>
              && r.Success? && r.value.0 == expected.value.0
              && r.value.1.Valid() && r.value.1.input == input && r.value.1.Here() == expected.value.1)
      decreases |input| - Here()
    {
      PositionIsPosAt();
      if current.None? then
        Success((Token(EOF, "", position), this))
      else if IsWhitespace(current.value) then
        TokenAtAfterWhitespace(input, Here());
        SkipWhitespace().GetNextToken()
      else
        assert TokenAt(input, Here()) == TokenStartingAt(input, Here());
        if IsDigit(current.value) then
          MakeNumber()
        else if IsAlpha(current.value) then
          Success(MakeIdentifierOrKeyword())
        else
          var start := position;
          var c := current.value;
          AdvanceHere();
          match c
          case '(' => Success((Token(LeftParen, "(", start), Advance()))
          case ')' => Success((Token(RightParen, ")", start), Advance()))
          case ',' => Success((Token(Comma, ",", start), Advance()))
          case _ => Failure(InvalidCharacter(position, c))
    }
  }

  /** The constructor: a fresh scanner at line 1, column 1 that has already
      read the first character. */
  function NewLexer(input: seq<char>): (lx: Lexer)
    requires NoCommentStart(input)
    ensures lx.Valid() && lx.input == input && lx.Here() == 0
  {
    Lexer(input, 0, Start, None).Advance()
  }

  /** The loop of `tokenize`: collect tokens until the end marker, stopping at
      the first lexical error with the tokens collected so far. */
  function TokenizeFrom(lx: Lexer, acc: seq<Token>): (r: Lexed)
    requires lx.Valid() && NoCommentStart(lx.input)
    ensures r == Lexed(acc + TokensFrom(lx.input, lx.Here()).tokens, TokensFrom(lx.input, lx.Here()).error)
    decreases |lx.input| - lx.Here()
  {
    var expected := TokenAt(lx.input, lx.Here());
    var r := lx.GetNextToken();
    if r.Failure? then
      assert expected.Failure?;
      Lexed(acc, Some(r.error))
    else
      var (t, next) := r.value;
      assert expected.Success? && expected.value == (t, next.Here());
      if t.kind == EOF then Lexed(acc + [t], None)
      else
        var rest := TokensFrom(lx.input, next.Here());
        assert TokensFrom(lx.input, lx.Here()) == Lexed([t] + rest.tokens, rest.error);
        assert acc + [t] + rest.tokens == acc + ([t] + rest.tokens);
        TokenizeFrom(next, acc + [t])
  }

  /** Scanning a whole line from a fresh scanner. */
  function Lex(input: seq<char>): (r: Lexed)
    requires NoCommentStart(input)
    ensures r == TokensFrom(input, 0)
  {
    TokenizeFrom(NewLexer(input), [])
  }

  /** `tokenize` together with its effect on the error log: the log is
      cleared, and the lexical error, if scanning met one, is logged. */
  function Tokenize(input: seq<char>, handler: ErrorHandler): (r: (seq<Token>, ErrorHandler))
    requires NoCommentStart(input)
    ensures r.0 == TokensFrom(input, 0).tokens
    ensures r.1.HasErrors() <==> TokensFrom(input, 0).error.Some?
    ensures TokensFrom(input, 0).error.None? ==> r.1.errors == []
    ensures TokensFrom(input, 0).error.Some? ==> r.1.errors == [Raised(TokensFrom(input, 0).error.value)]
  {
    var lexed := Lex(input);
    var cleared := handler.Clear();
    (lexed.tokens, if lexed.error.Some? then cleared.AddError(Raised(lexed.error.value)) else cleared)
  }
}
