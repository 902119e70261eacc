/** The recursive-descent parser of parser.js over a token list, with the
    parser's cursor as an index: `i` is the index of the current token, and
    `i == |ts|` stands for the source's `currentToken === null`. Every
    `throw` becomes a `Failure`; the `catch` of `parse` logs it. */
module Parsing {
  import opened Results
  import opened Utils
  import opened ErrorHandling
  import opened Tokens
  import opened MaximalMunch
  import opened Lexing

  /** The three recognised forms, as the records `parse` returns. */
  datatype Statement =
    | Unconditional(labelText: string, line: int, column: int)
    | Computed(labels: seq<string>, expression: string, line: int, column: int)
    | Assigned(expression: string, line: int, column: int)
  {
    /** The `type` field of the record. */
    function Type(): string {
      match this
      case Unconditional(_, _, _) => "unconditional"
      case Computed(_, _, _, _) => "computed"
      case Assigned(_, _, _) => "assigned"
    }
  }

  /** The message of the runtime's `TypeError` when the parser reads the
      position of a `null` current token (V8's wording). */
  const NullPositionMessage: string := "Cannot read properties of null (reading 'position')"

  /** Fixed `expected` texts of the syntax errors. */
  const ExpectedEnd: string := "конец оператора"
  const ExpectedFirstLabel: string := "метка (целое число)"
  const ExpectedLabelAfterComma: string := "метка после запятой"
  const ExpectedTarget: string := "INTEGER, IDENTIFIER или ("

  /** `match`: the current token exists and has the given kind. */
  predicate Matches(ts: seq<Token>, i: nat, kind: TokenType) {
    i < |ts| && ts[i].kind == kind
  }

  /** The position an error reports for the current token; a fresh position
      (line 1, column 1) when there is none. */
  function CurrentPosition(ts: seq<Token>, i: nat): Position {
    if i < |ts| then ts[i].position else Start
  }

  /** The `found` text for the current token: its kind's tag, `EOF` when there
      is none. */
  function CurrentName(ts: seq<Token>, i: nat): string {
    if i < |ts| then ts[i].kind.Name() else "EOF"
  }

  /** The current token ends the statement: there is none, or it is the end
      marker. */
  predicate AtEnd(ts: seq<Token>, i: nat) {
    i >= |ts| || ts[i].kind == EOF
  }

  /** `advance`: move to the next token; past the last one there is no current
      token, and advancing again changes nothing. */
  function Advance(ts: seq<Token>, i: nat): (j: nat)
    requires i <= |ts|
    ensures j <= |ts|
    ensures i < |ts| ==> j == i + 1
    ensures i == |ts| ==> j == i
  {
    if i < |ts| then i + 1 else i
  }

  /** `consume`: take the current token if it has the expected kind, else the
      syntax error "unexpected token" naming the expected and the found kind.
      The optional custom message of the source is never used by it. */
  function Consume(ts: seq<Token>, i: nat, kind: TokenType): (r: Result<(Token, nat), Thrown>)
    requires i <= |ts|
    ensures r.Success? <==> Matches(ts, i, kind)
    ensures r.Success? ==> r.value.0 == ts[i] && r.value.0.kind == kind && r.value.1 == i + 1 <= |ts|
    ensures r.Failure? ==> r.error.Raised? && r.error.diagnostic.ParserError?
    ensures r.Failure? ==> r.error.diagnostic.expected == kind.Name()
    ensures r.Failure? ==> r.error.diagnostic.found == Some(CurrentName(ts, i))
    ensures r.Failure? ==> r.error.diagnostic.position == CurrentPosition(ts, i)
  {
    if Matches(ts, i, kind) then
      Success((ts[i], Advance(ts, i)))
    else
      Failure(Raised(UnexpectedToken(CurrentPosition(ts, i), kind.Name(), CurrentName(ts, i))))
  }

  /** The trailing-token check: anything but the end of the statement is the
      syntax error "unexpected token, expected end of statement". */
  function CheckEnd(ts: seq<Token>, i: nat): (r: Result<(), Thrown>)
    ensures r.Success? <==> AtEnd(ts, i)
    ensures r.Failure? ==>
      i < |ts| && r.error == Raised(UnexpectedToken(ts[i].position, ExpectedEnd, ts[i].kind.Name()))
  {
    if i < |ts| && ts[i].kind != EOF then
      Failure(Raised(UnexpectedToken(ts[i].position, ExpectedEnd, ts[i].kind.Name())))
    else
      Success(())
  }

  /** The error raised where a label is required but the current token is not
      an `INTEGER`: an "unexpected token" naming what was expected, or, with no
      current token at all, the runtime's `TypeError` from reading its
      position. */
  function NotALabel(ts: seq<Token>, i: nat, expected: string): (e: Thrown)
    ensures i >= |ts| <==> e.Other?
    ensures i < |ts| ==> e == Raised(UnexpectedToken(ts[i].position, expected, ts[i].kind.Name()))
  {
    if i < |ts| then Raised(UnexpectedToken(ts[i].position, expected, ts[i].kind.Name()))
    else Other(NullPositionMessage)
  }

  /** `parseUnconditionalGoto`: a valid label and then the end of the
      statement. Its `consume` cannot fail: the current token is the
      `INTEGER` that selected this form. */
  function ParseUnconditional(ts: seq<Token>, i: nat): (r: Result<Statement, Thrown>)
    requires Matches(ts, i, Integer)
    ensures r.Success? <==> IsValidLabel(ts[i].value) && AtEnd(ts, i + 1)
    ensures r.Success? ==> r.value == Unconditional(ts[i].value, ts[i].position.line, ts[i].position.column)
    ensures !IsValidLabel(ts[i].value) ==> r == Failure(Raised(InvalidLabel(ts[i].position, ts[i].value)))
    ensures IsValidLabel(ts[i].value) && r.Failure? ==> r == CheckEnd(ts, i + 1).PropagateFailure()
  {
    var start := ts[i].position;
    var labelToken := ts[i];
    if !IsValidLabel(labelToken.value) then
      Failure(Raised(InvalidLabel(labelToken.position, labelToken.value)))
    else
      var _ :- CheckEnd(ts, Advance(ts, i));
      Success(Unconditional(labelToken.value, start.line, start.column))
  }

  /** The `while` loop of `parseLabelList`: while the current token is a
      comma, skip it and take one more valid label. On success it stopped at
      the first token after the labels taken that is not a comma. */
  function ParseMoreLabels(ts: seq<Token>, i: nat, acc: seq<string>): (r: Result<(seq<string>, nat), Thrown>)
    requires i <= |ts|
    ensures r.Success? ==> |r.value.0| >= |acc|
    ensures r.Success? ==> r.value.1 == i + 2 * (|r.value.0| - |acc|) <= |ts|
    ensures r.Success? ==> !Matches(ts, r.value.1, Comma)
    decreases |ts| - i
  {
    if Matches(ts, i, Comma) then
      var j := Advance(ts, i);
      if !Matches(ts, j, Integer) then
        Failure(NotALabel(ts, j, ExpectedLabelAfterComma))
      else
        var labelToken := ts[j];
        if !IsValidLabel(labelToken.value) then
          Failure(Raised(InvalidLabel(labelToken.position, labelToken.value)))
        else
          ParseMoreLabels(ts, Advance(ts, j), acc + [labelToken.value])
    else
      Success((acc, i))
  }

  /** `parseLabelList`: one or more valid labels separated by commas, ending
      at the first token after a label that is not a comma. */
  function ParseLabelList(ts: seq<Token>, i: nat): (r: Result<(seq<string>, nat), Thrown>)
    requires i <= |ts|
    ensures r.Success? ==> |r.value.0| >= 1 && Matches(ts, i, Integer) && IsValidLabel(ts[i].value)
    ensures r.Success? ==> r.value.1 == i + 2 * |r.value.0| - 1 <= |ts| && !Matches(ts, r.value.1, Comma)
    ensures !Matches(ts, i, Integer) ==> r == Failure(NotALabel(ts, i, ExpectedFirstLabel))
    ensures Matches(ts, i, Integer) && !IsValidLabel(ts[i].value) ==>
      r == Failure(Raised(InvalidLabel(ts[i].position, ts[i].value)))
  {
    if !Matches(ts, i, Integer) then
      Failure(NotALabel(ts, i, ExpectedFirstLabel))
    else
      var labelToken := ts[i];
      if !IsValidLabel(labelToken.value) then
        Failure(Raised(InvalidLabel(labelToken.position, labelToken.value)))
      else
        ParseMoreLabels(ts, Advance(ts, i), [labelToken.value])
  }

  /** `parseComputedGoto`: `(`, a label list, `)`, `,`, then an `INTEGER` or
      `IDENTIFIER` expression and the end of the statement. The expression is
      not validated. The opening `consume` cannot fail: the current token is
      the `(` that selected this form. */
  function ParseComputed(ts: seq<Token>, i: nat): (r: Result<Statement, Thrown>)
    requires Matches(ts, i, LeftParen)
    ensures r.Success? ==> r.value.Computed? && |r.value.labels| >= 1
    ensures r.Success? ==> r.value.line == ts[i].position.line && r.value.column == ts[i].position.column
    ensures r.Success? ==>
      var n := |r.value.labels|;
      && Matches(ts, i + 2 * n, RightParen)
      && Matches(ts, i + 2 * n + 1, Comma)
      && (Matches(ts, i + 2 * n + 2, Integer) || Matches(ts, i + 2 * n + 2, Identifier))
      && ts[i + 2 * n + 2].value == r.value.expression
      && AtEnd(ts, i + 2 * n + 3)
  {
    var start := ts[i].position;
    var list :- ParseLabelList(ts, Advance(ts, i));
    var close :- Consume(ts, list.1, RightParen);
    var comma :- Consume(ts, close.1, Comma);
    var j := comma.1;
    if !Matches(ts, j, Integer) && !Matches(ts, j, Identifier) then
      Failure(Raised(MissingExpression(CurrentPosition(ts, j))))
    else
      var expression := ts[j];
      var _ :- CheckEnd(ts, Advance(ts, j));
      Success(Computed(list.0, expression.value, start.line, start.column))
  }

  /** `parseAssignedGoto`: a valid identifier (at most six characters) and then
      the end of the statement. Its `consume` cannot fail: the current token
      is the `IDENTIFIER` that selected this form. */
  function ParseAssigned(ts: seq<Token>, i: nat): (r: Result<Statement, Thrown>)
    requires Matches(ts, i, Identifier)
    ensures r.Success? <==> IsValidIdentifier(ts[i].value) && AtEnd(ts, i + 1)
    ensures r.Success? ==> r.value == Assigned(ts[i].value, ts[i].position.line, ts[i].position.column)
    ensures !IsValidIdentifier(ts[i].value) ==>
      r == Failure(Raised(InvalidIdentifier(ts[i].position, ts[i].value)))
    ensures IsValidIdentifier(ts[i].value) && r.Failure? ==> r == CheckEnd(ts, i + 1).PropagateFailure()
  {
    var start := ts[i].position;
    var identifier := ts[i];
    if !IsValidIdentifier(identifier.value) then
      Failure(Raised(InvalidIdentifier(identifier.position, identifier.value)))
    else
      var _ :- CheckEnd(ts, Advance(ts, i));
      Success(Assigned(identifier.value, start.line, start.column))
  }

  /** The body of `parse`: `GO`, `TO`, then the form chosen by the third
      token — `(` computed, `INTEGER` unconditional, `IDENTIFIER` assigned. */
  function ParseStatement(ts: seq<Token>): (r: Result<Statement, Thrown>)
    ensures !Matches(ts, 0, GoKeyword) ==>
      r == Failure(Raised(UnexpectedToken(CurrentPosition(ts, 0), "GO", CurrentName(ts, 0))))
    ensures Matches(ts, 0, GoKeyword) && !Matches(ts, 1, ToKeyword) ==>
      r == Failure(Raised(UnexpectedToken(CurrentPosition(ts, 1), "TO", CurrentName(ts, 1))))
    ensures r.Success? ==> Matches(ts, 0, GoKeyword) && Matches(ts, 1, ToKeyword)
    ensures (&& Matches(ts, 0, GoKeyword) && Matches(ts, 1, ToKeyword)
             && !Matches(ts, 2, LeftParen) && !Matches(ts, 2, Integer) && !Matches(ts, 2, Identifier)) ==>
      r == Failure(Raised(UnexpectedToken(CurrentPosition(ts, 2), ExpectedTarget, CurrentName(ts, 2))))
  {
    var go :- Consume(ts, 0, GoKeyword);
    var to :- Consume(ts, go.1, ToKeyword);
    var i := to.1;
    if Matches(ts, i, LeftParen) then ParseComputed(ts, i)
    else if Matches(ts, i, Integer) then ParseUnconditional(ts, i)
    else if Matches(ts, i, Identifier) then ParseAssigned(ts, i)
    else Failure(Raised(UnexpectedToken(CurrentPosition(ts, i), ExpectedTarget, CurrentName(ts, i))))
  }

  /** `parse`: the statement, or `null` with the caught error logged. */
  function Parse(ts: seq<Token>, handler: ErrorHandler): (r: (Option<Statement>, ErrorHandler))
    ensures r.0.Some? <==> ParseStatement(ts).Success?
    ensures r.0.Some? ==> r.0.value == ParseStatement(ts).value && r.1 == handler
    ensures r.0.None? ==> r.1 == handler.AddError(ParseStatement(ts).error)
    ensures r.0.None? ==> r.1.HasErrors()
  {
    match ParseStatement(ts)
    case Success(s) => (Some(s), handler)
    case Failure(e) => (None, handler.AddError(e))
  }

  /** What `parseString` returns: a statement record, the last logged error
      object, or the fallback record for an unknown error. */
  datatype Outcome =
    | Parsed(statement: Statement)
    | Failed(error: Thrown)
    | UnknownFailure(record: ErrorRecord)

  /** The fallback record of `parseString`. */
  const UnknownErrorRecord: ErrorRecord := ErrorRecord("Неизвестная ошибка при разборе", 1, 1, NoFields, false)

  /** `parseString`: scan the line (which clears the log), return the lexical
      error if one was logged, else parse and return the statement or the
      logged syntax or semantic error. The fallback branch is unreachable: a
      failed parse always logs its error. */
  function ParseString(input: string, handler: ErrorHandler): (r: (Outcome, ErrorHandler))
    requires NoCommentStart(input)
    ensures !r.0.UnknownFailure?
    ensures Lex(input).error.Some? ==> r.0 == Failed(Raised(Lex(input).error.value))
    ensures Lex(input).error.None? ==>
      (r.0.Parsed? <==> ParseStatement(Lex(input).tokens).Success?)
    ensures Lex(input).error.None? && r.0.Parsed? ==> r.0.statement == ParseStatement(Lex(input).tokens).value
    ensures Lex(input).error.None? && r.0.Failed? ==> r.0.error == ParseStatement(Lex(input).tokens).error
    ensures r.0.Failed? ==> r.1.errors == [r.0.error]
    ensures r.0.Parsed? ==> r.1.errors == []
  {
    var (tokens, scanned) := Tokenize(input, handler);
    if scanned.HasErrors() then
      (Failed(scanned.GetLastError().value), scanned)
    else
      var (result, parsed) := Parse(tokens, scanned);
      if result.Some? then (Parsed(result.value), parsed)
      else if parsed.HasErrors() then (Failed(parsed.GetLastError().value), parsed)
      else (UnknownFailure(UnknownErrorRecord), parsed)
  }
}
