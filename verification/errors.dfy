/** The diagnostics of the recognizer (error-handler.js): three error kinds, the
    factory that builds them with fixed message templates, their flat JSON
    rendering, and the error log. */
module ErrorHandling {
  import opened Results
  import opened Utils

  /** The `details` object of a semantic error: `{label}` or `{identifier}`. */
  datatype Details = LabelDetails(labelText: string) | IdentifierDetails(identifier: string)

  /** A raised error. `ParserError` is the syntax kind, `LexerError` the lexical
      kind and `SemanticError` the semantic kind. */
  datatype Diagnostic =
    | ParserError(message: string, position: Position, expected: string, found: Option<string>)
    | LexerError(message: string, position: Position, offending: char)
    | SemanticError(message: string, position: Position, details: Details)
  {
    /** The `type` tag each error class sets in its constructor. */
    function Kind(): string {
      match this
      case ParserError(_, _, _, _) => "syntax"
      case LexerError(_, _, _) => "lexical"
      case SemanticError(_, _, _) => "semantic"
    }

    /** `toJSON`: the message, the position's line and column, the
        kind-specific fields and `success = false`. */
    function ToJSON(): (r: ErrorRecord)
      ensures !r.success
      ensures r.error == message
      ensures r.line == position.line && r.column == position.column
      ensures ParserError? <==> r.fields.SyntaxFields?
      ensures LexerError? <==> r.fields.LexicalFields?
      ensures SemanticError? <==> r.fields.SemanticFields?
      ensures ParserError? ==> r.fields == SyntaxFields(expected, found)
      ensures LexerError? ==> r.fields == LexicalFields(offending)
      ensures SemanticError? ==> r.fields == SemanticFields(details)
    {
      match this
      case ParserError(m, p, e, f) => ErrorRecord(m, p.line, p.column, SyntaxFields(e, f), false)
      case LexerError(m, p, c) => ErrorRecord(m, p.line, p.column, LexicalFields(c), false)
      case SemanticError(m, p, d) => ErrorRecord(m, p.line, p.column, SemanticFields(d), false)
    }
  }

  /** The fields a failure record carries besides message and position. */
  datatype ErrorFields =
    | SyntaxFields(expected: string, found: Option<string>)
    | LexicalFields(offending: char)
    | SemanticFields(details: Details)
    | NoFields

  /** The flat failure record `{error, line, column, ..., success}`. */
  datatype ErrorRecord = ErrorRecord(error: string, line: int, column: int, fields: ErrorFields, success: bool)

  function CharText(c: char): string {
    [c]
  }

  /** `ErrorFactory.unexpectedToken`. */
  function UnexpectedToken(p: Position, expected: string, found: string): (e: Diagnostic)
    ensures e.position == p && e.ParserError? && e.expected == expected && e.found == Some(found)
  {
    ParserError("Неожиданный токен. Ожидалось: " + expected + ", получено: " + found, p, expected, Some(found))
  }

  /** `ErrorFactory.missingToken`. */
  function MissingToken(p: Position, expected: string): (e: Diagnostic)
    ensures e.position == p && e.ParserError? && e.expected == expected && e.found == None
  {
    ParserError("Пропущен токен: " + expected, p, expected, None)
  }

  /** `ErrorFactory.invalidLabel`. */
  function InvalidLabel(p: Position, labelText: string): (e: Diagnostic)
    ensures e.position == p && e.SemanticError? && e.details == LabelDetails(labelText)
  {
    SemanticError("Недопустимая метка: " + labelText + ". Метка должна быть целым числом от 1 до 99999",
                  p, LabelDetails(labelText))
  }

  /** The semantic error `parseAssignedGoto` raises for an over-long identifier
      (built directly, not through the factory). */
  function InvalidIdentifier(p: Position, identifier: string): (e: Diagnostic)
    ensures e.position == p && e.SemanticError? && e.details == IdentifierDetails(identifier)
  {
    SemanticError("Недопустимый идентификатор: " + identifier, p, IdentifierDetails(identifier))
  }

  /** `ErrorFactory.invalidCharacter`. */
  function InvalidCharacter(p: Position, c: char): (e: Diagnostic)
    ensures e.position == p && e.LexerError? && e.offending == c
  {
    LexerError("Недопустимый символ: " + CharText(c), p, c)
  }

  /** The fixed `expected` text of a missing expression. */
  const ExpectedExpression: string := "выражение (метка или переменная)"

  /** `ErrorFactory.missingExpression`. */
  function MissingExpression(p: Position): (e: Diagnostic)
    ensures e.position == p && e.ParserError? && e.expected == ExpectedExpression && e.found == None
  {
    ParserError("Пропущено выражение после запятой", p, ExpectedExpression, None)
  }

  /** Each factory template builds an error of the kind its class tags, and
      renders to a failure record at the given position with exactly the
      fields of that kind. */
  lemma FactoryRecords(p: Position, expected: string, found: string, labelText: string, identifier: string, c: char)
    ensures UnexpectedToken(p, expected, found).Kind() == "syntax"
    ensures MissingToken(p, expected).Kind() == "syntax"
    ensures MissingExpression(p).Kind() == "syntax"
    ensures InvalidLabel(p, labelText).Kind() == "semantic"
    ensures InvalidIdentifier(p, identifier).Kind() == "semantic"
    ensures InvalidCharacter(p, c).Kind() == "lexical"
    ensures UnexpectedToken(p, expected, found).ToJSON()
      == ErrorRecord(UnexpectedToken(p, expected, found).message, p.line, p.column,
                     SyntaxFields(expected, Some(found)), false)
    ensures MissingToken(p, expected).ToJSON().fields == SyntaxFields(expected, None)
    ensures MissingExpression(p).ToJSON().fields == SyntaxFields(ExpectedExpression, None)
    ensures InvalidLabel(p, labelText).ToJSON()
      == ErrorRecord(InvalidLabel(p, labelText).message, p.line, p.column,
                     SemanticFields(LabelDetails(labelText)), false)
    ensures InvalidCharacter(p, c).ToJSON()
      == ErrorRecord(InvalidCharacter(p, c).message, p.line, p.column, LexicalFields(c), false)
  {
  }

  /** Whatever may be thrown and caught: one of the three error kinds, or any
      other error object (a `TypeError` of the runtime), of which only the
      message is known. */
  datatype Thrown = Raised(diagnostic: Diagnostic) | Other(message: string)

  /** The message of the runtime's `TypeError` when `toJSON` is called on an
      error object that lacks it (V8's wording). */
  const MissingToJSONMessage: string := "error.toJSON is not a function"

  /** The error log: caught errors in the order they were added. */
  datatype ErrorHandler = ErrorHandler(errors: seq<Thrown>) {

    function AddError(e: Thrown): (h: ErrorHandler)
      ensures h.HasErrors() && h.GetLastError() == Some(e)
      ensures |h.errors| == |errors| + 1 && h.errors[..|errors|] == errors
    {
      ErrorHandler(errors + [e])
    }

    function Clear(): (h: ErrorHandler)
      ensures !h.HasErrors() && h.GetLastError() == None
    {
      ErrorHandler([])
    }

    predicate HasErrors() {
      |errors| > 0
    }

    /** The most recently added error, if any. */
    function GetLastError(): (r: Option<Thrown>)
      ensures r.Some? <==> HasErrors()
      ensures r.Some? ==> r.value in errors
      ensures r.Some? ==> r.value == errors[|errors| - 1]
    {
      if |errors| > 0 then Some(errors[|errors| - 1]) else None
    }

    /** Every logged error as its record, in order. Only the three error kinds
        have `toJSON`: once any other error is logged, the source's `map`
        throws the runtime's `TypeError`, returned here as the failure. */
    function GetAllErrors(): (r: Result<seq<ErrorRecord>, Thrown>)
      ensures r.Success? <==> forall k | 0 <= k < |errors| :: errors[k].Raised?
      ensures r.Failure? ==> r.error == Other(MissingToJSONMessage)
      ensures r.Success? ==> |r.value| == |errors|
      ensures r.Success? ==> forall k | 0 <= k < |r.value| ::
        !r.value[k].success && r.value[k].error == errors[k].diagnostic.message
        && r.value[k].line == errors[k].diagnostic.position.line
        && r.value[k].column == errors[k].diagnostic.position.column
      ensures r.Success? ==> forall k | 0 <= k < |r.value| ::
        r.value[k] == errors[k].diagnostic.ToJSON()
    {
      if forall k | 0 <= k < |errors| :: errors[k].Raised? then
        Success(seq(|errors|, k requires 0 <= k < |errors| && errors[k].Raised? =>
          errors[k].diagnostic.ToJSON()))
      else
        Failure(Other(MissingToJSONMessage))
    }

    /** The record shown to the user: `toJSON` for the three known kinds, and
        otherwise the message placed at line 1, column 1. */
    function FormatErrorForDisplay(e: Thrown): (r: ErrorRecord)
      ensures !r.success
      ensures e.Raised? ==> r == e.diagnostic.ToJSON()
      ensures e.Other? ==> r.line == 1 && r.column == 1 && r.error == e.message && r.fields == NoFields
    {
      match e
      case Raised(d) => d.ToJSON()
      case Other(m) => ErrorRecord(m, 1, 1, NoFields, false)
    }
  }

  /** Clearing and then logging one error leaves exactly that error as the
      last (and only) one, whatever was logged before. */
  lemma ClearThenAdd(h: ErrorHandler, e: Thrown)
    ensures h.Clear().AddError(e).errors == [e]
    ensures h.Clear().AddError(e).GetLastError() == Some(e)
  {
  }
}
