# FORTRAN `GO TO` recognizer — a Dafny model

This project models the single-line recognizer for FORTRAN `GO TO`
statements, and proves properties of that model. The recognizer has four
parts that work as one pipeline:

- **Positions and validators** (`Utils`):
  - the line/column `Position`;
  - the character classes;
  - the label validator `isValidLabel` and the identifier validator
    `isValidIdentifier`;
  - the upper-casing `toFortranCase`.
- **Scanner** (`Lexing`, checked against `MaximalMunch`):
  - the `Lexer` is an immutable record holding the source's `input`, `index`,
    `position` and `currentChar`. The source's `tokens` array is the list that
    `TokenizeFrom` accumulates and `Lex` returns. Its `startPosition` is a
    local `start` inside the functions that read a token. Its `inComment` flag
    is only ever set and never read, so it has no counterpart;
  - each method becomes a pure function returning the record it leaves
    behind;
  - `MaximalMunch` is an index-based reference that says which token starts
    where, and `GetNextToken` and `Lex` are proved to compute exactly that.
- **Parser** (`Parsing`):
  - recursive descent over a `seq<Token>`, with an index cursor;
  - `GO`, `TO`, then a computed, unconditional or assigned form, chosen by
    the third token;
  - every `throw` becomes a `Failure`.
- **Diagnostics** (`ErrorHandling`):
  - three error kinds, with the factory's message templates;
  - their JSON records;
  - the error log, as a value.

`parseString` is `Parsing.ParseString`. The error log is global in the source.
Here it is passed in and returned, so the "unknown error" fallback of
`parseString` can be proved unreachable.

The lemma modules state what the pipeline guarantees:

- **`LexerProperties`**:
  - the token found for each kind of character run;
  - that the end marker is last;
  - that no character is dropped;
  - the column of every token;
  - case-insensitivity.
- **`ParserProperties`**:
  - a grammar `Accepts`, proved equivalent to the parser;
  - which error comes first in a label list;
  - that on the scanner's output the parser never reads past the last token.
- **`Scenarios`** proves whole lines end to end, from text to `parseString`
  result, for the lines the repository's own test list uses:
  - `GO TO 100`
  - `GO 100`
  - `GO TO`
  - `GO TO 123ABC`
  - `GO TO #100`
  - `GO TO 100 EXTRA`
  - `GO TO VAR`
  - `GO TO (100), X`
  - `GO TO (), I`

  Each is proved for every label, word or offending character of that shape,
  not just the one instance.

Columns follow the code. The scanner moves its position past a character as
soon as that character becomes current. A token therefore records a column one
more than its character's own 1-based column. On a one-line input, the token
starting at 0-based index `k` records column `k + 2`, and the end marker
records `|input| + 1`.

So in `GO 100` the label `100`, whose first character stands at column 4, is
reported at column 5, where `TO` was expected.

## Model

| member | source | states |
|---|---|---|
| Utils.Position.Advance | utils.js:11-18 | a newline moves to the next line at column 1; any other character moves one column right on the same line |
| Utils.PosAfterLine | utils.js:11-18 | the line reached after consuming a text is one plus the number of newlines in it |
| Utils.ColumnOneAtLineStart | utils.js:49-51 | the column is 1 exactly at the start of the text or right after a newline, so those are the only places a `C`/`c` is taken for a comment |
| Utils.PosAfterNewlineFree | utils.js:11-18 | on text without newlines the position is line 1, column = number of characters consumed + 1 |
| Utils.CharClassesDisjoint | utils.js:28-44 | letters and digits are disjoint, and neither is whitespace or `(`, `)`, `,` |
| Utils.IsAlpha | utils.js:28-30 | holds exactly for the ASCII letters `a`–`z` and `A`–`Z`; a definition without a contract, related to the other classes by `CharClassesDisjoint` |
| Utils.IsDigit | utils.js:35-37 | holds exactly for `0`–`9`; a definition without a contract, related to the other classes by `CharClassesDisjoint` |
| Utils.IsWhitespace | utils.js:42-44 | holds exactly for the characters of JavaScript's `\s` class, ASCII and Unicode; a definition without a contract, related to the other classes by `CharClassesDisjoint` |
| Utils.IsCommentStart | utils.js:49-51 | a `C` or `c` while the column is 1; a definition without a contract, and `ColumnOneAtLineStart` says where column 1 occurs |
| Utils.LabelPatternInRange | utils.js:56-60 | the label pattern alone (1–5 digits, first not `0`) forces the value into [1, 99999], so the numeric test never rejects anything |
| Utils.IsValidLabel | utils.js:56-60 | the label pattern (1–5 digits, first not `0`) together with the numeric range [1, 99999]; a definition without a contract, characterised by `ValidLabelIff` |
| Utils.ValidLabelIff | utils.js:56-60 | a label is valid if and only if it is 1 to 5 digits without a leading zero |
| Utils.InvalidLabels | utils.js:56-60 | `0`, any string with a leading zero and any string of 6 or more characters (e.g. `100000`) are rejected; `1` and `99999` are accepted |
| Utils.IsValidIdentifier | utils.js:65-67 | 1 to 6 characters, a letter first and letters or digits after; a definition without a contract, characterised on scanned words by `IdentifierValidIffShort` |
| Utils.IdentifierValidIffShort | utils.js:65-67 | a letter-led alphanumeric word is a valid identifier if and only if it has at most 6 characters |
| Utils.UpperCharPreservesClasses | utils.js:72-74 | upper-casing a character keeps it a letter, digit or whitespace exactly when it was one; it creates no newline and no comment letter; non-letters are unchanged |
| Utils.ToFortranCase | utils.js:72-74 | upper-casing keeps the length of the text |
| Utils.FortranCaseUpper | utils.js:72-74 | after upper-casing no lower-case ASCII letter is left, and each character is either kept or is a lower-case letter replaced by its upper-case form |
| Utils.FortranCaseOnAlnum | utils.js:72-74 | on letters and digits `toFortranCase` keeps the length and every digit, maps each letter to its upper-case form, and is idempotent |
| Utils.FortranCaseIdempotent | utils.js:72-74 | upper-casing twice is upper-casing once |
| Tokens.WordKind | lexer.js:122-129 | a scanned word is the `GO` keyword if and only if it is `GO`, the `TO` keyword if and only if it is `TO`, and an identifier otherwise |
| Tokens.NameInjective | lexer.js:18-27 | two token kinds have the same tag string if and only if they are the same kind |
| ErrorHandling.Diagnostic.ToJSON | error-handler.js:5-64 | each error renders to a record with `success = false`, its message, and its position's line and column; syntax errors add expected/found, lexical errors add the character, semantic errors add the details, and no kind gets another kind's fields |
| ErrorHandling.UnexpectedToken | error-handler.js:71-78 | a syntax error at the given position, with the given expected and found texts |
| ErrorHandling.MissingToken | error-handler.js:80-87 | a syntax error at the given position, with the given expected text and no found text |
| ErrorHandling.InvalidLabel | error-handler.js:89-95 | a semantic error at the given position, whose details are `{label}` |
| ErrorHandling.InvalidIdentifier | parser.js:192-198 | a semantic error at the given position, whose details are `{identifier}` |
| ErrorHandling.InvalidCharacter | error-handler.js:97-103 | a lexical error at the given position, carrying the offending character |
| ErrorHandling.MissingExpression | error-handler.js:105-112 | a syntax error at the given position, expecting "выражение (метка или переменная)", with no found text |
| ErrorHandling.FactoryRecords | error-handler.js:70-112 | each factory template builds an error of the kind its class tags (syntax, semantic or lexical), and renders to a failure record at the given position carrying exactly that kind's fields |
| ErrorHandling.ErrorHandler.AddError | error-handler.js:132-134 | after adding an error the log has errors, the last error is that one, and the earlier errors are kept in order |
| ErrorHandling.ErrorHandler.Clear | error-handler.js:136-138 | after clearing there are no errors and no last error |
| ErrorHandling.ErrorHandler.HasErrors | error-handler.js:140-142 | true exactly when the log is non-empty; a definition without a contract, whose behaviour under adding and clearing `AddError`, `Clear` and `GetLastError` state |
| ErrorHandling.ErrorHandler.GetLastError | error-handler.js:144-146 | there is a last error exactly when the log is non-empty, and it is the most recently added one |
| ErrorHandling.ErrorHandler.GetAllErrors | error-handler.js:148-150 | it succeeds if and only if every logged error is one of the three error kinds, giving one failure record per logged error, in order: that error's own `toJSON` record, with its message, line, column and every field of its kind (expected/found, the character, or the details); with any other error logged it fails with the runtime's `TypeError` for the missing `toJSON` |
| ErrorHandling.ErrorHandler.FormatErrorForDisplay | error-handler.js:152-164 | the three error kinds render through `toJSON`; any other error becomes a failure record with its message at line 1, column 1 |
| ErrorHandling.ClearThenAdd | error-handler.js:132-146 | clearing and then adding one error leaves exactly that error, which is the last one |
| MaximalMunch.NoCommentAt | lexer.js:41-56 | on a line without a `C`/`c` at a line start, the comment check of `advance` never fires |
| MaximalMunch.PosAtNewlineFree | lexer.js:41-56 | on a one-line input, the character at index `k` is recorded at line 1, column `k + 2`, and the end of input at column `|input| + 1` |
| MaximalMunch.RunEnd | lexer.js:85-88 | the end of a character run is the first index not in the run class (or the end of input), and every character before it is in the class |
| MaximalMunch.RunEndUnique | lexer.js:113-117 | a run end is determined by those two properties |
| MaximalMunch.TokenAt | lexer.js:132-173 | scanning never moves backwards: a token other than the end marker resumes strictly after the index scanning started from, the end marker resumes at the end of input, and every failure is a lexical error |
| MaximalMunch.TokenStartingAt | lexer.js:139-168 | the same, for a token that starts exactly at a non-whitespace character or at the end of input |
| MaximalMunch.TokenAtAfterWhitespace | lexer.js:133-138 | whitespace before a token does not change the token found |
| MaximalMunch.TokensFrom | lexer.js:175-193 | scanning from an index yields at most one token per remaining character plus the end marker, and at least one token when no error stops it |
| Lexing.Lexer.PositionIsPosAt | lexer.js:41-56 | the scanner's position is always the reference position of its current character |
| Lexing.Lexer.Advance | lexer.js:41-56 | reading moves the index one character and makes that character current; at the end of input the current character becomes none and the index stays |
| Lexing.Lexer.SkipWhitespace | lexer.js:68-72 | skipping stops at the first non-whitespace character at or after the current one |
| Lexing.Lexer.ScanDigits | lexer.js:85-88 | the digit loop collects exactly the maximal digit run starting at the current character and stops right after it |
| Lexing.Lexer.ScanWord | lexer.js:113-117 | the word loop collects exactly the maximal letter-or-digit run starting at the current character and stops right after it |
| Lexing.Lexer.MakeNumber | lexer.js:81-107 | it fails exactly when the digit run is directly followed by a letter, with the lexical error at that letter; otherwise it returns an `INTEGER` token with the run's text at the run's start and resumes after the run |
| Lexing.Lexer.MakeIdentifierOrKeyword | lexer.js:109-130 | the token is the maximal alphanumeric run, upper-cased, at the run's start, classified as `GO`, `TO` or identifier, and scanning resumes after the run |
| Lexing.Lexer.GetNextToken | lexer.js:132-173 | it returns exactly the token, resume index and error that the index-based reference finds at the current character |
| Lexing.NewLexer | lexer.js:30-39 | a fresh scanner is in a valid state with the first character current |
| Lexing.TokenizeFrom | lexer.js:179-190 | the loop appends exactly the reference's tokens from the current character to those collected so far, and stops with the reference's error |
| Lexing.Lex | lexer.js:175-193 | scanning a line yields exactly the reference token list and error from index 0 |
| Lexing.Tokenize | lexer.js:175-193 | it returns the reference tokens, clears the log, and logs exactly the lexical error if there is one |
| LexerProperties.EndMarkerToken | lexer.js:172 | with only whitespace left, the token is the end marker at the position after the whole input |
| LexerProperties.NumberToken | lexer.js:81-107 | a maximal digit run not followed by a letter is one `INTEGER` token with exactly those digits, at the run's start, and scanning resumes after it |
| LexerProperties.NumberGluedToLetter | lexer.js:91-104 | a digit run directly followed by a letter is the lexical error carrying that letter, at that letter's position |
| LexerProperties.NumberBeforeNonLetter | lexer.js:91-106 | a digit run followed by a non-letter such as `(`, `#`, whitespace, `,` or `)` is still an `INTEGER`, and that character is left for the next token |
| LexerProperties.WordToken | lexer.js:109-130 | a maximal letter-led alphanumeric run is one token: the upper-cased run, at the run's start, of the kind `WordKind` gives |
| LexerProperties.PunctuationToken | lexer.js:150-163 | `(`, `)` and `,` are one-character tokens of their own kind, at their own position |
| LexerProperties.InvalidCharacterError | lexer.js:164-168 | any other non-whitespace character is the lexical error carrying that character, at its position |
| LexerProperties.TokenSpan | lexer.js:132-173 | the token found from an index sits after a whitespace run, and its text is the characters it spans, upper-cased for words |
| LexerProperties.TokenAtWellFormed | lexer.js:81-168 | each token's text matches its kind: digits for `INTEGER`; an upper-case word other than `GO`/`TO` for identifiers; the keyword itself; the punctuation character itself |
| LexerProperties.TokensFromShape | lexer.js:175-193 | every token is well-formed; without an error, exactly one end marker is produced, as the last token; after an error, no end marker is produced |
| LexerProperties.LexShape | lexer.js:175-193 | `tokenize` on a comment-free line stops: either the end marker is the last and only end-marker token, or the lexical error is reported with no end marker |
| LexerProperties.TokenCanonical | lexer.js:132-173 | each token's text is what it scanned, without whitespace and upper-cased |
| LexerProperties.TokensFromSpelling | lexer.js:132-193 | on success, the token texts concatenated in order are the rest of the input with whitespace removed and letters upper-cased |
| LexerProperties.LexSpellsInput | lexer.js:175-193 | no character is dropped or invented: the tokens of a successfully scanned line spell the line without whitespace, upper-cased |
| LexerProperties.SpellingInAlphabet | lexer.js:81-168 | the texts of well-formed tokens contain only letters, digits, `(`, `)` and `,` |
| LexerProperties.StrayCharacterFails | lexer.js:164-190 | a character that is not whitespace, a letter, a digit, `(`, `)` or `,` anywhere on a comment-free line makes `tokenize` report a lexical error, as in `GO TO 100#`, and the error is at that character or at an offending character before it, carrying the character at its position |
| LexerProperties.TokensFromStrayBound | lexer.js:164-193 | scanning from an index before a stray character stops with its error at or before that character |
| LexerProperties.FirstStrayReported | lexer.js:164-193 | when nothing before a stray character is offending, the error reported is that character at its position: scanning stops at the first offending character |
| LexerProperties.TokenAtFailure | lexer.js:81-168 | a token that cannot be read fails at a stray character or at a letter directly after a digit, with only whitespace and digits passed over before it, and the error carries that character at its position |
| LexerProperties.TokensFromFailure | lexer.js:175-193 | the error that stops scanning from an index is at such a character at or after that index |
| LexerProperties.LexFailureCause | lexer.js:175-193 | `tokenize` fails only at a stray character or at a letter directly after a digit, and reports that character at its position |
| LexerProperties.TokenPlaced | lexer.js:132-173 | from a token boundary, the next token records the position of its first character and the scanner resumes on a boundary |
| LexerProperties.TokensFromPlacement | lexer.js:175-193 | every token has a start index, at or after the scan's start, where it records its position, spells the upper-cased input and, for a number or word, is delimited by non-alphanumerics; each token's text ends before the next token starts |
| LexerProperties.PlacedColumn | lexer.js:41-56 | on a one-line input, a token placed at index `j` records line 1, column `j + 2`; the end marker records `|input| + 1` |
| LexerProperties.LexColumnsNewlineFree | lexer.js:83-172 | on a one-line input every token of the scan records line 1 and column start index + 2, and the end marker records `|input| + 1` |
| LexerProperties.TokenAtUpperCase | lexer.js:119-129 | scanning one token of the upper-cased line gives the same token, resume index and error position as on the original line |
| LexerProperties.TokensFromUpperCase | lexer.js:119-129 | upper-casing the line changes neither the tokens (kinds, texts, positions) nor where scanning fails |
| LexerProperties.NoCommentStartUpperCase | lexer.js:46-48 | a comment-free line stays comment-free when upper-cased |
| LexerProperties.LexCaseInsensitive | lexer.js:119-129 | keywords are case-insensitive: a line and its upper-cased form give the same token list, and fail, or not, at the same position |
| Parsing.Advance | parser.js:14-21 | the cursor moves to the next token; past the last token it stays put |
| Parsing.Matches | parser.js:30-32 | true exactly when there is a current token and it has the given kind; a definition without a contract, used by `Consume`, whose contract states the outcome |
| Parsing.Consume | parser.js:34-46 | it succeeds if and only if the current token has the expected kind, returning that token and moving on; otherwise it raises a syntax error expecting that kind, naming the token found (`EOF` when there is none), at the token's position (line 1, column 1 when there is none) |
| Parsing.CheckEnd | parser.js:86-92 | it succeeds if and only if there is no current token or it is the end marker; otherwise it raises the syntax error expecting the end of the statement, naming that token's kind, at its position |
| Parsing.NotALabel | parser.js:151-157 | with a current token, the error is the unexpected-token error naming it; with none, it is the runtime error of reading the position of `null` |
| Parsing.ParseUnconditional | parser.js:76-101 | it succeeds if and only if the label is valid and the statement ends after it, giving the label and the label token's position; an invalid label is reported first, then a trailing token |
| Parsing.ParseMoreLabels | parser.js:166-182 | on success the loop stops at a token that is not a comma, after consuming two tokens per label added |
| Parsing.ParseLabelList | parser.js:147-185 | on success there is at least one label, the first token is a valid label, and the list ends at a non-comma; a first token that is not an `INTEGER` and an invalid first label give their own errors |
| Parsing.ParseComputed | parser.js:103-145 | on success the statement is computed with at least one label, at the parenthesis's position, followed by `)`, `,`, an `INTEGER` or `IDENTIFIER` expression with that text, and the end of the statement |
| Parsing.ParseAssigned | parser.js:187-216 | it succeeds if and only if the identifier is valid and the statement ends after it; a too-long identifier is the semantic error with details `{identifier}`, reported before a trailing token |
| Parsing.ParseStatement | parser.js:48-69 | it requires `GO` then `TO`, each failure naming the expected keyword and the token found; a third token other than `(`, `INTEGER` or `IDENTIFIER` is the syntax error expecting one of the three |
| Parsing.Parse | parser.js:48-74 | it returns the statement and leaves the log unchanged, or returns nothing and logs the error |
| Parsing.ParseString | parser.js:218-241 | a lexical error is returned without parsing; otherwise the result is the parsed statement or the parse error; the log then holds exactly the returned error; the unknown-error fallback never happens |
| ParserProperties.MoreLabelsSound | parser.js:166-182 | the labels the loop adds are written as `, label` pairs with valid labels |
| ParserProperties.LabelListSound | parser.js:147-185 | a successful label list is written from its first token as comma-separated valid labels, in order |
| ParserProperties.ComputedSound | parser.js:103-145 | the labels a successful computed parse returns are written right after the `(` as comma-separated valid `INTEGER` tokens, in order |
| ParserProperties.ParseMoreLabelsComplete | parser.js:166-182 | any run of `, label` pairs with valid labels, not followed by a comma, is read completely, in order |
| ParserProperties.ParseLabelListComplete | parser.js:147-185 | a comma-separated list of valid labels, not followed by a comma, parses to exactly those labels, in order |
| ParserProperties.ComputedAccepted | parser.js:103-145 | what `parseComputedGoto` returns is accepted by the grammar |
| ParserProperties.ParseSound | parser.js:48-216 | every statement the parser returns is a statement of the grammar, denoted by the tokens |
| ParserProperties.ComputedComplete | parser.js:103-185 | every computed statement of the grammar is parsed by `parseComputedGoto` to the record it denotes |
| ParserProperties.ParseComplete | parser.js:48-216 | every statement of the grammar is parsed to the record it denotes |
| ParserProperties.AcceptsUnique | parser.js:48-216 | the tokens of a statement denote one record only |
| ParserProperties.ParseIffAccepts | parser.js:48-216 | the parser returns a statement if and only if the grammar accepts the tokens as that statement |
| ParserProperties.ParseMoreLabelsPrefix | parser.js:166-182 | the label loop reads any run of valid `, label` pairs and continues after them, with those labels appended |
| ParserProperties.MoreLabelsStep | parser.js:166-182 | one turn of the loop over `, label` with a valid label appends it and moves two tokens on |
| ParserProperties.FirstInvalidLabel | parser.js:159-181 | after valid labels and a comma, an invalid label is the invalid-label error of that label, at its position |
| ParserProperties.CommaWithoutLabel | parser.js:166-175 | after valid labels, a comma followed by a non-`INTEGER` is the syntax error expecting a label after the comma, naming that token |
| ParserProperties.NoCloseAfterLabels | parser.js:103-145 | after a successful label list, a token other than `)` (as in `GO TO (10, 20 30), I`) is the syntax error expecting `)`, naming that token, at its position |
| ParserProperties.NoCommaAfterClose | parser.js:103-145 | a `)` not followed by `,` (as in `GO TO (10, 20, 30) I`) is the syntax error expecting `,`, naming the token found, at its position |
| ParserProperties.NoExpressionAfterComma | parser.js:118-123 | neither an `INTEGER` nor an `IDENTIFIER` after `),` is the missing-expression error at the token found there |
| ParserProperties.TokenAfterExpression | parser.js:129-135 | a token after the expression of a computed statement is the syntax error expecting the end of the statement, naming that token, at its position |
| ParserProperties.ParseRaisesOnly | parser.js:147-182 | on a token list whose last and only end marker is last, every parse failure is one of the three error kinds: the `null` current token never occurs |
| ParserProperties.LexEndMarked | lexer.js:175-193 | a successfully scanned line ends with its only end marker |
| ParserProperties.ParseStringRaisesOnly | parser.js:218-241 | `parseString` only ever returns a statement or one of the three error kinds |
| Scenarios.ParseStringOfTokens | parser.js:226-232 | a line that scans without error gets exactly what parsing its tokens gives |
| Scenarios.LexErrorOutcome | parser.js:219-224 | a line whose scan stops at a lexical error fails with that error |
| Scenarios.UnconditionalLine | parser.js:76-101 | for every digit string L, `GO TO L` is the unconditional statement with label L at line 1, column 8 when L is valid, and otherwise the invalid-label error at column 8 (`GO TO 100`, `GO TO 0`) |
| Scenarios.MissingToLine | parser.js:34-56 | for every digit string L, `GO L` (the `GO 100` test line) fails expecting `TO`, finding `INTEGER`, at column 5 |
| Scenarios.NoTargetLine | parser.js:57-69 | `GO TO` followed only by whitespace fails at the end marker, column length of the line + 1, expecting a target and finding `EOF` |
| Scenarios.GluedLabelLine | lexer.js:91-104 | `GO TO `, then digits directly followed by a letter, then anything without a newline (`GO TO 123ABC`, `GO TO 123VAR`), is the lexical error carrying that letter at column number of digits + 8 |
| Scenarios.StrayCharacterLine | lexer.js:164-168 | `GO TO `, then a character outside the alphabet, then anything without a newline (`GO TO #100`), is the lexical error carrying that character at column 8 |
| Scenarios.TrailingWordLine | parser.js:76-101 | `GO TO L W` with a valid label fails expecting the end of the statement at W's column, length of L + 9, naming W's kind; with an invalid label, the invalid-label error comes first |
| Scenarios.AssignedLine | parser.js:187-216 | `GO TO W` is the assigned statement with W upper-cased at column 8 when W has at most 6 characters; longer W is the invalid-identifier error; a keyword W is the error expecting a target |
| Scenarios.ComputedLine | parser.js:103-145 | `GO TO (L), W` is the computed statement `[L]`, W upper-cased, at column 8; an invalid L is the invalid-label error at column 9; a keyword W is the missing-expression error at column length of L + 12 |
| Scenarios.EmptyListLine | parser.js:147-157 | `GO TO (), W` fails expecting a first label, finding `)`, at column 9 |

## Left out

- Comment lines are left out. On a `C`/`c` at column 1, the source's `advance`
  calls `skipComment`, which calls `advance` again without moving the index
  (lexer.js:46-48, 58-62). The recursion is unbounded and ends only when the
  JavaScript runtime throws a stack-overflow `RangeError`.
  - At index 0 that error escapes the `Lexer` constructor (lexer.js:38), so
    `parseString` throws.
  - After a newline, as in `GO TO 10` followed by a line `C`, `tokenize`
    catches it (lexer.js:188-190), and `parseString` returns it as the
    failure.
  - Every scanner function here instead requires `NoCommentStart`: no `C`/`c`
    stands at the start of the line or right after a newline. The caller
    main.js:37 drops such lines before scanning.
- Lexing.Lexer.Advance: does not model the comment branch, because of the
  `NoCommentStart` precondition above.
- Parsing.ParseString: requires `NoCommentStart` for the same reason.
- The `peek` methods of the scanner and the parser are left out: nothing calls them.
- `Token.toString`, `debugTokens` and `getTokens` are left out: they only print
  or filter for display.
- `formatJSON` and `escapeHTML` are left out: they are JSON and HTML rendering.
- `ErrorFactory.unexpectedEndOfInput` is left out: nothing calls it.
- The error log is a global mutable object in the source. Here it is an
  `ErrorHandler` value passed in and returned.
- Exceptions are `Result` values.
- `Position.clone` is the identity, because positions are values.
- The end marker's text is the empty string where the source stores `null`.
  Nothing reads it.
- `parseString` returns the raw error object. It is modelled as the `Thrown`
  value, and its rendering is `FormatErrorForDisplay`/`ToJSON`.
- ErrorHandling.ErrorHandler.GetAllErrors: the runtime's `TypeError` is
  represented only by its message text, in V8's wording.
- Parsing.NotALabel: the runtime's `TypeError` is represented only by its
  message text, in V8's wording. It is proved never to arise on the scanner's
  output.
- The optional message argument of `consume` is ignored by the source and is
  not modelled.
- Text is a sequence of Unicode characters. A JavaScript string is a sequence of
  UTF-16 code units, so a character outside the Basic Multilingual Plane
  counts as two columns there and as one here. For such a stray character,
  such as an emoji, the source's lexical error also carries only its first
  code unit (a lone high surrogate) in `char` and in the message, where the
  model's `offending` holds the whole character.
- Utils.ToFortranCase: upper-cases ASCII letters only, whereas JavaScript's
  `toUpperCase` covers all of Unicode. The scanner applies it only to runs of
  ASCII letters and digits, where the two agree.
- file-handler.js (file reading, downloads, statistics) is not part of this
  model: it is browser I/O.
- main.js (DOM wiring, line splitting) is not part of this model: it is browser
  I/O.
- test.js (the console and HTML test runner) is not part of this model. Most of its inputs
  appear as instances of the `Scenarios` lemmas.
- Scenarios.ComputedLine: covers the one-label computed line. Computed
  statements with any number of labels are covered at the token level by
  `ParserProperties.ParseComplete` and `ParseLabelListComplete`.
- The `GO TO (10, 20 30), I`, `GO TO (10, 20, 30) I`, `GO TO (10, ,20), I`
  and `GO TO (10, 20, 30, I` lines are covered at the token level, with no
  line lemma of their own:
  - `ParseLabelListComplete` says where a correct list ends.
  - `NoCloseAfterLabels` and `NoCommaAfterClose` give the error after it.
  - `CommaWithoutLabel` gives the error of a comma with no label after it.
