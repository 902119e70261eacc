/** Tokens of a GO TO statement (lexer.js, `Token` and `TokenType`). */
module Tokens {
  import opened Utils

  /** The eight token kinds. */
  datatype TokenType = GoKeyword | ToKeyword | Integer | Identifier | LeftParen | RightParen | Comma | EOF {

    /** The kind's tag string, as it appears in the `expected`/`found` fields of
        syntax errors. */
    function Name(): string {
      match this
      case GoKeyword => "GO"
      case ToKeyword => "TO"
      case Integer => "INTEGER"
      case Identifier => "IDENTIFIER"
      case LeftParen => "("
      case RightParen => ")"
      case Comma => ","
      case EOF => "EOF"
    }
  }

  /** A token: its kind, its text and the scanner position recorded for it. The
      end marker carries the empty text where the source stores `null`; nothing
      reads the text of an end marker. */
  datatype Token = Token(kind: TokenType, value: string, position: Position)

  /** The kind a scanned word receives: `GO` and `TO` are keywords, every other
      word is an identifier. */
  function WordKind(word: string): (k: TokenType)
    ensures k == GoKeyword <==> word == "GO"
    ensures k == ToKeyword <==> word == "TO"
    ensures k != GoKeyword && k != ToKeyword ==> k == Identifier
  {
    if word == "GO" then GoKeyword else if word == "TO" then ToKeyword else Identifier
  }

  /** Distinct kinds have distinct tag strings. */
  lemma NameInjective(a: TokenType, b: TokenType)
    ensures a.Name() == b.Name() <==> a == b
  {
  }

  /** What the text of each kind of scanned token looks like: a non-empty digit
      run for `INTEGER`, an upper-case letter-led alphanumeric word other than
      the two keywords for `IDENTIFIER`, the keyword itself for `GO`/`TO`, the
      character itself for punctuation, and nothing for the end marker. */
  predicate WellFormedToken(t: Token) {
    match t.kind
    case Integer => |t.value| >= 1 && AllDigits(t.value)
    case Identifier =>
      && |t.value| >= 1 && 'A' <= t.value[0] <= 'Z' && AllAlnum(t.value)
      && (forall k | 0 <= k < |t.value| :: !('a' <= t.value[k] <= 'z'))
      && t.value != "GO" && t.value != "TO"
    case GoKeyword => t.value == "GO"
    case ToKeyword => t.value == "TO"
    case LeftParen => t.value == "("
    case RightParen => t.value == ")"
    case Comma => t.value == ","
    case EOF => t.value == ""
  }
}
