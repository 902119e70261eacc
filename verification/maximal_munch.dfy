/** An index-based reference for the scanner of lexer.js: where each token of a
    line starts and ends, what it holds and which position it records, stated
    over character indices instead of the scanner's mutable cursor. The
    record-based scanner in `Lexing` is proved to compute exactly this. */
module MaximalMunch {
  import opened Results
  import opened Utils
  import opened ErrorHandling
  import opened Tokens

  /** No character of the line would be taken for the start of a comment: no
      `C`/`c` at the very start or right after a newline. On such a character
      the source's `advance` and `skipComment` call each other without moving
      the index (lexer.js:46-48, 58-62), so the recursion is unbounded and
      ends only in the runtime's stack-overflow `RangeError`; the scanner here
      is defined only on lines without such a character. */
  predicate NoCommentStart(input: seq<char>) {
    forall k | 0 <= k < |input| :: AtLineStart(input, k) ==> input[k] != 'C' && input[k] != 'c'
  }

  /** Index `k` is the first character of a line. */
  predicate AtLineStart(input: seq<char>, k: nat)
    requires k <= |input|
  {
    k == 0 || input[k - 1] == '\n'
  }

  /** The position the scanner holds while `input[k]` is its current character:
      the position after consuming that character, which is one column past the
      character's own column. At the end of the input it is the position after
      the whole line. */
  function PosAt(input: seq<char>, k: nat): Position
    requires k <= |input|
  {
    if k < |input| then PosAfter(input[..k + 1]) else PosAfter(input)
  }

  /** On a comment-free line, the scanner about to read `input[k]` never sees
      a comment start: that needs a `C`/`c` while the column is still 1. */
  lemma NoCommentAt(input: seq<char>, k: nat)
    requires NoCommentStart(input) && k < |input|
    ensures !IsCommentStart(input[k], PosAfter(input[..k]))
  {
    ColumnOneAtLineStart(input[..k]);
    if PosAfter(input[..k]).column == 1 {
      assert AtLineStart(input, k) by {
        if k > 0 {
          assert input[..k][k - 1] == input[k - 1];
        }
      }
      assert input[k] != 'C' && input[k] != 'c';
    }
  }

  /** On a line without newlines the character at index `k` is recorded at
      line 1, column k + 2, and the end of the line at column |input| + 1. */
  lemma PosAtNewlineFree(input: seq<char>, k: nat)
    requires k <= |input| && '\n' !in input
    ensures k < |input| ==> PosAt(input, k) == Position(1, k + 2)
    ensures k == |input| ==> PosAt(input, k) == Position(1, |input| + 1)
  {
    if k < |input| {
      PosAfterNewlineFree(input[..k + 1]);
    } else {
      PosAfterNewlineFree(input);
    }
  }

  /** The first index at or after `k` whose character is not in the run class,
      or the end of the input. */
  function RunEnd(s: seq<char>, k: nat, inRun: char -> bool): (e: nat)
    requires k <= |s|
    ensures k <= e <= |s|
    ensures forall j | k <= j < e :: inRun(s[j])
    ensures e == |s| || !inRun(s[e])
    decreases |s| - k
  {
    if k == |s| || !inRun(s[k]) then k else RunEnd(s, k + 1, inRun)
  }

  /** A run that continues at `k` ends where the run from `k + 1` ends. */
  lemma RunEndStep(s: seq<char>, k: nat, inRun: char -> bool)
    requires k < |s| && inRun(s[k])
    ensures RunEnd(s, k, inRun) == RunEnd(s, k + 1, inRun)
    ensures [s[k]] + s[k + 1..RunEnd(s, k, inRun)] == s[k..RunEnd(s, k, inRun)]
  {
  }

  /** A run end is determined by its defining properties. */
  lemma RunEndUnique(s: seq<char>, k: nat, inRun: char -> bool, e: nat)
    requires k <= e <= |s|
    requires forall j | k <= j < e :: inRun(s[j])
    requires e == |s| || !inRun(s[e])
    ensures RunEnd(s, k, inRun) == e
  {
  }

  /** The token that starts at or after index `k` (after skipping whitespace),
      with the index where scanning resumes, or the lexical error met there. */
  function TokenAt(input: seq<char>, k: nat): (r: Result<(Token, nat), Diagnostic>)
    requires k <= |input|
    ensures r.Success? ==> k <= r.value.1 <= |input|
    ensures r.Success? && r.value.0.kind != EOF ==> k < r.value.1
    ensures r.Success? && r.value.0.kind == EOF ==> r.value.1 == |input|
    ensures r.Failure? ==> r.error.LexerError?
  {
    TokenStartingAt(input, RunEnd(input, k, IsWhitespace))
  }

  /** The token that starts exactly at index `j`, a non-whitespace character or
      the end of the line. A digit run followed directly by a letter is an
      error at that letter; a word is upper-cased and then classified as
      keyword or identifier; any character outside the alphabet is an error at
      that character. */
  function TokenStartingAt(input: seq<char>, j: nat): (r: Result<(Token, nat), Diagnostic>)
    requires j <= |input|
    requires j == |input| || !IsWhitespace(input[j])
    ensures r.Success? ==> j <= r.value.1 <= |input|
    ensures r.Success? && r.value.0.kind != EOF ==> j < r.value.1
    ensures r.Success? && r.value.0.kind == EOF ==> r.value.1 == |input|
    ensures r.Failure? ==> r.error.LexerError?
  {
    if j == |input| then
      Success((Token(EOF, "", PosAt(input, j)), j))
    else
      var c := input[j];
      if IsDigit(c) then
        var e := RunEnd(input, j, IsDigit);
        if e < |input| && IsAlpha(input[e]) then
          Failure(InvalidCharacter(PosAt(input, e), input[e]))
        else
          Success((Token(Integer, input[j..e], PosAt(input, j)), e))
      else if IsAlpha(c) then
        var e := RunEnd(input, j, IsAlnum);
        var word := ToFortranCase(input[j..e]);
        Success((Token(WordKind(word), word, PosAt(input, j)), e))
      else if c == '(' then
        Success((Token(LeftParen, "(", PosAt(input, j)), j + 1))
      else if c == ')' then
        Success((Token(RightParen, ")", PosAt(input, j)), j + 1))
      else if c == ',' then
        Success((Token(Comma, ",", PosAt(input, j)), j + 1))
      else
        Failure(InvalidCharacter(PosAt(input, j), c))
  }

  /** Whitespace before a token does not change the token found. */
  lemma TokenAtAfterWhitespace(input: seq<char>, k: nat)
    requires k <= |input|
    ensures TokenAt(input, k) == TokenAt(input, RunEnd(input, k, IsWhitespace))
  {
    var j := RunEnd(input, k, IsWhitespace);
    assert RunEnd(input, j, IsWhitespace) == j;
  }

  /** What scanning a line leaves behind: the tokens produced so far and, when
      scanning stopped early, the lexical error that stopped it. */
  datatype Lexed = Lexed(tokens: seq<Token>, error: Option<Diagnostic>)

  /** The tokens from index `k` to the end of the line, scanning token after
      token until the end marker or the first lexical error. Every token but
      the end marker consumes at least one character, so there are at most
      as many tokens as characters left, plus the end marker. */
  function TokensFrom(input: seq<char>, k: nat): (r: Lexed)
    requires k <= |input|
    ensures |r.tokens| <= |input| - k + 1
    ensures r.error.None? ==> |r.tokens| >= 1
    decreases |input| - k
  {
    match TokenAt(input, k)
    case Failure(e) => Lexed([], Some(e))
    case Success((t, next)) =>
      if t.kind == EOF then Lexed([t], None)
      else
        var rest := TokensFrom(input, next);
        Lexed([t] + rest.tokens, rest.error)
  }
}
