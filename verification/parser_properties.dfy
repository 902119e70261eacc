/** What the parser of parser.js accepts, stated as a grammar over token
    lists independent of the parser's cursor, and proved to be exactly what
    `ParseStatement` accepts; which error it reports first; and that on the
    scanner's output it never reads past the end of the tokens. */
module ParserProperties {
  import opened Results
  import opened Utils
  import opened ErrorHandling
  import opened Tokens
  import opened MaximalMunch
  import opened Lexing
  import opened Parsing
  import opened LexerProperties

  /** The grammar of a GO TO statement, with the record it denotes:

        GO TO label                           unconditional
        GO TO identifier                      assigned
        GO TO ( label {, label} ) , expr      computed, expr = INTEGER | IDENTIFIER

      each followed by the end of the statement; the record's position is
      that of the token after `TO`. */
  predicate Accepts(ts: seq<Token>, s: Statement) {
    && Matches(ts, 0, GoKeyword)
    && Matches(ts, 1, ToKeyword)
    && 2 < |ts|
    && s.line == ts[2].position.line && s.column == ts[2].position.column
    && match s
       case Unconditional(labelText, _, _) =>
         && ts[2].kind == Integer && ts[2].value == labelText && IsValidLabel(labelText)
         && AtEnd(ts, 3)
       case Assigned(identifier, _, _) =>
         && ts[2].kind == Identifier && ts[2].value == identifier && IsValidIdentifier(identifier)
         && AtEnd(ts, 3)
       case Computed(labels, expression, _, _) =>
         var n := |labels|;
         && ts[2].kind == LeftParen
         && LabelsAt(ts, 3, labels)
         && Matches(ts, 2 * n + 2, RightParen)
         && Matches(ts, 2 * n + 3, Comma)
         && (Matches(ts, 2 * n + 4, Integer) || Matches(ts, 2 * n + 4, Identifier))
         && ts[2 * n + 4].value == expression
         && AtEnd(ts, 2 * n + 5)
  }

  /** The label list `labels` is written from index `i`: each label an
      `INTEGER` token with that text and a valid label, consecutive labels
      separated by one comma. */
  predicate LabelsAt(ts: seq<Token>, i: nat, labels: seq<string>)
    decreases |labels|
  {
    && |labels| >= 1
    && Matches(ts, i, Integer) && ts[i].value == labels[0] && IsValidLabel(labels[0])
    && (|labels| == 1 || (Matches(ts, i + 1, Comma) && LabelsAt(ts, i + 2, labels[1..])))
  }

  /** The label loop only appends to the labels already taken. */
  lemma {:induction false} MoreLabelsExtends(ts: seq<Token>, i: nat, acc: seq<string>)
    requires i <= |ts| && ParseMoreLabels(ts, i, acc).Success?
    ensures ParseMoreLabels(ts, i, acc).value.0[..|acc|] == acc
    decreases |ts| - i
  {
    if Matches(ts, i, Comma) {
      var x := ts[i + 1].value;
      MoreLabelsExtends(ts, i + 2, acc + [x]);
      var all := ParseMoreLabels(ts, i + 2, acc + [x]).value.0;
      assert all[..|acc|] == all[..|acc + [x]|][..|acc|];
    }
  }

  /** The labels the loop takes are written from `i` on, each after a comma. */
  lemma {:induction false} MoreLabelsSound(ts: seq<Token>, i: nat, acc: seq<string>)
    requires i <= |ts| && ParseMoreLabels(ts, i, acc).Success?
    ensures var more := ParseMoreLabels(ts, i, acc).value.0[|acc|..];
      more == [] || (Matches(ts, i, Comma) && LabelsAt(ts, i + 1, more))
    decreases |ts| - i
  {
    if Matches(ts, i, Comma) {
      var x := ts[i + 1].value;
      MoreLabelsSound(ts, i + 2, acc + [x]);
      MoreLabelsExtends(ts, i + 2, acc + [x]);
      var all := ParseMoreLabels(ts, i, acc).value.0;
      assert all == ParseMoreLabels(ts, i + 2, acc + [x]).value.0;
      assert all[|acc|..][1..] == all[|acc + [x]|..];
      assert all[|acc|] == (acc + [x])[|acc|];
    }
  }

  /** The labels `parseLabelList` returns are written from `i` on. */
  lemma LabelListSound(ts: seq<Token>, i: nat)
    requires i <= |ts| && ParseLabelList(ts, i).Success?
    ensures LabelsAt(ts, i, ParseLabelList(ts, i).value.0)
  {
    var labels := ParseLabelList(ts, i).value.0;
    MoreLabelsSound(ts, i + 1, [ts[i].value]);
    MoreLabelsExtends(ts, i + 1, [ts[i].value]);
    assert labels == [labels[0]] + labels[1..];
    assert labels[1..] == labels[|[ts[i].value]|..];
  }

  /** The labels of a parsed computed statement are written after its `(`. */
  lemma ComputedSound(ts: seq<Token>, i: nat)
    requires Matches(ts, i, LeftParen) && ParseComputed(ts, i).Success?
    ensures LabelsAt(ts, i + 1, ParseComputed(ts, i).value.labels)
  {
    LabelListSound(ts, i + 1);
  }

  /** A written label list followed by something other than a comma is read
      completely by the label loop. */
  lemma {:induction false} ParseMoreLabelsComplete(ts: seq<Token>, i: nat, acc: seq<string>, more: seq<string>)
    requires i <= |ts|
    requires more == [] ==> !Matches(ts, i, Comma)
    requires more != [] ==> Matches(ts, i, Comma) && LabelsAt(ts, i + 1, more)
    requires !Matches(ts, i + 2 * |more|, Comma)
    ensures ParseMoreLabels(ts, i, acc) == Success((acc + more, i + 2 * |more|))
    decreases |more|
  {
    if more == [] {
      assert acc + more == acc;
    } else {
      var rest := more[1..];
      ParseMoreLabelsComplete(ts, i + 2, acc + [more[0]], rest);
      assert acc + [more[0]] + rest == acc + more;
    }
  }

  /** A written label list followed by something other than a comma is read
      completely by `parseLabelList`. */
  lemma ParseLabelListComplete(ts: seq<Token>, i: nat, labels: seq<string>)
    requires i <= |ts| && LabelsAt(ts, i, labels)
    requires !Matches(ts, i + 2 * |labels| - 1, Comma)
    ensures ParseLabelList(ts, i) == Success((labels, i + 2 * |labels| - 1))
  {
    ParseMoreLabelsComplete(ts, i + 1, [labels[0]], labels[1..]);
    assert [labels[0]] + labels[1..] == labels;
  }

  /** A parsed computed statement is a statement of the grammar. */
  lemma ComputedAccepted(ts: seq<Token>)
    requires Matches(ts, 0, GoKeyword) && Matches(ts, 1, ToKeyword) && Matches(ts, 2, LeftParen)
    requires ParseComputed(ts, 2).Success?
    ensures Accepts(ts, ParseComputed(ts, 2).value)
  {
    ComputedSound(ts, 2);
  }

  /** Soundness: whatever the parser returns is a statement of the grammar,
      denoted by the tokens. */
  lemma ParseSound(ts: seq<Token>)
    requires ParseStatement(ts).Success?
    ensures Accepts(ts, ParseStatement(ts).value)
  {
    assert Matches(ts, 0, GoKeyword) && Matches(ts, 1, ToKeyword);
    if Matches(ts, 2, LeftParen) {
      assert ParseStatement(ts) == ParseComputed(ts, 2);
      ComputedAccepted(ts);
    } else if Matches(ts, 2, Integer) {
      assert ParseStatement(ts) == ParseUnconditional(ts, 2);
    } else {
      assert ParseStatement(ts) == ParseAssigned(ts, 2);
    }
  }

  /** The computed form of the grammar is parsed by `parseComputedGoto`. */
  lemma ComputedComplete(ts: seq<Token>, s: Statement)
    requires Accepts(ts, s) && s.Computed?
    ensures ParseComputed(ts, 2) == Success(s)
  {
    ParseLabelListComplete(ts, 3, s.labels);
  }

  /** Completeness: every statement of the grammar is parsed, to the record it
      denotes. */
  lemma ParseComplete(ts: seq<Token>, s: Statement)
    requires Accepts(ts, s)
    ensures ParseStatement(ts) == Success(s)
  {
    if s.Computed? {
      ComputedComplete(ts, s);
      assert ParseStatement(ts) == ParseComputed(ts, 2);
    } else if s.Unconditional? {
      assert ParseStatement(ts) == ParseUnconditional(ts, 2);
    } else {
      assert ParseStatement(ts) == ParseAssigned(ts, 2);
    }
  }

  /** The tokens of a statement denote one record only. */
  lemma AcceptsUnique(ts: seq<Token>, s1: Statement, s2: Statement)
    requires Accepts(ts, s1) && Accepts(ts, s2)
    ensures s1 == s2
  {
    ParseComplete(ts, s1);
    ParseComplete(ts, s2);
  }

  /** The parser succeeds exactly on the statements of the grammar. */
  lemma ParseIffAccepts(ts: seq<Token>, s: Statement)
    ensures ParseStatement(ts) == Success(s) <==> Accepts(ts, s)
  {
    if ParseStatement(ts) == Success(s) {
      ParseSound(ts);
    }
    if Accepts(ts, s) {
      ParseComplete(ts, s);
    }
  }

  // ---------------------------------------------------------------------------
  // Errors inside a label list

  /** The label loop reads any run of `, label` pairs with valid labels and
      carries on after them. */
  lemma {:induction false} ParseMoreLabelsPrefix(ts: seq<Token>, i: nat, acc: seq<string>, good: seq<string>)
    requires i <= |ts|
    requires good != [] ==> Matches(ts, i, Comma) && LabelsAt(ts, i + 1, good)
    ensures i + 2 * |good| <= |ts|
    ensures ParseMoreLabels(ts, i, acc) == ParseMoreLabels(ts, i + 2 * |good|, acc + good)
    decreases |good|
  {
    if good != [] {
      var rest := good[1..];
      var acc' := acc + [good[0]];
      MoreLabelsStep(ts, i, acc);
      ParseMoreLabelsPrefix(ts, i + 2, acc', rest);
      assert acc' + rest == acc + good;
    } else {
      assert acc + good == acc;
    }
  }

  /** One turn of the label loop over `, label` with a valid label. */
  lemma MoreLabelsStep(ts: seq<Token>, i: nat, acc: seq<string>)
    requires Matches(ts, i, Comma) && Matches(ts, i + 1, Integer) && IsValidLabel(ts[i + 1].value)
    ensures ParseMoreLabels(ts, i, acc) == ParseMoreLabels(ts, i + 2, acc + [ts[i + 1].value])
  {
  }

  /** A label list whose labels `good` are valid and are followed by a comma
      and an invalid label: the error is the invalid-label error of that
      first invalid label, at its position. */
  lemma FirstInvalidLabel(ts: seq<Token>, i: nat, good: seq<string>)
    requires LabelsAt(ts, i, good)
    requires Matches(ts, i + 2 * |good| - 1, Comma)
    requires Matches(ts, i + 2 * |good|, Integer) && !IsValidLabel(ts[i + 2 * |good|].value)
    ensures var j := i + 2 * |good|;
      ParseLabelList(ts, i) == Failure(Raised(InvalidLabel(ts[j].position, ts[j].value)))
  {
    ParseMoreLabelsPrefix(ts, i + 1, [good[0]], good[1..]);
    assert [good[0]] + good[1..] == good;
  }

  /** A label list whose labels `good` are valid and are followed by a comma
      that is not followed by a label: the error names the token found after
      the comma, expecting "label after comma". */
  lemma CommaWithoutLabel(ts: seq<Token>, i: nat, good: seq<string>)
    requires LabelsAt(ts, i, good)
    requires Matches(ts, i + 2 * |good| - 1, Comma)
    requires i + 2 * |good| < |ts| && ts[i + 2 * |good|].kind != Integer
    ensures var j := i + 2 * |good|;
      ParseLabelList(ts, i)
        == Failure(Raised(UnexpectedToken(ts[j].position, ExpectedLabelAfterComma, ts[j].kind.Name())))
  {
    ParseMoreLabelsPrefix(ts, i + 1, [good[0]], good[1..]);
    assert [good[0]] + good[1..] == good;
  }

  /** After the label list of a computed statement, which ends at index `c`:
      a token other than `)` where `)` belongs (as when a comma between labels
      is missing, `( 10 , 20 30 ) , I`) is the error expecting `)` and naming
      the token found. */
  lemma NoCloseAfterLabels(ts: seq<Token>, i: nat, c: nat)
    requires Matches(ts, i, LeftParen) && ParseLabelList(ts, i + 1).Success?
    requires c == ParseLabelList(ts, i + 1).value.1
    requires !Matches(ts, c, RightParen)
    ensures ParseComputed(ts, i) == Failure(Raised(UnexpectedToken(CurrentPosition(ts, c), ")", CurrentName(ts, c))))
  {
  }

  /** A `)` not followed by a comma (`( 10 , 20 , 30 ) I`) is the error
      expecting `,` and naming the token found. */
  lemma NoCommaAfterClose(ts: seq<Token>, i: nat, c: nat)
    requires Matches(ts, i, LeftParen) && ParseLabelList(ts, i + 1).Success?
    requires c == ParseLabelList(ts, i + 1).value.1
    requires Matches(ts, c, RightParen) && !Matches(ts, c + 1, Comma)
    ensures ParseComputed(ts, i) == Failure(Raised(UnexpectedToken(CurrentPosition(ts, c + 1), ",", CurrentName(ts, c + 1))))
  {
  }

  /** Neither an `INTEGER` nor an `IDENTIFIER` after `),` is the
      missing-expression error at the token found there. */
  lemma NoExpressionAfterComma(ts: seq<Token>, i: nat, c: nat)
    requires Matches(ts, i, LeftParen) && ParseLabelList(ts, i + 1).Success?
    requires c == ParseLabelList(ts, i + 1).value.1
    requires Matches(ts, c, RightParen) && Matches(ts, c + 1, Comma)
    requires !Matches(ts, c + 2, Integer) && !Matches(ts, c + 2, Identifier)
    ensures ParseComputed(ts, i) == Failure(Raised(MissingExpression(CurrentPosition(ts, c + 2))))
  {
  }

  /** A token after the expression is the error expecting the end of the
      statement and naming that token. */
  lemma TokenAfterExpression(ts: seq<Token>, i: nat, c: nat)
    requires Matches(ts, i, LeftParen) && ParseLabelList(ts, i + 1).Success?
    requires c == ParseLabelList(ts, i + 1).value.1
    requires Matches(ts, c, RightParen) && Matches(ts, c + 1, Comma)
    requires (Matches(ts, c + 2, Integer) || Matches(ts, c + 2, Identifier)) && !AtEnd(ts, c + 3)
    ensures ParseComputed(ts, i) == Failure(Raised(UnexpectedToken(ts[c + 3].position, ExpectedEnd, ts[c + 3].kind.Name())))
  {
  }

  // ---------------------------------------------------------------------------
  // No read past the end on the scanner's output

  /** A token list as the scanner leaves it on success: its last token, and
      only its last token, is the end marker. */
  predicate EndMarked(ts: seq<Token>) {
    && |ts| >= 1 && ts[|ts| - 1].kind == EOF
    && forall i | 0 <= i < |ts| - 1 :: ts[i].kind != EOF
  }

  lemma {:induction false} MoreLabelsRaiseOnly(ts: seq<Token>, i: nat, acc: seq<string>)
    requires EndMarked(ts) && i < |ts|
    ensures ParseMoreLabels(ts, i, acc).Failure? ==> ParseMoreLabels(ts, i, acc).error.Raised?
    decreases |ts| - i
  {
    if Matches(ts, i, Comma) && Matches(ts, i + 1, Integer) && IsValidLabel(ts[i + 1].value) {
      MoreLabelsRaiseOnly(ts, i + 2, acc + [ts[i + 1].value]);
    }
  }

  /** On a token list ending with the end marker, every error the parser
      raises is one of the three error kinds: the `TypeError` of reading the
      position of a missing token cannot happen. */
  lemma ParseRaisesOnly(ts: seq<Token>)
    requires EndMarked(ts)
    ensures ParseStatement(ts).Failure? ==> ParseStatement(ts).error.Raised?
  {
    if Matches(ts, 0, GoKeyword) && Matches(ts, 1, ToKeyword) && Matches(ts, 2, LeftParen) {
      if Matches(ts, 3, Integer) && IsValidLabel(ts[3].value) {
        MoreLabelsRaiseOnly(ts, 4, [ts[3].value]);
      }
    }
  }

  /** The scanner's successful output is end-marked. */
  lemma LexEndMarked(input: string)
    requires NoCommentStart(input) && Lex(input).error.None?
    ensures EndMarked(Lex(input).tokens)
  {
    LexShape(input);
  }

  /** `parseString` only ever returns statements or one of the three error
      kinds. */
  lemma ParseStringRaisesOnly(input: string, handler: ErrorHandler)
    requires NoCommentStart(input)
    ensures ParseString(input, handler).0.Failed? ==> ParseString(input, handler).0.error.Raised?
  {
    if Lex(input).error.None? {
      LexEndMarked(input);
      ParseRaisesOnly(Lex(input).tokens);
    }
  }
}
