/**
 * Whole lines, proved against the parser functions: the precedence levels of
 * `term` and `expr`, and the trailing ';' of `statement_list`. Each example
 * first fixes the tokens of its line, then follows the parse on those tokens.
 */
module ParseExamples {
  import opened Tokens
  import opened Outcomes
  import opened Lexing
  import opened Ast
  import opened Grammar

  lemma DigitAt(text: string, p: nat)
    requires p < |text| && IsDigit(text[p]) && (p + 1 == |text| || !IsDigit(text[p + 1]))
    ensures Scan(text, p) == Ok((Token(INTEGER, IntVal(DigitValue(text[p]))), p + 1))
  {
    assert RunEnd(text, p, Space) == p;
    assert RunEnd(text, p + 1, Digit) == p + 1;
    assert RunEnd(text, p, Digit) == p + 1;
    assert text[p..p + 1] == [text[p]];
    assert DecimalValue([text[p]]) == DigitValue(text[p]) by {
      assert [text[p]][..0] == [];
    }
  }

  lemma PunctuationAt(text: string, p: nat)
    requires p < |text| && PunctuationKind(text[p]).Some?
    ensures Scan(text, p) == Ok((Token(PunctuationKind(text[p]).value, Str([text[p]])), p + 1))
  {
    assert RunEnd(text, p, Space) == p;
  }

  lemma EofAt(text: string)
    ensures Scan(text, |text|) == Ok((Token(EOF, NoValue), |text|))
  {
    assert RunEnd(text, |text|, Space) == |text|;
  }

  /** A line that is one whole expression, not starting with a keyword or a name, parses to that expression. */
  lemma SingleExpression(t: string, e: Node)
    requires 0 < |t| && Scan(t, 0).Ok?
    requires Cur(t, 0).kind != IF && Cur(t, 0).kind != WHILE && Cur(t, 0).kind != IDENTIFIER
    requires Expr(t, 0) == Ok((e, |t|)) && Scan(t, |t|) == Ok((Token(EOF, NoValue), |t|))
    ensures Parse(t) == Ok([e])
  {
    assert Statement(t, 0) == Ok((e, |t|));
    assert StatementListRest(t, [e], |t|) == Ok(([e], |t|)) by { assert Cur(t, |t|).kind == EOF; }
    assert StatementList(t, 0) == Ok(([e], |t|));
    assert ParseFrom(t, 0) == Ok([e]);
  }

  /** The tokens of `3+4*2`, one per character. */
  predicate PrecedenceTokens(t: string) {
    && |t| == 5
    && Scan(t, 0) == Ok((Token(INTEGER, IntVal(3)), 1))
    && Scan(t, 1) == Ok((Token(PLUS, Str("+")), 2))
    && Scan(t, 2) == Ok((Token(INTEGER, IntVal(4)), 3))
    && Scan(t, 3) == Ok((Token(MUL, Str("*")), 4))
    && Scan(t, 4) == Ok((Token(INTEGER, IntVal(2)), 5))
    && Scan(t, 5) == Ok((Token(EOF, NoValue), 5))
  }

  /** The characters of `3+4*2`. */
  predicate PrecedenceChars(t: string) {
    |t| == 5 && t[0] == '3' && t[1] == '+' && t[2] == '4' && t[3] == '*' && t[4] == '2'
  }

  lemma PrecedenceToken0(t: string)
    requires PrecedenceChars(t)
    ensures Scan(t, 0) == Ok((Token(INTEGER, IntVal(3)), 1))
  {
    DigitAt(t, 0);
  }

  lemma PrecedenceToken1(t: string)
    requires PrecedenceChars(t)
    ensures Scan(t, 1) == Ok((Token(PLUS, Str("+")), 2))
  {
    PunctuationAt(t, 1);
    assert [t[1]] == "+";
  }

  lemma PrecedenceToken2(t: string)
    requires PrecedenceChars(t)
    ensures Scan(t, 2) == Ok((Token(INTEGER, IntVal(4)), 3))
  {
    DigitAt(t, 2);
  }

  lemma PrecedenceToken3(t: string)
    requires PrecedenceChars(t)
    ensures Scan(t, 3) == Ok((Token(MUL, Str("*")), 4))
  {
    PunctuationAt(t, 3);
    assert [t[3]] == "*";
  }

  lemma PrecedenceToken4(t: string)
    requires PrecedenceChars(t)
    ensures Scan(t, 4) == Ok((Token(INTEGER, IntVal(2)), 5))
  {
    DigitAt(t, 4);
  }

  lemma PrecedenceScan(t: string)
    requires PrecedenceChars(t)
    ensures PrecedenceTokens(t)
  {
    PrecedenceToken0(t);
    PrecedenceToken1(t);
    PrecedenceToken2(t);
    PrecedenceToken3(t);
    PrecedenceToken4(t);
    EofAt(t);
  }

  /** The product `4*2` is one term. */
  lemma PrecedenceProduct(t: string)
    requires PrecedenceTokens(t)
    ensures Term(t, 2) == Ok((BinOp(Num(4), MUL, Num(2)), 5))
  {
    var prod := BinOp(Num(4), MUL, Num(2));
    assert TermRest(t, Num(4), 3) == Ok((prod, 5)) by { assert Factor(t, 4) == Ok((Num(2), 5)); }
    assert Factor(t, 2) == Ok((Num(4), 3));
  }

  lemma PrecedenceExpr(t: string)
    requires PrecedenceTokens(t)
    ensures Expr(t, 0) == Ok((BinOp(Num(3), PLUS, BinOp(Num(4), MUL, Num(2))), 5))
  {
    var prod := BinOp(Num(4), MUL, Num(2));
    var sum := BinOp(Num(3), PLUS, prod);
    PrecedenceProduct(t);
    assert ExprRest(t, sum, 5) == Ok((sum, 5));
    assert ExprRest(t, Num(3), 1) == Ok((sum, 5));
    assert Term(t, 0) == Ok((Num(3), 1)) by { assert Factor(t, 0) == Ok((Num(3), 1)); }
  }

  /** `*` binds tighter than `+`: `3+4*2` is 3 + (4 * 2). */
  lemma Precedence(t: string)
    requires t == "3+4*2"
    ensures Parse(t) == Ok([BinOp(Num(3), PLUS, BinOp(Num(4), MUL, Num(2)))])
  {
    assert PrecedenceChars(t);
    PrecedenceScan(t);
    PrecedenceExpr(t);
    SingleExpression(t, BinOp(Num(3), PLUS, BinOp(Num(4), MUL, Num(2))));
  }

  /** The tokens of `1<2+3`, one per character. */
  predicate FlatLevelTokens(t: string) {
    && |t| == 5
    && Scan(t, 0) == Ok((Token(INTEGER, IntVal(1)), 1))
    && Scan(t, 1) == Ok((Token(LESS, Str("<")), 2))
    && Scan(t, 2) == Ok((Token(INTEGER, IntVal(2)), 3))
    && Scan(t, 3) == Ok((Token(PLUS, Str("+")), 4))
    && Scan(t, 4) == Ok((Token(INTEGER, IntVal(3)), 5))
    && Scan(t, 5) == Ok((Token(EOF, NoValue), 5))
  }

  /** The characters of `1<2+3`. */
  predicate FlatLevelChars(t: string) {
    |t| == 5 && t[0] == '1' && t[1] == '<' && t[2] == '2' && t[3] == '+' && t[4] == '3'
  }

  lemma FlatLevelToken0(t: string)
    requires FlatLevelChars(t)
    ensures Scan(t, 0) == Ok((Token(INTEGER, IntVal(1)), 1))
  {
    DigitAt(t, 0);
  }

  lemma FlatLevelToken1(t: string)
    requires FlatLevelChars(t)
    ensures Scan(t, 1) == Ok((Token(LESS, Str("<")), 2))
  {
    PunctuationAt(t, 1);
    assert [t[1]] == "<";
  }

  lemma FlatLevelToken2(t: string)
    requires FlatLevelChars(t)
    ensures Scan(t, 2) == Ok((Token(INTEGER, IntVal(2)), 3))
  {
    DigitAt(t, 2);
  }

  lemma FlatLevelToken3(t: string)
    requires FlatLevelChars(t)
    ensures Scan(t, 3) == Ok((Token(PLUS, Str("+")), 4))
  {
    PunctuationAt(t, 3);
    assert [t[3]] == "+";
  }

  lemma FlatLevelToken4(t: string)
    requires FlatLevelChars(t)
    ensures Scan(t, 4) == Ok((Token(INTEGER, IntVal(3)), 5))
  {
    DigitAt(t, 4);
  }

  lemma FlatLevelScan(t: string)
    requires FlatLevelChars(t)
    ensures FlatLevelTokens(t)
  {
    FlatLevelToken0(t);
    FlatLevelToken1(t);
    FlatLevelToken2(t);
    FlatLevelToken3(t);
    FlatLevelToken4(t);
    EofAt(t);
  }

  /** After `1<2`, the `+3` continues the same level. */
  lemma FlatLevelTail(t: string)
    requires FlatLevelTokens(t)
    ensures var cmp := BinOp(Num(1), LESS, Num(2));
            ExprRest(t, cmp, 3) == Ok((BinOp(cmp, PLUS, Num(3)), 5))
  {
    var sum := BinOp(BinOp(Num(1), LESS, Num(2)), PLUS, Num(3));
    assert Term(t, 4) == Ok((Num(3), 5)) by { assert Factor(t, 4) == Ok((Num(3), 5)); }
    assert ExprRest(t, sum, 5) == Ok((sum, 5));
  }

  lemma FlatLevelExpr(t: string)
    requires FlatLevelTokens(t)
    ensures Expr(t, 0) == Ok((BinOp(BinOp(Num(1), LESS, Num(2)), PLUS, Num(3)), 5))
  {
    var cmp := BinOp(Num(1), LESS, Num(2));
    var sum := BinOp(cmp, PLUS, Num(3));
    FlatLevelTail(t);
    assert Term(t, 2) == Ok((Num(2), 3)) by { assert Factor(t, 2) == Ok((Num(2), 3)); }
    assert ExprRest(t, Num(1), 1) == Ok((sum, 5));
    assert Term(t, 0) == Ok((Num(1), 1)) by { assert Factor(t, 0) == Ok((Num(1), 1)); }
  }

  /** `<` and `+` share one level and associate to the left: `1<2+3` is (1 < 2) + 3. */
  lemma FlatLevel(t: string)
    requires t == "1<2+3"
    ensures Parse(t) == Ok([BinOp(BinOp(Num(1), LESS, Num(2)), PLUS, Num(3))])
  {
    assert FlatLevelChars(t);
    FlatLevelScan(t);
    FlatLevelExpr(t);
    SingleExpression(t, BinOp(BinOp(Num(1), LESS, Num(2)), PLUS, Num(3)));
  }

  /** The tokens of `7;`. */
  predicate TrailingTokens(t: string) {
    && |t| == 2
    && Scan(t, 0) == Ok((Token(INTEGER, IntVal(7)), 1))
    && Scan(t, 1) == Ok((Token(SEMICOLON, Str(";")), 2))
    && Scan(t, 2) == Ok((Token(EOF, NoValue), 2))
  }

  lemma TrailingExpr(t: string)
    requires TrailingTokens(t)
    ensures Expr(t, 0) == Ok((Num(7), 1))
  {
    assert Term(t, 0) == Ok((Num(7), 1)) by { assert Factor(t, 0) == Ok((Num(7), 1)); }
    assert ExprRest(t, Num(7), 1) == Ok((Num(7), 1));
  }

  lemma TrailingStatement(t: string)
    requires TrailingTokens(t)
    ensures Statement(t, 0) == Ok((Num(7), 1))
  {
    TrailingExpr(t);
  }

  lemma TrailingList(t: string)
    requires TrailingTokens(t)
    ensures StatementList(t, 0) == Ok(([Num(7)], 2))
  {
    TrailingStatement(t);
    assert StatementListRest(t, [Num(7)], 1) == Ok(([Num(7)], 2)) by {
      assert Grammar.Eat(t, 1, SEMICOLON) == Ok(2);
      assert ListItem(t, [Num(7)], 2) == Ok(([Num(7)], 2)) by {
        assert StatementListRest(t, [Num(7)], 2) == Ok(([Num(7)], 2));
      }
    }
  }

  /** A ';' right before the end of the line is accepted and adds no statement. */
  lemma TrailingSemicolon(t: string)
    requires t == "7;"
    ensures Parse(t) == Ok([Num(7)])
  {
    DigitAt(t, 0);
    PunctuationAt(t, 1);
    assert TrailingTokens(t);
    TrailingList(t);
  }

  /** The tokens of `(3+4)*2` up to the ')', one per character. */
  predicate GroupedLeft(t: string) {
    && |t| == 7
    && Scan(t, 0) == Ok((Token(LPAREN, Str("(")), 1))
    && Scan(t, 1) == Ok((Token(INTEGER, IntVal(3)), 2))
    && Scan(t, 2) == Ok((Token(PLUS, Str("+")), 3))
    && Scan(t, 3) == Ok((Token(INTEGER, IntVal(4)), 4))
    && Scan(t, 4) == Ok((Token(RPAREN, Str(")")), 5))
  }

  /** The tokens of `(3+4)*2` from the '*' on. */
  predicate GroupedRight(t: string) {
    && |t| == 7
    && Scan(t, 5) == Ok((Token(MUL, Str("*")), 6))
    && Scan(t, 6) == Ok((Token(INTEGER, IntVal(2)), 7))
    && Scan(t, 7) == Ok((Token(EOF, NoValue), 7))
  }

  predicate GroupedTokens(t: string) {
    GroupedLeft(t) && GroupedRight(t)
  }

  /** The characters of `(3+4)*2`. */
  predicate GroupedChars(t: string) {
    |t| == 7 && t[0] == '(' && t[1] == '3' && t[2] == '+' && t[3] == '4' && t[4] == ')' && t[5] == '*' && t[6] == '2'
  }

  lemma GroupedToken0(t: string)
    requires GroupedChars(t)
    ensures Scan(t, 0) == Ok((Token(LPAREN, Str("(")), 1))
  {
    PunctuationAt(t, 0);
    assert [t[0]] == "(";
  }

  lemma GroupedToken1(t: string)
    requires GroupedChars(t)
    ensures Scan(t, 1) == Ok((Token(INTEGER, IntVal(3)), 2))
  {
    DigitAt(t, 1);
  }

  lemma GroupedToken2(t: string)
    requires GroupedChars(t)
    ensures Scan(t, 2) == Ok((Token(PLUS, Str("+")), 3))
  {
    PunctuationAt(t, 2);
    assert [t[2]] == "+";
  }

  lemma GroupedToken3(t: string)
    requires GroupedChars(t)
    ensures Scan(t, 3) == Ok((Token(INTEGER, IntVal(4)), 4))
  {
    DigitAt(t, 3);
  }

  lemma GroupedToken4(t: string)
    requires GroupedChars(t)
    ensures Scan(t, 4) == Ok((Token(RPAREN, Str(")")), 5))
  {
    PunctuationAt(t, 4);
    assert [t[4]] == ")";
  }

  lemma GroupedToken5(t: string)
    requires GroupedChars(t)
    ensures Scan(t, 5) == Ok((Token(MUL, Str("*")), 6))
  {
    PunctuationAt(t, 5);
    assert [t[5]] == "*";
  }

  lemma GroupedToken6(t: string)
    requires GroupedChars(t)
    ensures Scan(t, 6) == Ok((Token(INTEGER, IntVal(2)), 7))
  {
    DigitAt(t, 6);
  }

  lemma GroupedScan(t: string)
    requires GroupedChars(t)
    ensures GroupedTokens(t)
  {
    GroupedToken0(t);
    GroupedToken1(t);
    GroupedToken2(t);
    GroupedToken3(t);
    GroupedToken4(t);
    GroupedToken5(t);
    GroupedToken6(t);
    EofAt(t);
  }

  /** `+4` after the 3, stopped by the ')'. */
  lemma GroupedSum(t: string)
    requires GroupedLeft(t)
    ensures ExprRest(t, Num(3), 2) == Ok((BinOp(Num(3), PLUS, Num(4)), 4))
  {
    var sum := BinOp(Num(3), PLUS, Num(4));
    assert Term(t, 3) == Ok((Num(4), 4)) by { assert Factor(t, 3) == Ok((Num(4), 4)); }
    assert ExprRest(t, sum, 4) == Ok((sum, 4));
  }

  /** Inside the parentheses: `3+4`. */
  lemma GroupedInner(t: string)
    requires GroupedLeft(t)
    ensures Expr(t, 1) == Ok((BinOp(Num(3), PLUS, Num(4)), 4))
  {
    GroupedSum(t);
    assert Term(t, 1) == Ok((Num(3), 2)) by { assert Factor(t, 1) == Ok((Num(3), 2)); }
  }

  /** `(3+4)` is one factor. */
  lemma GroupedFactor(t: string)
    requires GroupedLeft(t) && Scan(t, 5).Ok?
    ensures Factor(t, 0) == Ok((BinOp(Num(3), PLUS, Num(4)), 5))
  {
    assert Eat(t, 0, LPAREN) == Ok(1);
    GroupedInner(t);
    assert Eat(t, 4, RPAREN) == Ok(5);
  }

  /** `*2` after the parenthesised factor. */
  lemma GroupedProduct(t: string)
    requires GroupedRight(t)
    ensures var sum := BinOp(Num(3), PLUS, Num(4));
            TermRest(t, sum, 5) == Ok((BinOp(sum, MUL, Num(2)), 7))
  {
    var prod := BinOp(BinOp(Num(3), PLUS, Num(4)), MUL, Num(2));
    assert Factor(t, 6) == Ok((Num(2), 7));
    assert TermRest(t, prod, 7) == Ok((prod, 7));
  }

  lemma GroupedExpr(t: string)
    requires GroupedTokens(t)
    ensures Expr(t, 0) == Ok((BinOp(BinOp(Num(3), PLUS, Num(4)), MUL, Num(2)), 7))
  {
    var prod := BinOp(BinOp(Num(3), PLUS, Num(4)), MUL, Num(2));
    GroupedFactor(t);
    GroupedProduct(t);
    assert Term(t, 0) == Ok((prod, 7));
    assert ExprRest(t, prod, 7) == Ok((prod, 7));
  }

  /** Parentheses override precedence: `(3+4)*2` is (3 + 4) * 2. */
  lemma Grouped(t: string)
    requires t == "(3+4)*2"
    ensures Parse(t) == Ok([BinOp(BinOp(Num(3), PLUS, Num(4)), MUL, Num(2))])
  {
    assert GroupedChars(t);
    GroupedScan(t);
    GroupedExpr(t);
    SingleExpression(t, BinOp(BinOp(Num(3), PLUS, Num(4)), MUL, Num(2)));
  }
}
