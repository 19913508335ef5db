/** Properties of single grammar rules, stated in terms of the tokens each rule looks at. */
module GrammarFacts {
  import opened Tokens
  import opened Outcomes
  import opened Lexing
  import opened Ast
  import opened Grammar

  /** A unary '+' leaves no trace in the tree: the factor is the factor after it. */
  lemma UnaryPlusTransparent(text: string, q: nat)
    requires At(text, q) && Cur(text, q).kind == PLUS && Eat(text, q, PLUS).Ok?
    ensures Factor(text, q) == Factor(text, Next(text, q))
  {
  }

  /** A unary '-' wraps the factor after it in a UnaryOp. */
  lemma UnaryMinusWraps(text: string, q: nat)
    requires At(text, q) && Cur(text, q).kind == MINUS && Eat(text, q, MINUS).Ok?
    requires Factor(text, Next(text, q)).Ok?
    ensures var f := Factor(text, Next(text, q)).value;
            Factor(text, q) == Ok((UnaryOp(f.0), f.1))
  {
  }

  /** Parentheses give the inner expression itself; a missing ')' fails on the token found instead. */
  lemma ParenthesesGroup(text: string, q: nat)
    requires At(text, q) && Cur(text, q).kind == LPAREN && Eat(text, q, LPAREN).Ok?
    requires Expr(text, Next(text, q)).Ok?
    ensures var (x, q2) := Expr(text, Next(text, q)).value;
            && (Eat(text, q2, RPAREN).Ok? ==> Factor(text, q) == Ok((x, Next(text, q2))))
            && (Cur(text, q2).kind != RPAREN ==> Factor(text, q) == Err(Expected(RPAREN, Cur(text, q2).kind)))
  {
  }

  /** An identifier starts an assignment exactly when the token after it is '='. */
  lemma AssignmentNeedsAssignNext(text: string, q: nat)
    requires At(text, q) && Cur(text, q).kind == IDENTIFIER && Peek(text, q).Ok?
    ensures Peek(text, q).value == ASSIGN ==> Statement(text, q) == AssignmentStatement(text, q)
    ensures Peek(text, q).value != ASSIGN ==> Statement(text, q) == Expr(text, q)
  {
  }

  /** With 100 statements parsed, any further statement is refused before it is parsed. */
  lemma HundredFirstStatementRefused(text: string, acc: seq<Node>, q: nat)
    requires At(text, q) && BodyOk(acc) && |acc| == MAX_STATEMENTS_PER_LINE
    requires Cur(text, q).kind != EOF
    ensures ListItem(text, acc, q) == Err(TooManyStatements)
  {
  }

  /** A ';' right before EOF ends the statement list without adding a statement. */
  lemma TrailingSemicolonAccepted(text: string, acc: seq<Node>, q: nat)
    requires At(text, q) && BodyOk(acc) && 1 <= |acc| <= MAX_STATEMENTS_PER_LINE
    requires Cur(text, q).kind == SEMICOLON && Eat(text, q, SEMICOLON).Ok?
    requires Cur(text, Next(text, q)).kind == EOF
    ensures StatementListRest(text, acc, q) == Ok((acc, Next(text, q)))
  {
    var q1 := Next(text, q);
    assert StatementListRest(text, acc, q1) == Ok((acc, q1));
    assert ListItem(text, acc, q1) == Ok((acc, q1));
  }

  /** In a `while` body, a statement followed by anything but ';' or '}' is an error. */
  lemma BodyNeedsSeparator(text: string, acc: seq<Node>, q: nat)
    requires At(text, q) && BodyOk(acc)
    requires Cur(text, q).kind != SEMICOLON && Cur(text, q).kind != RBRACE
    ensures BlockSeparator(text, acc, q) == Err(ExpectedSeparator(Cur(text, q).kind))
  {
  }

  /** `parse` succeeds exactly when the statement list does and EOF follows it. */
  lemma ParseNeedsEof(text: string, q: nat)
    requires At(text, q)
    ensures ParseFrom(text, q).Ok? <==>
              StatementList(text, q).Ok? && Cur(text, StatementList(text, q).value.1).kind == EOF
    ensures ParseFrom(text, q).Ok? ==> ParseFrom(text, q).value == StatementList(text, q).value.0
  {
  }

  /**
   * An 'else' after the true statement is taken by this `if`, which becomes an
   * IfThenElse; any other token leaves an IfThen.
   */
  lemma ElseBelongsToThisIf(text: string, c: Node, s: Node, q: nat)
    requires At(text, q) && IsExpr(c) && WellFormed(s) && ElseInnermost(s)
    requires OpenIf(s) ==> Cur(text, q).kind != ELSE
    requires Cur(text, q).kind == ELSE && Eat(text, q, ELSE).Ok? && Statement(text, Next(text, q)).Ok?
    ensures var (f, q2) := Statement(text, Next(text, q)).value;
            ElsePart(text, c, s, q) == Ok((IfThenElse(c, s, f), q2))
  {
  }

  // ---------------------------------------------------------------------------
  // Precedence and associativity of `term` and `expr`, for every input

  predicate IsFlatOperator(k: Kind) {
    k == PLUS || k == MINUS || k == GREATER || k == LESS || k == EQUALS
  }

  /** What `factor` builds when no parenthesis is involved: a number, a variable, or a negated factor. */
  predicate FactorShape(n: Node) {
    match n
    case Num(_) => true
    case Var(_) => true
    case UnaryOp(x) => FactorShape(x)
    case _ => false
  }

  /** A factor, or a term, then `*` or `/`, then a factor: the two operators associate to the left. */
  predicate TermShape(n: Node) {
    || FactorShape(n)
    || (n.BinOp? && (n.op == MUL || n.op == DIV) && TermShape(n.left) && FactorShape(n.right))
  }

  /**
   * A term, or an expression, then one of `+ - > < ==`, then a term: the five
   * operators share one level below `* /` and associate to the left.
   */
  predicate ExprShape(n: Node) {
    || TermShape(n)
    || (n.BinOp? && IsFlatOperator(n.op) && ExprShape(n.left) && TermShape(n.right))
  }

  /** No '(' from position `q` on. */
  predicate NoParen(text: string, q: nat) {
    forall i | q <= i < |text| :: text[i] != '('
  }

  /** An LPAREN token is scanned from a '(' character. */
  lemma LParenAt(text: string, q: nat)
    requires At(text, q) && Cur(text, q).kind == LPAREN
    ensures RunEnd(text, q, Space) < |text| && text[RunEnd(text, q, Space)] == '('
  {
  }

  lemma {:induction false} FactorShaped(text: string, q: nat)
    requires At(text, q) && NoParen(text, q)
    ensures Factor(text, q).Ok? ==> FactorShape(Factor(text, q).value.0)
    decreases |text| - q
  {
    var k := Cur(text, q).kind;
    if k == LPAREN {
      LParenAt(text, q);
      assert false;
    } else if k == PLUS || k == MINUS {
      var e := Eat(text, q, k);
      if e.Ok? {
        FactorShaped(text, e.value);
      }
    }
  }

  lemma {:induction false} TermRestShaped(text: string, acc: Node, q: nat)
    requires At(text, q) && NoParen(text, q) && IsExpr(acc) && TermShape(acc)
    ensures TermRest(text, acc, q).Ok? ==> TermShape(TermRest(text, acc, q).value.0)
    decreases |text| - q
  {
    var k := Cur(text, q).kind;
    if k == MUL || k == DIV {
      var e := Eat(text, q, k);
      if e.Ok? {
        var f := Factor(text, e.value);
        FactorShaped(text, e.value);
        if f.Ok? {
          TermRestShaped(text, BinOp(acc, k, f.value.0), f.value.1);
        }
      }
    }
  }

  /** `*` and `/` build a left-leaning chain of factors. */
  lemma TermShaped(text: string, q: nat)
    requires At(text, q) && NoParen(text, q)
    ensures Term(text, q).Ok? ==> TermShape(Term(text, q).value.0)
  {
    var f := Factor(text, q);
    FactorShaped(text, q);
    if f.Ok? {
      TermRestShaped(text, f.value.0, f.value.1);
    }
  }

  lemma {:induction false} ExprRestShaped(text: string, acc: Node, q: nat)
    requires At(text, q) && NoParen(text, q) && IsExpr(acc) && ExprShape(acc)
    ensures ExprRest(text, acc, q).Ok? ==> ExprShape(ExprRest(text, acc, q).value.0)
    decreases |text| - q
  {
    var k := Cur(text, q).kind;
    if IsFlatOperator(k) {
      var e := Eat(text, q, k);
      if e.Ok? {
        var t := Term(text, e.value);
        TermShaped(text, e.value);
        if t.Ok? {
          ExprRestShaped(text, BinOp(acc, k, t.value.0), t.value.1);
        }
      }
    }
  }

  /**
   * Every expression without parentheses is a left-leaning chain of terms
   * joined by `+ - > < ==`, each term a left-leaning chain of factors joined
   * by `* /`.
   */
  lemma ExprShaped(text: string, q: nat)
    requires At(text, q) && NoParen(text, q)
    ensures Expr(text, q).Ok? ==> ExprShape(Expr(text, q).value.0)
  {
    var t := Term(text, q);
    TermShaped(text, q);
    if t.Ok? {
      ExprRestShaped(text, t.value.0, t.value.1);
    }
  }

  /** The shapes rule out the other groupings: `1+(2+3)` and `(1+2)*3` are not what a plain line parses to. */
  lemma OtherGroupingsExcluded()
    ensures !ExprShape(BinOp(Num(1), PLUS, BinOp(Num(2), PLUS, Num(3))))
    ensures !ExprShape(BinOp(BinOp(Num(1), PLUS, Num(2)), MUL, Num(3)))
    ensures !ExprShape(BinOp(Num(8), DIV, BinOp(Num(4), DIV, Num(2))))
  {
  }
}
