/**
 * The recursive-descent parser as an object: it owns the lexer and the current
 * token, and every method advances both through `Eat`. Each method is proved to
 * compute the grammar function of the same name: on success it returns that
 * function's node and leaves the parser in the state the function names; on
 * failure it returns the function's failure.
 */
module Parsing {
  import opened Tokens
  import opened Outcomes
  import opened Lexing
  import opened Ast
  import opened Grammar

  class Parser {
    const lexer: Lexer
    var currentToken: Token
    /** The lexer position from which `currentToken` was scanned. */
    ghost var tokStart: nat

    ghost predicate Valid()
      reads this, lexer
    {
      lexer.Valid() && At(lexer.text, tokStart) && Scan(lexer.text, tokStart).value == (currentToken, lexer.pos)
    }

    /** The method's result `r` and the new state are those of the grammar function's result `s`. */
    ghost predicate Follows<T>(r: Result<T>, s: Result<(T, nat)>)
      reads this, lexer
    {
      match s
      case Ok((v, q)) => r == Ok(v) && Valid() && tokStart == q
      case Err(e) => r == Err(e)
    }

    constructor Init(lexer: Lexer, first: Token, ghost q: nat)
      requires lexer.Valid() && At(lexer.text, q) && Scan(lexer.text, q).value == (first, lexer.pos)
      ensures Valid() && this.lexer == lexer && currentToken == first && tokStart == q
    {
      this.lexer := lexer;
      currentToken := first;
      tokStart := q;
    }

    /** `Parser(lexer)`: scans the first token, whose lexer error aborts the construction. */
    static method Create(lexer: Lexer) returns (r: Result<Parser>)
      requires lexer.Valid()
      modifies lexer
      ensures Scan(lexer.text, old(lexer.pos)).Err? ==> r == Err(Scan(lexer.text, old(lexer.pos)).error)
      ensures Scan(lexer.text, old(lexer.pos)).Ok? ==>
                r.Ok? && fresh(r.value) && r.value.lexer == lexer && r.value.Valid() && r.value.tokStart == old(lexer.pos)
    {
      ghost var q := lexer.pos;
      var first := lexer.GetNextToken();
      if first.Err? {
        return Err(first.error);
      }
      var p := new Parser.Init(lexer, first.value, q);
      r := Ok(p);
    }

    /** `eat`: replace the current token by the next one exactly when its kind is `k`. */
    method Eat(k: Kind) returns (r: Outcome)
      requires Valid()
      modifies this, lexer
      ensures var s := Grammar.Eat(lexer.text, old(tokStart), k);
              (s.Ok? ==> r == Pass && Valid() && tokStart == s.value) && (s.Err? ==> r == Fail(s.error))
      ensures old(currentToken.kind) != k ==>
                currentToken == old(currentToken) && tokStart == old(tokStart) && lexer.pos == old(lexer.pos)
    {
      if currentToken.kind == k {
        ghost var q := lexer.pos;
        var next := lexer.GetNextToken();
        if next.Err? {
          return Fail(next.error);
        }
        currentToken := next.value;
        tokStart := q;
        r := Pass;
      } else {
        r := Fail(Expected(k, currentToken.kind));
      }
    }

    method Factor() returns (r: Result<Node>)
      requires Valid()
      modifies this, lexer
      ensures Follows(r, Grammar.Factor(lexer.text, old(tokStart)))
      decreases |lexer.text| - tokStart, 0
    {
      var token := currentToken;
      if token.kind == PLUS {
        var e := Eat(PLUS);
        if e.Fail? {
          return Err(e.error);
        }
        r := Factor();
      } else if token.kind == MINUS {
        var e := Eat(MINUS);
        if e.Fail? {
          return Err(e.error);
        }
        var x := Factor();
        if x.Err? {
          return x;
        }
        r := Ok(UnaryOp(x.value));
      } else if token.kind == INTEGER {
        var e := Eat(INTEGER);
        if e.Fail? {
          return Err(e.error);
        }
        r := Ok(Num(token.value.n));
      } else if token.kind == LPAREN {
        var e := Eat(LPAREN);
        if e.Fail? {
          return Err(e.error);
        }
        var x := Expr();
        if x.Err? {
          return x;
        }
        e := Eat(RPAREN);
        if e.Fail? {
          return Err(e.error);
        }
        r := x;
      } else {
        r := Variable();
      }
    }

    method Term() returns (r: Result<Node>)
      requires Valid()
      modifies this, lexer
      ensures Follows(r, Grammar.Term(lexer.text, old(tokStart)))
      decreases |lexer.text| - tokStart, 2
    {
      var f := Factor();
      if f.Err? {
        return f;
      }
      var node := f.value;
      while currentToken.kind == MUL || currentToken.kind == DIV
        invariant Valid() && old(tokStart) <= tokStart && IsExpr(node)
        invariant TermRest(lexer.text, node, tokStart) == Grammar.Term(lexer.text, old(tokStart))
        decreases |lexer.text| - tokStart
      {
        var token := currentToken;
        var e;
        if token.kind == MUL {
          e := Eat(MUL);
        } else {
          e := Eat(DIV);
        }
        if e.Fail? {
          return Err(e.error);
        }
        var x := Factor();
        if x.Err? {
          return x;
        }
        node := BinOp(node, token.kind, x.value);
      }
      r := Ok(node);
    }

    method Expr() returns (r: Result<Node>)
      requires Valid()
      modifies this, lexer
      ensures Follows(r, Grammar.Expr(lexer.text, old(tokStart)))
      decreases |lexer.text| - tokStart, 4
    {
      var t := Term();
      if t.Err? {
        return t;
      }
      var node := t.value;
      while currentToken.kind in {PLUS, MINUS, GREATER, LESS, EQUALS}
        invariant Valid() && old(tokStart) <= tokStart && IsExpr(node)
        invariant ExprRest(lexer.text, node, tokStart) == Grammar.Expr(lexer.text, old(tokStart))
        decreases |lexer.text| - tokStart
      {
        var token := currentToken;
        var e := Eat(token.kind);
        if e.Fail? {
          return Err(e.error);
        }
        var x := Term();
        if x.Err? {
          return x;
        }
        node := BinOp(node, token.kind, x.value);
      }
      r := Ok(node);
    }

    method Variable() returns (r: Result<Node>)
      requires Valid()
      modifies this, lexer
      ensures Follows(r, Grammar.Variable(lexer.text, old(tokStart)))
    {
      var node := Var(if currentToken.value.Str? then currentToken.value.s else "");
      var e := Eat(IDENTIFIER);
      if e.Fail? {
        return Err(e.error);
      }
      r := Ok(node);
    }

    method AssignmentStatement() returns (r: Result<Node>)
      requires Valid()
      modifies this, lexer
      ensures Follows(r, Grammar.AssignmentStatement(lexer.text, old(tokStart)))
      decreases |lexer.text| - tokStart, 5
    {
      var left := Variable();
      if left.Err? {
        return left;
      }
      var e := Eat(ASSIGN);
      if e.Fail? {
        return Err(e.error);
      }
      var right := Expr();
      if right.Err? {
        return right;
      }
      r := Ok(Assign(left.value.name, right.value));
    }

    /** `lookahead`: the kind of the next token; the lexer's cursor is put back afterwards. */
    method Lookahead() returns (r: Result<Kind>)
      requires Valid()
      modifies lexer
      ensures r == Peek(lexer.text, tokStart)
      ensures r.Ok? ==> Valid() && lexer.pos == old(lexer.pos) && lexer.currentChar == old(lexer.currentChar)
    {
      var currentPos := lexer.pos;
      var currentChar := lexer.currentChar;
      var next := lexer.GetNextToken();
      if next.Err? {
        return Err(next.error);
      }
      lexer.pos := currentPos;
      lexer.currentChar := currentChar;
      r := Ok(next.value.kind);
    }

    method IfThenStatement() returns (r: Result<Node>)
      requires Valid()
      modifies this, lexer
      ensures Follows(r, Grammar.IfThenStatement(lexer.text, old(tokStart)))
      decreases |lexer.text| - tokStart, 5
    {
      var e := Eat(IF);
      if e.Fail? {
        return Err(e.error);
      }
      var condition := Expr();
      if condition.Err? {
        return condition;
      }
      ghost var q2 := tokStart;
      assert Grammar.IfThenStatement(lexer.text, old(tokStart)) == IfThenAfterCondition(lexer.text, condition.value, q2);
      e := Eat(THEN);
      if e.Fail? {
        return Err(e.error);
      }
      var trueStmt := Statement();
      if trueStmt.Err? {
        return trueStmt;
      }
      ghost var q4 := tokStart;
      assert IfThenAfterCondition(lexer.text, condition.value, q2) == ElsePart(lexer.text, condition.value, trueStmt.value, q4);
      if currentToken.kind == ELSE {
        e := Eat(ELSE);
        if e.Fail? {
          return Err(e.error);
        }
        var falseStmt := Statement();
        if falseStmt.Err? {
          return falseStmt;
        }
        r := Ok(IfThenElse(condition.value, trueStmt.value, falseStmt.value));
      } else {
        r := Ok(IfThen(condition.value, trueStmt.value));
      }
    }

    method WhileStatement() returns (r: Result<Node>)
      requires Valid()
      modifies this, lexer
      ensures Follows(r, Grammar.WhileStatement(lexer.text, old(tokStart)))
      decreases |lexer.text| - tokStart, 5
    {
      var e := Eat(WHILE);
      if e.Fail? {
        return Err(e.error);
      }
      var condition := Expr();
      if condition.Err? {
        return condition;
      }
      e := Eat(DO);
      if e.Fail? {
        return Err(e.error);
      }
      ghost var q3 := tokStart;
      assert Grammar.WhileStatement(lexer.text, old(tokStart)) == WhileBody(lexer.text, condition.value, q3);
      e := Eat(LBRACE);
      if e.Fail? {
        return Err(e.error);
      }
      var body := Body();
      if body.Err? {
        return Err(body.error);
      }
      e := Eat(RBRACE);
      if e.Fail? {
        return Err(e.error);
      }
      r := Ok(While(condition.value, body.value));
    }

    /** The loop of `while_statement`: body statements up to, not including, the '}'. */
    method Body() returns (r: Result<seq<Node>>)
      requires Valid()
      modifies this, lexer
      ensures Follows(r, Block(lexer.text, [], old(tokStart)))
      decreases |lexer.text| - tokStart, 8
    {
      var body: seq<Node> := [];
      var done := false;
      while !done && currentToken.kind != RBRACE
        invariant Valid() && old(tokStart) <= tokStart && BodyOk(body)
        invariant !done ==> Block(lexer.text, body, tokStart) == Block(lexer.text, [], old(tokStart))
        invariant done ==> Block(lexer.text, [], old(tokStart)) == Ok((body, tokStart))
        decreases |lexer.text| - tokStart, if done then 0 else 1
      {
        var next := BodyItem(body);
        if next.Err? {
          return Err(next.error);
        }
        body, done := next.value.0, next.value.1;
      }
      r := Ok(body);
    }

    /**
     * One round of the body loop: a statement, then ';' to go on or '}' to
     * stop (`done`); any other token fails.
     */
    method BodyItem(body: seq<Node>) returns (r: Result<(seq<Node>, bool)>)
      requires Valid() && BodyOk(body) && currentToken.kind != RBRACE
      modifies this, lexer
      ensures r.Err? ==> Block(lexer.text, body, old(tokStart)) == Err(r.error)
      ensures r.Ok? ==> Valid() && BodyOk(r.value.0) && old(tokStart) <= tokStart
      ensures r.Ok? && r.value.1 ==> Block(lexer.text, body, old(tokStart)) == Ok((r.value.0, tokStart))
      ensures r.Ok? && !r.value.1 ==>
                old(tokStart) < tokStart && Block(lexer.text, r.value.0, tokStart) == Block(lexer.text, body, old(tokStart))
      decreases |lexer.text| - tokStart, 7
    {
      ghost var q := tokStart;
      var stmt := Statement();
      if stmt.Err? {
        return Err(stmt.error);
      }
      var more := body + [stmt.value];
      assert Block(lexer.text, body, q) == BlockSeparator(lexer.text, more, tokStart);
      if currentToken.kind == SEMICOLON {
        ghost var q1 := tokStart;
        var e := Eat(SEMICOLON);
        if e.Fail? {
          return Err(e.error);
        }
        assert BlockSeparator(lexer.text, more, q1) == Block(lexer.text, more, tokStart);
        r := Ok((more, false));
      } else if currentToken.kind == RBRACE {
        r := Ok((more, true));
      } else {
        r := Err(ExpectedSeparator(currentToken.kind));
      }
    }

    method Statement() returns (r: Result<Node>)
      requires Valid()
      modifies this, lexer
      ensures Follows(r, Grammar.Statement(lexer.text, old(tokStart)))
      decreases |lexer.text| - tokStart, 6
    {
      if currentToken.kind == IF {
        r := IfThenStatement();
      } else if currentToken.kind == WHILE {
        r := WhileStatement();
      } else if currentToken.kind == IDENTIFIER {
        var next := Lookahead();
        if next.Err? {
          return Err(next.error);
        }
        if next.value == ASSIGN {
          r := AssignmentStatement();
        } else {
          r := Expr();
        }
      } else {
        r := Expr();
      }
    }

    method StatementList() returns (r: Result<seq<Node>>)
      requires Valid()
      modifies this, lexer
      ensures Follows(r, Grammar.StatementList(lexer.text, old(tokStart)))
      decreases |lexer.text| - tokStart, 11
    {
      var statements: seq<Node> := [];
      var count := 0;
      ghost var q0 := tokStart;
      var first := Statement();
      if first.Err? {
        return Err(first.error);
      }
      assert Grammar.Statement(lexer.text, q0) == Ok((first.value, tokStart));
      statements := statements + [first.value];
      count := count + 1;
      assert statements == [first.value];
      assert Grammar.StatementList(lexer.text, q0) == StatementListRest(lexer.text, statements, tokStart);
      while currentToken.kind == SEMICOLON
        invariant Valid() && old(tokStart) <= tokStart
        invariant count == |statements| && 1 <= count <= MAX_STATEMENTS_PER_LINE && BodyOk(statements)
        invariant StatementListRest(lexer.text, statements, tokStart) == Grammar.StatementList(lexer.text, old(tokStart))
        decreases |lexer.text| - tokStart
      {
        var next := ListRound(statements);
        if next.Err? {
          return Err(next.error);
        }
        statements := next.value;
        count := |statements|;
      }
      r := Ok(statements);
    }

    /**
     * One round of the loop of `statement_list`, on a ';': eat it, then, unless
     * the line ends there, check the cap and parse one more statement.
     */
    method ListRound(statements: seq<Node>) returns (r: Result<seq<Node>>)
      requires Valid() && currentToken.kind == SEMICOLON
      requires BodyOk(statements) && 1 <= |statements| <= MAX_STATEMENTS_PER_LINE
      modifies this, lexer
      ensures r.Err? ==> StatementListRest(lexer.text, statements, old(tokStart)) == Err(r.error)
      ensures r.Ok? ==> Valid() && old(tokStart) < tokStart
      ensures r.Ok? ==> BodyOk(r.value) && 1 <= |r.value| <= MAX_STATEMENTS_PER_LINE
      ensures r.Ok? ==> StatementListRest(lexer.text, r.value, tokStart) == StatementListRest(lexer.text, statements, old(tokStart))
      decreases |lexer.text| - tokStart, 10
    {
      ghost var q := tokStart;
      var e := Eat(SEMICOLON);
      if e.Fail? {
        return Err(e.error);
      }
      assert StatementListRest(lexer.text, statements, q) == ListItem(lexer.text, statements, tokStart);
      if currentToken.kind == EOF {
        return Ok(statements);
      }
      if |statements| >= MAX_STATEMENTS_PER_LINE {
        return Err(TooManyStatements);
      }
      ghost var q1 := tokStart;
      var stmt := Statement();
      if stmt.Err? {
        return Err(stmt.error);
      }
      assert Grammar.Statement(lexer.text, q1) == Ok((stmt.value, tokStart));
      r := Ok(statements + [stmt.value]);
    }

    /** `parse`: the statement list, which must use up the whole line. */
    method Parse() returns (r: Result<seq<Node>>)
      requires Valid()
      modifies this, lexer
      ensures r == ParseFrom(lexer.text, old(tokStart))
    {
      r := StatementList();
      if r.Err? {
        return;
      }
      if currentToken.kind != EOF {
        return Err(TrailingInput(currentToken.kind));
      }
    }
  }
}
