/**
 * The recursive-descent grammar as pure functions over lexer positions.
 *
 * A parser state is the position `q` from which the lexer scanned the current
 * token: the current token is `Cur(text, q)` and the lexer's cursor stands at
 * `Next(text, q)`. Each function returns the node it builds and the state after
 * it, or the failure it raises. The methods of class `Parser` are proved to
 * compute exactly these functions.
 */
module Grammar {
  import opened Tokens
  import opened Outcomes
  import opened Lexing
  import opened Ast

  const MAX_STATEMENTS_PER_LINE := 100

  /** `q` is a parser state: scanning from it produced a token. */
  predicate At(text: string, q: nat) {
    q <= |text| && Scan(text, q).Ok?
  }

  function Cur(text: string, q: nat): (t: Token)
    requires At(text, q)
    ensures Shaped(t)
  {
    Scan(text, q).value.0
  }

  function Next(text: string, q: nat): (p: nat)
    requires At(text, q)
    ensures q <= p <= |text|
  {
    Scan(text, q).value.1
  }

  /** A successful step moves forward to a parser state over recognised characters only. */
  predicate Moved<T>(text: string, q: nat, r: Result<(T, nat)>) {
    r.Ok? ==> q <= r.value.1 <= |text| && At(text, r.value.1) && q <= |text| && Recognized(text, q, r.value.1)
  }

  /** `eat(k)`: the next state when the current token is a `k`, otherwise the mismatch. */
  function Eat(text: string, q: nat, k: Kind): (r: Result<nat>)
    requires At(text, q)
    ensures r.Ok? <==> Cur(text, q).kind == k && Scan(text, Next(text, q)).Ok?
    ensures Cur(text, q).kind != k ==> r == Err(Expected(k, Cur(text, q).kind))
    ensures r.Ok? ==> r.value == Next(text, q) && At(text, r.value) && Recognized(text, q, r.value)
    ensures r.Ok? && Advances(k) ==> q < r.value
  {
    var t := Cur(text, q);
    if t.kind != k then Err(Expected(k, t.kind))
    else
      match Scan(text, Next(text, q))
      case Ok(_) => Ok(Next(text, q))
      case Err(e) => Err(e)
  }

  /** `lookahead`: the kind of the token after the current one. */
  function Peek(text: string, q: nat): (r: Result<Kind>)
    requires At(text, q)
    ensures r.Ok? <==> At(text, Next(text, q))
    ensures r.Ok? ==> r.value == Cur(text, Next(text, q)).kind
  {
    match Scan(text, Next(text, q))
    case Ok((t, _)) => Ok(t.kind)
    case Err(e) => Err(e)
  }

  function Variable(text: string, q: nat): (r: Result<(Node, nat)>)
    requires At(text, q)
    ensures Moved(text, q, r)
    ensures r.Ok? ==> Cur(text, q).kind == IDENTIFIER && r.value.0 == Var(Cur(text, q).value.s)
  {
    var t := Cur(text, q);
    match Eat(text, q, IDENTIFIER)
    case Err(e) => Err(e)
    case Ok(q1) => Ok((Var(t.value.s), q1))
  }

  function Factor(text: string, q: nat): (r: Result<(Node, nat)>)
    requires At(text, q)
    ensures Moved(text, q, r) && (r.Ok? ==> IsExpr(r.value.0))
    decreases |text| - q, 0
  {
    var t := Cur(text, q);
    if t.kind == PLUS then
      match Eat(text, q, PLUS)
      case Err(e) => Err(e)
      case Ok(q1) => Factor(text, q1)
    else if t.kind == MINUS then
      match Eat(text, q, MINUS)
      case Err(e) => Err(e)
      case Ok(q1) =>
        match Factor(text, q1)
        case Err(e) => Err(e)
        case Ok((x, q2)) => Ok((UnaryOp(x), q2))
    else if t.kind == INTEGER then
      match Eat(text, q, INTEGER)
      case Err(e) => Err(e)
      case Ok(q1) => Ok((Num(t.value.n), q1))
    else if t.kind == LPAREN then
      match Eat(text, q, LPAREN)
      case Err(e) => Err(e)
      case Ok(q1) =>
        match Expr(text, q1)
        case Err(e) => Err(e)
        case Ok((x, q2)) =>
          match Eat(text, q2, RPAREN)
          case Err(e) => Err(e)
          case Ok(q3) => Ok((x, q3))
    else
      Variable(text, q)
  }

  function Term(text: string, q: nat): (r: Result<(Node, nat)>)
    requires At(text, q)
    ensures Moved(text, q, r) && (r.Ok? ==> IsExpr(r.value.0))
    decreases |text| - q, 2
  {
    match Factor(text, q)
    case Err(e) => Err(e)
    case Ok((x, q1)) => TermRest(text, x, q1)
  }

  /** The loop of `term`: `acc` is the node built so far. */
  function TermRest(text: string, acc: Node, q: nat): (r: Result<(Node, nat)>)
    requires At(text, q) && IsExpr(acc)
    ensures Moved(text, q, r) && (r.Ok? ==> IsExpr(r.value.0))
    decreases |text| - q, 1
  {
    var t := Cur(text, q);
    if t.kind == MUL || t.kind == DIV then
      match Eat(text, q, t.kind)
      case Err(e) => Err(e)
      case Ok(q1) =>
        match Factor(text, q1)
        case Err(e) => Err(e)
        case Ok((x, q2)) => TermRest(text, BinOp(acc, t.kind, x), q2)
    else
      Ok((acc, q))
  }

  function Expr(text: string, q: nat): (r: Result<(Node, nat)>)
    requires At(text, q)
    ensures Moved(text, q, r) && (r.Ok? ==> IsExpr(r.value.0))
    decreases |text| - q, 4
  {
    match Term(text, q)
    case Err(e) => Err(e)
    case Ok((x, q1)) => ExprRest(text, x, q1)
  }

  /** The loop of `expr`: one flat level for `+ - > < ==`. */
  function ExprRest(text: string, acc: Node, q: nat): (r: Result<(Node, nat)>)
    requires At(text, q) && IsExpr(acc)
    ensures Moved(text, q, r) && (r.Ok? ==> IsExpr(r.value.0))
    decreases |text| - q, 3
  {
    var t := Cur(text, q);
    if t.kind == PLUS || t.kind == MINUS || t.kind == GREATER || t.kind == LESS || t.kind == EQUALS then
      match Eat(text, q, t.kind)
      case Err(e) => Err(e)
      case Ok(q1) =>
        match Term(text, q1)
        case Err(e) => Err(e)
        case Ok((x, q2)) => ExprRest(text, BinOp(acc, t.kind, x), q2)
    else
      Ok((acc, q))
  }

  /** The shape every statement-level function guarantees of its result. */
  predicate StatementResult(text: string, q: nat, r: Result<(Node, nat)>) {
    && Moved(text, q, r)
    && (r.Ok? ==> WellFormed(r.value.0) && ElseInnermost(r.value.0))
    && (r.Ok? && OpenIf(r.value.0) ==> Cur(text, r.value.1).kind != ELSE)
  }

  function AssignmentStatement(text: string, q: nat): (r: Result<(Node, nat)>)
    requires At(text, q)
    ensures StatementResult(text, q, r) && (r.Ok? ==> r.value.0.Assign?)
    ensures r.Ok? ==> Cur(text, q).kind == IDENTIFIER && r.value.0.name == Cur(text, q).value.s
    ensures r.Ok? ==> var q1 := Next(text, q);
              At(text, q1) && Cur(text, q1).kind == ASSIGN && Eat(text, q1, ASSIGN) == Ok(Next(text, q1))
              && Expr(text, Next(text, q1)) == Ok((r.value.0.rhs, r.value.1))
    decreases |text| - q, 5
  {
    match Variable(text, q)
    case Err(e) => Err(e)
    case Ok((v, q1)) =>
      match Eat(text, q1, ASSIGN)
      case Err(e) => Err(e)
      case Ok(q2) =>
        match Expr(text, q2)
        case Err(e) => Err(e)
        case Ok((x, q3)) => Ok((Assign(v.name, x), q3))
  }

  function IfThenStatement(text: string, q: nat): (r: Result<(Node, nat)>)
    requires At(text, q)
    ensures StatementResult(text, q, r)
    decreases |text| - q, 5
  {
    match Eat(text, q, IF)
    case Err(e) => Err(e)
    case Ok(q1) =>
      match Expr(text, q1)
      case Err(e) => Err(e)
      case Ok((c, q2)) => IfThenAfterCondition(text, c, q2)
  }

  /** `if_then_statement` after its condition: 'then', the true statement, the optional 'else'. */
  function IfThenAfterCondition(text: string, c: Node, q: nat): (r: Result<(Node, nat)>)
    requires At(text, q) && IsExpr(c)
    ensures StatementResult(text, q, r)
    decreases |text| - q, 5
  {
    match Eat(text, q, THEN)
    case Err(e) => Err(e)
    case Ok(q1) =>
      match Statement(text, q1)
      case Err(e) => Err(e)
      case Ok((s, q2)) => ElsePart(text, c, s, q2)
  }

  /** An 'else' right after the true statement is taken by this `if`. */
  function ElsePart(text: string, c: Node, s: Node, q: nat): (r: Result<(Node, nat)>)
    requires At(text, q) && IsExpr(c) && WellFormed(s) && ElseInnermost(s)
    requires OpenIf(s) ==> Cur(text, q).kind != ELSE
    ensures StatementResult(text, q, r)
    ensures r.Ok? && Cur(text, q).kind == ELSE ==> r.value.0.IfThenElse? && r.value.0.condition == c && r.value.0.trueStmt == s
    ensures r.Ok? && Cur(text, q).kind != ELSE ==> r == Ok((IfThen(c, s), q))
    decreases |text| - q, 5
  {
    if Cur(text, q).kind == ELSE then
      match Eat(text, q, ELSE)
      case Err(e) => Err(e)
      case Ok(q1) =>
        match Statement(text, q1)
        case Err(e) => Err(e)
        case Ok((f, q2)) => Ok((IfThenElse(c, s, f), q2))
    else
      Ok((IfThen(c, s), q))
  }

  function WhileStatement(text: string, q: nat): (r: Result<(Node, nat)>)
    requires At(text, q)
    ensures StatementResult(text, q, r)
    decreases |text| - q, 5
  {
    match Eat(text, q, WHILE)
    case Err(e) => Err(e)
    case Ok(q1) =>
      match Expr(text, q1)
      case Err(e) => Err(e)
      case Ok((c, q2)) =>
        match Eat(text, q2, DO)
        case Err(e) => Err(e)
        case Ok(q3) => WhileBody(text, c, q3)
  }

  /** `while_statement` from its '{' to its '}'. */
  function WhileBody(text: string, c: Node, q: nat): (r: Result<(Node, nat)>)
    requires At(text, q) && IsExpr(c)
    ensures StatementResult(text, q, r) && (r.Ok? ==> r.value.0.While? && r.value.0.condition == c)
    decreases |text| - q, 5
  {
    match Eat(text, q, LBRACE)
    case Err(e) => Err(e)
    case Ok(q1) =>
      match Block(text, [], q1)
      case Err(e) => Err(e)
      case Ok((body, q2)) =>
        match Eat(text, q2, RBRACE)
        case Err(e) => Err(e)
        case Ok(q3) => Ok((While(c, body), q3))
  }

  predicate BodyOk(ss: seq<Node>) {
    forall i | 0 <= i < |ss| :: WellFormed(ss[i]) && ElseInnermost(ss[i])
  }

  /** The block result: more statements after `acc`, stopping on the '}' (left for the caller). */
  predicate BlockResult(text: string, acc: seq<Node>, q: nat, r: Result<(seq<Node>, nat)>) {
    && Moved(text, q, r)
    && (r.Ok? ==> BodyOk(r.value.0) && acc <= r.value.0 && Cur(text, r.value.1).kind == RBRACE)
  }

  /** The loop of `while_statement`: `acc` holds the statements already parsed. */
  function Block(text: string, acc: seq<Node>, q: nat): (r: Result<(seq<Node>, nat)>)
    requires At(text, q) && BodyOk(acc)
    ensures BlockResult(text, acc, q, r)
    decreases |text| - q, 8
  {
    if Cur(text, q).kind == RBRACE then Ok((acc, q))
    else
      match Statement(text, q)
      case Err(e) => Err(e)
      case Ok((s, q1)) => BlockSeparator(text, acc + [s], q1)
  }

  /** After a body statement: ';' continues the block, '}' ends it, anything else fails. */
  function BlockSeparator(text: string, acc: seq<Node>, q: nat): (r: Result<(seq<Node>, nat)>)
    requires At(text, q) && BodyOk(acc)
    ensures BlockResult(text, acc, q, r)
    ensures Cur(text, q).kind == RBRACE ==> r == Ok((acc, q))
    ensures Cur(text, q).kind == SEMICOLON && Eat(text, q, SEMICOLON).Ok? ==> r == Block(text, acc, Next(text, q))
    ensures Cur(text, q).kind != SEMICOLON && Cur(text, q).kind != RBRACE ==> r == Err(ExpectedSeparator(Cur(text, q).kind))
    decreases |text| - q, 7
  {
    var k := Cur(text, q).kind;
    if k == SEMICOLON then
      match Eat(text, q, SEMICOLON)
      case Err(e) => Err(e)
      case Ok(q1) => Block(text, acc, q1)
    else if k == RBRACE then Ok((acc, q))
    else Err(ExpectedSeparator(k))
  }

  function Statement(text: string, q: nat): (r: Result<(Node, nat)>)
    requires At(text, q)
    ensures StatementResult(text, q, r)
    decreases |text| - q, 6
  {
    var k := Cur(text, q).kind;
    if k == IF then IfThenStatement(text, q)
    else if k == WHILE then WhileStatement(text, q)
    else if k == IDENTIFIER then
      match Peek(text, q)
      case Err(e) => Err(e)
      case Ok(k2) => if k2 == ASSIGN then AssignmentStatement(text, q) else Expr(text, q)
    else Expr(text, q)
  }

  function StatementList(text: string, q: nat): (r: Result<(seq<Node>, nat)>)
    requires At(text, q)
    ensures Moved(text, q, r)
    ensures r.Ok? ==> BodyOk(r.value.0) && 1 <= |r.value.0| <= MAX_STATEMENTS_PER_LINE
    ensures r.Ok? ==> Cur(text, r.value.1).kind != SEMICOLON
    decreases |text| - q, 11
  {
    match Statement(text, q)
    case Err(e) => Err(e)
    case Ok((s, q1)) => StatementListRest(text, [s], q1)
  }

  /** What the loop of `statement_list` guarantees, given the `acc` statements counted so far. */
  predicate ListResult(text: string, acc: seq<Node>, q: nat, r: Result<(seq<Node>, nat)>) {
    && Moved(text, q, r)
    && (r.Ok? ==> BodyOk(r.value.0) && acc <= r.value.0 && |r.value.0| <= MAX_STATEMENTS_PER_LINE)
    && (r.Ok? ==> Cur(text, r.value.1).kind != SEMICOLON)
  }

  /** The loop of `statement_list`: another round only after a ';'. */
  function StatementListRest(text: string, acc: seq<Node>, q: nat): (r: Result<(seq<Node>, nat)>)
    requires At(text, q) && BodyOk(acc) && 1 <= |acc| <= MAX_STATEMENTS_PER_LINE
    ensures ListResult(text, acc, q, r)
    decreases |text| - q, 9
  {
    if Cur(text, q).kind != SEMICOLON then Ok((acc, q))
    else
      match Eat(text, q, SEMICOLON)
      case Err(e) => Err(e)
      case Ok(q1) => ListItem(text, acc, q1)
  }

  /** After a ';': nothing more at EOF, the cap check, then the next statement. */
  function ListItem(text: string, acc: seq<Node>, q: nat): (r: Result<(seq<Node>, nat)>)
    requires At(text, q) && BodyOk(acc) && 1 <= |acc| <= MAX_STATEMENTS_PER_LINE
    ensures ListResult(text, acc, q, r)
    decreases |text| - q, 10
  {
    if Cur(text, q).kind == EOF then StatementListRest(text, acc, q)
    else if |acc| >= MAX_STATEMENTS_PER_LINE then Err(TooManyStatements)
    else
      match Statement(text, q)
      case Err(e) => Err(e)
      case Ok((s, q1)) => StatementListRest(text, acc + [s], q1)
  }

  /** `parse` from parser state `q`: a statement list that must be followed by EOF. */
  function ParseFrom(text: string, q: nat): (r: Result<seq<Node>>)
    requires At(text, q)
    ensures r.Ok? ==> BodyOk(r.value) && 1 <= |r.value| <= MAX_STATEMENTS_PER_LINE
    ensures r.Ok? ==> Recognized(text, q, |text|)
  {
    match StatementList(text, q)
    case Err(e) => Err(e)
    case Ok((ss, q1)) =>
      if Cur(text, q1).kind != EOF then Err(TrailingInput(Cur(text, q1).kind)) else Ok(ss)
  }

  /** The whole line: build the lexer and the parser (which scans the first token), then parse. */
  function Parse(text: string): (r: Result<seq<Node>>)
    ensures r.Ok? ==> BodyOk(r.value) && 1 <= |r.value| <= MAX_STATEMENTS_PER_LINE
    ensures r.Ok? ==> forall i | 0 <= i < |text| :: KnownChar(text[i])
  {
    if |text| == 0 then Err(EmptyText)
    else if Scan(text, 0).Err? then Err(Scan(text, 0).error)
    else ParseFrom(text, 0)
  }
}
