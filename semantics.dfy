/**
 * What the tree walker computes. Expressions are evaluated by a pure function
 * (they never change the store); statements by `Exec`, which threads the store
 * and the soft diagnostics and stops at the first hard failure. `while` has no
 * iteration bound in the interpreter, so `Exec` carries `fuel`: the number of
 * iterations each loop may still run, one less for every level of nesting.
 */
module Semantics {
  import opened Tokens
  import opened Outcomes
  import opened Ast

  const MAX_INT := 0x7FFF_FFFF
  const MAX_VARIABLE_COUNT := 50

  /** A Python value the interpreter can produce: None, an int or a bool. */
  datatype Value = NoneValue | Int(n: int) | Bool(b: bool)

  /** The messages printed for soft failures. */
  datatype Diagnostic = DivisionByZero | Undefined(name: string)

  /** The value of an expression (or its hard failure) and the diagnostics printed on the way. */
  datatype EvalOut = EvalOut(res: Result<Value>, diags: seq<Diagnostic>)

  /** The interpreter's state: GLOBAL_SCOPE and everything printed so far. */
  datatype State = State(scope: map<string, Value>, diags: seq<Diagnostic>)

  /** The value a statement yields (or its hard failure) and the state after it. */
  datatype Step = Step(res: Result<Value>, st: State)

  predicate InRange(v: int) {
    -MAX_INT <= v <= MAX_INT
  }

  /** `check_overflow`: results outside the symmetric range +-(2^31-1) raise. */
  function CheckOverflow(v: int): (r: Result<Value>)
    ensures r.Ok? <==> InRange(v)
    ensures r.Ok? ==> r.value == Int(v)
    ensures r.Err? ==> r.error == Overflow
  {
    if v > MAX_INT || v < -MAX_INT then Err(Overflow) else Ok(Int(v))
  }

  /** A bool takes part in arithmetic and `==` as 0 or 1. */
  function AsInt(v: Value): (n: int)
    requires v != NoneValue
    ensures v.Int? ==> n == v.n
    ensures v.Bool? ==> (n == 1 <==> v.b) && (n == 0 <==> !v.b)
  {
    match v
    case Int(n) => n
    case Bool(b) => if b then 1 else 0
  }

  /** Python truthiness: None, 0 and False are false. */
  predicate Truthy(v: Value) {
    match v
    case NoneValue => false
    case Int(n) => n != 0
    case Bool(b) => b
  }

  /** A condition that is not None holds exactly when its number is not 0; None never holds. */
  lemma TruthyIsNonZero(v: Value)
    ensures v == NoneValue ==> !Truthy(v)
    ensures v != NoneValue ==> (Truthy(v) <==> AsInt(v) != 0)
  {
  }

  /** Python's `//`: the quotient rounded toward negative infinity. */
  function FloorDiv(a: int, b: int): (q: int)
    requires b != 0
    ensures b > 0 ==> b * q <= a < b * q + b
    ensures b < 0 ==> b * q + b < a <= b * q
  {
    if b > 0 then a / b else (-a) / (-b)
  }

  /** The operator part of `visit_BinOp`, on two operands that are not None. */
  function Apply(op: Kind, a: Value, b: Value): (r: EvalOut)
    requires IsBinaryOperator(op) && a != NoneValue && b != NoneValue
    ensures IsComparison(op) ==> r.diags == [] && r.res.Ok? && r.res.value.Bool?
    ensures IsArithmetic(op) && r.res.Ok? && r.res.value != NoneValue ==>
              r.res.value.Int? && InRange(r.res.value.n) && r.diags == []
    ensures r.res.Ok? && r.res.value == NoneValue <==> op == DIV && AsInt(b) == 0
    ensures r.res.Err? ==> r.res.error == Overflow && r.diags == []
    ensures r.diags != [] ==> r.diags == [DivisionByZero]
  {
    var x, y := AsInt(a), AsInt(b);
    if op == PLUS then EvalOut(CheckOverflow(x + y), [])
    else if op == MINUS then EvalOut(CheckOverflow(x - y), [])
    else if op == MUL then EvalOut(CheckOverflow(x * y), [])
    else if op == GREATER then EvalOut(Ok(Bool(x > y)), [])
    else if op == LESS then EvalOut(Ok(Bool(x < y)), [])
    else if op == EQUALS then EvalOut(Ok(Bool(x == y)), [])
    else if y == 0 then EvalOut(Ok(NoneValue), [DivisionByZero])
    else EvalOut(CheckOverflow(FloorDiv(x, y)), [])
  }

  /**
   * The value of each operator: `+ - *` and `//` are checked against the
   * 32-bit bound, so a result outside it is the overflow error; the
   * comparisons compare the numbers (a bool counting as 1 or 0).
   */
  lemma ApplyValue(op: Kind, a: Value, b: Value)
    requires IsBinaryOperator(op) && a != NoneValue && b != NoneValue
    ensures var r := Apply(op, a, b);
            && (op == PLUS ==> r.res == CheckOverflow(AsInt(a) + AsInt(b)))
            && (op == MINUS ==> r.res == CheckOverflow(AsInt(a) - AsInt(b)))
            && (op == MUL ==> r.res == CheckOverflow(AsInt(a) * AsInt(b)))
            && (op == DIV && AsInt(b) != 0 ==> r.res == CheckOverflow(FloorDiv(AsInt(a), AsInt(b))))
            && (op == GREATER ==> r.res == Ok(Bool(AsInt(a) > AsInt(b))))
            && (op == LESS ==> r.res == Ok(Bool(AsInt(a) < AsInt(b))))
            && (op == EQUALS ==> r.res == Ok(Bool(AsInt(a) == AsInt(b))))
  {
  }

  /**
   * `visit` on an expression. A hard failure stops evaluation at once; the
   * diagnostics printed before it are kept. A None operand makes a BinOp None.
   */
  function Eval(e: Node, scope: map<string, Value>): (r: EvalOut)
    requires IsExpr(e)
    ensures r.res.Ok? && r.res.value != NoneValue ==> r.diags == []
    ensures r.res.Err? ==> r.res.error in {Overflow, NegateNone}
    ensures r.res.Ok? && e.BinOp? && IsArithmetic(e.op) && r.res.value.Int? ==> InRange(r.res.value.n)
    ensures r.res.Ok? && e.BinOp? && IsComparison(e.op) && r.res.value != NoneValue ==> r.res.value.Bool?
  {
    match e
    case Num(v) => EvalOut(Ok(Int(v)), [])
    case Var(name) =>
      if name in scope then EvalOut(Ok(scope[name]), []) else EvalOut(Ok(NoneValue), [Undefined(name)])
    case UnaryOp(x) =>
      var o := Eval(x, scope);
      if o.res.Err? then o
      else if o.res.value == NoneValue then EvalOut(Err(NegateNone), o.diags)
      else EvalOut(Ok(Int(-AsInt(o.res.value))), o.diags)
    case BinOp(l, op, r) =>
      var lo := Eval(l, scope);
      if lo.res.Err? then lo else Combine(op, lo, Eval(r, scope))
  }

  /** The rest of `visit_BinOp`, once the left operand has a value and the right one has been evaluated. */
  function Combine(op: Kind, lo: EvalOut, ro: EvalOut): (r: EvalOut)
    requires IsBinaryOperator(op) && lo.res.Ok?
    requires lo.res.value != NoneValue ==> lo.diags == []
    requires ro.res.Ok? && ro.res.value != NoneValue ==> ro.diags == []
    ensures r.res.Ok? && r.res.value != NoneValue ==> r.diags == []
    ensures ro.res.Err? ==> r == EvalOut(ro.res, lo.diags + ro.diags)
    ensures ro.res.Ok? && (lo.res.value == NoneValue || ro.res.value == NoneValue) ==>
              r == EvalOut(Ok(NoneValue), lo.diags + ro.diags)
    ensures ro.res.Ok? && lo.res.value != NoneValue && ro.res.value != NoneValue ==>
              r == Apply(op, lo.res.value, ro.res.value)
  {
    if ro.res.Err? then EvalOut(ro.res, lo.diags + ro.diags)
    else if lo.res.value == NoneValue || ro.res.value == NoneValue then EvalOut(Ok(NoneValue), lo.diags + ro.diags)
    else Apply(op, lo.res.value, ro.res.value)
  }

  /** Evaluate an expression inside a statement: its diagnostics are appended to the state's. */
  function EvalIn(e: Node, st: State): (r: Step)
    requires IsExpr(e)
    ensures r.st.scope == st.scope && st.diags <= r.st.diags
  {
    var o := Eval(e, st.scope);
    Step(o.res, State(st.scope, st.diags + o.diags))
  }

  /** `visit_Assign`: the capacity check comes before the right side is evaluated. */
  function ExecAssign(name: string, rhs: Node, st: State): (r: Step)
    requires IsExpr(rhs)
    ensures name !in st.scope && |st.scope| >= MAX_VARIABLE_COUNT ==> r == Step(Err(TooManyVariables), st)
    ensures r.res.Ok? ==> r.res.value == NoneValue && name in r.st.scope
    ensures r.res.Ok? ==> forall n | n in st.scope && n != name :: n in r.st.scope && r.st.scope[n] == st.scope[n]
    ensures r.res.Ok? ==> r.st.scope.Keys == st.scope.Keys + {name}
    ensures r.res.Err? ==> r.st.scope == st.scope
    ensures |st.scope| <= MAX_VARIABLE_COUNT ==> |r.st.scope| <= MAX_VARIABLE_COUNT
    ensures st.diags <= r.st.diags
  {
    if name !in st.scope && |st.scope| >= MAX_VARIABLE_COUNT then Step(Err(TooManyVariables), st)
    else
      var v := EvalIn(rhs, st);
      if v.res.Err? then v
      else Step(Ok(NoneValue), State(st.scope[name := v.res.value], v.st.diags))
  }

  /** `visit` on a statement. */
  function Exec(n: Node, st: State, fuel: nat): (r: Step)
    requires WellFormed(n)
    ensures r.res.Ok? && (n.Assign? || n.While?) ==> r.res.value == NoneValue
    decreases fuel, n, 1
  {
    match n
    case Assign(name, rhs) => ExecAssign(name, rhs, st)
    case IfThen(c, t) =>
      var cv := EvalIn(c, st);
      if cv.res.Err? then cv
      else if Truthy(cv.res.value) then Exec(t, cv.st, fuel)
      else Step(Ok(NoneValue), cv.st)
    case IfThenElse(c, t, f) =>
      var cv := EvalIn(c, st);
      if cv.res.Err? then cv
      else if Truthy(cv.res.value) then Exec(t, cv.st, fuel)
      else Exec(f, cv.st, fuel)
    case While(c, body) =>
      var w := Loop(c, body, st, fuel);
      if w.res.Err? then w else Step(Ok(NoneValue), w.st)
    case _ => EvalIn(n, st)
  }

  /** `visit_While`: re-test the condition before every iteration. */
  function Loop(c: Node, body: seq<Node>, st: State, fuel: nat): (r: Step)
    requires IsExpr(c) && AllWellFormed(body)
    ensures r.res.Ok? ==> r.res.value == NoneValue
    decreases fuel, body, 0
  {
    var cv := EvalIn(c, st);
    if cv.res.Err? then cv
    else if !Truthy(cv.res.value) then Step(Ok(NoneValue), cv.st)
    else if fuel == 0 then Step(Err(OutOfFuel), cv.st)
    else
      var b := ExecList(body, NoneValue, cv.st, fuel - 1);
      if b.res.Err? then b else Loop(c, body, b.st, fuel - 1)
  }

  /**
   * `visit_list`: run the statements in order, remembering the last value
   * (`last`, None before the first statement); a hard failure stops the run.
   */
  function ExecList(ss: seq<Node>, last: Value, st: State, fuel: nat): (r: Step)
    requires AllWellFormed(ss)
    ensures ss == [] ==> r == Step(Ok(last), st)
    ensures r.res.Ok? && ss != [] && (ss[|ss| - 1].Assign? || ss[|ss| - 1].While?) ==> r.res.value == NoneValue
    decreases fuel, ss, 2
  {
    if ss == [] then Step(Ok(last), st)
    else
      var s := Exec(ss[0], st, fuel);
      if s.res.Err? then s else ExecList(ss[1..], s.res.value, s.st, fuel)
  }

  /**
   * The value of a list is the value of its last statement: running one more
   * statement after a list that finished is running that statement.
   */
  lemma {:induction false} ExecListSnoc(ss: seq<Node>, s: Node, last: Value, st: State, fuel: nat)
    requires AllWellFormed(ss) && WellFormed(s)
    requires ExecList(ss, last, st, fuel).res.Ok?
    ensures AllWellFormed(ss + [s])
    ensures ExecList(ss + [s], last, st, fuel) == Exec(s, ExecList(ss, last, st, fuel).st, fuel)
    decreases ss
  {
    assert AllWellFormed(ss + [s]) by {
      forall i | 0 <= i < |ss + [s]| ensures WellFormed((ss + [s])[i]) {
        if i < |ss| { assert (ss + [s])[i] == ss[i]; }
      }
    }
    if ss == [] {
      assert [s][1..] == [];
    } else {
      var h := Exec(ss[0], st, fuel);
      assert (ss + [s])[0] == ss[0] && (ss + [s])[1..] == ss[1..] + [s];
      ExecListSnoc(ss[1..], s, h.res.value, h.st, fuel);
    }
  }

  /** The statement values `interpret` collects: those that are not None, in order. */
  datatype Run = Run(res: Result<seq<Value>>, st: State)

  /** The loop of `interpret` over the parsed statements, with the values collected so far. */
  function RunStatements(ss: seq<Node>, st: State, fuel: nat, acc: seq<Value>): (r: Run)
    requires AllWellFormed(ss)
    requires forall i | 0 <= i < |acc| :: acc[i] != NoneValue
    ensures r.res.Ok? ==> forall i | 0 <= i < |r.res.value| :: r.res.value[i] != NoneValue
    ensures r.res.Ok? ==> |acc| <= |r.res.value| <= |acc| + |ss|
    decreases ss
  {
    if ss == [] then Run(Ok(acc), st)
    else
      var s := Exec(ss[0], st, fuel);
      if s.res.Err? then Run(Err(s.res.error), s.st)
      else RunStatements(ss[1..], s.st, fuel, if s.res.value != NoneValue then acc + [s.res.value] else acc)
  }

  /**
   * `interpret` collects the statement values in order: running one more
   * statement after a line that finished either raises, or appends that
   * statement's value when it is not None and nothing otherwise.
   */
  lemma {:induction false} RunStatementsSnoc(ss: seq<Node>, s: Node, st: State, fuel: nat, acc: seq<Value>)
    requires AllWellFormed(ss) && WellFormed(s)
    requires forall i | 0 <= i < |acc| :: acc[i] != NoneValue
    requires RunStatements(ss, st, fuel, acc).res.Ok?
    ensures AllWellFormed(ss + [s])
    ensures var r := RunStatements(ss, st, fuel, acc);
            var x := Exec(s, r.st, fuel);
            RunStatements(ss + [s], st, fuel, acc) ==
              if x.res.Err? then Run(Err(x.res.error), x.st)
              else Run(Ok(r.res.value + if x.res.value != NoneValue then [x.res.value] else []), x.st)
    decreases ss
  {
    assert AllWellFormed(ss + [s]) by {
      forall i | 0 <= i < |ss + [s]| ensures WellFormed((ss + [s])[i]) {
        if i < |ss| { assert (ss + [s])[i] == ss[i]; }
      }
    }
    if ss == [] {
      assert [s][0] == s && [s][1..] == [];
      assert acc + [] == acc;
    } else {
      var h := Exec(ss[0], st, fuel);
      assert (ss + [s])[0] == ss[0] && (ss + [s])[1..] == ss[1..] + [s];
      var acc' := if h.res.value != NoneValue then acc + [h.res.value] else acc;
      RunStatementsSnoc(ss[1..], s, h.st, fuel, acc');
    }
  }

  /** An assignment or a loop at the end of a line adds no value to what the line collects. */
  lemma ValuelessStatementAddsNothing(ss: seq<Node>, s: Node, st: State, fuel: nat)
    requires AllWellFormed(ss) && WellFormed(s) && (s.Assign? || s.While?)
    requires RunStatements(ss, st, fuel, []).res.Ok?
    ensures AllWellFormed(ss + [s])
    ensures RunStatements(ss + [s], st, fuel, []).res.Ok? ==>
              RunStatements(ss + [s], st, fuel, []).res.value == RunStatements(ss, st, fuel, []).res.value
  {
    RunStatementsSnoc(ss, s, st, fuel, []);
    var r := RunStatements(ss, st, fuel, []);
    assert r.res.value + [] == r.res.value;
  }

  /** The variables an expression reads. */
  function Vars(e: Node): (xs: set<string>)
    requires IsExpr(e)
  {
    match e
    case Num(_) => {}
    case Var(name) => {name}
    case UnaryOp(x) => Vars(x)
    case BinOp(l, _, r) => Vars(l) + Vars(r)
  }

  /** The two stores agree on the names in `xs`: both lack a name or both hold the same value for it. */
  predicate Agree(s1: map<string, Value>, s2: map<string, Value>, xs: set<string>) {
    forall x | x in xs :: (x in s1 <==> x in s2) && (x in s1 ==> s1[x] == s2[x])
  }

  /** Two stores that agree on the variables of `e` give `e` the same value and the same messages. */
  lemma {:induction false} EvalFrame(e: Node, s1: map<string, Value>, s2: map<string, Value>)
    requires IsExpr(e) && Agree(s1, s2, Vars(e))
    ensures Eval(e, s1) == Eval(e, s2)
  {
    match e
    case Num(_) =>
    case Var(name) => assert name in Vars(e);
    case UnaryOp(x) =>
      assert Eval(x, s1) == Eval(x, s2) by { EvalFrame(x, s1, s2); }
    case BinOp(l, op, r) =>
      assert Eval(l, s1) == Eval(l, s2) by {
        assert Vars(l) <= Vars(e);
        EvalFrame(l, s1, s2);
      }
      assert Eval(r, s1) == Eval(r, s2) by {
        assert Vars(r) <= Vars(e);
        EvalFrame(r, s1, s2);
      }
      BinOpCongruence(l, op, r, s1, s2);
  }

  lemma BinOpCongruence(l: Node, op: Kind, r: Node, s1: map<string, Value>, s2: map<string, Value>)
    requires IsExpr(BinOp(l, op, r))
    requires Eval(l, s1) == Eval(l, s2) && Eval(r, s1) == Eval(r, s2)
    ensures Eval(BinOp(l, op, r), s1) == Eval(BinOp(l, op, r), s2)
  {
  }

  /** Every message an expression prints is a division by zero or a variable of it that is not defined. */
  lemma {:induction false} DiagnosticsExplained(e: Node, scope: map<string, Value>)
    requires IsExpr(e)
    ensures forall d | d in Eval(e, scope).diags ::
              d == DivisionByZero || (d.Undefined? && d.name in Vars(e) && d.name !in scope)
  {
    match e
    case Num(_) =>
    case Var(_) =>
    case UnaryOp(x) => DiagnosticsExplained(x, scope);
    case BinOp(l, _, r) => DiagnosticsExplained(l, scope); DiagnosticsExplained(r, scope);
  }

  /** A None operand makes the whole operation None, whatever the operator, once both sides are evaluated. */
  lemma NoneOperandGivesNone(l: Node, op: Kind, r: Node, scope: map<string, Value>)
    requires IsExpr(BinOp(l, op, r))
    requires Eval(l, scope).res.Ok? && Eval(r, scope).res.Ok?
    requires Eval(l, scope).res.value == NoneValue || Eval(r, scope).res.value == NoneValue
    ensures Eval(BinOp(l, op, r), scope) == EvalOut(Ok(NoneValue), Eval(l, scope).diags + Eval(r, scope).diags)
  {
  }

  /** Dividing by something that is 0 (or False) prints one message and yields None; it does not raise. */
  lemma DivisionByZeroIsSoft(l: Node, r: Node, scope: map<string, Value>)
    requires IsExpr(l) && IsExpr(r)
    requires Eval(l, scope).res.Ok? && Eval(l, scope).res.value != NoneValue
    requires Eval(r, scope).res.Ok? && Eval(r, scope).res.value != NoneValue && AsInt(Eval(r, scope).res.value) == 0
    ensures Eval(BinOp(l, DIV, r), scope) == EvalOut(Ok(NoneValue), [DivisionByZero])
  {
  }

  /** After `x = e` succeeds, reading `x` gives the value `e` had, without a message. */
  lemma AssignThenRead(name: string, rhs: Node, st: State)
    requires IsExpr(rhs)
    requires ExecAssign(name, rhs, st).res.Ok?
    ensures Eval(Var(name), ExecAssign(name, rhs, st).st.scope) == EvalOut(Eval(rhs, st.scope).res, [])
  {
  }

  /** With 50 variables defined, a new name is refused before its right side is evaluated; an existing one is updated. */
  lemma AssignAtCapacity(name: string, rhs: Node, st: State)
    requires IsExpr(rhs) && |st.scope| == MAX_VARIABLE_COUNT
    ensures name !in st.scope ==> ExecAssign(name, rhs, st) == Step(Err(TooManyVariables), st)
    ensures name in st.scope && Eval(rhs, st.scope).res.Ok? ==>
              ExecAssign(name, rhs, st).res.Ok? && |ExecAssign(name, rhs, st).st.scope| == MAX_VARIABLE_COUNT
  {
  }

  /** Negating None raises, keeping the messages printed while evaluating the operand. */
  lemma NegateNoneRaises(x: Node, scope: map<string, Value>)
    requires IsExpr(x) && Eval(x, scope).res == Ok(NoneValue)
    ensures Eval(UnaryOp(x), scope) == EvalOut(Err(NegateNone), Eval(x, scope).diags)
  {
  }

  /** Unary minus is not checked for overflow: negating the literal 2^31 gives -2^31, outside the checked range. */
  lemma NegationUnchecked(scope: map<string, Value>)
    ensures Eval(UnaryOp(Num(MAX_INT + 1)), scope).res == Ok(Int(-MAX_INT - 1))
    ensures !InRange(-MAX_INT - 1)
  {
  }

  /** Negating a value that is not None gives the negated number and keeps the operand's messages. */
  lemma NegationValue(x: Node, scope: map<string, Value>)
    requires IsExpr(x) && Eval(x, scope).res.Ok? && Eval(x, scope).res.value != NoneValue
    ensures var o := Eval(x, scope);
            Eval(UnaryOp(x), scope) == EvalOut(Ok(Int(-AsInt(o.res.value))), o.diags)
  {
  }

  /** `x = 2147483647 + 1` is fatal: the sum overflows, the exception propagates and nothing is bound. */
  lemma OverflowIsFatal(st: State)
    requires "x" in st.scope || |st.scope| < MAX_VARIABLE_COUNT
    ensures ExecAssign("x", BinOp(Num(MAX_INT), PLUS, Num(1)), st) == Step(Err(Overflow), st)
  {
    var rhs := BinOp(Num(MAX_INT), PLUS, Num(1));
    assert Eval(rhs, st.scope) == EvalOut(Err(Overflow), []);
    assert st.diags + [] == st.diags;
    assert EvalIn(rhs, st) == Step(Err(Overflow), st);
  }

  /** Assignments and loops never yield a value, and neither does an `if` whose condition is false. */
  lemma StatementsWithoutValue(n: Node, st: State, fuel: nat)
    requires WellFormed(n) && Exec(n, st, fuel).res.Ok?
    ensures n.Assign? || n.While? ==> Exec(n, st, fuel).res.value == NoneValue
    ensures n.IfThen? && !Truthy(Eval(n.condition, st.scope).res.value) ==> Exec(n, st, fuel).res.value == NoneValue
  {
  }

  /** A loop whose condition is false runs no iteration, however much fuel there is. */
  lemma WhileFalseCondition(c: Node, body: seq<Node>, st: State, fuel: nat)
    requires IsExpr(c) && AllWellFormed(body)
    requires Eval(c, st.scope).res.Ok? && !Truthy(Eval(c, st.scope).res.value)
    ensures Loop(c, body, st, fuel) == Step(Ok(NoneValue), State(st.scope, st.diags + Eval(c, st.scope).diags))
  {
  }

  /**
   * Fuel only bounds the observation: a run that did not stop for lack of fuel
   * gives the same result and state with any larger amount.
   */
  lemma {:induction false} ExecFuel(n: Node, st: State, f: nat, g: nat)
    requires WellFormed(n) && f <= g && Exec(n, st, f).res != Err(OutOfFuel)
    ensures Exec(n, st, g) == Exec(n, st, f)
    decreases f, n, 1
  {
    match n
    case Assign(_, _) =>
    case IfThen(c, t) =>
      var cv := EvalIn(c, st);
      if cv.res.Ok? && Truthy(cv.res.value) { ExecFuel(t, cv.st, f, g); }
    case IfThenElse(c, t, e) =>
      var cv := EvalIn(c, st);
      if cv.res.Ok? {
        if Truthy(cv.res.value) { ExecFuel(t, cv.st, f, g); } else { ExecFuel(e, cv.st, f, g); }
      }
    case While(c, body) => LoopFuel(c, body, st, f, g);
    case _ =>
  }

  lemma {:induction false} LoopFuel(c: Node, body: seq<Node>, st: State, f: nat, g: nat)
    requires IsExpr(c) && AllWellFormed(body) && f <= g && Loop(c, body, st, f).res != Err(OutOfFuel)
    ensures Loop(c, body, st, g) == Loop(c, body, st, f)
    decreases f, body, 0
  {
    var cv := EvalIn(c, st);
    if cv.res.Ok? && Truthy(cv.res.value) {
      var b := ExecList(body, NoneValue, cv.st, f - 1);
      assert ExecList(body, NoneValue, cv.st, g - 1) == b by {
        ExecListFuel(body, NoneValue, cv.st, f - 1, g - 1);
      }
      assert Loop(c, body, st, f) == if b.res.Err? then b else Loop(c, body, b.st, f - 1);
      assert Loop(c, body, st, g) == if b.res.Err? then b else Loop(c, body, b.st, g - 1);
      if b.res.Ok? {
        LoopFuel(c, body, b.st, f - 1, g - 1);
      }
    }
  }

  lemma {:induction false} ExecListFuel(ss: seq<Node>, last: Value, st: State, f: nat, g: nat)
    requires AllWellFormed(ss) && f <= g && ExecList(ss, last, st, f).res != Err(OutOfFuel)
    ensures ExecList(ss, last, st, g) == ExecList(ss, last, st, f)
    decreases f, ss, 2
  {
    if ss != [] {
      var s := Exec(ss[0], st, f);
      ExecFuel(ss[0], st, f, g);
      if s.res.Ok? { ExecListFuel(ss[1..], s.res.value, s.st, f, g); }
    }
  }

  /**
   * What running statements may do to the state: variables are added or
   * updated but never removed, messages are only appended, and a store of at
   * most 50 variables stays that way.
   */
  predicate Grows(a: State, b: State) {
    a.scope.Keys <= b.scope.Keys && a.diags <= b.diags &&
    (|a.scope| <= MAX_VARIABLE_COUNT ==> |b.scope| <= MAX_VARIABLE_COUNT)
  }

  lemma {:induction false} ExecGrows(n: Node, st: State, fuel: nat)
    requires WellFormed(n)
    ensures Grows(st, Exec(n, st, fuel).st)
    decreases fuel, n, 1
  {
    match n
    case Assign(_, _) =>
    case IfThen(c, t) =>
      var cv := EvalIn(c, st);
      if cv.res.Ok? && Truthy(cv.res.value) { ExecGrows(t, cv.st, fuel); }
    case IfThenElse(c, t, e) =>
      var cv := EvalIn(c, st);
      if cv.res.Ok? {
        if Truthy(cv.res.value) { ExecGrows(t, cv.st, fuel); } else { ExecGrows(e, cv.st, fuel); }
      }
    case While(c, body) => LoopGrows(c, body, st, fuel);
    case _ =>
  }

  lemma {:induction false} LoopGrows(c: Node, body: seq<Node>, st: State, fuel: nat)
    requires IsExpr(c) && AllWellFormed(body)
    ensures Grows(st, Loop(c, body, st, fuel).st)
    decreases fuel, body, 0
  {
    var cv := EvalIn(c, st);
    assert Grows(st, cv.st);
    if cv.res.Ok? && Truthy(cv.res.value) && fuel > 0 {
      var b := ExecList(body, NoneValue, cv.st, fuel - 1);
      ExecListGrows(body, NoneValue, cv.st, fuel - 1);
      if b.res.Ok? {
        LoopGrows(c, body, b.st, fuel - 1);
        assert Loop(c, body, st, fuel) == Loop(c, body, b.st, fuel - 1);
      } else {
        assert Loop(c, body, st, fuel) == b;
      }
    } else {
      assert Loop(c, body, st, fuel).st == cv.st;
    }
  }

  lemma {:induction false} ExecListGrows(ss: seq<Node>, last: Value, st: State, fuel: nat)
    requires AllWellFormed(ss)
    ensures Grows(st, ExecList(ss, last, st, fuel).st)
    decreases fuel, ss, 2
  {
    if ss != [] {
      var s := Exec(ss[0], st, fuel);
      ExecGrows(ss[0], st, fuel);
      if s.res.Ok? { ExecListGrows(ss[1..], s.res.value, s.st, fuel); }
    }
  }

  /** The same holds for the whole run of `interpret`, whether it finishes or stops at a failure. */
  lemma {:induction false} RunGrows(ss: seq<Node>, st: State, fuel: nat, acc: seq<Value>)
    requires AllWellFormed(ss)
    requires forall i | 0 <= i < |acc| :: acc[i] != NoneValue
    ensures Grows(st, RunStatements(ss, st, fuel, acc).st)
    decreases ss
  {
    if ss != [] {
      var s := Exec(ss[0], st, fuel);
      ExecGrows(ss[0], st, fuel);
      if s.res.Ok? {
        RunGrows(ss[1..], s.st, fuel, if s.res.value != NoneValue then acc + [s.res.value] else acc);
      }
    }
  }
}
